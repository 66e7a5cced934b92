# Keep-alive bot: a verified model of its core

The bot is a Telegram assistant that keeps a user's other bots awake. From a
per-chat settings record it runs a repeating job that, through a user account,
sends `/start` to each target bot and to itself, then reports the result. The
chat edits the record through a menu-driven conversation. This project models:

- the settings store: the default record, `load_data`, which merges the stored document over the defaults, and `save_data`, which drops `_id` and upserts with `$set`;
- target-list editing:
  - handle extraction with `re.findall(r"@[a-zA-Z0-9_]{5,32}")`;
  - bulk add, with deduplication, the bot's own handle skipped, and the list stored sorted;
  - removal through the `remove_<handle>` button;
- the job lifecycle: `toggle_pinger`, `save_interval`, `post_init` and the per-cycle decisions of `ping_bots_task`;
- the conversation handler's state table, including what python-telegram-bot does with a handler that returns `None` or `END`.

Modules:

| file | module | contents |
|---|---|---|
| `options.dfy` | `Options` | `Option` |
| `decimal.dfy` | `Decimal` | `str(int)` and `int(str)` on decimal digits, with their round trip |
| `strorder.dfy` | `StrOrder` | Python's string order, and `sorted` on a set of strings |
| `store.dfy` | `Store` | documents as maps, `Load`, `Save` and their round trips |
| `handles.dfy` | `Handles` | `FindAll`, the bulk-add classification, `str.replace("remove_", "")`, `list.remove` |
| `jobs.dfy` | `Jobs` | the job queue: naming, start, stop and reschedule |
| `conversation.dfy` | `Conversation` | routing of an update and the state transition table |
| `bot.dfy` | `KeepAlive` | class `Bot` (store, job queue, conversation states) and one method per handler |

The class `Bot` keeps the store (`map<ChatId, Doc>`), the job queue (`seq<Job>`)
and each chat's conversation state as fields. Its invariant `Valid` says two things:

- every stored document has the field types this program writes and carries its own chat id as `_id`;
- every job is named `pinger_job_<chat>`.

Each handler method states its new store and job queue in terms of the pure functions `Load`, `Save`, `Stopped`, `Started` and `Rescheduled`. The lemmas are proved about those functions.

Inputs the program takes from outside become parameters:

- whether the database client exists (`dbUp`);
- the bot's own handle (`get_me`);
- whether the userbot client starts (`acquired`);
- what sending `/start` to each target raises (`attempt`);
- whether the report is delivered (`delivered`).

Iterating over a set, and over the cursor of running documents, picks elements in an unspecified order.

A reader might expect one job per chat, the ping task to remove its own job when it stops the pinger, a second prompt after an invalid interval, and a change of state on the menu buttons. The code does otherwise, and the model follows the code:

- **Jobs stack.** Starting the pinger appends a job without removing the chat's existing ones, so a chat can have several (`StartedStacks`).
- **The ping task keeps its job.** When it stops the pinger, it clears the flag but does not remove the job.
- **Invalid interval.** An invalid interval returns to the main menu; the prompt is not shown again.
- **Menu buttons keep the state.** `show_main_menu` returns `None`, so "status_check" and "main_menu" leave the conversation in the state they were pressed in.

## Model

| member | source | states |
|---|---|---|
| Store.Defaults | main.py:68-75 | `get_default_data`: session `None`, no targets, an interval of 420 seconds, not running |
| Store.Truthy | main.py:100 | Python's truth value: `None`, `False`, `0`, the empty string and the empty list are false, everything else true |
| Store.Get | main.py:287 | `d.get(key, default)`: the stored value if the key is present, the default otherwise |
| Store.IsRunning | main.py:287 | `data.get("is_running", False)` taken as a condition |
| Store.HasSession | main.py:293 | `data.get("userbot_session")` taken as a condition: a non-empty session string |
| Store.TargetsOf | main.py:240 | `data.get("target_bots", [])` |
| Store.IntervalOf | main.py:313 | `get("ping_interval_seconds", 420)` |
| Store.Load | main.py:68-83 | all four default keys are present; a stored field overrides its default, an unstored one keeps it; with no client, or no document, the result is exactly the defaults |
| Store.Save | main.py:85-91 | with no client the store is unchanged; otherwise only this chat's document changes; every key of the dict except `_id` is set; every other key keeps its stored value; `_id` is the chat id when the document is new |
| Store.LoadMissing | main.py:68-83 | with no client, or no document, the loaded record has no session, no targets, interval 420, and is not running |
| Store.SaveThenLoad | main.py:77-91 | after a save, loading returns each saved key as saved and every other key (but `_id`) as before; other chats load as before |
| Store.LoadSaveLoad | main.py:77-91 | for a chat that has a document: load, change one setting (not `_id`), save, load: the result is exactly the changed record |
| Store.SaveOk | main.py:85-91 | saving a well-typed record keeps every document well typed and keyed by its own `_id` |
| Store.LoadWellTyped | main.py:77-83 | loading from a well-typed store gives a well-typed record |
| Store.MergeBack | main.py:77-91 | the map identity behind the round trip: a document holding `_id`, merged over the defaults, one key changed, merged back without `_id` and over the defaults again, is the changed record |
| Decimal.Digits | main.py:285 | the decimal digits of a natural number, most significant first, without leading zeros; at least one digit, two or more exactly from 10 on |
| Decimal.Show | main.py:285 | `str(i)`: a minus sign exactly for negative numbers, then the digits of the magnitude |
| Decimal.ParseInt | main.py:200 | `int(text)` on an optional sign and decimal digits; `None` exactly when the text is not of that form |
| Decimal.ParseShow | main.py:200 | `int(str(n)) == n` for every integer |
| Decimal.ShowInjective | main.py:285 | different chat ids give different decimal strings |
| Jobs.JobName | main.py:285 | `f"pinger_job_{chat_id}"` |
| Jobs.StartJob | main.py:298-300 | the job a start or reschedule adds: the chat's job name, the given interval, first run after one second |
| Jobs.RestoreJob | main.py:315-317 | the job `post_init` adds: the chat's job name, the stored interval, first run after ten seconds |
| Jobs.Stopped | main.py:290 | the queue without every job named after the chat |
| Jobs.Started | main.py:298-300 | the queue with one start job appended, whatever the chat already has |
| Jobs.Rescheduled | main.py:209-212 | the chat's jobs removed, then one start job at the new interval appended |
| Jobs.JobNameInjective | main.py:285 | different chats never share a job name `pinger_job_<chat>` |
| Jobs.Named | main.py:209 | `get_jobs_by_name` selects exactly the queued jobs with that name |
| Jobs.Without | main.py:209 | after `schedule_removal` on each, exactly the jobs with another name remain, and the two parts add up to the queue |
| Jobs.StoppedLeavesNone | main.py:290 | after a stop the chat has no job |
| Jobs.StartedStacks | main.py:298-300 | a start adds one job to those the chat already has; it does not replace them |
| Jobs.RescheduledLeavesOne | main.py:209-212 | after a reschedule the chat has exactly one job, at the new interval, first run after one second |
| Jobs.StoppedKeepsOthers | main.py:290 | stopping one chat leaves every other chat's jobs as they were, in order |
| Jobs.StartThenStop | main.py:290-300 | starting then stopping a chat leaves the queue as stopping alone would |
| Jobs.NamedCount | main.py:209 | `get_jobs_by_name` selects every copy of a job with the name, so two equal stacked jobs are both selected, and no job with another name |
| Jobs.NamedSingle | main.py:314-317 | a name exactly one queued job carries selects just that job |
| Jobs.NamedAppend | main.py:209 | `get_jobs_by_name` on a queue split in two is its result on each part, in order |
| Jobs.NamedNone | main.py:209 | a name no job carries selects nothing |
| StrOrder.Below | main.py:253 | Python's `a < b` on strings: the first differing code point decides, and a proper prefix comes first |
| StrOrder.SortedSeq | main.py:253 | `sorted(list(s))`: strictly increasing in Python's string order, with exactly the elements of `s` |
| StrOrder.SortedUnique | main.py:253 | two strictly sorted lists with the same elements are equal |
| StrOrder.SortedSeqCanonical | main.py:253 | `SortedSeq(s)` is the only strictly sorted list of the elements of `s` |
| StrOrder.BelowTotal | main.py:253 | Python's string order is total: two different strings are ordered one way or the other |
| StrOrder.BelowTransitive | main.py:253 | Python's string order is transitive |
| Handles.IsHandle | main.py:226 | a string the whole pattern matches: `@` followed by 5 to 32 ASCII letters, digits or underscores |
| Handles.RunTo | main.py:226 | the length of the unbroken run of word characters from a position, up to a limit: all word characters, and the next one (before the limit) is not |
| Handles.Run | main.py:226 | the greedy `{5,32}` quantifier: the word characters after the `@`, at most 32 of them, stopping only at a non-word character, the end of the text, or 32 |
| Handles.MatchAt | main.py:226 | the pattern matches at a position: an `@` followed by at least five word characters |
| Handles.MatchLen | main.py:226 | the length of the greedy match at a position: the `@` and its run |
| Handles.SpansFrom | main.py:226 | the matches `findall` reports: scanning left to right, taking the greedy match wherever one starts and resuming right after it |
| Handles.FindAll | main.py:226 | every string found is a handle: `@` followed by 5 to 32 word characters; nothing is found exactly when no position starts a match |
| Handles.SpansAreHandles | main.py:226 | every span found lies inside the text and spells a handle |
| Handles.MatchIsHandle | main.py:226 | the greedy match at a matching position lies inside the text and is a handle |
| Handles.NoSpansNoMatch | main.py:226 | no span is found exactly when no position of the text starts a match |
| Handles.SpansSound | main.py:226 | each span found is a match, as long as the greedy pattern takes, starting at or after the scan position |
| Handles.SpansOrdered | main.py:226 | the spans found run left to right and do not overlap |
| Handles.SpansComplete | main.py:226 | every position where a match could start is inside some span found |
| Handles.Classify | main.py:240-249 | the bulk-add loop run over the handles found, starting from the set of stored targets; its properties are the `Classify…` lemmas below |
| Handles.ClassifyNext | main.py:243-249 | one iteration: the bot's own handle is skipped as "it's me", a handle already in the set is skipped as "already added", any other is added to both the list and the set |
| Handles.ClassifySpec | main.py:240-249 | every handle found is added or skipped, never both (multiset partition); a handle is added exactly when it is not the bot and not already in the list or earlier in the message; nothing is added twice; a skip names its reason correctly (the bot itself, or a handle stored before or repeated in the message); the seen set is the old list plus the added handles |
| Handles.ClassifySeen | main.py:240-249 | the set grown is the stored list plus the added handles; a handle is added exactly when it is neither the bot nor already present |
| Handles.ClassifyPartition | main.py:242-249 | the added and skipped handles together are exactly the handles found, counted with repetition |
| Handles.ClassifyNoDuplicates | main.py:247-249 | no handle is added twice, even when the message repeats it |
| Handles.ClassifySkips | main.py:243-246 | a skip is marked "it's me" exactly when the handle is the bot's own; an "already added" handle that was not stored before occurs at least twice in the message |
| Handles.ClassifyPrefix | main.py:242-249 | classifying one more handle of the message is one more loop step: it is skipped as the bot, skipped as already present, or added |
| Handles.StripAll | main.py:272 | `replace("remove_", "")` never lengthens the text |
| Handles.StripAllNoOccurrence | main.py:272 | text without `remove_` is left unchanged |
| Handles.RemoveButtonRoundTrip | main.py:272 | the button `remove_<h>` gives back `h` when `h` itself does not contain `remove_` |
| Handles.StripAllShortens | main.py:272 | `replace("remove_", "")` on text that contains `remove_` gives a strictly shorter string |
| Handles.ButtonMangles | main.py:272 | the button `remove_<h>` of any handle `h` that contains `remove_` gives back a string other than `h` |
| Handles.StripAllDrops | main.py:272 | a leading `remove_` is deleted |
| Handles.StripAllKeeps | main.py:272 | a prefix holding no `r` passes through `replace` unchanged, whatever follows it |
| Handles.RemoveButtonMangles | main.py:272 | an example: a handle with one inner `remove_` and no other `r`, such as `@auto_remove_bot`, comes back with that part deleted (`@auto_bot`) |
| Handles.IndexOf | main.py:275 | the position of the first occurrence |
| Handles.RemoveFirst | main.py:275 | `list.remove`: one element shorter, one occurrence fewer, everything before the first occurrence and everything after it kept in order |
| Conversation.Pattern | main.py:383-395 | `re.match("^word$", data)`: the word itself, or the word and a final newline, which `$` also accepts |
| Conversation.RemovePattern | main.py:394 | `re.match("^remove_.*$", data)`: starts with `remove_` and has no newline after it except possibly a last one |
| Conversation.StateHandler | main.py:381-396 | the handlers each state registers, tried in order: the menu's five buttons, the three text prompts, the target list's three buttons |
| Conversation.Fallback | main.py:398 | the fallbacks `/cancel` and `/start`, tried when no handler of the state matches |
| Conversation.Returns | main.py:152-365 | what each handler returns: `start` the menu, or END without a client; the prompts their state; `show_main_menu` nothing; the savers the menu; `save_bot_username` the prompt when no handle is found and the target list otherwise; `remove_bot` the target list |
| Conversation.After | main.py:379-399 | how python-telegram-bot applies a returned value: a state is entered, `None` keeps the current state, END leaves the conversation |
| Conversation.Writes | main.py:188-303 | the five handlers that save settings or change jobs: `save_session_string`, `save_interval`, `save_bot_username`, `remove_bot` and `toggle_pinger` |
| Conversation.Route | main.py:379-399 | outside a conversation only `/start` is handled; the three text handlers receive only text; `remove_bot` receives only data matching `^remove_.*$` |
| Conversation.Step | main.py:379-399 | `/start` always leads to the menu, or out of the conversation when there is no client; `/cancel` inside the conversation always leads to the menu (outside it, nothing handles it and the chat stays outside); an unmatched update keeps the state; any text in the interval or session prompt leads to the menu; text in the add prompt stays there only when it holds no handle |
| Conversation.MenuButtonsLead | main.py:382-386 | in the menu, "set_session" opens the session prompt, "manage_bots" the target list, "set_interval" the interval prompt, and "toggle_pinger" returns to the menu |
| Conversation.ListButtonsLead | main.py:393-394 | in the target list, "add_bot_prompt" opens the add prompt and a `remove_…` button stays in the list |
| Conversation.MainMenuKeepsState | main.py:395 | "main_menu" in the target list reaches `show_main_menu`, which returns nothing, so the target list stays the state |
| Conversation.StatusCheckKeepsState | main.py:387 | "status_check" in the menu reaches `show_main_menu`, which returns nothing, so the menu stays the state |
| Conversation.PromptsEnteredByTheirButton | main.py:383-393 | each prompt state is entered only from its own button in the right menu |
| KeepAlive.LineFor | main.py:126-131 | a report line: OK when sending raised nothing, otherwise the error's type name |
| KeepAlive.RunningChats | main.py:311 | `find({"is_running": True})`: the chats whose document holds `is_running: true` |
| KeepAlive.Minutes | main.py:200-201 | `int(text)` when it is a positive number, nothing otherwise |
| KeepAlive.TargetSet | main.py:111-112 | the handles to ping are the bot itself and each stored target, each once |
| KeepAlive.ReportsEach | main.py:124-131 | the report has exactly one line per handle pinged, each saying what sending `/start` to it raised |
| KeepAlive.ReportStep | main.py:125-131 | pinging one more handle adds exactly its line, and the report still has one line per handle pinged |
| KeepAlive.PingEach | main.py:124-131 | the report has one line per handle: `OK`, or the name of the error that handle raised; no handle twice, none missing |
| KeepAlive.RestoresEach | main.py:311-317 | exactly one restore job per chat restored, at that chat's stored interval |
| KeepAlive.RestoreEach | main.py:311-317 | one restore job per document with `is_running` true, at its stored interval (420 when missing), first run after ten seconds; no chat twice |
| KeepAlive.RestoreStep | main.py:311-317 | restoring one more running chat adds exactly its job, and there is still one job per chat restored |
| KeepAlive.RestoredOnce | main.py:305-318 | after a restore each running chat has exactly one job, and no other chat has any |
| KeepAlive.AddEach | main.py:236-249 | the loop's added list, skipped list and seen set are those `Classify` specifies |
| KeepAlive.ToggleOn | main.py:292-300 | toggling a stopped chat that has a session (`Toggled`): it has a document, its settings read back with the flag set, and one job is appended at the stored interval |
| KeepAlive.ToggleOff | main.py:287-291 | toggling a running chat that has a document (`Toggled`): its settings read back with the flag cleared, and the chat's jobs are removed |
| KeepAlive.ToggleTwice | main.py:279-303 | two toggles (`Toggled`, what `TogglePinger` ensures) of a stopped chat that has a session: the first leaves it running; after the second the settings read as at the start, the queue is what a stop alone leaves, and the chat has no job |
| KeepAlive.MinutesOfShow | main.py:200-201 | a positive whole number of minutes, written in digits, is accepted as itself |
| KeepAlive.IntervalReadBack | main.py:202-204 | an accepted interval reads back as that many minutes in seconds |
| KeepAlive.SessionSaved | main.py:188-195 | the effect of `save_session_string` on the store: the text becomes the chat's session |
| KeepAlive.IntervalSaved | main.py:197-217 | the effect of `save_interval`: a positive number of minutes is saved in seconds and a running chat's jobs are rescheduled to one; any other text changes nothing |
| KeepAlive.TargetsAdded | main.py:220-266 | the effect of `save_bot_username` on the store: when the message holds handles and one is new, the sorted union of stored and new handles is saved; otherwise nothing changes |
| KeepAlive.TargetRemoved | main.py:269-277 | the effect of `remove_bot` on the store: the button's handle, if listed, loses its first occurrence; otherwise nothing changes |
| KeepAlive.Toggled | main.py:279-303 | the effect of `toggle_pinger`: a running chat is stopped and its jobs removed; a stopped one with a session is started and one job appended; otherwise, or without a client, nothing changes |
| KeepAlive.Bot.constructor | main.py:51-64 | the bot starts with the given store, no jobs and no conversations |
| KeepAlive.Bot.LoadData | main.py:77-83 | returns `Load` of the current store, a well-typed record |
| KeepAlive.Bot.SaveData | main.py:85-91 | the store becomes `Save` of the old store; the invariant is kept |
| KeepAlive.Bot.RunRepeating | main.py:298-300 | one job named after the chat is appended |
| KeepAlive.Bot.RemoveJobs | main.py:290 | the queue becomes `Stopped` of the old queue |
| KeepAlive.Bot.SaveSessionString | main.py:188-195 | the message text is saved as the session; the next state is the menu |
| KeepAlive.Bot.SaveInterval | main.py:197-217 | a positive number of minutes is saved in seconds, and if the pinger runs the chat's jobs are rescheduled to one; any other text changes neither store nor jobs; the next state is the menu either way |
| KeepAlive.Bot.SaveBotUsername | main.py:220-266 | no handle found: the state stays at the prompt and nothing is saved; otherwise the added and skipped lists are `Classify`'s, the sorted union is saved only if something was added, and the next state is the target list |
| KeepAlive.Bot.RemoveBot | main.py:269-277 | the first occurrence of the stripped handle is removed and the list saved; if it is absent nothing changes; the next state is the target list |
| KeepAlive.Bot.TogglePinger | main.py:279-303 | running: the flag is cleared and every job of the chat removed; stopped with a session: the flag is set and one more job appended at the stored interval; stopped without one, or no client: nothing changes; the next state is the menu |
| KeepAlive.Bot.PostInit | main.py:305-318 | with no client nothing happens; otherwise existing jobs are kept and the restore jobs are appended after them; the store is not written |
| KeepAlive.Bot.PingBotsTask | main.py:95-138 | stopped: nothing; no session: the flag is cleared; the userbot fails or the report is not delivered: the flag is cleared; otherwise the report has one line per handle of `set(targets + [me])` and nothing is written; the job is never removed |
| KeepAlive.Bot.Current | main.py:379-399 | the chat's current conversation state, none when it is outside the conversation |
| KeepAlive.Bot.HandleUpdate | main.py:379-399 | the chat's conversation state becomes `Step`'s result; an update that reaches no saving handler changes neither store nor jobs; an update that reaches one of the five saving handlers changes them exactly as that handler's method states (`Toggled`, `SessionSaved`, `IntervalSaved`, `TargetsAdded`, `TargetRemoved`) |

## Left out

- The health-check web server and its thread (main.py:28-39, 368-371): HTTP and threading.
- Connecting to the database (main.py:51-64): it is a flag, `dbUp`, plus a map standing for the `settings` collection.
- Database errors: the client is created without connecting (main.py:58), so `client` is missing only for a malformed URI, and `dbUp` false models only that case. With a server that cannot be reached, including the fallback localhost URI (main.py:55), every `find_one`, `update_one` and `find` (main.py:80, 91, 311) raises instead. The handler then stops with nothing saved and its conversation state unchanged, and `post_init` stops the start-up. None of these exceptions is modelled.
- KeepAlive.Bot.SaveData: does not model the BSON encoder's 8-byte integer limit. In the code, `update_one` (main.py:91) raises for an integer outside -2^63..2^63-1 and nothing is saved; the model stores any `Int`.
- KeepAlive.Bot.RunRepeating: does not model the range of a `timedelta`. An interval above about 8.64·10^13 seconds (999999999 days) makes `run_repeating` raise; the model appends the job whatever the interval.
- KeepAlive.Bot.SaveInterval: does not model the two overflows above. If the minutes times 60 exceed 2^63-1, the save raises. `except (ValueError, TypeError)` (main.py:215) does not catch that, so nothing is saved, no menu is shown and the state stays in the interval prompt. If the seconds only exceed the `timedelta` range and the pinger runs, the chat's jobs are removed (main.py:209) before `run_repeating` raises, which leaves the chat marked running with no job. The model saves, reschedules, and returns to the menu.
- KeepAlive.Bot.TogglePinger: with a stored interval beyond the `timedelta` range, the start path saves `is_running: true` (main.py:297) and then raises at main.py:298 with no job added; the model appends the job.
- KeepAlive.Bot.PostInit: a running document whose interval is beyond the `timedelta` range makes `run_repeating` (main.py:315) raise, which stops the restore loop and the start-up; the model restores a job for it.
- Conversation.Step: a handler that raises leaves the conversation state as it was. The model has no such outcome, so an interval text whose seconds overflow 8 bytes leads to the menu in `Step`, where the code stays in the interval prompt.
- The userbot client, `send_message` to the targets and `context.bot.get_me`: network calls. They are the oracle parameters `acquired`, `attempt`, `delivered` and `me`.
- A failing `send_message` to the chat itself outside the guarded block (main.py:106, 116, 137): it is assumed to succeed. In the code such a failure would propagate and skip the save that follows.
- Keyboards, menus and every reply text (main.py:163-186, 321-361): only the state each handler returns is modelled. `show_main_menu` and `manage_bots_menu` only display settings.
- The displayed interval in minutes (main.py:169, 301): floating point, display only.
- Timing: `first` and `interval` are recorded as job fields, and `schedule_removal` takes effect at once; asyncio scheduling and concurrency are not modelled.
- Decimal.ParseInt: `int()` also accepts surrounding whitespace, `_` between digits and non-ASCII digits, and refuses more than 4300 digits; the model accepts only an optional sign followed by ASCII digits.
- The branch for an empty set of handles to ping (main.py:114-118) cannot be taken: the set always holds the bot's own handle (`TargetSet`). It is not modelled.
- Store documents are assumed to hold values of the types this program writes (`Valid`); a document edited by hand to hold, say, a string interval is not modelled.
- The conversation is keyed per chat; python-telegram-bot keys it per chat and user, which is the same in a private chat.
- KeepAlive.Bot.SaveData: `data.pop('_id')` also removes `_id` from the caller's dict; no caller reads `_id` afterwards, so the model leaves the dict unchanged.
- Handlers that only show a menu or a prompt (`start` apart from its client check, `cancel`, the three prompts, `manage_bots_menu`, `show_main_menu`) are modelled only by the state they return, in `Conversation.Returns`.
