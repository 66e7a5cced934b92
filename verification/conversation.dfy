/**
 * The conversation handler of `main`: which handler an update reaches in each
 * state, and the state the conversation is in afterwards. A handler returns a
 * state, `None` (the state is kept) or END (the chat leaves the conversation).
 */
module Conversation {
  import opened Options
  import Handles

  datatype State = SelectingAction | AwaitBotUsername | AwaitSessionString | AwaitInterval | ManageBots

  /** An update: a command message, a text message that is not a command, or a button press. */
  datatype Event = Command(name: string) | Text(text: string) | Callback(data: string)

  datatype Handler =
    | Start | Cancel | PromptSessionString | ManageBotsMenu | PromptInterval | TogglePinger
    | ShowMainMenu | SaveSessionString | SaveInterval | SaveBotUsername | PromptAddBot | RemoveBot

  /** The handlers that read or write the settings or the jobs; the others only show a menu or a prompt. */
  predicate Writes(h: Handler) {
    h.TogglePinger? || h.SaveSessionString? || h.SaveInterval? || h.SaveBotUsername? || h.RemoveBot?
  }

  /** What a handler returns. */
  datatype Outcome = Goto(state: State) | Keep | End

  /** `re.match("^word$", data)`; `$` also matches just before a final newline. */
  predicate Pattern(data: string, word: string) {
    data == word || data == word + "\n"
  }

  /** `re.match("^remove_.*$", data)`: `.` stops at a newline, which may only be the last character. */
  predicate RemovePattern(data: string) {
    && |data| >= |Handles.REMOVE_PREFIX|
    && data[..|Handles.REMOVE_PREFIX|] == Handles.REMOVE_PREFIX
    && forall i :: |Handles.REMOVE_PREFIX| <= i < |data| - 1 ==> data[i] != '\n'
  }

  /** The handlers registered for each state, tried in order. */
  function StateHandler(s: State, ev: Event): Option<Handler> {
    match s
    case SelectingAction =>
      if !ev.Callback? then None
      else if Pattern(ev.data, "set_session") then Some(PromptSessionString)
      else if Pattern(ev.data, "manage_bots") then Some(ManageBotsMenu)
      else if Pattern(ev.data, "set_interval") then Some(PromptInterval)
      else if Pattern(ev.data, "toggle_pinger") then Some(TogglePinger)
      else if Pattern(ev.data, "status_check") then Some(ShowMainMenu)
      else None
    case AwaitSessionString => if ev.Text? then Some(SaveSessionString) else None
    case AwaitInterval => if ev.Text? then Some(SaveInterval) else None
    case AwaitBotUsername => if ev.Text? then Some(SaveBotUsername) else None
    case ManageBots =>
      if !ev.Callback? then None
      else if Pattern(ev.data, "add_bot_prompt") then Some(PromptAddBot)
      else if RemovePattern(ev.data) then Some(RemoveBot)
      else if Pattern(ev.data, "main_menu") then Some(ShowMainMenu)
      else None
  }

  /** The fallbacks, tried when no handler of the current state matches. */
  function Fallback(ev: Event): Option<Handler> {
    if ev == Command("cancel") then Some(Cancel)
    else if ev == Command("start") then Some(Start)
    else None
  }

  /**
   * The handler an update reaches: outside a conversation only the entry point
   * `/start`; inside, the current state's handlers, then the fallbacks.
   */
  function Route(cur: Option<State>, ev: Event): (h: Option<Handler>)
    ensures h in {Some(SaveSessionString), Some(SaveInterval), Some(SaveBotUsername)} ==> ev.Text?
    ensures h == Some(RemoveBot) ==> ev.Callback? && RemovePattern(ev.data)
    ensures cur.None? ==> (h.Some? <==> ev == Command("start"))
  {
    match cur
    case None => if ev == Command("start") then Some(Start) else None
    case Some(s) => if StateHandler(s, ev).Some? then StateHandler(s, ev) else Fallback(ev)
  }

  /** The value each handler returns. */
  function Returns(h: Handler, ev: Event, dbUp: bool): Outcome {
    match h
    case Start => if dbUp then Goto(SelectingAction) else End
    case Cancel => Goto(SelectingAction)
    case PromptSessionString => Goto(AwaitSessionString)
    case ManageBotsMenu => Goto(ManageBots)
    case PromptInterval => Goto(AwaitInterval)
    case TogglePinger => Goto(SelectingAction)
    case ShowMainMenu => Keep
    case SaveSessionString => Goto(SelectingAction)
    case SaveInterval => Goto(SelectingAction)
    case SaveBotUsername =>
      if ev.Text? && Handles.FindAll(ev.text) == [] then Goto(AwaitBotUsername) else Goto(ManageBots)
    case PromptAddBot => Goto(AwaitBotUsername)
    case RemoveBot => Goto(ManageBots)
  }

  /** The conversation state after an outcome. */
  function After(cur: Option<State>, o: Outcome): Option<State> {
    match o
    case Goto(s) => Some(s)
    case Keep => cur
    case End => None
  }

  /**
   * The transition table. `/start` always (re)starts at the menu and, inside the
   * conversation, `/cancel` returns there; an unmatched update leaves the state alone
   * (outside the conversation, `/cancel` included); any text in
   * the interval or session prompt returns to the menu, valid or not; a text in
   * the add-targets prompt stays there only when it holds no handle.
   */
  function Step(cur: Option<State>, ev: Event, dbUp: bool): (next: Option<State>)
    ensures ev == Command("start") ==> next == (if dbUp then Some(SelectingAction) else None)
    ensures ev == Command("cancel") && cur.Some? ==> next == Some(SelectingAction)
    ensures cur.None? && ev != Command("start") ==> next.None?
    ensures cur.Some? && next.None? ==> ev == Command("start") && !dbUp
    ensures Route(cur, ev).None? ==> next == cur
    ensures cur in {Some(AwaitInterval), Some(AwaitSessionString)} && ev.Text? ==> next == Some(SelectingAction)
    ensures cur == Some(AwaitBotUsername) && ev.Text? ==>
              next == Some(if Handles.FindAll(ev.text) == [] then AwaitBotUsername else ManageBots)
  {
    match Route(cur, ev)
    case None => cur
    case Some(h) => After(cur, Returns(h, ev, dbUp))
  }

  /** The menu's buttons: each opens its prompt or list, and the toggle returns to the menu. */
  lemma MenuButtonsLead(d: string, dbUp: bool)
    ensures Pattern(d, "set_session") ==> Step(Some(SelectingAction), Callback(d), dbUp) == Some(AwaitSessionString)
    ensures Pattern(d, "manage_bots") ==> Step(Some(SelectingAction), Callback(d), dbUp) == Some(ManageBots)
    ensures Pattern(d, "set_interval") ==> Step(Some(SelectingAction), Callback(d), dbUp) == Some(AwaitInterval)
    ensures Pattern(d, "toggle_pinger") ==> Step(Some(SelectingAction), Callback(d), dbUp) == Some(SelectingAction)
  {
    if Pattern(d, "manage_bots") {
      assert d[0] != "set_session"[0];
    } else if Pattern(d, "set_interval") {
      assert d[4] != "set_session"[4];
    } else if Pattern(d, "toggle_pinger") {
      assert d[0] != "set_session"[0] && d[0] != "manage_bots"[0] && d[0] != "set_interval"[0];
    }
  }

  /** The target list's buttons: "add" opens the add prompt, a remove button stays in the list. */
  lemma ListButtonsLead(d: string, dbUp: bool)
    ensures Pattern(d, "add_bot_prompt") ==> Step(Some(ManageBots), Callback(d), dbUp) == Some(AwaitBotUsername)
    ensures RemovePattern(d) ==> Step(Some(ManageBots), Callback(d), dbUp) == Some(ManageBots)
  {
    if RemovePattern(d) {
      assert d[0] == Handles.REMOVE_PREFIX[0];
      assert d[0] != "add_bot_prompt"[0];
    }
  }

  /** "main_menu" in the target list keeps the target list. */
  lemma MainMenuKeepsState(dbUp: bool)
    ensures Step(Some(ManageBots), Callback("main_menu"), dbUp) == Some(ManageBots)
  {
    var ev := Callback("main_menu");
    assert !Pattern(ev.data, "add_bot_prompt") by {
      assert ev.data[0] != "add_bot_prompt"[0];
      assert ev.data[0] != ("add_bot_prompt" + "\n")[0];
    }
    assert !RemovePattern(ev.data) by {
      assert ev.data[0] != Handles.REMOVE_PREFIX[0];
    }
    assert StateHandler(ManageBots, ev) == Some(ShowMainMenu);
    assert Route(Some(ManageBots), ev) == Some(ShowMainMenu);
  }

  /** "status_check" in the menu keeps the menu. */
  lemma StatusCheckKeepsState(dbUp: bool)
    ensures Step(Some(SelectingAction), Callback("status_check"), dbUp) == Some(SelectingAction)
  {
    var ev := Callback("status_check");
    assert !Pattern(ev.data, "set_session") && !Pattern(ev.data, "set_interval") by {
      assert ev.data[1] != ("set_session" + "\n")[1];
      assert ev.data[1] != "set_interval"[1];
    }
    assert !Pattern(ev.data, "manage_bots") && !Pattern(ev.data, "toggle_pinger") by {
      assert ev.data[0] != "manage_bots"[0] && ev.data[0] != ("manage_bots" + "\n")[0];
      assert ev.data[0] != "toggle_pinger"[0] && ev.data[0] != ("toggle_pinger" + "\n")[0];
    }
    assert StateHandler(SelectingAction, ev) == Some(ShowMainMenu);
    assert Route(Some(SelectingAction), ev) == Some(ShowMainMenu);
  }

  /**
   * The three prompt states are entered only from their own button: the session
   * and interval prompts from the menu, the add-targets prompt from the target list.
   */
  lemma PromptsEnteredByTheirButton(cur: Option<State>, ev: Event, dbUp: bool)
    ensures Step(cur, ev, dbUp) == Some(AwaitSessionString) && cur != Some(AwaitSessionString) ==>
              cur == Some(SelectingAction) && ev.Callback? && Pattern(ev.data, "set_session")
    ensures Step(cur, ev, dbUp) == Some(AwaitInterval) && cur != Some(AwaitInterval) ==>
              cur == Some(SelectingAction) && ev.Callback? && Pattern(ev.data, "set_interval")
    ensures Step(cur, ev, dbUp) == Some(AwaitBotUsername) && cur != Some(AwaitBotUsername) ==>
              cur == Some(ManageBots) && ev.Callback? && Pattern(ev.data, "add_bot_prompt")
  {
  }
}
