/**
 * The keep-alive bot's state and handlers. The bot holds the `settings`
 * collection (one document per chat), the job queue, and each chat's
 * conversation state; every handler loads the chat's settings, changes them,
 * saves them, and starts or removes that chat's pinger jobs.
 *
 * What the handlers learn from outside is passed in: the bot's own handle
 * (`get_me`), whether the userbot client could be started, whether sending the
 * report worked, and what sending `/start` to each target raised.
 */
module KeepAlive {
  import opened Options
  import opened Store
  import opened Jobs
  import opened Handles
  import opened StrOrder
  import opened Conversation
  import Decimal

  /** One line of the ping report: `OK`, or the name of the exception raised. */
  datatype Line = Ok(handle: string) | Error(handle: string, errorType: string)

  /** How one run of the ping task ended. */
  datatype Cycle =
    | Idle                        // the pinger is stopped: nothing happens
    | NoSession                   // no session string: the pinger is stopped
    | Critical                    // the userbot or the report failed: the pinger is stopped
    | Reported(lines: seq<Line>)  // every handle was pinged and the report sent

  function LineFor(h: string, raised: Option<string>): Line {
    match raised
    case None => Ok(h)
    case Some(e) => Error(h, e)
  }

  function Elements(s: seq<string>): set<string> {
    set x | x in s
  }

  /** `set(target_bots + [me])`: the bot itself and every stored target, each once. */
  function TargetSet(targets: seq<string>, me: string): (r: set<string>)
    ensures me in r
    ensures forall h :: h in r <==> h == me || h in targets
  {
    Elements(targets) + {me}
  }

  /**
   * The report has exactly one line per handle of `done`, each saying what
   * sending `/start` to that handle raised, if anything.
   */
  ghost predicate ReportsEach(lines: seq<Line>, done: set<string>, attempt: string -> Option<string>) {
    && |lines| == |done|
    && (forall k :: 0 <= k < |lines| ==> lines[k].handle in done && lines[k] == LineFor(lines[k].handle, attempt(lines[k].handle)))
    && (forall k, l :: 0 <= k < l < |lines| ==> lines[k].handle != lines[l].handle)
    && (forall h :: h in done ==> exists k :: 0 <= k < |lines| && lines[k].handle == h)
  }

  /** Pinging one more handle adds its line to the report. */
  lemma ReportStep(lines: seq<Line>, done: set<string>, attempt: string -> Option<string>, h: string)
    requires ReportsEach(lines, done, attempt) && h !in done
    ensures ReportsEach(lines + [LineFor(h, attempt(h))], done + {h}, attempt)
  {
    var lines' := lines + [LineFor(h, attempt(h))];
    assert |done + {h}| == |done| + 1;
    forall k | 0 <= k < |lines'|
      ensures lines'[k].handle in done + {h} && lines'[k] == LineFor(lines'[k].handle, attempt(lines'[k].handle))
    {
      if k < |lines| {
        assert lines'[k] == lines[k];
      }
    }
    forall k, l | 0 <= k < l < |lines'|
      ensures lines'[k].handle != lines'[l].handle
    {
      assert lines'[k] == lines[k];
      if l < |lines| {
        assert lines'[l] == lines[l];
      }
    }
    forall g | g in done + {h}
      ensures exists k :: 0 <= k < |lines'| && lines'[k].handle == g
    {
      if g == h {
        assert lines'[|lines|].handle == g;
      } else {
        var k :| 0 <= k < |lines| && lines[k].handle == g;
        assert lines'[k] == lines[k];
      }
    }
  }

  /**
   * Moving one element from `left` to `done` keeps them disjoint and their union.
   * Dafny proves this alone, but stating it once here keeps the set reasoning out
   * of the loops that iterate over a set, where it is otherwise slow to find.
   */
  lemma MoveOne<T>(left: set<T>, done: set<T>, x: T)
    requires left !! done && x in left
    ensures (left - {x}) !! (done + {x}) && (left - {x}) + (done + {x}) == left + done
  {
  }

  /**
   * The loop of `ping_bots_task` over the target set, in the set's (unspecified)
   * iteration order; a failure on one target is recorded and the loop goes on.
   */
  method PingEach(targets: set<string>, attempt: string -> Option<string>) returns (lines: seq<Line>)
    ensures ReportsEach(lines, targets, attempt)
  {
    lines := [];
    var left := targets;
    ghost var done: set<string> := {};
    while left != {}
      invariant left !! done && left + done == targets
      invariant ReportsEach(lines, done, attempt)
      decreases left
    {
      // Picking an element needs a witness that `left` has one: the loop guard says
      // `left != {}`, and this turns it into the form `:|` needs.
      if forall x :: x !in left {
        assert false;
      }
      var h :| h in left;
      ReportStep(lines, done, attempt, h);
      MoveOne(left, done, h);
      lines := lines + [LineFor(h, attempt(h))];
      left := left - {h};
      done := done + {h};
    }
  }

  /** The chats whose document says `is_running: true`: what `find({"is_running": True})` returns. */
  function RunningChats(store: map<ChatId, Doc>): set<ChatId> {
    set c | c in store && Get(store[c], RUNNING, Null) == Bool(true)
  }

  /** Each job of `restored` is the restore job of a stored chat of `done`. */
  ghost predicate RestoredJobs(restored: seq<Job>, store: map<ChatId, Doc>, done: set<ChatId>) {
    forall k :: 0 <= k < |restored| ==>
      && restored[k].chat in done && restored[k].chat in store
      && restored[k] == RestoreJob(restored[k].chat, IntervalOf(store[restored[k].chat]))
  }

  /** No two jobs of `restored` are for the same chat. */
  ghost predicate RestoredDistinct(restored: seq<Job>) {
    forall k, l :: 0 <= k < l < |restored| ==> restored[k].chat != restored[l].chat
  }

  /** Every chat of `done` has a job in `restored`. */
  ghost predicate RestoredCovers(restored: seq<Job>, done: set<ChatId>) {
    forall c :: c in done ==> exists k :: 0 <= k < |restored| && restored[k].chat == c
  }

  /** `restored` holds exactly one restore job per chat of `done`, at that chat's stored interval. */
  ghost predicate RestoresEach(restored: seq<Job>, store: map<ChatId, Doc>, done: set<ChatId>) {
    && |restored| == |done|
    && RestoredJobs(restored, store, done)
    && RestoredDistinct(restored)
    && RestoredCovers(restored, done)
  }

  /** Restoring one more chat adds its job. */
  lemma RestoreStep(restored: seq<Job>, store: map<ChatId, Doc>, done: set<ChatId>, c: ChatId)
    requires RestoresEach(restored, store, done) && c !in done && c in store
    ensures RestoresEach(restored + [RestoreJob(c, IntervalOf(store[c]))], store, done + {c})
  {
    var job := RestoreJob(c, IntervalOf(store[c]));
    assert |done + {c}| == |done| + 1;
    RestoredJobsStep(restored, store, done, c);
    RestoredDistinctStep(restored, store, done, c, job);
    RestoredCoversStep(restored, done, c, job);
  }

  lemma RestoredJobsStep(restored: seq<Job>, store: map<ChatId, Doc>, done: set<ChatId>, c: ChatId)
    requires RestoredJobs(restored, store, done) && c in store
    ensures RestoredJobs(restored + [RestoreJob(c, IntervalOf(store[c]))], store, done + {c})
  {
    var restored' := restored + [RestoreJob(c, IntervalOf(store[c]))];
    forall k | 0 <= k < |restored'|
      ensures && restored'[k].chat in done + {c} && restored'[k].chat in store
              && restored'[k] == RestoreJob(restored'[k].chat, IntervalOf(store[restored'[k].chat]))
    {
      if k < |restored| {
        assert restored'[k] == restored[k];
      }
    }
  }

  lemma RestoredDistinctStep(restored: seq<Job>, store: map<ChatId, Doc>, done: set<ChatId>, c: ChatId, job: Job)
    requires RestoredJobs(restored, store, done) && RestoredDistinct(restored) && c !in done && job.chat == c
    ensures RestoredDistinct(restored + [job])
  {
    var restored' := restored + [job];
    forall k, l | 0 <= k < l < |restored'|
      ensures restored'[k].chat != restored'[l].chat
    {
      assert restored'[k] == restored[k];
      if l < |restored| {
        assert restored'[l] == restored[l];
      }
    }
  }

  lemma RestoredCoversStep(restored: seq<Job>, done: set<ChatId>, c: ChatId, job: Job)
    requires RestoredCovers(restored, done) && job.chat == c
    ensures RestoredCovers(restored + [job], done + {c})
  {
    var restored' := restored + [job];
    forall d | d in done + {c}
      ensures exists k :: 0 <= k < |restored'| && restored'[k].chat == d
    {
      if d == c {
        assert restored'[|restored|].chat == d;
      } else {
        var k :| 0 <= k < |restored| && restored[k].chat == d;
        assert restored'[k] == restored[k];
      }
    }
  }

  /** The loop of `post_init` over the running chats, in the order the cursor yields them. */
  method RestoreEach(store: map<ChatId, Doc>) returns (restored: seq<Job>)
    ensures RestoresEach(restored, store, RunningChats(store))
    ensures WellNamed(restored)
  {
    restored := [];
    var running := RunningChats(store);
    var left := running;
    ghost var done: set<ChatId> := {};
    while left != {}
      invariant left !! done && left + done == running
      invariant RestoresEach(restored, store, done)
      decreases left
    {
      // Picking an element needs a witness that `left` has one: the loop guard says
      // `left != {}`, and this turns it into the form `:|` needs.
      if forall x :: x !in left {
        assert false;
      }
      var c :| c in left;
      RestoreStep(restored, store, done, c);
      MoveOne(left, done, c);
      restored := restored + [RestoreJob(c, IntervalOf(store[c]))];
      left := left - {c};
      done := done + {c};
    }
  }

  /**
   * After `post_init`, each chat marked running has exactly one job, at its
   * stored interval, and no other chat has any.
   */
  lemma RestoredOnce(restored: seq<Job>, store: map<ChatId, Doc>, chat: ChatId)
    requires RestoresEach(restored, store, RunningChats(store))
    ensures Named(restored, JobName(chat)) ==
              if chat in RunningChats(store) then [RestoreJob(chat, IntervalOf(store[chat]))] else []
  {
    forall k | 0 <= k < |restored| && restored[k].name == JobName(chat)
      ensures restored[k].chat == chat
    {
      JobNameInjective(restored[k].chat, chat);
    }
    if chat in RunningChats(store) {
      var k :| 0 <= k < |restored| && restored[k].chat == chat;
      NamedSingle(restored, JobName(chat), k);
    } else {
      NamedNone(restored, JobName(chat));
    }
  }

  /**
   * The loop of `save_bot_username`: each handle found is skipped if it is the
   * bot itself or already present, and added otherwise.
   */
  method AddEach(potential: seq<string>, existing: set<string>, me: string)
    returns (added: seq<string>, skipped: seq<Skip>, seen: set<string>)
    ensures Classify(potential, existing, me) == Tally(added, skipped, seen)
  {
    added, skipped, seen := [], [], existing;
    var i := 0;
    while i < |potential|
      invariant 0 <= i <= |potential|
      invariant Classify(potential[..i], existing, me) == Tally(added, skipped, seen)
    {
      var bot := potential[i];
      ghost var before := Tally(added, skipped, seen);
      if bot == me {
        skipped := skipped + [Itself(bot)];
      } else if bot in seen {
        skipped := skipped + [AlreadyAdded(bot)];
      } else {
        seen := seen + {bot};
        added := added + [bot];
      }
      assert Tally(added, skipped, seen) == ClassifyNext(before, bot, me);
      ClassifyPrefix(potential, i, existing, me);
      i := i + 1;
    }
    assert potential[..i] == potential;
  }

  /**
   * Toggling a stopped chat that has a session twice, each toggle as `toggle_pinger`
   * does it (`Toggled`): the first marks it running and the second sees that and
   * stops it; the settings then read as they did at the start, the queue is what a
   * stop alone leaves, and the chat has no job left.
   */
  lemma ToggleTwice(store: map<ChatId, Doc>, jobs: seq<Job>, chat: ChatId,
                    store1: map<ChatId, Doc>, jobs1: seq<Job>, store2: map<ChatId, Doc>, jobs2: seq<Job>)
    requires StoreOk(store)
    requires !IsRunning(Load(store, true, chat)) && HasSession(Load(store, true, chat))
    requires Toggled(true, store, jobs, store1, jobs1, chat)
    requires Toggled(true, store1, jobs1, store2, jobs2, chat)
    ensures IsRunning(Load(store1, true, chat))
    ensures Load(store2, true, chat) == Load(store, true, chat)
    ensures jobs2 == Stopped(jobs, chat)
    ensures Named(jobs2, JobName(chat)) == []
  {
    var data := Load(store, true, chat);
    ToggleOn(store, jobs, chat, store1, jobs1);
    ToggleOff(store1, jobs1, chat, store2, jobs2);
    SetBack(data, RUNNING, Bool(true));
    StartThenStop(jobs, chat, IntervalOf(data));
    StoppedLeavesNone(jobs, chat);
  }

  /**
   * Toggling a stopped chat that has a session starts it: the settings read back
   * as before with the flag set, and one job is appended at the stored interval.
   */
  lemma ToggleOn(store: map<ChatId, Doc>, jobs: seq<Job>, chat: ChatId, store1: map<ChatId, Doc>, jobs1: seq<Job>)
    requires StoreOk(store)
    requires !IsRunning(Load(store, true, chat)) && HasSession(Load(store, true, chat))
    requires Toggled(true, store, jobs, store1, jobs1, chat)
    ensures StoreOk(store1) && chat in store1
    ensures Load(store, true, chat)[RUNNING] == Bool(false)
    ensures Load(store1, true, chat) == Load(store, true, chat)[RUNNING := Bool(true)]
    ensures jobs1 == Started(jobs, chat, IntervalOf(Load(store, true, chat)))
  {
    var data := Load(store, true, chat);
    LoadedSession(store, chat);
    LoadWellTyped(store, true, chat);
    assert store1 == Save(store, true, chat, data[RUNNING := Bool(true)]);
    LoadSaveLoad(store, chat, RUNNING, Bool(true));
    SaveOk(store, true, chat, data[RUNNING := Bool(true)]);
  }

  /**
   * Toggling a running chat that has a document stops it: the settings read back
   * as before with the flag cleared, and every job of the chat is removed.
   */
  lemma ToggleOff(store: map<ChatId, Doc>, jobs: seq<Job>, chat: ChatId, store1: map<ChatId, Doc>, jobs1: seq<Job>)
    requires StoreOk(store) && chat in store
    requires IsRunning(Load(store, true, chat))
    requires Toggled(true, store, jobs, store1, jobs1, chat)
    ensures Load(store1, true, chat) == Load(store, true, chat)[RUNNING := Bool(false)]
    ensures jobs1 == Stopped(jobs, chat)
  {
    LoadSaveLoad(store, chat, RUNNING, Bool(false));
  }

  /** A chat whose settings hold a session has a document: the defaults have none. */
  lemma LoadedSession(store: map<ChatId, Doc>, chat: ChatId)
    requires HasSession(Load(store, true, chat))
    ensures chat in store
  {
  }

  /** A positive number of minutes written out in digits is accepted as itself. */
  lemma MinutesOfShow(n: int)
    requires n > 0
    ensures Minutes(Decimal.Show(n)) == Some(n)
  {
    Decimal.ParseShow(n);
  }

  /** An accepted interval reads back from the settings in seconds. */
  lemma IntervalReadBack(store: map<ChatId, Doc>, chat: ChatId, text: string)
    requires Minutes(text).Some?
    ensures var data := Load(store, true, chat)[INTERVAL := Int(Minutes(text).value * 60)];
            IntervalOf(Load(Save(store, true, chat, data), true, chat)) == Minutes(text).value * 60
  {
    var data := Load(store, true, chat)[INTERVAL := Int(Minutes(text).value * 60)];
    SaveThenLoad(store, chat, data, chat);
  }

  /** `int(text)` if it is a positive number of minutes, as `save_interval` demands. */
  function Minutes(text: string): Option<int> {
    match Decimal.ParseInt(text)
    case Some(n) => if n > 0 then Some(n) else None
    case None => None
  }

  /** What `save_session_string` does to the store: the text becomes the session string. */
  ghost predicate SessionSaved(dbUp: bool, before: map<ChatId, Doc>, after: map<ChatId, Doc>, chat: ChatId, text: string) {
    after == Save(before, dbUp, chat, Load(before, dbUp, chat)[SESSION := Str(text)])
  }

  /**
   * What `save_interval` does: a positive number of minutes is saved in seconds and
   * a running chat's jobs are rescheduled at it; any other text changes nothing.
   */
  ghost predicate IntervalSaved(dbUp: bool, before: map<ChatId, Doc>, jobsBefore: seq<Job>,
                                after: map<ChatId, Doc>, jobsAfter: seq<Job>, chat: ChatId, text: string) {
    if Minutes(text).None? then after == before && jobsAfter == jobsBefore
    else
      var seconds := Minutes(text).value * 60;
      var data := Load(before, dbUp, chat)[INTERVAL := Int(seconds)];
      && after == Save(before, dbUp, chat, data)
      && jobsAfter == (if IsRunning(data) then Rescheduled(jobsBefore, chat, seconds) else jobsBefore)
  }

  /**
   * What `save_bot_username` does to the store: when the message holds handles and
   * one of them is new, the sorted union of the stored and new handles is saved.
   */
  ghost predicate TargetsAdded(dbUp: bool, before: map<ChatId, Doc>, after: map<ChatId, Doc>,
                               chat: ChatId, text: string, me: string) {
    if FindAll(text) == [] then after == before
    else
      var data := Load(before, dbUp, chat);
      var t := Classify(FindAll(text), Elements(TargetsOf(data)), me);
      after == (if t.added == [] then before else Save(before, dbUp, chat, data[TARGETS := List(SortedSeq(t.seen))]))
  }

  /** What `remove_bot` does to the store: the button's handle, if listed, loses its first occurrence. */
  ghost predicate TargetRemoved(dbUp: bool, before: map<ChatId, Doc>, after: map<ChatId, Doc>,
                                chat: ChatId, callbackData: string) {
    var h := StripAll(callbackData);
    var data := Load(before, dbUp, chat);
    after == (if h in TargetsOf(data)
              then Save(before, dbUp, chat, data[TARGETS := List(RemoveFirst(TargetsOf(data), h))])
              else before)
  }

  /**
   * What `toggle_pinger` does: a running chat is stopped (flag cleared, its jobs
   * removed); a stopped one with a session is started (flag set, one job appended);
   * without a session, or without a database, nothing changes.
   */
  ghost predicate Toggled(dbUp: bool, before: map<ChatId, Doc>, jobsBefore: seq<Job>,
                          after: map<ChatId, Doc>, jobsAfter: seq<Job>, chat: ChatId) {
    var data := Load(before, dbUp, chat);
    if !dbUp || (!IsRunning(data) && !HasSession(data)) then
      after == before && jobsAfter == jobsBefore
    else if IsRunning(data) then
      after == Save(before, dbUp, chat, data[RUNNING := Bool(false)]) && jobsAfter == Stopped(jobsBefore, chat)
    else
      after == Save(before, dbUp, chat, data[RUNNING := Bool(true)])
      && jobsAfter == Started(jobsBefore, chat, IntervalOf(data))
  }

  class Bot {
    /** Whether the database client exists (the module-level `client`). */
    const dbUp: bool
    /** The `settings` collection: each chat's document. */
    var store: map<ChatId, Doc>
    /** The job queue. */
    var jobs: seq<Job>
    /** The conversation state of every chat that is in the conversation. */
    var conv: map<ChatId, State>

    ghost predicate Valid()
      reads this
    {
      StoreOk(store) && WellNamed(jobs)
    }

    constructor (dbUp: bool, store: map<ChatId, Doc>)
      requires StoreOk(store)
      ensures Valid()
      ensures this.dbUp == dbUp && this.store == store && jobs == [] && conv == map[]
    {
      this.dbUp := dbUp;
      this.store := store;
      jobs := [];
      conv := map[];
    }

    /** `load_data`. */
    method LoadData(chat: ChatId) returns (data: Doc)
      requires Valid()
      ensures data == Load(store, dbUp, chat)
      ensures WellTyped(data)
    {
      LoadWellTyped(store, dbUp, chat);
      if !dbUp {
        return Defaults();
      }
      if chat in store && store[chat] != map[] {
        data := Defaults();
        data := data + store[chat];
        return;
      }
      return Defaults();
    }

    /** `save_data`: pop `_id`, then upsert with `$set`; without a client only an error is logged. */
    method SaveData(chat: ChatId, data: Doc)
      requires Valid() && WellTyped(data)
      modifies this`store
      ensures Valid()
      ensures store == Save(old(store), dbUp, chat, data)
    {
      SaveOk(store, dbUp, chat, data);
      if !dbUp {
        return;
      }
      var fields := data - {ID};
      var doc := if chat in store then store[chat] else map[ID := Int(chat)];
      store := store[chat := doc + fields];
    }

    /** `run_repeating(ping_bots_task, interval=..., first=..., name=f"pinger_job_{chat}", chat_id=chat)`. */
    method RunRepeating(chat: ChatId, interval: int, first: int)
      requires Valid()
      modifies this`jobs
      ensures Valid()
      ensures jobs == old(jobs) + [Job(JobName(chat), chat, interval, first)]
    {
      jobs := jobs + [Job(JobName(chat), chat, interval, first)];
    }

    /** `for job in get_jobs_by_name(f"pinger_job_{chat}"): job.schedule_removal()`. */
    method RemoveJobs(chat: ChatId)
      requires Valid()
      modifies this`jobs
      ensures Valid()
      ensures jobs == Stopped(old(jobs), chat)
    {
      jobs := Without(jobs, JobName(chat));
    }

    /** `save_session_string`: the message text is stored as the session string. */
    method SaveSessionString(chat: ChatId, text: string) returns (next: State)
      requires Valid()
      modifies this`store
      ensures Valid() && next == SelectingAction
      ensures SessionSaved(dbUp, old(store), store, chat, text)
    {
      var data := LoadData(chat);
      data := data[SESSION := Str(text)];
      SaveData(chat, data);
      next := SelectingAction;
    }

    /**
     * `save_interval`: a positive number of minutes is stored in seconds and, if
     * the pinger runs, the chat's jobs are replaced by one at the new interval;
     * anything else changes nothing. Either way the menu comes back.
     */
    method SaveInterval(chat: ChatId, text: string) returns (next: State)
      requires Valid()
      modifies this`store, this`jobs
      ensures Valid() && next == SelectingAction
      ensures IntervalSaved(dbUp, old(store), old(jobs), store, jobs, chat, text)
    {
      var parsed := Decimal.ParseInt(text);
      if parsed.None? || parsed.value <= 0 {
        return SelectingAction;
      }
      var minutes := parsed.value;
      var data := LoadData(chat);
      data := data[INTERVAL := Int(minutes * 60)];
      SaveData(chat, data);
      if IsRunning(data) {
        RemoveJobs(chat);
        RunRepeating(chat, minutes * 60, START_DELAY);
      }
      next := SelectingAction;
    }

    /**
     * `save_bot_username`: every handle in the message is added unless it is the
     * bot itself or already present; the sorted list is saved if anything was added.
     * A message without a handle leaves the prompt open.
     */
    method SaveBotUsername(chat: ChatId, text: string, me: string)
      returns (next: State, added: seq<string>, skipped: seq<Skip>)
      requires Valid()
      modifies this`store
      ensures Valid()
      ensures FindAll(text) == [] ==> next == AwaitBotUsername && added == [] && skipped == []
      ensures FindAll(text) != [] ==>
                var t := Classify(FindAll(text), Elements(TargetsOf(Load(old(store), dbUp, chat))), me);
                next == ManageBots && added == t.added && skipped == t.skipped
      ensures TargetsAdded(dbUp, old(store), store, chat, text, me)
    {
      var potential := FindAll(text);
      if potential == [] {
        return AwaitBotUsername, [], [];
      }
      var data := LoadData(chat);
      var existing;
      added, skipped, existing := AddEach(potential, Elements(TargetsOf(data)), me);
      if added != [] {
        data := data[TARGETS := List(SortedSeq(existing))];
        SaveData(chat, data);
      }
      next := ManageBots;
    }

    /**
     * `remove_bot`: the handle is the button data with every `remove_` deleted; its
     * first occurrence in the list is removed and the list saved; otherwise nothing changes.
     */
    method RemoveBot(chat: ChatId, callbackData: string) returns (next: State)
      requires Valid()
      modifies this`store
      ensures Valid() && next == ManageBots
      ensures TargetRemoved(dbUp, old(store), store, chat, callbackData)
    {
      var handle := StripAll(callbackData);
      var data := LoadData(chat);
      var targets := TargetsOf(data);
      if handle in targets {
        data := data[TARGETS := List(RemoveFirst(targets, handle))];
        SaveData(chat, data);
      }
      next := ManageBots;
    }

    /**
     * `toggle_pinger`: a running pinger is stopped (flag cleared, every job of the
     * chat removed); a stopped one with a session is started (flag set, one more
     * job appended); without a session, or without a database, nothing changes.
     */
    method TogglePinger(chat: ChatId) returns (next: State)
      requires Valid()
      modifies this`store, this`jobs
      ensures Valid() && next == SelectingAction
      ensures Toggled(dbUp, old(store), old(jobs), store, jobs, chat)
    {
      if !dbUp {
        return SelectingAction;
      }
      var data := LoadData(chat);
      if IsRunning(data) {
        data := data[RUNNING := Bool(false)];
        SaveData(chat, data);
        RemoveJobs(chat);
      } else if HasSession(data) {
        var interval := IntervalOf(data);
        data := data[RUNNING := Bool(true)];
        SaveData(chat, data);
        RunRepeating(chat, interval, START_DELAY);
      }
      next := SelectingAction;
    }

    /**
     * `post_init`: one job per chat whose document says it is running, at the
     * stored interval (420 when missing), first run after ten seconds. The
     * store is only read.
     */
    method PostInit()
      requires Valid()
      modifies this`jobs
      ensures Valid()
      ensures !dbUp ==> jobs == old(jobs)
      ensures dbUp ==> |old(jobs)| <= |jobs| && jobs[..|old(jobs)|] == old(jobs)
                       && RestoresEach(jobs[|old(jobs)|..], store, RunningChats(store))
    {
      if !dbUp {
        return;
      }
      var restored := RestoreEach(store);
      jobs := jobs + restored;
      assert jobs[|old(jobs)|..] == restored;
    }

    /**
     * `ping_bots_task` for `chat`: nothing if the pinger is stopped; without a
     * session the flag is cleared; otherwise every handle of `set(targets + [me])`
     * is sent `/start` and a report with one line per handle is sent. If the userbot
     * cannot be started or the report cannot be sent the flag is cleared. The
     * chat's job is never removed here.
     */
    method PingBotsTask(chat: ChatId, me: string, acquired: bool, attempt: string -> Option<string>, delivered: bool)
      returns (cycle: Cycle)
      requires Valid()
      modifies this`store
      ensures Valid()
      ensures var data := Load(old(store), dbUp, chat);
              var stopped := Save(old(store), dbUp, chat, data[RUNNING := Bool(false)]);
              if !IsRunning(data) then cycle == Idle && store == old(store)
              else if !HasSession(data) then cycle == NoSession && store == stopped
              else if !acquired || !delivered then cycle == Critical && store == stopped
              else cycle.Reported? && store == old(store)
                   && ReportsEach(cycle.lines, TargetSet(TargetsOf(data), me), attempt)
    {
      var data := LoadData(chat);
      if !IsRunning(data) {
        return Idle;
      }
      if !HasSession(data) {
        data := data[RUNNING := Bool(false)];
        SaveData(chat, data);
        return NoSession;
      }
      var toPing := TargetSet(TargetsOf(data), me);
      // `if not all_bots_to_ping` cannot hold: the set always holds `me`.
      if !acquired {
        data := data[RUNNING := Bool(false)];
        SaveData(chat, data);
        return Critical;
      }
      var lines := PingEach(toPing, attempt);
      if !delivered {
        data := data[RUNNING := Bool(false)];
        SaveData(chat, data);
        return Critical;
      }
      return Reported(lines);
    }

    /** The chat's conversation state, `None` outside the conversation. */
    function Current(chat: ChatId): Option<State>
      reads this
    {
      if chat in conv then Some(conv[chat]) else None
    }

    /**
     * The conversation handler: route the update, run the handler, and record
     * the state it returns. Only the five handlers that save write the store or the jobs.
     */
    method HandleUpdate(chat: ChatId, ev: Event, me: string)
      requires Valid()
      modifies this`store, this`jobs, this`conv
      ensures Valid()
      ensures var next := Step(old(Current(chat)), ev, dbUp);
              conv == if next.Some? then old(conv)[chat := next.value] else old(conv) - {chat}
      ensures (Route(old(Current(chat)), ev).None? || !Writes(Route(old(Current(chat)), ev).value))
              ==> store == old(store) && jobs == old(jobs)
      ensures Route(old(Current(chat)), ev) == Some(Handler.TogglePinger) ==>
                Toggled(dbUp, old(store), old(jobs), store, jobs, chat)
      ensures Route(old(Current(chat)), ev) == Some(Handler.SaveSessionString) ==>
                SessionSaved(dbUp, old(store), store, chat, ev.text) && jobs == old(jobs)
      ensures Route(old(Current(chat)), ev) == Some(Handler.SaveInterval) ==>
                IntervalSaved(dbUp, old(store), old(jobs), store, jobs, chat, ev.text)
      ensures Route(old(Current(chat)), ev) == Some(Handler.SaveBotUsername) ==>
                TargetsAdded(dbUp, old(store), store, chat, ev.text, me) && jobs == old(jobs)
      ensures Route(old(Current(chat)), ev) == Some(Handler.RemoveBot) ==>
                TargetRemoved(dbUp, old(store), store, chat, ev.data) && jobs == old(jobs)
    {
      var cur := Current(chat);
      var route := Route(cur, ev);
      if route.None? {
        return;
      }
      // The handlers that only show a menu or a prompt return what the table says;
      // the five that write run as methods and return their state.
      var outcome := Returns(route.value, ev, dbUp);
      match route.value {
        case TogglePinger =>
          var s := TogglePinger(chat);
          outcome := Goto(s);
        case SaveSessionString =>
          var s := SaveSessionString(chat, ev.text);
          outcome := Goto(s);
        case SaveInterval =>
          var s := SaveInterval(chat, ev.text);
          outcome := Goto(s);
        case SaveBotUsername =>
          var s, _, _ := SaveBotUsername(chat, ev.text, me);
          outcome := Goto(s);
        case RemoveBot =>
          var s := RemoveBot(chat, ev.data);
          outcome := Goto(s);
        case _ =>
      }
      assert outcome == Returns(route.value, ev, dbUp);
      var next := After(cur, outcome);
      assert next == Step(cur, ev, dbUp);
      if next.Some? {
        conv := conv[chat := next.value];
      } else {
        conv := conv - {chat};
      }
    }
  }
}
