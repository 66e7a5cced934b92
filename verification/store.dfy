/**
 * The settings store: one document per chat id in the `settings` collection,
 * read by `load_data` (the stored document merged over the defaults) and written
 * by `save_data` (an upsert that `$set`s every key of the dict except `_id`).
 * Documents and the dicts the handlers work on are maps from key to value.
 */
module Store {

  type ChatId = int

  /** The values the documents hold: None, bools, ints, strings and string lists. */
  datatype Value = Null | Bool(b: bool) | Int(i: int) | Str(s: string) | List(items: seq<string>)

  type Doc = map<string, Value>

  const ID := "_id"
  const SESSION := "userbot_session"
  const TARGETS := "target_bots"
  const INTERVAL := "ping_interval_seconds"
  const RUNNING := "is_running"

  /** Seven minutes, the interval a chat has before it sets one. */
  const DEFAULT_INTERVAL := 420

  /** `get_default_data`. */
  function Defaults(): Doc {
    map[SESSION := Null, TARGETS := List([]), INTERVAL := Int(DEFAULT_INTERVAL), RUNNING := Bool(false)]
  }

  /** Python's truth value of a stored value. */
  predicate Truthy(v: Value) {
    match v
    case Null => false
    case Bool(b) => b
    case Int(i) => i != 0
    case Str(s) => s != []
    case List(items) => items != []
  }

  /** `d.get(key, default)`. */
  function Get(d: Doc, key: string, default: Value): Value {
    if key in d then d[key] else default
  }

  /** `data.get("is_running", False)` taken as a condition. */
  predicate IsRunning(d: Doc) {
    Truthy(Get(d, RUNNING, Bool(false)))
  }

  /** `data.get("userbot_session")` taken as a condition: a non-empty session string. */
  predicate HasSession(d: Doc) {
    Truthy(Get(d, SESSION, Null))
  }

  /** `data.get("target_bots", [])`. */
  function TargetsOf(d: Doc): seq<string> {
    match Get(d, TARGETS, List([]))
    case List(items) => items
    case _ => []
  }

  /** `data.get("ping_interval_seconds", 420)`. */
  function IntervalOf(d: Doc): int {
    match Get(d, INTERVAL, Int(DEFAULT_INTERVAL))
    case Int(i) => i
    case _ => DEFAULT_INTERVAL
  }

  /** The four settings keys hold values of the types this program writes. */
  predicate WellTyped(d: Doc) {
    && (SESSION in d ==> d[SESSION].Null? || d[SESSION].Str?)
    && (TARGETS in d ==> d[TARGETS].List?)
    && (INTERVAL in d ==> d[INTERVAL].Int?)
    && (RUNNING in d ==> d[RUNNING].Bool?)
  }

  /** Every document is well typed and carries its own chat id as `_id`. */
  predicate StoreOk(store: map<ChatId, Doc>) {
    forall c :: c in store ==> WellTyped(store[c]) && ID in store[c] && store[c][ID] == Int(c)
  }

  /**
   * `load_data`: the defaults, overridden by every key of the chat's document when
   * the database client exists and a non-empty document is found.
   */
  function Load(store: map<ChatId, Doc>, dbUp: bool, chat: ChatId): (data: Doc)
    ensures Defaults().Keys <= data.Keys
    ensures !dbUp || chat !in store ==> data == Defaults()
    ensures dbUp && chat in store ==>
              && data.Keys == Defaults().Keys + store[chat].Keys
              && (forall k :: k in store[chat] ==> data[k] == store[chat][k])
              && (forall k :: k in Defaults() && k !in store[chat] ==> data[k] == Defaults()[k])
  {
    if dbUp && chat in store && store[chat] != map[] then Defaults() + store[chat] else Defaults()
  }

  /**
   * `save_data`: without a client nothing is written; otherwise the document with
   * id `chat` (created holding just `_id` if missing) gets every key of `data`
   * except `_id` set to the dict's value.
   */
  function Save(store: map<ChatId, Doc>, dbUp: bool, chat: ChatId, data: Doc): (store': map<ChatId, Doc>)
    ensures !dbUp ==> store' == store
    ensures dbUp ==>
              && store'.Keys == store.Keys + {chat}
              && (forall c :: c in store && c != chat ==> store'[c] == store[c])
              && (forall k :: k in data && k != ID ==> k in store'[chat] && store'[chat][k] == data[k])
              && (forall k :: k !in data && chat in store && k in store[chat] ==> k in store'[chat] && store'[chat][k] == store[chat][k])
              && (chat !in store ==> ID in store'[chat] && store'[chat][ID] == Int(chat))
              && (chat in store && ID in store[chat] ==> ID in store'[chat] && store'[chat][ID] == store[chat][ID])
  {
    if !dbUp then store
    else
      var doc := if chat in store then store[chat] else map[ID := Int(chat)];
      store[chat := doc + (data - {ID})]
  }

  /** With no client, or no document, a chat has exactly the default settings. */
  lemma LoadMissing(store: map<ChatId, Doc>, dbUp: bool, chat: ChatId)
    requires !dbUp || chat !in store
    ensures var data := Load(store, dbUp, chat);
            && data.Keys == {SESSION, TARGETS, INTERVAL, RUNNING}
            && !HasSession(data) && TargetsOf(data) == [] && IntervalOf(data) == 420 && !IsRunning(data)
  {
  }

  /** Loading a well-typed store gives a well-typed dict that holds all four settings. */
  lemma LoadWellTyped(store: map<ChatId, Doc>, dbUp: bool, chat: ChatId)
    requires StoreOk(store)
    ensures WellTyped(Load(store, dbUp, chat))
  {
  }

  /** Saving a well-typed dict keeps the store well formed. */
  lemma SaveOk(store: map<ChatId, Doc>, dbUp: bool, chat: ChatId, data: Doc)
    requires StoreOk(store) && WellTyped(data)
    ensures StoreOk(Save(store, dbUp, chat, data))
  {
  }

  /**
   * Save then load: every key saved reads back as saved, every other key (but
   * `_id`) reads back as it did before, and other chats are unaffected.
   */
  lemma SaveThenLoad(store: map<ChatId, Doc>, chat: ChatId, data: Doc, other: ChatId)
    ensures var after := Load(Save(store, true, chat, data), true, chat);
            var before := Load(store, true, chat);
            && (forall k :: k in data && k != ID ==> k in after && after[k] == data[k])
            && (forall k :: k !in data && k != ID ==> (k in after <==> k in before) && (k in after ==> after[k] == before[k]))
    ensures other != chat ==> Load(Save(store, true, chat, data), true, other) == Load(store, true, other)
  {
    var after := Load(Save(store, true, chat, data), true, chat);
    var before := Load(store, true, chat);
    var doc := Save(store, true, chat, data)[chat];
    if data - {ID} != map[] {
      var k :| k in data - {ID};
      assert k in doc;
    }
    forall k | k !in data && k != ID
      ensures (k in after <==> k in before) && (k in after ==> after[k] == before[k])
    {
      if chat in store && store[chat] != map[] {
        assert doc != map[] by {
          var j :| j in store[chat];
          assert j in doc;
        }
      }
    }
  }

  /** Writing a key back to the value it had restores the dict. */
  lemma SetBack(d: Doc, key: string, v: Value)
    requires key in d
    ensures d[key := v][key := d[key]] == d
  {
    assert d[key := v][key := d[key]].Keys == d.Keys;
  }

  /**
   * The maps behind the round trip: a document holding `_id`, merged over the
   * defaults, one key changed, its keys but `_id` merged back into the document
   * and the result merged over the defaults again, is the changed dict.
   */
  lemma MergeBack(s: Doc, key: string, v: Value)
    requires ID in s && key != ID
    ensures var d := (Defaults() + s)[key := v];
            Defaults() + (s + (d - {ID})) == d
  {
    var d := (Defaults() + s)[key := v];
    var after := Defaults() + (s + (d - {ID}));
    assert after.Keys == d.Keys;
    forall k | k in d
      ensures after[k] == d[k]
    {
    }
  }

  /**
   * The read-modify-write round trip of every handler: load a stored chat's
   * settings, change one of them, save, and loading again gives exactly the
   * changed dict.
   */
  lemma LoadSaveLoad(store: map<ChatId, Doc>, chat: ChatId, key: string, v: Value)
    requires StoreOk(store) && chat in store && key != ID
    ensures var d := Load(store, true, chat)[key := v];
            Load(Save(store, true, chat, d), true, chat) == d
  {
    var s := store[chat];
    assert ID in s;
    var d := (Defaults() + s)[key := v];
    MergeBack(s, key, v);
    var doc := s + (d - {ID});
    assert ID in doc;
  }
}
