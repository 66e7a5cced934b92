/**
 * Editing a chat's target list: extracting `@handles` from a message the way
 * `re.findall(r"@[a-zA-Z0-9_]{5,32}", text)` does, splitting them into added and
 * skipped ones, and recovering a handle from a `remove_...` button.
 */
module Handles {

  const MIN_RUN := 5
  const MAX_RUN := 32
  const REMOVE_PREFIX := "remove_"

  /** `[a-zA-Z0-9_]`: ASCII letters, digits and underscore only. */
  predicate IsWordChar(c: char) {
    'a' <= c <= 'z' || 'A' <= c <= 'Z' || '0' <= c <= '9' || c == '_'
  }

  /** A string the pattern matches as a whole: `@` and 5 to 32 word characters. */
  predicate IsHandle(h: string) {
    && 1 + MIN_RUN <= |h| <= 1 + MAX_RUN
    && h[0] == '@'
    && forall t :: 1 <= t < |h| ==> IsWordChar(h[t])
  }

  /** How many word characters follow position `j` without a break, stopping at `limit`. */
  function RunTo(s: string, j: nat, limit: nat): (n: nat)
    requires j <= limit <= |s|
    ensures j + n <= limit
    ensures forall t :: j <= t < j + n ==> IsWordChar(s[t])
    ensures j + n < limit ==> !IsWordChar(s[j + n])
    decreases limit - j
  {
    if j == limit || !IsWordChar(s[j]) then 0 else 1 + RunTo(s, j + 1, limit)
  }

  /** The word characters after position `p`, at most 32 of them: `{5,32}` is greedy. */
  function Run(s: string, p: nat): (n: nat)
    requires p < |s|
    ensures n <= MAX_RUN && p + 1 + n <= |s|
    ensures forall t :: p + 1 <= t < p + 1 + n ==> IsWordChar(s[t])
    ensures n < MAX_RUN && p + 1 + n < |s| ==> !IsWordChar(s[p + 1 + n])
  {
    RunTo(s, p + 1, if p + 1 + MAX_RUN <= |s| then p + 1 + MAX_RUN else |s|)
  }

  /** The pattern matches at `p`: an `@` followed by at least five word characters. */
  predicate MatchAt(s: string, p: nat) {
    p < |s| && s[p] == '@' && Run(s, p) >= MIN_RUN
  }

  /** Length of the greedy match at `p`: the `@` and up to 32 word characters. */
  function MatchLen(s: string, p: nat): nat
    requires p < |s|
  {
    1 + Run(s, p)
  }

  datatype Span = Span(start: nat, len: nat)

  /** A match `findall` may report: at or after `i`, starting a match, of the greedy length. */
  predicate SpanOk(s: string, sp: Span, i: nat) {
    i <= sp.start < |s| && MatchAt(s, sp.start) && sp.len == MatchLen(s, sp.start)
  }

  /** Position `j` lies inside one of the reported matches. */
  predicate Covered(r: seq<Span>, j: nat) {
    exists k :: 0 <= k < |r| && r[k].start <= j < r[k].start + r[k].len
  }

  /**
   * The matches `findall` reports from position `i` on: scanning left to right,
   * taking the greedy match wherever one starts and resuming after it.
   */
  function SpansFrom(s: string, i: nat): seq<Span>
    requires i <= |s|
    decreases |s| - i
  {
    if i == |s| then []
    else if MatchAt(s, i) then [Span(i, MatchLen(s, i))] + SpansFrom(s, i + MatchLen(s, i))
    else SpansFrom(s, i + 1)
  }

  /** Every reported span is a greedy match at or after `i`. */
  lemma {:induction false} SpansSound(s: string, i: nat)
    requires i <= |s|
    ensures forall k :: 0 <= k < |SpansFrom(s, i)| ==> SpanOk(s, SpansFrom(s, i)[k], i)
    decreases |s| - i
  {
    if i < |s| {
      var r := SpansFrom(s, i);
      if MatchAt(s, i) {
        var n := MatchLen(s, i);
        var rest := SpansFrom(s, i + n);
        SpansSound(s, i + n);
        forall k | 0 <= k < |r|
          ensures SpanOk(s, r[k], i)
        {
          if k > 0 {
            assert r[k] == rest[k - 1] && SpanOk(s, rest[k - 1], i + n);
          }
        }
      } else {
        SpansSound(s, i + 1);
      }
    }
  }

  /** Reported matches lie at or after `i`, come in order and never overlap. */
  lemma {:induction false} SpansOrdered(s: string, i: nat)
    requires i <= |s|
    ensures forall k :: 0 <= k < |SpansFrom(s, i)| ==> i <= SpansFrom(s, i)[k].start
    ensures forall k, l :: 0 <= k < l < |SpansFrom(s, i)| ==>
              SpansFrom(s, i)[k].start + SpansFrom(s, i)[k].len <= SpansFrom(s, i)[l].start
    decreases |s| - i
  {
    if i < |s| {
      var r := SpansFrom(s, i);
      if MatchAt(s, i) {
        var n := MatchLen(s, i);
        var rest := SpansFrom(s, i + n);
        SpansOrdered(s, i + n);
        assert r == [Span(i, n)] + rest;
        forall k | 0 <= k < |r|
          ensures i <= r[k].start
        {
          if k > 0 {
            assert r[k] == rest[k - 1];
          }
        }
        forall k, l | 0 <= k < l < |r|
          ensures r[k].start + r[k].len <= r[l].start
        {
          assert r[l] == rest[l - 1];
          if k > 0 {
            assert r[k] == rest[k - 1];
          }
        }
      } else {
        SpansOrdered(s, i + 1);
      }
    }
  }

  /** Nothing is missed: every position where the pattern could start lies inside a reported match. */
  lemma {:induction false} SpansComplete(s: string, i: nat, j: nat)
    requires i <= j < |s| && MatchAt(s, j)
    ensures Covered(SpansFrom(s, i), j)
    decreases |s| - i
  {
    var r := SpansFrom(s, i);
    if MatchAt(s, i) {
      var n := MatchLen(s, i);
      if j < i + n {
        assert r[0].start <= j < r[0].start + r[0].len;
      } else {
        var rest := SpansFrom(s, i + n);
        SpansComplete(s, i + n, j);
        var k :| 0 <= k < |rest| && rest[k].start <= j < rest[k].start + rest[k].len;
        assert r[k + 1] == rest[k];
      }
    } else {
      assert j != i;
      SpansComplete(s, i + 1, j);
    }
  }

  /**
   * `re.findall(r"@[a-zA-Z0-9_]{5,32}", text)`: every result is a handle, and
   * the result is empty exactly when the pattern matches nowhere in the text.
   */
  function FindAll(s: string): (hs: seq<string>)
    ensures forall h :: h in hs ==> IsHandle(h)
    ensures hs == [] <==> forall j :: 0 <= j < |s| ==> !MatchAt(s, j)
  {
    var sp := SpansFrom(s, 0);
    SpansAreHandles(s);
    NoSpansNoMatch(s);
    seq(|sp|, k requires 0 <= k < |sp| => s[sp[k].start..sp[k].start + sp[k].len])
  }

  /** Each span found lies inside the text and spells a handle. */
  lemma SpansAreHandles(s: string)
    ensures forall k :: 0 <= k < |SpansFrom(s, 0)| ==>
              && SpansFrom(s, 0)[k].start + SpansFrom(s, 0)[k].len <= |s|
              && IsHandle(s[SpansFrom(s, 0)[k].start..SpansFrom(s, 0)[k].start + SpansFrom(s, 0)[k].len])
  {
    var sp := SpansFrom(s, 0);
    SpansSound(s, 0);
    forall k | 0 <= k < |sp|
      ensures sp[k].start + sp[k].len <= |s| && IsHandle(s[sp[k].start..sp[k].start + sp[k].len])
    {
      assert SpanOk(s, sp[k], 0);
      MatchIsHandle(s, sp[k].start);
    }
  }

  /** No span is found exactly when no position starts a match. */
  lemma NoSpansNoMatch(s: string)
    ensures SpansFrom(s, 0) == [] <==> forall j :: 0 <= j < |s| ==> !MatchAt(s, j)
  {
    var sp := SpansFrom(s, 0);
    if sp != [] {
      SpansSound(s, 0);
      assert SpanOk(s, sp[0], 0);
    } else {
      forall j | 0 <= j < |s| && MatchAt(s, j)
        ensures false
      {
        SpansComplete(s, 0, j);
      }
    }
  }

  /** The text of a match is a handle. */
  lemma MatchIsHandle(s: string, p: nat)
    requires MatchAt(s, p)
    ensures p + MatchLen(s, p) <= |s| && IsHandle(s[p..p + MatchLen(s, p)])
  {
    var h := s[p..p + MatchLen(s, p)];
    assert forall t :: 1 <= t < |h| ==> h[t] == s[p + t];
  }

  /** Why a handle in the message was not added. */
  datatype Skip = Itself(handle: string) | AlreadyAdded(handle: string)

  function SkipHandles(sk: seq<Skip>): (hs: seq<string>)
    ensures |hs| == |sk| && forall k :: 0 <= k < |sk| ==> hs[k] == sk[k].handle
  {
    seq(|sk|, k requires 0 <= k < |sk| => sk[k].handle)
  }

  predicate NoDuplicates(s: seq<string>) {
    forall i, j :: 0 <= i < j < |s| ==> s[i] != s[j]
  }

  /** The bulk-add loop's three accumulators: added list, skipped list, and the set it grows. */
  datatype Tally = Tally(added: seq<string>, skipped: seq<Skip>, seen: set<string>)

  /**
   * The bulk-add loop run over `hs`, starting from the stored targets `existing`:
   * the bot's own handle `me` is skipped, as is anything already seen; the rest is added.
   */
  function Classify(hs: seq<string>, existing: set<string>, me: string): Tally
    decreases |hs|
  {
    if hs == [] then Tally([], [], existing)
    else ClassifyNext(Classify(hs[..|hs| - 1], existing, me), hs[|hs| - 1], me)
  }

  /** The set grown is the stored targets plus the added handles; a handle is added exactly when it is new. */
  lemma {:induction false} ClassifySeen(hs: seq<string>, existing: set<string>, me: string)
    ensures Classify(hs, existing, me).seen == existing + set x | x in Classify(hs, existing, me).added
    ensures forall x :: x in Classify(hs, existing, me).added <==> x in hs && x != me && x !in existing
    decreases |hs|
  {
    if hs != [] {
      var front := hs[..|hs| - 1];
      var h := hs[|hs| - 1];
      assert hs == front + [h];
      ClassifySeen(front, existing, me);
      var t := Classify(front, existing, me);
      var t' := Classify(hs, existing, me);
      assert t' == ClassifyNext(t, h, me);
      if h != me && h !in t.seen {
        assert (set x | x in t.added + [h]) == (set x | x in t.added) + {h};
      }
      forall x
        ensures x in t'.added <==> x in hs && x != me && x !in existing
      {
        assert x in hs <==> x in front || x == h;
        assert x in t.added ==> x in (set y | y in t.added);
      }
    }
  }

  /** Every handle of the message is added or skipped, never both. */
  lemma {:induction false} ClassifyPartition(hs: seq<string>, existing: set<string>, me: string)
    ensures multiset(Classify(hs, existing, me).added) + multiset(SkipHandles(Classify(hs, existing, me).skipped))
            == multiset(hs)
    decreases |hs|
  {
    if hs != [] {
      var front := hs[..|hs| - 1];
      var h := hs[|hs| - 1];
      assert hs == front + [h];
      ClassifyPartition(front, existing, me);
      var t := Classify(front, existing, me);
      assert SkipHandles(t.skipped + [Itself(h)]) == SkipHandles(t.skipped) + [h];
      assert SkipHandles(t.skipped + [AlreadyAdded(h)]) == SkipHandles(t.skipped) + [h];
    }
  }

  /** Nothing is added twice. */
  lemma {:induction false} ClassifyNoDuplicates(hs: seq<string>, existing: set<string>, me: string)
    ensures NoDuplicates(Classify(hs, existing, me).added)
    decreases |hs|
  {
    if hs != [] {
      var front := hs[..|hs| - 1];
      ClassifyNoDuplicates(front, existing, me);
      ClassifySeen(front, existing, me);
      var t := Classify(front, existing, me);
      var h := hs[|hs| - 1];
      if h != me && h !in t.seen {
        assert h in t.added ==> h in (set y | y in t.added);
        var added := t.added + [h];
        forall i, j | 0 <= i < j < |added|
          ensures added[i] != added[j]
        {
          if j == |t.added| {
            assert added[i] == t.added[i];
          }
        }
      }
    }
  }

  /**
   * Each skip gives the right reason: "it's me" exactly for the bot's own handle;
   * an "already added" handle that was not stored before occurs earlier in the message.
   */
  lemma {:induction false} ClassifySkips(hs: seq<string>, existing: set<string>, me: string)
    ensures forall k :: 0 <= k < |Classify(hs, existing, me).skipped| ==>
              && (Classify(hs, existing, me).skipped[k].Itself? <==> Classify(hs, existing, me).skipped[k].handle == me)
              && (Classify(hs, existing, me).skipped[k].AlreadyAdded? && Classify(hs, existing, me).skipped[k].handle !in existing
                  ==> multiset(hs)[Classify(hs, existing, me).skipped[k].handle] >= 2)
    decreases |hs|
  {
    if hs != [] {
      var front := hs[..|hs| - 1];
      var h := hs[|hs| - 1];
      assert hs == front + [h];
      ClassifySkips(front, existing, me);
      ClassifySeen(front, existing, me);
      var t := Classify(front, existing, me);
      var t' := Classify(hs, existing, me);
      assert t' == ClassifyNext(t, h, me);
      assert multiset(hs) == multiset(front) + multiset{h};
      forall k | 0 <= k < |t.skipped|
        ensures t'.skipped[k] == t.skipped[k]
      {
      }
      if h != me && h in t.seen && h !in existing {
        assert h in (set x | x in t.added);
        assert h in front;
      }
    }
  }

  /** What the bulk-add loop promises, all together. */
  lemma ClassifySpec(hs: seq<string>, existing: set<string>, me: string)
    ensures Classify(hs, existing, me).seen == existing + set x | x in Classify(hs, existing, me).added
    ensures multiset(Classify(hs, existing, me).added) + multiset(SkipHandles(Classify(hs, existing, me).skipped))
            == multiset(hs)
    ensures forall x :: x in Classify(hs, existing, me).added <==> x in hs && x != me && x !in existing
    ensures NoDuplicates(Classify(hs, existing, me).added)
    ensures forall k :: 0 <= k < |Classify(hs, existing, me).skipped| ==>
              && (Classify(hs, existing, me).skipped[k].Itself? <==> Classify(hs, existing, me).skipped[k].handle == me)
              && (Classify(hs, existing, me).skipped[k].AlreadyAdded? && Classify(hs, existing, me).skipped[k].handle !in existing
                  ==> multiset(hs)[Classify(hs, existing, me).skipped[k].handle] >= 2)
  {
    ClassifySeen(hs, existing, me);
    ClassifyPartition(hs, existing, me);
    ClassifyNoDuplicates(hs, existing, me);
    ClassifySkips(hs, existing, me);
  }

  /** One step of the loop: `h` is skipped as the bot itself, skipped as already present, or added. */
  function ClassifyNext(t: Tally, h: string, me: string): Tally {
    if h == me then Tally(t.added, t.skipped + [Itself(h)], t.seen)
    else if h in t.seen then Tally(t.added, t.skipped + [AlreadyAdded(h)], t.seen)
    else Tally(t.added + [h], t.skipped, t.seen + {h})
  }

  /** Classifying one more handle of the message is one more step of the loop. */
  lemma ClassifyPrefix(hs: seq<string>, i: nat, existing: set<string>, me: string)
    requires i < |hs|
    ensures Classify(hs[..i + 1], existing, me) == ClassifyNext(Classify(hs[..i], existing, me), hs[i], me)
  {
    assert hs[..i + 1][..i] == hs[..i];
  }

  /**
   * `text.replace("remove_", "")`: every occurrence, found left to right without
   * overlap, is deleted; the text is not rescanned afterwards.
   */
  function StripAll(s: string): (r: string)
    ensures |r| <= |s|
    decreases |s|
  {
    if |s| >= |REMOVE_PREFIX| && s[..|REMOVE_PREFIX|] == REMOVE_PREFIX then StripAll(s[|REMOVE_PREFIX|..])
    else if s == [] then []
    else [s[0]] + StripAll(s[1..])
  }

  /** `remove_` occurs in `s` at position `i`. */
  predicate RemoveAt(s: string, i: nat) {
    i + |REMOVE_PREFIX| <= |s| && s[i..i + |REMOVE_PREFIX|] == REMOVE_PREFIX
  }

  ghost predicate ContainsRemove(s: string) {
    exists i: nat :: RemoveAt(s, i)
  }

  lemma {:induction false} StripAllNoOccurrence(s: string)
    requires !ContainsRemove(s)
    ensures StripAll(s) == s
    decreases |s|
  {
    if s != [] {
      assert !RemoveAt(s, 0);
      forall i: nat | RemoveAt(s[1..], i)
        ensures false
      {
        assert s[1..][i..i + |REMOVE_PREFIX|] == s[i + 1..i + 1 + |REMOVE_PREFIX|];
        assert RemoveAt(s, i + 1);
      }
      StripAllNoOccurrence(s[1..]);
      assert s == [s[0]] + s[1..];
    }
  }

  /** The button `remove_<h>` leads back to `h` whenever `h` has no `remove_` inside. */
  lemma RemoveButtonRoundTrip(h: string)
    requires !ContainsRemove(h)
    ensures StripAll(REMOVE_PREFIX + h) == h
  {
    var s := REMOVE_PREFIX + h;
    assert s[..|REMOVE_PREFIX|] == REMOVE_PREFIX && s[|REMOVE_PREFIX|..] == h;
    StripAllNoOccurrence(h);
  }

  /** Text in which no `remove_` can start is kept as it is, whatever follows it. */
  lemma {:induction false} StripAllKeeps(p: string, t: string)
    requires forall i :: 0 <= i < |p| ==> p[i] != REMOVE_PREFIX[0]
    ensures StripAll(p + t) == p + StripAll(t)
    decreases |p|
  {
    if p == [] {
      assert p + t == t;
    } else {
      var s := p + t;
      assert s[0] == p[0] != REMOVE_PREFIX[0];
      assert !(|s| >= |REMOVE_PREFIX| && s[..|REMOVE_PREFIX|] == REMOVE_PREFIX) by {
        if |s| >= |REMOVE_PREFIX| {
          assert s[..|REMOVE_PREFIX|][0] == s[0];
        }
      }
      assert StripAll(s) == [s[0]] + StripAll(s[1..]);
      assert s[1..] == p[1..] + t;
      assert forall i :: 0 <= i < |p[1..]| ==> p[1..][i] == p[i + 1];
      StripAllKeeps(p[1..], t);
      assert p == [p[0]] + p[1..];
    }
  }

  /**
   * An example of `ButtonMangles`: the button of a handle with one inner `remove_`,
   * such as `@auto_remove_bot`, loses that part too and names `@auto_bot`.
   */
  lemma RemoveButtonMangles(front: string, back: string)
    requires forall i :: 0 <= i < |front| ==> front[i] != REMOVE_PREFIX[0]
    requires forall i :: 0 <= i < |back| ==> back[i] != REMOVE_PREFIX[0]
    ensures StripAll(REMOVE_PREFIX + (front + (REMOVE_PREFIX + back))) == front + back
    ensures front + back != front + (REMOVE_PREFIX + back)
  {
    assert back + [] == back;
    calc {
      StripAll(REMOVE_PREFIX + (front + (REMOVE_PREFIX + back)));
      { StripAllDrops(front + (REMOVE_PREFIX + back)); }
      StripAll(front + (REMOVE_PREFIX + back));
      { StripAllKeeps(front, REMOVE_PREFIX + back); }
      front + StripAll(REMOVE_PREFIX + back);
      { StripAllDrops(back); }
      front + StripAll(back + []);
      { StripAllKeeps(back, []); }
      front + (back + StripAll([]));
    }
    assert |front + back| < |front + (REMOVE_PREFIX + back)|;
  }

  /** A leading `remove_` is deleted. */
  lemma StripAllDrops(t: string)
    ensures StripAll(REMOVE_PREFIX + t) == StripAll(t)
  {
    var s := REMOVE_PREFIX + t;
    assert s[..|REMOVE_PREFIX|] == REMOVE_PREFIX && s[|REMOVE_PREFIX|..] == t;
  }

  /** Text that contains `remove_` comes out strictly shorter. */
  lemma {:induction false} StripAllShortens(s: string)
    requires ContainsRemove(s)
    ensures |StripAll(s)| < |s|
    decreases |s|
  {
    var i: nat :| RemoveAt(s, i);
    if !(|s| >= |REMOVE_PREFIX| && s[..|REMOVE_PREFIX|] == REMOVE_PREFIX) {
      assert i > 0;
      assert s[1..][i - 1..i - 1 + |REMOVE_PREFIX|] == s[i..i + |REMOVE_PREFIX|];
      assert RemoveAt(s[1..], i - 1);
      StripAllShortens(s[1..]);
    }
  }

  /** The button of any handle that contains `remove_` names a different string. */
  lemma ButtonMangles(h: string)
    requires ContainsRemove(h)
    ensures StripAll(REMOVE_PREFIX + h) != h
  {
    StripAllDrops(h);
    StripAllShortens(h);
  }

  /** Index of the first occurrence of `x` in `xs`. */
  function IndexOf(xs: seq<string>, x: string): (i: nat)
    requires x in xs
    ensures i < |xs| && xs[i] == x && x !in xs[..i]
  {
    if xs[0] == x then 0
    else
      var i := 1 + IndexOf(xs[1..], x);
      assert xs[..i] == [xs[0]] + xs[1..][..i - 1];
      i
  }

  /** `list.remove(x)`: the first occurrence of `x` goes, everything else stays in order. */
  function RemoveFirst(xs: seq<string>, x: string): (r: seq<string>)
    requires x in xs
    ensures |r| == |xs| - 1
    ensures multiset(r) == multiset(xs) - multiset{x}
    ensures r[..IndexOf(xs, x)] == xs[..IndexOf(xs, x)]
    ensures r[IndexOf(xs, x)..] == xs[IndexOf(xs, x) + 1..]
  {
    var i := IndexOf(xs, x);
    assert xs == xs[..i] + [x] + xs[i + 1..];
    xs[..i] + xs[i + 1..]
  }
}
