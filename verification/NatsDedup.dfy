/**
 The content-based duplicate window of a subscription: a map from fingerprints to the time of the last accepted
 message, pruned every 500 accepted messages, against the full history of accepted messages that is never pruned.
 */
module NatsDedup {
  import opened Tables

  /** Strings as sequences of UTF-16 code units. */
  type Text = seq<nat>

  datatype Message = Message(subject: Text, raw: Text, at: int)

  const NUL: nat := 0
  const PREFIX: nat := 256
  const WINDOW_MS := 250
  const PRUNE_EVERY := 500

  function Head(raw: Text): (h: Text) { if |raw| <= PREFIX then raw else raw[..PREFIX] }
  function KeyOf(m: Message): (k: Text) { m.subject + [NUL] + Head(m.raw) }

  datatype Window = Window(seen: map<Text, int>, ops: nat)
  const EMPTY := Window(map[], 0)

  predicate Duplicate(w: Window, m: Message) {
    KeyOf(m) in w.seen && m.at - w.seen[KeyOf(m)] < WINDOW_MS
  }

  function Prune(seen: map<Text, int>, now: int): (r: map<Text, int>) {
    map k | k in seen && now - seen[k] <= WINDOW_MS :: seen[k]
  }

  /** The window after a message, dropped or not. */
  function Observe(w: Window, m: Message): (r: Window) {
    if Duplicate(w, m) then w
    else
      var seen := w.seen[KeyOf(m) := m.at];
      if w.ops + 1 >= PRUNE_EVERY then Window(Prune(seen, m.at), 0) else Window(seen, w.ops + 1)
  }

  function WindowAfter(w: Window, ms: seq<Message>): (r: Window) {
    if ms == [] then w else Observe(WindowAfter(w, ms[..|ms| - 1]), ms[|ms| - 1])
  }

  /** The messages let through. */
  function Accepted(ms: seq<Message>): (r: seq<Message>) {
    if ms == [] then []
    else
      var before, m := ms[..|ms| - 1], ms[|ms| - 1];
      Accepted(before) + if Duplicate(WindowAfter(EMPTY, before), m) then [] else [m]
  }

  // ---- the reference: what was said, not how it was remembered ----

  predicate SameContent(a: Message, b: Message) { a.subject == b.subject && Head(a.raw) == Head(b.raw) }

  /** An accepted message with the same subject and first 256 characters came less than 250 ms before. */
  ghost predicate Repeats(history: seq<Message>, m: Message) {
    exists i :: 0 <= i < |history| && SameContent(history[i], m) && m.at - history[i].at < WINDOW_MS
  }

  ghost predicate Monotone(ms: seq<Message>) { forall i, j :: 0 <= i < j < |ms| ==> ms[i].at <= ms[j].at }
  ghost predicate Plain(m: Message) { NUL !in m.subject }
  ghost predicate AllPlain(ms: seq<Message>) { forall i :: 0 <= i < |ms| ==> Plain(ms[i]) }

  lemma {:induction false} SplitAtNul(a: Text, x: Text, b: Text, y: Text)
    requires NUL !in a && NUL !in b && a + [NUL] + x == b + [NUL] + y
    ensures a == b && x == y
  {
    var whole := a + [NUL] + x;
    assert whole[|a|] == NUL && whole[|b|] == NUL;
    assert forall k | 0 <= k < |a| :: whole[k] == a[k] && a[k] in a;
    assert forall k | 0 <= k < |b| :: whole[k] == b[k] && b[k] in b;
    assert whole[..|a|] == a && whole[..|b|] == b;
    assert whole[|a| + 1..] == x && whole[|b| + 1..] == y;
  }

  /** For subjects without NUL equal fingerprints mean equal content. */
  lemma KeyIsContent(a: Message, b: Message)
    requires Plain(a) && Plain(b)
    ensures KeyOf(a) == KeyOf(b) <==> SameContent(a, b)
  {
    if KeyOf(a) == KeyOf(b) { SplitAtNul(a.subject, Head(a.raw), b.subject, Head(b.raw)); }
  }

  /** In general: messages with different content share a fingerprint exactly when one subject continues the other past
      a NUL and the other's text makes up for it. */
  lemma CollidesIff(a: Message, b: Message)
    requires |a.subject| <= |b.subject|
    ensures KeyOf(a) == KeyOf(b) && !SameContent(a, b)
            <==> exists x: Text :: b.subject == a.subject + [NUL] + x && Head(a.raw) == x + [NUL] + Head(b.raw)
  {
    var s, h, t, g := a.subject, Head(a.raw), b.subject, Head(b.raw);
    if KeyOf(a) == KeyOf(b) && !SameContent(a, b) {
      assert s + [NUL] + h == t + [NUL] + g;
      if |s| == |t| { SameLength(s, h, t, g); } else { Continues(s, h, t, g); }
    }
    if x: Text :| t == s + [NUL] + x && h == x + [NUL] + g {
      assert KeyOf(a) == s + [NUL] + (x + [NUL] + g);
      assert |t| > |s|;
    }
  }

  lemma SameLength(s: Text, h: Text, t: Text, g: Text)
    requires s + [NUL] + h == t + [NUL] + g && |s| == |t|
    ensures s == t && h == g
  {
    var whole := s + [NUL] + h;
    assert s == whole[..|s|] && t == whole[..|t|] && h == whole[|s| + 1..] && g == whole[|t| + 1..];
  }

  lemma Continues(s: Text, h: Text, t: Text, g: Text)
    requires s + [NUL] + h == t + [NUL] + g && |s| < |t|
    ensures exists x: Text :: t == s + [NUL] + x && h == x + [NUL] + g
  {
    var whole, x := s + [NUL] + h, t[|s| + 1..];
    assert t == whole[..|t|] && whole[..|s|] == s && whole[|s|] == NUL;
    assert t == t[..|s|] + [t[|s|]] + x;
    assert h == whole[|s| + 1..] && whole[|s| + 1..] == x + [NUL] + g;
  }

  lemma NulInSubjectCollides()
    ensures exists a: Message, b: Message :: KeyOf(a) == KeyOf(b) && !SameContent(a, b)
  {
    var a, b := Message([1, NUL, 2], [3], 0), Message([1], [2, NUL, 3], 0);
    assert KeyOf(a) == [1, NUL, 2, NUL, 3] == KeyOf(b);
    assert !SameContent(a, b);
  }

  /** What the window remembers of the history: per key the latest accepted time, except where it is too old. */
  ghost predicate Remembers(w: Window, history: seq<Message>, clock: int) {
    && (forall k | k in w.seen ::
          exists i :: 0 <= i < |history| && KeyOf(history[i]) == k && history[i].at == w.seen[k])
    && (forall i | 0 <= i < |history| ::
          (KeyOf(history[i]) in w.seen && history[i].at <= w.seen[KeyOf(history[i])])
          || clock - history[i].at > WINDOW_MS)
  }

  lemma DecidesByHistory(w: Window, history: seq<Message>, m: Message)
    requires Remembers(w, history, m.at) && AllPlain(history) && Plain(m)
    ensures Duplicate(w, m) <==> Repeats(history, m)
  {
    hide KeyOf, SameContent, Plain;
    forall i | 0 <= i < |history| ensures KeyOf(history[i]) == KeyOf(m) <==> SameContent(history[i], m) {
      KeyIsContent(history[i], m);
    }
    if Duplicate(w, m) {
      var i :| 0 <= i < |history| && KeyOf(history[i]) == KeyOf(m) && history[i].at == w.seen[KeyOf(m)];
      assert Repeats(history, m);
    }
  }

  lemma RemembersLater(w: Window, history: seq<Message>, clock: int, later: int)
    requires Remembers(w, history, clock) && clock <= later
    ensures Remembers(w, history, later)
  {
  }

  lemma AcceptRemembers(w: Window, history: seq<Message>, m: Message)
    requires Remembers(w, history, m.at) && forall i | 0 <= i < |history| :: history[i].at <= m.at
    ensures Remembers(Window(w.seen[KeyOf(m) := m.at], w.ops), history + [m], m.at)
  {
    hide KeyOf;
    var seen, more := w.seen[KeyOf(m) := m.at], history + [m];
    assert more[|history|] == m;
    forall k | k in seen ensures exists i :: 0 <= i < |more| && KeyOf(more[i]) == k && more[i].at == seen[k] {
      if k != KeyOf(m) {
        var i :| 0 <= i < |history| && KeyOf(history[i]) == k && history[i].at == w.seen[k];
        assert more[i] == history[i];
      }
    }
  }

  lemma PruneRemembers(w: Window, history: seq<Message>, now: int)
    requires Remembers(w, history, now)
    ensures Remembers(Window(Prune(w.seen, now), 0), history, now)
  {
    hide KeyOf;
  }

  lemma RemembersIgnoresOps(w: Window, v: Window, history: seq<Message>, clock: int)
    requires Remembers(w, history, clock) && v.seen == w.seen
    ensures Remembers(v, history, clock)
  {
  }

  lemma ObserveRemembers(w: Window, history: seq<Message>, m: Message)
    requires Remembers(w, history, m.at) && forall i | 0 <= i < |history| :: history[i].at <= m.at
    ensures Remembers(Observe(w, m), if Duplicate(w, m) then history else history + [m], m.at)
  {
    hide Remembers, Prune, KeyOf;
    if !Duplicate(w, m) {
      AcceptRemembers(w, history, m);
      var v := Window(w.seen[KeyOf(m) := m.at], w.ops);
      PruneRemembers(v, history + [m], m.at);
      RemembersIgnoresOps(v, Window(v.seen, w.ops + 1), history + [m], m.at);
    }
  }

  /** Accepted messages come from the stream, in order. */
  lemma {:induction false} AcceptedAreFromStream(ms: seq<Message>)
    requires Monotone(ms) && AllPlain(ms)
    ensures Monotone(Accepted(ms)) && AllPlain(Accepted(ms))
    ensures forall i | 0 <= i < |Accepted(ms)| :: Accepted(ms)[i].at <= ms[|ms| - 1].at
    decreases |ms|
  {
    hide Duplicate, Plain;
    if ms != [] {
      AcceptedAreFromStream(ms[..|ms| - 1]);
    }
  }

  lemma {:induction false} RunRemembers(ms: seq<Message>, clock: int)
    requires Monotone(ms) && AllPlain(ms) && (ms != [] ==> ms[|ms| - 1].at <= clock)
    ensures Remembers(WindowAfter(EMPTY, ms), Accepted(ms), clock)
    decreases |ms|
  {
    hide Duplicate, Observe, Plain;
    if ms != [] {
      var before, m := ms[..|ms| - 1], ms[|ms| - 1];
      AcceptedAreFromStream(before);
      AcceptedAreFromStream(ms);
      RunRemembers(before, m.at);
      hide Remembers;
      assert forall i | 0 <= i < |Accepted(before)| :: Accepted(before)[i].at <= m.at by {
        if before != [] { assert before[|before| - 1].at <= m.at; }
      }
      ObserveRemembers(WindowAfter(EMPTY, before), Accepted(before), m);
      assert Accepted(before) + [] == Accepted(before);
      RemembersLater(WindowAfter(EMPTY, ms), Accepted(ms), m.at, clock);
    }
  }

  /** Under a monotone clock the pruned window decides exactly as the unpruned history would. */
  lemma DroppedIffRepeats(ms: seq<Message>, m: Message)
    requires Monotone(ms + [m]) && AllPlain(ms + [m])
    ensures Duplicate(WindowAfter(EMPTY, ms), m) <==> Repeats(Accepted(ms), m)
  {
    hide Duplicate, Repeats, Plain, WindowAfter, Accepted;
    assert (ms + [m])[|ms|] == m;
    assert forall i | 0 <= i < |ms| :: (ms + [m])[i] == ms[i];
    RunRemembers(ms, m.at);
    AcceptedAreFromStream(ms);
    DecidesByHistory(WindowAfter(EMPTY, ms), Accepted(ms), m);
  }

  /** Accepted equals are at least 250 ms apart. */
  lemma {:induction false} AcceptedApart(ms: seq<Message>, i: nat, j: nat)
    requires Monotone(ms) && AllPlain(ms) && i < j < |Accepted(ms)| && SameContent(Accepted(ms)[i], Accepted(ms)[j])
    ensures Accepted(ms)[j].at - Accepted(ms)[i].at >= WINDOW_MS
    decreases |ms|
  {
    hide Duplicate, Plain;
    var before, m := ms[..|ms| - 1], ms[|ms| - 1];
    assert ms == before + [m];
    DroppedIffRepeats(before, m);
    if j < |Accepted(before)| {
      AcceptedApart(before, i, j);
    }
  }

  // ---- the window in place ----

  class DedupWindow {
    var seen: map<Text, int>
    var ops: nat
    ghost var stream: seq<Message>

    /** The window is where the messages observed so far lead. */
    ghost predicate Valid()
      reads this
    {
      View() == WindowAfter(EMPTY, stream)
    }

    ghost function View(): (w: Window)
      reads this
    {
      Window(seen, ops)
    }

    constructor ()
      ensures Valid() && stream == [] && View() == EMPTY
    {
      seen, ops, stream := map[], 0, [];
    }

    /** Whatever was observed before: a message is dropped iff it repeats an accepted one within the window, as long as
        the clock was monotone and the subjects held no NUL. */
    method IsDuplicate(m: Message) returns (dup: bool)
      requires Valid()
      modifies this
      ensures Valid() && stream == old(stream) + [m]
      ensures dup == Duplicate(old(View()), m) && View() == Observe(old(View()), m)
      ensures Monotone(stream) && AllPlain(stream) ==> (dup <==> Repeats(Accepted(old(stream)), m))
    {
      hide Repeats, Accepted, Plain;
      if Monotone(stream + [m]) && AllPlain(stream + [m]) { DroppedIffRepeats(stream, m); }
      stream := stream + [m];
      assert stream[..|stream| - 1] == old(stream);
      dup := Remember(m);
    }

    method Remember(m: Message) returns (dup: bool)
      modifies this`seen, this`ops
      ensures dup == Duplicate(old(View()), m) && View() == Observe(old(View()), m)
    {
      var key := KeyOf(m);
      if key in seen && m.at - seen[key] < WINDOW_MS { return true; }
      seen := seen[key := m.at];
      ops := ops + 1;
      if ops >= PRUNE_EVERY {
        ops := 0;
        PruneOld(m.at);
      }
      return false;
    }

    /** The loop that deletes old fingerprints, in whatever order the map is visited. */
    method PruneOld(now: int)
      modifies this`seen
      ensures seen == Prune(old(seen), now)
    {
      var todo := seen.Keys;
      while todo != {}
        invariant todo <= seen.Keys <= old(seen).Keys
        invariant forall k | k in old(seen) ::
                    (k in seen <==> k in todo || now - old(seen)[k] <= WINDOW_MS)
                    && (k in seen ==> seen[k] == old(seen)[k])
        decreases |todo|
      {
        var k :| k in todo;
        todo := todo - {k};
        if now - seen[k] > WINDOW_MS { seen := seen - {k}; }
      }
    }
  }
}
