/**
 The guarded request cache of the overlay: single flight per key, fresh and stale reads, exponential backoff, a
 global concurrency cap, and pruning in insertion order. A request is three steps: start, settle (the handler's
 result or error is recorded) and release (the `finally` block).
 */
module GuardedCache {
  import opened Tables
  import StableStringify

  type Value = nat

  datatype Policy = Policy(ttl: nat, stale: nat, slow: nat, backoff: nat, maxBackoff: nat)

  datatype Handler = GetSnapshot | GetSessionWorkspace | GetSessionTraceSummary | GetTasks | GetCrm | GetInsights
                   | GetArtifacts | GetArtifactNotifications | GetOmniPanel | ChatListResolve

  /** A cache key: the handler type and the canonical text of the payload (`StableStringify.CacheKeyIsInjective`). */
  datatype Key = Key(handler: Handler, payload: nat)

  function PolicyOf(h: Handler): (p: Policy)
    ensures 0 < p.ttl < p.stale && 0 < p.backoff <= p.maxBackoff
  {
    match h
    case GetSnapshot => Policy(1500, 8000, 3500, 2000, 15000)
    case GetSessionWorkspace => Policy(2500, 10000, 4000, 2500, 20000)
    case GetSessionTraceSummary => Policy(4000, 15000, 4000, 2500, 20000)
    case GetTasks => Policy(4000, 15000, 4500, 3000, 25000)
    case GetCrm => Policy(12000, 30000, 5000, 5000, 30000)
    case GetInsights => Policy(10000, 30000, 5000, 5000, 30000)
    case GetArtifacts => Policy(10000, 30000, 5000, 5000, 30000)
    case GetArtifactNotifications => Policy(3500, 12000, 5000, 4000, 25000)
    case GetOmniPanel => Policy(5000, 15000, 4500, 3000, 25000)
    case ChatListResolve => Policy(5000, 15000, 4500, 3000, 25000)
  }

  /** The request types, without their common prefix `ravi:`. */
  function ShortName(h: Handler): (s: string)
    ensures ':' !in s
  {
    match h
    case GetSnapshot => "get-snapshot"
    case GetSessionWorkspace => "get-session-workspace"
    case GetSessionTraceSummary => "get-session-trace-summary"
    case GetTasks => "get-tasks"
    case GetCrm => "get-crm"
    case GetInsights => "get-insights"
    case GetArtifacts => "get-artifacts"
    case GetArtifactNotifications => "get-artifact-notifications"
    case GetOmniPanel => "get-omni-panel"
    case ChatListResolve => "chat-list-resolve"
  }

  function TypeName(h: Handler): (s: string) { "ravi:" + ShortName(h) }

  function UnitsOf(s: string): (t: StableStringify.Text)
    ensures |t| == |s|
  {
    seq(|s|, i requires 0 <= i < |s| => if (s[i] as int) < 0x10000 then s[i] as int else 0xFFFD)
  }

  /** Every guarded type is a handler type, so the key's text determines the handler and the payload. */
  lemma KeyTextIdentifies(h: Handler, a: StableStringify.Value, g: Handler, b: StableStringify.Value)
    requires StableStringify.WellFormed(a) && StableStringify.WellFormed(b)
    requires StableStringify.IsJson(a) && StableStringify.IsJson(b)
    requires StableStringify.CacheKey(UnitsOf(TypeName(h)), a) == StableStringify.CacheKey(UnitsOf(TypeName(g)), b)
    ensures h == g && a == b
  {
    hide StableStringify.CacheKey, UnitsOf, TypeName;
    OneColon(h);
    OneColon(g);
    StableStringify.CacheKeyIsInjective(UnitsOf(TypeName(h)), a, UnitsOf(TypeName(g)), b);
    NamesDiffer(h, g);
  }

  lemma OneColon(h: Handler)
    ensures StableStringify.IsHandlerType(UnitsOf(TypeName(h)))
  {
    hide ShortName;
    var prefix, s, t := "ravi:", TypeName(h), UnitsOf(TypeName(h));
    assert ':' !in ShortName(h);
    assert forall j | 5 <= j < |s| :: s[j] == ShortName(h)[j - 5] && s[j] in ShortName(h);
    assert forall j | 0 <= j < 5 :: s[j] == prefix[j];
    assert t[4] == StableStringify.COLON && forall j | 0 <= j < |t| && j != 4 :: s[j] != ':';
  }

  lemma NamesDiffer(h: Handler, g: Handler)
    requires UnitsOf(TypeName(h)) == UnitsOf(TypeName(g))
    ensures h == g
  {
    var s, t, x, y := UnitsOf(TypeName(h)), UnitsOf(TypeName(g)), ShortName(h), ShortName(g);
    assert |s| == 5 + |x| && |t| == 5 + |y|;
    assert TypeName(h)[9] == x[4] && TypeName(g)[9] == y[4];
    assert s[9] == x[4] as int && t[9] == y[4] as int;
  }

  const MAX_IN_FLIGHT := 4
  const PRUNE_ABOVE := 80
  const PRUNE_TO := 60

  datatype Cached = Cached(value: Value, expiresAt: int, staleUntil: int)
  /** `settled` says the result is recorded and only the release is still to come. */
  datatype Flight = Flight(startedAt: int, settled: bool)
  datatype Entry = Entry(cached: Option<Cached>, flight: Option<Flight>, failures: nat, backoffUntil: int)
  const NEW_ENTRY := Entry(None, None, 0, 0)

  type Entries = map<Key, Entry>
  /** The JavaScript Map keeps insertion order; `order` lists the keys of `entries` in it. */
  datatype State = State(order: seq<Key>, entries: Entries, count: int)
  const EMPTY := State([], map[], 0)

  datatype Outcome = Joined | Served(value: Value) | BackedOff | Limited | Started
  datatype Result = Success(value: Value) | Refused | Threw

  // ---- pruning ----

  predicate Protected(e: Entry, now: int) {
    e.flight.Some? || (e.cached.Some? && e.cached.value.staleUntil > now)
  }

  /** The loop of `pruneGuardedRequestState`, with its early exit. */
  function PruneKeys(keys: seq<Key>, entries: Entries, now: int): (r: Entries) {
    if keys == [] then entries
    else if keys[0] !in entries || Protected(entries[keys[0]], now) then PruneKeys(keys[1..], entries, now)
    else
      var left := entries - {keys[0]};
      if |left| <= PRUNE_TO then left else PruneKeys(keys[1..], left, now)
  }

  function Keep(order: seq<Key>, entries: Entries): (r: seq<Key>)
    ensures forall k :: k in r <==> k in order && k in entries
    ensures NoDuplicates(order) ==> NoDuplicates(r)
  {
    if order == [] then []
    else
      var rest := Keep(order[1..], entries);
      assert order == [order[0]] + order[1..];
      if order[0] in entries then [order[0]] + rest else rest
  }

  function Prune(s: State, now: int): (r: State) {
    if |s.entries| <= PRUNE_ABOVE then s
    else
      var left := PruneKeys(s.order, s.entries, now);
      s.(entries := left, order := Keep(s.order, left))
  }

  // ---- the three steps ----

  function EntryOf(s: State, k: Key): (e: Entry) {
    if k in s.entries then s.entries[k] else NEW_ENTRY
  }

  /** `guardedRequestState.set(key, state)`. */
  function Touch(s: State, k: Key): (r: State) {
    if k in s.entries then s else s.(order := s.order + [k], entries := s.entries[k := NEW_ENTRY])
  }

  function Decide(s: State, k: Key, now: int): (o: Outcome) {
    var e := EntryOf(s, k);
    var stale := e.cached.Some? && e.cached.value.staleUntil > now;
    if e.flight.Some? then Joined
    else if e.cached.Some? && e.cached.value.expiresAt > now then Served(e.cached.value.value)
    else if e.backoffUntil > now then (if stale then Served(e.cached.value.value) else BackedOff)
    else if s.count >= MAX_IN_FLIGHT then (if stale then Served(e.cached.value.value) else Limited)
    else Started
  }

  function Request(s: State, k: Key, now: int): (r: State) {
    var t := Touch(s, k);
    if Decide(s, k, now).Started? then
      t.(count := t.count + 1, entries := t.entries[k := t.entries[k].(flight := Some(Flight(now, false)))])
    else t
  }

  function Min(a: int, b: int): (r: int) { if a <= b then a else b }
  function Max(a: int, b: int): (r: int) { if a >= b then a else b }

  function Doubled(n: nat, times: nat): (r: nat) {
    if times == 0 then n else 2 * Doubled(n, times - 1)
  }

  /** `markGuardedBackoff`. */
  function Backoff(e: Entry, p: Policy, now: int): (r: Entry) {
    var f := e.failures + 1;
    e.(failures := f, backoffUntil := now + Min(p.maxBackoff, Doubled(p.backoff, Min(f - 1, 4))))
  }

  function Settled(e: Entry, p: Policy, result: Result, now: int): (r: Entry)
    requires e.flight.Some?
  {
    var done := e.(flight := Some(e.flight.value.(settled := true)));
    match result
    case Success(v) =>
      done.(failures := 0,
            backoffUntil := if now - e.flight.value.startedAt > p.slow then now + Min(p.backoff, p.maxBackoff) else 0,
            cached := Some(Cached(v, now + p.ttl, now + p.stale)))
    case Refused => Backoff(done, p, now)
    case Threw => Backoff(done, p, now)
  }

  predicate Running(s: State, k: Key) {
    k in s.entries && s.entries[k].flight.Some? && !s.entries[k].flight.value.settled
  }

  predicate Finishing(s: State, k: Key) {
    k in s.entries && s.entries[k].flight.Some? && s.entries[k].flight.value.settled
  }

  function Settle(s: State, k: Key, result: Result, now: int): (r: State) {
    if Running(s, k) then s.(entries := s.entries[k := Settled(s.entries[k], PolicyOf(k.handler), result, now)]) else s
  }

  function Release(s: State, k: Key, now: int): (r: State) {
    if Finishing(s, k) then
      Prune(s.(count := Max(0, s.count - 1), entries := s.entries[k := s.entries[k].(flight := None)]), now)
    else s
  }

  // ---- what pruning keeps ----

  lemma {:induction false} PruneKeepsProtected(keys: seq<Key>, entries: Entries, now: int)
    ensures var r := PruneKeys(keys, entries, now);
      && r.Keys <= entries.Keys && (forall k | k in r :: r[k] == entries[k])
      && (forall k | k in entries && Protected(entries[k], now) :: k in r)
    decreases |keys|
  {
    if keys != [] {
      if keys[0] !in entries || Protected(entries[keys[0]], now) {
        PruneKeepsProtected(keys[1..], entries, now);
      } else {
        PruneKeepsProtected(keys[1..], entries - {keys[0]}, now);
      }
    }
  }

  /** Pruning stops at the target size or when only protected entries are left, and it drops the oldest first:
      whatever unprotected key survives, no newer one was dropped. */
  lemma {:induction false} PruneDropsOldestFirst(keys: seq<Key>, entries: Entries, now: int)
    requires NoDuplicates(keys) && |entries| > PRUNE_TO
    ensures var r := PruneKeys(keys, entries, now);
      && PRUNE_TO <= |r|
      && (|r| == PRUNE_TO || forall k | k in r && k in keys :: Protected(r[k], now))
      && (forall i, j | 0 <= i < j < |keys| && keys[i] in r && keys[j] in entries && keys[j] !in r ::
            Protected(r[keys[i]], now))
    decreases |keys|
  {
    var r := PruneKeys(keys, entries, now);
    PruneKeepsProtected(keys, entries, now);
    if keys != [] {
      assert keys == [keys[0]] + keys[1..];
      if keys[0] !in entries || Protected(entries[keys[0]], now) {
        PruneDropsOldestFirst(keys[1..], entries, now);
        forall i, j | 0 <= i < j < |keys| && keys[i] in r && keys[j] in entries && keys[j] !in r
          ensures Protected(r[keys[i]], now)
        {
          if i > 0 { assert keys[i] == keys[1..][i - 1] && keys[j] == keys[1..][j - 1]; }
        }
      } else {
        var left := entries - {keys[0]};
        assert |left| == |entries| - 1 by { assert left.Keys == entries.Keys - {keys[0]}; }
        if |left| > PRUNE_TO {
          PruneDropsOldestFirst(keys[1..], left, now);
          PruneKeepsProtected(keys[1..], left, now);
          forall i, j | 0 <= i < j < |keys| && keys[i] in r && keys[j] in entries && keys[j] !in r
            ensures Protected(r[keys[i]], now)
          {
            assert i > 0;
            assert keys[i] == keys[1..][i - 1] && keys[j] == keys[1..][j - 1] && keys[j] != keys[0];
          }
        }
      }
    }
  }

  // ---- backoff ----

  lemma {:induction false} DoubledGrows(n: nat, a: nat, b: nat)
    requires a <= b
    ensures n <= Doubled(n, a) <= Doubled(n, b)
    decreases b
  {
    if a > 0 { DoubledGrows(n, a - 1, b - 1); } else if b > 0 { DoubledGrows(n, 0, b - 1); }
  }

  /** A refused or failed run opens a window between the base and the greatest backoff, longer the more failures
      came before; a success opens one exactly when it was slow, and forgets the failures. */
  lemma SettledWindow(e: Entry, p: Policy, result: Result, now: int)
    requires e.flight.Some? && 0 < p.backoff <= p.maxBackoff
    ensures var r := Settled(e, p, result, now);
      if result.Success? then
        r.failures == 0 && r.backoffUntil == if now - e.flight.value.startedAt > p.slow then now + p.backoff else 0
      else
        r.failures == e.failures + 1 && r.cached == e.cached
        && now + p.backoff <= r.backoffUntil <= now + p.maxBackoff
    ensures forall more: nat | more >= e.failures && !result.Success? ::
              Settled(e, p, result, now).backoffUntil <= Settled(e.(failures := more), p, result, now).backoffUntil
  {
    DoubledGrows(p.backoff, 0, Min(e.failures, 4));
    forall more: nat | more >= e.failures
      ensures Doubled(p.backoff, Min(e.failures, 4)) <= Doubled(p.backoff, Min(more, 4))
    {
      DoubledGrows(p.backoff, Min(e.failures, 4), Min(more, 4));
    }
  }

  // ---- runs ----

  /** A handler that completed successfully. */
  datatype Completion = Completion(key: Key, value: Value, at: int)

  /** The cache with what an observer records: the clock, the completed runs, the handlers now running, the last
      backoff window set per key, and the keys pruned since that window was set. */
  datatype World = World(s: State, clock: int, log: seq<Completion>, running: multiset<Key>,
                         window: map<Key, int>, forgotten: set<Key>)
  const START := World(EMPTY, 0, [], multiset{}, map[], {})

  datatype Step = Ask(key: Key, now: int) | Finish(key: Key, result: Result, now: int) | Free(key: Key, now: int)

  /** The clock never runs backwards; a step that would is not a step. */
  function Next(w: World, step: Step): (w': World) {
    if step.now < w.clock then w
    else match step
      case Ask(k, now) =>
        w.(s := Request(w.s, k, now), clock := now,
           running := if Decide(w.s, k, now).Started? then w.running + multiset{k} else w.running)
      case Finish(k, result, now) =>
        if !Running(w.s, k) then w.(clock := now)
        else
          var s' := Settle(w.s, k, result, now);
          World(s', now, if result.Success? then w.log + [Completion(k, result.value, now)] else w.log,
                w.running - multiset{k}, w.window[k := s'.entries[k].backoffUntil], w.forgotten - {k})
      case Free(k, now) =>
        var s' := Release(w.s, k, now);
        w.(s := s', clock := now, forgotten := w.forgotten + (w.s.entries.Keys - s'.entries.Keys))
  }

  function Run(w: World, steps: seq<Step>): (w': World)
    decreases |steps|
  {
    if steps == [] then w else Run(Next(w, steps[0]), steps[1..])
  }

  function InFlight(entries: Entries): (r: set<Key>) {
    set k | k in entries && entries[k].flight.Some?
  }

  ghost predicate Came(log: seq<Completion>, k: Key, c: Cached, clock: int) {
    exists i :: 0 <= i < |log| && log[i].key == k && log[i].value == c.value && log[i].at <= clock
                && c.expiresAt == log[i].at + PolicyOf(k.handler).ttl
                && c.staleUntil == log[i].at + PolicyOf(k.handler).stale
  }

  ghost predicate Listed(s: State) {
    NoDuplicates(s.order) && forall k :: k in s.order <==> k in s.entries
  }

  /** The counter is the number of keys in flight, and at most the cap. */
  ghost predicate Counted(s: State) {
    s.count == |InFlight(s.entries)| && s.count <= MAX_IN_FLIGHT
  }

  /** At most one handler runs per key, exactly while its flight is unsettled. */
  ghost predicate SingleFlight(w: World) {
    forall k :: w.running[k] == if Running(w.s, k) then 1 else 0
  }

  ghost predicate CachesCame(w: World) {
    forall k | k in w.s.entries && w.s.entries[k].cached.Some? :: Came(w.log, k, w.s.entries[k].cached.value, w.clock)
  }

  /** Unless it was pruned since, a key's entry still carries the last window set for it. */
  ghost predicate WindowsKept(w: World) {
    forall k | k in w.window && k !in w.forgotten :: k in w.s.entries && w.s.entries[k].backoffUntil == w.window[k]
  }

  /** A pruned key is as if it had never been asked for, until a run of its handler settles again. */
  ghost predicate ForgottenAreNew(w: World) {
    forall k | k in w.forgotten :: EntryOf(w.s, k).(flight := None) == NEW_ENTRY
  }

  ghost predicate Inv(w: World) {
    Listed(w.s) && Counted(w.s) && SingleFlight(w) && CachesCame(w) && WindowsKept(w) && ForgottenAreNew(w)
  }

  lemma CameLater(log: seq<Completion>, log': seq<Completion>, k: Key, c: Cached, clock: int, clock': int)
    requires Came(log, k, c, clock) && log <= log' && clock <= clock'
    ensures Came(log', k, c, clock')
  {
    hide PolicyOf;
    var i :| 0 <= i < |log| && log[i].key == k && log[i].value == c.value && log[i].at <= clock
             && c.expiresAt == log[i].at + PolicyOf(k.handler).ttl
             && c.staleUntil == log[i].at + PolicyOf(k.handler).stale;
    assert log'[i] == log[i];
  }

  /** Cached values that were there before stay accounted for. */
  lemma OldCachesCame(w: World, w': World)
    requires CachesCame(w) && w.log <= w'.log && w.clock <= w'.clock
    requires forall x | x in w'.s.entries && w'.s.entries[x].cached.Some? ::
               (x in w.s.entries && w'.s.entries[x].cached == w.s.entries[x].cached)
               || Came(w'.log, x, w'.s.entries[x].cached.value, w'.clock)
    ensures CachesCame(w')
  {
    hide Came;
    forall x | x in w'.s.entries && w'.s.entries[x].cached.Some?
      ensures Came(w'.log, x, w'.s.entries[x].cached.value, w'.clock)
    {
      if x in w.s.entries && w'.s.entries[x].cached == w.s.entries[x].cached {
        CameLater(w.log, w'.log, x, w.s.entries[x].cached.value, w.clock, w'.clock);
      }
    }
  }

  lemma RequestShape(s: State, k: Key, now: int)
    requires Listed(s)
    ensures var s', started := Request(s, k, now), Decide(s, k, now).Started?;
      && Listed(s') && s'.entries.Keys == s.entries.Keys + {k}
      && (forall x | x in s.entries && x != k :: s'.entries[x] == s.entries[x])
      && s'.entries[k] == EntryOf(s, k).(flight := if started then Some(Flight(now, false)) else EntryOf(s, k).flight)
      && s'.count == s.count + (if started then 1 else 0)
      && (started ==> EntryOf(s, k).flight.None? && s.count < MAX_IN_FLIGHT)
      && (k in InFlight(s.entries) <==> EntryOf(s, k).flight.Some?)
  {
  }

  lemma OneMore(a: set<Key>, b: set<Key>, k: Key)
    requires a <= b && b - {k} <= a
    ensures |b| == |a| + (if k in b && k !in a then 1 else 0)
  {
    if k in b && k !in a { assert b == a + {k}; } else { assert b == a; }
  }

  lemma OneKeyChanges(a: Entries, b: Entries, k: Key)
    requires k in b && b.Keys == a.Keys + {k} && forall x | x in a && x != k :: b[x] == a[x]
    requires k in a && a[k].flight.Some? ==> b[k].flight.Some?
    ensures |InFlight(b)| == |InFlight(a)| + (if b[k].flight.Some? && k !in InFlight(a) then 1 else 0)
  {
    assert k in InFlight(b) <==> b[k].flight.Some?;
    assert forall x :: x in InFlight(a) ==> x in a && a[x].flight.Some? && x in b && x in InFlight(b);
    assert forall x :: x in InFlight(b) && x != k ==> x in a && b[x] == a[x] && x in InFlight(a);
    OneMore(InFlight(a), InFlight(b), k);
  }

  lemma AskKeepsCount(s: State, k: Key, now: int)
    requires Listed(s) && Counted(s)
    ensures Counted(Request(s, k, now))
  {
    hide Decide, Request, Listed;
    RequestShape(s, k, now);
    OneKeyChanges(s.entries, Request(s, k, now).entries, k);
  }

  lemma AskKeepsFlights(w: World, k: Key, now: int)
    requires Listed(w.s) && SingleFlight(w) && now >= w.clock
    ensures SingleFlight(Next(w, Ask(k, now)))
  {
    hide Decide, Request, Listed;
    RequestShape(w.s, k, now);
  }

  lemma AskKeepsInv(w: World, k: Key, now: int)
    requires Inv(w) && now >= w.clock
    ensures Inv(Next(w, Ask(k, now)))
  {
    hide CachesCame, Came, Decide, Request, Listed, Counted, SingleFlight;
    RequestShape(w.s, k, now);
    AskKeepsCount(w.s, k, now);
    AskKeepsFlights(w, k, now);
    OldCachesCame(w, Next(w, Ask(k, now)));
  }

  lemma SettleShape(s: State, k: Key, result: Result, now: int)
    requires Running(s, k)
    ensures var s' := Settle(s, k, result, now);
      && s' == s.(entries := s'.entries) && s'.entries.Keys == s.entries.Keys && Finishing(s', k)
      && (forall x | x in s.entries && x != k :: s'.entries[x] == s.entries[x])
      && (if result.Success?
          then s'.entries[k].cached == 
               Some(Cached(result.value, now + PolicyOf(k.handler).ttl, now + PolicyOf(k.handler).stale))
          else s'.entries[k].cached == s.entries[k].cached)
  {
    hide PolicyOf, Doubled;
  }

  lemma SettleKeepsFlights(s: State, k: Key, result: Result, now: int)
    requires Running(s, k)
    ensures InFlight(Settle(s, k, result, now).entries) == InFlight(s.entries)
    ensures forall x :: Running(Settle(s, k, result, now), x) <==> x != k && Running(s, x)
  {
    hide Settle;
    SettleShape(s, k, result, now);
  }

  lemma SettledCame(s: State, k: Key, v: Value, now: int, log: seq<Completion>)
    requires Running(s, k)
    ensures Came(log + [Completion(k, v, now)], k, Settle(s, k, Success(v), now).entries[k].cached.value, now)
  {
    hide Settle, PolicyOf;
    SettleShape(s, k, Success(v), now);
    assert (log + [Completion(k, v, now)])[|log|] == Completion(k, v, now);
  }

  lemma FinishKeepsInv(w: World, k: Key, result: Result, now: int)
    requires Inv(w) && now >= w.clock
    ensures Inv(Next(w, Finish(k, result, now)))
  {
    hide CachesCame, Came, Settle, PolicyOf, Running;
    if Running(w.s, k) {
      SettleShape(w.s, k, result, now);
      SettleKeepsFlights(w.s, k, result, now);
      if result.Success? { SettledCame(w.s, k, result.value, now, w.log); }
    }
    OldCachesCame(w, Next(w, Finish(k, result, now)));
  }

  lemma PruneKeepsFlights(s: State, now: int)
    requires Listed(s)
    ensures var r := Prune(s, now);
      && Listed(r) && r.count == s.count && InFlight(r.entries) == InFlight(s.entries)
      && r.entries.Keys <= s.entries.Keys && (forall k | k in r.entries :: r.entries[k] == s.entries[k])
      && (forall k | k in s.entries && Protected(s.entries[k], now) :: k in r.entries)
  {
    PruneKeepsProtected(s.order, s.entries, now);
  }

  /** Releasing: only the flight of `k` ends, and whatever pruning drops was neither in flight nor servable. */
  lemma ReleaseShape(s: State, k: Key, now: int)
    requires Listed(s) && Finishing(s, k)
    ensures var s' := Release(s, k, now);
      && Listed(s') && s'.count == Max(0, s.count - 1) && InFlight(s'.entries) == InFlight(s.entries) - {k}
      && s'.entries.Keys <= s.entries.Keys
      && (forall x | x in s'.entries && x != k :: s'.entries[x] == s.entries[x])
      && (k in s'.entries ==> s'.entries[k] == s.entries[k].(flight := None))
      && (forall x | x in s.entries && x != k && Protected(s.entries[x], now) :: x in s'.entries)
  {
    hide Prune, Protected;
    var freed := s.(count := Max(0, s.count - 1), entries := s.entries[k := s.entries[k].(flight := None)]);
    assert InFlight(freed.entries) == InFlight(s.entries) - {k};
    PruneKeepsFlights(freed, now);
  }

  lemma ReleaseKeepsRunning(s: State, k: Key, now: int)
    requires Listed(s) && Finishing(s, k)
    ensures forall x :: Running(Release(s, k, now), x) <==> Running(s, x)
  {
    hide Release, Listed;
    ReleaseShape(s, k, now);
    assert forall x | Running(s, x) :: Protected(s.entries[x], now);
  }

  lemma FreeKeepsInv(w: World, k: Key, now: int)
    requires Inv(w) && now >= w.clock
    ensures Inv(Next(w, Free(k, now)))
  {
    hide Came, CachesCame, Release, Listed, Running;
    var w' := Next(w, Free(k, now));
    if Finishing(w.s, k) {
      ReleaseShape(w.s, k, now);
      ReleaseKeepsRunning(w.s, k, now);
      assert k in InFlight(w.s.entries);
    } else {
      assert w'.s == w.s by { ReleaseNothing(w.s, k, now); }
    }
    OldCachesCame(w, w');
  }

  lemma ReleaseNothing(s: State, k: Key, now: int)
    requires !Finishing(s, k)
    ensures Release(s, k, now) == s
  {
  }

  /** In every interleaving: the counter, single flight, provenance of cached values and retained windows. */
  lemma {:induction false} RunKeepsInv(w: World, steps: seq<Step>)
    requires Inv(w)
    ensures Inv(Run(w, steps))
    decreases |steps|
  {
    if steps != [] {
      if steps[0].now >= w.clock {
        match steps[0]
        case Ask(k, now) => AskKeepsInv(w, k, now);
        case Finish(k, result, now) => FinishKeepsInv(w, k, result, now);
        case Free(k, now) => FreeKeepsInv(w, k, now);
      }
      RunKeepsInv(Next(w, steps[0]), steps[1..]);
    }
  }

  lemma StartHasInv()
    ensures Inv(START)
  {
    assert InFlight(EMPTY.entries) == {};
  }

  // ---- what a caller sees ----

  /** The clamp at zero never fires: a flight being released is counted. */
  lemma ClampNeverFires(w: World, k: Key)
    requires Inv(w) && Finishing(w.s, k)
    ensures Max(0, w.s.count - 1) == w.s.count - 1
  {
    assert k in InFlight(w.s.entries);
  }

  /** Every value served from the cache came from a successful run on the same key less than `stale` ago. */
  lemma ServedIsRecent(w: World, k: Key, now: int)
    requires Inv(w) && now >= w.clock && Decide(w.s, k, now).Served?
    ensures exists i :: 0 <= i < |w.log| && w.log[i].key == k && w.log[i].value == Decide(w.s, k, now).value
                        && w.log[i].at <= now < w.log[i].at + PolicyOf(k.handler).stale
  {
    assert Came(w.log, k, w.s.entries[k].cached.value, w.clock);
    var i :| 0 <= i < |w.log| && w.log[i].key == k && w.log[i].value == w.s.entries[k].cached.value.value
             && w.log[i].at <= w.clock
             && w.s.entries[k].cached.value.expiresAt == w.log[i].at + PolicyOf(k.handler).ttl
             && w.s.entries[k].cached.value.staleUntil == w.log[i].at + PolicyOf(k.handler).stale;
  }

  /** A handler starts inside the last backoff window of its key if and only if the entry was pruned since the window
      was set, no flight is open and a slot is free; and the entry was pruned if and only if the cache no longer knows
      of a window that long. */
  lemma StartsInsideWindowIff(w: World, k: Key, now: int)
    requires Inv(w) && k in w.window && w.window[k] > now >= 0
    ensures Decide(w.s, k, now).Started? <==>
              k in w.forgotten && EntryOf(w.s, k).flight.None? && w.s.count < MAX_IN_FLIGHT
    ensures k in w.forgotten <==> EntryOf(w.s, k).backoffUntil <= now
  {
  }

  // ---- eighty-one failing keys ----

  function Nth(i: nat): (k: Key) { Key(GetTasks, i) }
  const FAILED := Entry(None, None, 1, 3000)

  function Keys(n: nat): (order: seq<Key>)
    ensures |order| == n && forall i | 0 <= i < n :: order[i] == Nth(i)
  {
    seq(n, i requires 0 <= i < n => Nth(i))
  }

  function Failing(n: nat): (entries: Entries)
    ensures forall i: nat :: Nth(i) in entries <==> i < n
  {
    map k | k in Keys(n) :: FAILED
  }

  /** One key after another is asked for, throws and is released, all at time 0. */
  function Failures(n: nat): (steps: seq<Step>) {
    if n == 0 then []
    else Failures(n - 1) + [Ask(Nth(n - 1), 0), Finish(Nth(n - 1), Threw, 0), Free(Nth(n - 1), 0)]
  }

  lemma {:induction false} RunAppends(w: World, a: seq<Step>, b: seq<Step>)
    ensures Run(w, a + b) == Run(Run(w, a), b)
    decreases |a|
  {
    hide Next;
    if a == [] {
      assert a + b == b;
    } else {
      assert (a + b)[1..] == a[1..] + b;
      RunAppends(Next(w, a[0]), a[1..], b);
    }
  }

  lemma ListedKeys(n: nat)
    ensures Listed(State(Keys(n), Failing(n), 0)) && |Failing(n)| == n
  {
    DistinctCount(Keys(n), Failing(n).Keys);
  }

  function Asked(n: nat, e: Entry): (s: State) { State(Keys(n) + [Nth(n)], Failing(n)[Nth(n) := e], 1) }
  const RUNNING := Entry(None, Some(Flight(0, false)), 0, 0)
  const THROWN := Entry(None, Some(Flight(0, true)), 1, 3000)

  lemma AskFirst(w: World, n: nat)
    requires w.clock == 0 && w.s == State(Keys(n), Failing(n), 0)
    ensures var r := Next(w, Ask(Nth(n), 0)); r.clock == 0 && r.s == Asked(n, RUNNING) && r.window == w.window
  {
  }

  lemma ThrowFirst(w: World, n: nat)
    requires w.clock == 0 && w.s == Asked(n, RUNNING)
    ensures var r := Next(w, Finish(Nth(n), Threw, 0));
      r.clock == 0 && r.s == Asked(n, THROWN) && r.window == w.window[Nth(n) := 3000]
  {
    assert Doubled(3000, 0) == 3000;
    assert Settled(RUNNING, PolicyOf(GetTasks), Threw, 0) == THROWN;
    assert Settle(w.s, Nth(n), Threw, 0) == Asked(n, THROWN);
  }

  lemma FreeFirst(w: World, n: nat)
    requires w.clock == 0 && w.s == Asked(n, THROWN)
    ensures var r := Next(w, Free(Nth(n), 0));
      r.clock == 0 && r.s == Prune(State(Keys(n + 1), Failing(n + 1), 0), 0) && r.window == w.window
  {
    hide Prune;
    assert Keys(n) + [Nth(n)] == Keys(n + 1);
    assert Failing(n)[Nth(n) := THROWN][Nth(n) := FAILED] == Failing(n + 1);
  }

  /** A key that fails for the first time. */
  lemma FailOnce(w: World, n: nat)
    requires w.clock == 0 && w.s == State(Keys(n), Failing(n), 0)
    ensures var r := Run(w, [Ask(Nth(n), 0), Finish(Nth(n), Threw, 0), Free(Nth(n), 0)]);
      && r.clock == 0 && r.s == Prune(State(Keys(n + 1), Failing(n + 1), 0), 0)
      && r.window == w.window[Nth(n) := 3000]
  {
    hide Next, Prune, Asked;
    var k := Nth(n);
    var w1 := Next(w, Ask(k, 0));
    AskFirst(w, n);
    var w2 := Next(w1, Finish(k, Threw, 0));
    ThrowFirst(w1, n);
    FreeFirst(w2, n);
    assert Run(w2, [Free(k, 0)]) == Next(w2, Free(k, 0));
    assert Run(w1, [Finish(k, Threw, 0), Free(k, 0)]) == Run(w2, [Free(k, 0)]);
  }

  lemma {:induction false} FailureRun(n: nat)
    requires n <= PRUNE_ABOVE
    ensures var w := Run(START, Failures(n));
      && w.clock == 0 && w.s == State(Keys(n), Failing(n), 0)
      && (forall i: nat | i < n :: Nth(i) in w.window && w.window[Nth(i)] == 3000)
    decreases n
  {
    hide Next, Prune;
    if n > 0 {
      FailureRun(n - 1);
      FailOnce(Run(START, Failures(n - 1)), n - 1);
      RunAppends(START, Failures(n - 1), [Ask(Nth(n - 1), 0), Finish(Nth(n - 1), Threw, 0), Free(Nth(n - 1), 0)]);
      ListedKeys(n);
      PruneFew(State(Keys(n), Failing(n), 0));
    } else {
      assert Keys(0) == [] && Failing(0) == map[];
    }
  }

  lemma PruneFew(s: State)
    requires |s.entries| <= PRUNE_ABOVE
    ensures Prune(s, 0) == s
  {
  }

  /** In this run the first key starts again inside its window. */
  lemma StartedInsideWindow()
    ensures var w, k := Run(START, Failures(81)), Nth(0);
      k in w.window && w.window[k] == 3000 && k !in w.s.entries && Decide(w.s, k, 0).Started?
  {
    hide Next, Prune;
    FailureRun(80);
    FailOnce(Run(START, Failures(80)), 80);
    RunAppends(START, Failures(80), [Ask(Nth(80), 0), Finish(Nth(80), Threw, 0), Free(Nth(80), 0)]);
    assert Failures(81) == Failures(80) + [Ask(Nth(80), 0), Finish(Nth(80), Threw, 0), Free(Nth(80), 0)];
    FirstIsPruned();
  }

  lemma FirstIsPruned()
    ensures var s := Prune(State(Keys(81), Failing(81), 0), 0); Nth(0) !in s.entries && s.count == 0
  {
    var order, entries := Keys(81), Failing(81);
    ListedKeys(81);
    assert order[0] == Nth(0) && !Protected(entries[order[0]], 0);
    PruneKeepsProtected(order[1..], entries - {order[0]}, 0);
  }

  lemma {:induction false} DistinctCount(order: seq<Key>, keys: set<Key>)
    requires NoDuplicates(order) && Elems(order) == keys
    ensures |keys| == |order|
    decreases |order|
  {
    if order != [] {
      var last := order[|order| - 1];
      var init := order[..|order| - 1];
      assert order == init + [last];
      assert Elems(init) == keys - {last};
      DistinctCount(init, keys - {last});
    }
  }

  // ---- the module's mutable state ----

  lemma {:induction false} KeepTwice(order: seq<Key>, more: Entries, fewer: Entries)
    requires fewer.Keys <= more.Keys
    ensures Keep(Keep(order, more), fewer) == Keep(order, fewer)
    decreases |order|
  {
    if order != [] {
      KeepTwice(order[1..], more, fewer);
      var rest := Keep(order[1..], more);
      if order[0] in more { assert ([order[0]] + rest)[1..] == rest; }
    }
  }

  lemma {:induction false} KeepAll(order: seq<Key>, entries: Entries)
    requires forall k | k in order :: k in entries
    ensures Keep(order, entries) == order
    decreases |order|
  {
    if order != [] { KeepAll(order[1..], entries); }
  }

  lemma ListedIsKept(s: State)
    requires Listed(s)
    ensures Keep(s.order, s.entries) == s.order
  {
    KeepAll(s.order, s.entries);
  }

  lemma PruneOneKey(keys: seq<Key>, i: nat, entries: Entries, now: int)
    requires i <= |keys|
    ensures i == |keys| ==> PruneKeys(keys[i..], entries, now) == entries
    ensures i < |keys| ==>
              PruneKeys(keys[i..], entries, now) ==
              if keys[i] !in entries || Protected(entries[keys[i]], now) then PruneKeys(keys[i + 1..], entries, now)
              else if |entries - {keys[i]}| <= PRUNE_TO then entries - {keys[i]}
              else PruneKeys(keys[i + 1..], entries - {keys[i]}, now)
  {
    var rest := keys[i..];
    assert i < |keys| ==> rest[0] == keys[i] && rest[1..] == keys[i + 1..];
  }

  /** `guardedRequestState` and `guardedInFlightCount`, updated in place by the request path. */
  class GuardedRequests {
    var entries: Entries
    var order: seq<Key>
    var inFlightCount: int
    ghost var world: World
    ghost var history: seq<Step>

    /** The cache is where its steps lead. */
    ghost predicate Valid()
      reads this
    {
      world == Run(START, history) && View() == world.s
    }

    constructor ()
      ensures Valid() && history == []
    {
      entries, order, inFlightCount, world, history := map[], [], 0, START, [];
    }

    /** One request, settlement or release at a time not before the last. Between steps the counter is the number of
        keys in flight and at most the cap, and at most one handler runs per key. */
    method Take(step: Step) returns (o: Outcome)
      requires Valid() && step.now >= world.clock
      modifies this
      ensures Valid() && history == old(history) + [step]
      ensures inFlightCount == |InFlight(entries)| <= MAX_IN_FLIGHT && forall k :: world.running[k] <= 1
      ensures step.Ask? ==> o == Decide(old(world.s), step.key, step.now)
    {
      hide Request, Decide, Settle, Release, Run, Inv;
      o := Joined;
      NextOfHistory(history, step);
      StartHasInv();
      RunKeepsInv(START, history);
      NextMeans(world, step);
      match step {
        case Ask(k, now) => o := RunGuarded(k, now);
        case Finish(k, result, now) => if Running(State(order, entries, inFlightCount), k) { Record(k, result, now); }
        case Free(k, now) =>
          if Finishing(State(order, entries, inFlightCount), k) { Finally(k, now); }
          else { ReleaseNothing(View(), k, now); }
      }
      history, world := history + [step], Next(world, step);
      RunKeepsInv(START, history);
      InvMeans(world);
    }

    ghost function View(): (s: State)
      reads this
    {
      State(order, entries, inFlightCount)
    }

    method RunGuarded(k: Key, now: int) returns (o: Outcome)
      modifies this`entries, this`order, this`inFlightCount
      ensures View() == Request(old(View()), k, now) && o == Decide(old(View()), k, now)
    {
      if k !in entries {
        order := order + [k];
        entries := entries[k := NEW_ENTRY];
      }
      var e := entries[k];
      var stale := e.cached.Some? && e.cached.value.staleUntil > now;
      if e.flight.Some? { return Joined; }
      if e.cached.Some? && e.cached.value.expiresAt > now { return Served(e.cached.value.value); }
      if e.backoffUntil > now { return if stale then Served(e.cached.value.value) else BackedOff; }
      if inFlightCount >= MAX_IN_FLIGHT { return if stale then Served(e.cached.value.value) else Limited; }
      inFlightCount := inFlightCount + 1;
      entries := entries[k := e.(flight := Some(Flight(now, false)))];
      return Started;
    }

    method Record(k: Key, result: Result, now: int)
      requires Running(View(), k)
      modifies this`entries
      ensures View() == Settle(old(View()), k, result, now)
    {
      var p, e := PolicyOf(k.handler), entries[k];
      e := e.(flight := Some(e.flight.value.(settled := true)));
      if result.Success? {
        var slow := now - e.flight.value.startedAt > p.slow;
        e := e.(failures := 0, backoffUntil := if slow then now + Min(p.backoff, p.maxBackoff) else 0);
        e := e.(cached := Some(Cached(result.value, now + p.ttl, now + p.stale)));
      } else {
        e := Backoff(e, p, now);
      }
      entries := entries[k := e];
    }

    method Finally(k: Key, now: int)
      requires Listed(View()) && Finishing(View(), k)
      modifies this`entries, this`order, this`inFlightCount
      ensures View() == Release(old(View()), k, now)
    {
      inFlightCount := Max(0, inFlightCount - 1);
      entries := entries[k := entries[k].(flight := None)];
      PruneState(now);
    }

    method PruneState(now: int)
      requires Listed(View())
      modifies this`entries, this`order
      ensures View() == Prune(old(View()), now)
    {
      hide PruneKeys, Keep, Listed, Protected;
      if |entries| > PRUNE_ABOVE {
        var keys, i := order, 0;
        ghost var target := PruneKeys(keys, entries, now);
        ListedIsKept(View());
        assert keys[0..] == keys;
        while i < |keys|
          invariant i <= |keys| && order == Keep(keys, entries) && PruneKeys(keys[i..], entries, now) == target
        {
          PruneOneKey(keys, i, entries, now);
          if keys[i] in entries && !Protected(entries[keys[i]], now) {
            KeepTwice(keys, entries, entries - {keys[i]});
            entries := entries - {keys[i]};
            order := Keep(order, entries);
            if |entries| <= PRUNE_TO { return; }
          }
          i := i + 1;
        }
        PruneOneKey(keys, |keys|, entries, now);
      }
    }
  }

  lemma NextOfHistory(history: seq<Step>, step: Step)
    ensures Run(START, history + [step]) == Next(Run(START, history), step)
  {
    hide Next;
    RunAppends(START, history, [step]);
    assert [step][1..] == [];
  }

  lemma InvMeans(w: World)
    requires Inv(w)
    ensures Listed(w.s) && w.s.count == |InFlight(w.s.entries)| <= MAX_IN_FLIGHT && forall k :: w.running[k] <= 1
  {
  }

  /** What a step makes of the cache. */
  lemma NextMeans(w: World, step: Step)
    requires step.now >= w.clock && Inv(w)
    ensures Listed(w.s)
    ensures Next(w, step).s ==
              match step
              case Ask(k, now) => Request(w.s, k, now)
              case Finish(k, result, now) => Settle(w.s, k, result, now)
              case Free(k, now) => Release(w.s, k, now)
  {
    hide Request, Release, Decide;
    if step.Finish? && !Running(w.s, step.key) { assert Settle(w.s, step.key, step.result, step.now) == w.s; }
  }
}
