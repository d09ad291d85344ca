/** What the guarded cache is for: a value stays served while it is fresh, a stale one stands in when no handler may
    run, and every refusal has its own reason. */
module CacheEffects {
  import opened Tables
  import opened GuardedCache

  // ---- one request ----

  /** Each outcome has its own reason, read off the entry of the key and the number of flights. */
  lemma OutcomeMeans(s: State, k: Key, now: int)
    ensures var e, o := EntryOf(s, k), Decide(s, k, now);
      var valid := e.cached.Some? && e.cached.value.expiresAt > now;
      var stale := e.cached.Some? && e.cached.value.staleUntil > now;
      var full := s.count >= MAX_IN_FLIGHT;
      && (o.Joined? <==> e.flight.Some?)
      && (o.Served? <==> e.flight.None? && (valid || (stale && (e.backoffUntil > now || full))))
      && (o.Served? ==> e.cached.Some? && o.value == e.cached.value.value)
      && (o.BackedOff? <==> e.flight.None? && !valid && !stale && e.backoffUntil > now)
      && (o.Limited? <==> e.flight.None? && !valid && !stale && e.backoffUntil <= now && full)
      && (o.Started? <==> e.flight.None? && !valid && e.backoffUntil <= now && !full)
  {
  }

  /** A request starts a flight exactly when its outcome says so, and changes no other key's entry. */
  lemma RequestMeans(s: State, k: Key, now: int)
    ensures var s' := Request(s, k, now);
      && s'.entries.Keys == s.entries.Keys + {k}
      && (forall x | x in s.entries && x != k :: s'.entries[x] == s.entries[x])
      && (if Decide(s, k, now).Started?
          then s'.count == s.count + 1
               && s'.entries[k] == EntryOf(s, k).(flight := Some(Flight(now, false)))
          else s'.count == s.count && s'.entries[k] == EntryOf(s, k))
      && s'.order == (if k in s.entries then s.order else s.order + [k])
  {
    hide Decide;
  }

  // ---- from a success to the next request ----

  /** The value of `k` is still the one stored at `t`, and no handler of `k` has run since. */
  ghost predicate Holds(w: World, k: Key, v: Value, t: int) {
    var p := PolicyOf(k.handler);
    && Inv(w) && w.clock >= t && k in w.s.entries
    && w.s.entries[k].cached == Some(Cached(v, t + p.ttl, t + p.stale)) && !Running(w.s, k)
  }

  lemma FinishHolds(w: World, k: Key, v: Value, t: int)
    requires Inv(w) && Running(w.s, k) && t >= w.clock
    ensures Holds(Next(w, Finish(k, Success(v), t)), k, v, t)
  {
    hide Inv, Settle, PolicyOf;
    FinishKeepsInv(w, k, Success(v), t);
    SettleShape(w.s, k, Success(v), t);
  }

  lemma StepHolds(w: World, step: Step, k: Key, v: Value, t: int)
    requires Holds(w, k, v, t) && step.now < t + PolicyOf(k.handler).ttl
    ensures Holds(Next(w, step), k, v, t)
    ensures EntryOf(w.s, k).flight.None? ==> EntryOf(Next(w, step).s, k).flight.None?
    ensures step == Free(k, step.now) && step.now >= w.clock ==> EntryOf(Next(w, step).s, k).flight.None?
  {
    hide PolicyOf, Settle, Release, Listed, Counted, SingleFlight, CachesCame, WindowsKept, ForgottenAreNew, Decide,
      Request;
    if step.now >= w.clock {
      match step
      case Ask(x, now) =>
        AskKeepsInv(w, x, now);
        RequestShape(w.s, x, now);
        OutcomeMeans(w.s, x, now);
      case Finish(x, result, now) =>
        FinishKeepsInv(w, x, result, now);
        if Running(w.s, x) { SettleShape(w.s, x, result, now); }
      case Free(x, now) =>
        FreeKeepsInv(w, x, now);
        if Finishing(w.s, x) { FreeHolds(w.s, x, now, k); } else { ReleaseNothing(w.s, x, now); }
    }
  }

  /** Pruning spares a value that is not stale. */
  lemma FreeHolds(s: State, x: Key, now: int, k: Key)
    requires Listed(s) && Finishing(s, x) && k in s.entries
    requires s.entries[k].cached.Some? && s.entries[k].cached.value.staleUntil > now
    ensures var s' := Release(s, x, now);
      && k in s'.entries
      && s'.entries[k] == (if x == k then s.entries[k].(flight := None) else s.entries[k])
  {
    var freed := s.(count := Max(0, s.count - 1), entries := s.entries[x := s.entries[x].(flight := None)]);
    assert Protected(freed.entries[k], now);
    hide Prune;
    PruneKeepsFlights(freed, now);
  }

  lemma {:induction false} ClockGrows(w: World, steps: seq<Step>)
    ensures Run(w, steps).clock >= w.clock
    decreases |steps|
  {
    if steps != [] { ClockGrows(Next(w, steps[0]), steps[1..]); }
  }

  lemma {:induction false} RunHolds(w: World, steps: seq<Step>, k: Key, v: Value, t: int)
    requires Holds(w, k, v, t) && Run(w, steps).clock < t + PolicyOf(k.handler).ttl
    ensures Holds(Run(w, steps), k, v, t)
    ensures EntryOf(w.s, k).flight.None? ==> EntryOf(Run(w, steps).s, k).flight.None?
    decreases |steps|
  {
    if steps != [] {
      hide Holds, PolicyOf;
      ClockGrows(Next(w, steps[0]), steps[1..]);
      if steps[0].now < w.clock {
        assert Next(w, steps[0]) == w;
      } else {
        assert Next(w, steps[0]).clock == steps[0].now;
        StepHolds(w, steps[0], k, v, t);
      }
      RunHolds(Next(w, steps[0]), steps[1..], k, v, t);
    }
  }

  /** A successful result is what every request for its key gets within `ttl` of it, whatever happened on this and other
      keys in between: from the cache once the run is released, before that by joining the run. No handler of the key
      runs, or starts, in that time. */
  lemma FreshIsServed(w: World, k: Key, v: Value, t: int, between: seq<Step>, now: int)
    requires Inv(w) && Running(w.s, k) && t >= w.clock
    requires var w' := Run(Next(w, Finish(k, Success(v), t)), between);
      w'.clock <= now < t + PolicyOf(k.handler).ttl
    ensures var w' := Run(Next(w, Finish(k, Success(v), t)), between);
      && Decide(w'.s, k, now) == (if EntryOf(w'.s, k).flight.Some? then Joined else Served(v))
      && w'.running[k] == 0 && Next(w', Ask(k, now)).running == w'.running
  {
    hide PolicyOf;
    FinishHolds(w, k, v, t);
    RunHolds(Next(w, Finish(k, Success(v), t)), between, k, v, t);
  }

  /** Once released it is served. */
  lemma ReleasedIsServed(w: World, k: Key, v: Value, t: int, before: seq<Step>, freed: int, after: seq<Step>, now: int)
    requires Inv(w) && Running(w.s, k) && t >= w.clock
    requires freed >= Run(Next(w, Finish(k, Success(v), t)), before).clock
    requires var w' := Run(Next(w, Finish(k, Success(v), t)), before + [Free(k, freed)] + after);
      w'.clock <= now < t + PolicyOf(k.handler).ttl
    ensures var w' := Run(Next(w, Finish(k, Success(v), t)), before + [Free(k, freed)] + after);
      && Decide(w'.s, k, now) == Served(v) && Next(w', Ask(k, now)).running == w'.running
  {
    hide PolicyOf, Holds, Running, Next, Decide, Inv;
    var w1 := Next(w, Finish(k, Success(v), t));
    var w2 := Run(w1, before);
    var w3 := Next(w2, Free(k, freed));
    RunAppends(w1, before + [Free(k, freed)], after);
    RunAppends(w1, before, [Free(k, freed)]);
    assert [Free(k, freed)][1..] == [] && Run(w2, [Free(k, freed)]) == w3;
    FreshIsServed(w, k, v, t, before + [Free(k, freed)] + after, now);
    ClockGrows(w3, after);
    FreeAdvances(w2, k, freed);
    FinishHolds(w, k, v, t);
    RunHolds(w1, before, k, v, t);
    StepHolds(w2, Free(k, freed), k, v, t);
    RunHolds(w3, after, k, v, t);
  }

  lemma FreeAdvances(w: World, k: Key, now: int)
    requires now >= w.clock
    ensures Next(w, Free(k, now)).clock == now
  {
    hide Release;
  }

  // ---- how long a failing key is left alone ----

  /** Doubling stops after the fifth failure in a row. */
  const FACTORS: seq<nat> := [1, 2, 4, 8, 16]

  /** The window after a failure is the base time doubled for each failure in a row before it, four times at the most,
      and never longer than the greatest. */
  lemma WindowDoubles(e: Entry, p: Policy, result: Result, now: int)
    requires e.flight.Some? && !result.Success?
    ensures Settled(e, p, result, now).backoffUntil
            == now + Min(p.maxBackoff, p.backoff * FACTORS[Min(e.failures, 4)])
  {
    DoublingTable(p.backoff);
  }

  lemma DoublingTable(n: nat)
    ensures forall i: nat | i < 5 :: Doubled(n, i) == n * FACTORS[i]
  {
    assert Doubled(n, 0) == n;
    assert Doubled(n, 1) == 2 * Doubled(n, 0);
    assert Doubled(n, 2) == 2 * Doubled(n, 1);
    assert Doubled(n, 3) == 2 * Doubled(n, 2);
    assert Doubled(n, 4) == 2 * Doubled(n, 3);
  }
}
