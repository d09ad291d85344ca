/** What presence is for: accepted activity shows typing where the work came from, at most every four seconds, and every
    other handler sends and schedules what it is meant to. */
module PresenceEffects {
  import opened Tables
  import opened Presence

  // ---- no target the gateway aims at is suppressed ----

  /** The targets the gateway aims at by itself. */
  predicate CleanAims(s: Session) {
    && !Suppressed(TurnOf(s).active) && !Suppressed(s.native)
    && (s.renewal.Some? ==> !s.renewal.value.target.suppressed)
  }

  lemma OutboundKeepsClean(s: Session, t: Target)
    requires CleanAims(s) && (s.active ==> !t.suppressed)
    ensures CleanAims(RememberOutbound(s, t))
  {
  }

  lemma AimIsClean(s: Session, t: Target, env: Env)
    requires CleanAims(s) && (s.active ==> !t.suppressed)
    ensures CleanAims(RuntimeTarget(s, t, env).s)
    ensures !t.suppressed ==> !RuntimeTarget(s, t, env).target.suppressed
  {
    hide RememberOutbound, SameSurface;
    if t in env.trace { OutboundKeepsClean(s, t.(anchor := Some(env.trace[t]), lastOutbound := true)); }
  }

  lemma SendKeepsClean(s: Session, t: Target, on: bool, d: Delivery)
    requires CleanAims(s)
    ensures CleanAims(SendTyping(s, t, on, d).s)
  {
    hide RememberNative;
    var logged := s.(log := s.log + [Sent(t, on)]);
    if on { if !t.suppressed { ShownStaysClean(logged, t); } } else { EndedStaysClean(logged, t); }
  }

  lemma ShownStaysClean(s: Session, t: Target)
    requires CleanAims(s) && !t.suppressed
    ensures CleanAims(RememberNative(s, t, true))
  {
    hide SameSurface;
  }

  lemma EndedStaysClean(s: Session, t: Target)
    requires CleanAims(s)
    ensures CleanAims(RememberNative(s, t, false))
  {
    hide SameSurface, DropNative, DropTurn, TurnOf, RememberAnchor, ActivateTurn;
    DropNativeMeans(s, t);
    DropTurnMeans(DropNative(s, t), t);
  }

  lemma DropNativeMeans(s: Session, t: Target)
    ensures var r := DropNative(s, t);
      && r == s.(native := r.native) && TurnOf(r) == TurnOf(s)
      && (r.native.Some? ==> r.native == s.native && !SameSurface(r.native.value, t))
      && (s.native.Some? && !SameSurface(s.native.value, t) ==> r.native == s.native)
  {
  }

  lemma DropTurnMeans(s: Session, t: Target)
    ensures var r := DropTurn(s, t);
      && r == s.(turn := r.turn)
      && (TurnOf(r).active.Some? ==> TurnOf(r).active == TurnOf(s).active && !SameSurface(TurnOf(r).active.value, t))
      && (TurnOf(s).active.Some? && !SameSurface(TurnOf(s).active.value, t) ==> TurnOf(r).active == TurnOf(s).active)
  {
  }

  lemma ForceKeepsClean(s: Session, t: Target, env: Env)
    requires CleanAims(s)
    ensures CleanAims(ForceRenew(s, t, env).s)
  {
    hide SendTyping;
    SendKeepsClean(s, t, true, env.first);
  }

  lemma StopSendsKeepsClean(s: Session, preferred: Option<Target>, env: Env)
    requires CleanAims(s) && !s.active
    ensures CleanAims(StopSends(s, preferred, env))
  {
    hide SendTyping, RuntimeTarget;
    if s.consumer.Some? {
      var local := s.consumer.value;
      AimIsClean(s, local, env);
      var aim := if local.native then RuntimeTarget(s, local, env) else Aimed(s, local);
      SendKeepsClean(aim.s, aim.target, false, env.first);
      var cleared := ClearConsumer(SendTyping(aim.s, aim.target, false, env.first).s).(stopped := true);
      if preferred.Some? { SendKeepsClean(cleared, preferred.value, false, env.second); }
    } else if preferred.Some? {
      SendKeepsClean(s, preferred.value, false, env.first);
    }
  }

  lemma StopKeepsClean(s: Session, t: Option<Target>, env: Env)
    requires CleanAims(s)
    ensures CleanAims(StopPresence(s, t, env))
  {
    hide RuntimeTarget, StopSends;
    var s0 := s.(active := false, terminal := true, renewedAt := None, sequence := None, renewal := None,
                  interrupted := None);
    var turnTarget := if s.turn.Some? then s.turn.value.active else None;
    if t.Some? {
      AimIsClean(s0, t.value, env);
      AimKeeps(s0, t.value, env);
    }
    var s1 := if turnTarget.None? && t.Some? then RuntimeTarget(s0, t.value, env).s else s0;
    var preferred := if turnTarget.Some? then turnTarget
                     else if t.Some? then Some(RuntimeTarget(s0, t.value, env).target)
                     else None;
    var s2 := if s.turn.Some? then s1.(turn := Some(TurnOf(s1).(active := None, terminal := true))) else s1;
    StopSendsKeepsClean(s2, preferred, env);
  }

  /** The session as an accepted activity event leaves it before anything is sent. */
  function Primed(s: Session, e: Event): (r: Session) {
    var s1 := if s.terminal then s.(terminal := false, stopped := false) else s;
    var s2 := if SourceOf(e).Some? && IsStart(e) then BeginTurn(s1, SourceOf(e).value) else s1;
    s2.(interrupted := None, active := true, sequence := Some(1 + if s2.sequence.Some? then s2.sequence.value else 0))
  }

  lemma PrimedIsClean(s: Session, e: Event)
    requires CleanAims(s) && !Suppressed(SourceOf(e))
    ensures CleanAims(Primed(s, e))
  {
    hide IsStart;
  }

  lemma RenewKeepsClean(s: Session, source: Option<Target>, env: Env)
    requires CleanAims(s)
    ensures CleanAims(RenewForActivity(s, source, env))
  {
    hide SendTyping, RuntimeTarget;
    if source.Some? && !source.value.suppressed {
      AimIsClean(s, source.value, env);
      var aim := RuntimeTarget(s, source.value, env);
      SendKeepsClean(aim.s, aim.target, true, env.first);
    }
  }

  lemma RuntimeKeepsClean(s: Session, e: Event, env: Env)
    requires CleanAims(s)
    ensures CleanAims(HandleRuntime(s, e, env))
  {
    hide StopPresence, RenewForActivity, ForceRenew, RuntimeTarget, IsTerminal, IsActivity, IsStart, BeginTurn;
    var source := SourceOf(e);
    StopKeepsClean(s, source, env);
    if e.kind == "turn.interrupted" {
      if source.Some? && !source.value.suppressed {
        AimIsClean(s, source.value, env);
        var aim := RuntimeTarget(s, source.value, env);
        ForceKeepsClean(aim.s, aim.target, env);
      }
    } else if !Suppressed(source) {
      PrimedIsClean(s, e);
      RenewKeepsClean(Primed(s, e), source, env);
    }
  }

  lemma DeliveryKeepsClean(s: Session, o: Observation, env: Env)
    requires CleanAims(s)
    ensures CleanAims(HandleDelivery(s, o, env))
  {
    hide ForceRenew, RememberOutbound, TurnOf;
    if o.target.Some? && !o.target.value.suppressed {
      var t := if o.anchor.Some? then o.target.value.(anchor := o.anchor, lastOutbound := true) else o.target.value;
      OutboundKeepsClean(s, t);
      var s1 := RememberOutbound(s, t);
      assert TurnOf(s1.(renewal := None)) == TurnOf(s1) by { SameTurn(s1, s1.(renewal := None)); }
      ForceKeepsClean(s1.(renewal := None), t, env);
      SameTurn(s1, Schedule(s1, t));
    }
  }

  lemma SameTurn(a: Session, b: Session)
    requires a.turn == b.turn
    ensures TurnOf(a) == TurnOf(b)
  {
  }

  lemma StepKeepsClean(s: Session, step: Step)
    requires CleanAims(s)
    ensures CleanAims(Next(s, step))
  {
    hide HandleRuntime, HandleDelivery, StopPresence, ForceRenew;
    match step
    case Runtime(e, env) => RuntimeKeepsClean(s, e, env);
    case Observed(o, env) => DeliveryKeepsClean(s, o, env);
    case SilentResponse(t, env) => StopKeepsClean(s, Some(t), env);
    case RenewalTimer(env) =>
      if s.renewal.Some? { ForceKeepsClean(s.(renewal := None), s.renewal.value.target, env); }
    case InterruptedTimer(env) =>
      if s.interrupted.Some? { StopKeepsClean(s.(interrupted := None), s.interrupted.value, env); }
    case _ =>
  }

  lemma {:induction false} RunKeepsClean(s: Session, steps: seq<Step>)
    requires CleanAims(s)
    ensures CleanAims(Run(s, steps))
    decreases |steps|
  {
    hide CleanAims, Next;
    if steps != [] {
      StepKeepsClean(s, steps[0]);
      RunKeepsClean(Next(s, steps[0]), steps[1..]);
    }
  }

  // ---- kinds of events ----

  /** The kinds that end a turn are no activity; every other named kind is activity, save raw provider events
      and, of status reports, those that report no work. */
  lemma KindsOfEvents(e: Event)
    ensures e.kind in ["result", "silent", "turn.complete", "turn.completed", "turn.failed", "session.timeout"] ==>
              IsTerminal(e) && !IsActivity(e)
    ensures e.kind in ["prompt.published", "turn.started", "thread.started"] ==>
              IsStart(e) && IsActivity(e) && !IsTerminal(e)
    ensures e.kind == "status" ==> (IsActivity(e) <==> e.status in ["queued", "thinking", "compacting"])
    ensures e.kind == "provider.raw" ==> !IsActivity(e) && !IsTerminal(e)
    ensures e.kind == "" ==> !IsActivity(e)
    ensures IsTerminal(e) ==> !IsActivity(e)
    ensures e.kind !in ["", "status", "provider.raw"] && !IsTerminal(e) ==> IsActivity(e)
    ensures IsTerminal(e) ==> e.kind in ["", "result", "silent", "turn.complete", "turn.completed", "turn.failed",
                                         "session.timeout"]
  {
  }

  // ---- activity shows typing ----

  /** One typing-on was added, on the surface of `t`. */
  predicate Shows(before: seq<Sent>, after: seq<Sent>, t: Target) {
    |after| == |before| + 1 && before <= after && after[|before|].on && SameSurface(after[|before|].target, t)
  }

  /** An activity event that counts in the session's state. */
  predicate Accepted(s: Session, e: Event) {
    && s.running && e.kind != "turn.interrupted" && IsActivity(e) && !Suppressed(SourceOf(e))
    && (s.terminal ==> IsStart(e))
  }

  /** Typing was shown for the session less than four seconds before. */
  predicate Throttled(s: Session, now: int) { now - LastShown(s) < 4000 }

  function LastShown(s: Session): (t: int) { if s.renewedAt.Some? then s.renewedAt.value else 0 }

  predicate Beats(s: Session, t: Target) { s.beating && s.consumer.Some? && TargetsMatch(s.consumer.value, t) }

  lemma RenewShows(s: Session, t: Target, env: Env)
    requires !s.terminal && !Throttled(s, env.now) && !t.suppressed && !RuntimeTarget(s, t, env).target.suppressed
    ensures var r, aim := RenewForActivity(s, Some(t), env), RuntimeTarget(s, t, env).target;
      if Beats(s, aim) || env.first.Delivered? then Shows(s.log, r.log, t) && r.renewedAt == Some(env.now)
      else if env.first.Failed? then Shows(s.log, r.log, t) && r.renewedAt == s.renewedAt
      else r.renewedAt == Some(env.now) && if aim.native then Shows(s.log, r.log, t) else r.log == s.log
  {
    hide RuntimeTarget, RememberNative;
    AimKeeps(s, t, env);
    AimStaysOnSurface(s, t, env);
    var aim := RuntimeTarget(s, t, env);
    RememberKeeps(aim.s.(log := aim.s.log + [Sent(aim.target, true)]), aim.target, true);
  }

  lemma PrimedMeans(s: Session, e: Event)
    ensures var p := Primed(s, e);
      && p.active && !p.terminal && p.interrupted.None? && p.running == s.running && p.log == s.log
      && p.renewedAt == s.renewedAt && p.consumer == s.consumer && p.beating == s.beating && p.renewal == s.renewal
      && p.sequence == Some(1 + if s.sequence.Some? then s.sequence.value else 0)
  {
    hide IsStart;
  }

  /** What accepted activity sends and records: typing exactly once, on the surface it came from, unless typing was
      shown less than four seconds before; then nothing. The time is recorded unless the send failed, and a beating
      consumer with the same target does the send. A skipped send to a channel without presence shows nothing. */
  ghost predicate ShowsOnce(s: Session, e: Event, env: Env, r: Session) {
    && (Throttled(s, env.now) ==> r.log == s.log && r.renewedAt == s.renewedAt)
    && (!Throttled(s, env.now) && SourceOf(e).Some? ==>
          var t := SourceOf(e).value;
          var aim := RuntimeTarget(Primed(s, e), t, env).target;
          if Beats(s, aim) || env.first.Delivered? then Shows(s.log, r.log, t) && r.renewedAt == Some(env.now)
          else if env.first.Failed? then Shows(s.log, r.log, t) && r.renewedAt == s.renewedAt
          else r.renewedAt == Some(env.now) && if aim.native then Shows(s.log, r.log, t) else r.log == s.log)
    && (!Throttled(s, env.now) && SourceOf(e).None? ==>
          if s.beating && s.consumer.Some?
          then r.log == s.log + [Sent(s.consumer.value, true)] && r.renewedAt == Some(env.now)
          else r.log == s.log && r.renewedAt == s.renewedAt)
  }

  lemma ActivityShows(s: Session, e: Event, env: Env)
    requires Inv(s) && CleanAims(s) && Accepted(s, e)
    ensures var r := Next(s, Runtime(e, env));
      && r.running && r.active && !r.terminal && ShowsOnce(s, e, env, r)
      && r.sequence == Some(1 + if s.sequence.Some? then s.sequence.value else 0)
  {
    hide RuntimeTarget, IsActivity, IsTerminal, IsStart, SendTyping, Primed, Shows, CleanAims;
    var source := SourceOf(e);
    ActivityIsHandled(s, e, env);
    PrimedMeans(s, e);
    PrimedIsClean(s, e);
    RenewKeeps(Primed(s, e), source, env);
    if source.Some? && !Throttled(s, env.now) {
      AimIsClean(Primed(s, e), source.value, env);
      hide RenewForActivity;
      RenewShows(Primed(s, e), source.value, env);
    }
  }

  /** So it is in every run: no target the gateway aims at is ever suppressed. */
  lemma ActivityShowsTyping(before: seq<Step>, e: Event, env: Env)
    requires Accepted(Run(IDLE, before), e)
    ensures var s := Run(IDLE, before);
      var r := Next(s, Runtime(e, env));
      && r.active && !r.terminal && ShowsOnce(s, e, env, r)
      && r.sequence == Some(1 + if s.sequence.Some? then s.sequence.value else 0)
  {
    hide Next, ShowsOnce, Inv, CleanAims, Accepted;
    IdleIsClean();
    IdleHasInv();
    RunKeepsInv(IDLE, before);
    RunKeepsClean(IDLE, before);
    ActivityShows(Run(IDLE, before), e, env);
  }

  lemma ActivityIsHandled(s: Session, e: Event, env: Env)
    requires Accepted(s, e)
    ensures Next(s, Runtime(e, env)) == RenewForActivity(Primed(s, e), SourceOf(e), env)
  {
    hide IsActivity, IsTerminal, IsStart, RenewForActivity, BeginTurn;
    if IsTerminal(e) { TerminalIsNoActivity(e); }
  }

  lemma IdleIsClean()
    ensures CleanAims(IDLE)
  {
  }

  // ---- a stretch of activity ----

  /** Unsuppressed activity from a known source whose send is delivered. */
  predicate Works(step: Step) {
    step.Runtime? && step.e.kind != "turn.interrupted" && IsActivity(step.e) && SourceOf(step.e).Some?
    && !Suppressed(SourceOf(step.e)) && step.env.first.Delivered?
  }

  function TimeOf(step: Step): (t: int) { if step.Runtime? then step.env.now else 0 }

  function TimesOf(steps: seq<Step>): (times: seq<int>)
    ensures |times| == |steps| && forall i | 0 <= i < |steps| :: times[i] == TimeOf(steps[i])
  {
    seq(|steps|, i requires 0 <= i < |steps| => TimeOf(steps[i]))
  }

  /** The times at which typing is shown: each that is at least four seconds after the one before. */
  function ShownTimes(last: int, times: seq<int>): (shown: seq<int>)
    decreases |times|
  {
    if times == [] then []
    else if times[0] - last < 4000 then ShownTimes(last, times[1..])
    else [times[0]] + ShownTimes(times[0], times[1..])
  }

  predicate Spaced(times: seq<int>) {
    forall i | 0 <= i < |times| - 1 :: times[i + 1] - times[i] >= 4000
  }

  predicate JustAfter(shown: seq<int>, t: int) {
    exists u | u in shown :: t - u < 4000
  }

  /** Shown times lie at least four seconds apart, and every time lies less than four seconds after a shown one or after
      the last before all. */
  lemma {:induction false} ShownTimesCover(last: int, times: seq<int>)
    ensures Spaced([last] + ShownTimes(last, times))
    ensures forall t | t in times :: JustAfter([last] + ShownTimes(last, times), t)
    decreases |times|
  {
    if times != [] {
      var next := if times[0] - last < 4000 then last else times[0];
      ShownTimesCover(next, times[1..]);
      var shown, rest := [last] + ShownTimes(last, times), [next] + ShownTimes(next, times[1..]);
      if times[0] - last < 4000 {
        assert shown == rest;
      } else {
        assert shown == [last] + rest;
      }
      assert next in rest && (forall u | u in rest :: u in shown);
      forall t | t in times ensures JustAfter(shown, t) {
        if t == times[0] {
          assert next in shown;
        } else {
          assert times == [times[0]] + times[1..];
          assert JustAfter(rest, t);
        }
      }
    }
  }

  predicate Open(s: Session, steps: seq<Step>) {
    s.running && (s.terminal && steps != [] ==> steps[0].Runtime? && IsStart(steps[0].e))
  }

  /** `after` is `before` with typing-ons added, `n` of them. */
  ghost predicate Added(before: seq<Sent>, after: seq<Sent>, n: nat) {
    |after| == |before| + n && before <= after && forall i | |before| <= i < |after| :: after[i].on
  }

  lemma WorkStep(s: Session, step: Step)
    requires Inv(s) && CleanAims(s) && Works(step) && Open(s, [step])
    ensures var s', shown := Next(s, step), TimeOf(step) - LastShown(s) >= 4000;
      && Inv(s') && CleanAims(s') && s'.running && !s'.terminal
      && Added(s.log, s'.log, if shown then 1 else 0)
      && LastShown(s') == if shown then TimeOf(step) else LastShown(s)
  {
    hide Next, IsActivity, IsStart, Inv, CleanAims, RuntimeTarget, Primed, SameSurface;
    ActivityShows(s, step.e, step.env);
    StepKeepsInv(s, step);
    StepKeepsClean(s, step);
  }

  /** While a session works, typing is shown exactly at the shown times: once for each, and never in between. */
  lemma {:induction false} WorkShowsTyping(s: Session, steps: seq<Step>)
    requires Inv(s) && CleanAims(s) && Open(s, steps) && forall i | 0 <= i < |steps| :: Works(steps[i])
    ensures Added(s.log, Run(s, steps).log, |ShownTimes(LastShown(s), TimesOf(steps))|)
    decreases |steps|
  {
    hide Next, Inv, CleanAims, LastShown, Works, TimeOf, Run;
    if steps == [] {
      RunNothing(s);
    } else {
      var s' := Next(s, steps[0]);
      WorkStep(s, steps[0]);
      WorkShowsTyping(s', steps[1..]);
      RunUnfolds(s, steps);
      assert TimesOf(steps)[1..] == TimesOf(steps[1..]);
    }
  }

  lemma RunNothing(s: Session)
    ensures Run(s, []) == s
  {
  }

  lemma RunUnfolds(s: Session, steps: seq<Step>)
    requires steps != []
    ensures Run(s, steps) == Run(Next(s, steps[0]), steps[1..])
  {
  }

  // ---- the other handlers ----

  /** A send is logged once, unless it would show a suppressed target typing or was skipped on a channel without
      presence; it throws exactly when a logged send failed. */
  lemma SendMeans(s: Session, t: Target, on: bool, d: Delivery)
    ensures var r := SendTyping(s, t, on, d);
      var silent := (on && t.suppressed) || (d.Skipped? && !t.native);
      && r.s.log == (if silent then s.log else s.log + [Sent(t, on)]) && (r.ok <==> silent || !d.Failed?)
      && SameMode(s, r.s) && r.s.renewedAt == s.renewedAt
      && (silent || !r.ok || !t.native ==> r.s == s.(log := r.s.log))
      && (r.ok && !silent && t.native ==> if on then ShownAt(s, r.s, t) else EndedAt(s, r.s, t))
  {
    hide RememberNative, EndedAt;
    var logged := s.(log := s.log + [Sent(t, on)]);
    RememberKeeps(logged, t, on);
    if t.native { RememberMeans(logged, t, on); }
    assert TurnOf(logged) == TurnOf(s);
    SameTargetsEnded(s, logged, SendTyping(s, t, on, d).s, t);
  }

  /** Where presence is now shown: a turn that came from this surface shows it there, and an outbound anchor is kept. */
  predicate ShownAt(s: Session, r: Session, t: Target) {
    && r.native == Some(t)
    && (TurnOf(s).inbound.None? || SameSurface(TurnOf(s).inbound.value, t) ==> TurnOf(r).active == Some(t))
    && r.anchor == if t.lastOutbound && t.anchor.Some? then Some(t) else s.anchor
  }

  lemma RememberMeans(s: Session, t: Target, on: bool)
    requires t.native
    ensures var r := RememberNative(s, t, on);
      r.renewedAt == s.renewedAt && if on then ShownAt(s, r, t) else EndedAt(s, r, t)
  {
    hide RememberNative;
    if on { ShownMeans(s, t); } else { EndedMeans(s, t); }
  }

  lemma ShownMeans(s: Session, t: Target)
    requires t.native
    ensures var r := RememberNative(s, t, true); r.renewedAt == s.renewedAt && ShownAt(s, r, t)
  {
    hide SameSurface;
    TurnChoice(s.(native := Some(t)), t);
    assert TurnOf(s.(native := Some(t))) == TurnOf(s);
  }

  lemma EndedMeans(s: Session, t: Target)
    ensures var r := RememberNative(s, t, false); r.renewedAt == s.renewedAt && EndedAt(s, r, t)
  {
    hide SameSurface, DropNative, DropTurn, TurnOf, RememberAnchor, ActivateTurn;
    DropNativeMeans(s, t);
    DropTurnMeans(DropNative(s, t), t);
  }

  /** No target is kept on the surface of `t`, and those on other surfaces are. */
  predicate EndedAt(s: Session, r: Session, t: Target) {
    && !AimedAt(r, t)
    && (s.native.Some? && !SameSurface(s.native.value, t) ==> r.native == s.native)
    && (TurnOf(s).active.Some? && !SameSurface(TurnOf(s).active.value, t) ==> TurnOf(r).active == TurnOf(s).active)
  }

  lemma SameTargetsEnded(s: Session, logged: Session, r: Session, t: Target)
    requires logged.native == s.native && logged.turn == s.turn
    ensures EndedAt(logged, r, t) <==> EndedAt(s, r, t)
  {
  }

  /** The session still keeps a target on the surface of `t`. */
  predicate AimedAt(s: Session, t: Target) {
    || (s.native.Some? && SameSurface(s.native.value, t))
    || (TurnOf(s).active.Some? && SameSurface(TurnOf(s).active.value, t))
  }

  /** Typing forced on: a matching beating consumer sends it, else the gateway does, and the time is recorded unless
      that failed. */
  lemma ForceMeans(s: Session, t: Target, env: Env)
    requires !s.terminal && !t.suppressed && env.first.Delivered?
    ensures var r := ForceRenew(s, t, env);
      && r.ok && Shows(s.log, r.s.log, t) && r.s.renewedAt == Some(env.now) && SameMode(s, r.s)
  {
    hide RememberNative;
    RememberKeeps(s.(log := s.log + [Sent(t, true)]), t, true);
  }

  /** An interruption shows typing once more and puts the stop off; in a terminal session it does nothing. */
  lemma InterruptionMeans(s: Session, e: Event, env: Env)
    requires e.kind == "turn.interrupted" && !Suppressed(SourceOf(e)) && env.first.Delivered? && CleanAims(s)
    ensures var r, source := HandleRuntime(s, e, env), SourceOf(e);
      if s.terminal then r == s
      else
        && r.interrupted == Some(source) && r.active == s.active && !r.terminal && r.renewal == s.renewal
        && (source.Some? ==> Shows(s.log, r.log, source.value) && r.renewedAt == Some(env.now))
        && (source.None? && s.beating && s.consumer.Some? ==> r.log == s.log + [Sent(s.consumer.value, true)])
        && (source.None? && !s.beating ==> r.log == s.log)
  {
    hide RuntimeTarget, ForceRenew, TargetsMatch;
    if SourceOf(e).Some? && !s.terminal {
      var t := SourceOf(e).value;
      AimKeeps(s, t, env);
      AimIsClean(s, t, env);
      AimStaysOnSurface(s, t, env);
      var aim := RuntimeTarget(s, t, env);
      ForceMeans(aim.s, aim.target, env);
    }
  }

  /** A suppressed activity event forgets the session's activity and sends nothing. */
  lemma SuppressedMeans(s: Session, e: Event, env: Env)
    requires e.kind != "turn.interrupted" && IsActivity(e) && Suppressed(SourceOf(e))
    ensures HandleRuntime(s, e, env) == s.(active := false, renewedAt := None, sequence := None)
  {
    hide IsTerminal, IsActivity;
    if IsTerminal(e) { TerminalIsNoActivity(e); }
  }

  /** An observed delivery the gateway attends to. */
  predicate Attended(o: Observation) {
    o.delivered && o.target.Some? && o.target.value.native && !o.target.value.suppressed
  }

  function Anchored(o: Observation): (t: Target)
    requires o.target.Some?
  {
    if o.anchor.Some? then o.target.value.(anchor := o.anchor, lastOutbound := true) else o.target.value
  }

  /** A final answer ends the pending renewal and sends nothing; a commentary ends it too and in a live session shows
      typing at the delivered message at once; any other delivery in a live session puts a renewal after the activity
      so far. An unattended delivery does nothing. */
  lemma DeliveryMeans(s: Session, o: Observation, env: Env)
    requires Inv(s) && env.first.Delivered?
    ensures var r := HandleDelivery(s, o, env);
      if !Attended(o) then r == s
      else
        var live := s.active && !s.terminal;
        && r.active == s.active && r.terminal == s.terminal && r.sequence == s.sequence
        && (o.phase.FinalAnswer? ==> r.renewal.None? && r.log == s.log)
        && (o.phase.Commentary? ==> if live then r.renewal.None? && Shows(s.log, r.log, Anchored(o))
                                                 && r.renewedAt == Some(env.now)
                                    else r.renewal == s.renewal && r.log == s.log)
        && (o.phase.OtherPhase? ==> r.log == s.log)
        && (o.phase.OtherPhase? ==>
              r.renewal == if live then Some(Renewal(Anchored(o), s.sequence.value)) else s.renewal)
  {
    hide RememberOutbound, ForceRenew;
    if Attended(o) {
      var s1 := RememberOutbound(s, Anchored(o));
      OutboundKeeps(s, Anchored(o));
      if o.phase.Commentary? && s1.active && !s1.terminal {
        ForceMeans(s1.(renewal := None), Anchored(o), env);
      }
    }
  }

  /** After a native delivery in a working turn, presence follows it: activity from any source on its surface aims at
      the delivered message. */
  lemma AimFollowsDelivery(s: Session, o: Observation, env: Env, t: Target, env': Env)
    requires Attended(o) && s.active && !TurnOf(s).terminal && !o.phase.Commentary?
    requires t.native && SameSurface(Anchored(o), t)
    ensures RuntimeTarget(HandleDelivery(s, o, env), t, env').target == Anchored(o)
  {
  }

  /** The anchor of a delivered message is kept, for the session and for its turn. */
  lemma DeliveryIsRemembered(s: Session, o: Observation, env: Env)
    requires Attended(o) && o.anchor.Some?
    ensures HandleDelivery(s, o, env).anchor == Some(Anchored(o))
    ensures TurnOf(HandleDelivery(s, o, env)).outbound == Some(Anchored(o))
  {
    hide SameSurface, TargetsMatch;
    var t := Anchored(o);
    var s1 := RememberOutbound(s, t);
    assert s1.anchor == Some(t) && TurnOf(s1).outbound == Some(t);
    hide RememberOutbound;
    if o.phase.Commentary? {
      hide SendTyping;
      SendKeepsAnchor(s1.(renewal := None), t, env.first);
    }
  }

  lemma SendKeepsAnchor(s: Session, t: Target, d: Delivery)
    requires s.anchor == Some(t)
    ensures SendTyping(s, t, true, d).s.anchor == Some(t)
    ensures TurnOf(SendTyping(s, t, true, d).s).outbound == TurnOf(s).outbound
  {
    var shown := s.(log := s.log + [Sent(t, true)], native := Some(t));
    TurnChoice(shown, t);
    assert TurnOf(ActivateTurn(shown, t)).outbound == TurnOf(s).outbound;
    hide ActivateTurn;
  }

  /** The anchor on a surface where no target is kept: the source's own outbound one, the one in the delivery trace of a
      source message, or the one kept for the session. */
  function FoundAnchor(s: Session, t: Target, env: Env): (anchor: Option<nat>) {
    if t.lastOutbound && t.anchor.Some? then t.anchor
    else if t.sourceMessage then if t in env.trace then Some(env.trace[t]) else t.anchor
    else if s.anchor.Some? && SameSurface(s.anchor.value, t) then s.anchor.value.anchor
    else t.anchor
  }

  lemma AimFindsAnchor(s: Session, t: Target, env: Env)
    requires t.native && !AimedAt(s, t)
    ensures RuntimeTarget(s, t, env).target.anchor == FoundAnchor(s, t, env)
    ensures t.lastOutbound && t.anchor.Some? ==> RuntimeTarget(s, t, env).target == t
  {
    hide SameSurface, RememberOutbound;
  }

  /** Where the turn shows no target on a surface, presence aims at the one shown there last. */
  lemma AimFollowsShown(s: Session, t: Target, env: Env, shown: Target)
    requires t.native && s.native == Some(shown) && SameSurface(shown, t)
    requires TurnOf(s).active.Some? ==> !SameSurface(TurnOf(s).active.value, t)
    ensures RuntimeTarget(s, t, env).target == shown
  {
  }

  /** When the grace time after an interruption is over, a running gateway stops the session. */
  lemma InterruptionEnds(s: Session, env: Env)
    requires Inv(s) && s.interrupted.Some?
    ensures var r := FireInterrupted(s, env);
      && r.interrupted.None? && Quiet(s, r)
      && (s.running ==> r.terminal && !r.active && r.renewal.None?)
      && (s.running && s.interrupted.value.Some? && !env.first.Failed? ==> r.stopped && r.consumer.None?)
      && (!s.running ==> r == s.(interrupted := None))
  {
    hide StopPresence;
    StopEnds(s.(interrupted := None), s.interrupted.value, env);
  }

  /** After a native start event presence aims at its source, whatever the turn before it showed. */
  lemma AimFollowsStart(s: Session, e: Event, t: Target, env: Env)
    requires SourceOf(e) == Some(t) && t.native && IsStart(e)
    ensures RuntimeTarget(Primed(s, e), t, env).target == t
    ensures TurnOf(Primed(s, e)) == Turn(Some(t), None, Some(t), false)
  {
    hide IsStart;
  }

  /** A stop switches typing off for a beating consumer at its own target. */
  lemma StopEndsHeartbeat(s: Session, t: Option<Target>, env: Env, held: Target)
    requires s.consumer == Some(held) && s.beating && !env.first.Failed?
    ensures var r := StopPresence(s, t, env);
      r.consumer.None? && !r.beating && StopsAt(s.log, r.log, held)
  {
    hide RuntimeTarget, SendTyping;
    var s0 := s.(active := false, terminal := true, renewedAt := None, sequence := None, renewal := None,
                  interrupted := None);
    var turnTarget := if s.turn.Some? then s.turn.value.active else None;
    if t.Some? { AimKeeps(s0, t.value, env); }
    var s1 := if turnTarget.None? && t.Some? then RuntimeTarget(s0, t.value, env).s else s0;
    var preferred := if turnTarget.Some? then turnTarget
                     else if t.Some? then Some(RuntimeTarget(s0, t.value, env).target)
                     else None;
    var s2 := if s.turn.Some? then s1.(turn := Some(TurnOf(s1).(active := None, terminal := true))) else s1;
    StopLocalEndsHeartbeat(s2, held, preferred, env);
  }

  lemma StopLocalEndsHeartbeat(s: Session, held: Target, preferred: Option<Target>, env: Env)
    requires s.consumer == Some(held) && s.beating && !env.first.Failed?
    ensures var r := StopLocal(s, held, preferred, env);
      r.consumer.None? && !r.beating && StopsAt(s.log, r.log, held)
  {
    hide RuntimeTarget, SendTyping;
    AimKeeps(s, held, env);
    var aim := if held.native then RuntimeTarget(s, held, env) else Aimed(s, held);
    SendKeeps(aim.s, aim.target, false, env.first);
    var sent := SendTyping(aim.s, aim.target, false, env.first).s;
    var cleared := ClearConsumer(sent).(stopped := true);
    assert cleared.log == sent.log + [Sent(held, false)];
    if preferred.Some? { SendKeeps(cleared, preferred.value, false, env.second); }
    var r := StopLocal(s, held, preferred, env);
    assert r.log[|sent.log|] == Sent(held, false);
  }
}
