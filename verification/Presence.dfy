/**
 Typing presence in the gateway. Every handler touches the state of one session only, so the specification is a state
 machine over one session; `PresenceGateway` keeps the sets, maps and timers of all sessions and refines it.
 Handlers are atomic. What a send does is chosen by the environment: delivered, skipped or failed.
 */
module Presence {
  import opened Tables

  /** `surface` is the presence surface key; together with the status anchor it is the target key. */
  datatype Target = Target(surface: nat, native: bool, anchor: Option<nat>, lastOutbound: bool,
                           sourceMessage: bool, suppressed: bool)

  const UNKNOWN_TARGET := Target(0, false, None, false, false, false)

  predicate SameSurface(a: Target, b: Target) { a.surface == b.surface }
  predicate TargetsMatch(a: Target, b: Target) { a.surface == b.surface && a.anchor == b.anchor }

  datatype Turn = Turn(inbound: Option<Target>, outbound: Option<Target>, active: Option<Target>, terminal: bool)
  const NEW_TURN := Turn(None, None, None, false)

  /** A pending post-delivery timer and the activity number it was scheduled after. */
  datatype Renewal = Renewal(target: Target, after: nat)
  datatype Sent = Sent(target: Target, on: bool)

  /** `running` is the gateway's flag; the rest is what the gateway and the consumer keep for one session. */
  datatype Session = Session(
    running: bool, active: bool, terminal: bool, stopped: bool, sequence: Option<nat>, renewedAt: Option<int>,
    renewal: Option<Renewal>, interrupted: Option<Option<Target>>,
    turn: Option<Turn>, native: Option<Target>, anchor: Option<Target>,
    consumer: Option<Target>, beating: bool, log: seq<Sent>)
  const IDLE := Session(true, false, false, false, None, None, None, None, None, None, None, None, false, [])

  datatype Delivery = Delivered | Skipped | Failed
  /** The clock, the outcome of the first and second send, and the anchors found in the delivery trace. */
  datatype Env = Env(now: int, first: Delivery, second: Delivery, trace: map<Target, nat>)

  const RENEW_THROTTLE_MS := 4000

  // ---- native turns ----

  function TurnOf(s: Session): (t: Turn) { if s.turn.Some? then s.turn.value else NEW_TURN }

  function BeginTurn(s: Session, t: Target): (r: Session) {
    if !t.native then s
    else
      s.(turn := Some(TurnOf(s).(inbound := Some(t), outbound := None, active := Some(t), terminal := false)),
         native := Some(t))
  }

  function ActivateTurn(s: Session, t: Target): (r: Session) {
    if !t.native then s
    else
      var u := TurnOf(s);
      s.(turn := Some(if u.inbound.None? || SameSurface(u.inbound.value, t) then u.(active := Some(t)) else u))
  }

  function RememberAnchor(s: Session, t: Target): (r: Session) {
    if t.lastOutbound && t.anchor.Some? then s.(anchor := Some(t)) else s
  }

  function RememberOutbound(s: Session, t: Target): (r: Session) {
    if !t.native then s
    else
      var s1, u := RememberAnchor(s, t), TurnOf(s).(outbound := Some(t));
      if !u.terminal && s.active then s1.(turn := Some(u.(active := Some(t))), native := Some(t))
      else s1.(turn := Some(u))
  }

  function DropNative(s: Session, t: Target): (r: Session) {
    if s.native.None? || SameSurface(s.native.value, t) then s.(native := None) else s
  }

  function DropTurn(s: Session, t: Target): (r: Session) {
    if s.turn.Some? && s.turn.value.active.Some? && SameSurface(s.turn.value.active.value, t)
    then s.(turn := Some(s.turn.value.(active := None)))
    else s
  }

  function RememberNative(s: Session, t: Target, on: bool): (r: Session) {
    if on then RememberAnchor(ActivateTurn(s.(native := Some(t)), t), t) else DropTurn(DropNative(s, t), t)
  }

  datatype Aimed = Aimed(s: Session, target: Target)

  /** `runtimePresenceTarget` for a present source; looking up the trace may record an outbound anchor. */
  function RuntimeTarget(s: Session, t: Target, env: Env): (r: Aimed) {
    if !t.native then Aimed(s, t)
    else if s.turn.Some? && s.turn.value.active.Some? && SameSurface(s.turn.value.active.value, t)
    then Aimed(s, s.turn.value.active.value)
    else if s.native.Some? && SameSurface(s.native.value, t) then Aimed(s, s.native.value)
    else if t.lastOutbound && t.anchor.Some? then Aimed(s, t)
    else if t.sourceMessage then
      if t !in env.trace then Aimed(s, t)
      else
        var restored := t.(anchor := Some(env.trace[t]), lastOutbound := true);
        Aimed(RememberOutbound(s, restored), restored)
    else if s.anchor.Some? && SameSurface(s.anchor.value, t)
    then Aimed(s, t.(lastOutbound := s.anchor.value.lastOutbound, anchor := s.anchor.value.anchor))
    else Aimed(s, t)
  }

  // ---- sending ----

  datatype Ran = Ran(s: Session, ok: bool)

  /** `ok` is false when the send throws, which ends the calling handler. */
  function SendTyping(s: Session, t: Target, on: bool, d: Delivery): (r: Ran) {
    if on && t.suppressed then Ran(s, true)
    else if d.Skipped? && !t.native then Ran(s, true)
    else
      var s1 := s.(log := s.log + [Sent(t, on)]);
      if d.Failed? then Ran(s1, false) else Ran(if t.native then RememberNative(s1, t, on) else s1, true)
  }

  /** `renewActiveTarget`: the consumer's heartbeat sends typing-on if it is running. */
  function RenewConsumer(s: Session): (r: Ran) {
    if !s.beating then Ran(s, false)
    else
      var t := if s.consumer.Some? then s.consumer.value else UNKNOWN_TARGET;
      Ran(s.(log := s.log + [Sent(t, true)]), true)
  }

  function RenewIfCurrent(s: Session, t: Target): (r: Ran) {
    if s.consumer.None? || !TargetsMatch(s.consumer.value, t) then Ran(s, false) else RenewConsumer(s)
  }

  function ClearConsumer(s: Session): (r: Session) {
    var s1 := s.(consumer := None, beating := false);
    if s.beating && s.consumer.Some? then s1.(log := s.log + [Sent(s.consumer.value, false)]) else s1
  }

  function ForceRenew(s: Session, t: Target, env: Env): (r: Ran) {
    if s.terminal then Ran(s, true)
    else
      var renewed := RenewIfCurrent(s, t);
      var sent := if renewed.ok then renewed else SendTyping(s, t, true, env.first);
      if sent.ok then Ran(sent.s.(renewedAt := Some(env.now)), true) else sent
  }

  // ---- stopping ----

  /** The branch for a target held by the consumer. */
  function StopLocal(s: Session, local: Target, preferred: Option<Target>, env: Env): (r: Session) {
    var aim := if local.native then RuntimeTarget(s, local, env) else Aimed(s, local);
    var sent := SendTyping(aim.s, aim.target, false, env.first);
    if !sent.ok then sent.s
    else
      var cleared := ClearConsumer(sent.s).(stopped := true);
      if preferred.Some? && !TargetsMatch(aim.target, preferred.value)
      then SendTyping(cleared, preferred.value, false, env.second).s
      else cleared
  }

  function StopPreferred(s: Session, preferred: Target, env: Env): (r: Session) {
    var sent := SendTyping(s, preferred, false, env.first);
    if sent.ok then sent.s.(stopped := true) else sent.s
  }

  function StopSends(s: Session, preferred: Option<Target>, env: Env): (r: Session) {
    if s.consumer.Some? then StopLocal(s, s.consumer.value, preferred, env)
    else if s.stopped || preferred.None? then s
    else StopPreferred(s, preferred.value, env)
  }

  /** `stopPresenceForSession`. */
  function StopPresence(s: Session, t: Option<Target>, env: Env): (r: Session) {
    var s0 := s.(active := false, terminal := true, renewedAt := None, sequence := None, renewal := None,
                  interrupted := None);
    var turnTarget := if s.turn.Some? then s.turn.value.active else None;
    var s1 := if turnTarget.None? && t.Some? then RuntimeTarget(s0, t.value, env).s else s0;
    var preferred := if turnTarget.Some? then turnTarget
                     else if t.Some? then Some(RuntimeTarget(s0, t.value, env).target)
                     else None;
    var s2 := if s.turn.Some? then s1.(turn := Some(TurnOf(s1).(active := None, terminal := true))) else s1;
    StopSends(s2, preferred, env)
  }

  // ---- timers ----

  function Schedule(s: Session, t: Target): (r: Session) {
    if t.suppressed || !s.active || s.terminal then s
    else s.(renewal := Some(Renewal(t, if s.sequence.Some? then s.sequence.value else 0)))
  }

  predicate RenewalDue(s: Session) {
    s.renewal.Some? && s.running && s.active && !s.terminal
    && (if s.sequence.Some? then s.sequence.value else 0) > s.renewal.value.after
  }

  function FireRenewal(s: Session, env: Env): (r: Session) {
    if s.renewal.None? then s
    else
      var s1 := s.(renewal := None);
      if RenewalDue(s) then ForceRenew(s1, s.renewal.value.target, env).s else s1
  }

  function FireInterrupted(s: Session, env: Env): (r: Session) {
    if s.interrupted.None? then s
    else if !s.running then s.(interrupted := None)
    else StopPresence(s.(interrupted := None), s.interrupted.value, env)
  }

  // ---- runtime events ----

  /** Absent strings are empty, as the classifiers treat them. */
  datatype Event = Event(kind: string, status: string, nativeEvent: string, source: Option<Target>,
                         replyTarget: Option<Target>)

  predicate IsTerminal(e: Event) {
    || e.kind in ["result", "silent", "turn.complete", "turn.completed", "turn.failed", "session.timeout"]
    || (e.kind == ""
        && e.nativeEvent in ["turn.complete", "turn.completed", "turn.failed", "turn/completed", "turn/failed"])
  }

  predicate IsActivity(e: Event) {
    if e.kind == "" || IsTerminal(e) || e.kind == "provider.raw" then false
    else if e.kind == "status" then e.status in ["queued", "thinking", "compacting"]
    else true
  }

  predicate IsStart(e: Event) {
    || e.kind in ["prompt.published", "turn.started", "thread.started"]
    || e.nativeEvent in ["turn.started", "thread.started"]
  }

  function SourceOf(e: Event): (t: Option<Target>) { if e.source.Some? then e.source else e.replyTarget }
  predicate Suppressed(t: Option<Target>) { t.Some? && t.value.suppressed }

  function RenewForActivity(s: Session, source: Option<Target>, env: Env): (r: Session) {
    if Suppressed(source) || s.terminal then s
    else if env.now - (if s.renewedAt.Some? then s.renewedAt.value else 0) < RENEW_THROTTLE_MS then s
    else if source.None? then
      var renewed := RenewConsumer(s);
      if renewed.ok then renewed.s.(renewedAt := Some(env.now)) else renewed.s
    else
      var aim := RuntimeTarget(s, source.value, env);
      var renewed := RenewIfCurrent(aim.s, aim.target);
      var sent := if renewed.ok then renewed else SendTyping(aim.s, aim.target, true, env.first);
      if sent.ok then sent.s.(renewedAt := Some(env.now)) else sent.s
  }

  function HandleInterrupted(s: Session, source: Option<Target>, env: Env): (r: Session) {
    if s.terminal then s
    else if Suppressed(source) then StopPresence(s, source, env)
    else if source.None? then RenewConsumer(s).s.(interrupted := Some(None))
    else
      var aim := RuntimeTarget(s, source.value, env);
      var sent := ForceRenew(aim.s, aim.target, env);
      if sent.ok then sent.s.(interrupted := Some(source)) else sent.s
  }

  /** An activity event that is neither suppressed nor refused because the session is terminal. */
  function HandleActivity(s: Session, e: Event, env: Env): (r: Session) {
    var source := SourceOf(e);
    var s1 := if s.terminal then s.(terminal := false, stopped := false) else s;
    var s2 := if source.Some? && IsStart(e) then BeginTurn(s1, source.value) else s1;
    var s3 := s2.(interrupted := None, active := true,
                  sequence := Some(1 + if s2.sequence.Some? then s2.sequence.value else 0));
    RenewForActivity(s3, source, env)
  }

  function HandleRuntime(s: Session, e: Event, env: Env): (r: Session) {
    var source := SourceOf(e);
    if e.kind == "turn.interrupted" then HandleInterrupted(s, source, env)
    else if IsTerminal(e) then StopPresence(s, source, env)
    else if !IsActivity(e) then s
    else if Suppressed(source) then s.(active := false, renewedAt := None, sequence := None)
    else if s.terminal && !IsStart(e) then s
    else HandleActivity(s, e, env)
  }

  // ---- deliveries ----

  datatype Phase = Commentary | FinalAnswer | OtherPhase
  datatype Observation = Observation(delivered: bool, target: Option<Target>, anchor: Option<nat>, phase: Phase)

  function HandleDelivery(s: Session, o: Observation, env: Env): (r: Session) {
    if !o.delivered || o.target.None? || !o.target.value.native || o.target.value.suppressed then s
    else
      var t := if o.anchor.Some? then o.target.value.(anchor := o.anchor, lastOutbound := true) else o.target.value;
      var s1 := RememberOutbound(s, t);
      match o.phase
      case Commentary => if !s1.active || s1.terminal then s1 else ForceRenew(s1.(renewal := None), t, env).s
      case FinalAnswer => s1.(renewal := None)
      case OtherPhase => Schedule(s1, t)
  }

  // ---- runs ----

  datatype Step = Runtime(e: Event, env: Env)
                | Observed(o: Observation, env: Env)
                | SilentResponse(t: Target, env: Env)
                | ResponseSent(t: Target)
                | RenewalTimer(env: Env)
                | InterruptedTimer(env: Env)
                | ConsumerActivates(t: Target)
                | ConsumerClears
                | HeartbeatEnds
                | Shutdown

  /** The gateway's subscriptions hand over no event once it has stopped. */
  function Next(s: Session, step: Step): (r: Session) {
    match step
    case RenewalTimer(env) => FireRenewal(s, env)
    case InterruptedTimer(env) => FireInterrupted(s, env)
    case ConsumerActivates(t) => s.(consumer := Some(t), beating := true)
    case ConsumerClears => s.(consumer := None, beating := false)
    case HeartbeatEnds => s.(beating := false)
    case Shutdown => IDLE.(running := false, consumer := s.consumer, beating := s.beating, log := s.log)
    case _ => if s.running then Receive(s, step) else s
  }

  predicate IsEvent(step: Step) { step.Runtime? || step.Observed? || step.SilentResponse? || step.ResponseSent? }

  function Receive(s: Session, step: Step): (r: Session)
    requires IsEvent(step)
  {
    match step
    case Runtime(e, env) => HandleRuntime(s, e, env)
    case Observed(o, env) => HandleDelivery(s, o, env)
    case SilentResponse(t, env) => StopPresence(s, Some(t), env)
    case ResponseSent(t) => Schedule(s, t)
  }

  function Run(s: Session, steps: seq<Step>): (r: Session)
    decreases |steps|
  {
    if steps == [] then s else Run(Next(s, steps[0]), steps[1..])
  }

  // ---- invariant ----

  predicate Inv(s: Session) {
    && !(s.active && s.terminal)
    && (s.stopped ==> s.terminal)
    && (s.terminal ==> s.renewal.None? && s.interrupted.None? && TurnOf(s).active.None?)
    && (s.active <==> s.sequence.Some?) && (s.active ==> s.sequence.value > 0)
    && (s.renewal.Some? ==> s.renewal.value.after > 0)
    && (s.beating ==> s.consumer.Some?)
    && (!s.running ==> !s.active && !s.terminal && s.renewal.None? && s.interrupted.None?)
  }

  /** What aiming and sending leave alone. */
  predicate SameMode(a: Session, b: Session) {
    && a.running == b.running && a.active == b.active && a.terminal == b.terminal && a.stopped == b.stopped
    && a.sequence == b.sequence
    && a.renewal == b.renewal && a.interrupted == b.interrupted && a.consumer == b.consumer && a.beating == b.beating
  }

  lemma OutboundKeeps(s: Session, t: Target)
    ensures var r := RememberOutbound(s, t);
      && SameMode(s, r) && r.log == s.log && r.renewedAt == s.renewedAt && (s.turn.Some? ==> r.turn.Some?)
      && (!s.active ==> r.(turn := s.turn, anchor := s.anchor) == s && TurnOf(r).active == TurnOf(s).active)
  {
    hide RememberAnchor;
    assert RememberAnchor(s, t) == s.(anchor := RememberAnchor(s, t).anchor) by { AnchorChoice(s, t); }
  }

  lemma AnchorChoice(s: Session, t: Target)
    ensures RememberAnchor(s, t) == s.(anchor := RememberAnchor(s, t).anchor)
  {
  }

  lemma AimKeeps(s: Session, t: Target, env: Env)
    ensures var r := RuntimeTarget(s, t, env).s;
      SameMode(s, r) && r.log == s.log && r.renewedAt == s.renewedAt
      && (!s.active ==> TurnOf(r).active == TurnOf(s).active) && (s.turn.Some? ==> r.turn.Some?)
  {
    hide RememberOutbound, TurnOf;
    if t in env.trace { OutboundKeeps(s, t.(anchor := Some(env.trace[t]), lastOutbound := true)); }
  }

  lemma SendKeeps(s: Session, t: Target, on: bool, d: Delivery)
    ensures var r := SendTyping(s, t, on, d).s;
      SameMode(s, r) && (r.log == s.log || r.log == s.log + [Sent(t, on)])
      && (!on && TurnOf(s).active.None? ==> TurnOf(r).active.None?)
    ensures !d.Failed? ==> SendTyping(s, t, on, d).ok
  {
    hide RememberNative;
    RememberKeeps(s.(log := s.log + [Sent(t, on)]), t, on);
  }

  lemma RememberKeeps(s: Session, t: Target, on: bool)
    ensures var r := RememberNative(s, t, on);
      SameMode(s, r) && r.log == s.log && (!on && TurnOf(s).active.None? ==> TurnOf(r).active.None?)
  {
    hide SameSurface;
    if on {
      var a := s.(native := Some(t));
      TurnChoice(a, t);
      hide ActivateTurn;
    } else {
      hide ActivateTurn, RememberAnchor;
    }
  }

  lemma TurnChoice(s: Session, t: Target)
    ensures ActivateTurn(s, t) == s.(turn := ActivateTurn(s, t).turn)
  {
    hide SameSurface;
  }

  /** `b` was reached from `a` without sending typing-on. */
  predicate Quiet(a: Session, b: Session) {
    a.log <= b.log && forall i | |a.log| <= i < |b.log| :: !b.log[i].on
  }

  lemma QuietTwice(a: Session, b: Session, c: Session)
    requires Quiet(a, b) && Quiet(b, c)
    ensures Quiet(a, c)
  {
  }

  lemma StopLocalKeeps(s: Session, local: Target, preferred: Option<Target>, env: Env)
    requires !s.active && TurnOf(s).active.None? && s.consumer == Some(local)
    ensures var r := StopLocal(s, local, preferred, env);
      && SameMode(s.(stopped := r.stopped, consumer := r.consumer, beating := r.beating), r)
      && (s.stopped ==> r.stopped) && (r.beating ==> r.consumer.Some?)
      && TurnOf(r).active.None? && Quiet(s, r)
      && (!env.first.Failed? ==> r.stopped && r.consumer.None?)
  {
    hide RuntimeTarget, SendTyping, ClearConsumer, TargetsMatch, TurnOf;
    var aim := if local.native then RuntimeTarget(s, local, env) else Aimed(s, local);
    AimKeeps(s, local, env);
    SendKeeps(aim.s, aim.target, false, env.first);
    var sent := SendTyping(aim.s, aim.target, false, env.first);
    if sent.ok { StopRestKeeps(sent.s, aim.target, preferred, env); }
    assert Quiet(s, sent.s);
  }

  /** What follows the first send. */
  lemma StopRestKeeps(s: Session, aimed: Target, preferred: Option<Target>, env: Env)
    requires TurnOf(s).active.None?
    ensures var cleared := ClearConsumer(s).(stopped := true);
      var r := if preferred.Some? && !TargetsMatch(aimed, preferred.value)
               then SendTyping(cleared, preferred.value, false, env.second).s
               else cleared;
      SameMode(s.(stopped := true, consumer := None, beating := false), r) && TurnOf(r).active.None? && Quiet(s, r)
  {
    hide SendTyping, ClearConsumer, TargetsMatch;
    ClearKeeps(s);
    if preferred.Some? { SendKeeps(ClearConsumer(s).(stopped := true), preferred.value, false, env.second); }
  }

  lemma ClearKeeps(s: Session)
    ensures var r := ClearConsumer(s);
      r.(log := s.log) == s.(consumer := None, beating := false) && Quiet(s, r)
  {
  }

  lemma StopSendsKeeps(s: Session, preferred: Option<Target>, env: Env)
    requires !s.active && TurnOf(s).active.None? && (s.beating ==> s.consumer.Some?)
    ensures var r := StopSends(s, preferred, env);
      && SameMode(s.(stopped := r.stopped, consumer := r.consumer, beating := r.beating), r)
      && (s.stopped ==> r.stopped) && (r.beating ==> r.consumer.Some?)
      && TurnOf(r).active.None? && Quiet(s, r)
      && (s.consumer.None? ==> r.consumer.None?)
      && (s.stopped && s.consumer.None? ==> r == s)
      && (!env.first.Failed? && preferred.Some? ==> r.stopped && r.consumer.None?)
  {
    hide StopLocal, SendTyping;
    if s.consumer.Some? {
      StopLocalKeeps(s, s.consumer.value, preferred, env);
    } else if preferred.Some? {
      SendKeeps(s, preferred.value, false, env.first);
    }
  }

  /** After a stop the session is terminal and idle, whatever it was doing and whatever the sends did; given a target
      and a first send that does not fail, it is also stopped and the consumer holds no target. */
  lemma StopEnds(s: Session, t: Option<Target>, env: Env)
    requires s.beating ==> s.consumer.Some?
    ensures var r := StopPresence(s, t, env);
      && r.running == s.running && r.terminal && !r.active && r.sequence.None? && r.renewal.None? && r.interrupted.None?
      && TurnOf(r).active.None? && (r.beating ==> r.consumer.Some?) && (s.stopped ==> r.stopped) && Quiet(s, r)
      && (s.consumer.None? ==> r.consumer.None?)
      && (s.stopped && s.consumer.None? ==> r.log == s.log)
      && (!env.first.Failed? && t.Some? ==> r.stopped && r.consumer.None?)
  {
    hide RuntimeTarget, StopSends;
    var s0 := s.(active := false, terminal := true, renewedAt := None, sequence := None, renewal := None,
                  interrupted := None);
    var turnTarget := if s.turn.Some? then s.turn.value.active else None;
    if t.Some? { AimKeeps(s0, t.value, env); }
    var s1 := if turnTarget.None? && t.Some? then RuntimeTarget(s0, t.value, env).s else s0;
    var preferred := if turnTarget.Some? then turnTarget
                     else if t.Some? then Some(RuntimeTarget(s0, t.value, env).target)
                     else None;
    var s2 := if s.turn.Some? then s1.(turn := Some(TurnOf(s1).(active := None, terminal := true))) else s1;
    StopSendsKeeps(s2, preferred, env);
  }

  lemma ForceKeeps(s: Session, t: Target, env: Env)
    ensures var r := ForceRenew(s, t, env).s; SameMode(s, r) && (s.terminal ==> r == s)
  {
    hide SendTyping;
    SendKeeps(s, t, true, env.first);
  }

  lemma RenewKeeps(s: Session, source: Option<Target>, env: Env)
    ensures var r := RenewForActivity(s, source, env); SameMode(s, r) && (s.terminal ==> r == s)
  {
    hide SendTyping, RuntimeTarget;
    if source.Some? {
      AimKeeps(s, source.value, env);
      var aim := RuntimeTarget(s, source.value, env);
      SendKeeps(aim.s, aim.target, true, env.first);
    }
  }

  lemma DeliveryKeeps(s: Session, o: Observation, env: Env)
    requires Inv(s)
    ensures Inv(HandleDelivery(s, o, env))
    ensures s.terminal ==> HandleDelivery(s, o, env).(turn := s.turn, anchor := s.anchor) == s
  {
    hide ForceRenew, RememberOutbound;
    if o.target.Some? {
      var t := if o.anchor.Some? then o.target.value.(anchor := o.anchor, lastOutbound := true) else o.target.value;
      OutboundKeeps(s, t);
      ForceKeeps(RememberOutbound(s, t).(renewal := None), t, env);
    }
  }

  lemma RuntimeKeeps(s: Session, e: Event, env: Env)
    requires Inv(s) && s.running
    ensures Inv(HandleRuntime(s, e, env))
  {
    hide ForceRenew, RenewForActivity, StopPresence, RuntimeTarget, IsTerminal, IsActivity, IsStart;
    var source := SourceOf(e);
    StopEnds(s, source, env);
    if e.kind == "turn.interrupted" {
      if source.Some? {
        AimKeeps(s, source.value, env);
        ForceKeeps(RuntimeTarget(s, source.value, env).s, RuntimeTarget(s, source.value, env).target, env);
      }
    } else if !IsTerminal(e) && IsActivity(e) && !Suppressed(source) && (s.terminal ==> IsStart(e)) {
      var s1 := if s.terminal then s.(terminal := false, stopped := false) else s;
      var s2 := if source.Some? && IsStart(e) then BeginTurn(s1, source.value) else s1;
      RenewKeeps(s2.(interrupted := None, active := true,
                     sequence := Some(1 + if s2.sequence.Some? then s2.sequence.value else 0)), source, env);
    }
  }

  lemma ReceiveKeepsInv(s: Session, step: Step)
    requires Inv(s) && s.running && IsEvent(step)
    ensures Inv(Receive(s, step))
  {
    hide HandleRuntime, HandleDelivery, StopPresence;
    match step
    case Runtime(e, env) => RuntimeKeeps(s, e, env);
    case Observed(o, env) => DeliveryKeeps(s, o, env);
    case SilentResponse(t, env) => StopEnds(s, Some(t), env);
    case ResponseSent(_) =>
  }

  lemma StepKeepsInv(s: Session, step: Step)
    requires Inv(s)
    ensures Inv(Next(s, step))
  {
    hide Receive, StopPresence, ForceRenew;
    match step
    case RenewalTimer(env) =>
      if s.renewal.Some? { ForceKeeps(s.(renewal := None), s.renewal.value.target, env); }
    case InterruptedTimer(env) =>
      if s.interrupted.Some? { StopEnds(s.(interrupted := None), s.interrupted.value, env); }
    case _ =>
      if s.running && IsEvent(step) { ReceiveKeepsInv(s, step); }
  }

  /** Over every run: never both active and terminal, stopped sessions are terminal, terminal sessions have no timer. */
  lemma {:induction false} RunKeepsInv(s: Session, steps: seq<Step>)
    requires Inv(s)
    ensures Inv(Run(s, steps))
    decreases |steps|
  {
    hide Inv, Next;
    if steps != [] {
      StepKeepsInv(s, steps[0]);
      RunKeepsInv(Next(s, steps[0]), steps[1..]);
    }
  }

  // ---- after a terminal event ----

  /** The steps that make a session terminal whatever its state. */
  predicate Ends(step: Step) {
    || step.SilentResponse?
    || (step.Runtime? && step.e.kind != "turn.interrupted" && IsTerminal(step.e))
  }

  /** The steps that leave the terminal state: unsuppressed start events. */
  predicate Reopens(step: Step) {
    step.Runtime? && step.e.kind != "turn.interrupted" && IsActivity(step.e) && IsStart(step.e)
    && !Suppressed(SourceOf(step.e))
  }

  /** Terminal, or in a gateway that has stopped. */
  predicate Shut(s: Session) { s.terminal || !s.running }

  lemma EndsIsTerminal(s: Session, step: Step)
    requires Inv(s) && Ends(step)
    ensures Shut(Next(s, step)) && (s.running ==> Next(s, step).terminal) && Quiet(s, Next(s, step))
  {
    hide StopPresence, IsTerminal, IsActivity;
    match step
    case SilentResponse(t, env) => StopEnds(s, Some(t), env);
    case Runtime(e, env) => StopEnds(s, SourceOf(e), env);
  }

  lemma RuntimeStaysTerminal(s: Session, e: Event, env: Env)
    requires Inv(s) && s.terminal && !Reopens(Runtime(e, env))
    ensures var r := HandleRuntime(s, e, env);
      && r.terminal && r.running == s.running && Quiet(s, r) && (s.stopped ==> r.stopped) &&
         (s.consumer.None? ==> r.consumer.None?)
      && (s.stopped && s.consumer.None? ==> r.log == s.log)
  {
    hide StopPresence, IsTerminal, IsActivity, IsStart, RenewForActivity, ForceRenew;
    StopEnds(s, SourceOf(e), env);
  }

  lemma ReceiveStaysTerminal(s: Session, step: Step)
    requires Inv(s) && s.terminal && IsEvent(step) && !Reopens(step)
    ensures var r := Receive(s, step);
      && r.terminal && Quiet(s, r) && (s.stopped ==> r.stopped) && (s.consumer.None? ==> r.consumer.None?)
      && (s.stopped && s.consumer.None? ==> r.log == s.log)
  {
    hide HandleRuntime, HandleDelivery, StopPresence;
    match step
    case Runtime(e, env) => RuntimeStaysTerminal(s, e, env);
    case Observed(o, env) => DeliveryKeeps(s, o, env);
    case SilentResponse(t, env) => StopEnds(s, Some(t), env);
    case ResponseSent(_) =>
  }

  lemma StaysShut(s: Session, step: Step)
    requires Inv(s) && Shut(s) && !Reopens(step)
    ensures var r := Next(s, step);
      && Shut(r) && Quiet(s, r) && (s.stopped ==> r.stopped || !r.running) && (!s.running ==> !r.running)
      && (s.consumer.None? && !step.ConsumerActivates? ==> r.consumer.None?)
      && ((s.stopped || !s.running) && s.consumer.None? ==> r.log == s.log)
  {
    hide Receive, StopPresence, ForceRenew;
    if s.terminal && IsEvent(step) { ReceiveStaysTerminal(s, step); }
  }

  /** Once shut, no typing-on is sent until a start event arrives. */
  lemma {:induction false} ShutIsQuiet(s: Session, steps: seq<Step>)
    requires Inv(s) && Shut(s) && forall i | 0 <= i < |steps| :: !Reopens(steps[i])
    ensures Shut(Run(s, steps)) && Quiet(s, Run(s, steps))
    decreases |steps|
  {
    hide Inv, Next, Reopens, Shut;
    if steps != [] {
      var s' := Next(s, steps[0]);
      StepKeepsInv(s, steps[0]);
      StaysShut(s, steps[0]);
      ShutIsQuiet(s', steps[1..]);
      QuietTwice(s, s', Run(s', steps[1..]));
    }
  }

  /** In every run: between a terminal event and the next start event no typing-on is sent, and stopping the gateway in
      between changes nothing. */
  lemma NoTypingAfterTerminal(before: seq<Step>, terminal: Step, after: seq<Step>)
    requires Ends(terminal) && forall i | 0 <= i < |after| :: !Reopens(after[i])
    ensures Quiet(Run(IDLE, before), Run(IDLE, before + [terminal] + after))
  {
    hide Inv, Next, Reopens, Ends, Shut;
    var s := Run(IDLE, before);
    assert Inv(IDLE) by { IdleHasInv(); }
    RunKeepsInv(IDLE, before);
    RunAppends(IDLE, before, [terminal] + after);
    assert before + [terminal] + after == before + ([terminal] + after);
    EndsIsTerminal(s, terminal);
    StepKeepsInv(s, terminal);
    ShutIsQuiet(Next(s, terminal), after);
    QuietTwice(s, Next(s, terminal), Run(Next(s, terminal), after));
    assert ([terminal] + after)[1..] == after;
  }

  lemma IdleHasInv()
    ensures Inv(IDLE)
  {
  }

  lemma {:induction false} RunAppends(s: Session, a: seq<Step>, b: seq<Step>)
    ensures Run(s, a + b) == Run(Run(s, a), b)
    decreases |a|
  {
    hide Next;
    if a == [] {
      assert a + b == b;
    } else {
      RunAppends(Next(s, a[0]), a[1..], b);
      assert (a + b)[1..] == a[1..] + b;
    }
  }

  /** Once stopped, with no target held by the consumer, no event short of a start makes the gateway send anything:
      repeated terminal events are silent. */
  lemma {:induction false} StoppedStaysSilent(s: Session, steps: seq<Step>)
    requires Inv(s) && (s.stopped || !s.running) && s.consumer.None?
    requires forall i | 0 <= i < |steps| :: !Reopens(steps[i]) && !steps[i].ConsumerActivates?
    ensures Run(s, steps).log == s.log && (Run(s, steps).stopped || !Run(s, steps).running)
    decreases |steps|
  {
    hide Next, Reopens;
    if steps != [] {
      StepKeepsInv(s, steps[0]);
      StaysShut(s, steps[0]);
      StoppedStaysSilent(Next(s, steps[0]), steps[1..]);
    }
  }

  // ---- where presence is sent ----

  /** Aiming never leaves the surface of the source: only the anchor is chosen, the turn's own target first. */
  lemma AimStaysOnSurface(s: Session, t: Target, env: Env)
    ensures SameSurface(RuntimeTarget(s, t, env).target, t)
    ensures t.native && s.turn.Some? && s.turn.value.active.Some? && SameSurface(s.turn.value.active.value, t) ==>
              RuntimeTarget(s, t, env) == Aimed(s, s.turn.value.active.value)
    ensures !t.native ==> RuntimeTarget(s, t, env) == Aimed(s, t)
  {
    hide RememberOutbound;
  }

  /** Among the entries added to the log there is a typing-off for this target. */
  ghost predicate StopsAt(before: seq<Sent>, after: seq<Sent>, t: Target) {
    before <= after && exists i :: |before| <= i < |after| && !after[i].on && TargetsMatch(after[i].target, t)
  }

  /** A stop ends typing where the turn shows it, whatever target the terminal event names and whatever target the
      consumer holds. */
  lemma StopGoesToActiveTarget(s: Session, t: Option<Target>, env: Env, shown: Target)
    requires s.turn.Some? && s.turn.value.active == Some(shown) && !s.stopped
    requires env.first.Delivered? && env.second.Delivered?
    ensures StopsAt(s.log, StopPresence(s, t, env).log, shown)
  {
    hide RuntimeTarget, StopLocal, SendTyping;
    var s2 := s.(active := false, terminal := true, renewedAt := None, sequence := None, renewal := None,
                 interrupted := None, turn := Some(s.turn.value.(active := None, terminal := true)));
    assert StopPresence(s, t, env) == StopSends(s2, Some(shown), env);
    if s2.consumer.Some? {
      StopLocalStopsAt(s2, s2.consumer.value, shown, env);
    } else {
      DeliveredIsLogged(s2, shown, false);
    }
  }

  lemma DeliveredIsLogged(s: Session, t: Target, on: bool)
    requires on ==> !t.suppressed
    ensures SendTyping(s, t, on, Delivered).ok
    ensures var log := SendTyping(s, t, on, Delivered).s.log;
      log == s.log + [Sent(t, on)] && log[|s.log|] == Sent(t, on)
  {
    hide RememberNative;
    RememberKeeps(s.(log := s.log + [Sent(t, on)]), t, on);
  }

  lemma StopLocalStopsAt(s: Session, local: Target, shown: Target, env: Env)
    requires env.first.Delivered? && env.second.Delivered?
    ensures StopsAt(s.log, StopLocal(s, local, Some(shown), env).log, shown)
  {
    hide RuntimeTarget, SendTyping, ClearConsumer;
    AimKeeps(s, local, env);
    var aim := if local.native then RuntimeTarget(s, local, env) else Aimed(s, local);
    var sent := SendTyping(aim.s, aim.target, false, Delivered).s;
    DeliveredIsLogged(aim.s, aim.target, false);
    ClearKeeps(sent);
    var cleared := ClearConsumer(sent).(stopped := true);
    DeliveredIsLogged(cleared, shown, false);
    assert cleared.log[|s.log|] == sent.log[|s.log|] == Sent(aim.target, false);
  }

  // ---- the delayed renewal ----

  predicate IsRuntimeActivity(step: Step) {
    step.Runtime? && step.e.kind != "turn.interrupted" && IsActivity(step.e)
  }

  /** Activity that counts while the session is not terminal, and suppressed activity, which forgets the count. */
  predicate Accepts(step: Step) { IsRuntimeActivity(step) && !Suppressed(SourceOf(step.e)) }
  predicate Resets(step: Step) { IsRuntimeActivity(step) && Suppressed(SourceOf(step.e)) }
  /** The only steps that schedule a renewal. */
  predicate Delivers(step: Step) { step.Observed? || step.ResponseSent? }

  function Bump(n: Option<nat>, step: Step): (r: Option<nat>) {
    if Resets(step) then None
    else if Accepts(step) then Some(1 + if n.Some? then n.value else 0)
    else n
  }

  /** How the events move an activity number; `None` once a suppressed event was not followed by activity. */
  function Activity(n: Option<nat>, steps: seq<Step>): (r: Option<nat>)
    decreases |steps|
  {
    if steps == [] then n else Activity(Bump(n, steps[0]), steps[1..])
  }

  function CountAccepted(steps: seq<Step>): (r: nat)
    decreases |steps|
  {
    if steps == [] then 0 else (if Accepts(steps[0]) then 1 else 0) + CountAccepted(steps[1..])
  }

  lemma TerminalIsNoActivity(e: Event)
    requires IsTerminal(e)
    ensures !IsActivity(e)
  {
  }

  lemma PendingRuntime(s: Session, e: Event, env: Env)
    requires Inv(s) && HandleRuntime(s, e, env).renewal.Some?
    ensures var s' := HandleRuntime(s, e, env);
      s'.renewal == s.renewal && s'.sequence == Bump(s.sequence, Runtime(e, env))
  {
    hide ForceRenew, RenewForActivity, StopPresence, RuntimeTarget, IsTerminal, IsActivity, IsStart;
    var source := SourceOf(e);
    StopEnds(s, source, env);
    if IsTerminal(e) { TerminalIsNoActivity(e); }
    if e.kind == "turn.interrupted" {
      if source.Some? {
        AimKeeps(s, source.value, env);
        ForceKeeps(RuntimeTarget(s, source.value, env).s, RuntimeTarget(s, source.value, env).target, env);
      }
    } else if !IsTerminal(e) && IsActivity(e) && !Suppressed(source) && (s.terminal ==> IsStart(e)) {
      var s1 := if s.terminal then s.(terminal := false, stopped := false) else s;
      var s2 := if source.Some? && IsStart(e) then BeginTurn(s1, source.value) else s1;
      RenewKeeps(s2.(interrupted := None, active := true,
                     sequence := Some(1 + if s2.sequence.Some? then s2.sequence.value else 0)), source, env);
    }
  }

  /** A renewal still pending after a step that is no delivery is the one pending before it. */
  lemma PendingStep(s: Session, step: Step)
    requires Inv(s) && !Delivers(step) && Next(s, step).renewal.Some?
    ensures Next(s, step).renewal == s.renewal && Next(s, step).sequence == Bump(s.sequence, step)
  {
    hide HandleRuntime, StopPresence, ForceRenew, IsActivity, IsStart;
    match step
    case Runtime(e, env) => PendingRuntime(s, e, env);
    case SilentResponse(t, env) => StopEnds(s, Some(t), env);
    case RenewalTimer(env) =>
      if s.renewal.Some? { ForceKeeps(s.(renewal := None), s.renewal.value.target, env); }
    case InterruptedTimer(env) =>
      if s.interrupted.Some? { StopEnds(s.(interrupted := None), s.interrupted.value, env); }
    case _ =>
  }

  lemma {:induction false} PendingRun(s: Session, steps: seq<Step>)
    requires Inv(s) && Run(s, steps).renewal.Some? && forall i | 0 <= i < |steps| :: !Delivers(steps[i])
    ensures Run(s, steps).renewal == s.renewal && Run(s, steps).sequence == Activity(s.sequence, steps)
    decreases |steps|
  {
    hide Inv, Next, Bump;
    if steps != [] {
      StepKeepsInv(s, steps[0]);
      PendingRun(Next(s, steps[0]), steps[1..]);
      PendingStep(s, steps[0]);
    }
  }

  /** What happens to an activity number without suppressed events, and after the last of them. */
  lemma {:induction false} ActivityCounts(n: Option<nat>, steps: seq<Step>)
    requires forall i | 0 <= i < |steps| :: !Resets(steps[i])
    ensures Activity(n, steps) == if CountAccepted(steps) == 0 then n
                                  else Some(CountAccepted(steps) + if n.Some? then n.value else 0)
    decreases |steps|
  {
    hide Resets, Accepts;
    if steps != [] { ActivityCounts(Bump(n, steps[0]), steps[1..]); }
  }

  lemma {:induction false} ActivityAppends(n: Option<nat>, a: seq<Step>, b: seq<Step>)
    ensures Activity(n, a + b) == Activity(Activity(n, a), b)
    decreases |a|
  {
    hide Bump;
    if a == [] {
      assert a + b == b;
    } else {
      ActivityAppends(Bump(n, a[0]), a[1..], b);
      assert (a + b)[1..] == a[1..] + b;
    }
  }

  /** A renewal pending since it was scheduled in `s` is due exactly when activity followed the scheduling, if no
      suppressed event came in between. */
  lemma RenewalDueIffActivity(s: Session, steps: seq<Step>)
    requires Inv(s) && s.renewal.Some? && s.sequence == Some(s.renewal.value.after)
    requires Run(s, steps).renewal.Some? && forall i | 0 <= i < |steps| :: !Delivers(steps[i]) && !Resets(steps[i])
    ensures RenewalDue(Run(s, steps)) <==> CountAccepted(steps) > 0
  {
    hide Next, Delivers, Resets;
    RunKeepsInv(s, steps);
    PendingRun(s, steps);
    ActivityCounts(s.sequence, steps);
  }

  /** The deliveries that schedule a renewal. */
  predicate Schedules(s: Session, step: Step) {
    && s.running && s.active && !s.terminal
    && match step
       case ResponseSent(t) => !t.suppressed
       case Observed(o, _) =>
         o.delivered && o.target.Some? && o.target.value.native && !o.target.value.suppressed && o.phase.OtherPhase?
       case _ => false
  }

  /** In every run from a started gateway: a renewal that a delivery scheduled, and that no later delivery replaced, is
      due when its timer fires exactly when activity followed, unless a suppressed event came in between. */
  lemma RenewalFollowsActivity(before: seq<Step>, delivery: Step, steps: seq<Step>)
    requires Schedules(Run(IDLE, before), delivery)
    requires forall i | 0 <= i < |steps| :: !Delivers(steps[i]) && !Resets(steps[i])
    requires Run(IDLE, before + [delivery] + steps).renewal.Some?
    ensures RenewalDue(Run(IDLE, before + [delivery] + steps)) <==> CountAccepted(steps) > 0
  {
    hide Next, Delivers, Resets, Schedules, Inv;
    var s := Run(IDLE, before);
    IdleHasInv();
    RunKeepsInv(IDLE, before);
    ScheduledNow(s, delivery);
    StepKeepsInv(s, delivery);
    assert before + [delivery] + steps == before + ([delivery] + steps) && ([delivery] + steps)[1..] == steps;
    RunAppends(IDLE, before, [delivery] + steps);
    RenewalDueIffActivity(Next(s, delivery), steps);
  }

  /** A suppressed event forgets the count: after the last one the renewal is due exactly when more activity followed
      than there had been before the scheduling. So it is never due without activity, and may be missed with some. */
  lemma RenewalDueAfterReset(s: Session, before: seq<Step>, reset: Step, after: seq<Step>)
    requires Inv(s) && s.renewal.Some? && s.sequence == Some(s.renewal.value.after) && Resets(reset)
    requires var steps := before + [reset] + after;
             Run(s, steps).renewal.Some? && forall i | 0 <= i < |steps| :: !Delivers(steps[i])
    requires forall i | 0 <= i < |after| :: !Resets(after[i])
    ensures RenewalDue(Run(s, before + [reset] + after)) <==> CountAccepted(after) > s.renewal.value.after
  {
    hide Next, Delivers, Resets, Accepts;
    var steps := before + [reset] + after;
    RunKeepsInv(s, steps);
    PendingRun(s, steps);
    ActivityAppends(s.sequence, before + [reset], after);
    ActivityAppends(s.sequence, before, [reset]);
    ActivityCounts(None, after);
  }

  /** The same when suppressed events came in between, `reset` the last of them. */
  lemma RenewalFollowsReset(before: seq<Step>, delivery: Step, early: seq<Step>, reset: Step, late: seq<Step>)
    requires Schedules(Run(IDLE, before), delivery) && Resets(reset)
    requires var steps := early + [reset] + late;
             Run(IDLE, before + [delivery] + steps).renewal.Some? && forall i | 0 <= i < |steps| :: !Delivers(steps[i])
    requires forall i | 0 <= i < |late| :: !Resets(late[i])
    ensures Run(IDLE, before).sequence.Some?
    ensures RenewalDue(Run(IDLE, before + [delivery] + (early + [reset] + late)))
            <==> CountAccepted(late) > Run(IDLE, before).sequence.value
  {
    var s, steps := Run(IDLE, before), early + [reset] + late;
    IdleHasInv();
    RunKeepsInv(IDLE, before);
    ScheduledNow(s, delivery);
    hide Next, Delivers, Resets, Schedules, Inv;
    StepKeepsInv(s, delivery);
    assert before + [delivery] + steps == before + ([delivery] + steps) && ([delivery] + steps)[1..] == steps;
    RunAppends(IDLE, before, [delivery] + steps);
    RenewalDueAfterReset(Next(s, delivery), early, reset, late);
  }

  lemma ScheduledNow(s: Session, step: Step)
    requires Inv(s) && Schedules(s, step)
    ensures var r := Next(s, step);
      r.renewal.Some? && r.sequence == Some(r.renewal.value.after) && s.sequence == r.sequence
  {
    hide RememberOutbound;
    if step.Observed? {
      var o := step.o;
      var t := if o.anchor.Some? then o.target.value.(anchor := o.anchor, lastOutbound := true) else o.target.value;
      OutboundKeeps(s, t);
    }
  }

  /** The timer's only effect on the channel: one typing-on when due, nothing otherwise. */
  lemma RenewalTimerSends(s: Session, env: Env)
    requires Inv(s) && env.first.Delivered?
    ensures var r := FireRenewal(s, env);
      if RenewalDue(s) && (!s.renewal.value.target.suppressed || RenewIfCurrent(s, s.renewal.value.target).ok)
      then |r.log| == |s.log| + 1 && s.log <= r.log && r.log[|s.log|].on
      else r.log == s.log
  {
    hide RememberNative;
    if RenewalDue(s) {
      var t := s.renewal.value.target;
      RememberKeeps(s.(renewal := None, log := s.log + [Sent(t, true)]), t, true);
    }
  }

  const HERE := Target(1, true, Some(1), true, false, false)
  const ENV := Env(0, Delivered, Delivered, map[])
  const THINKING := Runtime(Event("status", "thinking", "", None, None), ENV)
  const SUPPRESSED := Runtime(Event("status", "thinking", "", Some(HERE.(suppressed := true)), None), ENV)

  /** The missed case: activity, a delivery, a suppressed event, activity again, and the timer finds nothing due. */
  lemma RenewalMissedWitness()
    ensures var s := Run(IDLE, [THINKING, ResponseSent(HERE), SUPPRESSED, THINKING]);
      s.renewal.Some? && s.active && !RenewalDue(s) && FireRenewal(s, ENV).log == s.log
  {
    var s1 := IDLE.(active := true, sequence := Some(1));
    var s2 := s1.(renewal := Some(Renewal(HERE, 1)));
    var s3 := s2.(active := false, sequence := None);
    assert Next(IDLE, THINKING) == s1 && Next(s1, ResponseSent(HERE)) == s2;
    assert Next(s2, SUPPRESSED) == s3 && Next(s3, THINKING) == s2;
    hide Next;
    assert Run(s3, [THINKING]) == s2;
    assert Run(s2, [SUPPRESSED, THINKING]) == s2;
    assert Run(s1, [ResponseSent(HERE), SUPPRESSED, THINKING]) == s2;
  }
}
