/**
 The gateway's presence fields, keyed by session name and updated in place by the handlers. `Take` receives one event,
 timer or consumer change for one session, or stops the gateway; what it keeps for a session is, after any interleaving
 of all sessions, what that session's own steps make of it.
 */
module PresenceGateway {
  import opened Tables
  import opened Presence

  type Name = nat

  function At<V>(m: map<Name, V>, n: Name): (v: Option<V>) { if n in m then Some(m[n]) else None }
  function Put<V>(m: map<Name, V>, n: Name, v: Option<V>): (r: map<Name, V>)
    ensures At(r, n) == v && forall x | x != n :: At(r, x) == At(m, x)
  {
    if v.Some? then m[n := v.value] else m - {n}
  }

  /** A step of one session, or stopping the gateway. */
  datatype Act = On(session: Name, step: Step) | StopAll

  predicate IsAct(a: Act) { a.On? ==> !a.step.Shutdown? }

  /** The steps of session `n` among those of all sessions; stopping concerns every session. */
  function Own(acts: seq<Act>, n: Name): (steps: seq<Step>) {
    if acts == [] then []
    else
      var last := acts[|acts| - 1];
      Own(acts[..|acts| - 1], n)
      + (if last.StopAll? then [Shutdown] else if last.session == n then [last.step] else [])
  }

  class Gateway {
    var running: bool
    var active: set<Name>
    var terminal: set<Name>
    var stopped: set<Name>
    var sequences: map<Name, nat>
    var renewedAt: map<Name, int>
    var renewals: map<Name, Renewal>
    var interruptions: map<Name, Option<Target>>
    var turns: map<Name, Turn>
    var natives: map<Name, Target>
    var anchors: map<Name, Target>
    var consumer: map<Name, Target>
    var beating: set<Name>
    var log: map<Name, seq<Sent>>
    ghost var history: seq<Act>

    /** What the fields say about each other. */
    ghost predicate Agree()
      reads this
    {
      && active !! terminal && stopped <= terminal
      && renewals.Keys !! terminal && interruptions.Keys !! terminal
      && sequences.Keys == active && beating <= consumer.Keys
      && (forall n | n in terminal && n in turns :: turns[n].active.None?)
      && (!running ==> active == {} && terminal == {} && renewals == map[] && interruptions == map[])
    }

    /** Every session is where its own steps lead. */
    ghost predicate Follows()
      reads this
    {
      forall n :: Of(n) == Run(IDLE, Own(history, n))
    }

    ghost predicate Valid()
      reads this
    {
      Agree() && Follows()
    }

    constructor ()
      ensures Valid() && history == []
    {
      running, history := true, [];
      active, terminal, stopped, beating := {}, {}, {}, {};
      sequences, renewedAt, renewals, interruptions, turns := map[], map[], map[], map[], map[];
      natives, anchors, consumer, log := map[], map[], map[], map[];
    }

    ghost function Of(n: Name): (s: Session)
      reads this
    {
      Session(running, n in active, n in terminal, n in stopped, At(sequences, n), At(renewedAt, n), At(renewals, n),
              At(interruptions, n), At(turns, n), At(natives, n), At(anchors, n), At(consumer, n), n in beating,
              if n in log then log[n] else [])
    }

    /** Only session `n` changed. */
    twostate predicate Only(n: Name)
      reads this
    {
      history == old(history) && forall m | m != n :: Of(m) == old(Of(m))
    }

    method RememberOutbound(n: Name, t: Target)
      modifies this
      ensures Of(n) == Presence.RememberOutbound(old(Of(n)), t) && Only(n)
    {
      hide Presence.RememberAnchor, Put;
      if !t.native { return; }
      AnchorKeepsTurn(Of(n), t);
      RememberAnchor(n, t);
      var u := (if n in turns then turns[n] else NEW_TURN).(outbound := Some(t));
      if !u.terminal && n in active {
        SetTurn(n, u.(active := Some(t)));
        SetNative(n, Some(t));
      } else {
        SetTurn(n, u);
      }
    }

    method BeginTurn(n: Name, t: Target)
      modifies this
      ensures Of(n) == Presence.BeginTurn(old(Of(n)), t) && Only(n)
    {
      if !t.native { return; }
      var u := if n in turns then turns[n] else NEW_TURN;
      turns := turns[n := u.(inbound := Some(t), outbound := None, active := Some(t), terminal := false)];
      natives := natives[n := t];
    }

    method ActivateTurn(n: Name, t: Target)
      modifies this`turns
      ensures Of(n) == Presence.ActivateTurn(old(Of(n)), t) && Only(n)
    {
      if !t.native { return; }
      var u := if n in turns then turns[n] else NEW_TURN;
      turns := turns[n := if u.inbound.None? || SameSurface(u.inbound.value, t) then u.(active := Some(t)) else u];
    }

    method RememberAnchor(n: Name, t: Target)
      modifies this`anchors
      ensures Of(n) == Presence.RememberAnchor(old(Of(n)), t) && Only(n)
    {
      if t.lastOutbound && t.anchor.Some? { anchors := anchors[n := t]; }
    }

    method SetTurn(n: Name, u: Turn)
      modifies this`turns
      ensures Of(n) == old(Of(n)).(turn := Some(u)) && Only(n)
    {
      turns := turns[n := u];
    }

    method SetNative(n: Name, t: Option<Target>)
      modifies this`natives
      ensures Of(n) == old(Of(n)).(native := t) && Only(n)
    {
      natives := Put(natives, n, t);
    }

    method DropNative(n: Name, t: Target)
      modifies this`natives
      ensures Of(n) == Presence.DropNative(old(Of(n)), t) && Only(n)
    {
      if n !in natives || SameSurface(natives[n], t) { natives := natives - {n}; }
    }

    method DropTurn(n: Name, t: Target)
      modifies this`turns
      ensures Of(n) == Presence.DropTurn(old(Of(n)), t) && Only(n)
    {
      if n in turns && turns[n].active.Some? && SameSurface(turns[n].active.value, t) {
        SetTurn(n, turns[n].(active := None));
      }
    }

    method RememberNative(n: Name, t: Target, on: bool)
      modifies this
      ensures Of(n) == Presence.RememberNative(old(Of(n)), t, on) && Only(n)
    {
      hide Presence.ActivateTurn, Presence.RememberAnchor, Presence.DropNative, Presence.DropTurn;
      if on {
        SetNative(n, Some(t));
        ActivateTurn(n, t);
        RememberAnchor(n, t);
      } else {
        DropNative(n, t);
        DropTurn(n, t);
      }
    }

    method RuntimeTarget(n: Name, t: Target, env: Env) returns (target: Target)
      modifies this
      ensures Aimed(Of(n), target) == Presence.RuntimeTarget(old(Of(n)), t, env) && Only(n)
    {
      hide Presence.RememberOutbound;
      if !t.native { return t; }
      if n in turns && turns[n].active.Some? && SameSurface(turns[n].active.value, t) { return turns[n].active.value; }
      if n in natives && SameSurface(natives[n], t) { return natives[n]; }
      if t.lastOutbound && t.anchor.Some? { return t; }
      if t.sourceMessage {
        if t !in env.trace { return t; }
        target := t.(anchor := Some(env.trace[t]), lastOutbound := true);
        RememberOutbound(n, target);
        return;
      }
      if n in anchors && SameSurface(anchors[n], t) {
        return t.(lastOutbound := anchors[n].lastOutbound, anchor := anchors[n].anchor);
      }
      return t;
    }

    method Append(n: Name, t: Target, on: bool)
      modifies this`log
      ensures Of(n) == old(Of(n)).(log := old(Of(n)).log + [Sent(t, on)]) && Only(n)
    {
      log := log[n := (if n in log then log[n] else []) + [Sent(t, on)]];
    }

    method SendTyping(n: Name, t: Target, on: bool, d: Delivery) returns (ok: bool)
      modifies this
      ensures Ran(Of(n), ok) == Presence.SendTyping(old(Of(n)), t, on, d) && Only(n)
    {
      hide Presence.RememberNative;
      if on && t.suppressed { return true; }
      if d.Skipped? && !t.native { return true; }
      Append(n, t, on);
      if d.Failed? { return false; }
      if t.native { RememberNative(n, t, on); }
      return true;
    }

    method RenewConsumer(n: Name) returns (renewed: bool)
      modifies this
      ensures Ran(Of(n), renewed) == Presence.RenewConsumer(old(Of(n))) && Only(n)
    {
      if n !in beating { return false; }
      Append(n, if n in consumer then consumer[n] else UNKNOWN_TARGET, true);
      return true;
    }

    method RenewIfCurrent(n: Name, t: Target) returns (renewed: bool)
      modifies this
      ensures Ran(Of(n), renewed) == Presence.RenewIfCurrent(old(Of(n)), t) && Only(n)
    {
      hide Presence.RenewConsumer;
      if n !in consumer || !TargetsMatch(consumer[n], t) { return false; }
      renewed := RenewConsumer(n);
    }

    method ClearActiveTarget(n: Name)
      modifies this
      ensures Of(n) == ClearConsumer(old(Of(n))) && Only(n)
    {
      if n in beating && n in consumer { Append(n, consumer[n], false); }
      consumer := consumer - {n};
      beating := beating - {n};
    }

    method ForceRenew(n: Name, t: Target, env: Env) returns (ok: bool)
      modifies this
      ensures Ran(Of(n), ok) == Presence.ForceRenew(old(Of(n)), t, env) && Only(n)
    {
      hide Presence.SendTyping, Presence.RenewIfCurrent;
      NotRenewedIsUnchanged(Of(n), t);
      if n in terminal { return true; }
      ok := RenewIfCurrent(n, t);
      if !ok { ok := SendTyping(n, t, true, env.first); }
      if ok { renewedAt := renewedAt[n := env.now]; }
    }

    method StopLocal(n: Name, local: Target, preferred: Option<Target>, env: Env)
      modifies this
      ensures Of(n) == Presence.StopLocal(old(Of(n)), local, preferred, env) && Only(n)
    {
      hide Presence.SendTyping, Presence.RuntimeTarget, ClearConsumer;
      var target := local;
      if local.native { target := RuntimeTarget(n, local, env); }
      var ok := SendTyping(n, target, false, env.first);
      if !ok { return; }
      ClearActiveTarget(n);
      stopped := stopped + {n};
      if preferred.Some? && !TargetsMatch(target, preferred.value) {
        ok := SendTyping(n, preferred.value, false, env.second);
      }
    }

    method StopSends(n: Name, preferred: Option<Target>, env: Env)
      modifies this
      ensures Of(n) == Presence.StopSends(old(Of(n)), preferred, env) && Only(n)
    {
      hide Presence.SendTyping, Presence.StopLocal;
      if n in consumer { StopLocal(n, consumer[n], preferred, env); return; }
      if n in stopped || preferred.None? { return; }
      var ok := SendTyping(n, preferred.value, false, env.first);
      if ok { stopped := stopped + {n}; }
    }

    method StopPresence(n: Name, t: Option<Target>, env: Env)
      modifies this
      ensures Of(n) == Presence.StopPresence(old(Of(n)), t, env) && Only(n)
    {
      hide Presence.RuntimeTarget, Presence.StopSends;
      Deactivate(n);
      var hadTurn := n in turns;
      var preferred := if hadTurn then turns[n].active else None;
      if preferred.None? && t.Some? {
        var target := RuntimeTarget(n, t.value, env);
        preferred := Some(target);
      }
      if hadTurn { SetTurn(n, (if n in turns then turns[n] else NEW_TURN).(active := None, terminal := true)); }
      StopSends(n, preferred, env);
    }

    method ClearTimers(n: Name)
      modifies this`renewals, this`interruptions
      ensures Of(n) == old(Of(n)).(renewal := None, interrupted := None) && Only(n)
    {
      renewals, interruptions := renewals - {n}, interruptions - {n};
    }

    method ForgetActivity(n: Name)
      modifies this`active, this`renewedAt, this`sequences
      ensures Of(n) == old(Of(n)).(active := false, renewedAt := None, sequence := None) && Only(n)
    {
      active, renewedAt, sequences := active - {n}, renewedAt - {n}, sequences - {n};
    }

    method Deactivate(n: Name)
      modifies this
      ensures Of(n) == old(Of(n)).(active := false, terminal := true, renewedAt := None, sequence := None,
                                   renewal := None, interrupted := None)
      ensures Only(n)
    {
      terminal := terminal + {n};
      ForgetActivity(n);
      ClearTimers(n);
    }

    method Schedule(n: Name, t: Target)
      modifies this
      ensures Of(n) == Presence.Schedule(old(Of(n)), t) && Only(n)
    {
      if t.suppressed || n !in active || n in terminal { return; }
      renewals := renewals[n := Renewal(t, if n in sequences then sequences[n] else 0)];
    }

    method FireRenewal(n: Name, env: Env)
      requires n in renewals
      modifies this
      ensures Of(n) == Presence.FireRenewal(old(Of(n)), env) && Only(n)
    {
      hide Presence.ForceRenew;
      var r := renewals[n];
      renewals := renewals - {n};
      if !running || n !in active || n in terminal { return; }
      if (if n in sequences then sequences[n] else 0) <= r.after { return; }
      var _ := ForceRenew(n, r.target, env);
    }

    method FireInterrupted(n: Name, env: Env)
      requires n in interruptions
      modifies this
      ensures Of(n) == Presence.FireInterrupted(old(Of(n)), env) && Only(n)
    {
      hide Presence.StopPresence;
      var t := interruptions[n];
      interruptions := interruptions - {n};
      if running { StopPresence(n, t, env); }
    }

    method RenewForActivity(n: Name, source: Option<Target>, env: Env)
      modifies this
      ensures Of(n) == Presence.RenewForActivity(old(Of(n)), source, env) && Only(n)
    {
      hide Presence.SendTyping, Presence.RenewIfCurrent, Presence.RuntimeTarget, Presence.RenewConsumer;
      if Suppressed(source) || n in terminal { return; }
      if env.now - (if n in renewedAt then renewedAt[n] else 0) < RENEW_THROTTLE_MS { return; }
      var ok;
      if source.None? {
        ok := RenewConsumer(n);
      } else {
        var target := RuntimeTarget(n, source.value, env);
        NotRenewedIsUnchanged(Of(n), target);
        ok := RenewIfCurrent(n, target);
        if !ok { ok := SendTyping(n, target, true, env.first); }
      }
      if ok { renewedAt := renewedAt[n := env.now]; }
    }

    method HandleInterrupted(n: Name, source: Option<Target>, env: Env)
      modifies this
      ensures Of(n) == Presence.HandleInterrupted(old(Of(n)), source, env) && Only(n)
    {
      hide Presence.StopPresence, Presence.RuntimeTarget, Presence.ForceRenew, Presence.RenewConsumer;
      if n in terminal { return; }
      if Suppressed(source) { StopPresence(n, source, env); return; }
      if source.Some? {
        var target := RuntimeTarget(n, source.value, env);
        var ok := ForceRenew(n, target, env);
        if !ok { return; }
      } else {
        var _ := RenewConsumer(n);
      }
      interruptions := interruptions[n := source];
    }

    method Reopen(n: Name)
      modifies this`terminal, this`stopped
      ensures Of(n) == if old(Of(n)).terminal then old(Of(n)).(terminal := false, stopped := false) else old(Of(n))
      ensures Only(n)
    {
      if n in terminal { terminal, stopped := terminal - {n}, stopped - {n}; }
    }

    method MarkActivity(n: Name)
      modifies this`interruptions, this`active, this`sequences
      ensures var s := old(Of(n));
        Of(n) == s.(interrupted := None, active := true,
            sequence := Some(1 + if s.sequence.Some? then s.sequence.value else 0))
      ensures Only(n)
    {
      interruptions, active := interruptions - {n}, active + {n};
      sequences := sequences[n := 1 + if n in sequences then sequences[n] else 0];
    }

    method HandleActivity(n: Name, e: Event, env: Env)
      modifies this
      ensures Of(n) == Presence.HandleActivity(old(Of(n)), e, env) && Only(n)
    {
      hide Presence.RenewForActivity, IsStart, Presence.BeginTurn;
      Reopen(n);
      if SourceOf(e).Some? && IsStart(e) { BeginTurn(n, SourceOf(e).value); }
      MarkActivity(n);
      RenewForActivity(n, SourceOf(e), env);
    }

    method HandleRuntime(n: Name, e: Event, env: Env)
      modifies this
      ensures Of(n) == Presence.HandleRuntime(old(Of(n)), e, env) && Only(n)
    {
      hide Presence.StopPresence, Presence.HandleActivity, Presence.HandleInterrupted, IsTerminal, IsActivity, IsStart;
      var source := SourceOf(e);
      if e.kind == "turn.interrupted" { HandleInterrupted(n, source, env); return; }
      if IsTerminal(e) { StopPresence(n, source, env); return; }
      if !IsActivity(e) { return; }
      if Suppressed(source) {
        ForgetActivity(n);
        return;
      }
      if n in terminal && !IsStart(e) { return; }
      HandleActivity(n, e, env);
    }

    method HandleDelivery(n: Name, o: Observation, env: Env)
      modifies this
      ensures Of(n) == Presence.HandleDelivery(old(Of(n)), o, env) && Only(n)
    {
      hide Presence.RememberOutbound, Presence.ForceRenew, Presence.Schedule;
      if !o.delivered || o.target.None? || !o.target.value.native || o.target.value.suppressed { return; }
      var t := if o.anchor.Some? then o.target.value.(anchor := o.anchor, lastOutbound := true) else o.target.value;
      RememberOutbound(n, t);
      if o.phase.Commentary? {
        if n !in active || n in terminal { return; }
        renewals := renewals - {n};
        var _ := ForceRenew(n, t, env);
      } else if o.phase.FinalAnswer? {
        renewals := renewals - {n};
      } else {
        Schedule(n, t);
      }
    }

    method ClearModes()
      modifies this`running, this`active, this`terminal, this`stopped, this`sequences, this`renewedAt
      ensures forall n :: Of(n) == old(Of(n)).(running := false, active := false, terminal := false, stopped := false,
                                               sequence := None, renewedAt := None)
    {
      running, active, terminal, stopped := false, {}, {}, {};
      ClearActivity();
    }

    method ClearActivity()
      modifies this`sequences, this`renewedAt
      ensures forall n :: Of(n) == old(Of(n)).(sequence := None, renewedAt := None)
    {
      sequences, renewedAt := map[], map[];
    }

    method ClearTargets()
      modifies this`turns, this`natives, this`anchors
      ensures forall n :: Of(n) == old(Of(n)).(turn := None, native := None, anchor := None)
    {
      turns, natives, anchors := map[], map[], map[];
    }

    method ClearAllTimers()
      modifies this`renewals, this`interruptions
      ensures forall n :: Of(n) == old(Of(n)).(renewal := None, interrupted := None)
    {
      renewals, interruptions := map[], map[];
    }

    method Stop()
      modifies this
      ensures history == old(history) && forall n :: Of(n) == Next(old(Of(n)), Shutdown)
    {
      ClearModes();
      ClearTargets();
      ClearAllTimers();
    }

    method ConsumerActivates(n: Name, t: Target)
      modifies this`consumer, this`beating
      ensures Of(n) == old(Of(n)).(consumer := Some(t), beating := true) && Only(n)
    {
      consumer, beating := consumer[n := t], beating + {n};
    }

    method ConsumerClears(n: Name)
      modifies this`consumer, this`beating
      ensures Of(n) == old(Of(n)).(consumer := None, beating := false) && Only(n)
    {
      consumer, beating := consumer - {n}, beating - {n};
    }

    /** One event of the gateway's subscriptions. */
    method Receive(n: Name, step: Step)
      requires IsEvent(step)
      modifies this
      ensures Of(n) == Presence.Receive(old(Of(n)), step) && Only(n)
    {
      hide Presence.HandleRuntime, Presence.HandleDelivery, Presence.StopPresence, Presence.Schedule;
      match step
      case Runtime(e, env) => HandleRuntime(n, e, env);
      case Observed(o, env) => HandleDelivery(n, o, env);
      case SilentResponse(t, env) => StopPresence(n, Some(t), env);
      case ResponseSent(t) => Schedule(n, t);
    }

    /** One step of one session. Timers fire only while pending, and events arrive only while running. */
    method TakeOn(n: Name, step: Step)
      requires !step.Shutdown?
      modifies this
      ensures Of(n) == Next(old(Of(n)), step) && Only(n)
    {
      hide Presence.Receive, Presence.FireRenewal, Presence.FireInterrupted;
      if IsEvent(step) {
        if running { Receive(n, step); }
      } else if step.RenewalTimer? {
        if n in renewals { FireRenewal(n, step.env); } else { NoTimer(Of(n), step.env); }
      } else if step.InterruptedTimer? {
        if n in interruptions { FireInterrupted(n, step.env); } else { NoTimer(Of(n), step.env); }
      } else if step.ConsumerActivates? {
        ConsumerActivates(n, step.t);
      } else if step.ConsumerClears? {
        ConsumerClears(n);
      } else {
        beating := beating - {n};
      }
    }

    method Take(act: Act)
      requires Valid() && IsAct(act)
      modifies this
      ensures Valid() && history == old(history) + [act]
    {
      hide Next, Presence.Run, Own;
      if act.StopAll? { Stop(); } else { TakeOn(act.session, act.step); }
      forall n ensures Run(IDLE, Own(old(history) + [act], n)) == Stepped(Run(IDLE, Own(old(history), n)), act, n) {
        OwnMore(old(history), act, n);
      }
      history := history + [act];
      FollowingAgrees(this);
    }
  }

  function Stepped(s: Session, act: Act, n: Name): (r: Session) {
    if act.StopAll? then Next(s, Shutdown) else if act.session == n then Next(s, act.step) else s
  }

  lemma OwnMore(acts: seq<Act>, act: Act, n: Name)
    ensures Run(IDLE, Own(acts + [act], n)) == Stepped(Run(IDLE, Own(acts, n)), act, n)
  {
    hide Next;
    var more := acts + [act];
    assert more[..|more| - 1] == acts;
    var step := if act.StopAll? then [Shutdown] else if act.session == n then [act.step] else [];
    RunAppends(IDLE, Own(acts, n), step);
    if step != [] { assert step[1..] == []; }
  }

  lemma FollowingAgrees(g: Gateway)
    requires g.Follows()
    ensures g.Agree()
  {
    forall n ensures Inv(g.Of(n)) {
      IdleHasInv();
      RunKeepsInv(IDLE, Own(g.history, n));
    }
    hide Presence.Run;
    SessionsAgree(g);
  }

  /** Seen from the sets and maps, the invariant of all sessions. */
  lemma SessionsAgree(g: Gateway)
    requires forall n :: Inv(g.Of(n))
    ensures g.Agree()
  {
    forall n
      ensures !(n in g.active && n in g.terminal) && (n in g.stopped ==> n in g.terminal)
      ensures !(n in g.renewals && n in g.terminal) && !(n in g.interruptions && n in g.terminal)
      ensures n in g.sequences <==> n in g.active
      ensures n in g.beating ==> n in g.consumer
      ensures n in g.terminal && n in g.turns ==> g.turns[n].active.None?
      ensures !g.running ==> n !in g.active && n !in g.terminal && n !in g.renewals && n !in g.interruptions
    {
      assert Inv(g.Of(n));
    }
  }

  /** However the sessions interleave, after a session's terminal event the gateway sends it no typing-on before its
      next start event. */
  lemma NoTypingInGateway(before: seq<Act>, n: Name, terminal: Step, after: seq<Act>)
    requires Ends(terminal)
    requires forall i | 0 <= i < |after| && after[i].On? && after[i].session == n :: !Reopens(after[i].step)
    ensures Quiet(Run(IDLE, Own(before, n)), Run(IDLE, Own(before + [On(n, terminal)] + after, n)))
  {
    hide Ends, Reopens, Presence.Run, Quiet;
    OwnAppends(before + [On(n, terminal)], after, n);
    assert (before + [On(n, terminal)])[..|before|] == before;
    OwnKeepsShut(after, n);
    NoTypingAfterTerminal(Own(before, n), terminal, Own(after, n));
  }

  lemma {:induction false} OwnAppends(a: seq<Act>, b: seq<Act>, n: Name)
    ensures Own(a + b, n) == Own(a, n) + Own(b, n)
    decreases |b|
  {
    if b == [] {
      assert a + b == a;
    } else {
      assert (a + b)[..|a + b| - 1] == a + b[..|b| - 1];
      OwnAppends(a, b[..|b| - 1], n);
    }
  }

  lemma {:induction false} OwnKeepsShut(acts: seq<Act>, n: Name)
    requires forall i | 0 <= i < |acts| && acts[i].On? && acts[i].session == n :: !Reopens(acts[i].step)
    ensures forall i | 0 <= i < |Own(acts, n)| :: !Reopens(Own(acts, n)[i])
    decreases |acts|
  {
    if acts != [] {
      OwnKeepsShut(acts[..|acts| - 1], n);
    }
  }

  lemma NoTimer(s: Session, env: Env)
    ensures s.renewal.None? ==> Presence.FireRenewal(s, env) == s
    ensures s.interrupted.None? ==> Presence.FireInterrupted(s, env) == s
  {
  }

  lemma AnchorKeepsTurn(s: Session, t: Target)
    ensures Presence.RememberAnchor(s, t) == s.(anchor := Presence.RememberAnchor(s, t).anchor)
  {
  }

  lemma NotRenewedIsUnchanged(s: Session, t: Target)
    ensures !Presence.RenewIfCurrent(s, t).ok ==> Presence.RenewIfCurrent(s, t).s == s
  {
  }
}
