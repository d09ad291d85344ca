/** What becomes of a kill: it reaches the wire at most once, now or at readiness, unless the process exits first. */
module RemoteKills {
  import opened Tables
  import opened RemoteProcess

  /** No kill was accepted yet; or one waits for readiness; or it was sent or dropped for good. */
  predicate KillInv(s: Proc) {
    && |s.kills| <= 1 && (!s.killed ==> s.kills == [] && s.pendingKill.None?)
    && (s.pendingKill.Some? ==> s.killed && !s.ready && s.kills == [] && s.exitCode.None?)
  }

  lemma StepKeepsKills(s: Proc, step: Step)
    requires KillInv(s)
    ensures var r := Next(s, step);
      && KillInv(r) && (s.killed ==> r.killed)
      && (r.kills != s.kills ==>
            |r.kills| == 1 && (s.pendingKill == Some(r.kills[0]) || (step.DoKill? && r.kills[0] == step.signal)))
      && (r.pendingKill.Some? && r.pendingKill != s.pendingKill ==> step.DoKill? && r.pendingKill.value == step.signal)
  {
    hide Failed, Flushed, RemoteProcess.Sent;
  }

  /** Some kill of the run asked for this signal. */
  ghost predicate Asked(steps: seq<Step>, signal: nat) {
    exists i :: 0 <= i < |steps| && steps[i].DoKill? && steps[i].signal == signal
  }

  /** In every run at most one kill reaches the wire, it is one that was asked for, and so is the one that waits. */
  lemma {:induction false} OneKillAtMost(steps: seq<Step>)
    ensures var s := Run(START, steps);
      && KillInv(s) && (s.kills != [] ==> Asked(steps, s.kills[0]))
      && (s.pendingKill.Some? ==> Asked(steps, s.pendingKill.value))
    decreases |steps|
  {
    if steps != [] {
      var before, last := steps[..|steps| - 1], steps[|steps| - 1];
      assert steps == before + [last];
      OneKillAtMost(before);
      RunAppends(START, before, [last]);
      StepKeepsKills(Run(START, before), last);
      forall signal | Asked(before, signal) ensures Asked(steps, signal) {
        var i :| 0 <= i < |before| && before[i].DoKill? && before[i].signal == signal;
        assert steps[i] == before[i];
      }
      assert steps[|steps| - 1] == last;
      hide Next;
      assert Run(Run(START, before), [last]) == Next(Run(START, before), last);
    }
  }

  /** Readiness comes before the process exits. Exit messages and the timer count only while they are watched for. */
  predicate Outlives(watching: bool, steps: seq<Step>)
    decreases |steps|
  {
    if steps == [] || steps[0].DoFail? then false
    else if steps[0].DoReady? then true
    else if watching && (steps[0].DoExit? || steps[0].DoTimeout?) then false
    else Outlives(watching, steps[1..])
  }

  /** Neither readiness nor an exit comes. */
  predicate Idle(watching: bool, steps: seq<Step>) {
    forall i | 0 <= i < |steps| ::
      !steps[i].DoReady? && !steps[i].DoFail? && (watching ==> !steps[i].DoExit? && !steps[i].DoTimeout?)
  }

  ghost predicate KillsWork(steps: seq<Step>) {
    forall i | 0 <= i < |steps| && steps[i].DoReady? :: steps[i].killOk
  }

  /** A kill once sent or dropped stays so. */
  lemma {:induction false} SettledKillStays(s: Proc, steps: seq<Step>)
    requires KillInv(s) && s.killed && s.pendingKill.None?
    ensures Run(s, steps).kills == s.kills && Run(s, steps).killed && Run(s, steps).pendingKill.None?
    decreases |steps|
  {
    if steps != [] {
      StepKeepsKills(s, steps[0]);
      SettledKillStep(s, steps[0]);
      SettledKillStays(Next(s, steps[0]), steps[1..]);
    }
  }

  lemma SettledKillStep(s: Proc, step: Step)
    requires s.killed && s.pendingKill.None?
    ensures var r := Next(s, step); r.kills == s.kills && r.pendingKill.None?
  {
    hide Failed, Flushed, RemoteProcess.Sent;
  }

  lemma PendingKillStep(s: Proc, step: Step)
    requires KillInv(s) && s.pendingKill.Some? && (step.DoReady? ==> step.killOk)
    ensures var r := Next(s, step);
      if step.DoReady? then r.kills == [s.pendingKill.value] && r.pendingKill.None?
      else if step.DoFail? || (s.watching && (step.DoExit? || step.DoTimeout?)) then
        r.kills == [] && r.pendingKill.None?
      else r.kills == [] && r.pendingKill == s.pendingKill && r.watching == s.watching
  {
    hide Failed, Flushed, RemoteProcess.Sent;
  }

  /** A waiting kill is sent at readiness if that comes before the exit, and else never. */
  lemma {:induction false} WaitingKillIsSent(s: Proc, steps: seq<Step>)
    requires KillInv(s) && s.pendingKill.Some? && KillsWork(steps)
    ensures Run(s, steps).kills == if Outlives(s.watching, steps) then [s.pendingKill.value] else []
    ensures Run(s, steps).pendingKill == if Idle(s.watching, steps) then s.pendingKill else None
    decreases |steps|
  {
    if steps != [] {
      hide Next, KillInv;
      var s' := Next(s, steps[0]);
      StepKeepsKills(s, steps[0]);
      PendingKillStep(s, steps[0]);
      KillStaysAccepted(s, steps[0]);
      if s'.pendingKill.Some? {
        WaitingKillIsSent(s', steps[1..]);
        assert steps == [steps[0]] + steps[1..];
      } else {
        SettledKillStays(s', steps[1..]);
      }
    }
  }

  lemma KillStaysAccepted(s: Proc, step: Step)
    requires KillInv(s) && s.pendingKill.Some?
    ensures Next(s, step).killed
  {
    hide Failed, Flushed, RemoteProcess.Sent;
  }

  /** In every run, the first kill of a live process whose publishes work reaches the wire, and no other kill does: at
      once if the worker is ready, else at readiness, unless the process exits before that. */
  lemma KillReachesWire(before: seq<Step>, signal: nat, after: seq<Step>)
    requires !Run(START, before).killed && Run(START, before).exitCode.None? && KillsWork(after)
    ensures var s := Run(START, before);
      var r := Run(START, before + [DoKill(signal, true)] + after);
      && r.kills == (if s.ready || Outlives(s.watching, after) then [signal] else [])
      && (r.pendingKill == Some(signal) <==> !s.ready && Idle(s.watching, after))
  {
    hide Next;
    var s, kill := Run(START, before), DoKill(signal, true);
    OneKillAtMost(before);
    RunAppends(START, before, [kill] + after);
    assert before + [kill] + after == before + ([kill] + after) && ([kill] + after)[1..] == after;
    StepKeepsKills(s, kill);
    AcceptedKill(s, signal);
    if s.ready { SettledKillStays(Next(s, kill), after); } else { WaitingKillIsSent(Next(s, kill), after); }
  }

  lemma AcceptedKill(s: Proc, signal: nat)
    requires KillInv(s) && !s.killed && s.exitCode.None?
    ensures var r := Next(s, DoKill(signal, true));
      && r.killed && r.watching == s.watching
      && (if s.ready then r.kills == [signal] && r.pendingKill.None?
          else r.kills == [] && r.pendingKill == Some(signal))
  {
  }

  /** A kill whose publish fails leaves everything as it was, so it can be asked for again. */
  lemma FailedKillChangesNothing(s: Proc, signal: nat)
    requires s.ready
    ensures Next(s, DoKill(signal, false)) == s
  {
  }
}
