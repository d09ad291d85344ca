/**
 What survives when presence handlers are not atomic. Each handler runs up to its first `await`; what it does
 afterwards is a continuation that resumes at any later time, between the steps of other handlers. Of the log only the
 typing-on entries are kept.
 */
module PresenceInterleaving {
  import opened Tables
  import opened Presence

  /** After the awaited sends of a stop; after a renewal the consumer did not take over, and then, for a turn
      interruption, its timer; after an interruption's renewal the consumer took over. */
  datatype Continuation = MarkStopped
                        | SendTypingOn(t: Target, now: int, interruption: Option<Option<Target>>)
                        | ScheduleStop(source: Option<Target>)

  datatype World = World(s: Session, waiting: seq<Continuation>)

  datatype DeliveryPhase = CommentarySent | FinalSent | OtherSent

  /** The start of a handler, a timer, or a continuation. `taken` says that the consumer's heartbeat took a renewal
      over, which it does before the first `await`. */
  datatype Turn = Stop(sends: bool) | Activity(e: Event, now: int, taken: bool)
                | Interrupt(source: Option<Target>, now: int, taken: bool)
                | Deliver(t: Target, phase: DeliveryPhase, now: int, taken: bool)
                | RenewalTimer(now: int, taken: bool) | InterruptedTimer | Resume(i: nat)

  /** The first, uninterrupted part of `stopPresenceForSession`. */
  function BeginStop(w: World, sends: bool): (r: World) {
    World(w.s.(active := false, terminal := true, renewedAt := None, sequence := None, renewal := None,
               interrupted := None),
          if sends then w.waiting + [MarkStopped] else w.waiting)
  }

  /** `forceRenewTyping` and the renewal of an activity: the consumer types at once, or the gateway does later. */
  function BeginRenewal(w: World, t: Target, now: int, taken: bool, interruption: Option<Option<Target>>): (r: World) {
    if !taken then w.(waiting := w.waiting + [SendTypingOn(t, now, interruption)])
    else
      World(w.s.(log := w.s.log + [Sent(t, true)], renewedAt := Some(now)),
            if interruption.Some? then w.waiting + [ScheduleStop(interruption.value)] else w.waiting)
  }

  predicate IsPlainActivity(e: Event) { e.kind != "turn.interrupted" && IsActivity(e) }

  function BeginActivity(w: World, e: Event, now: int, taken: bool): (r: World) {
    if !IsPlainActivity(e) then w
    else if Suppressed(SourceOf(e)) then w.(s := w.s.(active := false, renewedAt := None, sequence := None))
    else if w.s.terminal && !IsStart(e) then w
    else
      var live := w.(s := w.s.(terminal := false, stopped := w.s.stopped && !w.s.terminal, interrupted := None,
                               active := true,
                               sequence := Some(1 + if w.s.sequence.Some? then w.s.sequence.value else 0)));
      if SourceOf(e).Some? then BeginRenewal(live, SourceOf(e).value, now, taken, None) else live
  }

  function BeginInterrupt(w: World, source: Option<Target>, now: int, taken: bool): (r: World) {
    if w.s.terminal then w
    else if Suppressed(source) then BeginStop(w, true)
    else if source.None? then w.(waiting := w.waiting + [ScheduleStop(None)])
    else BeginRenewal(w, source.value, now, taken, Some(source))
  }

  function BeginDelivery(w: World, t: Target, phase: DeliveryPhase, now: int, taken: bool): (r: World) {
    if t.suppressed then w
    else match phase
      case OtherSent => w.(s := Schedule(w.s, t))
      case FinalSent => w.(s := w.s.(renewal := None))
      case CommentarySent =>
        if !w.s.active || w.s.terminal then w
        else BeginRenewal(w.(s := w.s.(renewal := None)), t, now, taken, None)
  }

  function BeginRenewalTimer(w: World, now: int, taken: bool): (r: World) {
    if w.s.renewal.None? then w
    else
      var fired := w.(s := w.s.(renewal := None));
      if RenewalDue(w.s) then BeginRenewal(fired, w.s.renewal.value.target, now, taken, None) else fired
  }

  function Continue(w: World, c: Continuation): (r: World) {
    match c
    case MarkStopped => w.(s := w.s.(stopped := true))
    case ScheduleStop(source) => w.(s := w.s.(interrupted := Some(source)))
    case SendTypingOn(t, now, interruption) =>
      World(w.s.(log := w.s.log + [Sent(t, true)], renewedAt := Some(now)),
            if interruption.Some? then w.waiting + [ScheduleStop(interruption.value)] else w.waiting)
  }

  function Take(w: World, turn: Turn): (r: World) {
    match turn
    case Stop(sends) => BeginStop(w, sends)
    case Activity(e, now, taken) => BeginActivity(w, e, now, taken)
    case Interrupt(source, now, taken) => BeginInterrupt(w, source, now, taken)
    case Deliver(t, phase, now, taken) => BeginDelivery(w, t, phase, now, taken)
    case RenewalTimer(now, taken) => BeginRenewalTimer(w, now, taken)
    case InterruptedTimer =>
      if w.s.interrupted.None? then w else BeginStop(w.(s := w.s.(interrupted := None)), true)
    case Resume(i) =>
      if i < |w.waiting| then Continue(w.(waiting := w.waiting[..i] + w.waiting[i + 1..]), w.waiting[i]) else w
  }

  function Run(w: World, turns: seq<Turn>): (r: World)
    decreases |turns|
  {
    if turns == [] then w else Run(Take(w, turns[0]), turns[1..])
  }

  const START := World(IDLE, [])

  /** Active and terminal stay disjoint, activity is counted exactly while active, and no post-delivery renewal is
      pending in a terminal session. */
  predicate Survives(s: Session) {
    !(s.active && s.terminal) && (s.active <==> s.sequence.Some?) && (s.terminal ==> s.renewal.None?)
  }

  lemma TurnSurvives(w: World, turn: Turn)
    requires Survives(w.s)
    ensures Survives(Take(w, turn).s)
  {
    hide IsPlainActivity, IsStart, Suppressed, SourceOf, RenewalDue;
  }

  /** In every interleaving at the awaits. */
  lemma {:induction false} EveryInterleavingSurvives(w: World, turns: seq<Turn>)
    requires Survives(w.s)
    ensures Survives(Run(w, turns).s)
    decreases |turns|
  {
    hide Take, Survives;
    if turns != [] {
      TurnSurvives(w, turns[0]);
      EveryInterleavingSurvives(Take(w, turns[0]), turns[1..]);
    }
  }

  // ---- the other properties, and exactly when they survive ----

  /** An activity turn that can reopen a terminal session. */
  predicate Starts(turn: Turn) {
    turn.Activity? && IsPlainActivity(turn.e) && IsStart(turn.e) && !Suppressed(SourceOf(turn.e))
  }

  predicate NoStart(turns: seq<Turn>) { forall i | 0 <= i < |turns| :: !Starts(turns[i]) }

  predicate WillType(c: Continuation) { c.SendTypingOn? }
  predicate WillMark(c: Continuation) { c.MarkStopped? }
  /** Resuming it sets the interruption timer, at once or after one more resumption. */
  predicate WillSchedule(c: Continuation) { c.ScheduleStop? || (c.SendTypingOn? && c.interruption.Some?) }

  predicate Lacks(waiting: seq<Continuation>, p: Continuation -> bool) { forall c | c in waiting :: !p(c) }

  lemma LacksLeft(waiting: seq<Continuation>, i: nat, p: Continuation -> bool)
    requires i < |waiting| && Lacks(waiting, p)
    ensures !p(waiting[i]) && Lacks(waiting[..i] + waiting[i + 1..], p)
  {
  }

  lemma TerminalTurn(w: World, turn: Turn)
    requires Survives(w.s) && w.s.terminal && !Starts(turn)
    ensures Take(w, turn).s.terminal
    ensures Lacks(w.waiting, WillType) ==> Lacks(Take(w, turn).waiting, WillType) && Take(w, turn).s.log == w.s.log
    ensures Lacks(w.waiting, WillSchedule) && w.s.interrupted.None? ==>
              Lacks(Take(w, turn).waiting, WillSchedule) && Take(w, turn).s.interrupted.None?
  {
    hide IsPlainActivity, IsStart, Suppressed, SourceOf, Lacks;
    match turn
    case Resume(i) =>
      if i < |w.waiting| {
        if Lacks(w.waiting, WillType) { LacksLeft(w.waiting, i, WillType); }
        if Lacks(w.waiting, WillSchedule) { LacksLeft(w.waiting, i, WillSchedule); }
      }
    case Stop(sends) =>
      LacksMore(w.waiting, MarkStopped, WillType);
      LacksMore(w.waiting, MarkStopped, WillSchedule);
    case InterruptedTimer =>
      LacksMore(w.waiting, MarkStopped, WillType);
    case _ =>
  }

  lemma LacksMore(waiting: seq<Continuation>, c: Continuation, p: Continuation -> bool)
    requires !p(c)
    ensures Lacks(waiting + [c], p) <==> Lacks(waiting, p)
  {
    if Lacks(waiting + [c], p) { assert forall x | x in waiting :: x in waiting + [c]; }
  }

  lemma {:induction false} TerminalRun(w: World, turns: seq<Turn>)
    requires Survives(w.s) && w.s.terminal && NoStart(turns)
    ensures Lacks(w.waiting, WillType) ==> Run(w, turns).s.log == w.s.log
    ensures Lacks(w.waiting, WillSchedule) && w.s.interrupted.None? ==> Run(w, turns).s.interrupted.None?
    decreases |turns|
  {
    hide Take, Lacks, Survives, Starts;
    if turns != [] {
      TurnSurvives(w, turns[0]);
      TerminalTurn(w, turns[0]);
      TerminalRun(Take(w, turns[0]), turns[1..]);
    }
  }

  /** A terminal session sends no typing-on before the next start if and only if no renewal was awaiting its send when
      it became terminal. */
  lemma QuietIffNoRenewalWaits(w: World)
    requires Survives(w.s) && w.s.terminal
    ensures Lacks(w.waiting, WillType) <==> forall turns | NoStart(turns) :: Run(w, turns).s.log == w.s.log
  {
    if Lacks(w.waiting, WillType) {
      forall turns | NoStart(turns) ensures Run(w, turns).s.log == w.s.log { TerminalRun(w, turns); }
    } else {
      var c :| c in w.waiting && WillType(c);
      var i :| 0 <= i < |w.waiting| && w.waiting[i] == c;
      RunOne(w, Resume(i));
      assert NoStart([Resume(i)]) && |Run(w, [Resume(i)]).s.log| == |w.s.log| + 1;
    }
  }

  lemma RunOne(w: World, turn: Turn)
    ensures Run(w, [turn]) == Take(w, turn)
  {
    hide Take;
    assert [turn][1..] == [];
  }

  /** A terminal session without an interruption timer gets none before the next start if and only if no interruption
      was awaiting its renewal. */
  lemma TimerFreeIffNoInterruptionWaits(w: World)
    requires Survives(w.s) && w.s.terminal && w.s.interrupted.None?
    ensures Lacks(w.waiting, WillSchedule) <==> forall turns | NoStart(turns) :: Run(w, turns).s.interrupted.None?
  {
    if Lacks(w.waiting, WillSchedule) {
      forall turns | NoStart(turns) ensures Run(w, turns).s.interrupted.None? { TerminalRun(w, turns); }
    } else {
      var c :| c in w.waiting && WillSchedule(c);
      var i :| 0 <= i < |w.waiting| && w.waiting[i] == c;
      var turns := InterruptionFinishes(w, i);
    }
  }

  /** Resuming the interruption, and then what it leaves waiting, sets the timer. */
  lemma InterruptionFinishes(w: World, i: nat) returns (turns: seq<Turn>)
    requires i < |w.waiting| && WillSchedule(w.waiting[i])
    ensures NoStart(turns) && Run(w, turns).s.interrupted.Some?
  {
    RunOne(w, Resume(i));
    if w.waiting[i].ScheduleStop? {
      turns := [Resume(i)];
    } else {
      var w1 := Take(w, Resume(i));
      var last := |w1.waiting| - 1;
      assert w1.waiting[last] == ScheduleStop(w.waiting[i].interruption.value);
      RunOne(w1, Resume(last));
      assert Take(w1, Resume(last)).s.interrupted.Some?;
      hide Take;
      turns := [Resume(i), Resume(last)];
      assert turns[1..] == [Resume(last)];
    }
  }

  predicate BeginsStop(turn: Turn) {
    turn.Stop? || turn.InterruptedTimer? || (turn.Interrupt? && Suppressed(turn.source))
  }

  predicate NoStop(turns: seq<Turn>) { forall i | 0 <= i < |turns| :: !BeginsStop(turns[i]) }

  lemma LiveTurn(w: World, turn: Turn)
    requires !w.s.terminal && !w.s.stopped && Lacks(w.waiting, WillMark) && !BeginsStop(turn)
    ensures !Take(w, turn).s.terminal && !Take(w, turn).s.stopped && Lacks(Take(w, turn).waiting, WillMark)
  {
    hide IsPlainActivity, IsStart, SourceOf, RenewalDue;
    match turn
    case Resume(i) => if i < |w.waiting| { LacksLeft(w.waiting, i, WillMark); }
    case _ =>
  }

  lemma {:induction false} LiveRun(w: World, turns: seq<Turn>)
    requires !w.s.terminal && !w.s.stopped && Lacks(w.waiting, WillMark) && NoStop(turns)
    ensures !Run(w, turns).s.stopped
    decreases |turns|
  {
    hide Take, Lacks, BeginsStop;
    if turns != [] {
      LiveTurn(w, turns[0]);
      LiveRun(Take(w, turns[0]), turns[1..]);
    }
  }

  /** A reopened session stays unmarked until its next stop if and only if no stop was still awaiting its sends when it
      was reopened. */
  lemma UnmarkedIffNoStopWaits(w: World)
    requires !w.s.terminal && !w.s.stopped
    ensures Lacks(w.waiting, WillMark) <==> forall turns | NoStop(turns) :: !Run(w, turns).s.stopped
  {
    if Lacks(w.waiting, WillMark) {
      forall turns | NoStop(turns) ensures !Run(w, turns).s.stopped { LiveRun(w, turns); }
    } else {
      var c :| c in w.waiting && WillMark(c);
      var i :| 0 <= i < |w.waiting| && w.waiting[i] == c;
      RunOne(w, Resume(i));
      assert NoStop([Resume(i)]) && Run(w, [Resume(i)]).s.stopped;
    }
  }

  /** Reopening clears the mark and leaves waiting whatever was waiting. */
  lemma StartReopens(w: World, turn: Turn)
    requires w.s.terminal && Starts(turn)
    ensures !Take(w, turn).s.terminal && !Take(w, turn).s.stopped
    ensures Lacks(Take(w, turn).waiting, WillMark) <==> Lacks(w.waiting, WillMark)
  {
    if SourceOf(turn.e).Some? {
      LacksMore(w.waiting, SendTypingOn(SourceOf(turn.e).value, turn.now, None), WillMark);
    }
  }

  // ---- runs in which they fail ----

  const BEGIN := Activity(Event("turn.started", "", "", Some(HERE), None), 0, false)

  lemma RunThree(w: World, a: Turn, b: Turn, c: Turn)
    ensures Run(w, [a, b, c]) == Take(Take(Take(w, a), b), c)
  {
    hide Take;
    assert [a, b, c][1..] == [b, c] && [b, c][1..] == [c];
    assert Run(Take(Take(w, a), b), [c]) == Take(Take(Take(w, a), b), c);
    assert Run(Take(w, a), [b, c]) == Run(Take(Take(w, a), b), [c]);
  }

  /** An activity handler that passed its check sends typing-on after the session became terminal. */
  lemma TypingAfterTerminal()
    ensures var w := Run(START, [BEGIN, Stop(true), Resume(0)]);
      w.s.terminal && w.s.log == [Sent(HERE, true)]
  {
    RunThree(START, BEGIN, Stop(true), Resume(0));
  }

  /** A stop that finishes after the next start marks a live session as stopped. */
  lemma StoppedButNotTerminal()
    ensures var w := Run(START, [Stop(true), BEGIN, Resume(0)]);
      w.s.stopped && !w.s.terminal && w.s.active
  {
    RunThree(START, Stop(true), BEGIN, Resume(0));
  }

  /** An interruption that resumes after the terminal event leaves its timer pending. */
  lemma TerminalWithTimer()
    ensures var w := Run(START, [Interrupt(Some(HERE), 0, true), Stop(false), Resume(0)]);
      w.s.terminal && w.s.interrupted == Some(Some(HERE))
  {
    RunThree(START, Interrupt(Some(HERE), 0, true), Stop(false), Resume(0));
  }
}
