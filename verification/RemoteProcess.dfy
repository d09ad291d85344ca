/**
 A process on a remote worker: stdin chunks are buffered until the worker is ready, then published; kill, exit,
 start-up failure and the inactivity timer may come at any time, and every publish may fail.
 Chunks are numbered by write order. The stream never writes or ends after its end.
 */
module RemoteProcess {
  import opened Tables

  datatype Msg = Data(id: nat) | Eof
  /** A write callback: which chunk, and whether it reported success. */
  datatype Call = Call(id: nat, ok: bool)

  datatype Proc = Proc(
    ready: bool, killed: bool, exitCode: Option<int>, pending: seq<nat>, pendingFinal: bool, pendingKill: Option<nat>,
    watching: bool,
    written: nat, ended: bool, wire: seq<Msg>, kills: seq<nat>, calls: seq<Call>, exits: seq<Option<int>>)
  const START := Proc(false, false, None, [], false, None, true, 0, false, [], [], [], [])

  // ---- operations ----

  function Write(s: Proc, ok: bool): (r: Proc) {
    if s.ended then s
    else
      var s1, id := s.(written := s.written + 1), s.written;
      if !s.ready then s1.(pending := s.pending + [id])
      else s1.(calls := s.calls + [Call(id, ok)], wire := if ok then s.wire + [Data(id)] else s.wire)
  }

  function End(s: Proc, ok: bool): (r: Proc) {
    if s.ended then s
    else if !s.ready then s.(ended := true, pendingFinal := true)
    else s.(ended := true, wire := if ok then s.wire + [Eof] else s.wire)
  }

  function CallOf(id: nat, lost: set<nat>): (c: Call) { Call(id, id !in lost) }

  /** The callbacks of a list of chunks when every publish outside `lost` succeeds. */
  function Flushed(ids: seq<nat>, lost: set<nat>): (r: seq<Call>)
    ensures |r| == |ids| && forall i | 0 <= i < |ids| :: r[i] == CallOf(ids[i], lost)
  {
    if ids == [] then [] else [CallOf(ids[0], lost)] + Flushed(ids[1..], lost)
  }

  /** What the successful publishes among `calls` put on the wire. */
  function Sent(calls: seq<Call>): (r: seq<Msg>) {
    if calls == [] then [] else (if calls[0].ok then [Data(calls[0].id)] else []) + Sent(calls[1..])
  }

  function Failed(ids: seq<nat>): (r: seq<Call>)
    ensures |r| == |ids| && forall i | 0 <= i < |ids| :: r[i] == Call(ids[i], false)
  {
    if ids == [] then [] else [Call(ids[0], false)] + Failed(ids[1..])
  }

  function FailPending(s: Proc): (r: Proc) {
    s.(pending := [], calls := s.calls + Failed(s.pending))
  }

  /** Readiness after an early kill: the buffered chunks fail and the kill is sent. */
  function ReadyKilled(s: Proc, signal: nat, killOk: bool): (r: Proc) {
    FailPending(s).(ready := true, pendingKill := None, pendingFinal := false,
                    kills := if killOk then s.kills + [signal] else s.kills)
  }

  function Flush(s: Proc, lost: set<nat>, eofOk: bool): (r: Proc) {
    var now := Flushed(s.pending, lost);
    s.(ready := true, pending := [], pendingFinal := false, calls := s.calls + now,
       wire := s.wire + Sent(now) + (if s.pendingFinal && eofOk then [Eof] else []))
  }

  function Ready(s: Proc, lost: set<nat>, eofOk: bool, killOk: bool): (r: Proc) {
    if s.exitCode.Some? then s
    else if s.pendingKill.Some? then ReadyKilled(s, s.pendingKill.value, killOk)
    else Flush(s, lost, eofOk)
  }

  /** A publish that throws leaves the process unkilled. */
  function Kill(s: Proc, signal: nat, ok: bool): (r: Proc) {
    if s.killed || s.exitCode.Some? then s
    else if !s.ready then s.(pendingKill := Some(signal), killed := true)
    else if ok then s.(kills := s.kills + [signal], killed := true)
    else s
  }

  function Exit(s: Proc, code: Option<int>): (r: Proc) {
    if s.exitCode.Some? then s
    else FailPending(s).(exitCode := code, pendingFinal := false, pendingKill := None, watching := false,
                         exits := s.exits + [code])
  }

  /** The exit subscription and the timer are dropped by the first exit of any kind. */
  function ExitMessage(s: Proc, code: Option<int>): (r: Proc) {
    if s.watching then Exit(s, code) else s
  }

  function Inactivity(s: Proc): (r: Proc) {
    if s.watching && s.exitCode.None? then Exit(s, Some(-1)) else s
  }

  function FailStartup(s: Proc): (r: Proc) {
    if s.exitCode.Some? then s else Exit(FailPending(s), Some(1))
  }

  // ---- runs ----

  datatype Step = DoWrite(ok: bool) | DoEnd(ok: bool) | DoReady(lost: set<nat>, eofOk: bool, killOk: bool)
                | DoKill(signal: nat, ok: bool) | DoExit(code: Option<int>) | DoTimeout | DoFail

  function Next(s: Proc, step: Step): (r: Proc) {
    match step
    case DoWrite(ok) => Write(s, ok)
    case DoEnd(ok) => End(s, ok)
    case DoReady(lost, eofOk, killOk) => Ready(s, lost, eofOk, killOk)
    case DoKill(signal, ok) => Kill(s, signal, ok)
    case DoExit(code) => ExitMessage(s, code)
    case DoTimeout => Inactivity(s)
    case DoFail => FailStartup(s)
  }

  function Run(s: Proc, steps: seq<Step>): (r: Proc)
    decreases |steps|
  {
    if steps == [] then s else Run(Next(s, steps[0]), steps[1..])
  }

  lemma {:induction false} RunAppends(s: Proc, a: seq<Step>, b: seq<Step>)
    ensures Run(s, a + b) == Run(Run(s, a), b)
    decreases |a|
  {
    hide Next;
    if a == [] {
      assert a + b == b;
    } else {
      RunAppends(Next(s, a[0]), a[1..], b);
      assert (a + b)[1..] == a[1..] + b;
    }
  }

  // ---- every chunk is accounted for, once and in order ----

  function Ids(calls: seq<Call>): (r: seq<nat>)
    ensures |r| == |calls| && forall i | 0 <= i < |calls| :: r[i] == calls[i].id
  {
    if calls == [] then [] else [calls[0].id] + Ids(calls[1..])
  }

  function UpTo(n: nat): (r: seq<nat>) { seq(n, i requires 0 <= i < n => i) }

  /** The chunks called back, then the chunks pending, are exactly the chunks written, in write order; the wire holds
      exactly the chunks called back with success, in that order, with end-of-input after all of them. */
  ghost predicate Accounted(s: Proc) {
    && Ids(s.calls) + s.pending == UpTo(s.written)
    && (s.wire == Sent(s.calls) || (s.wire == Sent(s.calls) + [Eof] && s.ended && s.ready))
    && (s.ready ==> s.pending == [] && !s.pendingFinal)
    && (!s.ready ==> s.wire == [])
    && (s.pendingFinal ==> s.ended)
  }

  lemma {:induction false} SentAppends(a: seq<Call>, b: seq<Call>)
    ensures Sent(a + b) == Sent(a) + Sent(b)
    decreases |a|
  {
    if a == [] {
      assert a + b == b && Sent(a) + Sent(b) == Sent(b);
    } else {
      var first, rest := if a[0].ok then [Data(a[0].id)] else [], a[1..];
      assert (a + b)[0] == a[0] && (a + b)[1..] == rest + b;
      SentAppends(rest, b);
      assert Sent(a) == first + Sent(rest) && Sent(a + b) == first + Sent(rest + b);
      assert first + (Sent(rest) + Sent(b)) == (first + Sent(rest)) + Sent(b);
    }
  }

  lemma {:induction false} FailedSendsNothing(ids: seq<nat>)
    ensures Sent(Failed(ids)) == []
    decreases |ids|
  {
    if ids != [] { FailedSendsNothing(ids[1..]); }
  }

  lemma CallsAppend(a: seq<Call>, b: seq<Call>)
    ensures Ids(a + b) == Ids(a) + Ids(b) && Sent(a + b) == Sent(a) + Sent(b)
  {
    SentAppends(a, b);
  }

  lemma UpToGrows(n: nat)
    ensures UpTo(n + 1) == UpTo(n) + [n]
  {
  }

  lemma FailPendingKeeps(s: Proc)
    ensures var r := FailPending(s);
      Ids(r.calls) == Ids(s.calls) + s.pending && Sent(r.calls) == Sent(s.calls)
  {
    CallsAppend(s.calls, Failed(s.pending));
    FailedSendsNothing(s.pending);
    assert Ids(Failed(s.pending)) == s.pending;
  }

  lemma WriteKeeps(s: Proc, ok: bool)
    requires Accounted(s)
    ensures Accounted(Write(s, ok))
  {
    UpToGrows(s.written);
    CallsAppend(s.calls, [Call(s.written, ok)]);
    assert Ids([Call(s.written, ok)]) == [s.written];
    assert Sent([Call(s.written, ok)]) == if ok then [Data(s.written)] else [];
    assert Ids(s.calls) + (s.pending + [s.written]) == (Ids(s.calls) + s.pending) + [s.written];
  }

  lemma FlushKeeps(s: Proc, lost: set<nat>, eofOk: bool)
    requires Accounted(s)
    ensures Accounted(Flush(s, lost, eofOk))
  {
    var now := Flushed(s.pending, lost);
    CallsAppend(s.calls, now);
    assert Ids(now) == s.pending;
    if s.ready {
      assert s.calls + now == s.calls && s.wire + Sent(now) + [] == s.wire;
    } else {
      hide Ids, Flushed, UpTo;
      assert s.wire + Sent(now) == Sent(now) && Sent(s.calls) + Sent(now) == Sent(now);
      assert Sent(now) + [] == Sent(now);
    }
  }

  lemma ReadyKeeps(s: Proc, lost: set<nat>, eofOk: bool, killOk: bool)
    requires Accounted(s)
    ensures Accounted(Ready(s, lost, eofOk, killOk))
  {
    hide Flush, Sent, Ids;
    FailPendingKeeps(s);
    if s.ready { assert s.calls + [] == s.calls; }
    FlushKeeps(s, lost, eofOk);
  }

  lemma ExitKeeps(s: Proc, code: Option<int>)
    requires Accounted(s)
    ensures Accounted(Exit(s, code)) && Accounted(FailPending(s))
  {
    FailPendingKeeps(s);
  }

  lemma StepKeepsAccounted(s: Proc, step: Step)
    requires Accounted(s)
    ensures Accounted(Next(s, step))
  {
    hide Write, Ready, Exit, FailPending, Ids, UpTo;
    match step
    case DoWrite(ok) => WriteKeeps(s, ok);
    case DoReady(lost, eofOk, killOk) => ReadyKeeps(s, lost, eofOk, killOk);
    case DoExit(code) => ExitKeeps(s, code);
    case DoTimeout => ExitKeeps(s, Some(-1));
    case DoFail => ExitKeeps(s, None); ExitKeeps(FailPending(s), Some(1));
    case _ =>
  }

  lemma {:induction false} RunKeepsAccounted(s: Proc, steps: seq<Step>)
    requires Accounted(s)
    ensures Accounted(Run(s, steps))
    decreases |steps|
  {
    hide Next, Accounted;
    if steps != [] {
      StepKeepsAccounted(s, steps[0]);
      RunKeepsAccounted(Next(s, steps[0]), steps[1..]);
    }
  }

  predicate Published(s: Proc, id: nat) { Data(id) in s.wire }
  predicate HasFailed(s: Proc, id: nat) { Call(id, false) in s.calls }

  function CallsFor(calls: seq<Call>, id: nat): (n: nat) {
    if calls == [] then 0 else (if calls[0].id == id then 1 else 0) + CallsFor(calls[1..], id)
  }

  lemma {:induction false} OneCallEach(calls: seq<Call>, start: nat, id: nat)
    requires forall i | 0 <= i < |calls| :: calls[i].id == start + i
    ensures CallsFor(calls, id) == if start <= id < start + |calls| then 1 else 0
    ensures Data(id) in Sent(calls) <==> (start <= id < start + |calls| && calls[id - start].ok)
    decreases |calls|
  {
    if calls != [] {
      OneCallEach(calls[1..], start + 1, id);
    }
  }

  lemma ChunkOnce(s: Proc, id: nat)
    requires Accounted(s) && id < s.written
    ensures if id in s.pending then !Published(s, id) && !HasFailed(s, id) && CallsFor(s.calls, id) == 0
            else Published(s, id) != HasFailed(s, id) && CallsFor(s.calls, id) == 1
  {
    CallsThenPending(s);
    OneCallEach(s.calls, 0, id);
    assert Published(s, id) <==> Data(id) in Sent(s.calls);
    hide Accounted, Sent, CallsFor;
    if id < |s.calls| {
      assert s.calls[id] in s.calls;
    } else {
      assert s.pending[id - |s.calls|] == id;
    }
  }

  /** In every run each chunk is in exactly one of published, failed and pending, and its callback has fired exactly
      once unless it is pending, when it has not fired. */
  lemma EachChunkOnce(steps: seq<Step>, id: nat)
    requires id < Run(START, steps).written
    ensures var s := Run(START, steps);
      if id in s.pending then !Published(s, id) && !HasFailed(s, id) && CallsFor(s.calls, id) == 0
      else Published(s, id) != HasFailed(s, id) && CallsFor(s.calls, id) == 1
  {
    StartIsAccounted();
    hide Accounted, Published, HasFailed, CallsFor;
    RunKeepsAccounted(START, steps);
    ChunkOnce(Run(START, steps), id);
  }

  lemma StartIsAccounted()
    ensures Accounted(START)
  {
  }

  lemma CallsThenPending(s: Proc)
    requires Accounted(s)
    ensures |s.calls| + |s.pending| == s.written
    ensures forall i | 0 <= i < |s.calls| :: s.calls[i].id == i
    ensures forall i | 0 <= i < |s.pending| :: s.pending[i] == |s.calls| + i
  {
    var all := Ids(s.calls) + s.pending;
    assert |all| == s.written;
    assert forall i | 0 <= i < |s.calls| :: s.calls[i].id == all[i];
    assert forall i | 0 <= i < |s.pending| :: s.pending[i] == all[|s.calls| + i];
  }

  /** Published chunks keep write order and end-of-input is last. */
  lemma WireInWriteOrder(steps: seq<Step>, i: nat, j: nat)
    requires i < j < |Run(START, steps).wire|
    ensures var wire := Run(START, steps).wire;
      wire[i].Data? && (wire[j].Data? ==> wire[i].id < wire[j].id)
  {
    var s := Run(START, steps);
    RunKeepsAccounted(START, steps);
    CallsThenPending(s);
    SentIncreases(s.calls, 0);
  }

  lemma {:induction false} SentIncreases(calls: seq<Call>, start: nat)
    requires forall i | 0 <= i < |calls| :: calls[i].id == start + i
    ensures forall i | 0 <= i < |Sent(calls)| :: Sent(calls)[i].Data? && start <= Sent(calls)[i].id
    ensures forall i, j | 0 <= i < j < |Sent(calls)| :: Sent(calls)[i].id < Sent(calls)[j].id
    decreases |calls|
  {
    if calls != [] { SentIncreases(calls[1..], start + 1); }
  }

  // ---- when everything is published ----

  /** No kill and no exit of any kind. */
  predicate Calm(step: Step) { step.DoWrite? || step.DoEnd? }

  predicate PublishesWork(step: Step) {
    match step
    case DoWrite(ok) => ok
    case DoEnd(ok) => ok
    case DoReady(lost, eofOk, _) => lost == {} && eofOk
    case _ => true
  }

  function Chunks(start: nat, n: nat): (r: seq<Msg>)
    ensures |r| == n && forall i | 0 <= i < n :: r[i] == Data(start + i)
  {
    seq(n, i requires 0 <= i < n => Data(start + i))
  }

  function Everything(s: Proc): (r: seq<Msg>) { Chunks(0, s.written) + (if s.ended then [Eof] else []) }

  /** Not ready, nothing published and nothing killed or exited; or ready and all published. */
  ghost predicate OnTrack(s: Proc) {
    if s.ready then s.wire == Everything(s) && s.pending == [] && !s.pendingFinal && s.pendingKill.None?
    else s.pending == UpTo(s.written) && s.pendingFinal == s.ended && s.wire == [] && s.calls == []
         && s.exitCode.None? && s.pendingKill.None?
  }

  lemma {:induction false} SentAll(calls: seq<Call>, start: nat)
    requires forall i | 0 <= i < |calls| :: calls[i] == Call(start + i, true)
    ensures Sent(calls) == Chunks(start, |calls|)
    decreases |calls|
  {
    hide Chunks;
    if calls != [] {
      var rest := calls[1..];
      assert forall i | 0 <= i < |rest| :: rest[i] == calls[i + 1];
      SentAll(rest, start + 1);
      assert Sent(calls) == [Data(start)] + Sent(rest);
      assert [Data(start)] + Chunks(start + 1, |rest|) == Chunks(start, |calls|);
    }
  }

  lemma TrackedReady(s: Proc, killOk: bool)
    requires OnTrack(s)
    ensures OnTrack(Ready(s, {}, true, killOk)) && (!s.ready ==> Ready(s, {}, true, killOk).ready)
  {
    if s.ready {
      assert s.wire + Sent([]) + [] == s.wire && s.calls + [] == s.calls;
    } else {
      var now := Flushed(s.pending, {});
      SentAll(now, 0);
      assert s.wire + Sent(now) + (if s.pendingFinal then [Eof] else []) == Everything(s);
    }
  }

  /** Before readiness only writes and the end; from then on anything, as long as publishing works. */
  lemma TrackedStep(s: Proc, step: Step)
    requires OnTrack(s) && PublishesWork(step) && (s.ready || step.DoReady? || Calm(step))
    ensures OnTrack(Next(s, step)) && (s.ready || step.DoReady? ==> Next(s, step).ready)
  {
    match step
    case DoReady(_, _, killOk) => TrackedReady(s, killOk);
    case DoWrite(_) => assert Everything(s) + [Data(s.written)] == Everything(s.(written := s.written + 1)) || s.ended;
    case _ =>
  }

  lemma {:induction false} TrackedRun(s: Proc, steps: seq<Step>)
    requires OnTrack(s) && forall i | 0 <= i < |steps| :: PublishesWork(steps[i])
    requires s.ready || forall i | 0 <= i < |steps| :: Calm(steps[i])
    ensures OnTrack(Run(s, steps)) && (s.ready ==> Run(s, steps).ready)
    decreases |steps|
  {
    hide Next, PublishesWork, OnTrack;
    if steps != [] {
      TrackedStep(s, steps[0]);
      TrackedRun(Next(s, steps[0]), steps[1..]);
    }
  }

  /** With no kill or exit before readiness, and no publish that fails, all chunks ever written are published in
      order, followed by end-of-input iff the stream ended; kills and exits after readiness change nothing. */
  lemma AllPublished(before: seq<Step>, ready: Step, after: seq<Step>)
    requires var steps := before + [ready] + after; forall i | 0 <= i < |steps| :: PublishesWork(steps[i])
    requires (forall i | 0 <= i < |before| :: Calm(before[i])) && ready.DoReady?
    ensures var s := Run(START, before + [ready] + after); s.wire == Everything(s) && s.pending == []
  {
    hide Next, PublishesWork;
    var steps := before + [ready] + after;
    assert forall i | 0 <= i < |before| :: steps[i] == before[i];
    assert forall i | 0 <= i < |after| :: steps[|before| + 1 + i] == after[i];
    assert steps[|before|] == ready;
    var s := Run(START, before);
    assert START.pending == UpTo(0);
    TrackedRun(START, before);
    TrackedStep(s, ready);
    TrackedRun(Next(s, ready), after);
    assert steps == before + ([ready] + after) && ([ready] + after)[1..] == after;
    RunAppends(START, before, [ready] + after);
  }

  /** An exit with a code before readiness closes the process for good: nothing is ever published, and chunks written
      afterwards stay pending for ever, their callbacks never fired. */
  lemma {:induction false} NothingAfterEarlyExit(s: Proc, steps: seq<Step>)
    requires !s.ready && s.exitCode.Some?
    ensures var r := Run(s, steps);
      !r.ready && r.exitCode == s.exitCode && r.wire == s.wire && r.calls == s.calls && s.pending <= r.pending
    decreases |steps|
  {
    if steps != [] {
      var s' := Next(s, steps[0]);
      assert !s'.ready && s'.exitCode == s.exitCode && s'.wire == s.wire && s'.calls == s.calls &&
          s.pending <= s'.pending;
      hide Next;
      NothingAfterEarlyExit(s', steps[1..]);
    }
  }

  /** A kill before readiness fails every buffered chunk when the worker becomes ready. */
  lemma EarlyKillFailsBuffered(s: Proc, lost: set<nat>, eofOk: bool, killOk: bool, id: nat)
    requires s.pendingKill.Some? && s.exitCode.None? && id in s.pending
    ensures var r := Ready(s, lost, eofOk, killOk);
      HasFailed(r, id) && r.wire == s.wire && r.pending == []
  {
    var i :| 0 <= i < |s.pending| && s.pending[i] == id;
    assert FailPending(s).calls[|s.calls| + i] == Call(id, false);
  }

  // ---- exit reports ----

  predicate Fails(steps: seq<Step>) { exists i :: 0 <= i < |steps| && steps[i].DoFail? }

  /** What is reported, from the events alone: the first exit, and after a null exit message a start-up failure. */
  function Reported(steps: seq<Step>): (r: seq<Option<int>>)
    decreases |steps|
  {
    if steps == [] then []
    else match steps[0]
      case DoExit(None) => if Fails(steps[1..]) then [None, Some(1)] else [None]
      case DoExit(code) => [code]
      case DoTimeout => [Some(-1)]
      case DoFail => [Some(1)]
      case _ => Reported(steps[1..])
  }

  lemma {:induction false} NoMoreReports(s: Proc, steps: seq<Step>)
    requires s.exitCode.Some? && !s.watching
    ensures Run(s, steps).exits == s.exits
    decreases |steps|
  {
    if steps != [] {
      assert Next(s, steps[0]).exits == s.exits && Next(s, steps[0]).exitCode.Some? && !Next(s, steps[0]).watching;
      NoMoreReports(Next(s, steps[0]), steps[1..]);
    }
  }

  lemma {:induction false} AfterNullExit(s: Proc, steps: seq<Step>)
    requires s.exitCode.None? && !s.watching
    ensures Run(s, steps).exits == if Fails(steps) then s.exits + [Some(1)] else s.exits
    decreases |steps|
  {
    if steps != [] {
      var s' := Next(s, steps[0]);
      if steps[0].DoFail? {
        NoMoreReports(s', steps[1..]);
      } else {
        AfterNullExit(s', steps[1..]);
        assert Fails(steps) <==> Fails(steps[1..]) by {
          if Fails(steps) { var i :| 0 <= i < |steps| && steps[i].DoFail?; assert steps[1..][i - 1].DoFail?; }
        }
      }
    }
  }

  lemma {:induction false} ReportsFrom(s: Proc, steps: seq<Step>)
    requires s.exitCode.None? && s.watching
    ensures Run(s, steps).exits == s.exits + Reported(steps)
    decreases |steps|
  {
    if steps != [] {
      var s' := Next(s, steps[0]);
      match steps[0]
      case DoExit(None) => AfterNullExit(s', steps[1..]);
      case DoExit(Some(_)) => NoMoreReports(s', steps[1..]);
      case DoTimeout => NoMoreReports(s', steps[1..]);
      case DoFail => NoMoreReports(s', steps[1..]);
      case _ => ReportsFrom(s', steps[1..]);
    }
  }

  /** In every run the exit is reported at most twice, and at most once unless the first report is a null code. */
  lemma ExitReportedAtMostOnce(steps: seq<Step>)
    ensures var exits := Run(START, steps).exits;
      exits == Reported(steps) && |exits| <= 2 && (|exits| == 2 ==> exits == [None, Some(1)])
  {
    ReportsFrom(START, steps);
    ReportedShape(steps);
  }

  lemma {:induction false} ReportedShape(steps: seq<Step>)
    ensures |Reported(steps)| <= 1 || Reported(steps) == [None, Some(1)]
    decreases |steps|
  {
    if steps != [] { ReportedShape(steps[1..]); }
  }

  /** The null case: an exit message with a null code, then a start-up failure, is reported twice. */
  lemma NullExitReportedTwice()
    ensures Run(START, [DoExit(None), DoFail]).exits == [None, Some(1)]
  {
    ReportsFrom(START, [DoExit(None), DoFail]);
    assert [DoExit(None), DoFail][1..][0].DoFail?;
  }

  // ---- the process object ----

  class NatsProcess {
    var ready: bool
    var killed: bool
    var exitCode: Option<int>
    var pendingChunks: seq<nat>
    var pendingFinal: bool
    var pendingKill: Option<nat>
    var watching: bool
    var written: nat
    var ended: bool
    var wire: seq<Msg>
    var kills: seq<nat>
    var calls: seq<Call>
    var exits: seq<Option<int>>
    ghost var history: seq<Step>

    /** The process is where its steps lead. */
    ghost predicate Valid()
      reads this
    {
      View() == Run(START, history)
    }

    ghost function View(): (s: Proc)
      reads this
    {
      Proc(ready, killed, exitCode, pendingChunks, pendingFinal, pendingKill, watching, written, ended, wire, kills,
           calls, exits)
    }

    /** One call, event or timer. Between steps every chunk is accounted for. */
    method Take(step: Step)
      requires Valid()
      modifies this
      ensures Valid() && history == old(history) + [step] && Accounted(View())
    {
      hide Write, End, Ready, Kill, Exit, FailStartup, Run, Accounted;
      NextOfHistory(history, step);
      match step {
        case DoWrite(ok) => if !ended { StdinWrite(ok); } else { Ended(View(), ok); }
        case DoEnd(ok) => if !ended { StdinFinal(ok); } else { Ended(View(), ok); }
        case DoReady(lost, eofOk, killOk) => BecomeReady(lost, eofOk, killOk);
        case DoKill(signal, ok) => var _ := SendKill(signal, ok);
        case DoExit(code) => if watching { OnExit(code); }
        case DoTimeout => if watching && exitCode.None? { OnExit(Some(-1)); }
        case DoFail => StartupFailed();
      }
      history := history + [step];
      StartIsAccounted();
      RunKeepsAccounted(START, history);
    }

    constructor ()
      ensures Valid() && history == [] && View() == START
    {
      history := [];
      ready, killed, exitCode, pendingChunks, pendingFinal := false, false, None, [], false;
      pendingKill, watching, written, ended := None, true, 0, false;
      wire, kills, calls, exits := [], [], [], [];
    }

    method StdinWrite(ok: bool)
      requires !ended
      modifies this
      ensures history == old(history)
      ensures View() == Write(old(View()), ok)
    {
      var id := written;
      written := written + 1;
      if ready {
        if ok { wire := wire + [Data(id)]; }
        calls := calls + [Call(id, ok)];
      } else {
        pendingChunks := pendingChunks + [id];
      }
    }

    method StdinFinal(ok: bool)
      requires !ended
      modifies this
      ensures history == old(history)
      ensures View() == End(old(View()), ok)
    {
      ended := true;
      if !ready { pendingFinal := true; } else if ok { wire := wire + [Eof]; }
    }

    method FailPendingChunks()
      modifies this`pendingChunks, this`calls
      ensures View() == FailPending(old(View()))
    {
      hide Failed;
      var chunks, i := pendingChunks, 0;
      NothingFailed();
      while i < |chunks|
        invariant i <= |chunks| && pendingChunks == chunks && calls == old(calls) + Failed(chunks[..i])
      {
        FailedMore(chunks[..i], chunks[i]);
        assert chunks[..i + 1] == chunks[..i] + [chunks[i]];
        calls := calls + [Call(chunks[i], false)];
        i := i + 1;
      }
      assert chunks[..i] == chunks;
      pendingChunks := [];
    }

    method BecomeReady(lost: set<nat>, eofOk: bool, killOk: bool)
      modifies this
      ensures history == old(history)
      ensures View() == Ready(old(View()), lost, eofOk, killOk)
    {
      hide Flush, FailPending;
      if exitCode.Some? { return; }
      if pendingKill.Some? {
        FailPendingChunks();
        if killOk { kills := kills + [pendingKill.value]; }
        ready, pendingKill, pendingFinal := true, None, false;
      } else {
        FlushAll(lost, eofOk);
      }
    }

    method FlushAll(lost: set<nat>, eofOk: bool)
      modifies this`ready, this`pendingChunks, this`pendingFinal, this`wire, this`calls
      ensures View() == Flush(old(View()), lost, eofOk)
    {
      hide Flushed, Sent;
      ready := true;
      FlushChunks(lost);
      if pendingFinal && eofOk { wire := wire + [Eof]; }
      pendingFinal := false;
    }

    /** The flush loop of `ready`. */
    method FlushChunks(lost: set<nat>)
      modifies this`pendingChunks, this`wire, this`calls
      ensures var s, now := old(View()), Flushed(old(pendingChunks), lost);
        View() == s.(pending := [], calls := s.calls + now, wire := s.wire + Sent(now))
    {
      hide Flushed, Sent;
      var chunks, i := pendingChunks, 0;
      NothingFlushed(lost);
      while i < |chunks|
        invariant i <= |chunks| && pendingChunks == chunks
        invariant calls == old(calls) + Flushed(chunks[..i], lost)
        invariant wire == old(wire) + Sent(Flushed(chunks[..i], lost))
      {
        var id := chunks[i];
        FlushedMore(chunks[..i], id, lost);
        assert chunks[..i + 1] == chunks[..i] + [id];
        if id !in lost { wire := wire + [Data(id)]; }
        calls := calls + [CallOf(id, lost)];
        i := i + 1;
      }
      assert chunks[..i] == chunks;
      pendingChunks := [];
    }

    method SendKill(signal: nat, ok: bool) returns (sent: bool)
      modifies this
      ensures history == old(history)
      ensures View() == Kill(old(View()), signal, ok)
      ensures sent <==> !old(killed) && killed
    {
      if killed || exitCode.Some? { return false; }
      if !ready { pendingKill := Some(signal); } else if ok { kills := kills + [signal]; } else { return false; }
      killed := true;
      return true;
    }

    method OnExit(code: Option<int>)
      modifies this
      ensures history == old(history)
      ensures View() == Exit(old(View()), code)
    {
      hide FailPending;
      if exitCode.Some? { return; }
      FailPendingChunks();
      exitCode := code;
      pendingFinal, pendingKill, watching := false, None, false;
      exits := exits + [code];
    }

    method StartupFailed()
      modifies this
      ensures history == old(history)
      ensures View() == FailStartup(old(View()))
    {
      hide Exit, Failed;
      if exitCode.Some? { return; }
      FailPendingChunks();
      OnExit(Some(1));
    }
  }

  lemma NothingFailed()
    ensures Failed([]) == []
  {
  }

  lemma FailedMore(ids: seq<nat>, id: nat)
    ensures Failed(ids + [id]) == Failed(ids) + [Call(id, false)]
  {
  }

  lemma NothingFlushed(lost: set<nat>)
    ensures Flushed([], lost) == [] && Sent([]) == []
  {
  }

  lemma {:induction false} FlushedMore(ids: seq<nat>, id: nat, lost: set<nat>)
    ensures Flushed(ids + [id], lost) == Flushed(ids, lost) + [CallOf(id, lost)]
    ensures Sent(Flushed(ids + [id], lost)) == Sent(Flushed(ids, lost)) + if id in lost then [] else [Data(id)]
  {
    assert Flushed(ids + [id], lost) == Flushed(ids, lost) + [CallOf(id, lost)];
    SentAppends(Flushed(ids, lost), [CallOf(id, lost)]);
    assert Sent([CallOf(id, lost)]) == if id in lost then [] else [Data(id)];
  }

  lemma Ended(s: Proc, ok: bool)
    ensures s.ended ==> Write(s, ok) == s && End(s, ok) == s
  {
  }

  lemma NextOfHistory(history: seq<Step>, step: Step)
    ensures Run(START, history + [step]) == Next(Run(START, history), step)
  {
    hide Next;
    RunAppends(START, history, [step]);
    assert [step][1..] == [];
  }
}
