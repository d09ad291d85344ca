/**
 Several subscriptions merged into one stream: each pump filters its messages and pushes the accepted ones into a shared
 queue, and the consumer either takes the head or sleeps on a promise that a push resolves.
 */
module MergedStream {
  import opened Tables
  import opened NatsDedup

  /** A delivery: `internal` for subjects and replies the stream skips, `json` when the payload parses. */
  datatype Incoming = Incoming(message: Message, internal: bool, json: bool)

  /** An accepted message, stamped with its subscription and its place among that subscription's deliveries. */
  datatype Event = Event(sub: nat, place: nat, message: Message)

  /** `Asleep(resolved)`: awaiting the promise, resolved or not. `Idle`: at a yield, or not yet asked. */
  datatype Consumer = Idle | Asleep(resolved: bool) | Closed

  datatype State = State(queue: seq<Event>, consumer: Consumer, window: Window, done: bool,
                         taken: map<nat, nat>, checked: seq<Incoming>, accepted: seq<Event>, delivered: seq<Event>)
  const START := State([], Idle, EMPTY, false, map[], [], [], [])

  datatype Step = Pump(sub: nat, incoming: Incoming) | Ask | Wake | Close

  function Taken(s: State, sub: nat): (n: nat) { if sub in s.taken then s.taken[sub] else 0 }

  /** `queue.push(event); resolve?.()`. */
  function Push(s: State, e: Event): (r: State) {
    s.(queue := s.queue + [e], accepted := s.accepted + [e],
       consumer := if s.consumer.Asleep? then Asleep(true) else s.consumer)
  }

  function PumpOne(s: State, sub: nat, incoming: Incoming): (r: State) {
    if s.done then s
    else
      var s1 := s.(taken := s.taken[sub := Taken(s, sub) + 1]);
      if incoming.internal then s1
      else
        var s2 := s1.(window := Observe(s.window, incoming.message), checked := s.checked + [incoming]);
        if Duplicate(s.window, incoming.message) || !incoming.json then s2
        else Push(s2, Event(sub, Taken(s, sub), incoming.message))
  }

  /** One turn of the consumer loop: yield the head, or sleep. */
  function Turn(s: State): (r: State) {
    if s.done then s
    else if s.queue != [] then s.(consumer := Idle, queue := s.queue[1..], delivered := s.delivered + [s.queue[0]])
    else s.(consumer := Asleep(false))
  }

  function Next(s: State, step: Step): (r: State) {
    match step
    case Pump(sub, incoming) => PumpOne(s, sub, incoming)
    case Ask => if s.consumer.Idle? then Turn(s) else s
    case Wake => if s.consumer == Asleep(true) then Turn(s) else s
    case Close => if s.consumer.Idle? then s.(consumer := Closed, done := true) else s
  }

  function Run(s: State, steps: seq<Step>): (r: State)
    decreases |steps|
  {
    if steps == [] then s else Run(Next(s, steps[0]), steps[1..])
  }

  /** What the pumps bring, less what is marked internal, in the order of the steps. */
  function Arrivals(steps: seq<Step>): (checked: seq<Incoming>) {
    if steps == [] then []
    else Arrivals(steps[..|steps| - 1])
         + match steps[|steps| - 1]
           case Pump(_, incoming) => if incoming.internal then [] else [incoming]
           case _ => []
  }

  lemma {:induction false} RunOneMore(s: State, steps: seq<Step>, last: Step)
    ensures Run(s, steps + [last]) == Next(Run(s, steps), last)
    decreases |steps|
  {
    hide Next;
    if steps == [] {
      assert steps + [last] == [last] && [last][1..] == [];
      assert Run(Next(s, last), []) == Next(s, last);
    } else {
      assert (steps + [last])[1..] == steps[1..] + [last];
      RunOneMore(Next(s, steps[0]), steps[1..], last);
    }
  }

  /** In every run that does not close the stream the duplicate window sees exactly the arrivals, in order. */
  lemma {:induction false} EveryArrivalIsChecked(steps: seq<Step>)
    requires forall i | 0 <= i < |steps| :: !steps[i].Close?
    ensures var s := Run(START, steps); s.checked == Arrivals(steps) && !s.done && !s.consumer.Closed?
    decreases |steps|
  {
    if steps != [] {
      var before, last := steps[..|steps| - 1], steps[|steps| - 1];
      assert steps == before + [last];
      EveryArrivalIsChecked(before);
      RunOneMore(START, before, last);
      hide Observe, Duplicate, Run;
    }
  }

  /** A closed stream takes and yields nothing more. */
  lemma {:induction false} ClosedStays(s: State, steps: seq<Step>)
    requires s.done && s.consumer.Closed?
    ensures Run(s, steps) == s
    decreases |steps|
  {
    if steps != [] { ClosedStays(s, steps[1..]); }
  }

  // ---- invariants ----

  /** Nothing is lost, repeated or reordered between acceptance and delivery. */
  ghost predicate Conserves(s: State) { s.delivered + s.queue == s.accepted }

  /** The consumer never sleeps unsignalled on a non-empty queue. */
  ghost predicate NoLostWakeup(s: State) { s.consumer == Asleep(false) ==> s.queue == [] }

  /** Events of one subscription were accepted in the order the subscription delivered them, each at most once. */
  ghost predicate InSubscriptionOrder(s: State) {
    && (forall i | 0 <= i < |s.accepted| :: s.accepted[i].place < Taken(s, s.accepted[i].sub))
    && (forall i, j | 0 <= i < j < |s.accepted| && s.accepted[i].sub == s.accepted[j].sub ::
          s.accepted[i].place < s.accepted[j].place)
  }

  function Messages(checked: seq<Incoming>): (ms: seq<Message>)
    ensures |ms| == |checked|
  {
    seq(|checked|, i requires 0 <= i < |checked| => checked[i].message)
  }

  function Contents(events: seq<Event>): (ms: seq<Message>)
    ensures |ms| == |events|
  {
    seq(|events|, i requires 0 <= i < |events| => events[i].message)
  }

  /** The non-internal messages the duplicate window lets through and that parse, in order of arrival. */
  function LetThrough(checked: seq<Incoming>): (ms: seq<Message>) {
    if checked == [] then []
    else
      var before, last := checked[..|checked| - 1], checked[|checked| - 1];
      LetThrough(before)
      + if Duplicate(WindowAfter(EMPTY, Messages(before)), last.message) || !last.json then [] else [last.message]
  }

  ghost predicate AcceptsLetThrough(s: State) {
    s.window == WindowAfter(EMPTY, Messages(s.checked)) && Contents(s.accepted) == LetThrough(s.checked)
  }

  ghost predicate Inv(s: State) {
    Conserves(s) && NoLostWakeup(s) && InSubscriptionOrder(s) && AcceptsLetThrough(s)
  }

  lemma CheckOne(checked: seq<Incoming>, incoming: Incoming)
    ensures var more, w := checked + [incoming], WindowAfter(EMPTY, Messages(checked));
      && WindowAfter(EMPTY, Messages(more)) == Observe(w, incoming.message)
      && LetThrough(more) == LetThrough(checked)
                             + if Duplicate(w, incoming.message) || !incoming.json then [] else [incoming.message]
  {
    hide Observe, Duplicate;
    var more := checked + [incoming];
    assert more[..|more| - 1] == checked;
    assert Messages(more) == Messages(checked) + [incoming.message];
    assert Messages(more)[..|more| - 1] == Messages(checked);
  }

  lemma PushKeeps(s: State, e: Event)
    requires Conserves(s)
    ensures Conserves(Push(s, e)) && NoLostWakeup(Push(s, e)) &&
            Contents(Push(s, e).accepted) == Contents(s.accepted) + [e.message]
  {
  }

  lemma PumpKeepsOrder(s: State, sub: nat, incoming: Incoming)
    requires InSubscriptionOrder(s)
    ensures InSubscriptionOrder(PumpOne(s, sub, incoming))
  {
    hide Observe, Duplicate;
  }

  lemma PumpKeepsInv(s: State, sub: nat, incoming: Incoming)
    requires Inv(s)
    ensures Inv(PumpOne(s, sub, incoming))
  {
    hide InSubscriptionOrder, Observe, Duplicate, LetThrough, Push, Contents, WindowAfter, Messages;
    PumpKeepsOrder(s, sub, incoming);
    CheckOne(s.checked, incoming);
    var s2 := s.(taken := s.taken[sub := Taken(s, sub) + 1], window := Observe(s.window, incoming.message),
                 checked := s.checked + [incoming]);
    var e := Event(sub, Taken(s, sub), incoming.message);
    PushKeeps(s2, e);
    PushShape(s2, e);
    assert LetThrough(s.checked) + [] == LetThrough(s.checked);
  }

  lemma PushShape(s: State, e: Event)
    ensures var r := Push(s, e);
      r == s.(queue := r.queue, accepted := r.accepted, consumer := r.consumer)
  {
  }

  lemma TurnKeepsInv(s: State)
    requires Inv(s)
    ensures Inv(Turn(s))
  {
    hide InSubscriptionOrder, AcceptsLetThrough;
    if !s.done && s.queue != [] {
      assert s.delivered + [s.queue[0]] + s.queue[1..] == s.delivered + s.queue;
    }
    TurnShape(s);
  }

  lemma TurnShape(s: State)
    ensures var r := Turn(s);
      (InSubscriptionOrder(s) ==> InSubscriptionOrder(r)) && (AcceptsLetThrough(s) ==> AcceptsLetThrough(r))
  {
    hide LetThrough, Messages, Contents, WindowAfter;
  }

  /** In every interleaving of pumps and consumer. */
  lemma {:induction false} RunKeepsInv(s: State, steps: seq<Step>)
    requires Inv(s)
    ensures Inv(Run(s, steps))
    decreases |steps|
  {
    hide PumpOne, Turn, InSubscriptionOrder, AcceptsLetThrough;
    if steps != [] {
      match steps[0] {
        case Pump(sub, incoming) => PumpKeepsInv(s, sub, incoming);
        case Close => CloseKeepsInv(s);
        case _ => TurnKeepsInv(s);
      }
      RunKeepsInv(Next(s, steps[0]), steps[1..]);
    }
  }

  lemma CloseKeepsInv(s: State)
    requires Inv(s)
    ensures Inv(s.(consumer := Closed, done := true))
  {
    hide LetThrough, Messages, Contents, WindowAfter;
  }

  /** What the client received is, at every moment of every run, the first part of what was let through, in order. */
  lemma DeliveredInAcceptanceOrder(steps: seq<Step>)
    ensures var s := Run(START, steps);
      && s.delivered <= s.accepted && Contents(s.accepted) == LetThrough(s.checked)
      && (s.consumer == Asleep(false) ==> s.delivered == s.accepted)
      && (forall i, j | 0 <= i < j < |s.delivered| && s.delivered[i].sub == s.delivered[j].sub ::
            s.delivered[i].place < s.delivered[j].place)
  {
    RunKeepsInv(START, steps);
    var s := Run(START, steps);
    assert forall i | 0 <= i < |s.delivered| :: s.accepted[i] == s.delivered[i];
  }

  /** A client that keeps asking gets everything accepted: one wake-up if it sleeps, then one turn per event. */
  lemma {:induction false} AskingDrains(s: State)
    requires Inv(s) && !s.done && s.consumer.Idle?
    ensures var r := Run(s, seq(|s.queue|, i => Ask)); r.delivered == s.accepted && r.queue == [] && r.consumer.Idle?
    decreases |s.queue|
  {
    hide InSubscriptionOrder, AcceptsLetThrough;
    if s.queue != [] {
      TurnKeepsInv(s);
      AskingDrains(Turn(s));
      assert seq(|s.queue|, i => Ask)[1..] == seq(|s.queue| - 1, i => Ask);
    }
  }

  lemma SleeperWithWorkIsWoken(s: State)
    requires Inv(s) && !s.done && s.consumer.Asleep? && s.queue != []
    ensures Next(s, Wake).delivered == s.delivered + [s.queue[0]] && Next(s, Wake).consumer.Idle?
  {
  }

  // ---- the generator's shared variables ----

  class MergedSubscription {
    var queue: seq<Event>
    var consumer: Consumer
    var dedup: DedupWindow
    var done: bool
    var taken: map<nat, nat>
    ghost var checked: seq<Incoming>
    ghost var accepted: seq<Event>
    ghost var delivered: seq<Event>
    ghost var history: seq<Step>

    /** The stream is where its steps lead. */
    ghost predicate Valid()
      reads this, dedup
    {
      dedup.Valid() && View() == Run(START, history)
    }

    ghost function View(): (s: State)
      reads this, dedup
    {
      State(queue, consumer, dedup.View(), done, taken, checked, accepted, delivered)
    }

    constructor ()
      ensures Valid() && history == [] && View() == START && fresh(dedup)
    {
      queue, consumer, done, taken, checked, accepted, delivered := [], Idle, false, map[], [], [], [];
      history := [];
      dedup := new DedupWindow();
    }

    /** One step of a pump or of the consumer. Between steps nothing accepted is lost, repeated or reordered, and the
        consumer never sleeps unsignalled on a non-empty queue. */
    method Take(step: Step) returns (event: Option<Event>)
      requires Valid()
      modifies this, dedup
      ensures Valid() && history == old(history) + [step] && dedup == old(dedup)
      ensures delivered + queue == accepted && (consumer == Asleep(false) ==> queue == [])
      ensures delivered == old(delivered) + if event.Some? then [event.value] else []
    {
      hide PumpOne, Turn, Run, Inv;
      event := None;
      NextOfHistory(history, step);
      if step.Pump? {
        Pump(step.sub, step.incoming);
      } else if step.Close? {
        if consumer.Idle? { Close(); }
      } else if !done && (if step.Ask? then consumer.Idle? else consumer == Asleep(true)) {
        event := TakeTurn();
      } else {
        DoneTurns(View());
      }
      history := history + [step];
      assert Inv(View()) by { StartHasInv(); RunKeepsInv(START, history); }
      InvMeans(View());
    }

    method Pump(sub: nat, incoming: Incoming)
      requires dedup.Valid()
      modifies this, dedup
      ensures View() == PumpOne(old(View()), sub, incoming) && dedup == old(dedup) && dedup.Valid()
      ensures history == old(history) && delivered == old(delivered)
    {
      hide Observe, Duplicate;
      if done { return; }
      var place := if sub in taken then taken[sub] else 0;
      taken := taken[sub := place + 1];
      if incoming.internal { return; }
      var dup := dedup.IsDuplicate(incoming.message);
      checked := checked + [incoming];
      if dup || !incoming.json { return; }
      queue := queue + [Event(sub, place, incoming.message)];
      accepted := accepted + [Event(sub, place, incoming.message)];
      if consumer.Asleep? { consumer := Asleep(true); }
    }

    /** Runs the consumer until it yields an event or sleeps. */
    method TakeTurn() returns (event: Option<Event>)
      requires !done
      modifies this`queue, this`consumer, this`delivered
      ensures View() == Turn(old(View()))
      ensures delivered == old(delivered) + if event.Some? then [event.value] else []
      ensures event.Some? <==> old(queue) != []
    {
      if |queue| > 0 {
        event := Some(queue[0]);
        consumer, delivered, queue := Idle, delivered + [queue[0]], queue[1..];
      } else {
        event, consumer := None, Asleep(false);
      }
    }

    method Close()
      requires consumer.Idle?
      modifies this`consumer, this`done
      ensures View() == Next(old(View()), Step.Close)
    {
      consumer, done := Closed, true;
    }
  }

  lemma StartHasInv()
    ensures Inv(START)
  {
  }

  lemma InvMeans(s: State)
    requires Inv(s)
    ensures Conserves(s) && NoLostWakeup(s)
  {
  }

  lemma DoneTurns(s: State)
    ensures s.done ==> Turn(s) == s
  {
  }

  lemma {:induction false} RunAppends(s: State, a: seq<Step>, b: seq<Step>)
    ensures Run(s, a + b) == Run(Run(s, a), b)
    decreases |a|
  {
    hide Next;
    if a == [] {
      assert a + b == b;
    } else {
      assert (a + b)[1..] == a[1..] + b;
      RunAppends(Next(s, a[0]), a[1..], b);
    }
  }

  lemma NextOfHistory(history: seq<Step>, step: Step)
    ensures Run(START, history + [step]) == Next(Run(START, history), step)
  {
    hide Next;
    RunAppends(START, history, [step]);
    assert [step][1..] == [];
  }
}
