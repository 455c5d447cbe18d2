/** The data destination: a listener that enqueues received warnings, a processor that counts them,
    and the ordered teardown of dd_destroy, over the blocking queue in which the processor sleeps. */
module Destination {
  import opened Basics
  import opened Queue
  import opened Mailbox
  import Q = TSQueue

  datatype Processor<W> = Waiting | Holding(w: W) | Exited

  /** How far dd_destroy has come. */
  datatype Teardown = NotStarted | SocketClosed | ListenerJoined | SentinelSent | ProcessorJoined

  datatype State<W> = State(
    received: seq<W>,              // every warning the listener has enqueued
    queue: Q.State<W>,
    processor: Processor<W>,
    count: nat,                    // warning_count
    processed: seq<W>,             // every warning the processor has counted
    listening: bool,
    teardown: Teardown)

  datatype Step<W> =
    | Receive(w: W, wake: Option<nat>)
    | ListenerReturns
    | Take
    | CountOne
    | SpuriousWake
    | Advance(wake: Option<nat>)   // the next statement of dd_destroy

  const PROCESSOR: nat := 0
  const LISTENER: nat := 1
  const DESTROYER: nat := 2

  predicate Enabled<W>(s: State<W>, step: Step<W>) {
    match step
    case Receive(w, wake) => s.listening && CanPut(s.queue, LISTENER, Some(w), wake)
    case ListenerReturns => s.listening && s.teardown != NotStarted
    case Take => s.processor.Waiting? && CanTake(s.queue, PROCESSOR)
    case CountOne => s.processor.Holding? && Q.Enabled(s.queue, Q.CallDequeue(PROCESSOR))
    case SpuriousWake => Q.Enabled(s.queue, Q.SpuriousConsumer(PROCESSOR))
    case Advance(wake) =>
      match s.teardown
      case NotStarted => true
      case SocketClosed => !s.listening                                        // join of the listener
      case ListenerJoined => CanPut(s.queue, DESTROYER, None, wake)            // enqueue of the sentinel
      case SentinelSent => s.processor.Exited?                                 // join of the processor
      case ProcessorJoined => false
  }

  function Next<W>(s: State<W>, step: Step<W>): State<W>
    requires Enabled(s, step)
  {
    match step
    case Receive(w, wake) =>
      s.(received := s.received + [w], queue := Put(s.queue, LISTENER, Some(w), wake))
    case ListenerReturns => s.(listening := false)
    case Take =>
      s.(queue := TakeNext(s.queue, PROCESSOR),
         processor := if s.queue.items == [] then Waiting
                      else match s.queue.items[0] case None => Exited case Some(w) => Holding(w))
    case CountOne =>
      s.(count := s.count + 1, processed := s.processed + [s.processor.w], processor := Waiting,
         queue := Q.Next(s.queue, Q.CallDequeue(PROCESSOR)))
    case SpuriousWake => s.(queue := Q.Next(s.queue, Q.SpuriousConsumer(PROCESSOR)))
    case Advance(wake) =>
      match s.teardown
      case NotStarted => s.(teardown := SocketClosed)
      case SocketClosed => s.(teardown := ListenerJoined)
      case ListenerJoined => s.(queue := Put(s.queue, DESTROYER, None, wake), teardown := SentinelSent)
      case SentinelSent => s.(teardown := ProcessorJoined)
  }

  /** The processor has entered its first dequeue. */
  function Init<W>(): State<W> {
    State([], Q.Init(0).(consAwake := {PROCESSOR}), Waiting, 0, [], true, NotStarted)
  }

  function InHand<W>(p: Processor<W>): seq<W> {
    if p.Holding? then [p.w] else []
  }

  /** Received warnings are counted, in hand or queued, in that order. */
  ghost predicate InOrder<W>(s: State<W>) {
    s.received == s.processed + InHand(s.processor) + Present(s.queue.items) && s.count == |s.processed|
  }

  /** A sentinel is in the queue only after the listener is gone, as the last item, until the processor
      takes it. */
  ghost predicate SentinelLast<W>(s: State<W>) {
    var items := s.queue.items;
    && (s.teardown in {ListenerJoined, SentinelSent, ProcessorJoined} ==> !s.listening)
    && (s.teardown in {NotStarted, SocketClosed, ListenerJoined} ==> None !in items && !s.processor.Exited?)
    && (s.teardown in {SentinelSent, ProcessorJoined} ==>
          if s.processor.Exited? then items == []
          else items != [] && items[|items| - 1] == None && None !in items[..|items| - 1])
    && (s.teardown == ProcessorJoined ==> s.processor.Exited?)
  }

  ghost function Inside<W>(p: Processor<W>): set<nat> {
    if p.Waiting? then {PROCESSOR} else {}
  }

  ghost predicate Inv<W>(s: State<W>) {
    Serving(s.queue, Inside(s.processor)) && InOrder(s) && SentinelLast(s)
  }

  lemma TakeKeepsInv<W>(s: State<W>)
    requires Inv(s) && Enabled(s, Take)
    ensures Inv(Next(s, Take))
  {
    TakeServes(s.queue, Inside(s.processor), PROCESSOR);
    if s.queue.items != [] {
      var items := s.queue.items;
      var first, rest := items[0], items[1..];
      assert items == [first] + rest;
      if first.None? {
        assert None in items;
        assert |items| == 1;
      } else if rest != [] {
        assert rest[..|rest| - 1] == items[..|items| - 1][1..];
      }
      Associative(s.processed, InHand(Next(s, Take).processor), Present(rest));
    }
  }

  lemma PutKeepsOrder<W>(s: State<W>, items: seq<Option<W>>, x: Option<W>)
    requires s.received == s.processed + InHand(s.processor) + Present(items)
    ensures s.received + (if x.Some? then [x.value] else [])
         == s.processed + InHand(s.processor) + Present(items + [x])
  {
    PresentAppend(items, [x]);
    assert [x][1..] == [];
    Associative(s.processed + InHand(s.processor), Present(items), if x.Some? then [x.value] else []);
  }

  lemma ReceiveKeepsInv<W>(s: State<W>, w: W, wake: Option<nat>)
    requires Inv(s) && Enabled(s, Receive(w, wake))
    ensures Inv(Next(s, Receive(w, wake)))
  {
    PutServes(s.queue, Inside(s.processor), LISTENER, Some(w), wake);
    PutKeepsOrder(s, s.queue.items, Some(w));
  }

  lemma AdvanceKeepsInv<W>(s: State<W>, wake: Option<nat>)
    requires Inv(s) && Enabled(s, Advance(wake))
    ensures Inv(Next(s, Advance(wake)))
  {
    if s.teardown == ListenerJoined {
      PutServes(s.queue, Inside(s.processor), DESTROYER, None, wake);
      PutKeepsOrder(s, s.queue.items, None);
      assert (s.queue.items + [None])[..|s.queue.items|] == s.queue.items;
    }
  }

  lemma StepKeepsInv<W>(s: State<W>, step: Step<W>)
    requires Inv(s) && Enabled(s, step)
    ensures Inv(Next(s, step))
  {
    match step
    case Receive(w, wake) => ReceiveKeepsInv(s, w, wake);
    case ListenerReturns =>
    case Take => TakeKeepsInv(s);
    case CountOne =>
      ReturnServes(s.queue, {}, PROCESSOR);
      Associative(s.processed, InHand(s.processor), Present(s.queue.items));
    case SpuriousWake => SpuriousServes(s.queue, Inside(s.processor), PROCESSOR);
    case Advance(wake) => AdvanceKeepsInv(s, wake);
  }

  // ---- What each step needs and does, in every reachable state ----

  /** The listener can receive any warning until it returns, which it does only once its socket has been
      closed; what it receives becomes the last item of the queue. */
  lemma ListenerLaw<W>(s: State<W>, w: W) returns (wake: Option<nat>)
    requires Inv(s)
    ensures Enabled(s, Receive(w, wake)) <==> s.listening
    ensures Enabled<W>(s, ListenerReturns) <==> s.listening && s.teardown != NotStarted
    ensures forall wake' :: Enabled(s, Receive(w, wake')) ==>
              var s' := Next(s, Receive(w, wake'));
              && s'.received == s.received + [w] && s'.queue.items == s.queue.items + [Some(w)]
              && s'.processor == s.processor && s'.count == s.count && s'.listening && s'.teardown == s.teardown
    ensures Enabled<W>(s, ListenerReturns) ==> Next(s, ListenerReturns) == s.(listening := false)
  {
    wake := SomePut(s.queue, Inside(s.processor), LISTENER, Some(w));
    forall wake' | Enabled(s, Receive(w, wake')) ensures Next(s, Receive(w, wake')).queue.items == s.queue.items + [Some(w)] {
      PutServes(s.queue, Inside(s.processor), LISTENER, Some(w), wake');
    }
  }

  /** The processor, awake in its dequeue, takes the first item: it holds a warning, leaves on NULL, and
      falls asleep when nothing is queued. */
  lemma TakeLaw<W>(s: State<W>)
    requires Inv(s)
    ensures Enabled<W>(s, Take) <==> PROCESSOR in s.queue.consAwake
    ensures Enabled<W>(s, Take) ==>
              var s' := Next(s, Take); var items := s.queue.items;
              && s'.queue.items == (if items == [] then [] else items[1..])
              && s'.processor == (if items == [] then Waiting else match items[0] case None => Exited case Some(w) => Holding(w))
              && s'.count == s.count && s'.received == s.received
  {
    if Enabled<W>(s, Take) {
      TakeServes(s.queue, Inside(s.processor), PROCESSOR);
    }
  }

  /** The processor counts the warning it holds, once, and goes back to the queue. */
  lemma CountLaw<W>(s: State<W>)
    requires Inv(s)
    ensures Enabled<W>(s, CountOne) <==> s.processor.Holding?
    ensures s.processor.Holding? ==>
              var s' := Next(s, CountOne);
              && s'.count == s.count + 1 && s'.processed == s.processed + [s.processor.w] && s'.processor == Waiting
              && s'.queue.items == s.queue.items && PROCESSOR in s'.queue.consAwake
  {
    if s.processor.Holding? {
      ReturnServes(s.queue, {}, PROCESSOR);
    }
  }

  /** dd_destroy: close the socket, join the listener, enqueue NULL, join the processor. */
  lemma TeardownLaw<W>(s: State<W>) returns (wake: Option<nat>)
    requires Inv(s)
    ensures Enabled(s, Advance(wake)) <==>
              match s.teardown
              case NotStarted => true
              case SocketClosed => !s.listening
              case ListenerJoined => true
              case SentinelSent => s.processor == Exited
              case ProcessorJoined => false
    ensures forall wake' :: Enabled(s, Advance(wake')) ==>
              var s' := Next(s, Advance(wake'));
              && (s.teardown == NotStarted ==> s'.teardown == SocketClosed)
              && (s.teardown == SocketClosed ==> !s.listening && s'.teardown == ListenerJoined)
              && (s.teardown == ListenerJoined ==> s'.teardown == SentinelSent && s'.queue.items == s.queue.items + [None])
              && (s.teardown != ListenerJoined ==> s'.queue == s.queue)
              && (s.teardown == SentinelSent ==> s.processor == Exited && s'.teardown == ProcessorJoined)
              && s'.processor == s.processor && s'.listening == s.listening && s'.count == s.count && s'.received == s.received
  {
    wake := SomePut(s.queue, Inside(s.processor), DESTROYER, None);
    forall wake' | s.teardown == ListenerJoined && Enabled(s, Advance(wake'))
      ensures Next(s, Advance(wake')).queue.items == s.queue.items + [None]
    {
      PutServes(s.queue, Inside(s.processor), DESTROYER, None, wake');
    }
  }

  lemma RunsFrom<W>(s: State<W>, step: Step<W>, rest: seq<Step<W>>)
    requires Enabled(s, step)
    ensures Runs(s, [step] + rest) <==> Runs(Next(s, step), rest)
    ensures Runs(Next(s, step), rest) ==> After(s, [step] + rest) == After(Next(s, step), rest)
    ensures Runs(s, [])
  {
    assert ([step] + rest)[1..] == rest;
  }

  ghost predicate Runs<W>(s: State<W>, steps: seq<Step<W>>)
    decreases |steps|
  {
    steps != [] ==> Enabled(s, steps[0]) && Runs(Next(s, steps[0]), steps[1..])
  }

  ghost function After<W>(s: State<W>, steps: seq<Step<W>>): State<W>
    requires Runs(s, steps)
    decreases |steps|
  {
    if steps == [] then s else After(Next(s, steps[0]), steps[1..])
  }

  lemma InitInv<W>()
    ensures Inv(Init<W>())
  {
    assert {PROCESSOR} + {} == {PROCESSOR};
  }

  lemma {:induction false} RunKeepsInv<W>(s: State<W>, steps: seq<Step<W>>)
    requires Inv(s) && Runs(s, steps)
    ensures Inv(After(s, steps))
    decreases |steps|
  {
    if steps != [] {
      StepKeepsInv(s, steps[0]);
      RunKeepsInv(Next(s, steps[0]), steps[1..]);
    }
  }

  /** At every state of every run, the warnings enqueued are those counted, at most one in hand, and
      those queued. */
  lemma CountAccounts<W>(steps: seq<Step<W>>)
    requires Runs(Init<W>(), steps)
    ensures var s := After(Init<W>(), steps);
            && |s.received| == s.count + |InHand(s.processor)| + |Present(s.queue.items)|
            && |InHand(s.processor)| <= 1
            && s.processed <= s.received
  {
    InitInv<W>();
    RunKeepsInv(Init(), steps);
  }

  /** Destination drain: after the processor has been joined, the count is the number of all warnings
      ever enqueued, they were counted in order, and the queue is empty. */
  lemma TeardownDrains<W>(steps: seq<Step<W>>)
    requires Runs(Init<W>(), steps) && After(Init<W>(), steps).teardown == ProcessorJoined
    ensures var s := After(Init<W>(), steps);
            s.processed == s.received && s.count == |s.received| && s.queue.items == []
  {
    InitInv<W>();
    RunKeepsInv(Init(), steps);
  }

  // ---- Progress of the teardown ----

  /** A step of the destination itself, not of the network or the scheduler. */
  predicate IsOwn<W>(step: Step<W>) {
    !step.Receive? && !step.SpuriousWake?
  }

  /** While dd_destroy has not finished, some step of the destination itself is enabled: the processor
      never sleeps beside the sentinel meant for it. */
  lemma TeardownProgress<W>(s: State<W>) returns (step: Step<W>)
    requires Inv(s) && s.teardown != ProcessorJoined
    ensures IsOwn(step) && Enabled(s, step)
  {
    if s.teardown == SocketClosed && s.listening {
      step := ListenerReturns;
    } else if s.teardown == SentinelSent && s.processor.Holding? {
      ReturnServes(s.queue, {}, PROCESSOR);
      step := CountOne;
    } else if s.teardown == SentinelSent && s.processor.Waiting? {
      var h := SomeTake(s.queue, {PROCESSOR});
      step := Take;
    } else {
      var wake := SomePut(s.queue, Inside(s.processor), DESTROYER, None);
      step := Advance(wake);
    }
  }

  /** Work left for the destination. */
  ghost function Measure<W>(s: State<W>): nat {
    3 * |s.queue.items| + (if s.processor.Holding? then 2 else 0) + |s.queue.consAwake|
    + (if s.listening then 1 else 0)
    + match s.teardown
      case NotStarted => 8 case SocketClosed => 7 case ListenerJoined => 6 case SentinelSent => 1 case ProcessorJoined => 0
  }

  /** Steps that a step of the network or the scheduler can add, itself included. */
  function Extra<W>(step: Step<W>): nat {
    if step.Receive? then 5 else if step.SpuriousWake? then 2 else 0
  }

  ghost function Extras<W>(steps: seq<Step<W>>): nat {
    if steps == [] then 0 else Extra(steps[0]) + Extras(steps[1..])
  }

  lemma TakeShrinks<W>(s: State<W>)
    requires Inv(s) && Enabled(s, Take)
    ensures Measure(Next(s, Take)) < Measure(s)
  {
    TakeServes(s.queue, Inside(s.processor), PROCESSOR);
  }

  lemma ReceiveExtra<W>(s: State<W>, w: W, wake: Option<nat>)
    requires Inv(s) && Enabled(s, Receive(w, wake))
    ensures Measure(Next(s, Receive(w, wake))) <= Measure(s) + 4
  {
    PutServes(s.queue, Inside(s.processor), LISTENER, Some(w), wake);
  }

  lemma AdvanceShrinks<W>(s: State<W>, wake: Option<nat>)
    requires Inv(s) && Enabled(s, Advance(wake))
    ensures Measure(Next(s, Advance(wake))) < Measure(s)
  {
    if s.teardown == ListenerJoined {
      PutServes(s.queue, Inside(s.processor), DESTROYER, None, wake);
    }
  }

  lemma StepShrinks<W>(s: State<W>, step: Step<W>)
    requires Inv(s) && Enabled(s, step)
    ensures 1 + Measure(Next(s, step)) <= Measure(s) + Extra(step)
  {
    match step
    case Receive(w, wake) => ReceiveExtra(s, w, wake);
    case ListenerReturns =>
    case Take => TakeShrinks(s);
    case CountOne => ReturnServes(s.queue, {}, PROCESSOR);
    case SpuriousWake => SpuriousServes(s.queue, Inside(s.processor), PROCESSOR);
    case Advance(wake) => AdvanceShrinks(s, wake);
  }

  /** The teardown ends: a run is no longer than its measure, the warnings still received and the
      spurious wakes allow, and one in which the destination can do nothing more has joined the
      processor. */
  lemma {:induction false} TeardownTerminates<W(!new)>(s: State<W>, steps: seq<Step<W>>)
    requires Inv(s) && Runs(s, steps)
    ensures |steps| + Measure(After(s, steps)) <= Measure(s) + Extras(steps)
    ensures (forall step :: IsOwn(step) ==> !Enabled(After(s, steps), step)) ==> After(s, steps).teardown == ProcessorJoined
    decreases |steps|
  {
    if steps == [] {
      if s.teardown != ProcessorJoined {
        var step := TeardownProgress(s);
      }
    } else {
      StepShrinks(s, steps[0]);
      StepKeepsInv(s, steps[0]);
      TeardownTerminates(Next(s, steps[0]), steps[1..]);
    }
  }
}
