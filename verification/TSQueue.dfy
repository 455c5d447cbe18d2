/** The blocking queue as a step system. A step is one stay inside the critical section: from
    entering it, or waking inside it, to leaving it or going to sleep on a condition variable.
    Threads inside a call are either awake or asleep; which sleeper a wake reaches is arbitrary, and
    sleepers may also wake for no reason. */
module TSQueue {
  import opened Basics
  import Queue

  datatype State<X> = State(
    capacity: nat,                              // 0: unbounded
    items: seq<Option<X>>,
    consAwake: set<nat>, consAsleep: set<nat>,  // threads inside tsqueue_dequeue
    prodAwake: map<nat, Option<X>>, prodAsleep: map<nat, Option<X>>,  // inside tsqueue_enqueue, with their item
    enqueued: seq<Option<X>>, dequeued: seq<Option<X>>)               // history

  datatype Step<X> =
    | CallDequeue(t: nat)
    | RunDequeue(t: nat, wake: Option<nat>)
    | TryDequeue(wake: Option<nat>)
    | CallEnqueue(t: nat, x: Option<X>)
    | RunEnqueue(t: nat, wake: Option<nat>)
    | SpuriousConsumer(t: nat)
    | SpuriousProducer(t: nat)

  predicate Full<X>(s: State<X>) {
    s.capacity > 0 && |s.items| >= s.capacity
  }

  /** WakeConditionVariable reaches one sleeper if there is one. */
  predicate Wakes(asleep: set<nat>, wake: Option<nat>) {
    if asleep == {} then wake.None? else wake.Some? && wake.value in asleep
  }

  /** The step calls WakeConditionVariable. tsqueue_try_dequeue does so only for a non-NULL item. */
  predicate Signals<X>(s: State<X>, step: Step<X>) {
    match step
    case RunDequeue(_, _) => s.items != []
    case TryDequeue(_) => s.items != [] && s.items[0].Some?
    case RunEnqueue(_, _) => !Full(s)
    case _ => false
  }

  predicate Enabled<X>(s: State<X>, step: Step<X>) {
    match step
    case CallDequeue(t) => t !in s.consAwake && t !in s.consAsleep
    case RunDequeue(t, wake) =>
      t in s.consAwake && if Signals(s, step) then Wakes(s.prodAsleep.Keys, wake) else wake.None?
    case TryDequeue(wake) => if Signals(s, step) then Wakes(s.prodAsleep.Keys, wake) else wake.None?
    case CallEnqueue(t, x) => t !in s.prodAwake && t !in s.prodAsleep
    case RunEnqueue(t, wake) => t in s.prodAwake && if Signals(s, step) then Wakes(s.consAsleep, wake) else wake.None?
    case SpuriousConsumer(t) => t in s.consAsleep
    case SpuriousProducer(t) => t in s.prodAsleep
  }

  function WakeConsumer<X>(s: State<X>, wake: Option<nat>): State<X> {
    if wake.None? then s else
      s.(consAwake := s.consAwake + {wake.value}, consAsleep := s.consAsleep - {wake.value})
  }

  function WakeProducer<X>(s: State<X>, wake: Option<nat>): State<X>
    requires wake.Some? ==> wake.value in s.prodAsleep
  {
    if wake.None? then s else
      s.(prodAwake := s.prodAwake[wake.value := s.prodAsleep[wake.value]], prodAsleep := s.prodAsleep - {wake.value})
  }

  function TakeFirst<X>(s: State<X>): State<X>
    requires s.items != []
  {
    s.(items := s.items[1..], dequeued := s.dequeued + [s.items[0]])
  }

  function Next<X>(s: State<X>, step: Step<X>): State<X>
    requires Enabled(s, step)
  {
    match step
    case CallDequeue(t) => s.(consAwake := s.consAwake + {t})
    case RunDequeue(t, wake) =>
      if s.items == [] then s.(consAwake := s.consAwake - {t}, consAsleep := s.consAsleep + {t})
      else WakeProducer(TakeFirst(s).(consAwake := s.consAwake - {t}), wake)
    case TryDequeue(wake) =>
      if s.items == [] then s else WakeProducer(TakeFirst(s), wake)
    case CallEnqueue(t, x) => s.(prodAwake := s.prodAwake[t := x])
    case RunEnqueue(t, wake) =>
      var x := s.prodAwake[t];
      if Full(s) then s.(prodAwake := s.prodAwake - {t}, prodAsleep := s.prodAsleep[t := x])
      else WakeConsumer(s.(items := s.items + [x], enqueued := s.enqueued + [x], prodAwake := s.prodAwake - {t}), wake)
    case SpuriousConsumer(t) => WakeConsumer(s, Some(t))
    case SpuriousProducer(t) => WakeProducer(s, Some(t))
  }

  function Init<X>(capacity: nat): State<X> {
    State(capacity, [], {}, {}, map[], map[], [], [])
  }

  // ---- What each step needs and does ----

  lemma SomeWake(asleep: set<nat>) returns (wake: Option<nat>)
    ensures Wakes(asleep, wake)
  {
    wake := None;
    if asleep != {} {
      var t :| t in asleep;
      wake := Some(t);
    }
  }

  /** Any thread that is not inside a call can make one. */
  lemma CallLaw<X>(s: State<X>, t: nat, x: Option<X>)
    ensures Enabled(s, CallDequeue(t)) <==> t !in s.consAwake + s.consAsleep
    ensures Enabled(s, CallEnqueue(t, x)) <==> t !in s.prodAwake && t !in s.prodAsleep
    ensures Enabled(s, CallDequeue(t)) ==> Next(s, CallDequeue(t)) == s.(consAwake := s.consAwake + {t})
    ensures Enabled(s, CallEnqueue(t, x)) ==> Next(s, CallEnqueue(t, x)) == s.(prodAwake := s.prodAwake[t := x])
  {
  }

  /** tsqueue_enqueue: an awake producer can always run; it sleeps exactly when the queue is bounded and
      full, and otherwise its item becomes the last one and one sleeping consumer, if any, wakes. */
  lemma EnqueueLaw<X>(s: State<X>, t: nat) returns (wake: Option<nat>)
    requires t in s.prodAwake
    ensures Enabled(s, RunEnqueue(t, wake))
    ensures forall w :: Enabled(s, RunEnqueue(t, w)) ==>
              var s' := Next(s, RunEnqueue(t, w)); var x := s.prodAwake[t];
              if s.capacity > 0 && |s.items| >= s.capacity then
                s' == s.(prodAwake := s.prodAwake - {t}, prodAsleep := s.prodAsleep[t := x])
              else
                && s'.items == s.items + [x] && s'.prodAwake == s.prodAwake - {t} && s'.prodAsleep == s.prodAsleep
                && (s.consAsleep == {} ==> w == None && s'.consAsleep == {} && s'.consAwake == s.consAwake)
                && (s.consAsleep != {} ==> w.Some? && w.value in s.consAsleep
                                           && s'.consAsleep == s.consAsleep - {w.value} && s'.consAwake == s.consAwake + {w.value})
  {
    wake := SomeWake(if Full(s) then {} else s.consAsleep);
  }

  /** tsqueue_dequeue: an awake consumer can always run; it sleeps exactly when the queue is empty, and
      otherwise takes the first item and wakes one sleeping producer, if any. */
  lemma DequeueLaw<X>(s: State<X>, t: nat) returns (wake: Option<nat>)
    requires t in s.consAwake
    ensures Enabled(s, RunDequeue(t, wake))
    ensures forall w :: Enabled(s, RunDequeue(t, w)) ==>
              var s' := Next(s, RunDequeue(t, w));
              if s.items == [] then
                s' == s.(consAwake := s.consAwake - {t}, consAsleep := s.consAsleep + {t})
              else
                && s'.items == s.items[1..] && s'.dequeued == s.dequeued + [s.items[0]]
                && s'.consAwake == s.consAwake - {t} && s'.consAsleep == s.consAsleep
                && (s.prodAsleep == map[] ==> w == None && s'.prodAwake == s.prodAwake)
                && (s.prodAsleep != map[] ==> w.Some? && w.value in s.prodAsleep && s'.prodAsleep == s.prodAsleep - {w.value}
                                              && s'.prodAwake == s.prodAwake[w.value := s.prodAsleep[w.value]])
  {
    wake := SomeWake(if s.items == [] then {} else s.prodAsleep.Keys);
  }

  /** tsqueue_try_dequeue: always possible; takes the first item if there is one, and wakes a producer
      exactly if the item is not NULL. */
  lemma TryDequeueLaw<X>(s: State<X>) returns (wake: Option<nat>)
    ensures Enabled(s, TryDequeue(wake))
    ensures forall w :: Enabled(s, TryDequeue(w)) ==>
              var s' := Next(s, TryDequeue(w));
              && s'.items == (if s.items == [] then [] else s.items[1..])
              && s'.consAwake == s.consAwake && s'.consAsleep == s.consAsleep
              && (s.items == [] || s.items[0] == None || s.prodAsleep == map[] ==> w == None && s'.prodAsleep == s.prodAsleep)
              && (s.items != [] && s.items[0] != None && s.prodAsleep != map[] ==>
                    w.Some? && w.value in s.prodAsleep && s'.prodAsleep == s.prodAsleep - {w.value})
  {
    wake := SomeWake(if s.items == [] || s.items[0] == None then {} else s.prodAsleep.Keys);
  }

  // ---- Invariants ----

  /** FIFO: what was enqueued is what was dequeued, in order, followed by the contents. */
  ghost predicate Fifo<X>(s: State<X>) {
    s.enqueued == s.dequeued + s.items && (s.capacity > 0 ==> |s.items| <= s.capacity)
  }

  /** While a consumer sleeps, at least as many consumers are awake as there are items. */
  ghost predicate ConsumersServed<X>(s: State<X>) {
    s.consAwake !! s.consAsleep && (s.consAsleep != {} ==> |s.consAwake| >= |s.items|)
  }

  /** While a producer sleeps, at least as many producers are awake as there are free slots. */
  ghost predicate ProducersServed<X>(s: State<X>) {
    s.prodAwake.Keys !! s.prodAsleep.Keys && (s.prodAsleep != map[] ==> |s.prodAwake| >= s.capacity - |s.items|)
  }

  /** tsqueue_try_dequeue about to remove a NULL item: the one case that skips the wake. */
  predicate TakesNull<X>(s: State<X>, step: Step<X>) {
    step.TryDequeue? && s.items != [] && s.items[0].None?
  }

  /** The skipped wake was needed: a producer sleeps and the awake ones just cover the free slots. */
  ghost predicate SkipsNeededWake<X>(s: State<X>, step: Step<X>) {
    TakesNull(s, step) && s.prodAsleep != map[] && |s.prodAwake| == s.capacity - |s.items|
  }

  lemma FifoStep<X>(s: State<X>, step: Step<X>)
    requires Fifo(s) && Enabled(s, step)
    ensures Fifo(Next(s, step)) && Next(s, step).capacity == s.capacity
  {
    if (step.RunDequeue? || step.TryDequeue?) && s.items != [] {
      assert s.items == [s.items[0]] + s.items[1..];
    }
  }

  lemma ConsumersStep<X>(s: State<X>, step: Step<X>)
    requires ConsumersServed(s) && Enabled(s, step)
    ensures ConsumersServed(Next(s, step))
  {
    match step
    case CallDequeue(t) =>
      assert |s.consAwake + {t}| == |s.consAwake| + 1;
    case RunDequeue(t, wake) =>
      assert |s.consAwake - {t}| == |s.consAwake| - 1;
    case RunEnqueue(t, wake) =>
      if wake.Some? { assert |s.consAwake + {wake.value}| == |s.consAwake| + 1; }
    case SpuriousConsumer(t) =>
      assert |s.consAwake + {t}| == |s.consAwake| + 1;
    case _ =>
  }

  lemma ProducerLeaves<X>(m: map<nat, Option<X>>, t: nat)
    requires t in m
    ensures |m - {t}| == |m| - 1
  {
    assert (m - {t}).Keys == m.Keys - {t};
  }

  lemma ProducerJoins<X>(m: map<nat, Option<X>>, t: nat, x: Option<X>)
    requires t !in m
    ensures |m[t := x]| == |m| + 1
  {
    assert m[t := x].Keys == m.Keys + {t};
  }

  /** Removing an item with a wake keeps the producers served. */
  lemma DequeueServesProducers<X>(s: State<X>, wake: Option<nat>)
    requires ProducersServed(s) && s.items != [] && Wakes(s.prodAsleep.Keys, wake)
    ensures ProducersServed(WakeProducer(TakeFirst(s), wake))
  {
    if wake.Some? {
      ProducerJoins(s.prodAwake, wake.value, s.prodAsleep[wake.value]);
    }
  }

  /** Exactly when a step keeps the producers served. */
  lemma ProducersServedIff<X>(s: State<X>, step: Step<X>)
    requires ProducersServed(s) && Fifo(s) && Enabled(s, step)
    ensures ProducersServed(Next(s, step)) <==> !SkipsNeededWake(s, step)
  {
    match step
    case RunDequeue(t, wake) =>
      if s.items != [] { DequeueServesProducers(s.(consAwake := s.consAwake - {t}), wake); }
    case TryDequeue(wake) =>
      if s.items != [] && s.items[0].Some? { DequeueServesProducers(s, wake); }
    case CallEnqueue(t, x) => ProducerJoins(s.prodAwake, t, x);
    case RunEnqueue(t, wake) => ProducerLeaves(s.prodAwake, t);
    case SpuriousProducer(t) => ProducerJoins(s.prodAwake, t, s.prodAsleep[t]);
    case _ =>
  }

  // ---- Every run ----

  ghost predicate Runs<X>(s: State<X>, steps: seq<Step<X>>)
    decreases |steps|
  {
    steps != [] ==> Enabled(s, steps[0]) && Runs(Next(s, steps[0]), steps[1..])
  }

  ghost function After<X>(s: State<X>, steps: seq<Step<X>>): State<X>
    requires Runs(s, steps)
    decreases |steps|
  {
    if steps == [] then s else After(Next(s, steps[0]), steps[1..])
  }

  /** The state after the first k steps of a run. */
  ghost function StateAt<X>(s: State<X>, steps: seq<Step<X>>, k: nat): State<X>
    requires Runs(s, steps) && k <= |steps|
    decreases k
  {
    if k == 0 then s else StateAt(Next(s, steps[0]), steps[1..], k - 1)
  }

  lemma {:induction false} StateAtStep<X>(s: State<X>, steps: seq<Step<X>>, k: nat)
    requires Runs(s, steps) && k < |steps|
    ensures Enabled(StateAt(s, steps, k), steps[k])
    ensures StateAt(s, steps, k + 1) == Next(StateAt(s, steps, k), steps[k])
    decreases k
  {
    if k != 0 {
      StateAtStep(Next(s, steps[0]), steps[1..], k - 1);
    }
  }

  lemma {:induction false} StateAtEnd<X>(s: State<X>, steps: seq<Step<X>>)
    requires Runs(s, steps)
    ensures StateAt(s, steps, |steps|) == After(s, steps)
    decreases |steps|
  {
    if steps != [] {
      StateAtEnd(Next(s, steps[0]), steps[1..]);
    }
  }

  lemma {:induction false} RunKeeps<X>(s: State<X>, steps: seq<Step<X>>, k: nat)
    requires Runs(s, steps) && Fifo(s) && ConsumersServed(s) && k <= |steps|
    ensures var a := StateAt(s, steps, k); Fifo(a) && ConsumersServed(a) && a.capacity == s.capacity
    decreases k
  {
    if k != 0 {
      FifoStep(s, steps[0]);
      ConsumersStep(s, steps[0]);
      RunKeeps(Next(s, steps[0]), steps[1..], k - 1);
    }
  }

  /** FIFO linearizability and bound, in every run. */
  lemma FifoInEveryRun<X>(capacity: nat, steps: seq<Step<X>>)
    requires Runs(Init(capacity), steps)
    ensures var s := After(Init(capacity), steps);
            s.enqueued == s.dequeued + s.items && (capacity > 0 ==> |s.items| <= capacity)
  {
    RunKeeps(Init(capacity), steps, |steps|);
    StateAtEnd(Init(capacity), steps);
  }

  /** No lost wakeup for consumers, in every run: while any consumer sleeps, the awake ones number
      at least the items, so a non-empty queue never leaves all of them asleep. */
  lemma NoLostConsumerWakeup<X>(capacity: nat, steps: seq<Step<X>>)
    requires Runs(Init(capacity), steps)
    ensures var s := After(Init(capacity), steps);
            && (s.consAsleep != {} ==> |s.consAwake| >= |s.items|)
            && (s.items != [] && s.consAsleep != {} ==> s.consAwake != {})
  {
    RunKeeps(Init(capacity), steps, |steps|);
    StateAtEnd(Init(capacity), steps);
  }

  ghost predicate AlwaysServed<X>(s: State<X>, steps: seq<Step<X>>)
    requires Runs(s, steps)
  {
    forall k :: 0 <= k <= |steps| ==> ProducersServed(StateAt(s, steps, k))
  }

  ghost predicate NeverSkips<X>(s: State<X>, steps: seq<Step<X>>)
    requires Runs(s, steps)
  {
    forall k :: 0 <= k < |steps| ==> !SkipsNeededWake(StateAt(s, steps, k), steps[k])
  }

  lemma ServedNext<X>(s: State<X>, steps: seq<Step<X>>, k: nat)
    requires Runs(s, steps) && k < |steps| && Fifo(s) && ConsumersServed(s) && ProducersServed(StateAt(s, steps, k))
    ensures ProducersServed(StateAt(s, steps, k + 1)) <==> !SkipsNeededWake(StateAt(s, steps, k), steps[k])
  {
    StateAtStep(s, steps, k);
    RunKeeps(s, steps, k);
    ProducersServedIff(StateAt(s, steps, k), steps[k]);
  }

  lemma {:induction false} ServedUpTo<X>(s: State<X>, steps: seq<Step<X>>, k: nat)
    requires Runs(s, steps) && k <= |steps| && Fifo(s) && ConsumersServed(s) && ProducersServed(s) && NeverSkips(s, steps)
    ensures ProducersServed(StateAt(s, steps, k))
    decreases k
  {
    if k != 0 {
      ServedUpTo(s, steps, k - 1);
      ServedNext(s, steps, k - 1);
    }
  }

  /** No lost wakeup for producers, exactly: they are served after every step of a run if and only if no
      step of it is a try-dequeue that skips a needed wake. */
  lemma NoLostProducerWakeupIff<X>(capacity: nat, steps: seq<Step<X>>)
    requires Runs(Init(capacity), steps)
    ensures AlwaysServed(Init(capacity), steps) <==> NeverSkips(Init(capacity), steps)
  {
    var s := Init<X>(capacity);
    if NeverSkips(s, steps) {
      forall k | 0 <= k <= |steps| ensures ProducersServed(StateAt(s, steps, k)) {
        ServedUpTo(s, steps, k);
      }
    }
    if AlwaysServed(s, steps) {
      forall k | 0 <= k < |steps| ensures !SkipsNeededWake(StateAt(s, steps, k), steps[k]) {
        ServedNext(s, steps, k);
      }
    }
  }

  /** In particular no producer's wakeup is lost when try-dequeue never removes a NULL item: while a
      producer sleeps the awake ones cover the free slots, so a queue with room never leaves all of
      them asleep. */
  lemma NoLostProducerWakeup<X>(capacity: nat, steps: seq<Step<X>>)
    requires Runs(Init(capacity), steps)
    requires forall k :: 0 <= k < |steps| ==> !TakesNull(StateAt(Init(capacity), steps, k), steps[k])
    ensures var s := After(Init(capacity), steps);
            && (s.prodAsleep != map[] ==> |s.prodAwake| >= capacity - |s.items|)
            && (!Full(s) && s.prodAsleep != map[] ==> s.prodAwake != map[])
  {
    var s := Init<X>(capacity);
    RunKeeps(s, steps, |steps|);
    ServedUpTo(s, steps, |steps|);
    StateAtEnd(s, steps);
    if capacity == 0 {
      UnboundedNeverSleeps(s, steps);
    }
  }

  /** An unbounded queue never puts a producer to sleep. */
  lemma {:induction false} UnboundedNeverSleeps<X>(s: State<X>, steps: seq<Step<X>>)
    requires Runs(s, steps) && s.capacity == 0 && s.prodAsleep == map[]
    ensures After(s, steps).prodAsleep == map[]
    decreases |steps|
  {
    if steps != [] {
      UnboundedNeverSleeps(Next(s, steps[0]), steps[1..]);
    }
  }

  lemma RunsFrom<X>(s: State<X>, step: Step<X>, rest: seq<Step<X>>)
    requires Enabled(s, step) && Runs(Next(s, step), rest)
    ensures Runs(s, [step] + rest) && After(s, [step] + rest) == After(Next(s, step), rest)
  {
    assert ([step] + rest)[1..] == rest;
  }

  /** Steps that do not help a sleeping producer: none wakes spuriously and no other thread enqueues. */
  predicate Unhelpful<X>(steps: seq<Step<X>>) {
    forall i :: 0 <= i < |steps| ==> !steps[i].CallEnqueue? && !steps[i].SpuriousProducer?
  }

  /** Beside an empty queue and with no producer awake, sleeping producers stay asleep. */
  lemma {:induction false} StayAsleep<X>(s: State<X>, steps: seq<Step<X>>)
    requires s.items == [] && s.prodAwake == map[] && Runs(s, steps) && Unhelpful(steps)
    ensures After(s, steps).items == [] && After(s, steps).prodAsleep == s.prodAsleep
    decreases |steps|
  {
    if steps != [] {
      assert !steps[0].CallEnqueue? && !steps[0].SpuriousProducer?;
      StayAsleep(Next(s, steps[0]), steps[1..]);
    }
  }

  /** The lost wakeup: with one slot, producer 1 enqueues NULL, producer 2 finds the queue full and
      sleeps, and a try-dequeue removes the NULL. The slot is free, and whatever consumers do from
      then on, producer 2 sleeps until it wakes spuriously or another thread enqueues. */
  lemma NullTryDequeueLosesWakeup<X>(x: Option<X>) returns (steps: seq<Step<X>>)
    ensures Runs(Init(1), steps)
    ensures var s := After(Init(1), steps);
            && s.items == [] && !Full(s) && s.prodAwake == map[] && s.prodAsleep == map[2 := x]
            && forall more :: Runs(s, more) && Unhelpful(more) ==>
                 After(s, more).items == [] && After(s, more).prodAsleep == map[2 := x]
  {
    steps := NullTryDequeueRun(x);
    var s := After(Init(1), steps);
    forall more | Runs(s, more) && Unhelpful(more)
      ensures After(s, more).items == [] && After(s, more).prodAsleep == map[2 := x]
    {
      StayAsleep(s, more);
    }
  }

  lemma NullTryDequeueRun<X>(x: Option<X>) returns (steps: seq<Step<X>>)
    ensures Runs(Init(1), steps)
    ensures var s := After(Init(1), steps); s.items == [] && !Full(s) && s.prodAwake == map[] && s.prodAsleep == map[2 := x]
  {
    var s0 := Init<X>(1);
    var s1 := Next(s0, CallEnqueue(1, None));
    var s2 := Next(s1, RunEnqueue(1, None));
    var s3 := Next(s2, CallEnqueue(2, x));
    var s4 := Next(s3, RunEnqueue(2, None));
    assert s2.prodAwake == map[];
    assert s4.items == [None] && s4.prodAwake == map[] && s4.prodAsleep == map[2 := x];
    RunsFrom(s4, TryDequeue(None), []);
    RunsFrom(s3, RunEnqueue(2, None), [TryDequeue(None)] + []);
    RunsFrom(s2, CallEnqueue(2, x), [RunEnqueue(2, None)] + ([TryDequeue(None)] + []));
    steps := [CallEnqueue(2, x)] + ([RunEnqueue(2, None)] + ([TryDequeue(None)] + []));
    RunsFrom(s1, RunEnqueue(1, None), steps);
    RunsFrom(s0, CallEnqueue(1, None), [RunEnqueue(1, None)] + steps);
    steps := [CallEnqueue(1, None)] + ([RunEnqueue(1, None)] + steps);
  }

  // ---- The critical sections as code ----

  class TSQueue<X> {
    const capacity: nat
    const inner: Queue.Queue<X>
    /** The threads asleep on cvNotEmpty and on cvNotFull; a producer sleeps with its item in hand. */
    var notEmpty: set<nat>
    var notFull: map<nat, Option<X>>
    /** The threads awake inside a call, and the history. */
    ghost var consAwake: set<nat>
    ghost var prodAwake: map<nat, Option<X>>
    ghost var enqueued: seq<Option<X>>
    ghost var dequeued: seq<Option<X>>

    ghost function View(): State<X>
      reads this, inner
    {
      State(capacity, inner.items, consAwake, notEmpty, prodAwake, notFull, enqueued, dequeued)
    }

    /** The contents are FIFO and no consumer's wakeup is lost. */
    ghost predicate Valid()
      reads this, inner, inner.spine
    {
      inner.Valid() && Fifo(View()) && ConsumersServed(View())
    }

    constructor (capacity: nat)
      ensures Valid() && View() == Init(capacity)
      ensures fresh(inner) && inner.spine == []
    {
      this.capacity := capacity;
      inner := new Queue.Queue();
      notEmpty, notFull := {}, map[];
      consAwake, prodAwake, enqueued, dequeued := {}, map[], [], [];
    }

    /** Thread t calls tsqueue_dequeue. */
    ghost method CallDequeue(t: nat)
      requires Valid() && Enabled(View(), Step.CallDequeue(t))
      modifies `consAwake
      ensures Valid() && View() == Next(old(View()), Step.CallDequeue(t))
    {
      KeepsValid(Step.CallDequeue(t));
      consAwake := consAwake + {t};
    }

    /** Thread t calls tsqueue_enqueue with x. */
    ghost method CallEnqueue(t: nat, x: Option<X>)
      requires Valid() && Enabled(View(), Step.CallEnqueue(t, x))
      modifies `prodAwake
      ensures Valid() && View() == Next(old(View()), Step.CallEnqueue(t, x))
    {
      KeepsValid(Step.CallEnqueue(t, x));
      prodAwake := prodAwake[t := x];
    }

    lemma KeepsValid(step: Step<X>)
      requires Valid() && Enabled(View(), step)
      ensures Fifo(Next(View(), step)) && ConsumersServed(Next(View(), step))
    {
      FifoStep(View(), step);
      ConsumersStep(View(), step);
    }

    /** WakeConditionVariable(&cvNotEmpty): one sleeping consumer, if there is one, goes on. */
    method WakeNotEmpty() returns (woken: Option<nat>)
      modifies `notEmpty, `consAwake
      ensures Wakes(old(notEmpty), woken)
      ensures View() == WakeConsumer(old(View()), woken)
    {
      if notEmpty == {} {
        return None;
      }
      var t :| t in notEmpty;
      notEmpty, consAwake := notEmpty - {t}, consAwake + {t};
      woken := Some(t);
    }

    /** WakeConditionVariable(&cvNotFull). */
    method WakeNotFull() returns (woken: Option<nat>)
      modifies `notFull, `prodAwake
      ensures Wakes(old(notFull).Keys, woken)
      ensures View() == WakeProducer(old(View()), woken)
    {
      if notFull.Keys == {} {
        return None;
      }
      var t :| t in notFull.Keys;
      prodAwake, notFull := prodAwake[t := notFull[t]], notFull - {t};
      woken := Some(t);
    }

    /** One stay of thread t in tsqueue_enqueue's critical section is one step of the machine: it goes
        to sleep on the full queue, or its item is in and a consumer has been signalled. */
    method EnqueueSection(t: nat, x: Option<X>) returns (done: bool, signal: bool, woken: Option<nat>)
      requires Valid() && t in prodAwake && prodAwake[t] == x
      modifies this, inner, inner.spine
      ensures var step := RunEnqueue(t, woken);
              && Enabled(old(View()), step) && View() == Next(old(View()), step)
              && signal == Signals(old(View()), step)
      ensures done == (capacity == 0 || |old(inner.items)| < capacity)
      ensures inner.items == if done then old(inner.items) + [x] else old(inner.items)
      ensures Valid()
    {
      ghost var was := View();
      done, signal, woken := false, false, None;
      if capacity > 0 && inner.size >= capacity {
        notFull, prodAwake := notFull[t := x], prodAwake - {t};
      } else {
        inner.Enqueue(x);
        prodAwake, enqueued := prodAwake - {t}, enqueued + [x];
        woken := WakeNotEmpty();
        done, signal := true, true;
      }
      FifoStep(was, RunEnqueue(t, woken));
      ConsumersStep(was, RunEnqueue(t, woken));
    }

    /** One stay in tsqueue_dequeue's critical section: sleep on the empty queue, or take the first item
        and signal a producer. */
    method DequeueSection(t: nat) returns (done: bool, x: Option<X>, signal: bool, woken: Option<nat>)
      requires Valid() && t in consAwake
      modifies this, inner
      ensures var step := RunDequeue(t, woken);
              && Enabled(old(View()), step) && View() == Next(old(View()), step)
              && signal == Signals(old(View()), step)
      ensures done == (old(inner.items) != []) && (done ==> x == old(inner.items)[0])
      ensures inner.items == if done then old(inner.items)[1..] else []
      ensures Valid()
    {
      ghost var was := View();
      done, x, signal, woken := false, None, false, None;
      if inner.size == 0 {
        notEmpty, consAwake := notEmpty + {t}, consAwake - {t};
      } else {
        x := inner.Dequeue();
        consAwake, dequeued := consAwake - {t}, dequeued + [x];
        woken := WakeNotFull();
        done, signal := true, true;
      }
      FifoStep(was, RunDequeue(t, woken));
      ConsumersStep(was, RunDequeue(t, woken));
    }

    /** tsqueue_try_dequeue: NULL when empty, and also when the first item is NULL; only a non-NULL
        item signals a producer. */
    method TryDequeueSection() returns (x: Option<X>, signal: bool, woken: Option<nat>)
      requires Valid()
      modifies this, inner
      ensures var step := TryDequeue(woken);
              && Enabled(old(View()), step) && View() == Next(old(View()), step)
              && signal == Signals(old(View()), step)
      ensures x == if old(inner.items) == [] then None else old(inner.items)[0]
      ensures inner.items == if old(inner.items) == [] then [] else old(inner.items)[1..]
      ensures signal == x.Some?
      ensures Valid()
    {
      ghost var was := View();
      x, signal, woken := None, false, None;
      if inner.size != 0 {
        x := inner.Dequeue();
        dequeued := dequeued + [x];
      }
      if x.Some? {
        woken := WakeNotFull();
        signal := true;
      }
      FifoStep(was, TryDequeue(woken));
      ConsumersStep(was, TryDequeue(woken));
    }
  }
}
