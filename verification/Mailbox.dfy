/** The blocking queue as its users see it: unbounded, so an enqueue is one stay in the critical
    section and no producer ever sleeps. The receiving threads sleep and are woken as in TSQueue. */
module Mailbox {
  import opened Basics
  import Q = TSQueue

  /** A queue on which exactly the threads `waiting` are inside tsqueue_dequeue, awake or asleep. */
  ghost predicate Serving<X>(q: Q.State<X>, waiting: set<nat>) {
    && q.capacity == 0 && Q.Fifo(q) && Q.ConsumersServed(q)
    && q.prodAwake == map[] && q.prodAsleep == map[]
    && q.consAwake + q.consAsleep == waiting
  }

  // ---- tsqueue_enqueue ----

  predicate CanPut<X>(q: Q.State<X>, t: nat, x: Option<X>, wake: Option<nat>) {
    && Q.Enabled(q, Q.CallEnqueue(t, x))
    && Q.Enabled(Q.Next(q, Q.CallEnqueue(t, x)), Q.RunEnqueue(t, wake))
  }

  function Put<X>(q: Q.State<X>, t: nat, x: Option<X>, wake: Option<nat>): Q.State<X>
    requires CanPut(q, t, x, wake)
  {
    Q.Next(Q.Next(q, Q.CallEnqueue(t, x)), Q.RunEnqueue(t, wake))
  }

  lemma PutIs<X>(q: Q.State<X>, t: nat, x: Option<X>, wake: Option<nat>)
    requires q.capacity == 0 && q.prodAwake == map[] && CanPut(q, t, x, wake)
    ensures Put(q, t, x, wake) == Q.WakeConsumer(q.(items := q.items + [x], enqueued := q.enqueued + [x]), wake)
    ensures Q.Wakes(q.consAsleep, wake)
  {
    assert q.prodAwake[t := x] - {t} == map[];
  }

  lemma PutServes<X>(q: Q.State<X>, waiting: set<nat>, t: nat, x: Option<X>, wake: Option<nat>)
    requires Serving(q, waiting) && CanPut(q, t, x, wake)
    ensures Serving(Put(q, t, x, wake), waiting)
    ensures Put(q, t, x, wake).items == q.items + [x]
    ensures |Put(q, t, x, wake).consAwake| <= |q.consAwake| + 1
  {
    KeepsQueue(q, Q.CallEnqueue(t, x));
    KeepsQueue(Q.Next(q, Q.CallEnqueue(t, x)), Q.RunEnqueue(t, wake));
    PutIs(q, t, x, wake);
    if wake.Some? {
      Leaves(q.consAsleep, q.consAwake, wake.value);
    }
  }

  lemma KeepsQueue<X>(q: Q.State<X>, step: Q.Step<X>)
    requires Q.Fifo(q) && Q.ConsumersServed(q) && Q.Enabled(q, step)
    ensures Q.Fifo(Q.Next(q, step)) && Q.ConsumersServed(Q.Next(q, step)) && Q.Next(q, step).capacity == q.capacity
  {
    Q.FifoStep(q, step);
    Q.ConsumersStep(q, step);
  }

  /** An enqueue is never refused. */
  lemma SomePut<X>(q: Q.State<X>, waiting: set<nat>, t: nat, x: Option<X>) returns (wake: Option<nat>)
    requires Serving(q, waiting)
    ensures CanPut(q, t, x, wake)
  {
    wake := None;
    if q.consAsleep != {} {
      var h :| h in q.consAsleep;
      wake := Some(h);
    }
  }

  // ---- tsqueue_dequeue: call, sections, spurious wakes ----

  predicate CanTake<X>(q: Q.State<X>, h: nat) {
    Q.Enabled(q, Q.RunDequeue(h, None))
  }

  /** One section of thread h: it takes the first item and leaves, or falls asleep. */
  function TakeNext<X>(q: Q.State<X>, h: nat): Q.State<X>
    requires CanTake(q, h)
  {
    Q.Next(q, Q.RunDequeue(h, None))
  }

  lemma Leaves(a: set<nat>, b: set<nat>, h: nat)
    requires h in a && a !! b
    ensures |a - {h}| == |a| - 1 && |b + {h}| == |b| + 1
    ensures a - {h} + b == a + b - {h} && a - {h} + (b + {h}) == a + b
  {
  }

  lemma TakeServes<X>(q: Q.State<X>, waiting: set<nat>, h: nat)
    requires Serving(q, waiting) && CanTake(q, h)
    ensures var q' := TakeNext(q, h);
            && |q'.consAwake| == |q.consAwake| - 1
            && if q.items == [] then Serving(q', waiting) && q'.items == []
               else Serving(q', waiting - {h}) && q'.items == q.items[1..]
  {
    KeepsQueue(q, Q.RunDequeue(h, None));
    Leaves(q.consAwake, q.consAsleep, h);
  }

  /** Thread h, done with its item, calls tsqueue_dequeue again. */
  lemma ReturnServes<X>(q: Q.State<X>, waiting: set<nat>, h: nat)
    requires Serving(q, waiting) && h !in waiting
    ensures Q.Enabled(q, Q.CallDequeue(h))
    ensures var q' := Q.Next(q, Q.CallDequeue(h));
            Serving(q', waiting + {h}) && q'.items == q.items && |q'.consAwake| == |q.consAwake| + 1
  {
    assert h !in q.consAwake && h !in q.consAsleep;
    KeepsQueue(q, Q.CallDequeue(h));
  }

  lemma SpuriousServes<X>(q: Q.State<X>, waiting: set<nat>, h: nat)
    requires Serving(q, waiting) && Q.Enabled(q, Q.SpuriousConsumer(h))
    ensures var q' := Q.Next(q, Q.SpuriousConsumer(h));
            Serving(q', waiting) && q'.items == q.items && |q'.consAwake| == |q.consAwake| + 1
  {
    KeepsQueue(q, Q.SpuriousConsumer(h));
    assert |q.consAwake + {h}| == |q.consAwake| + 1;
  }

  /** No lost wakeup, for the user: while an item is queued and a thread waits, some waiting thread is
      awake and will take it. */
  lemma SomeTake<X>(q: Q.State<X>, waiting: set<nat>) returns (h: nat)
    requires Serving(q, waiting) && q.items != [] && waiting != {}
    ensures h in waiting && CanTake(q, h)
  {
    assert q.consAwake != {};
    h :| h in q.consAwake;
  }
}
