/** The worker pool over the blocking queue, with submitters, workers and the shutting-down thread as
    one step system. Shutdown sends one NULL sentinel per worker and joins all workers; a submit may
    pass the flag check before shutdown and enqueue its job at any later time. */
module ThreadPool {
  import opened Basics
  import Q = TSQueue
  import Queue

  datatype Worker<T> = Waiting | Running(task: T) | Exited

  datatype Pool<T> = Pool(
    q: Q.State<T>,
    workers: seq<Worker<T>>,
    shuttingDown: bool,
    sent: nat,             // sentinels enqueued
    joined: nat,           // workers joined
    completed: seq<T>,     // tasks whose function has returned
    accepted: seq<T>,      // tasks whose submit passed the flag check
    rejected: seq<T>)      // tasks whose submit was refused; the caller keeps them

  datatype Step<T> =
    | Submit(t: nat, task: T)                      // flag check passed, entering the queue
    | SubmitRefused(task: T)
    | SubmitEnqueue(t: nat, wake: Option<nat>)
    | BeginShutdown
    | SendSentinel(wake: Option<nat>)
    | WorkerDequeue(w: nat, wake: Option<nat>)
    | WorkerFinish(w: nat)
    | SpuriousWake(w: nat)
    | Join

  /** The thread that runs tp_shutdown; submitters have other numbers. */
  const SHUTDOWN_THREAD: nat := 0

  predicate Enabled<T>(s: Pool<T>, step: Step<T>) {
    match step
    case Submit(t, task) => t != SHUTDOWN_THREAD && !s.shuttingDown && Q.Enabled(s.q, Q.CallEnqueue(t, Some(task)))
    case SubmitRefused(task) => s.shuttingDown
    case SubmitEnqueue(t, wake) => t != SHUTDOWN_THREAD && Q.Enabled(s.q, Q.RunEnqueue(t, wake))
    case BeginShutdown => !s.shuttingDown
    case SendSentinel(wake) =>
      && s.shuttingDown && s.sent < |s.workers|
      && Q.Enabled(s.q, Q.CallEnqueue(SHUTDOWN_THREAD, None))
      && Q.Enabled(Q.Next(s.q, Q.CallEnqueue(SHUTDOWN_THREAD, None)), Q.RunEnqueue(SHUTDOWN_THREAD, wake))
    case WorkerDequeue(w, wake) => w < |s.workers| && s.workers[w].Waiting? && Q.Enabled(s.q, Q.RunDequeue(w, wake))
    case WorkerFinish(w) => w < |s.workers| && s.workers[w].Running? && Q.Enabled(s.q, Q.CallDequeue(w))
    case SpuriousWake(w) => Q.Enabled(s.q, Q.SpuriousConsumer(w))
    case Join => s.sent == |s.workers| && s.joined < |s.workers| && s.workers[s.joined].Exited?
  }

  function Received<T>(item: Option<T>): Worker<T> {
    match item case None => Exited case Some(task) => Running(task)
  }

  function Next<T>(s: Pool<T>, step: Step<T>): Pool<T>
    requires Enabled(s, step)
  {
    match step
    case Submit(t, task) => s.(q := Q.Next(s.q, Q.CallEnqueue(t, Some(task))), accepted := s.accepted + [task])
    case SubmitRefused(task) => s.(rejected := s.rejected + [task])
    case SubmitEnqueue(t, wake) => s.(q := Q.Next(s.q, Q.RunEnqueue(t, wake)))
    case BeginShutdown => s.(shuttingDown := true)
    case SendSentinel(wake) =>
      s.(q := Q.Next(Q.Next(s.q, Q.CallEnqueue(SHUTDOWN_THREAD, None)), Q.RunEnqueue(SHUTDOWN_THREAD, wake)),
         sent := s.sent + 1)
    case WorkerDequeue(w, wake) =>
      s.(q := Q.Next(s.q, Q.RunDequeue(w, wake)),
         workers := if s.q.items == [] then s.workers else s.workers[w := Received(s.q.items[0])])
    case WorkerFinish(w) =>
      s.(q := Q.Next(s.q, Q.CallDequeue(w)), workers := s.workers[w := Waiting],
         completed := s.completed + [s.workers[w].task])
    case SpuriousWake(w) => s.(q := Q.Next(s.q, Q.SpuriousConsumer(w)))
    case Join => s.(joined := s.joined + 1)
  }

  /** All n workers have started and entered their first dequeue. */
  function Init<T>(n: nat): Pool<T> {
    Pool(Q.Init(0).(consAwake := Below(n)), seq(n, _ => Waiting), false, 0, 0, [], [], [])
  }

  // ---- Counting ----

  function Occ<U(==)>(s: seq<U>, x: U): nat {
    if s == [] then 0 else (if s[0] == x then 1 else 0) + Occ(s[1..], x)
  }

  lemma {:induction false} OccAppend<U>(a: seq<U>, b: seq<U>, x: U)
    ensures Occ(a + b, x) == Occ(a, x) + Occ(b, x)
  {
    if a == [] {
      assert a + b == b;
    } else {
      assert (a + b)[1..] == a[1..] + b;
      OccAppend(a[1..], b, x);
    }
  }

  lemma OccOne<U>(y: U, x: U)
    ensures Occ([y], x) == if x == y then 1 else 0
  {
    assert [y][1..] == [];
  }

  lemma {:induction false} OccUpdate<U>(s: seq<U>, i: nat, y: U, x: U)
    requires i < |s|
    ensures Occ(s[i := y], x) == Occ(s, x) - (if s[i] == x then 1 else 0) + (if y == x then 1 else 0)
  {
    if i == 0 {
      assert s[i := y][1..] == s[1..];
    } else {
      assert s[i := y][1..] == s[1..][i - 1 := y];
      OccUpdate(s[1..], i - 1, y, x);
    }
  }

  lemma {:induction false} OccMember<U>(s: seq<U>, x: U)
    ensures Occ(s, x) <= |s|
    ensures Occ(s, x) > 0 <==> x in s
    ensures Occ(s, x) == |s| <==> forall i :: 0 <= i < |s| ==> s[i] == x
  {
    if s != [] {
      OccMember(s[1..], x);
      assert s == [s[0]] + s[1..];
    }
  }

  /** Occ is the multiplicity of x. */
  lemma {:induction false} OccIsMultiplicity<U>(s: seq<U>, x: U)
    ensures Occ(s, x) == multiset(s)[x]
  {
    if s != [] {
      assert s == [s[0]] + s[1..];
      OccIsMultiplicity(s[1..], x);
    }
  }

  // ---- The invariant ----

  ghost predicate QueueInv<T>(s: Pool<T>) {
    && s.q.capacity == 0 && Q.Fifo(s.q) && Q.ConsumersServed(s.q)
    && s.q.prodAsleep == map[]
    && (forall t :: t in s.q.prodAwake ==> t != SHUTDOWN_THREAD && s.q.prodAwake[t].Some?)
    && (forall w :: w in s.q.consAwake || w in s.q.consAsleep <==> 0 <= w < |s.workers| && s.workers[w].Waiting?)
  }

  /** Sentinels enqueued were sent by shutdown; a sentinel dequeued is a worker exited; once all
      workers have exited, the last item taken was a sentinel. */
  ghost predicate SentinelInv<T>(s: Pool<T>) {
    && Occ(s.q.enqueued, None) == s.sent <= |s.workers|
    && Occ(s.q.dequeued, None) == Occ(s.workers, Exited)
    && (s.workers != [] && Occ(s.workers, Exited) == |s.workers| ==>
          s.q.dequeued != [] && s.q.dequeued[|s.q.dequeued| - 1] == None)
    && s.joined <= |s.workers| && (forall w :: 0 <= w < s.joined ==> s.workers[w].Exited?)
    && (s.sent > 0 ==> s.shuttingDown) && (s.joined > 0 ==> s.sent == |s.workers|)
  }

  /** Every task dequeued is running or completed, exactly as often as it was dequeued. */
  ghost predicate TaskInv<T(!new)>(s: Pool<T>) {
    forall task :: Occ(s.q.dequeued, Some(task)) == Occ(s.completed, task) + Occ(s.workers, Running(task))
  }

  /** Submitters that hold a given job and have not enqueued it yet. */
  ghost function Pending<T>(m: map<nat, Option<T>>, task: T): set<nat> {
    set t | t in m && m[t] == Some(task)
  }

  /** Every accepted task is in the queue's history or still with its submitter. */
  ghost predicate SubmitInv<T(!new)>(s: Pool<T>) {
    forall task :: Occ(s.accepted, task) == Occ(s.q.enqueued, Some(task)) + |Pending(s.q.prodAwake, task)|
  }

  ghost predicate Inv<T(!new)>(s: Pool<T>) {
    QueueInv(s) && SentinelInv(s) && TaskInv(s) && SubmitInv(s)
  }

  lemma InitInv<T(!new)>(n: nat)
    ensures Inv(Init<T>(n))
  {
    var s := Init<T>(n);
    OccMember(s.workers, Exited);
    forall task ensures Occ(s.workers, Running(task)) == 0 && Pending(s.q.prodAwake, task) == {} {
      OccMember(s.workers, Running(task));
    }
  }

  lemma SubmitStep<T>(s: Pool<T>, t: nat, task: T)
    requires QueueInv(s) && Enabled(s, Submit(t, task))
    ensures QueueInv(Next(s, Submit(t, task)))
  {
    QStep(s.q, Q.CallEnqueue(t, Some(task)));
  }

  lemma EnqueueStep<T>(s: Pool<T>, t: nat, wake: Option<nat>)
    requires QueueInv(s) && Enabled(s, SubmitEnqueue(t, wake))
    ensures QueueInv(Next(s, SubmitEnqueue(t, wake)))
  {
    QStep(s.q, Q.RunEnqueue(t, wake));
  }

  lemma SpuriousStep<T>(s: Pool<T>, w: nat)
    requires QueueInv(s) && Enabled(s, SpuriousWake(w))
    ensures QueueInv(Next(s, SpuriousWake(w)))
  {
    QStep(s.q, Q.SpuriousConsumer(w));
  }

  lemma SentinelStep<T>(s: Pool<T>, wake: Option<nat>)
    requires QueueInv(s) && Enabled(s, SendSentinel(wake))
    ensures QueueInv(Next(s, SendSentinel(wake)))
    ensures Next(s, SendSentinel(wake)).q.enqueued == s.q.enqueued + [None]
    ensures Next(s, SendSentinel(wake)).q.dequeued == s.q.dequeued
  {
    var call, run := Q.CallEnqueue(SHUTDOWN_THREAD, None), Q.RunEnqueue(SHUTDOWN_THREAD, wake);
    QStep(s.q, call);
    QStep(Q.Next(s.q, call), run);
  }

  lemma DequeueStep<T>(s: Pool<T>, w: nat, wake: Option<nat>)
    requires QueueInv(s) && Enabled(s, WorkerDequeue(w, wake))
    ensures QueueInv(Next(s, WorkerDequeue(w, wake)))
  {
    QStep(s.q, Q.RunDequeue(w, wake));
  }

  lemma FinishStep<T>(s: Pool<T>, w: nat)
    requires QueueInv(s) && Enabled(s, WorkerFinish(w))
    ensures QueueInv(Next(s, WorkerFinish(w)))
  {
    QStep(s.q, Q.CallDequeue(w));
  }

  lemma QStep<T>(q: Q.State<T>, step: Q.Step<T>)
    requires Q.Fifo(q) && Q.ConsumersServed(q) && Q.Enabled(q, step)
    ensures Q.Fifo(Q.Next(q, step)) && Q.ConsumersServed(Q.Next(q, step))
  {
    Q.FifoStep(q, step);
    Q.ConsumersStep(q, step);
  }

  lemma DequeueSentinels<T>(s: Pool<T>, w: nat, wake: Option<nat>)
    requires QueueInv(s) && SentinelInv(s) && Enabled(s, WorkerDequeue(w, wake))
    ensures SentinelInv(Next(s, WorkerDequeue(w, wake)))
  {
    if s.q.items != [] {
      var item := s.q.items[0];
      OccAppend(s.q.dequeued, [item], None);
      OccOne(item, None);
      OccUpdate(s.workers, w, Received(item), Exited);
      OccMember(s.workers, Exited);
    }
  }

  lemma DequeueTasks<T(!new)>(s: Pool<T>, w: nat, wake: Option<nat>)
    requires QueueInv(s) && TaskInv(s) && Enabled(s, WorkerDequeue(w, wake))
    ensures TaskInv(Next(s, WorkerDequeue(w, wake)))
  {
    if s.q.items != [] {
      var item, s' := s.q.items[0], Next(s, WorkerDequeue(w, wake));
      forall task ensures Occ(s'.q.dequeued, Some(task)) == Occ(s.completed, task) + Occ(s'.workers, Running(task)) {
        OccAppend(s.q.dequeued, [item], Some(task));
        OccOne(item, Some(task));
        OccUpdate(s.workers, w, Received(item), Running(task));
      }
    }
  }

  lemma FinishCounts<T(!new)>(s: Pool<T>, w: nat)
    requires Inv(s) && Enabled(s, WorkerFinish(w))
    ensures SentinelInv(Next(s, WorkerFinish(w))) && TaskInv(Next(s, WorkerFinish(w)))
  {
    var s' := Next(s, WorkerFinish(w));
    var done := s.workers[w].task;
    OccUpdate(s.workers, w, Waiting, Exited);
    OccMember(s.workers, Exited);
    forall task ensures Occ(s'.q.dequeued, Some(task)) == Occ(s'.completed, task) + Occ(s'.workers, Running(task)) {
      OccAppend(s.completed, [done], task);
      OccOne(done, task);
      OccUpdate(s.workers, w, Waiting, Running(task));
    }
  }

  lemma EnqueueCounts<T>(s: Pool<T>, t: nat, wake: Option<nat>)
    requires QueueInv(s) && SentinelInv(s) && Enabled(s, SubmitEnqueue(t, wake))
    ensures SentinelInv(Next(s, SubmitEnqueue(t, wake)))
    ensures Next(s, SubmitEnqueue(t, wake)).q.dequeued == s.q.dequeued
  {
    var x := s.q.prodAwake[t];
    OccAppend(s.q.enqueued, [x], None);
    OccOne(x, None);
  }

  lemma SentinelCounts<T>(s: Pool<T>, wake: Option<nat>)
    requires QueueInv(s) && SentinelInv(s) && Enabled(s, SendSentinel(wake))
    ensures SentinelInv(Next(s, SendSentinel(wake)))
  {
    SentinelStep(s, wake);
    OccAppend(s.q.enqueued, [None], None);
    OccOne<Option<T>>(None, None);
  }

  lemma SubmitAccount<T(!new)>(s: Pool<T>, t: nat, task: T)
    requires QueueInv(s) && SubmitInv(s) && Enabled(s, Submit(t, task))
    ensures SubmitInv(Next(s, Submit(t, task)))
  {
    var s' := Next(s, Submit(t, task));
    forall x ensures Occ(s'.accepted, x) == Occ(s'.q.enqueued, Some(x)) + |Pending(s'.q.prodAwake, x)| {
      OccAppend(s.accepted, [task], x);
      OccOne(task, x);
      PendingAdd(s.q.prodAwake, t, task, x);
    }
  }

  lemma PendingAdd<T>(m: map<nat, Option<T>>, t: nat, task: T, x: T)
    requires t !in m
    ensures |Pending(m[t := Some(task)], x)| == |Pending(m, x)| + if x == task then 1 else 0
  {
    assert Pending(m[t := Some(task)], x) == Pending(m, x) + if x == task then {t} else {};
  }

  lemma PendingDrop<T>(m: map<nat, Option<T>>, t: nat, x: T)
    requires t in m
    ensures |Pending(m - {t}, x)| == |Pending(m, x)| - if m[t] == Some(x) then 1 else 0
  {
    assert Pending(m - {t}, x) == Pending(m, x) - {t};
  }

  lemma EnqueueAccount<T(!new)>(s: Pool<T>, t: nat, wake: Option<nat>)
    requires QueueInv(s) && SubmitInv(s) && Enabled(s, SubmitEnqueue(t, wake))
    ensures SubmitInv(Next(s, SubmitEnqueue(t, wake)))
  {
    var s', item := Next(s, SubmitEnqueue(t, wake)), s.q.prodAwake[t];
    forall x ensures Occ(s'.accepted, x) == Occ(s'.q.enqueued, Some(x)) + |Pending(s'.q.prodAwake, x)| {
      OccAppend(s.q.enqueued, [item], Some(x));
      OccOne(item, Some(x));
      PendingDrop(s.q.prodAwake, t, x);
    }
  }

  lemma SentinelAccount<T(!new)>(s: Pool<T>, wake: Option<nat>)
    requires QueueInv(s) && SubmitInv(s) && Enabled(s, SendSentinel(wake))
    ensures SubmitInv(Next(s, SendSentinel(wake)))
  {
    var s' := Next(s, SendSentinel(wake));
    assert s'.q.prodAwake == s.q.prodAwake;
    SentinelStep(s, wake);
    forall x ensures Occ(s'.q.enqueued, Some(x)) == Occ(s.q.enqueued, Some(x)) {
      OccAppend(s.q.enqueued, [None], Some(x));
      OccOne<Option<T>>(None, Some(x));
    }
  }

  lemma SubmitKeepsInv<T(!new)>(s: Pool<T>, t: nat, task: T)
    requires Inv(s) && Enabled(s, Submit(t, task))
    ensures Inv(Next(s, Submit(t, task)))
  {
    SubmitStep(s, t, task);
    SubmitAccount(s, t, task);
  }

  lemma EnqueueKeepsInv<T(!new)>(s: Pool<T>, t: nat, wake: Option<nat>)
    requires Inv(s) && Enabled(s, SubmitEnqueue(t, wake))
    ensures Inv(Next(s, SubmitEnqueue(t, wake)))
  {
    EnqueueStep(s, t, wake);
    EnqueueCounts(s, t, wake);
    EnqueueAccount(s, t, wake);
  }

  lemma SentinelKeepsInv<T(!new)>(s: Pool<T>, wake: Option<nat>)
    requires Inv(s) && Enabled(s, SendSentinel(wake))
    ensures Inv(Next(s, SendSentinel(wake)))
  {
    SentinelStep(s, wake);
    SentinelCounts(s, wake);
    SentinelAccount(s, wake);
  }

  lemma DequeueKeepsInv<T(!new)>(s: Pool<T>, w: nat, wake: Option<nat>)
    requires Inv(s) && Enabled(s, WorkerDequeue(w, wake))
    ensures Inv(Next(s, WorkerDequeue(w, wake)))
  {
    DequeueStep(s, w, wake);
    DequeueSentinels(s, w, wake);
    DequeueTasks(s, w, wake);
    WorkersLeaveSubmits(s, WorkerDequeue(w, wake));
  }

  lemma FinishKeepsInv<T(!new)>(s: Pool<T>, w: nat)
    requires Inv(s) && Enabled(s, WorkerFinish(w))
    ensures Inv(Next(s, WorkerFinish(w)))
  {
    FinishStep(s, w);
    FinishCounts(s, w);
  }

  predicate IsWorkerStep<T>(step: Step<T>) {
    step.WorkerDequeue? || step.WorkerFinish?
  }

  /** A worker's step changes neither what was enqueued nor who is submitting. */
  lemma WorkersLeaveSubmits<T>(s: Pool<T>, step: Step<T>)
    requires QueueInv(s) && Enabled(s, step) && IsWorkerStep(step)
    ensures var s' := Next(s, step);
            s'.q.enqueued == s.q.enqueued && s'.q.prodAwake == s.q.prodAwake && s'.accepted == s.accepted
  {
  }

  lemma StepKeepsInv<T(!new)>(s: Pool<T>, step: Step<T>)
    requires Inv(s) && Enabled(s, step)
    ensures Inv(Next(s, step)) && |Next(s, step).workers| == |s.workers|
  {
    match step
    case Submit(t, task) => SubmitKeepsInv(s, t, task);
    case SubmitEnqueue(t, wake) => EnqueueKeepsInv(s, t, wake);
    case SpuriousWake(w) => SpuriousStep(s, w);
    case SendSentinel(wake) => SentinelKeepsInv(s, wake);
    case WorkerDequeue(w, wake) => DequeueKeepsInv(s, w, wake);
    case WorkerFinish(w) => FinishKeepsInv(s, w);
    case SubmitRefused(task) =>
    case BeginShutdown =>
    case Join =>
  }

  predicate AllExited<T>(s: Pool<T>) {
    forall w :: 0 <= w < |s.workers| ==> s.workers[w].Exited?
  }

  // ---- Every run ----

  ghost predicate Runs<T>(s: Pool<T>, steps: seq<Step<T>>)
    decreases |steps|
  {
    steps != [] ==> Enabled(s, steps[0]) && Runs(Next(s, steps[0]), steps[1..])
  }

  ghost function After<T>(s: Pool<T>, steps: seq<Step<T>>): Pool<T>
    requires Runs(s, steps)
    decreases |steps|
  {
    if steps == [] then s else After(Next(s, steps[0]), steps[1..])
  }

  lemma {:induction false} RunKeepsInv<T(!new)>(s: Pool<T>, steps: seq<Step<T>>)
    requires Inv(s) && Runs(s, steps)
    ensures Inv(After(s, steps)) && |After(s, steps).workers| == |s.workers|
    decreases |steps|
  {
    if steps != [] {
      StepKeepsInv(s, steps[0]);
      RunKeepsInv(Next(s, steps[0]), steps[1..]);
    }
  }

  /** Every state of every run. */
  lemma Reached<T(!new)>(n: nat, steps: seq<Step<T>>)
    requires Runs(Init<T>(n), steps)
    ensures Inv(After(Init<T>(n), steps)) && |After(Init<T>(n), steps).workers| == n
  {
    InitInv<T>(n);
    RunKeepsInv(Init<T>(n), steps);
  }

  /** Pool shutdown, in every run: once all joins have finished, one sentinel per worker has been
      taken and the last item taken was a sentinel; the jobs completed are exactly those ahead of it
      in queue order, as often as they were enqueued there; and what remains is exactly what was
      enqueued after the last sentinel. */
  lemma ShutdownDrains<T(!new)>(n: nat, steps: seq<Step<T>>)
    requires n > 0 && Runs(Init<T>(n), steps) && After(Init<T>(n), steps).joined == n
    ensures var s := After(Init<T>(n), steps); var q := s.q;
            && q.enqueued == q.dequeued + q.items
            && multiset(q.dequeued)[None] == n && q.dequeued != [] && q.dequeued[|q.dequeued| - 1] == None
            && None !in q.items
            && multiset(s.completed) == multiset(Queue.Present(q.dequeued))
            && |s.workers| == n && AllExited(s)
  {
    Reached(n, steps);
    DrainedFully(After(Init<T>(n), steps));
  }

  lemma DrainedFully<T(!new)>(s: Pool<T>)
    requires Inv(s) && s.workers != [] && s.joined == |s.workers|
    ensures var q := s.q;
            && q.enqueued == q.dequeued + q.items
            && multiset(q.dequeued)[None] == |s.workers| && q.dequeued != [] && q.dequeued[|q.dequeued| - 1] == None
            && None !in q.items
            && multiset(s.completed) == multiset(Queue.Present(q.dequeued))
            && AllExited(s)
  {
    Drained(s);
    DrainedAsMultiset(s);
    OccMember(s.workers, Exited);
  }

  lemma DrainedAsMultiset<T(!new)>(s: Pool<T>)
    requires forall task :: Occ(s.completed, task) == Occ(s.q.dequeued, Some(task))
    ensures multiset(s.q.dequeued)[None] == Occ(s.q.dequeued, None)
    ensures multiset(s.completed) == multiset(Queue.Present(s.q.dequeued))
  {
    OccIsMultiplicity(s.q.dequeued, None);
    CompletedIsPresent(s.completed, s.q.dequeued);
  }

  lemma {:induction false} OccPresent<T>(items: seq<Option<T>>, task: T)
    ensures Occ(Queue.Present(items), task) == Occ(items, Some(task))
  {
    if items != [] {
      var first := if items[0].Some? then [items[0].value] else [];
      OccPresent(items[1..], task);
      OccAppend(first, Queue.Present(items[1..]), task);
      if items[0].Some? {
        OccOne(items[0].value, task);
      }
    }
  }

  lemma CompletedIsPresent<T(!new)>(completed: seq<T>, dequeued: seq<Option<T>>)
    requires forall task :: Occ(completed, task) == Occ(dequeued, Some(task))
    ensures multiset(completed) == multiset(Queue.Present(dequeued))
  {
    forall task ensures multiset(completed)[task] == multiset(Queue.Present(dequeued))[task] {
      OccPresent(dequeued, task);
      OccIsMultiplicity(completed, task);
      OccIsMultiplicity(Queue.Present(dequeued), task);
    }
  }

  lemma Drained<T(!new)>(s: Pool<T>)
    requires Inv(s) && s.workers != [] && s.joined == |s.workers|
    ensures AllExited(s) && Occ(s.q.dequeued, None) == |s.workers| && None !in s.q.items
    ensures forall task :: Occ(s.completed, task) == Occ(s.q.dequeued, Some(task))
  {
    OccMember(s.workers, Exited);
    OccAppend(s.q.dequeued, s.q.items, None);
    OccMember(s.q.items, None);
    forall task ensures Occ(s.workers, Running(task)) == 0 {
      OccMember(s.workers, Running(task));
    }
  }

  // ---- What each step needs and does, in every reachable state ----

  /** tp_submit: a thread that is not inside a call has its job accepted if and only if shutdown has not
      begun, and refused if and only if it has. An accepted job is with its thread on the way to the
      queue; a refused one changes nothing in the pool. */
  lemma SubmitLaw<T(!new)>(n: nat, steps: seq<Step<T>>, t: nat, task: T)
    requires Runs(Init<T>(n), steps) && t != SHUTDOWN_THREAD && t !in After(Init<T>(n), steps).q.prodAwake
    ensures var s := After(Init<T>(n), steps);
            && (Enabled(s, Submit(t, task)) <==> !s.shuttingDown)
            && (Enabled(s, SubmitRefused(task)) <==> s.shuttingDown)
            && (!s.shuttingDown ==> s.rejected == [])
    ensures var s := After(Init<T>(n), steps);
            if s.shuttingDown then
              var s' := Next(s, SubmitRefused(task)); s' == s.(rejected := s.rejected + [task])
            else
              var s' := Next(s, Submit(t, task));
              s' == s.(accepted := s.accepted + [task], q := s.q.(prodAwake := s.q.prodAwake[t := Some(task)]))
  {
    Reached(n, steps);
    RefusedInShutdown(Init<T>(n), steps);
  }

  lemma {:induction false} RefusedInShutdown<T>(s: Pool<T>, steps: seq<Step<T>>)
    requires Runs(s, steps) && (!s.shuttingDown ==> s.rejected == [])
    ensures var z := After(s, steps); !z.shuttingDown ==> z.rejected == []
    decreases |steps|
  {
    if steps != [] {
      RefusedInShutdown(Next(s, steps[0]), steps[1..]);
    }
  }

  /** An accepted job always gets into the queue, as its last item. */
  lemma EnqueueLaw<T>(s: Pool<T>, t: nat) returns (wake: Option<nat>)
    requires QueueInv(s) && t in s.q.prodAwake
    ensures Enabled(s, SubmitEnqueue(t, wake))
    ensures forall wake' :: Enabled(s, SubmitEnqueue(t, wake')) ==>
              var s' := Next(s, SubmitEnqueue(t, wake'));
              && s'.q.items == s.q.items + [s.q.prodAwake[t]] && s'.q.prodAwake == s.q.prodAwake - {t}
              && s'.workers == s.workers && s'.completed == s.completed && s'.sent == s.sent
  {
    wake := SomeSleeper(s.q.consAsleep);
  }

  lemma SomeSleeper(asleep: set<nat>) returns (wake: Option<nat>)
    ensures Q.Wakes(asleep, wake)
  {
    wake := None;
    if asleep != {} {
      var w :| w in asleep;
      wake := Some(w);
    }
  }

  /** tp_shutdown sets the flag once, then puts one NULL per worker behind what is queued. */
  lemma ShutdownLaw<T>(s: Pool<T>) returns (wake: Option<nat>)
    requires QueueInv(s)
    ensures Enabled(s, BeginShutdown) <==> !s.shuttingDown
    ensures !s.shuttingDown ==> Next(s, BeginShutdown) == s.(shuttingDown := true)
    ensures Enabled(s, SendSentinel(wake)) <==> s.shuttingDown && s.sent < |s.workers|
    ensures forall wake' :: Enabled(s, SendSentinel(wake')) ==>
              var s' := Next(s, SendSentinel(wake'));
              s.shuttingDown && s.sent < |s.workers| && s'.q.items == s.q.items + [None] && s'.sent == s.sent + 1 && s'.workers == s.workers
  {
    wake := SomeSleeper(s.q.consAsleep);
  }

  /** worker_thread: an awake waiting worker takes the first item and runs it, or exits on NULL; with
      nothing queued it falls asleep. */
  lemma DequeueLaw<T>(s: Pool<T>, w: nat)
    requires QueueInv(s)
    ensures Enabled(s, WorkerDequeue(w, None)) <==> w in s.q.consAwake
    ensures w in s.q.consAwake && s.q.items != [] ==>
              var s' := Next(s, WorkerDequeue(w, None));
              && s'.q.items == s.q.items[1..]
              && s'.workers == s.workers[w := match s.q.items[0] case None => Exited case Some(task) => Running(task)]
    ensures w in s.q.consAwake && s.q.items == [] ==>
              var s' := Next(s, WorkerDequeue(w, None));
              s'.workers == s.workers && s'.q.items == [] && w in s'.q.consAsleep
  {
  }

  /** A worker whose job function returns has completed the job and goes back to the queue. */
  lemma FinishLaw<T>(s: Pool<T>, w: nat)
    requires QueueInv(s)
    ensures Enabled(s, WorkerFinish(w)) <==> w < |s.workers| && s.workers[w].Running?
    ensures w < |s.workers| && s.workers[w].Running? ==>
              var s' := Next(s, WorkerFinish(w));
              && s'.completed == s.completed + [s.workers[w].task] && s'.workers == s.workers[w := Waiting]
              && s'.q.consAwake == s.q.consAwake + {w} && s'.q.items == s.q.items
  {
  }

  /** The workers are joined in order, each once it has exited, after the last sentinel was sent. */
  lemma JoinLaw<T>(s: Pool<T>)
    ensures Enabled(s, Join) <==> s.sent == |s.workers| && s.joined < |s.workers| && s.workers[s.joined].Exited?
    ensures Enabled(s, Join) ==> Next(s, Join) == s.(joined := s.joined + 1)
  {
  }

  // ---- Progress of the shutdown ----

  /** While a worker lives after all sentinels have been sent, some worker can take a step: no
      worker sleeps while the sentinel meant for it is in the queue. */
  lemma ShutdownProgress<T(!new)>(s: Pool<T>) returns (step: Step<T>)
    requires Inv(s) && s.sent == |s.workers| && !AllExited(s)
    ensures IsWorkerStep(step) && Enabled(s, step)
  {
    var w :| 0 <= w < |s.workers| && !s.workers[w].Exited?;
    if s.workers[w].Running? {
      step := WorkerFinish(w);
    } else {
      OccMember(s.workers, Exited);
      OccAppend(s.q.dequeued, s.q.items, None);
      OccMember(s.q.items, None);
      assert s.q.items != [];
      assert w in s.q.consAwake || w in s.q.consAsleep;
      assert s.q.consAwake != {};
      var awake :| awake in s.q.consAwake;
      step := WorkerDequeue(awake, None);
    }
  }

  ghost function Busy<T>(ws: seq<Worker<T>>): nat {
    if ws == [] then 0 else (if ws[0].Running? then 1 else 0) + Busy(ws[1..])
  }

  lemma {:induction false} BusyUpdate<T>(ws: seq<Worker<T>>, i: nat, y: Worker<T>)
    requires i < |ws|
    ensures Busy(ws[i := y]) == Busy(ws) - (if ws[i].Running? then 1 else 0) + (if y.Running? then 1 else 0)
  {
    if i == 0 {
      assert ws[i := y][1..] == ws[1..];
    } else {
      assert ws[i := y][1..] == ws[1..][i - 1 := y];
      BusyUpdate(ws[1..], i - 1, y);
    }
  }

  /** Work left for shutdown: queued items, running tasks, awake workers and joins. */
  ghost function Measure<T>(s: Pool<T>): nat
    requires s.joined <= |s.workers|
  {
    3 * |s.q.items| + 2 * Busy(s.workers) + |s.q.consAwake| + (|s.workers| - s.joined)
  }

  /** A step of the workers or of the shutting-down thread. */
  predicate IsOwn<T>(step: Step<T>) {
    IsWorkerStep(step) || step.Join?
  }

  /** Steps that a step of a submitter or of the scheduler can add, itself included. */
  function Extra<T>(step: Step<T>): nat {
    match step
    case SubmitEnqueue(_, _) => 5
    case SpuriousWake(_) => 2
    case SubmitRefused(_) => 1
    case _ => 0
  }

  ghost function Extras<T>(steps: seq<Step<T>>): nat {
    if steps == [] then 0 else Extra(steps[0]) + Extras(steps[1..])
  }

  lemma WorkerStepShrinks<T>(s: Pool<T>, step: Step<T>)
    requires QueueInv(s) && s.joined <= |s.workers| && Enabled(s, step) && IsWorkerStep(step)
    ensures Next(s, step).joined <= |Next(s, step).workers| && Measure(Next(s, step)) < Measure(s)
  {
    match step
    case WorkerDequeue(w, wake) =>
      assert |s.q.consAwake - {w}| == |s.q.consAwake| - 1;
      if s.q.items != [] {
        BusyUpdate(s.workers, w, Received(s.q.items[0]));
      }
    case WorkerFinish(w) =>
      assert |s.q.consAwake + {w}| == |s.q.consAwake| + 1;
      BusyUpdate(s.workers, w, Waiting);
  }

  /** A late submit adds an item and may wake a worker. */
  lemma LateEnqueueAdds<T>(s: Pool<T>, t: nat, wake: Option<nat>)
    requires QueueInv(s) && s.joined <= |s.workers| && Enabled(s, SubmitEnqueue(t, wake))
    ensures Measure(Next(s, SubmitEnqueue(t, wake))) <= Measure(s) + 4
  {
    if wake.Some? {
      assert |s.q.consAwake + {wake.value}| <= |s.q.consAwake| + 1;
    }
  }

  lemma ShutdownStep<T(!new)>(s: Pool<T>, step: Step<T>)
    requires Inv(s) && s.shuttingDown && s.sent == |s.workers| && Enabled(s, step)
    ensures var s' := Next(s, step);
            && Inv(s') && s'.shuttingDown && s'.sent == |s'.workers|
            && 1 + Measure(s') <= Measure(s) + Extra(step)
  {
    StepKeepsInv(s, step);
    match step
    case WorkerDequeue(_, _) => WorkerStepShrinks(s, step);
    case WorkerFinish(_) => WorkerStepShrinks(s, step);
    case SubmitEnqueue(t, wake) => LateEnqueueAdds(s, t, wake);
    case SpuriousWake(w) => assert |s.q.consAwake + {w}| == |s.q.consAwake| + 1;
    case _ =>
  }

  /** Shutdown progress: once all sentinels are queued, a run is no longer than its measure, late
      submits, refused ones and spurious wakes allow, and one in which neither a worker nor the
      shutting-down thread can move has joined every worker. */
  lemma {:induction false} ShutdownTerminates<T(!new)>(s: Pool<T>, steps: seq<Step<T>>)
    requires Inv(s) && s.shuttingDown && s.sent == |s.workers| && Runs(s, steps)
    ensures var z := After(s, steps);
            && z.joined <= |z.workers| == |s.workers|
            && |steps| + Measure(z) <= Measure(s) + Extras(steps)
            && ((forall step :: IsOwn(step) ==> !Enabled(z, step)) ==> AllExited(z) && z.joined == |z.workers|)
    decreases |steps|
  {
    if steps == [] {
      StuckIsJoined(s);
    } else {
      ShutdownStep(s, steps[0]);
      StepKeepsInv(s, steps[0]);
      ShutdownTerminates(Next(s, steps[0]), steps[1..]);
    }
  }

  lemma StuckIsJoined<T(!new)>(s: Pool<T>)
    requires Inv(s) && s.sent == |s.workers|
    ensures (forall step :: IsOwn(step) ==> !Enabled(s, step)) ==> AllExited(s) && s.joined == |s.workers|
  {
    if !AllExited(s) {
      var step := ShutdownProgress(s);
      assert IsOwn(step) && Enabled(s, step);
    } else if s.joined < |s.workers| {
      assert IsOwn<T>(Join) && Enabled(s, Join);
    }
  }

  // ---- Ownership of the submitted warnings ----

  /** How often a warning was handed to cp_dispatcher_submit. */
  ghost function HandedIn<T>(s: Pool<T>, task: T): nat {
    Occ(s.accepted, task) + Occ(s.rejected, task)
  }

  /** How often it was destroyed: by the job function after sending, or by a refused submit. The
      queue's destructor frees only the job records, not the warnings. */
  ghost function Destroyed<T>(s: Pool<T>, task: T): nat {
    Occ(s.completed, task) + Occ(s.rejected, task)
  }

  /** All sentinels have been sent and nothing has been enqueued since. */
  predicate AtLastSentinel<T(==)>(s: Pool<T>) {
    s.shuttingDown && s.sent == |s.workers| && s.q.enqueued != [] && s.q.enqueued[|s.q.enqueued| - 1] == None
  }

  /** What can still change after the last sentinel. */
  ghost predicate LaterThan<T>(a: Pool<T>, s: Pool<T>) {
    && s.accepted == a.accepted && s.shuttingDown && s.sent == |s.workers| == |a.workers|
    && a.q.enqueued <= s.q.enqueued && None !in s.q.enqueued[|a.q.enqueued|..]
  }

  lemma LaterStep<T>(a: Pool<T>, s: Pool<T>, step: Step<T>)
    requires LaterThan(a, s) && QueueInv(s) && Enabled(s, step)
    ensures LaterThan(a, Next(s, step))
  {
    match step
    case SubmitEnqueue(t, wake) =>
      var x, k := s.q.prodAwake[t], |a.q.enqueued|;
      assert (s.q.enqueued + [x])[k..] == s.q.enqueued[k..] + [x];
    case WorkerDequeue(w, wake) => WorkersLeaveSubmits(s, step);
    case WorkerFinish(w) => WorkersLeaveSubmits(s, step);
    case _ =>
  }

  lemma {:induction false} LaterRun<T(!new)>(a: Pool<T>, s: Pool<T>, steps: seq<Step<T>>)
    requires LaterThan(a, s) && Inv(s) && Runs(s, steps)
    ensures LaterThan(a, After(s, steps)) && Inv(After(s, steps))
    decreases |steps|
  {
    if steps != [] {
      LaterStep(a, s, steps[0]);
      StepKeepsInv(s, steps[0]);
      LaterRun(a, Next(s, steps[0]), steps[1..]);
    }
  }

  /** Once all workers have exited, what was dequeued is exactly what had been enqueued up to the last
      sentinel. */
  lemma DrainedToLastSentinel<T(!new)>(a: Pool<T>, s: Pool<T>)
    requires AtLastSentinel(a) && LaterThan(a, s) && Inv(s) && AllExited(s) && s.workers != []
    ensures s.q.dequeued == a.q.enqueued
  {
    OccMember(s.workers, Exited);
    OccAppend(s.q.dequeued, s.q.items, None);
    OccMember(s.q.items, None);
    SameCut(s.q.enqueued, s.q.dequeued, a.q.enqueued);
  }

  /** Two prefixes that end in None, with no None behind either, are the same. */
  lemma SameCut<X>(all: seq<Option<X>>, a: seq<Option<X>>, b: seq<Option<X>>)
    requires a <= all && b <= all && a != [] && b != []
    requires a[|a| - 1] == None && b[|b| - 1] == None
    requires None !in all[|a|..] && None !in all[|b|..]
    ensures a == b
  {
  }

  /** The account of every warning: after the joins, what was handed in and not destroyed are exactly
      the submits that were still on their way when the last sentinel was enqueued. */
  lemma LeaksAreInFlight<T(!new)>(a: Pool<T>, post: seq<Step<T>>, task: T)
    requires Inv(a) && a.workers != [] && AtLastSentinel(a)
    requires Runs(a, post) && After(a, post).joined == |a.workers|
    ensures var s := After(a, post);
            HandedIn(s, task) == Destroyed(s, task) + |Pending(a.q.prodAwake, task)|
  {
    assert a.q.enqueued[|a.q.enqueued|..] == [];
    LaterRun(a, a, post);
    var s := After(a, post);
    DrainedToLastSentinel(a, s);
    OccMember(s.workers, Running(task));
  }

  /** The state after the first k steps of a run. */
  ghost function StateAt<T>(s: Pool<T>, steps: seq<Step<T>>, k: nat): Pool<T>
    requires Runs(s, steps) && k <= |steps|
    decreases k
  {
    if k == 0 then s else StateAt(Next(s, steps[0]), steps[1..], k - 1)
  }

  lemma {:induction false} SplitRun<T>(s: Pool<T>, steps: seq<Step<T>>, k: nat)
    requires Runs(s, steps) && k <= |steps|
    ensures var a := StateAt(s, steps, k); Runs(a, steps[k..]) && After(a, steps[k..]) == After(s, steps)
    decreases k
  {
    if k == 0 {
      assert steps[0..] == steps;
    } else {
      var s', rest := Next(s, steps[0]), steps[1..];
      SplitRun(s', rest, k - 1);
      assert rest[k - 1..] == steps[k..];
      assert StateAt(s, steps, k) == StateAt(s', rest, k - 1);
    }
  }

  lemma {:induction false} StateAtInv<T(!new)>(s: Pool<T>, steps: seq<Step<T>>, k: nat)
    requires Inv(s) && Runs(s, steps) && k <= |steps|
    ensures Inv(StateAt(s, steps, k)) && |StateAt(s, steps, k).workers| == |s.workers|
    decreases k
  {
    if k != 0 {
      StepKeepsInv(s, steps[0]);
      StateAtInv(Next(s, steps[0]), steps[1..], k - 1);
    }
  }

  lemma LastSentinelStep<T(!new)>(s: Pool<T>, step: Step<T>)
    requires Inv(s) && s.sent < |s.workers| && Enabled(s, step) && Next(s, step).sent == |s.workers|
    ensures step.SendSentinel? && AtLastSentinel(Next(s, step))
  {
    SentinelStep(s, step.wake);
  }

  lemma RunsFrom<T>(s: Pool<T>, step: Step<T>, rest: seq<Step<T>>)
    requires Enabled(s, step) && Runs(Next(s, step), rest)
    ensures Runs(s, [step] + rest) && After(s, [step] + rest) == After(Next(s, step), rest)
  {
    assert ([step] + rest)[1..] == rest;
  }

  /** Every run that completes the shutdown sends a last sentinel. */
  lemma {:induction false} SendsLastSentinel<T(!new)>(s: Pool<T>, steps: seq<Step<T>>) returns (k: nat)
    requires Inv(s) && s.sent < |s.workers| && Runs(s, steps) && After(s, steps).joined == |s.workers|
    ensures 0 < k <= |steps| && AtLastSentinel(StateAt(s, steps, k))
    decreases |steps|
  {
    StepKeepsInv(s, steps[0]);
    if Next(s, steps[0]).sent == |s.workers| {
      LastSentinelStep(s, steps[0]);
      k := 1;
    } else {
      k := SendsLastSentinel(Next(s, steps[0]), steps[1..]);
      k := k + 1;
    }
  }

  /** Ownership of the submitted warnings, in every run that completes the shutdown: a warning has been
      destroyed as often as it was handed in if and only if no submit of it was on its way when the
      last sentinel was enqueued; otherwise exactly those submits have leaked it. */
  lemma DestroyedIffNotLate<T(!new)>(n: nat, steps: seq<Step<T>>, k: nat, task: T)
    requires n > 0 && Runs(Init<T>(n), steps) && After(Init<T>(n), steps).joined == n
    requires k <= |steps| && AtLastSentinel(StateAt(Init<T>(n), steps, k))
    ensures var a, s := StateAt(Init<T>(n), steps, k), After(Init<T>(n), steps);
            && HandedIn(s, task) == Destroyed(s, task) + |Pending(a.q.prodAwake, task)|
            && (Destroyed(s, task) == HandedIn(s, task) <==> Pending(a.q.prodAwake, task) == {})
  {
    InitInv<T>(n);
    SplitRun(Init<T>(n), steps, k);
    StateAtInv(Init<T>(n), steps, k);
    LeaksAreInFlight(StateAt(Init<T>(n), steps, k), steps[k..], task);
  }

  // ---- What the caller of tp_shutdown can check ----

  /** The completed shutdown `post` from s leaves the warning undestroyed. */
  ghost predicate Leaks<T>(s: Pool<T>, post: seq<Step<T>>, task: T) {
    Runs(s, post) && After(s, post).joined == |s.workers| && Destroyed(After(s, post), task) != HandedIn(After(s, post), task)
  }

  lemma ShutdownPendingStep<T>(s: Pool<T>, step: Step<T>, task: T)
    requires QueueInv(s) && s.shuttingDown && Enabled(s, step)
    ensures Next(s, step).shuttingDown && Pending(Next(s, step).q.prodAwake, task) <= Pending(s.q.prodAwake, task)
  {
    if IsWorkerStep(step) {
      WorkersLeaveSubmits(s, step);
    }
  }

  /** No new submit starts once the flag is set. */
  lemma {:induction false} ShutdownPending<T(!new)>(s: Pool<T>, steps: seq<Step<T>>, k: nat, task: T)
    requires Inv(s) && s.shuttingDown && Runs(s, steps) && k <= |steps|
    ensures Pending(StateAt(s, steps, k).q.prodAwake, task) <= Pending(s.q.prodAwake, task)
    decreases k
  {
    if k != 0 {
      StepKeepsInv(s, steps[0]);
      ShutdownPendingStep(s, steps[0], task);
      ShutdownPending(Next(s, steps[0]), steps[1..], k - 1, task);
    }
  }

  /** Shutdown can send its sentinels ahead of every submit that is on its way. */
  lemma {:induction false} SendAll<T(!new)>(s: Pool<T>) returns (steps: seq<Step<T>>)
    requires Inv(s) && s.shuttingDown && s.sent < |s.workers|
    ensures Runs(s, steps) && Inv(After(s, steps)) && AtLastSentinel(After(s, steps))
    ensures After(s, steps).q.prodAwake == s.q.prodAwake && |After(s, steps).workers| == |s.workers|
    decreases |s.workers| - s.sent
  {
    var step := SendOne(s);
    var s' := Next(s, step);
    StepKeepsInv(s, step);
    var rest := [];
    if s'.sent == |s.workers| {
      LastSentinelStep(s, step);
    } else {
      rest := SendAll(s');
    }
    RunsFrom(s, step, rest);
    steps := [step] + rest;
  }

  lemma SendOne<T(!new)>(s: Pool<T>) returns (step: Step<T>)
    requires Inv(s) && s.shuttingDown && s.sent < |s.workers|
    ensures step.SendSentinel? && Enabled(s, step)
    ensures Next(s, step).q.prodAwake == s.q.prodAwake
  {
    var wake: Option<nat> := None;
    if s.q.consAsleep != {} {
      var w :| w in s.q.consAsleep;
      wake := Some(w);
    }
    step := SendSentinel(wake);
  }

  /** The workers can finish and be joined. */
  lemma {:induction false} JoinAll<T(!new)>(s: Pool<T>) returns (steps: seq<Step<T>>)
    requires Inv(s) && s.sent == |s.workers|
    ensures Runs(s, steps) && After(s, steps).joined == |s.workers|
    decreases Measure(s)
  {
    steps := [];
    if s.joined < |s.workers| {
      var step := Join;
      if !AllExited(s) {
        step := ShutdownProgress(s);
        WorkerStepShrinks(s, step);
      }
      StepKeepsInv(s, step);
      var rest := JoinAll(Next(s, step));
      RunsFrom(s, step, rest);
      steps := [step] + rest;
    }
  }

  /** Exactly when a shutdown can leak a warning: when it begins with a submit of it on its way. */
  lemma ShutdownMayLeakIff<T(!new)>(n: nat, pre: seq<Step<T>>, task: T)
    requires n > 0 && Runs(Init<T>(n), pre) && !After(Init<T>(n), pre).shuttingDown
    ensures var s := After(Init<T>(n), pre);
            (exists post :: Leaks(Next(s, BeginShutdown), post, task)) <==> Pending(s.q.prodAwake, task) != {}
  {
    Reached(n, pre);
    var s := After(Init<T>(n), pre);
    StepKeepsInv(s, BeginShutdown);
    var b := Next(s, BeginShutdown);
    if Pending(s.q.prodAwake, task) != {} {
      var post := LeakingShutdown(b, task);
    }
    if post :| Leaks(b, post, task) {
      LeakWasPending(b, post, task);
    }
  }

  lemma LeakingShutdown<T(!new)>(b: Pool<T>, task: T) returns (post: seq<Step<T>>)
    requires Inv(b) && b.shuttingDown && b.sent < |b.workers| && Pending(b.q.prodAwake, task) != {}
    ensures Leaks(b, post, task)
  {
    var sends := SendAll(b);
    var a := After(b, sends);
    var rest := JoinAll(a);
    LeaksAreInFlight(a, rest, task);
    RunsAppend(b, sends, rest);
    post := sends + rest;
  }

  lemma LeakWasPending<T(!new)>(b: Pool<T>, post: seq<Step<T>>, task: T)
    requires Inv(b) && b.shuttingDown && b.sent < |b.workers| && Leaks(b, post, task)
    ensures Pending(b.q.prodAwake, task) != {}
  {
    var k := SendsLastSentinel(b, post);
    SplitRun(b, post, k);
    StateAtInv(b, post, k);
    LeaksAreInFlight(StateAt(b, post, k), post[k..], task);
    ShutdownPending(b, post, k, task);
  }

  lemma {:induction false} RunsAppend<T>(s: Pool<T>, a: seq<Step<T>>, b: seq<Step<T>>)
    requires Runs(s, a) && Runs(After(s, a), b)
    ensures Runs(s, a + b) && After(s, a + b) == After(After(s, a), b)
    decreases |a|
  {
    if a == [] {
      assert a + b == b;
    } else {
      RunsAppend(Next(s, a[0]), a[1..], b);
      RunsFrom(s, a[0], a[1..] + b);
      assert a + b == [a[0]] + (a[1..] + b);
    }
  }

  /** A caller that stops all submitters first, by joining the listener, leaks nothing. */
  lemma NoLeakWhenQuiet<T(!new)>(n: nat, pre: seq<Step<T>>, post: seq<Step<T>>, task: T)
    requires n > 0 && Runs(Init<T>(n), pre) && !After(Init<T>(n), pre).shuttingDown
    requires After(Init<T>(n), pre).q.prodAwake == map[]
    requires var b := Next(After(Init<T>(n), pre), BeginShutdown); Runs(b, post) && After(b, post).joined == n
    ensures var s := After(Next(After(Init<T>(n), pre), BeginShutdown), post); Destroyed(s, task) == HandedIn(s, task)
  {
    ShutdownMayLeakIff(n, pre, task);
    Reached(n, pre);
    assert !Leaks(Next(After(Init<T>(n), pre), BeginShutdown), post, task);
  }

  /** One worker: a submit has passed the flag check, and shutdown has overtaken it with its sentinel. */
  function Overtaken<T>(x: T): Pool<T> {
    Pool(Q.State(0, [None], {0}, {}, map[1 := Some(x)], map[], [None], []), [Waiting], true, 1, 0, [], [x], [])
  }

  lemma CanOvertake<T>(x: T)
    ensures var steps := [Submit(1, x), BeginShutdown, SendSentinel(None)];
            Runs(Init<T>(1), steps) && After(Init<T>(1), steps) == Overtaken(x)
  {
    var s0 := Init<T>(1);
    var s1 := Next(s0, Submit(1, x));
    var s2 := Next(s1, BeginShutdown);
    assert s0.q.consAwake == {0} && s0.workers == [Waiting];
    RunsFrom(s2, SendSentinel(None), []);
    RunsFrom(s1, BeginShutdown, [SendSentinel(None)]);
    RunsFrom(s0, Submit(1, x), [BeginShutdown, SendSentinel(None)]);
    assert Next(s2, SendSentinel(None)) == Overtaken(x);
  }

  lemma LeaksWhenOvertaken<T>(x: T)
    ensures var s, steps := Overtaken(x), [WorkerDequeue(0, None), Join, SubmitEnqueue(1, None)];
            && Runs(s, steps) && After(s, steps).joined == 1
            && After(s, steps).q.items == [Some(x)] && After(s, steps).q.prodAwake == map[]
            && After(s, steps).accepted == [x] && After(s, steps).rejected == [] && After(s, steps).completed == []
  {
    var s3, last: Step<T> := Overtaken(x), SubmitEnqueue(1, None);
    var s4 := Next(s3, WorkerDequeue(0, None));
    assert s4.q.items == [] && s4.workers == [Exited];
    var s5 := Next(s4, Join);
    assert Next(s5, last).q.prodAwake == map[];
    RunsFrom(s5, last, []);
    RunsFrom(s4, Join, [last]);
    RunsFrom(s3, WorkerDequeue(0, None), [Join, last]);
    assert [Join] + [last] == [Join, last];
    assert [WorkerDequeue(0, None)] + [Join, last] == [WorkerDequeue(0, None), Join, last];
  }

  /** A run that leaks, with one worker: a submit passes the flag check, shutdown sends its sentinel and
      joins the worker, and only then the submit enqueues its job. */
  lemma LateSubmitLeaks<T(!new)>(x: T) returns (steps: seq<Step<T>>)
    ensures Runs(Init<T>(1), steps)
    ensures var s := After(Init<T>(1), steps);
            && s.joined == 1 && s.q.items == [Some(x)] && s.q.prodAwake == map[]
            && HandedIn(s, x) == 1 && Destroyed(s, x) == 0
  {
    CanOvertake(x);
    LeaksWhenOvertaken(x);
    OccOne(x, x);
    var pre, post := [Submit(1, x), BeginShutdown, SendSentinel(None)], [WorkerDequeue(0, None), Join, SubmitEnqueue(1, None)];
    RunsAppend(Init<T>(1), pre, post);
    steps := pre + post;
  }
}
