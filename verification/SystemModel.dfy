/** The whole system as one step machine: generator and sender of the data source, and at every node
    of the tree a listener that reads one connection after another, a blocking queue, and the threads
    that sleep on it and take from it. At a propagator these threads forward, over connections that they
    share; at a destination the one thread counts. A send may fail. If it was short, the thread closes
    the connection in a later step, and other threads may send on the connection in between. */
module SystemModel {
  import opened Basics
  import opened WireFormat
  import opened Topology
  import opened Streams
  import opened Mailbox
  import Q = TSQueue

  const NUMBER_OF_WARNINGS: nat := 10000
  /** Workers of a propagator in the repository; the model takes any number. */
  const THREAD_POOL_SIZE: nat := 4

  /** One process of the tree. Thread h of its pool, or its processor, is consumer h of the queue. */
  datatype Site = Site(
    inbox: Inbox,
    queue: Q.State<Warning>,
    hands: seq<Option<Warning>>,      // what each worker or the processor is working on
    closing: map<nat, nat>,           // threads between a short send and the close, with the node sent to
    counted: seq<Warning>)            // counted by a destination's processor

  /** The sender: inside its dequeue, holding a warning, between a short send and the close, or gone. */
  datatype Sender = Ready | Holding(w: Warning) | Closing(hop: nat) | Stopped

  datatype System = System(
    generated: seq<Warning>,
    generating: bool,
    source: Q.State<Warning>,         // the data source's queue; a NULL item is the sentinel
    sender: Sender,
    sites: seq<Site>,
    lost: seq<Warning>)               // destroyed after a failed send

  datatype Step =
    | Generate(d: nat, kind: uint32, value: uint64, timestamp: uint64, wake: Option<nat>)
    | EndGeneration(wake: Option<nat>)
    | SourceTake
    | SourceSend(x: Sending)
    | SourceDisconnect
    | SourceSpurious
    | Receive(n: nat, wake: Option<nat>)
    | Hangup(n: nat)
    | Take(n: nat, h: nat)
    | Finish(n: nat, h: nat, x: Sending)
    | Disconnect(n: nat, h: nat)
    | Spurious(n: nat, h: nat)

  /** The sender's number among the consumers of the data source's queue. */
  const SENDER: nat := 0
  /** The one thread that enqueues: the generator at the data source, the listener at a node. */
  const PRODUCER: nat := 0

  // ---- The configuration ----

  predicate UniqueEndpoints(rows: seq<Row>) {
    forall i, j :: 0 <= i < j < |rows| ==> rows[i].address != rows[j].address || rows[i].port != rows[j].port
  }

  /** Ids are C strings of one configuration line, which the parser reads into 512 bytes. */
  predicate ShortIds(rows: seq<Row>) {
    forall i :: 0 <= i < |rows| ==> CString(rows[i].id) && |rows[i].id| < 512
  }

  /** What the configuration must satisfy; the loader checks none of it. */
  ghost predicate Proper(rows: seq<Row>) {
    UniqueIds(rows) && UniqueEndpoints(rows) && ShortIds(rows) && Acyclic(ParentsOf(rows))
  }

  predicate IsDestination(rows: seq<Row>, i: nat) {
    i < |rows| && TypeOf(ParentsOf(rows), i) == DestinationNode
  }

  predicate HasDestination(rows: seq<Row>) {
    exists i :: 0 <= i < |rows| && IsDestination(rows, i)
  }

  /** The node a warning is addressed to. */
  function Target(rows: seq<Row>, w: Warning): (t: Option<nat>)
    ensures t.Some? ==> t.value < |rows|
  {
    LastIndex(rows, |rows|, w.dest)
  }

  /** The first node listening on an address and port. */
  function Listener(rows: seq<Row>, address: seq<byte>, port: uint16, i: nat): (r: nat)
    requires i <= |rows|
    ensures r <= |rows|
    ensures r < |rows| ==> rows[r].address == address && rows[r].port == port
    ensures forall j :: i <= j < r ==> rows[j].address != address || rows[j].port != port
    decreases |rows| - i
  {
    if i == |rows| || (rows[i].address == address && rows[i].port == port) then i
    else Listener(rows, address, port, i + 1)
  }

  // ---- Steps ----

  /** The process that listens where the node `hop` should. */
  function ListenerAt(rows: seq<Row>, hop: nat): nat
    requires hop < |rows|
  {
    Listener(rows, rows[hop].address, rows[hop].port, 0)
  }

  /** The send call to the node `hop` by process `from`; the data source is process |rows|. */
  function Deliver(rows: seq<Row>, s: System, from: nat, hop: nat, w: Warning, x: Sending): System
    requires hop < |rows| && Possible(w, x)
  {
    var n := ListenerAt(rows, hop);
    var s' := if x.Complete? then s else s.(lost := s.lost + [w]);
    if n < |s.sites| then s'.(sites := s.sites[n := s.sites[n].(inbox := Sent(s.sites[n].inbox, from, w, x))]) else s'
  }

  /** close_connection by process `from`: closes whatever connection it has open to `hop`. */
  function Disconnected(rows: seq<Row>, s: System, from: nat, hop: nat): System {
    if hop < |rows| && ListenerAt(rows, hop) < |s.sites| then
      var n := ListenerAt(rows, hop);
      s.(sites := s.sites[n := s.sites[n].(inbox := Shut(s.sites[n].inbox, from))])
    else s
  }

  function NewWarning(rows: seq<Row>, d: nat, kind: uint32, value: uint64, timestamp: uint64): Warning
    requires d < |rows|
  {
    Warning(rows[d].id, kind, value, timestamp, rows[d].id)
  }

  predicate Enabled(rows: seq<Row>, s: System, step: Step) {
    match step
    case Generate(d, kind, value, timestamp, wake) =>
      && s.generating && |s.generated| < NUMBER_OF_WARNINGS && IsDestination(rows, d)
      && CanPut(s.source, PRODUCER, Some(NewWarning(rows, d, kind, value, timestamp)), wake)
    case EndGeneration(wake) =>
      && s.generating && (|s.generated| == NUMBER_OF_WARNINGS || !HasDestination(rows))
      && CanPut(s.source, PRODUCER, None, wake)
    case SourceTake => s.sender.Ready? && CanTake(s.source, SENDER)
    case SourceSend(x) =>
      s.sender.Holding? && Possible(s.sender.w, x) && Q.Enabled(s.source, Q.CallDequeue(SENDER))
    case SourceDisconnect => s.sender.Closing? && Q.Enabled(s.source, Q.CallDequeue(SENDER))
    case SourceSpurious => Q.Enabled(s.source, Q.SpuriousConsumer(SENDER))
    case Disconnect(n, h) =>
      && n < |s.sites| && h in s.sites[n].closing && h < |s.sites[n].hands|
      && Q.Enabled(s.sites[n].queue, Q.CallDequeue(h))
    case Finish(n, h, x) =>
      && n < |s.sites| && h < |s.sites[n].hands| && s.sites[n].hands[h].Some?
      && Possible(s.sites[n].hands[h].value, x) && Q.Enabled(s.sites[n].queue, Q.CallDequeue(h))
    case _ => step.n < |s.sites| && LocalEnabled(s.sites[step.n], step)
  }

  /** A step that changes one node and nothing else. */
  predicate IsLocal(step: Step) {
    step.Receive? || step.Hangup? || step.Take? || step.Spurious?
  }

  predicate LocalEnabled(site: Site, step: Step)
    requires IsLocal(step)
  {
    match step
    case Receive(_, wake) =>
      Readable(site.inbox) && CanPut(site.queue, PRODUCER, Some(Decode(site.inbox[0].bytes).value), wake)
    case Hangup(_) => AtEnd(site.inbox)
    case Take(_, h) => h < |site.hands| && site.hands[h].None? && h !in site.closing && CanTake(site.queue, h)
    case Spurious(_, h) => Q.Enabled(site.queue, Q.SpuriousConsumer(h))
  }

  function LocalNext(site: Site, step: Step): Site
    requires IsLocal(step) && LocalEnabled(site, step)
  {
    match step
    case Receive(_, wake) => Received(site, wake)
    case Hangup(_) => site.(inbox := site.inbox[1..])
    case Take(_, h) => Taken(site, h)
    case Spurious(_, h) => Woken(site, h)
  }

  ghost function Next(rows: seq<Row>, s: System, step: Step): System
    requires Acyclic(ParentsOf(rows)) && |s.sites| == |rows| && Enabled(rows, s, step)
  {
    match step
    case Generate(d, kind, value, timestamp, wake) =>
      var w := NewWarning(rows, d, kind, value, timestamp);
      s.(generated := s.generated + [w], source := Put(s.source, PRODUCER, Some(w), wake))
    case EndGeneration(wake) =>
      s.(generating := false, source := if HasDestination(rows) then Put(s.source, PRODUCER, None, wake) else s.source)
    case SourceTake =>
      s.(source := TakeNext(s.source, SENDER), sender := Fetched(s.source.items))
    case SourceSend(x) => SendFromSource(rows, s, x)
    case SourceDisconnect => Disconnected(rows, SenderBack(s), |rows|, s.sender.hop)
    case Disconnect(n, h) => Disconnected(rows, Back(s, n, h), n, s.sites[n].closing[h])
    case SourceSpurious => s.(source := Q.Next(s.source, Q.SpuriousConsumer(SENDER)))
    case Finish(n, h, x) => if IsDestination(rows, n) then CountOne(s, n, h) else Forward(rows, s, n, h, x)
    case _ => s.(sites := s.sites[step.n := LocalNext(s.sites[step.n], step)])
  }

  /** The sender after one section of its dequeue. */
  function Fetched(items: seq<Option<Warning>>): Sender {
    if items == [] then Ready else match items[0] case None => Stopped case Some(w) => Holding(w)
  }

  /** The sender back in its dequeue. */
  function SenderBack(s: System): System
    requires Q.Enabled(s.source, Q.CallDequeue(SENDER))
  {
    s.(sender := Ready, source := Q.Next(s.source, Q.CallDequeue(SENDER)))
  }

  /** The sender after a send to `hop`: back in its dequeue, or about to close the connection. */
  function AfterSend(s: System, hop: nat, x: Sending): System
    requires Q.Enabled(s.source, Q.CallDequeue(SENDER))
  {
    if x.Partial? then s.(sender := Closing(hop)) else SenderBack(s)
  }

  /** The sender looks up the destination and sends to its root. */
  ghost function SendFromSource(rows: seq<Row>, s: System, x: Sending): System
    requires Acyclic(ParentsOf(rows)) && s.sender.Holding? && Possible(s.sender.w, x)
    requires Q.Enabled(s.source, Q.CallDequeue(SENDER))
  {
    var w := s.sender.w;
    var d := Target(rows, w);
    if d.None? then SenderBack(s).(lost := s.lost + [w]) else
      var root := Root(ParentsOf(rows), d.value);
      Deliver(rows, AfterSend(s, root, x), |rows|, root, w, x)
  }

  /** The listener hands a frame's warning to the queue. */
  function Received(site: Site, wake: Option<nat>): Site
    requires Readable(site.inbox) && CanPut(site.queue, PRODUCER, Some(Decode(site.inbox[0].bytes).value), wake)
  {
    site.(inbox := Read(site.inbox), queue := Put(site.queue, PRODUCER, Some(Decode(site.inbox[0].bytes).value), wake))
  }

  /** Thread h takes the first warning, or falls asleep. */
  function Taken(site: Site, h: nat): Site
    requires h < |site.hands| && CanTake(site.queue, h)
  {
    site.(queue := TakeNext(site.queue, h),
          hands := if site.queue.items == [] then site.hands else site.hands[h := site.queue.items[0]])
  }

  function Woken(site: Site, h: nat): Site
    requires Q.Enabled(site.queue, Q.SpuriousConsumer(h))
  {
    site.(queue := Q.Next(site.queue, Q.SpuriousConsumer(h)))
  }

  /** The site after thread h has let go of its warning or closed a connection, and called dequeue again. */
  function Released(site: Site, h: nat): Site
    requires h < |site.hands| && Q.Enabled(site.queue, Q.CallDequeue(h))
  {
    site.(hands := site.hands[h := None], closing := site.closing - {h}, queue := Q.Next(site.queue, Q.CallDequeue(h)))
  }

  /** The site after a send of thread h to `hop`: it is back in its dequeue, or about to close the
      connection. */
  function LetGo(site: Site, h: nat, hop: nat, x: Sending): Site
    requires h < |site.hands| && Q.Enabled(site.queue, Q.CallDequeue(h))
  {
    if x.Partial? then site.(hands := site.hands[h := None], closing := site.closing[h := hop]) else Released(site, h)
  }

  /** Thread h of node n back in its dequeue. */
  function Back(s: System, n: nat, h: nat): System
    requires n < |s.sites| && h < |s.sites[n].hands| && Q.Enabled(s.sites[n].queue, Q.CallDequeue(h))
  {
    s.(sites := s.sites[n := Released(s.sites[n], h)])
  }

  /** The processor of a destination counts the warning in hand. */
  function CountOne(s: System, n: nat, h: nat): System
    requires n < |s.sites| && h < |s.sites[n].hands| && s.sites[n].hands[h].Some?
    requires Q.Enabled(s.sites[n].queue, Q.CallDequeue(h))
  {
    var site := s.sites[n];
    s.(sites := s.sites[n := Released(site, h).(counted := site.counted + [site.hands[h].value])])
  }

  /** A worker of a propagator sends the warning in hand to the next hop and destroys its copy. */
  ghost function Forward(rows: seq<Row>, s: System, n: nat, h: nat, x: Sending): System
    requires Acyclic(ParentsOf(rows))
    requires n < |s.sites| && h < |s.sites[n].hands| && s.sites[n].hands[h].Some?
    requires Possible(s.sites[n].hands[h].value, x) && Q.Enabled(s.sites[n].queue, Q.CallDequeue(h))
  {
    var w := s.sites[n].hands[h].value;
    var hop := Hop(ParentsOf(rows), n, Target(rows, w));
    if hop < |rows| then
      Deliver(rows, s.(sites := s.sites[n := LetGo(s.sites[n], h, hop, x)]), n, hop, w, x)
    else Back(s, n, h).(lost := s.lost + [w])
  }

  /** A send by process `from` would put bytes behind those of a short send, before the close. */
  predicate WouldOverlap(rows: seq<Row>, s: System, from: nat, hop: nat, x: Sending) {
    && hop < |rows| && ListenerAt(rows, hop) < |s.sites|
    && Adds(x) && CutOpen(s.sites[ListenerAt(rows, hop)].inbox, from)
  }

  /** The step is a send on a connection between a short send on it and its close. */
  ghost predicate Overlaps(rows: seq<Row>, s: System, step: Step)
    requires Acyclic(ParentsOf(rows)) && Enabled(rows, s, step)
  {
    match step
    case SourceSend(x) =>
      var d := Target(rows, s.sender.w);
      d.Some? && WouldOverlap(rows, s, |rows|, Root(ParentsOf(rows), d.value), x)
    case Finish(n, h, x) =>
      !IsDestination(rows, n) && WouldOverlap(rows, s, n, Hop(ParentsOf(rows), n, Target(rows, s.sites[n].hands[h].value)), x)
    case _ => false
  }

  /** All threads of a node have entered their first dequeue; a propagator has `threads` of them. */
  function IdleSite(rows: seq<Row>, n: nat, threads: nat): Site {
    StartedSite(if IsDestination(rows, n) then 1 else threads)
  }

  function StartedSite(threads: nat): Site {
    Site([], Q.Init(0).(consAwake := Below(threads)), seq(threads, _ => None), map[], [])
  }

  function Init(rows: seq<Row>, threads: nat): System {
    System([], true, Q.Init(0).(consAwake := {SENDER}), Ready,
           seq(|rows|, n requires n >= 0 => IdleSite(rows, n, threads)), [])
  }

  ghost predicate Runs(rows: seq<Row>, s: System, steps: seq<Step>)
    requires Acyclic(ParentsOf(rows))
    decreases |steps|
  {
    |s.sites| == |rows| &&
    (steps != [] ==> Enabled(rows, s, steps[0]) && Runs(rows, Next(rows, s, steps[0]), steps[1..]))
  }

  ghost function After(rows: seq<Row>, s: System, steps: seq<Step>): System
    requires Acyclic(ParentsOf(rows)) && Runs(rows, s, steps)
    decreases |steps|
  {
    if steps == [] then s else After(rows, Next(rows, s, steps[0]), steps[1..])
  }

  /** No send of the run falls between a short send on its connection and the close. */
  ghost predicate Clean(rows: seq<Row>, s: System, steps: seq<Step>)
    requires Acyclic(ParentsOf(rows)) && Runs(rows, s, steps)
    decreases |steps|
  {
    steps != [] ==> !Overlaps(rows, s, steps[0]) && Clean(rows, Next(rows, s, steps[0]), steps[1..])
  }

  predicate IsSpurious(step: Step) {
    step.Spurious? || step.SourceSpurious?
  }

  /** No send of the run fails. */
  predicate NoFailures(steps: seq<Step>) {
    forall i :: 0 <= i < |steps| ==> (steps[i].SourceSend? || steps[i].Finish?) ==> steps[i].x.Complete?
  }

  /** Nothing but a spurious wake is possible any more. */
  ghost predicate Quiescent(rows: seq<Row>, s: System) {
    forall step :: Enabled(rows, s, step) ==> IsSpurious(step)
  }
}
