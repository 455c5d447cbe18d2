/** What happens when two workers share a connection and one sends between the other's short send and
    its close. In a chain of three nodes, and with any pool of at least two workers, a run delivers a
    warning that was given up as lost and loses one that was reported as sent; another run never comes
    to rest. With one worker neither can happen, so the number of workers decides. */
module SharedConnection {
  import opened Basics
  import opened WireFormat
  import opened Topology
  import opened Streams
  import opened Mailbox
  import opened SystemModel
  import opened Accounting
  import opened Delivery
  import opened Overlap
  import opened Progress
  import opened CutFrames
  import Q = TSQueue

  // ---- A chain of three nodes ----

  /** Root "R", propagator "P" below it, destination "DD" below that. */
  function Chain(): seq<Row> {
    [Row([82], [49], 1, None), Row([80], [49], 2, Some([82])), Row([68, 68], [49], 3, Some([80]))]
  }

  lemma ChainIds(id: seq<byte>)
    ensures LastIndex(Chain(), 3, id) ==
              if id == [68, 68] then Some(2) else if id == [80] then Some(1) else if id == [82] then Some(0) else None
  {
    assert LastIndex(Chain(), 0, id) == None;
    assert LastIndex(Chain(), 1, id) == if id == [82] then Some(0) else None;
    assert LastIndex(Chain(), 2, id) == if id == [80] then Some(1) else LastIndex(Chain(), 1, id);
  }

  lemma ChainParents()
    ensures ParentsOf(Chain()) == [None, Some(0), Some(1)]
  {
    ChainIds([82]);
    ChainIds([80]);
  }

  lemma ChainProper()
    ensures Proper(Chain())
  {
    ChainParents();
    assert IsDepth(ParentsOf(Chain()), [0, 1, 2]);
  }

  lemma ChainTypes()
    ensures !IsDestination(Chain(), 0) && !IsDestination(Chain(), 1) && IsDestination(Chain(), 2)
  {
    ChainParents();
    var p := ParentsOf(Chain());
    ChildrenExact(p, 1, 3, 2);
    assert Children(p, 1) != [];
    if Children(p, 2) != [] {
      assert Children(p, 2)[0] in Children(p, 2);
      ChildrenExact(p, 2, 3, Children(p, 2)[0]);
    }
  }

  /** Two warnings for the destination. */
  function A(): Warning {
    NewWarning(Chain(), 2, 0, 0, 0)
  }

  function B(): Warning {
    NewWarning(Chain(), 2, 1, 0, 0)
  }

  lemma ChainHops(w: Warning)
    requires w.dest == [68, 68] && Sendable(w)
    ensures Proper(Chain()) && Target(Chain(), w) == Some(2)
    ensures Root(ParentsOf(Chain()), 2) == 0 && Hop(ParentsOf(Chain()), 0, Some(2)) == 1
  {
    ChainProper();
    ChainTypes();
    ChainParents();
    ChainIds(w.dest);
    RootOnRoute(Chain(), w);
    HopStaysOnRoute(Chain(), 0, w);
  }

  lemma ChainListeners(hop: nat)
    requires hop < 3
    ensures ListenerAt(Chain(), hop) == hop
  {
    ListenerIsHop(Chain(), hop);
  }

  /** The steps lead from s to s', without a spurious wake. */
  ghost predicate Leads(s: System, steps: seq<Step>, s': System) {
    && Proper(Chain()) && Runs(Chain(), s, steps) && After(Chain(), s, steps) == s'
    && Extras(steps) == 0
  }

  lemma LeadsOne(s: System, step: Step)
    requires Proper(Chain()) && |s.sites| == 3 && Enabled(Chain(), s, step) && !IsSpurious(step)
    requires |Next(Chain(), s, step).sites| == 3
    ensures Leads(s, [step], Next(Chain(), s, step))
  {
    RunsFrom(Chain(), s, step, []);
    assert [step][1..] == [];
  }

  lemma {:induction false} LeadsOn(s: System, a: seq<Step>, s1: System, b: seq<Step>, s2: System)
    requires Leads(s, a, s1) && Leads(s1, b, s2)
    ensures Leads(s, a + b, s2)
    decreases |a|
  {
    if a == [] {
      assert a + b == b;
    } else {
      assert (a + b)[0] == a[0] && (a + b)[1..] == a[1..] + b;
      LeadsOn(Next(Chain(), s, a[0]), a[1..], s1, b, s2);
    }
  }

  // ---- Queues in which nobody sleeps ----

  /** A queue whose threads `awake` are all awake. */
  function Lively(awake: set<nat>, items: seq<Option<Warning>>, enqueued: seq<Option<Warning>>, dequeued: seq<Option<Warning>>): Q.State<Warning> {
    Q.State(0, items, awake, {}, map[], map[], enqueued, dequeued)
  }

  lemma LivelyPut(awake: set<nat>, items: seq<Option<Warning>>, enqueued: seq<Option<Warning>>, dequeued: seq<Option<Warning>>, x: Option<Warning>)
    ensures CanPut(Lively(awake, items, enqueued, dequeued), PRODUCER, x, None)
    ensures Put(Lively(awake, items, enqueued, dequeued), PRODUCER, x, None) == Lively(awake, items + [x], enqueued + [x], dequeued)
  {
    PutIs(Lively(awake, items, enqueued, dequeued), PRODUCER, x, None);
  }

  lemma LivelyTake(awake: set<nat>, items: seq<Option<Warning>>, enqueued: seq<Option<Warning>>, dequeued: seq<Option<Warning>>, h: nat)
    requires h in awake && items != []
    ensures CanTake(Lively(awake, items, enqueued, dequeued), h)
    ensures TakeNext(Lively(awake, items, enqueued, dequeued), h)
         == Lively(awake - {h}, items[1..], enqueued, dequeued + [items[0]])
  {
  }

  // ---- The data source sends both warnings to the root ----

  /** The system while only the data source has moved. */
  function Sourcing(t: nat, generated: seq<Warning>, source: Q.State<Warning>, sender: Sender, inbox: Inbox): System {
    System(generated, true, source, sender, [StartedSite(t).(inbox := inbox), StartedSite(t), StartedSite(1)], [])
  }

  lemma StartsSourcing(t: nat)
    ensures Init(Chain(), t) == Sourcing(t, [], Lively({SENDER}, [], [], []), Ready, [])
  {
    ChainTypes();
    var s := Init(Chain(), t);
    assert s.sites[0] == StartedSite(t) && s.sites[1] == StartedSite(t) && s.sites[2] == StartedSite(1);
  }

  lemma GenerateStep(t: nat, generated: seq<Warning>, items: seq<Option<Warning>>, kind: uint32)
    requires |generated| < 2
    ensures var s := Sourcing(t, generated, Lively({SENDER}, items, items, []), Ready, []);
            var step := Generate(2, kind, 0, 0, None);
            var w := NewWarning(Chain(), 2, kind, 0, 0);
            && Proper(Chain()) && Enabled(Chain(), s, step)
            && Next(Chain(), s, step) == Sourcing(t, generated + [w], Lively({SENDER}, items + [Some(w)], items + [Some(w)], []), Ready, [])
  {
    ChainProper();
    ChainTypes();
    LivelyPut({SENDER}, items, items, [], Some(NewWarning(Chain(), 2, kind, 0, 0)));
  }

  lemma SourceTakeStep(t: nat, generated: seq<Warning>, w: Warning, items: seq<Option<Warning>>, enq: seq<Option<Warning>>, deq: seq<Option<Warning>>, inbox: Inbox)
    ensures var s := Sourcing(t, generated, Lively({SENDER}, [Some(w)] + items, enq, deq), Ready, inbox);
            && Proper(Chain()) && Enabled(Chain(), s, SourceTake)
            && Next(Chain(), s, SourceTake) == Sourcing(t, generated, Lively({}, items, enq, deq + [Some(w)]), Holding(w), inbox)
  {
    ChainProper();
    LivelyTake({SENDER}, [Some(w)] + items, enq, deq, SENDER);
    assert {SENDER} - {SENDER} == {} && ([Some(w)] + items)[1..] == items;
  }

  lemma SourceSendStep(t: nat, generated: seq<Warning>, w: Warning, items: seq<Option<Warning>>, enq: seq<Option<Warning>>, deq: seq<Option<Warning>>, inbox: Inbox)
    requires w.dest == [68, 68] && Sendable(w)
    ensures var s := Sourcing(t, generated, Lively({}, items, enq, deq), Holding(w), inbox);
            && Proper(Chain()) && Enabled(Chain(), s, SourceSend(Complete))
            && Next(Chain(), s, SourceSend(Complete))
               == Sourcing(t, generated, Lively({SENDER}, items, enq, deq), Ready, Sent(inbox, 3, w, Complete))
  {
    ChainHops(w);
    ChainListeners(0);
    var s := Sourcing(t, generated, Lively({}, items, enq, deq), Holding(w), inbox);
    assert {} + {SENDER} == {SENDER};
    var s' := AfterSend(s, 0, Complete);
    assert s'.sites[0 := s'.sites[0].(inbox := Sent(inbox, 3, w, Complete))]
        == [StartedSite(t).(inbox := Sent(inbox, 3, w, Complete)), StartedSite(t), StartedSite(1)];
  }

  /** The connection from the data source to the root. */
  function FromSource(bytes: seq<byte>): Inbox {
    [Connection(3, bytes, false, false)]
  }

  /** Both warnings are on their way to the root. */
  function BothSent(t: nat): System {
    var items := [Some(A()), Some(B())];
    Sourcing(t, [A(), B()], Lively({SENDER}, [], items, items), Ready, FromSource(Encode(A()) + Encode(B())))
  }

  lemma CanGenerate(t: nat) returns (steps: seq<Step>)
    ensures Leads(Init(Chain(), t), steps, Sourcing(t, [A(), B()], Lively({SENDER}, [Some(A()), Some(B())], [Some(A()), Some(B())], []), Ready, []))
  {
    StartsSourcing(t);
    GenerateStep(t, [], [], 0);
    GenerateStep(t, [A()], [Some(A())], 1);
    var s0 := Sourcing(t, [], Lively({SENDER}, [], [], []), Ready, []);
    var s1 := Sourcing(t, [A()], Lively({SENDER}, [Some(A())], [Some(A())], []), Ready, []);
    var s2 := Sourcing(t, [A(), B()], Lively({SENDER}, [Some(A()), Some(B())], [Some(A()), Some(B())], []), Ready, []);
    assert [] + [A()] == [A()] && [] + [Some(A())] == [Some(A())];
    assert [A()] + [B()] == [A(), B()] && [Some(A())] + [Some(B())] == [Some(A()), Some(B())];
    LeadsOne(s0, Generate(2, 0, 0, 0, None));
    LeadsOne(s1, Generate(2, 1, 0, 0, None));
    LeadsOn(s0, [Generate(2, 0, 0, 0, None)], s1, [Generate(2, 1, 0, 0, None)], s2);
    steps := [Generate(2, 0, 0, 0, None)] + [Generate(2, 1, 0, 0, None)];
  }

  /** One warning goes from the data source's queue to the root's connection. */
  lemma CanSend(t: nat, w: Warning, items: seq<Option<Warning>>, enq: seq<Option<Warning>>, deq: seq<Option<Warning>>, inbox: Inbox) returns (steps: seq<Step>)
    requires w.dest == [68, 68] && Sendable(w)
    ensures Leads(Sourcing(t, [A(), B()], Lively({SENDER}, [Some(w)] + items, enq, deq), Ready, inbox), steps,
                  Sourcing(t, [A(), B()], Lively({SENDER}, items, enq, deq + [Some(w)]), Ready, Sent(inbox, 3, w, Complete)))
  {
    SourceTakeStep(t, [A(), B()], w, items, enq, deq, inbox);
    SourceSendStep(t, [A(), B()], w, items, enq, deq + [Some(w)], inbox);
    var s0 := Sourcing(t, [A(), B()], Lively({SENDER}, [Some(w)] + items, enq, deq), Ready, inbox);
    var s1 := Sourcing(t, [A(), B()], Lively({}, items, enq, deq + [Some(w)]), Holding(w), inbox);
    LeadsOne(s0, SourceTake);
    LeadsOne(s1, SourceSend(Complete));
    LeadsOn(s0, [SourceTake], s1, [SourceSend(Complete)], Next(Chain(), s1, SourceSend(Complete)));
    steps := [SourceTake] + [SourceSend(Complete)];
  }

  lemma SendableAB()
    ensures Sendable(A()) && Sendable(B()) && A().dest == B().dest == [68, 68] && FrameSize(A()) == FrameSize(B()) == 32
  {
  }

  lemma CanSendBoth(t: nat) returns (steps: seq<Step>)
    ensures Leads(Init(Chain(), t), steps, BothSent(t))
  {
    var a, b, items := A(), B(), [Some(A()), Some(B())];
    SendableAB();
    var pre := CanGenerate(t);
    var s2 := Sourcing(t, [a, b], Lively({SENDER}, items, items, []), Ready, []);
    assert items == [Some(a)] + [Some(b)] && [Some(b)] == [Some(b)] + [];
    assert [] + [Some(a)] == [Some(a)] && [Some(a)] + [Some(b)] == items;
    var first := CanSend(t, a, [Some(b)], items, [], []);
    assert [] + Encode(a) == Encode(a);
    assert Sent([], 3, a, Complete) == FromSource(Encode(a));
    assert Sent(FromSource(Encode(a)), 3, b, Complete) == FromSource(Encode(a) + Encode(b));
    var s4 := Sourcing(t, [a, b], Lively({SENDER}, [Some(b)], items, [Some(a)]), Ready, FromSource(Encode(a)));
    var second := CanSend(t, b, [], items, [Some(a)], FromSource(Encode(a)));
    LeadsOn(s2, first, s4, second, BothSent(t));
    LeadsOn(Init(Chain(), t), pre, s2, first + second, BothSent(t));
    steps := pre + (first + second);
  }

  // ---- Two workers of the root take them ----

  /** The system once the data source has sent both warnings: the root, the propagator, what was lost. */
  function At(t: nat, root: Site, middle: Site, lost: seq<Warning>): System {
    BothSent(t).(sites := [root, middle, StartedSite(1)], lost := lost)
  }

  lemma LocalLeads(s: System, step: Step)
    requires |s.sites| == 3 && IsLocal(step) && !IsSpurious(step) && step.n < 3 && LocalEnabled(s.sites[step.n], step)
    ensures Leads(s, [step], s.(sites := s.sites[step.n := LocalNext(s.sites[step.n], step)]))
  {
    ChainProper();
    LeadsOne(s, step);
  }

  lemma RootStep(t: nat, root: Site, middle: Site, lost: seq<Warning>, step: Step)
    requires IsLocal(step) && !IsSpurious(step) && step.n == 0 && LocalEnabled(root, step)
    ensures Leads(At(t, root, middle, lost), [step], At(t, LocalNext(root, step), middle, lost))
  {
    var s := At(t, root, middle, lost);
    assert s.sites[0 := LocalNext(root, step)] == [LocalNext(root, step), middle, StartedSite(1)];
    LocalLeads(s, step);
  }

  lemma MiddleStep(t: nat, root: Site, middle: Site, lost: seq<Warning>, step: Step)
    requires IsLocal(step) && !IsSpurious(step) && step.n == 1 && LocalEnabled(middle, step)
    ensures Leads(At(t, root, middle, lost), [step], At(t, root, LocalNext(middle, step), lost))
  {
    var s := At(t, root, middle, lost);
    assert s.sites[1 := LocalNext(middle, step)] == [root, LocalNext(middle, step), StartedSite(1)];
    LocalLeads(s, step);
  }

  /** A node none of whose threads sleeps. */
  function Node(inbox: Inbox, awake: set<nat>, items: seq<Option<Warning>>, enq: seq<Option<Warning>>, deq: seq<Option<Warning>>,
                hands: seq<Option<Warning>>, closing: map<nat, nat>): Site {
    Site(inbox, Lively(awake, items, enq, deq), hands, closing, [])
  }

  lemma NodeReceives(inbox: Inbox, awake: set<nat>, items: seq<Option<Warning>>, enq: seq<Option<Warning>>, deq: seq<Option<Warning>>,
                     hands: seq<Option<Warning>>, closing: map<nat, nat>, n: nat)
    requires Readable(inbox)
    ensures var w := Some(Decode(inbox[0].bytes).value); var site := Node(inbox, awake, items, enq, deq, hands, closing);
            && LocalEnabled(site, Receive(n, None))
            && LocalNext(site, Receive(n, None)) == Node(Read(inbox), awake, items + [w], enq + [w], deq, hands, closing)
  {
    LivelyPut(awake, items, enq, deq, Some(Decode(inbox[0].bytes).value));
  }

  lemma NodeTakes(inbox: Inbox, awake: set<nat>, w: Option<Warning>, items: seq<Option<Warning>>, enq: seq<Option<Warning>>, deq: seq<Option<Warning>>,
                  hands: seq<Option<Warning>>, closing: map<nat, nat>, n: nat, h: nat)
    requires h in awake && h < |hands| && hands[h].None? && h !in closing
    ensures var site := Node(inbox, awake, [w] + items, enq, deq, hands, closing);
            && LocalEnabled(site, Take(n, h))
            && LocalNext(site, Take(n, h)) == Node(inbox, awake - {h}, items, enq, deq + [w], hands[h := w], closing)
  {
    LivelyTake(awake, [w] + items, enq, deq, h);
    assert ([w] + items)[1..] == items;
  }

  function NoHands(t: nat): seq<Option<Warning>> {
    seq(t, _ => None)
  }

  /** Worker 0 of the root holds the one, worker 1 the other. */
  function BothHeld(t: nat): Site
    requires t >= 2
  {
    var items := [Some(A()), Some(B())];
    Node(FromSource([]), Below(t) - {0} - {1}, [], items, items, NoHands(t)[0 := Some(A())][1 := Some(B())], map[])
  }

  lemma RootReads(t: nat) returns (steps: seq<Step>)
    requires t >= 2
    ensures var items := [Some(A()), Some(B())];
            Leads(BothSent(t), steps, At(t, Node(FromSource([]), Below(t), items, items, [], NoHands(t), map[]), StartedSite(t), []))
  {
    var a, b := A(), B();
    SendableAB();
    DecodeEncode(a, Encode(b));
    DecodeEncode(b, []);
    assert Encode(b) + [] == Encode(b);
    var i0, i1, i2 := FromSource(Encode(a) + Encode(b)), FromSource(Encode(b)), FromSource([]);
    assert Read(i0) == i1 && Read(i1) == i2;
    assert [] + [Some(a)] == [Some(a)] && [Some(a)] + [Some(b)] == [Some(a), Some(b)];
    var r0, r1 := Node(i0, Below(t), [], [], [], NoHands(t), map[]), Node(i1, Below(t), [Some(a)], [Some(a)], [], NoHands(t), map[]);
    var r2 := Node(i2, Below(t), [Some(a), Some(b)], [Some(a), Some(b)], [], NoHands(t), map[]);
    NodeReceives(i0, Below(t), [], [], [], NoHands(t), map[], 0);
    NodeReceives(i1, Below(t), [Some(a)], [Some(a)], [], NoHands(t), map[], 0);
    RootStep(t, r0, StartedSite(t), [], Receive(0, None));
    RootStep(t, r1, StartedSite(t), [], Receive(0, None));
    assert BothSent(t) == At(t, r0, StartedSite(t), []);
    LeadsOn(At(t, r0, StartedSite(t), []), [Receive(0, None)], At(t, r1, StartedSite(t), []), [Receive(0, None)], At(t, r2, StartedSite(t), []));
    steps := [Receive(0, None)] + [Receive(0, None)];
  }

  lemma RootTakes(t: nat) returns (steps: seq<Step>)
    requires t >= 2
    ensures var items := [Some(A()), Some(B())];
            Leads(At(t, Node(FromSource([]), Below(t), items, items, [], NoHands(t), map[]), StartedSite(t), []), steps,
                  At(t, BothHeld(t), StartedSite(t), []))
  {
    var a, b, inbox, items := A(), B(), FromSource([]), [Some(A()), Some(B())];
    assert items == [Some(a)] + [Some(b)] && [Some(b)] == [Some(b)] + [];
    assert [] + [Some(a)] == [Some(a)];
    var r2 := Node(inbox, Below(t), items, items, [], NoHands(t), map[]);
    var r3 := Node(inbox, Below(t) - {0}, [Some(b)], items, [Some(a)], NoHands(t)[0 := Some(a)], map[]);
    NodeTakes(inbox, Below(t), Some(a), [Some(b)], items, [], NoHands(t), map[], 0, 0);
    NodeTakes(inbox, Below(t) - {0}, Some(b), [], items, [Some(a)], NoHands(t)[0 := Some(a)], map[], 0, 1);
    RootStep(t, r2, StartedSite(t), [], Take(0, 0));
    RootStep(t, r3, StartedSite(t), [], Take(0, 1));
    LeadsOn(At(t, r2, StartedSite(t), []), [Take(0, 0)], At(t, r3, StartedSite(t), []), [Take(0, 1)], At(t, BothHeld(t), StartedSite(t), []));
    steps := [Take(0, 0)] + [Take(0, 1)];
  }

  lemma CanHoldBoth(t: nat) returns (steps: seq<Step>)
    requires t >= 2
    ensures Leads(Init(Chain(), t), steps, At(t, BothHeld(t), StartedSite(t), []))
  {
    var items := [Some(A()), Some(B())];
    var s := At(t, Node(FromSource([]), Below(t), items, items, [], NoHands(t), map[]), StartedSite(t), []);
    var sends := CanSendBoth(t);
    var receives := RootReads(t);
    var takes := RootTakes(t);
    LeadsOn(BothSent(t), receives, s, takes, At(t, BothHeld(t), StartedSite(t), []));
    LeadsOn(Init(Chain(), t), sends, BothSent(t), receives + takes, At(t, BothHeld(t), StartedSite(t), []));
    steps := sends + (receives + takes);
  }

  // ---- A short send, and a complete send before its close ----

  /** The connection from the root to the propagator, cut after k bytes of the first warning. */
  function FromRoot(k: nat, more: seq<byte>, closed: bool): Inbox
    requires 0 < k < FrameSize(A())
  {
    [Connection(0, Encode(A())[..k] + more, true, closed)]
  }

  /** The root while worker 0 has the close of its short send before it. */
  function CloseDue(t: nat, awake: set<nat>, hands: seq<Option<Warning>>): Site {
    var items := [Some(A()), Some(B())];
    Node(FromSource([]), awake, [], items, items, hands, map[0 := 1])
  }

  lemma DeliverToMiddle(t: nat, root: Site, middle: Site, lost: seq<Warning>, from: nat, w: Warning, x: Sending)
    requires Possible(w, x)
    ensures Deliver(Chain(), At(t, root, middle, lost), from, 1, w, x)
         == At(t, root, middle.(inbox := Sent(middle.inbox, from, w, x)), if x.Complete? then lost else lost + [w])
  {
    ChainListeners(1);
    var after := middle.(inbox := Sent(middle.inbox, from, w, x));
    assert At(t, root, middle, lost).sites[1 := after] == [root, after, StartedSite(1)];
  }

  lemma RootForwards(t: nat, root: Site, middle: Site, lost: seq<Warning>, h: nat, w: Warning, x: Sending)
    requires h < |root.hands| && root.hands[h] == Some(w) && Q.Enabled(root.queue, Q.CallDequeue(h))
    requires w.dest == [68, 68] && Possible(w, x)
    ensures Proper(Chain())
    ensures Forward(Chain(), At(t, root, middle, lost), 0, h, x)
         == At(t, LetGo(root, h, 1, x), middle.(inbox := Sent(middle.inbox, 0, w, x)), if x.Complete? then lost else lost + [w])
  {
    ChainProper();
    var s, root' := At(t, root, middle, lost), LetGo(root, h, 1, x);
    DeliverToMiddle(t, root', middle, lost, 0, w, x);
    var s' := s.(sites := s.sites[0 := root']);
    assert s' == At(t, root', middle, lost) by { assert s.sites[0 := root'] == [root', middle, StartedSite(1)]; }
    assert Hop(ParentsOf(Chain()), 0, Target(Chain(), w)) == 1 by { ChainHops(w); }
    assert Forward(Chain(), s, 0, h, x) == Deliver(Chain(), s', 0, 1, w, x);
  }

  /** A worker of the root sends a warning for the destination to the propagator. */
  lemma RootSends(t: nat, root: Site, middle: Site, lost: seq<Warning>, h: nat, w: Warning, x: Sending)
    requires h < |root.hands| && root.hands[h] == Some(w) && Q.Enabled(root.queue, Q.CallDequeue(h))
    requires w.dest == [68, 68] && Possible(w, x)
    ensures Leads(At(t, root, middle, lost), [Finish(0, h, x)],
                  At(t, LetGo(root, h, 1, x), middle.(inbox := Sent(middle.inbox, 0, w, x)), if x.Complete? then lost else lost + [w]))
  {
    ChainTypes();
    RootForwards(t, root, middle, lost, h, w, x);
    LeadsOne(At(t, root, middle, lost), Finish(0, h, x));
  }

  /** A worker of the root closes the connection to the propagator. */
  lemma RootCloses(t: nat, root: Site, middle: Site, lost: seq<Warning>, h: nat)
    requires h < |root.hands| && h in root.closing && root.closing[h] == 1 && Q.Enabled(root.queue, Q.CallDequeue(h))
    ensures Leads(At(t, root, middle, lost), [Disconnect(0, h)],
                  At(t, Released(root, h), middle.(inbox := Shut(middle.inbox, 0)), lost))
  {
    ChainProper();
    ChainListeners(1);
    LeadsOne(At(t, root, middle, lost), Disconnect(0, h));
  }

  /** The propagator sends a warning it has no destination for to itself. */
  lemma MiddleSelfSends(t: nat, root: Site, middle: Site, lost: seq<Warning>, g: Warning)
    requires middle.hands != [] && middle.hands[0] == Some(g) && Q.Enabled(middle.queue, Q.CallDequeue(0))
    requires Sendable(g) && Target(Chain(), g) == None
    ensures Leads(At(t, root, middle, lost), [Finish(1, 0, Complete)],
                  At(t, root, Released(middle, 0).(inbox := Sent(middle.inbox, 1, g, Complete)), lost))
  {
    ChainProper();
    ChainTypes();
    var s := At(t, root, middle, lost);
    assert s.sites[1 := Released(middle, 0)] == [root, Released(middle, 0), StartedSite(1)];
    DeliverToMiddle(t, root, Released(middle, 0), lost, 1, g, Complete);
    LeadsOne(s, Finish(1, 0, Complete));
  }

  /** What a node becomes when thread h goes back to its dequeue. */
  lemma NodeReleases(inbox: Inbox, awake: set<nat>, items: seq<Option<Warning>>, enq: seq<Option<Warning>>, deq: seq<Option<Warning>>,
                     hands: seq<Option<Warning>>, closing: map<nat, nat>, h: nat)
    requires h < |hands| && h !in awake
    ensures var site := Node(inbox, awake, items, enq, deq, hands, closing);
            && Q.Enabled(site.queue, Q.CallDequeue(h))
            && Released(site, h) == Node(inbox, awake + {h}, items, enq, deq, hands[h := None], closing - {h})
  {
  }

  /** The hands of the root after the short send. */
  function OneHand(t: nat): seq<Option<Warning>>
    requires t >= 2
  {
    NoHands(t)[1 := Some(B())]
  }

  lemma Hands(t: nat)
    requires t >= 2
    ensures NoHands(t)[0 := Some(A())][1 := Some(B())][0 := None] == OneHand(t)
    ensures OneHand(t)[1 := None] == NoHands(t) == NoHands(t)[0 := None]
  {
  }

  lemma Awake(t: nat)
    requires t >= 2
    ensures Below(t) - {0} - {1} + {1} == Below(t) - {0} && Below(t) - {0} + {0} == Below(t)
  {
  }

  lemma FirstPiece(k: nat)
    requires 0 < k < FrameSize(A())
    ensures Sendable(A()) && Sent([], 0, A(), Partial(k)) == FromRoot(k, [], false)
  {
    SendableAB();
    assert [] + Encode(A())[..k] == Encode(A())[..k] + [];
  }

  lemma NextPiece(k: nat)
    requires 0 < k < FrameSize(A())
    ensures Sendable(B()) && Sent(FromRoot(k, [], false), 0, B(), Complete) == FromRoot(k, Encode(B()), false)
  {
    var part := Encode(A())[..k];
    SendableAB();
    assert part + [] == part;
  }

  lemma LastPiece(k: nat)
    requires 0 < k < FrameSize(A())
    ensures Shut(FromRoot(k, Encode(B()), false), 0) == FromRoot(k, Encode(B()), true)
  {
  }

  lemma ShortSend(t: nat, k: nat)
    requires t >= 2 && 0 < k < FrameSize(A())
    ensures Leads(At(t, BothHeld(t), StartedSite(t), []), [Finish(0, 0, Partial(k))],
                  At(t, CloseDue(t, Below(t) - {0} - {1}, OneHand(t)), StartedSite(t).(inbox := FromRoot(k, [], false)), [A()]))
  {
    Hands(t);
    FirstPiece(k);
    RootSends(t, BothHeld(t), StartedSite(t), [], 0, A(), Partial(k));
    assert LetGo(BothHeld(t), 0, 1, Partial(k)) == CloseDue(t, Below(t) - {0} - {1}, OneHand(t));
    assert [] + [A()] == [A()];
  }

  lemma SendBeforeClose(t: nat, k: nat)
    requires t >= 2 && 0 < k < FrameSize(A())
    ensures Leads(At(t, CloseDue(t, Below(t) - {0} - {1}, OneHand(t)), StartedSite(t).(inbox := FromRoot(k, [], false)), [A()]),
                  [Finish(0, 1, Complete)], Garbled(t, k))
  {
    var items, due: map<nat, nat> := [Some(A()), Some(B())], map[0 := 1];
    var root := CloseDue(t, Below(t) - {0} - {1}, OneHand(t));
    Hands(t);
    Awake(t);
    NextPiece(k);
    NodeReleases(FromSource([]), Below(t) - {0} - {1}, [], items, items, OneHand(t), due, 1);
    assert due - {1} == due;
    RootSends(t, root, StartedSite(t).(inbox := FromRoot(k, [], false)), [A()], 1, B(), Complete);
  }

  /** The frame of the second warning follows the cut frame of the first, and the close is still due. */
  function Garbled(t: nat, k: nat): System
    requires 0 < k < FrameSize(A())
  {
    At(t, CloseDue(t, Below(t) - {0}, NoHands(t)), StartedSite(t).(inbox := FromRoot(k, Encode(B()), false)), [A()])
  }

  lemma CanGarble(t: nat, k: nat) returns (steps: seq<Step>)
    requires t >= 2 && 0 < k < FrameSize(A())
    ensures Leads(Init(Chain(), t), steps, Garbled(t, k))
  {
    var pre := CanHoldBoth(t);
    var s0 := At(t, BothHeld(t), StartedSite(t), []);
    var s1 := At(t, CloseDue(t, Below(t) - {0} - {1}, OneHand(t)), StartedSite(t).(inbox := FromRoot(k, [], false)), [A()]);
    ShortSend(t, k);
    SendBeforeClose(t, k);
    LeadsOn(s0, [Finish(0, 0, Partial(k))], s1, [Finish(0, 1, Complete)], Garbled(t, k));
    LeadsOn(Init(Chain(), t), pre, s0, [Finish(0, 0, Partial(k))] + [Finish(0, 1, Complete)], Garbled(t, k));
    steps := pre + ([Finish(0, 0, Partial(k))] + [Finish(0, 1, Complete)]);
  }

  // ---- A lost warning arrives and a sent one does not ----

  /** Counts the occurrences of one warning. */
  ghost function Is(w: Warning): Warning -> nat {
    x => if x == w then 1 else 0
  }

  lemma TotalOfThree(r: Site, m: Site, l: Site, f: Warning -> nat)
    ensures Total([r, m, l], f) == SiteSum(r, f) + SiteSum(m, f) + SiteSum(l, f)
  {
    var sites := [r, m, l];
    var xs := seq(3, i requires 0 <= i < 3 => SiteSum(sites[i], f));
    assert xs == [SiteSum(r, f), SiteSum(m, f), SiteSum(l, f)];
    assert xs[1..] == [SiteSum(m, f), SiteSum(l, f)] && xs[1..][1..] == [SiteSum(l, f)] && xs[1..][1..][1..] == [];
    assert SumNat(xs[1..]) == SiteSum(m, f) + SumNat(xs[1..][1..]);
  }

  lemma LostIsRead()
    ensures ReceiveAll(Encode(A())[..31] + Encode(B())) == [A()]
  {
    SendableAB();
    CutBeforeLastByte(A(), B());
    ShiftedFails(B());
    assert ReceiveAll(Encode(B())[1..]) == [];
  }

  lemma LostArrives()
    ensures Arriving(FromRoot(31, Encode(B()), false)) == [A()]
  {
    var inbox := FromRoot(31, Encode(B()), false);
    LostIsRead();
    assert inbox[1..] == [] && Arriving(inbox) == ReceiveAll(inbox[0].bytes) + Arriving(inbox[1..]);
  }

  lemma EmptyArrives()
    ensures Arriving(FromSource([])) == []
  {
    EmptyConnection(3);
    assert FromSource([])[1..] == [];
  }

  lemma QuietSums(t: nat, f: Warning -> nat)
    ensures SiteSum(CloseDue(t, Below(t) - {0}, NoHands(t)), f) == 0 && SiteSum(StartedSite(1), f) == 0
    ensures SiteSum(StartedSite(t).(inbox := FromRoot(31, Encode(B()), false)), f) == f(A())
  {
    SumItemsNone(NoHands(t), f);
    SumItemsNone(NoHands(1), f);
    EmptyArrives();
    LostArrives();
    assert [A()][1..] == [];
  }

  /** After this run the root has given up one warning as lost and reported the other as sent; the
      propagator will read the lost one, and the sent one is nowhere. */
  lemma LostArrivesAndSentIsLost(t: nat) returns (steps: seq<Step>)
    requires t >= 2
    ensures Proper(Chain()) && Runs(Chain(), Init(Chain(), t), steps)
    ensures var s := After(Chain(), Init(Chain(), t), steps);
            && s.generated == [A(), B()] && s.lost == [A()] && |s.sites| == 3 && Arriving(s.sites[1].inbox) == [A()]
            && !Conserved(s, Is(A())) && !Conserved(s, Is(B()))
  {
    steps := CanGarble(t, 31);
    LostArrives();
    GarbledSums(t, Is(A()));
    GarbledSums(t, Is(B()));
  }

  /** What was generated is the two warnings; what there is, is the first one twice. */
  lemma GarbledSums(t: nat, f: Warning -> nat)
    ensures var s := Garbled(t, 31); Sum(s.generated, f) == f(A()) + f(B()) && Total(s.sites, f) + Sum(s.lost, f) == 2 * f(A())
  {
    var root, middle := CloseDue(t, Below(t) - {0}, NoHands(t)), StartedSite(t).(inbox := FromRoot(31, Encode(B()), false));
    QuietSums(t, f);
    TotalOfThree(root, middle, StartedSite(1), f);
    assert [A()][1..] == [] && [A(), B()][1..] == [B()] && [B()][1..] == [];
  }

  // ---- A warning that is sent to itself for ever ----

  lemma StrayIsRead()
    ensures var r := Decode(Encode(A())[..11] + Encode(B()));
            r.Ok? && r.value.city == [68, 68] && r.value.dest == [68] && |r.rest| == 11
  {
    SendableAB();
    CutInsideDest(A(), B(), 1);
    assert A().dest[..1] == [68];
  }

  lemma StrayIsUnknown()
    ensures var r := Decode(Encode(A())[..11] + Encode(B()));
            && r.Ok? && Decode(r.rest).Fail? && Sendable(r.value) && Target(Chain(), r.value) == None
  {
    StrayIsRead();
    var r := Decode(Encode(A())[..11] + Encode(B()));
    TooShort(r.rest);
    ChainIds(r.value.dest);
  }

  /** The root after the close. */
  function RootDone(t: nat): Site {
    var items := [Some(A()), Some(B())];
    Node(FromSource([]), Below(t), [], items, items, NoHands(t), map[])
  }

  lemma CloseStep(t: nat)
    requires t >= 2
    ensures Leads(Garbled(t, 11), [Disconnect(0, 0)], At(t, RootDone(t), StartedSite(t).(inbox := FromRoot(11, Encode(B()), true)), [A()]))
  {
    var items, due: map<nat, nat> := [Some(A()), Some(B())], map[0 := 1];
    Hands(t);
    Awake(t);
    LastPiece(11);
    NodeReleases(FromSource([]), Below(t) - {0}, [], items, items, NoHands(t), due, 0);
    assert due - {0} == map[];
    RootCloses(t, CloseDue(t, Below(t) - {0}, NoHands(t)), StartedSite(t).(inbox := FromRoot(11, Encode(B()), false)), [A()], 0);
  }

  lemma SelfSend(t: nat, inbox: Inbox, awake: set<nat>, enq: seq<Option<Warning>>, deq: seq<Option<Warning>>, hands: seq<Option<Warning>>, g: Warning)
    requires Sendable(g) && Target(Chain(), g) == None && 0 !in awake && hands != [] && hands[0] == Some(g)
    ensures Leads(At(t, RootDone(t), Node(inbox, awake, [], enq, deq, hands, map[]), [A()]), [Finish(1, 0, Complete)],
                  At(t, RootDone(t), Node(Sent(inbox, 1, g, Complete), awake + {0}, [], enq, deq, hands[0 := None], map[]), [A()]))
  {
    var none: map<nat, nat> := map[];
    NodeReleases(inbox, awake, [], enq, deq, hands, none, 0);
    assert none - {0} == none;
    MiddleSelfSends(t, RootDone(t), Node(inbox, awake, [], enq, deq, hands, none), [A()], g);
  }

  /** The propagator with a connection to itself that carries `bytes`. */
  function Talking(t: nat, bytes: seq<byte>, awake: set<nat>, items: seq<Option<Warning>>, enq: seq<Option<Warning>>, deq: seq<Option<Warning>>, hands: seq<Option<Warning>>): System {
    At(t, RootDone(t), Node([Connection(1, bytes, false, false)], awake, items, enq, deq, hands, map[]), [A()])
  }

  function Loop(t: nat, g: Warning, enq: seq<Option<Warning>>, deq: seq<Option<Warning>>): System {
    Talking(t, Encode(g), Below(t), [], enq, deq, NoHands(t))
  }

  lemma ReadAndTake(t: nat, g: Warning, enq: seq<Option<Warning>>, deq: seq<Option<Warning>>)
    requires t >= 2 && Sendable(g)
    ensures Leads(Loop(t, g, enq, deq), [Receive(1, None)] + [Take(1, 0)],
                  Talking(t, [], Below(t) - {0}, [], enq + [Some(g)], deq + [Some(g)], NoHands(t)[0 := Some(g)]))
  {
    var inbox, empty := [Connection(1, Encode(g), false, false)], [Connection(1, [], false, false)];
    var w := Some(g);
    assert Readable(inbox) && Read(inbox) == empty && Decode(inbox[0].bytes).value == g by {
      DecodeEncode(g, []);
      assert Encode(g) + [] == Encode(g);
    }
    assert [] + [w] == [w] + [] == [w];
    NodeReceives(inbox, Below(t), [], enq, deq, NoHands(t), map[], 1);
    MiddleStep(t, RootDone(t), Node(inbox, Below(t), [], enq, deq, NoHands(t), map[]), [A()], Receive(1, None));
    NodeTakes(empty, Below(t), w, [], enq + [w], deq, NoHands(t), map[], 1, 0);
    MiddleStep(t, RootDone(t), Node(empty, Below(t), [w], enq + [w], deq, NoHands(t), map[]), [A()], Take(1, 0));
    LeadsOn(Loop(t, g, enq, deq), [Receive(1, None)], Talking(t, [], Below(t), [w], enq + [w], deq, NoHands(t)), [Take(1, 0)],
            Talking(t, [], Below(t) - {0}, [], enq + [w], deq + [w], NoHands(t)[0 := w]));
  }

  /** One turn: the propagator reads the warning, takes it and sends it to itself. */
  lemma LoopTurn(t: nat, g: Warning, enq: seq<Option<Warning>>, deq: seq<Option<Warning>>) returns (steps: seq<Step>)
    requires t >= 2 && Sendable(g) && Target(Chain(), g) == None
    ensures |steps| == 3 && Leads(Loop(t, g, enq, deq), steps, Loop(t, g, enq + [Some(g)], deq + [Some(g)]))
  {
    var empty, hands := [Connection(1, [], false, false)], NoHands(t)[0 := Some(g)];
    var enq', deq' := enq + [Some(g)], deq + [Some(g)];
    ReadAndTake(t, g, enq, deq);
    SelfSend(t, empty, Below(t) - {0}, enq', deq', hands, g);
    Awake(t);
    assert hands[0 := None] == NoHands(t);
    assert Sent(empty, 1, g, Complete) == [Connection(1, Encode(g), false, false)] by { assert [] + Encode(g) == Encode(g); }
    LeadsOn(Loop(t, g, enq, deq), [Receive(1, None)] + [Take(1, 0)], Talking(t, [], Below(t) - {0}, [], enq', deq', hands),
            [Finish(1, 0, Complete)], Loop(t, g, enq', deq'));
    steps := [Receive(1, None)] + [Take(1, 0)] + [Finish(1, 0, Complete)];
  }

  lemma {:induction false} LoopTurns(t: nat, g: Warning, enq: seq<Option<Warning>>, deq: seq<Option<Warning>>, m: nat)
    returns (steps: seq<Step>, s: System)
    requires t >= 2 && Sendable(g) && Target(Chain(), g) == None
    ensures |steps| == 3 * m && Leads(Loop(t, g, enq, deq), steps, s)
    decreases m
  {
    if m == 0 {
      steps, s := [], Loop(t, g, enq, deq);
      ChainProper();
    } else {
      var first := LoopTurn(t, g, enq, deq);
      var rest;
      rest, s := LoopTurns(t, g, enq + [Some(g)], deq + [Some(g)], m - 1);
      LeadsOn(Loop(t, g, enq, deq), first, Loop(t, g, enq + [Some(g)], deq + [Some(g)]), rest, s);
      steps := first + rest;
    }
  }

  /** After the close the propagator reads the stray warning, sends it to itself, and drops the rest of
      the closed connection. */
  lemma CanStray(t: nat, g: Warning) returns (steps: seq<Step>)
    requires t >= 2 && Decode(Encode(A())[..11] + Encode(B())).Ok? && g == Decode(Encode(A())[..11] + Encode(B())).value
    ensures Leads(At(t, RootDone(t), StartedSite(t).(inbox := FromRoot(11, Encode(B()), true)), [A()]), steps,
                  Loop(t, g, [Some(g)], [Some(g)]))
  {
    StrayIsUnknown();
    var rest := Decode(Encode(A())[..11] + Encode(B())).rest;
    var i0, i1, w := FromRoot(11, Encode(B()), true), [Connection(0, rest, true, true)], Some(g);
    var done := RootDone(t);
    assert [] + [w] == [w];
    assert Readable(i0) && Read(i0) == i1;
    NodeReceives(i0, Below(t), [], [], [], NoHands(t), map[], 1);
    MiddleStep(t, done, Node(i0, Below(t), [], [], [], NoHands(t), map[]), [A()], Receive(1, None));
    var s0, s1 := At(t, done, Node(i0, Below(t), [], [], [], NoHands(t), map[]), [A()]), At(t, done, Node(i1, Below(t), [w], [w], [], NoHands(t), map[]), [A()]);
    assert Leads(s0, [Receive(1, None)], s1);
    var more := StrayTurns(t, g, rest);
    LeadsOn(s0, [Receive(1, None)], s1, more, Loop(t, g, [w], [w]));
    steps := [Receive(1, None)] + more;
  }

  lemma StrayTurns(t: nat, g: Warning, rest: seq<byte>) returns (steps: seq<Step>)
    requires t >= 2 && Sendable(g) && Target(Chain(), g) == None && Decode(rest).Fail?
    ensures Leads(At(t, RootDone(t), Node([Connection(0, rest, true, true)], Below(t), [Some(g)], [Some(g)], [], NoHands(t), map[]), [A()]),
                  steps, Loop(t, g, [Some(g)], [Some(g)]))
  {
    var i1, w, done, hands := [Connection(0, rest, true, true)], Some(g), RootDone(t), NoHands(t)[0 := Some(g)];
    assert [] + [w] == [w] + [] == [w];
    NodeTakes(i1, Below(t), w, [], [w], [], NoHands(t), map[], 1, 0);
    MiddleStep(t, done, Node(i1, Below(t), [w], [w], [], NoHands(t), map[]), [A()], Take(1, 0));
    var s1, s2 := At(t, done, Node(i1, Below(t), [w], [w], [], NoHands(t), map[]), [A()]), At(t, done, Node(i1, Below(t) - {0}, [], [w], [w], hands, map[]), [A()]);
    var more := StrayHangsUp(t, g, rest);
    LeadsOn(s1, [Take(1, 0)], s2, more, Loop(t, g, [w], [w]));
    steps := [Take(1, 0)] + more;
  }

  lemma StrayHangsUp(t: nat, g: Warning, rest: seq<byte>) returns (steps: seq<Step>)
    requires t >= 2 && Sendable(g) && Target(Chain(), g) == None && Decode(rest).Fail?
    ensures Leads(At(t, RootDone(t), Node([Connection(0, rest, true, true)], Below(t) - {0}, [], [Some(g)], [Some(g)], NoHands(t)[0 := Some(g)], map[]), [A()]),
                  steps, Loop(t, g, [Some(g)], [Some(g)]))
  {
    var i1, w, hands := [Connection(0, rest, true, true)], Some(g), NoHands(t)[0 := Some(g)];
    var own := [Connection(1, Encode(g), false, false)];
    SelfSend(t, i1, Below(t) - {0}, [w], [w], hands, g);
    Awake(t);
    assert hands[0 := None] == NoHands(t);
    assert Sent(i1, 1, g, Complete) == i1 + own by { assert [] + Encode(g) == Encode(g); }
    var m3 := Node(i1 + own, Below(t), [], [w], [w], NoHands(t), map[]);
    assert (i1 + own)[1..] == own;
    MiddleStep(t, RootDone(t), m3, [A()], Hangup(1));
    LeadsOn(At(t, RootDone(t), Node(i1, Below(t) - {0}, [], [w], [w], hands, map[]), [A()]), [Finish(1, 0, Complete)],
            At(t, RootDone(t), m3, [A()]), [Hangup(1)], Loop(t, g, [w], [w]));
    steps := [Finish(1, 0, Complete)] + [Hangup(1)];
  }

  lemma CanLoop(t: nat, g: Warning) returns (steps: seq<Step>)
    requires t >= 2 && Decode(Encode(A())[..11] + Encode(B())).Ok? && g == Decode(Encode(A())[..11] + Encode(B())).value
    ensures Leads(Init(Chain(), t), steps, Loop(t, g, [Some(g)], [Some(g)]))
  {
    SendableAB();
    var pre := CanGarble(t, 11);
    var stray := CanStray(t, g);
    var s := At(t, RootDone(t), StartedSite(t).(inbox := FromRoot(11, Encode(B()), true)), [A()]);
    CloseStep(t);
    LeadsOn(Garbled(t, 11), [Disconnect(0, 0)], s, stray, Loop(t, g, [Some(g)], [Some(g)]));
    LeadsOn(Init(Chain(), t), pre, Garbled(t, 11), [Disconnect(0, 0)] + stray, Loop(t, g, [Some(g)], [Some(g)]));
    steps := pre + ([Disconnect(0, 0)] + stray);
  }

  /** With two workers there are runs of any length, even without a spurious wake. */
  lemma NeverRests(t: nat, m: nat) returns (steps: seq<Step>)
    requires t >= 2
    ensures Proper(Chain()) && Runs(Chain(), Init(Chain(), t), steps) && |steps| >= m && Extras(steps) == 0
  {
    StrayIsUnknown();
    var g := Decode(Encode(A())[..11] + Encode(B())).value;
    var pre := CanLoop(t, g);
    var turns, s := LoopTurns(t, g, [Some(g)], [Some(g)], m);
    LeadsOn(Init(Chain(), t), pre, Loop(t, g, [Some(g)], [Some(g)]), turns, s);
    steps := pre + turns;
  }

  // ---- The number of workers decides ----

  /** Conservation holds in every run of every configuration. */
  ghost predicate AlwaysConserves(threads: nat) {
    forall rows, steps, f: Warning -> nat :: Proper(rows) && Runs(rows, Init(rows, threads), steps) ==>
      Conserved(After(rows, Init(rows, threads), steps), f)
  }

  /** With failed sends of any kind, conservation holds in every run of every configuration if and only
      if a propagator has one worker. */
  lemma ConservesIffSolo(threads: nat)
    requires threads > 0
    ensures AlwaysConserves(threads) <==> threads == 1
  {
    if threads == 1 {
      forall rows, steps, f: Warning -> nat | Proper(rows) && Runs(rows, Init(rows, 1), steps)
        ensures Conserved(After(rows, Init(rows, 1), steps), f)
      {
        SoloIsClean(rows, steps);
        ConservationInCleanRuns(rows, 1, steps, f);
      }
    } else {
      var steps := LostArrivesAndSentIsLost(threads);
      assert !Conserved(After(Chain(), Init(Chain(), threads), steps), Is(A()));
    }
  }

  /** Besides spurious wakes no run of the configuration is longer than `most`. */
  ghost predicate Bounded(rows: seq<Row>, threads: nat, most: nat)
    requires Proper(rows)
  {
    forall steps :: Runs(rows, Init(rows, threads), steps) ==> |steps| <= most + Extras(steps)
  }

  ghost predicate AlwaysRests(threads: nat) {
    forall rows :: Proper(rows) ==> exists most: nat :: Bounded(rows, threads, most)
  }

  /** And every configuration has a bound on its runs if and only if a propagator has one worker. */
  lemma RestsIffSolo(threads: nat)
    requires threads > 0
    ensures AlwaysRests(threads) <==> threads == 1
  {
    if threads == 1 {
      forall rows | Proper(rows) ensures exists most: nat :: Bounded(rows, 1, most) {
        forall steps | Runs(rows, Init(rows, 1), steps) ensures |steps| <= Bound(rows, 1) + Extras(steps) {
          SoloIsClean(rows, steps);
          CleanRunsComeToRest(rows, 1, steps);
        }
        assert Bounded(rows, 1, Bound(rows, 1));
      }
    } else {
      ChainProper();
      forall most: nat ensures !Bounded(Chain(), threads, most) {
        Unbounded(threads, most);
      }
    }
  }

  lemma Unbounded(threads: nat, most: nat)
    requires threads >= 2
    ensures Proper(Chain()) && !Bounded(Chain(), threads, most)
  {
    var steps := NeverRests(threads, most + 1);
    assert |steps| > most + Extras(steps);
  }

  /** So neither holds with the pool of the repository. */
  lemma RepositoryPoolBreaks()
    ensures !AlwaysConserves(THREAD_POOL_SIZE) && !AlwaysRests(THREAD_POOL_SIZE)
  {
    ConservesIffSolo(THREAD_POOL_SIZE);
    RestsIffSolo(THREAD_POOL_SIZE);
  }
}
