/** End-to-end delivery: what every state of every clean run of the system satisfies, and what has
    happened when it can go no further. A run is clean when no send falls between a short send on its
    connection and the close; Overlap says when all runs are, and what happens otherwise. */
module Delivery {
  import opened Basics
  import opened WireFormat
  import opened Topology
  import opened Streams
  import opened Mailbox
  import opened SystemModel
  import opened Accounting
  import Q = TSQueue

  // ---- Where warnings may be ----

  /** The warning can be sent and is addressed to a destination. */
  ghost predicate Addressed(rows: seq<Row>, w: Warning) {
    Sendable(w) && Target(rows, w).Some? && IsDestination(rows, Target(rows, w).value)
  }

  /** The warning is at a node that lies above its destination, or at the destination itself. */
  ghost predicate OnRoute(rows: seq<Row>, n: nat, w: Warning)
    requires Proper(rows)
  {
    Addressed(rows, w) && Above(ParentsOf(rows), n, Target(rows, w).value)
  }

  /** The process whose warnings reach node n: its parent, or the data source. */
  function Feeder(rows: seq<Row>, n: nat): nat {
    if n < |rows| && ParentsOf(rows)[n].Some? then ParentsOf(rows)[n].value else |rows|
  }

  /** The threads of a node that are inside their dequeue. */
  ghost function Idle(hands: seq<Option<Warning>>, closing: map<nat, nat>): set<nat> {
    set h | 0 <= h < |hands| && hands[h].None? && h !in closing
  }

  /** The queue serves the idle threads and holds warnings on their route. */
  ghost predicate QueueOk(rows: seq<Row>, n: nat, q: Q.State<Warning>, idle: set<nat>)
    requires Proper(rows)
  {
    Serving(q, idle) && forall x :: x in q.items ==> x.Some? && OnRoute(rows, n, x.value)
  }

  /** Threads hold warnings on their route, or are about to close a connection to a child. */
  ghost predicate ThreadsOk(rows: seq<Row>, n: nat, hands: seq<Option<Warning>>, closing: map<nat, nat>)
    requires Proper(rows)
  {
    && |hands| > 0
    && (forall h :: 0 <= h < |hands| && hands[h].Some? ==> OnRoute(rows, n, hands[h].value))
    && (forall h :: h in closing ==> h < |hands| && hands[h].None? && closing[h] < |rows| && Feeder(rows, closing[h]) == n)
  }

  ghost predicate SiteOk(rows: seq<Row>, n: nat, site: Site)
    requires Proper(rows)
  {
    && InboxOk(site.inbox, Feeder(rows, n))
    && (forall w :: w in Arriving(site.inbox) ==> OnRoute(rows, n, w))
    && QueueOk(rows, n, site.queue, Idle(site.hands, site.closing))
    && ThreadsOk(rows, n, site.hands, site.closing)
    && (forall w :: w in site.counted ==> OnRoute(rows, n, w) && IsDestination(rows, n))
  }

  ghost predicate SitesOk(rows: seq<Row>, sites: seq<Site>)
    requires Proper(rows)
  {
    |sites| == |rows| && forall n :: 0 <= n < |sites| ==> SiteOk(rows, n, sites[n])
  }

  /** The thread that is inside the dequeue of the data source. */
  ghost function Inside(sender: Sender): set<nat> {
    if sender.Ready? then {SENDER} else {}
  }

  /** The data source: addressed warnings, and the sentinel as the last item of the queue from the end
      of generation until the sender takes it. */
  ghost predicate SourceOk(rows: seq<Row>, s: System) {
    && |s.generated| <= NUMBER_OF_WARNINGS
    && Serving(s.source, Inside(s.sender))
    && ItemsOk(rows, s.source.items, s.generating, s.sender.Stopped?)
    && (s.sender.Holding? ==> Addressed(rows, s.sender.w))
    && (s.sender.Closing? ==> s.sender.hop < |rows| && Feeder(rows, s.sender.hop) == |rows|)
    && (s.generating ==> !s.sender.Stopped?)
    && (!s.generating && HasDestination(rows) ==> |s.generated| == NUMBER_OF_WARNINGS)
    && (!HasDestination(rows) ==> s.generated == [] && s.source.items == [] && s.sender.Ready?)
  }

  ghost predicate ItemsOk(rows: seq<Row>, items: seq<Option<Warning>>, generating: bool, stopped: bool) {
    && (forall x :: x in items && x.Some? ==> Addressed(rows, x.value))
    && (generating ==> None !in items)
    && (!generating && HasDestination(rows) ==>
          if stopped then items == []
          else items != [] && items[|items| - 1] == None && None !in items[..|items| - 1])
  }

  ghost predicate Inv(rows: seq<Row>, s: System) {
    Proper(rows) && SitesOk(rows, s.sites) && SourceOk(rows, s)
  }

  /** Conservation for the weight f: what was generated is in exactly one place each. */
  ghost predicate Conserved(s: System, f: Warning -> nat) {
    Sum(s.generated, f) ==
      SumItems(s.source.items, f) + (if s.sender.Holding? then f(s.sender.w) else 0) + Total(s.sites, f) + Sum(s.lost, f)
  }

  // ---- Facts about the tree ----

  lemma ListenerIsHop(rows: seq<Row>, hop: nat)
    requires UniqueEndpoints(rows) && hop < |rows|
    ensures ListenerAt(rows, hop) == hop
  {
  }

  lemma GeneratedAddressed(rows: seq<Row>, d: nat, kind: uint32, value: uint64, timestamp: uint64)
    requires Proper(rows) && IsDestination(rows, d)
    ensures var w := NewWarning(rows, d, kind, value, timestamp);
            Addressed(rows, w) && Target(rows, w) == Some(d)
  {
    LastIndexUnique(rows, |rows|, d);
  }

  /** A destination is above no node but itself. */
  lemma DestinationIsLowest(rows: seq<Row>, n: nat, d: nat)
    requires Proper(rows) && IsDestination(rows, n) && d < |rows| && Above(ParentsOf(rows), n, d)
    ensures d == n
  {
    if d != n {
      ClimbFindsChild(ParentsOf(rows), n, d);
    }
  }

  /** At a propagator a warning on its route goes one step down: never back to the node itself, and to
      a node from which it is still on its route. */
  lemma HopStaysOnRoute(rows: seq<Row>, n: nat, w: Warning)
    requires Proper(rows) && n < |rows| && OnRoute(rows, n, w) && !IsDestination(rows, n)
    ensures var p, d := ParentsOf(rows), Target(rows, w).value; var hop := Hop(p, n, Target(rows, w));
            && hop < |rows| && hop != n && Feeder(rows, hop) == n && OnRoute(rows, hop, w)
            && Depth(p, hop) == Depth(p, n) + 1 && Depth(p, n) < Depth(p, d)
  {
    var p, d := ParentsOf(rows), Target(rows, w).value;
    ClimbFindsChild(p, n, d);
    PathPrefix(p, d, Depth(p, n) + 1);
  }

  lemma RootOnRoute(rows: seq<Row>, w: Warning)
    requires Proper(rows) && Addressed(rows, w)
    ensures var p, d := ParentsOf(rows), Target(rows, w).value;
            && Root(p, d) < |rows| && Feeder(rows, Root(p, d)) == |rows| && OnRoute(rows, Root(p, d), w)
            && Depth(p, Root(p, d)) == 0
  {
    PathPrefix(ParentsOf(rows), Target(rows, w).value, 0);
  }

  // ---- Every step ----

  lemma SitesOkUpdate(rows: seq<Row>, sites: seq<Site>, n: nat, site: Site)
    requires Proper(rows) && SitesOk(rows, sites) && n < |sites| && SiteOk(rows, n, site)
    ensures SitesOk(rows, sites[n := site])
  {
  }

  lemma DeliverOk(rows: seq<Row>, s: System, from: nat, hop: nat, w: Warning, x: Sending)
    requires Proper(rows) && SitesOk(rows, s.sites) && hop < |rows| && OnRoute(rows, hop, w) && Possible(w, x)
    requires from == Feeder(rows, hop) && !WouldOverlap(rows, s, from, hop, x)
    ensures var s' := Deliver(rows, s, from, hop, w, x);
            SitesOk(rows, s'.sites) && s' == s.(sites := s'.sites, lost := s'.lost)
  {
    var site := s.sites[hop];
    ListenerIsHop(rows, hop);
    assert SiteOk(rows, hop, site);
    SentArrives(site.inbox, from, w, x);
    SitesOkUpdate(rows, s.sites, hop, site.(inbox := Sent(site.inbox, from, w, x)));
  }

  /** A send moves a warning to the next stream or loses it. */
  lemma DeliverSum(rows: seq<Row>, s: System, from: nat, hop: nat, w: Warning, x: Sending, f: Warning -> nat)
    requires Proper(rows) && SitesOk(rows, s.sites) && hop < |rows| && Possible(w, x)
    requires from == Feeder(rows, hop) && !WouldOverlap(rows, s, from, hop, x)
    ensures var s' := Deliver(rows, s, from, hop, w, x);
            Total(s'.sites, f) + Sum(s'.lost, f) == Total(s.sites, f) + Sum(s.lost, f) + f(w)
  {
    ListenerIsHop(rows, hop);
    var site := s.sites[hop];
    assert SiteOk(rows, hop, site);
    SentArrives(site.inbox, from, w, x);
    SumAdd(Arriving(site.inbox), w, f);
    SumAdd(s.lost, w, f);
    assert Arriving(site.inbox) + [] == Arriving(site.inbox);
    TotalUpdate(s.sites, hop, site.(inbox := Sent(site.inbox, from, w, x)), f);
  }

  /** Closing a connection changes nothing for the warnings on their way. */
  lemma DisconnectedOk(rows: seq<Row>, s: System, hop: nat, f: Warning -> nat)
    requires Proper(rows) && SitesOk(rows, s.sites) && hop < |rows|
    ensures var s' := Disconnected(rows, s, Feeder(rows, hop), hop);
            && SitesOk(rows, s'.sites) && Total(s'.sites, f) == Total(s.sites, f)
            && s' == s.(sites := s'.sites)
  {
    var from, site := Feeder(rows, hop), s.sites[hop];
    ListenerIsHop(rows, hop);
    assert SiteOk(rows, hop, site);
    ShutArrives(site.inbox, from);
    SitesOkUpdate(rows, s.sites, hop, site.(inbox := Shut(site.inbox, from)));
    TotalUpdate(s.sites, hop, site.(inbox := Shut(site.inbox, from)), f);
  }

  // ---- Steps inside one node ----

  lemma IdleUpdate(hands: seq<Option<Warning>>, closing: map<nat, nat>, h: nat, x: Option<Warning>)
    requires h < |hands|
    ensures Idle(hands[h := x], closing) ==
              if x.None? && h !in closing then Idle(hands, closing) + {h} else Idle(hands, closing) - {h}
  {
  }

  ghost function IdleOf(site: Site): set<nat> {
    Idle(site.hands, site.closing)
  }

  lemma ReceivedOk(rows: seq<Row>, n: nat, site: Site, wake: Option<nat>)
    requires Proper(rows) && SiteOk(rows, n, site)
    requires Readable(site.inbox) && CanPut(site.queue, PRODUCER, Some(Decode(site.inbox[0].bytes).value), wake)
    ensures SiteOk(rows, n, Received(site, wake))
  {
    var w := Decode(site.inbox[0].bytes).value;
    ReadArrives(site.inbox, Feeder(rows, n));
    assert w in Arriving(site.inbox);
    PutServes(site.queue, IdleOf(site), PRODUCER, Some(w), wake);
    assert QueueOk(rows, n, Received(site, wake).queue, IdleOf(site));
  }

  lemma ReceivedSum(site: Site, from: nat, wake: Option<nat>, f: Warning -> nat)
    requires InboxOk(site.inbox, from) && Serving(site.queue, IdleOf(site))
    requires Readable(site.inbox) && CanPut(site.queue, PRODUCER, Some(Decode(site.inbox[0].bytes).value), wake)
    ensures SiteSum(Received(site, wake), f) == SiteSum(site, f)
  {
    var w := Decode(site.inbox[0].bytes).value;
    ReadArrives(site.inbox, from);
    PutServes(site.queue, IdleOf(site), PRODUCER, Some(w), wake);
    SumItemsAdd(site.queue.items, Some(w), f);
  }

  /** Thread h can take or fall asleep. */
  predicate CanTakeAt(site: Site, h: nat) {
    h < |site.hands| && site.hands[h].None? && h !in site.closing && CanTake(site.queue, h)
  }

  lemma TakenQueueOk(rows: seq<Row>, n: nat, site: Site, h: nat)
    requires Proper(rows) && QueueOk(rows, n, site.queue, IdleOf(site)) && CanTakeAt(site, h)
    ensures QueueOk(rows, n, Taken(site, h).queue, IdleOf(Taken(site, h)))
    ensures var items := site.queue.items; items != [] ==> items[0].Some? && OnRoute(rows, n, items[0].value)
  {
    var items := site.queue.items;
    TakeServes(site.queue, IdleOf(site), h);
    if items != [] {
      assert items[0] in items && forall x :: x in items[1..] ==> x in items;
      IdleUpdate(site.hands, site.closing, h, items[0]);
    }
  }

  lemma TakenOk(rows: seq<Row>, n: nat, site: Site, h: nat)
    requires Proper(rows) && SiteOk(rows, n, site) && CanTakeAt(site, h)
    ensures SiteOk(rows, n, Taken(site, h))
  {
    TakenQueueOk(rows, n, site, h);
  }

  lemma TakenSum(site: Site, h: nat, f: Warning -> nat)
    requires Serving(site.queue, IdleOf(site)) && CanTakeAt(site, h)
    ensures SiteSum(Taken(site, h), f) == SiteSum(site, f)
  {
    TakeServes(site.queue, IdleOf(site), h);
    if site.queue.items != [] {
      SumItemsUpdate(site.hands, h, site.queue.items[0], f);
    }
  }

  lemma WokenOk(rows: seq<Row>, n: nat, site: Site, h: nat)
    requires Proper(rows) && SiteOk(rows, n, site) && Q.Enabled(site.queue, Q.SpuriousConsumer(h))
    ensures SiteOk(rows, n, Woken(site, h)) && Woken(site, h).queue.items == site.queue.items
  {
    SpuriousServes(site.queue, IdleOf(site), h);
  }

  lemma WokenSum(site: Site, h: nat, f: Warning -> nat)
    requires Serving(site.queue, IdleOf(site)) && Q.Enabled(site.queue, Q.SpuriousConsumer(h))
    ensures SiteSum(Woken(site, h), f) == SiteSum(site, f)
  {
    SpuriousServes(site.queue, IdleOf(site), h);
  }

  lemma HangupSum(site: Site, from: nat, f: Warning -> nat)
    requires InboxOk(site.inbox, from) && AtEnd(site.inbox)
    ensures SiteSum(site.(inbox := site.inbox[1..]), f) == SiteSum(site, f)
  {
    EndArrives(site.inbox, from);
  }

  /** The thread holds a warning or is about to close a connection. */
  predicate Busy(site: Site, h: nat) {
    h < |site.hands| && (site.hands[h].Some? || h in site.closing)
  }

  lemma ReleasedQueueOk(rows: seq<Row>, n: nat, site: Site, h: nat)
    requires Proper(rows) && QueueOk(rows, n, site.queue, IdleOf(site)) && Busy(site, h)
    ensures Q.Enabled(site.queue, Q.CallDequeue(h))
    ensures var site' := Released(site, h);
            && QueueOk(rows, n, site'.queue, IdleOf(site')) && site'.queue.items == site.queue.items
            && |site'.queue.consAwake| == |site.queue.consAwake| + 1
  {
    ReturnServes(site.queue, IdleOf(site), h);
    IdleReleased(site.hands, site.closing, h);
  }

  lemma IdleReleased(hands: seq<Option<Warning>>, closing: map<nat, nat>, h: nat)
    requires h < |hands|
    ensures Idle(hands[h := None], closing - {h}) == Idle(hands, closing) + {h}
  {
  }

  lemma ReleasedThreadsOk(rows: seq<Row>, n: nat, hands: seq<Option<Warning>>, closing: map<nat, nat>, h: nat)
    requires Proper(rows) && ThreadsOk(rows, n, hands, closing) && h < |hands|
    ensures ThreadsOk(rows, n, hands[h := None], closing - {h})
  {
  }

  lemma ReleasedOk(rows: seq<Row>, n: nat, site: Site, h: nat)
    requires Proper(rows) && SiteOk(rows, n, site) && Busy(site, h)
    ensures Q.Enabled(site.queue, Q.CallDequeue(h))
    ensures SiteOk(rows, n, Released(site, h))
  {
    ReleasedQueueOk(rows, n, site, h);
    ReleasedThreadsOk(rows, n, site.hands, site.closing, h);
  }

  lemma ClosingThreadsOk(rows: seq<Row>, n: nat, hands: seq<Option<Warning>>, closing: map<nat, nat>, h: nat, hop: nat)
    requires Proper(rows) && ThreadsOk(rows, n, hands, closing) && h < |hands| && hands[h].Some?
    requires hop < |rows| && Feeder(rows, hop) == n
    ensures ThreadsOk(rows, n, hands[h := None], closing[h := hop])
    ensures Idle(hands[h := None], closing[h := hop]) == Idle(hands, closing)
  {
  }

  lemma LetGoOk(rows: seq<Row>, n: nat, site: Site, h: nat, hop: nat, x: Sending)
    requires Proper(rows) && SiteOk(rows, n, site) && h < |site.hands| && site.hands[h].Some?
    requires hop < |rows| && Feeder(rows, hop) == n && Q.Enabled(site.queue, Q.CallDequeue(h))
    ensures SiteOk(rows, n, LetGo(site, h, hop, x))
  {
    if x.Partial? {
      ClosingThreadsOk(rows, n, site.hands, site.closing, h, hop);
    } else {
      ReleasedOk(rows, n, site, h);
    }
  }

  lemma LetGoSum(site: Site, h: nat, hop: nat, x: Sending, f: Warning -> nat)
    requires h < |site.hands| && site.hands[h].Some? && Q.Enabled(site.queue, Q.CallDequeue(h))
    ensures SiteSum(LetGo(site, h, hop, x), f) == SiteSum(site, f) - f(site.hands[h].value)
  {
    SumItemsUpdate(site.hands, h, None, f);
  }

  lemma ReleasedSum(site: Site, h: nat, f: Warning -> nat)
    requires h < |site.hands| && Q.Enabled(site.queue, Q.CallDequeue(h))
    ensures SiteSum(Released(site, h), f) == SiteSum(site, f) - Weight(site.hands[h], f)
  {
    SumItemsUpdate(site.hands, h, None, f);
  }

  lemma LocalSiteOk(rows: seq<Row>, n: nat, site: Site, step: Step)
    requires Proper(rows) && SiteOk(rows, n, site) && IsLocal(step) && LocalEnabled(site, step)
    ensures SiteOk(rows, n, LocalNext(site, step))
  {
    match step
    case Receive(_, wake) => ReceivedOk(rows, n, site, wake);
    case Hangup(_) => EndArrives(site.inbox, Feeder(rows, n));
    case Take(_, h) => TakenOk(rows, n, site, h);
    case Spurious(_, h) => WokenOk(rows, n, site, h);
  }

  lemma LocalSiteSum(site: Site, from: nat, step: Step, f: Warning -> nat)
    requires InboxOk(site.inbox, from) && Serving(site.queue, IdleOf(site)) && IsLocal(step) && LocalEnabled(site, step)
    ensures SiteSum(LocalNext(site, step), f) == SiteSum(site, f)
  {
    match step
    case Receive(_, wake) => ReceivedSum(site, from, wake, f);
    case Hangup(_) => HangupSum(site, from, f);
    case Take(_, h) => TakenSum(site, h, f);
    case Spurious(_, h) => WokenSum(site, h, f);
  }

  lemma LocalOk(rows: seq<Row>, s: System, step: Step)
    requires Inv(rows, s) && Enabled(rows, s, step) && IsLocal(step)
    ensures Inv(rows, Next(rows, s, step))
  {
    var site := s.sites[step.n];
    assert SiteOk(rows, step.n, site);
    LocalSiteOk(rows, step.n, site, step);
    SitesOkUpdate(rows, s.sites, step.n, LocalNext(site, step));
  }

  lemma LocalConserves(rows: seq<Row>, s: System, step: Step, f: Warning -> nat)
    requires Inv(rows, s) && Enabled(rows, s, step) && IsLocal(step) && Conserved(s, f)
    ensures Conserved(Next(rows, s, step), f)
  {
    var site := s.sites[step.n];
    assert SiteOk(rows, step.n, site);
    LocalSiteSum(site, Feeder(rows, step.n), step, f);
    TotalUpdate(s.sites, step.n, LocalNext(site, step), f);
  }

  lemma CountOk(rows: seq<Row>, s: System, n: nat, h: nat)
    requires Inv(rows, s) && n < |s.sites| && h < |s.sites[n].hands| && s.sites[n].hands[h].Some?
    requires Q.Enabled(s.sites[n].queue, Q.CallDequeue(h)) && IsDestination(rows, n)
    ensures SitesOk(rows, CountOne(s, n, h).sites)
  {
    var site := s.sites[n];
    assert SiteOk(rows, n, site);
    ReleasedOk(rows, n, site, h);
    SitesOkUpdate(rows, s.sites, n, Released(site, h).(counted := site.counted + [site.hands[h].value]));
  }

  lemma CountSum(s: System, n: nat, h: nat, f: Warning -> nat)
    requires n < |s.sites| && h < |s.sites[n].hands| && s.sites[n].hands[h].Some?
    requires Q.Enabled(s.sites[n].queue, Q.CallDequeue(h))
    ensures Total(CountOne(s, n, h).sites, f) == Total(s.sites, f)
  {
    var site := s.sites[n];
    ReleasedSum(site, h, f);
    SumAdd(site.counted, site.hands[h].value, f);
    TotalUpdate(s.sites, n, CountOne(s, n, h).sites[n], f);
  }

  /** The system after a worker's send to `hop`, before the bytes arrive. */
  function Gone(s: System, n: nat, h: nat, hop: nat, x: Sending): System
    requires n < |s.sites| && h < |s.sites[n].hands| && Q.Enabled(s.sites[n].queue, Q.CallDequeue(h))
  {
    s.(sites := s.sites[n := LetGo(s.sites[n], h, hop, x)])
  }

  /** The next hop of the warning in hand. */
  ghost function HopOf(rows: seq<Row>, s: System, n: nat, h: nat): nat
    requires Acyclic(ParentsOf(rows)) && n < |s.sites| && h < |s.sites[n].hands| && s.sites[n].hands[h].Some?
  {
    Hop(ParentsOf(rows), n, Target(rows, s.sites[n].hands[h].value))
  }

  lemma GoneOk(rows: seq<Row>, s: System, n: nat, h: nat, x: Sending)
    requires Inv(rows, s) && Enabled(rows, s, Finish(n, h, x)) && !IsDestination(rows, n)
    ensures var hop := HopOf(rows, s, n, h);
            && hop < |rows| && hop != n && Feeder(rows, hop) == n && OnRoute(rows, hop, s.sites[n].hands[h].value)
            && SitesOk(rows, Gone(s, n, h, hop, x).sites)
            && Gone(s, n, h, hop, x).sites[hop] == s.sites[hop]
  {
    var hop := HopOf(rows, s, n, h);
    assert SiteOk(rows, n, s.sites[n]);
    HopStaysOnRoute(rows, n, s.sites[n].hands[h].value);
    LetGoOk(rows, n, s.sites[n], h, hop, x);
    SitesOkUpdate(rows, s.sites, n, LetGo(s.sites[n], h, hop, x));
  }

  /** A send that does not overlap still does not when its thread has let go. */
  lemma GoneDoesNotOverlap(rows: seq<Row>, s: System, n: nat, h: nat, x: Sending)
    requires Inv(rows, s) && Enabled(rows, s, Finish(n, h, x)) && !IsDestination(rows, n) && !Overlaps(rows, s, Finish(n, h, x))
    ensures var hop := HopOf(rows, s, n, h); !WouldOverlap(rows, Gone(s, n, h, hop, x), n, hop, x)
  {
    GoneOk(rows, s, n, h, x);
    ListenerIsHop(rows, HopOf(rows, s, n, h));
  }

  lemma GoneSum(s: System, n: nat, h: nat, hop: nat, x: Sending, f: Warning -> nat)
    requires n < |s.sites| && h < |s.sites[n].hands| && s.sites[n].hands[h].Some?
    requires Q.Enabled(s.sites[n].queue, Q.CallDequeue(h))
    ensures Total(Gone(s, n, h, hop, x).sites, f) == Total(s.sites, f) - f(s.sites[n].hands[h].value)
  {
    LetGoSum(s.sites[n], h, hop, x, f);
    TotalUpdate(s.sites, n, LetGo(s.sites[n], h, hop, x), f);
  }

  lemma ForwardOk(rows: seq<Row>, s: System, n: nat, h: nat, x: Sending)
    requires Inv(rows, s) && Enabled(rows, s, Finish(n, h, x)) && !IsDestination(rows, n) && !Overlaps(rows, s, Finish(n, h, x))
    ensures var s' := Forward(rows, s, n, h, x);
            SitesOk(rows, s'.sites) && s' == s.(sites := s'.sites, lost := s'.lost)
  {
    var hop := HopOf(rows, s, n, h);
    GoneOk(rows, s, n, h, x);
    GoneDoesNotOverlap(rows, s, n, h, x);
    DeliverOk(rows, Gone(s, n, h, hop, x), n, hop, s.sites[n].hands[h].value, x);
  }

  lemma ForwardSum(rows: seq<Row>, s: System, n: nat, h: nat, x: Sending, f: Warning -> nat)
    requires Inv(rows, s) && Enabled(rows, s, Finish(n, h, x)) && !IsDestination(rows, n) && !Overlaps(rows, s, Finish(n, h, x))
    ensures var s' := Forward(rows, s, n, h, x);
            Total(s'.sites, f) + Sum(s'.lost, f) == Total(s.sites, f) + Sum(s.lost, f)
  {
    var hop := HopOf(rows, s, n, h);
    GoneOk(rows, s, n, h, x);
    GoneSum(s, n, h, hop, x, f);
    GoneDoesNotOverlap(rows, s, n, h, x);
    DeliverSum(rows, Gone(s, n, h, hop, x), n, hop, s.sites[n].hands[h].value, x, f);
  }

  lemma BackOk(rows: seq<Row>, s: System, n: nat, h: nat, f: Warning -> nat)
    requires Inv(rows, s) && Enabled(rows, s, Disconnect(n, h))
    ensures SitesOk(rows, Back(s, n, h).sites) && Total(Back(s, n, h).sites, f) == Total(s.sites, f)
    ensures var hop := s.sites[n].closing[h]; hop < |rows| && Feeder(rows, hop) == n
  {
    var site := s.sites[n];
    assert SiteOk(rows, n, site);
    ReleasedOk(rows, n, site, h);
    SitesOkUpdate(rows, s.sites, n, Released(site, h));
    ReleasedSum(site, h, f);
    TotalUpdate(s.sites, n, Released(site, h), f);
  }

  lemma DisconnectOk(rows: seq<Row>, s: System, n: nat, h: nat, f: Warning -> nat)
    requires Inv(rows, s) && Enabled(rows, s, Disconnect(n, h))
    ensures Inv(rows, Next(rows, s, Disconnect(n, h)))
    ensures Conserved(s, f) ==> Conserved(Next(rows, s, Disconnect(n, h)), f)
  {
    BackOk(rows, s, n, h, f);
    DisconnectedOk(rows, Back(s, n, h), s.sites[n].closing[h], f);
  }

  // ---- Steps of the data source ----

  lemma GenerateOk(rows: seq<Row>, s: System, d: nat, kind: uint32, value: uint64, timestamp: uint64, wake: Option<nat>)
    requires Proper(rows) && SourceOk(rows, s) && |s.sites| == |rows|
    requires Enabled(rows, s, Generate(d, kind, value, timestamp, wake))
    ensures SourceOk(rows, Next(rows, s, Generate(d, kind, value, timestamp, wake)))
  {
    GeneratedAddressed(rows, d, kind, value, timestamp);
    PutServes(s.source, Inside(s.sender), PRODUCER, Some(NewWarning(rows, d, kind, value, timestamp)), wake);
  }

  lemma EndGenerationOk(rows: seq<Row>, s: System, wake: Option<nat>)
    requires Proper(rows) && SourceOk(rows, s) && |s.sites| == |rows| && Enabled(rows, s, EndGeneration(wake))
    ensures SourceOk(rows, Next(rows, s, EndGeneration(wake)))
  {
    PutServes(s.source, Inside(s.sender), PRODUCER, None, wake);
    assert (s.source.items + [None])[..|s.source.items|] == s.source.items;
  }

  lemma FetchedOk(rows: seq<Row>, items: seq<Option<Warning>>, generating: bool)
    requires ItemsOk(rows, items, generating, false) && items != [] && HasDestination(rows)
    ensures ItemsOk(rows, items[1..], generating, Fetched(items).Stopped?)
    ensures Fetched(items).Holding? ==> Addressed(rows, Fetched(items).w)
    ensures generating ==> !Fetched(items).Stopped?
  {
    var first, rest := items[0], items[1..];
    assert items == [first] + rest && first in items;
    if rest != [] {
      assert rest[..|rest| - 1] == items[..|items| - 1][1..];
      assert first == items[..|items| - 1][0];
    }
  }

  lemma SourceTakeOk(rows: seq<Row>, s: System)
    requires Proper(rows) && SourceOk(rows, s) && |s.sites| == |rows| && Enabled(rows, s, SourceTake)
    ensures SourceOk(rows, Next(rows, s, SourceTake))
  {
    TakeServes(s.source, {SENDER}, SENDER);
    if s.source.items != [] {
      FetchedOk(rows, s.source.items, s.generating);
      assert {SENDER} - {SENDER} == {};
    }
  }

  lemma SenderBackOk(rows: seq<Row>, s: System)
    requires Proper(rows) && SourceOk(rows, s) && (s.sender.Holding? || s.sender.Closing?)
    ensures Q.Enabled(s.source, Q.CallDequeue(SENDER))
    ensures SourceOk(rows, SenderBack(s)) && SenderBack(s).source.items == s.source.items
    ensures |SenderBack(s).source.consAwake| == |s.source.consAwake| + 1
  {
    ReturnServes(s.source, {}, SENDER);
    assert {} + {SENDER} == {SENDER};
  }

  /** The root to which the sender sends the warning in hand. */
  ghost function RootOf(rows: seq<Row>, s: System): nat
    requires Proper(rows) && s.sender.Holding? && Addressed(rows, s.sender.w)
  {
    Root(ParentsOf(rows), Target(rows, s.sender.w).value)
  }

  lemma AfterSendOk(rows: seq<Row>, s: System, x: Sending)
    requires Inv(rows, s) && Enabled(rows, s, SourceSend(x))
    ensures var root := RootOf(rows, s); var s' := AfterSend(s, root, x);
            && root < |rows| && Feeder(rows, root) == |rows| && OnRoute(rows, root, s.sender.w)
            && SourceOk(rows, s') && s'.source.items == s.source.items && !s'.sender.Holding?
            && s' == s.(sender := s'.sender, source := s'.source)
  {
    RootOnRoute(rows, s.sender.w);
    SenderBackOk(rows, s);
  }

  lemma SourceSendOk(rows: seq<Row>, s: System, x: Sending)
    requires Inv(rows, s) && Enabled(rows, s, SourceSend(x)) && !Overlaps(rows, s, SourceSend(x))
    ensures Inv(rows, Next(rows, s, SourceSend(x)))
  {
    var root := RootOf(rows, s);
    AfterSendOk(rows, s, x);
    DeliverOk(rows, AfterSend(s, root, x), |rows|, root, s.sender.w, x);
  }

  lemma SourceDisconnectOk(rows: seq<Row>, s: System, f: Warning -> nat)
    requires Inv(rows, s) && Enabled(rows, s, SourceDisconnect)
    ensures Inv(rows, Next(rows, s, SourceDisconnect))
    ensures Conserved(s, f) ==> Conserved(Next(rows, s, SourceDisconnect), f)
  {
    SenderBackOk(rows, s);
    DisconnectedOk(rows, SenderBack(s), s.sender.hop, f);
  }

  // ---- Every step ----

  lemma StepKeepsInv(rows: seq<Row>, s: System, step: Step)
    requires Inv(rows, s) && Enabled(rows, s, step) && !Overlaps(rows, s, step)
    ensures Inv(rows, Next(rows, s, step))
  {
    match step
    case Finish(n, h, x) =>
      if IsDestination(rows, n) { CountOk(rows, s, n, h); } else { ForwardOk(rows, s, n, h, x); }
    case SourceSend(x) => SourceSendOk(rows, s, x);
    case SourceDisconnect => SourceDisconnectOk(rows, s, One());
    case Disconnect(n, h) => DisconnectOk(rows, s, n, h, One());
    case Generate(d, kind, value, timestamp, wake) => GenerateOk(rows, s, d, kind, value, timestamp, wake);
    case EndGeneration(wake) => EndGenerationOk(rows, s, wake);
    case SourceTake => SourceTakeOk(rows, s);
    case SourceSpurious => SpuriousServes(s.source, Inside(s.sender), SENDER);
    case _ => LocalOk(rows, s, step);
  }

  lemma GenerateConserves(rows: seq<Row>, s: System, d: nat, kind: uint32, value: uint64, timestamp: uint64, wake: Option<nat>, f: Warning -> nat)
    requires Inv(rows, s) && Enabled(rows, s, Generate(d, kind, value, timestamp, wake)) && Conserved(s, f)
    ensures Conserved(Next(rows, s, Generate(d, kind, value, timestamp, wake)), f)
  {
    var w := NewWarning(rows, d, kind, value, timestamp);
    PutServes(s.source, Inside(s.sender), PRODUCER, Some(w), wake);
    SumAdd(s.generated, w, f);
    SumItemsAdd(s.source.items, Some(w), f);
  }

  lemma EndGenerationConserves(rows: seq<Row>, s: System, wake: Option<nat>, f: Warning -> nat)
    requires Inv(rows, s) && Enabled(rows, s, EndGeneration(wake)) && Conserved(s, f)
    ensures Conserved(Next(rows, s, EndGeneration(wake)), f)
  {
    PutServes(s.source, Inside(s.sender), PRODUCER, None, wake);
    SumItemsAdd(s.source.items, None, f);
  }

  lemma FetchedSum(items: seq<Option<Warning>>, f: Warning -> nat)
    requires items != []
    ensures SumItems(items, f) == SumItems(items[1..], f) + if Fetched(items).Holding? then f(Fetched(items).w) else 0
  {
  }

  lemma SourceTakeConserves(rows: seq<Row>, s: System, f: Warning -> nat)
    requires Inv(rows, s) && Enabled(rows, s, SourceTake) && Conserved(s, f)
    ensures Conserved(Next(rows, s, SourceTake), f)
  {
    TakeServes(s.source, Inside(s.sender), SENDER);
    if s.source.items != [] {
      FetchedSum(s.source.items, f);
    }
  }

  lemma SourceSendConserves(rows: seq<Row>, s: System, x: Sending, f: Warning -> nat)
    requires Inv(rows, s) && Enabled(rows, s, SourceSend(x)) && !Overlaps(rows, s, SourceSend(x)) && Conserved(s, f)
    ensures Conserved(Next(rows, s, SourceSend(x)), f)
  {
    var root := RootOf(rows, s);
    AfterSendOk(rows, s, x);
    DeliverOk(rows, AfterSend(s, root, x), |rows|, root, s.sender.w, x);
    DeliverSum(rows, AfterSend(s, root, x), |rows|, root, s.sender.w, x, f);
  }

  lemma StepConserves(rows: seq<Row>, s: System, step: Step, f: Warning -> nat)
    requires Inv(rows, s) && Enabled(rows, s, step) && !Overlaps(rows, s, step) && Conserved(s, f)
    ensures Conserved(Next(rows, s, step), f)
  {
    match step
    case Finish(n, h, x) =>
      if IsDestination(rows, n) {
        CountSum(s, n, h, f);
      } else {
        ForwardOk(rows, s, n, h, x);
        ForwardSum(rows, s, n, h, x, f);
      }
    case SourceSend(x) => SourceSendConserves(rows, s, x, f);
    case SourceDisconnect => SourceDisconnectOk(rows, s, f);
    case Disconnect(n, h) => DisconnectOk(rows, s, n, h, f);
    case Generate(d, kind, value, timestamp, wake) => GenerateConserves(rows, s, d, kind, value, timestamp, wake, f);
    case EndGeneration(wake) => EndGenerationConserves(rows, s, wake, f);
    case SourceTake => SourceTakeConserves(rows, s, f);
    case SourceSpurious => SpuriousServes(s.source, Inside(s.sender), SENDER);
    case _ => LocalConserves(rows, s, step, f);
  }

  // ---- Every run ----

  lemma StartedSiteOk(rows: seq<Row>, n: nat, threads: nat, f: Warning -> nat)
    requires Proper(rows) && threads > 0
    ensures SiteOk(rows, n, StartedSite(threads)) && SiteSum(StartedSite(threads), f) == 0
  {
    var site := StartedSite(threads);
    assert IdleOf(site) == site.queue.consAwake + {};
    SumItemsNone(site.hands, f);
  }

  lemma InitSites(rows: seq<Row>, threads: nat, f: Warning -> nat)
    requires Proper(rows) && threads > 0
    ensures SitesOk(rows, Init(rows, threads).sites) && Total(Init(rows, threads).sites, f) == 0
  {
    var sites := Init(rows, threads).sites;
    forall n | 0 <= n < |sites| ensures SiteOk(rows, n, sites[n]) && SiteSum(sites[n], f) == 0 {
      StartedSiteOk(rows, n, if IsDestination(rows, n) then 1 else threads, f);
    }
    TotalZero(sites, f);
  }

  lemma InitSource(rows: seq<Row>, threads: nat)
    ensures SourceOk(rows, Init(rows, threads))
  {
    assert {SENDER} + {} == {SENDER};
  }

  lemma InitOk(rows: seq<Row>, threads: nat, f: Warning -> nat)
    requires Proper(rows) && threads > 0
    ensures Inv(rows, Init(rows, threads)) && Conserved(Init(rows, threads), f)
  {
    InitSites(rows, threads, f);
    InitSource(rows, threads);
  }

  lemma {:induction false} RunKeeps(rows: seq<Row>, s: System, steps: seq<Step>, f: Warning -> nat)
    requires Inv(rows, s) && Conserved(s, f) && Runs(rows, s, steps) && Clean(rows, s, steps)
    ensures Inv(rows, After(rows, s, steps)) && Conserved(After(rows, s, steps), f)
    decreases |steps|
  {
    if steps != [] {
      StepKeepsInv(rows, s, steps[0]);
      StepConserves(rows, s, steps[0], f);
      RunKeeps(rows, Next(rows, s, steps[0]), steps[1..], f);
    }
  }

  /** A run of the system from its start in which no send falls between a short send and its close. */
  ghost predicate CleanRun(rows: seq<Row>, threads: nat, steps: seq<Step>) {
    && Proper(rows) && threads > 0
    && Runs(rows, Init(rows, threads), steps) && Clean(rows, Init(rows, threads), steps)
  }

  /** Conservation: in every clean interleaving, for every weight on warnings, what was generated equals
      what is queued at the source, in the sender's hand, in the streams, queues and hands of the
      nodes, counted, or lost to a failed send. */
  lemma ConservationInCleanRuns(rows: seq<Row>, threads: nat, steps: seq<Step>, f: Warning -> nat)
    requires CleanRun(rows, threads, steps)
    ensures Conserved(After(rows, Init(rows, threads), steps), f)
  {
    InitOk(rows, threads, f);
    RunKeeps(rows, Init(rows, threads), steps, f);
  }

  /** A run without short sends is clean. */
  lemma {:induction false} NoShortSendIsClean(rows: seq<Row>, s: System, steps: seq<Step>)
    requires Inv(rows, s) && Runs(rows, s, steps) && NothingCut(s) && NoShortSends(steps)
    ensures Clean(rows, s, steps)
    decreases |steps|
  {
    if steps != [] {
      NotCut(rows, s, steps[0]);
      StepKeepsInv(rows, s, steps[0]);
      StaysUncut(rows, s, steps[0]);
      NoShortSendIsClean(rows, Next(rows, s, steps[0]), steps[1..]);
    }
  }

  predicate NoShortSends(steps: seq<Step>) {
    forall i :: 0 <= i < |steps| ==> (steps[i].SourceSend? || steps[i].Finish?) ==> !steps[i].x.Partial?
  }

  predicate Uncut(inbox: Inbox) {
    forall i :: 0 <= i < |inbox| ==> !inbox[i].cut
  }

  predicate NothingCut(s: System) {
    forall n :: 0 <= n < |s.sites| ==> Uncut(s.sites[n].inbox)
  }

  lemma NotCut(rows: seq<Row>, s: System, step: Step)
    requires Inv(rows, s) && Enabled(rows, s, step) && NothingCut(s)
    ensures !Overlaps(rows, s, step)
  {
  }

  lemma DeliverUncut(rows: seq<Row>, s: System, from: nat, hop: nat, w: Warning, x: Sending)
    requires hop < |rows| && Possible(w, x) && !x.Partial? && NothingCut(s)
    ensures NothingCut(Deliver(rows, s, from, hop, w, x))
  {
    var n := ListenerAt(rows, hop);
    if n < |s.sites| {
      assert Uncut(s.sites[n].inbox);
      assert Uncut(Sent(s.sites[n].inbox, from, w, x));
    }
  }

  lemma DisconnectedUncut(rows: seq<Row>, s: System, from: nat, hop: nat)
    requires NothingCut(s)
    ensures NothingCut(Disconnected(rows, s, from, hop))
  {
    if hop < |rows| && ListenerAt(rows, hop) < |s.sites| {
      assert Uncut(s.sites[ListenerAt(rows, hop)].inbox);
      assert Uncut(Shut(s.sites[ListenerAt(rows, hop)].inbox, from));
    }
  }

  lemma LocalUncut(site: Site, step: Step)
    requires IsLocal(step) && LocalEnabled(site, step) && Uncut(site.inbox)
    ensures Uncut(LocalNext(site, step).inbox)
  {
  }

  lemma SiteUncut(s: System, n: nat, site: Site)
    requires NothingCut(s) && n < |s.sites| && Uncut(site.inbox)
    ensures NothingCut(s.(sites := s.sites[n := site]))
  {
  }

  lemma ForwardUncut(rows: seq<Row>, s: System, n: nat, h: nat, x: Sending)
    requires Inv(rows, s) && Enabled(rows, s, Finish(n, h, x)) && !IsDestination(rows, n) && !x.Partial? && NothingCut(s)
    ensures NothingCut(Forward(rows, s, n, h, x))
  {
    var hop := HopOf(rows, s, n, h);
    GoneOk(rows, s, n, h, x);
    SiteUncut(s, n, LetGo(s.sites[n], h, hop, x));
    DeliverUncut(rows, Gone(s, n, h, hop, x), n, hop, s.sites[n].hands[h].value, x);
  }

  lemma SourceUncut(rows: seq<Row>, s: System, x: Sending)
    requires Inv(rows, s) && Enabled(rows, s, SourceSend(x)) && !x.Partial? && NothingCut(s)
    ensures NothingCut(SendFromSource(rows, s, x))
  {
    var root := RootOf(rows, s);
    AfterSendOk(rows, s, x);
    DeliverUncut(rows, AfterSend(s, root, x), |rows|, root, s.sender.w, x);
  }

  lemma DisconnectUncut(rows: seq<Row>, s: System, n: nat, h: nat)
    requires Inv(rows, s) && Enabled(rows, s, Disconnect(n, h)) && NothingCut(s)
    ensures NothingCut(Next(rows, s, Disconnect(n, h)))
  {
    SiteUncut(s, n, Released(s.sites[n], h));
    DisconnectedUncut(rows, Back(s, n, h), n, s.sites[n].closing[h]);
  }

  lemma StaysUncut(rows: seq<Row>, s: System, step: Step)
    requires Inv(rows, s) && Enabled(rows, s, step) && NothingCut(s)
    requires (step.SourceSend? || step.Finish?) ==> !step.x.Partial?
    ensures NothingCut(Next(rows, s, step))
  {
    match step
    case SourceSend(x) => SourceUncut(rows, s, x);
    case SourceDisconnect => DisconnectedUncut(rows, SenderBack(s), |rows|, s.sender.hop);
    case Disconnect(n, h) => DisconnectUncut(rows, s, n, h);
    case Finish(n, h, x) =>
      if IsDestination(rows, n) { SiteUncut(s, n, CountOne(s, n, h).sites[n]); } else { ForwardUncut(rows, s, n, h, x); }
    case Generate(_, _, _, _, _) =>
    case EndGeneration(_) =>
    case SourceTake =>
    case SourceSpurious =>
    case _ =>
      LocalUncut(s.sites[step.n], step);
      SiteUncut(s, step.n, LocalNext(s.sites[step.n], step));
  }

  // ---- What has happened when nothing more can ----

  /** The weight f, restricted to warnings for node d. */
  ghost function For(rows: seq<Row>, d: nat, f: Warning -> nat): Warning -> nat {
    w => if Target(rows, w) == Some(d) then f(w) else 0
  }

  lemma NotEnabled(rows: seq<Row>, s: System, step: Step)
    requires Quiescent(rows, s) && !IsSpurious(step)
    ensures !Enabled(rows, s, step)
  {
  }

  lemma QuiescentGenerator(rows: seq<Row>, s: System)
    requires Inv(rows, s) && Quiescent(rows, s)
    ensures !s.generating
  {
    var inside := Inside(s.sender);
    var last := SomePut(s.source, inside, PRODUCER, None);
    NotEnabled(rows, s, EndGeneration(last));
    if HasDestination(rows) {
      var d :| 0 <= d < |rows| && IsDestination(rows, d);
      var wake := SomePut(s.source, inside, PRODUCER, Some(NewWarning(rows, d, 0, 0, 0)));
      NotEnabled(rows, s, Generate(d, 0, 0, 0, wake));
    }
  }

  /** The sender moves while it holds a warning or an item is queued: it cannot sleep beside the queue. */
  lemma SenderMoves(rows: seq<Row>, s: System) returns (step: Step)
    requires Inv(rows, s) && (s.sender.Holding? || s.sender.Closing? || (s.sender.Ready? && s.source.items != []))
    ensures !IsSpurious(step) && Enabled(rows, s, step)
  {
    if !s.sender.Ready? {
      SenderBackOk(rows, s);
      step := if s.sender.Holding? then SourceSend(Complete) else SourceDisconnect;
    } else {
      var h := SomeTake(s.source, {SENDER});
      step := SourceTake;
    }
  }

  /** At rest the sender has taken the sentinel. */
  lemma QuiescentSource(rows: seq<Row>, s: System)
    requires Inv(rows, s) && Quiescent(rows, s)
    ensures !s.generating && s.source.items == [] && !s.sender.Holding?
    ensures HasDestination(rows) ==> s.sender.Stopped? && |s.generated| == NUMBER_OF_WARNINGS
  {
    QuiescentGenerator(rows, s);
    if s.sender.Holding? || s.sender.Closing? || (s.sender.Ready? && s.source.items != []) {
      var step := SenderMoves(rows, s);
      NotEnabled(rows, s, step);
    }
  }

  lemma CanGoOn(rows: seq<Row>, s: System, n: nat, h: nat) returns (step: Step)
    requires Inv(rows, s) && n < |rows| && Busy(s.sites[n], h)
    ensures !IsSpurious(step) && Enabled(rows, s, step)
  {
    assert SiteOk(rows, n, s.sites[n]);
    ReleasedOk(rows, n, s.sites[n], h);
    step := if s.sites[n].hands[h].Some? then Finish(n, h, Complete) else Disconnect(n, h);
  }

  lemma QuiescentHands(rows: seq<Row>, s: System, n: nat)
    requires Inv(rows, s) && Quiescent(rows, s) && n < |rows|
    ensures forall h :: 0 <= h < |s.sites[n].hands| ==> s.sites[n].hands[h].None? && h !in s.sites[n].closing
  {
    forall h | 0 <= h < |s.sites[n].hands| ensures s.sites[n].hands[h].None? && h !in s.sites[n].closing {
      if Busy(s.sites[n], h) {
        var step := CanGoOn(rows, s, n, h);
        NotEnabled(rows, s, step);
      }
    }
  }

  lemma CanReceive(rows: seq<Row>, s: System, n: nat) returns (step: Step)
    requires Inv(rows, s) && n < |rows| && (Readable(s.sites[n].inbox) || AtEnd(s.sites[n].inbox))
    ensures !IsSpurious(step) && Enabled(rows, s, step)
  {
    var site := s.sites[n];
    assert SiteOk(rows, n, site);
    if Readable(site.inbox) {
      var wake := SomePut(site.queue, IdleOf(site), PRODUCER, Some(Decode(site.inbox[0].bytes).value));
      step := Receive(n, wake);
    } else {
      step := Hangup(n);
    }
  }

  lemma QuiescentInbox(rows: seq<Row>, s: System, n: nat)
    requires Inv(rows, s) && Quiescent(rows, s) && n < |rows|
    ensures Arriving(s.sites[n].inbox) == []
  {
    assert SiteOk(rows, n, s.sites[n]);
    if Readable(s.sites[n].inbox) || AtEnd(s.sites[n].inbox) {
      var step := CanReceive(rows, s, n);
      NotEnabled(rows, s, step);
    }
    NothingArrives(s.sites[n].inbox, Feeder(rows, n));
  }

  /** At rest every queue is empty: no thread sleeps beside a queued warning. */
  lemma QuiescentQueue(rows: seq<Row>, s: System, n: nat)
    requires Inv(rows, s) && Quiescent(rows, s) && n < |rows|
    ensures s.sites[n].queue.items == []
  {
    var site := s.sites[n];
    assert SiteOk(rows, n, site);
    QuiescentHands(rows, s, n);
    if site.queue.items != [] {
      assert 0 in IdleOf(site);
      var h := SomeTake(site.queue, IdleOf(site));
      NotEnabled(rows, s, Take(n, h));
    }
  }

  lemma QuiescentSiteSum(rows: seq<Row>, s: System, n: nat, f: Warning -> nat)
    requires Inv(rows, s) && Quiescent(rows, s) && n < |rows|
    ensures SiteSum(s.sites[n], f) == Sum(s.sites[n].counted, f)
  {
    QuiescentInbox(rows, s, n);
    QuiescentQueue(rows, s, n);
    QuiescentHands(rows, s, n);
    SumItemsNone(s.sites[n].hands, f);
  }

  lemma CountedAreMine(rows: seq<Row>, s: System, n: nat, w: Warning)
    requires Inv(rows, s) && n < |rows| && w in s.sites[n].counted
    ensures Target(rows, w) == Some(n)
  {
    assert SiteOk(rows, n, s.sites[n]);
    DestinationIsLowest(rows, n, Target(rows, w).value);
  }

  lemma {:induction false} SumSame(ws: seq<Warning>, f: Warning -> nat, g: Warning -> nat)
    requires forall w :: w in ws ==> f(w) == g(w)
    ensures Sum(ws, f) == Sum(ws, g)
  {
    if ws != [] {
      SumSame(ws[1..], f, g);
    }
  }

  /** In a state that can go no further, everything generated for node d has been counted at d or
      lost to a failed send, for every weight f. */
  lemma QuiescentDelivers(rows: seq<Row>, s: System, d: nat, f: Warning -> nat)
    requires Inv(rows, s) && Quiescent(rows, s) && d < |rows| && Conserved(s, For(rows, d, f))
    ensures Sum(s.generated, For(rows, d, f)) == Sum(s.sites[d].counted, f) + Sum(s.lost, For(rows, d, f))
  {
    var g := For(rows, d, f);
    QuiescentSource(rows, s);
    forall n: nat | n < |rows| ensures SiteSum(s.sites[n], g) == if n == d then Sum(s.sites[d].counted, f) else 0 {
      QuiescentSiteSum(rows, s, n, g);
      forall w | w in s.sites[n].counted ensures g(w) == if n == d then f(w) else 0 {
        CountedAreMine(rows, s, n, w);
      }
      if n == d {
        SumSame(s.sites[d].counted, g, f);
      } else {
        SumZero(s.sites[n].counted, g);
      }
    }
    TotalSingle(s.sites, d, g);
  }

  /** The step is a send that fails. */
  predicate Fails(rows: seq<Row>, step: Step) {
    || (step.SourceSend? && !step.x.Complete?)
    || (step.Finish? && !IsDestination(rows, step.n) && !step.x.Complete?)
  }

  ghost function Failures(rows: seq<Row>, steps: seq<Step>): nat {
    if steps == [] then 0 else (if Fails(rows, steps[0]) then 1 else 0) + Failures(rows, steps[1..])
  }

  lemma ForwardLoses(rows: seq<Row>, s: System, n: nat, h: nat, x: Sending)
    requires Inv(rows, s) && Enabled(rows, s, Finish(n, h, x)) && !IsDestination(rows, n)
    ensures |Forward(rows, s, n, h, x).lost| == |s.lost| + if x.Complete? then 0 else 1
  {
    GoneOk(rows, s, n, h, x);
  }

  lemma SourceLoses(rows: seq<Row>, s: System, x: Sending)
    requires Inv(rows, s) && Enabled(rows, s, SourceSend(x))
    ensures |SendFromSource(rows, s, x).lost| == |s.lost| + if x.Complete? then 0 else 1
  {
  }

  lemma StepLoses(rows: seq<Row>, s: System, step: Step)
    requires Inv(rows, s) && Enabled(rows, s, step)
    ensures |Next(rows, s, step).lost| == |s.lost| + if Fails(rows, step) then 1 else 0
  {
    match step
    case Finish(n, h, x) => if !IsDestination(rows, n) { ForwardLoses(rows, s, n, h, x); }
    case SourceSend(x) => SourceLoses(rows, s, x);
    case _ =>
  }

  /** Exactly one warning is lost for every send that fails. */
  lemma {:induction false} LostPerFailure(rows: seq<Row>, s: System, steps: seq<Step>)
    requires Inv(rows, s) && Runs(rows, s, steps) && Clean(rows, s, steps)
    ensures |After(rows, s, steps).lost| == |s.lost| + Failures(rows, steps)
    decreases |steps|
  {
    if steps != [] {
      StepLoses(rows, s, steps[0]);
      StepKeepsInv(rows, s, steps[0]);
      LostPerFailure(rows, Next(rows, s, steps[0]), steps[1..]);
    }
  }

  lemma {:induction false} NoneFails(rows: seq<Row>, steps: seq<Step>)
    requires NoFailures(steps)
    ensures Failures(rows, steps) == 0
  {
    if steps != [] {
      NoneFails(rows, steps[1..]);
    }
  }

  ghost function One(): Warning -> nat {
    w => 1
  }

  lemma DeliveredWeight(rows: seq<Row>, threads: nat, steps: seq<Step>, d: nat, f: Warning -> nat)
    requires CleanRun(rows, threads, steps) && d < |rows| && Quiescent(rows, After(rows, Init(rows, threads), steps))
    ensures var s := After(rows, Init(rows, threads), steps);
            && Inv(rows, s)
            && Sum(s.generated, For(rows, d, f)) == Sum(s.sites[d].counted, f) + Sum(s.lost, For(rows, d, f))
  {
    InitOk(rows, threads, For(rows, d, f));
    RunKeeps(rows, Init(rows, threads), steps, For(rows, d, f));
    QuiescentDelivers(rows, After(rows, Init(rows, threads), steps), d, f);
  }

  /** With failed sends in a clean run, what is missing at a destination is exactly what was lost,
      content by content, and as many warnings were lost as sends failed. */
  lemma MissingIsLost(rows: seq<Row>, threads: nat, steps: seq<Step>, d: nat, f: Warning -> nat)
    requires CleanRun(rows, threads, steps) && d < |rows| && Quiescent(rows, After(rows, Init(rows, threads), steps))
    ensures var s := After(rows, Init(rows, threads), steps);
            && |s.sites| == |rows|
            && Sum(s.sites[d].counted, f) + Sum(s.lost, For(rows, d, f)) == Sum(s.generated, For(rows, d, f))
            && |s.lost| == Failures(rows, steps)
  {
    DeliveredWeight(rows, threads, steps, d, f);
    InitOk(rows, threads, f);
    LostPerFailure(rows, Init(rows, threads), steps);
  }

  lemma StartsUncut(rows: seq<Row>, threads: nat, steps: seq<Step>)
    requires Proper(rows) && threads > 0 && Runs(rows, Init(rows, threads), steps) && NoShortSends(steps)
    ensures CleanRun(rows, threads, steps)
  {
    InitOk(rows, threads, One());
    NoShortSendIsClean(rows, Init(rows, threads), steps);
  }

  /** End-to-end delivery: in every interleaving without failed sends that has come to rest, all
      warnings have been generated, the sender has stopped, and each destination has counted exactly
      the warnings generated for it. The weight f makes this an equality of contents, not only of
      numbers. */
  lemma EveryWarningDelivered(rows: seq<Row>, threads: nat, steps: seq<Step>, d: nat, f: Warning -> nat)
    requires Proper(rows) && threads > 0 && HasDestination(rows) && d < |rows|
    requires Runs(rows, Init(rows, threads), steps) && NoFailures(steps)
    requires Quiescent(rows, After(rows, Init(rows, threads), steps))
    ensures var s := After(rows, Init(rows, threads), steps);
            && |s.generated| == NUMBER_OF_WARNINGS && s.sender.Stopped? && |s.sites| == |rows|
            && Sum(s.sites[d].counted, f) == Sum(s.generated, For(rows, d, f))
            && |s.sites[d].counted| == Sum(s.generated, For(rows, d, One()))
  {
    NothingLost(rows, threads, steps);
    MissingIsLost(rows, threads, steps, d, f);
    CountedInAll(rows, threads, steps, d);
    AllGenerated(rows, threads, steps);
  }

  lemma NothingLost(rows: seq<Row>, threads: nat, steps: seq<Step>)
    requires Proper(rows) && threads > 0 && Runs(rows, Init(rows, threads), steps) && NoFailures(steps)
    ensures CleanRun(rows, threads, steps) && After(rows, Init(rows, threads), steps).lost == []
  {
    StartsUncut(rows, threads, steps);
    InitOk(rows, threads, One());
    LostPerFailure(rows, Init(rows, threads), steps);
    NoneFails(rows, steps);
  }

  lemma CountedInAll(rows: seq<Row>, threads: nat, steps: seq<Step>, d: nat)
    requires CleanRun(rows, threads, steps) && d < |rows| && Quiescent(rows, After(rows, Init(rows, threads), steps))
    ensures var s := After(rows, Init(rows, threads), steps);
            && |s.sites| == |rows|
            && |s.sites[d].counted| + Sum(s.lost, For(rows, d, One())) == Sum(s.generated, For(rows, d, One()))
  {
    MissingIsLost(rows, threads, steps, d, One());
    SumOnes(After(rows, Init(rows, threads), steps).sites[d].counted, One());
  }

  lemma AllGenerated(rows: seq<Row>, threads: nat, steps: seq<Step>)
    requires CleanRun(rows, threads, steps) && HasDestination(rows) && Quiescent(rows, After(rows, Init(rows, threads), steps))
    ensures var s := After(rows, Init(rows, threads), steps); |s.generated| == NUMBER_OF_WARNINGS && s.sender.Stopped?
  {
    InitOk(rows, threads, One());
    RunKeeps(rows, Init(rows, threads), steps, One());
    QuiescentSource(rows, After(rows, Init(rows, threads), steps));
  }
}
