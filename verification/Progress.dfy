/** Every clean run of the system is finite, whatever the interleaving: each step brings some warning
    closer to its end, puts a thread to sleep, closes a connection or drops a closed one, and only
    spurious wakes add steps. Together with Delivery this makes delivery certain without any fairness
    assumption. */
module Progress {
  import opened Basics
  import opened WireFormat
  import opened Topology
  import opened Streams
  import opened Mailbox
  import opened SystemModel
  import opened Accounting
  import opened Delivery
  import opened Overlap
  import Q = TSQueue

  /** Weight of a warning at node n: four for every level it still has to go down, and k at n. It pays
      for the steps of the warning and for the sections of the threads these steps wake. */
  ghost function Left(rows: seq<Row>, n: nat, k: nat): Warning -> nat
    requires Proper(rows) && n < |rows|
  {
    w => if Target(rows, w).Some? && Depth(ParentsOf(rows), n) <= Depth(ParentsOf(rows), Target(rows, w).value)
         then 4 * (Depth(ParentsOf(rows), Target(rows, w).value) - Depth(ParentsOf(rows), n)) + k else 0
  }

  /** Weight of a warning at the data source. */
  ghost function FromSender(rows: seq<Row>): Warning -> nat
    requires Proper(rows)
  {
    w => if Target(rows, w).Some? then 4 * Depth(ParentsOf(rows), Target(rows, w).value) + 6 else 0
  }

  ghost function SiteWork(rows: seq<Row>, n: nat, site: Site): nat
    requires Proper(rows) && n < |rows|
  {
    Sum(Arriving(site.inbox), Left(rows, n, 4)) + SumItems(site.queue.items, Left(rows, n, 2))
    + SumItems(site.hands, Left(rows, n, 2)) + |site.queue.consAwake| + Closed(site.inbox) + 3 * |site.closing|
  }

  ghost function Work(rows: seq<Row>, sites: seq<Site>): nat
    requires Proper(rows) && |sites| == |rows|
  {
    SumNat(seq(|sites|, i requires 0 <= i < |sites| => SiteWork(rows, i, sites[i])))
  }

  lemma WorkUpdate(rows: seq<Row>, sites: seq<Site>, n: nat, site: Site)
    requires Proper(rows) && |sites| == |rows| && n < |rows|
    ensures Work(rows, sites[n := site]) == Work(rows, sites) - SiteWork(rows, n, sites[n]) + SiteWork(rows, n, site)
  {
    var xs := seq(|sites|, i requires 0 <= i < |sites| => SiteWork(rows, i, sites[i]));
    SumNatUpdate(xs, n, SiteWork(rows, n, site));
    var sites' := sites[n := site];
    assert seq(|sites'|, i requires 0 <= i < |sites'| => SiteWork(rows, i, sites'[i])) == xs[n := SiteWork(rows, n, site)];
  }

  /** The most that one warning can weigh, from its generation on. */
  ghost function PerWarning(rows: seq<Row>): nat
    requires Proper(rows)
  {
    4 * Deepest(Depths(ParentsOf(rows))) + 8
  }

  ghost function Budget(warnings: nat, each: nat): nat {
    if warnings == 0 then 0 else each + Budget(warnings - 1, each)
  }

  ghost function SenderWork(rows: seq<Row>, sender: Sender): nat
    requires Proper(rows)
  {
    match sender case Holding(w) => FromSender(rows)(w) case Closing(_) => 3 case _ => 0
  }

  /** The weight of the data source: warnings not generated yet, queued, and in the sender's hand. */
  ghost function SourceWork(rows: seq<Row>, generated: nat, generating: bool, source: Q.State<Warning>, sender: Sender): nat
    requires Proper(rows) && generated <= NUMBER_OF_WARNINGS
  {
    Budget(NUMBER_OF_WARNINGS - generated, PerWarning(rows)) + (if generating then 2 else 0)
    + SumItems(source.items, FromSender(rows)) + |source.consAwake| + SenderWork(rows, sender)
  }

  ghost function Measure(rows: seq<Row>, s: System): nat
    requires Inv(rows, s)
  {
    SourceWork(rows, |s.generated|, s.generating, s.source, s.sender) + Work(rows, s.sites)
  }

  // ---- Steps inside one node ----

  lemma OnRouteLeft(rows: seq<Row>, n: nat, w: Warning, k: nat)
    requires Proper(rows) && n < |rows| && OnRoute(rows, n, w)
    ensures var p, d := ParentsOf(rows), Target(rows, w).value;
            Depth(p, n) <= Depth(p, d) && Left(rows, n, k)(w) == 4 * (Depth(p, d) - Depth(p, n)) + k
  {
    AboveAtDepth(ParentsOf(rows), n, Target(rows, w).value);
  }

  /** Receiving: the warning's weight drops by two, and at most one thread wakes. */
  lemma ReceivedShrinks(rows: seq<Row>, n: nat, site: Site, wake: Option<nat>)
    requires Proper(rows) && n < |rows| && SiteOk(rows, n, site)
    requires Readable(site.inbox) && CanPut(site.queue, PRODUCER, Some(Decode(site.inbox[0].bytes).value), wake)
    ensures SiteWork(rows, n, Received(site, wake)) < SiteWork(rows, n, site)
  {
    var w := Decode(site.inbox[0].bytes).value;
    ReadArrives(site.inbox, Feeder(rows, n));
    assert w in Arriving(site.inbox);
    PutServes(site.queue, IdleOf(site), PRODUCER, Some(w), wake);
    SumItemsAdd(site.queue.items, Some(w), Left(rows, n, 2));
    OnRouteLeft(rows, n, w, 4);
    OnRouteLeft(rows, n, w, 2);
  }

  /** Taking, or falling asleep: one thread less is awake. */
  lemma TakenShrinks(rows: seq<Row>, n: nat, site: Site, h: nat)
    requires Proper(rows) && n < |rows| && Serving(site.queue, IdleOf(site)) && CanTakeAt(site, h)
    ensures SiteWork(rows, n, Taken(site, h)) < SiteWork(rows, n, site)
  {
    TakeServes(site.queue, IdleOf(site), h);
    if site.queue.items != [] {
      SumItemsUpdate(site.hands, h, site.queue.items[0], Left(rows, n, 2));
    }
  }

  lemma HangupShrinks(rows: seq<Row>, n: nat, site: Site)
    requires Proper(rows) && n < |rows| && InboxOk(site.inbox, Feeder(rows, n)) && AtEnd(site.inbox)
    ensures SiteWork(rows, n, site.(inbox := site.inbox[1..])) < SiteWork(rows, n, site)
  {
    EndArrives(site.inbox, Feeder(rows, n));
  }

  lemma WokenWork(rows: seq<Row>, n: nat, site: Site, h: nat)
    requires Proper(rows) && n < |rows| && Serving(site.queue, IdleOf(site)) && Q.Enabled(site.queue, Q.SpuriousConsumer(h))
    ensures SiteWork(rows, n, Woken(site, h)) == SiteWork(rows, n, site) + 1
  {
    SpuriousServes(site.queue, IdleOf(site), h);
  }

  lemma LocalSiteShrinks(rows: seq<Row>, n: nat, site: Site, step: Step)
    requires Proper(rows) && n < |rows| && SiteOk(rows, n, site) && IsLocal(step) && LocalEnabled(site, step)
    ensures 1 + SiteWork(rows, n, LocalNext(site, step)) <= SiteWork(rows, n, site) + Extra(step)
  {
    match step
    case Receive(_, wake) => ReceivedShrinks(rows, n, site, wake);
    case Hangup(_) => HangupShrinks(rows, n, site);
    case Take(_, h) => TakenShrinks(rows, n, site, h);
    case Spurious(_, h) => WokenWork(rows, n, site, h);
  }

  /** A spurious wake adds itself and one section in which the thread falls asleep again. */
  function Extra(step: Step): nat {
    if IsSpurious(step) then 2 else 0
  }

  ghost function Extras(steps: seq<Step>): nat {
    if steps == [] then 0 else Extra(steps[0]) + Extras(steps[1..])
  }

  // ---- Sends ----

  /** A complete send puts the warning on the next stream; any other adds no work there. */
  lemma SentWork(rows: seq<Row>, n: nat, site: Site, w: Warning, x: Sending)
    requires Proper(rows) && n < |rows| && InboxOk(site.inbox, Feeder(rows, n)) && Possible(w, x)
    requires !(Adds(x) && CutOpen(site.inbox, Feeder(rows, n)))
    ensures SiteWork(rows, n, site.(inbox := Sent(site.inbox, Feeder(rows, n), w, x)))
         == SiteWork(rows, n, site) + if x.Complete? then Left(rows, n, 4)(w) else 0
  {
    SentArrives(site.inbox, Feeder(rows, n), w, x);
    SumAdd(Arriving(site.inbox), w, Left(rows, n, 4));
    assert Arriving(site.inbox) + [] == Arriving(site.inbox);
  }

  lemma DeliverWork(rows: seq<Row>, s: System, hop: nat, w: Warning, x: Sending)
    requires Proper(rows) && SitesOk(rows, s.sites) && hop < |rows| && Possible(w, x)
    requires !WouldOverlap(rows, s, Feeder(rows, hop), hop, x)
    ensures var s' := Deliver(rows, s, Feeder(rows, hop), hop, w, x);
            && |s'.sites| == |rows|
            && Work(rows, s'.sites) == Work(rows, s.sites) + if x.Complete? then Left(rows, hop, 4)(w) else 0
  {
    ListenerIsHop(rows, hop);
    var site := s.sites[hop];
    assert SiteOk(rows, hop, site);
    SentWork(rows, hop, site, w, x);
    WorkUpdate(rows, s.sites, hop, site.(inbox := Sent(site.inbox, Feeder(rows, hop), w, x)));
  }

  lemma DisconnectedWork(rows: seq<Row>, s: System, hop: nat)
    requires Proper(rows) && SitesOk(rows, s.sites) && hop < |rows|
    ensures var s' := Disconnected(rows, s, Feeder(rows, hop), hop);
            |s'.sites| == |rows| && Work(rows, s'.sites) <= Work(rows, s.sites) + 1
  {
    ListenerIsHop(rows, hop);
    var site := s.sites[hop];
    assert SiteOk(rows, hop, site);
    ShutArrives(site.inbox, Feeder(rows, hop));
    WorkUpdate(rows, s.sites, hop, site.(inbox := Shut(site.inbox, Feeder(rows, hop))));
  }

  /** Going back to the dequeue frees the weight of what the thread did, and the thread is awake. */
  lemma ReleasedWork(rows: seq<Row>, n: nat, site: Site, h: nat)
    requires Proper(rows) && n < |rows| && SiteOk(rows, n, site) && Busy(site, h) && Q.Enabled(site.queue, Q.CallDequeue(h))
    ensures SiteWork(rows, n, Released(site, h))
         == SiteWork(rows, n, site) + 1 - Weight(site.hands[h], Left(rows, n, 2)) - if h in site.closing then 3 else 0
  {
    ReleasedQueueOk(rows, n, site, h);
    SumItemsUpdate(site.hands, h, None, Left(rows, n, 2));
    FewerClosing(site.closing, h);
  }

  lemma FewerClosing(m: map<nat, nat>, h: nat)
    ensures |m - {h}| == |m| - if h in m then 1 else 0
  {
    assert (m - {h}).Keys == m.Keys - {h};
  }

  lemma MoreClosing(m: map<nat, nat>, h: nat, hop: nat)
    requires h !in m
    ensures |m[h := hop]| == |m| + 1
  {
    assert m[h := hop].Keys == m.Keys + {h};
  }

  /** After a send the weight of the warning is free; a short send leaves the weight of the close. */
  lemma LetGoWork(rows: seq<Row>, n: nat, site: Site, h: nat, hop: nat, x: Sending)
    requires Proper(rows) && n < |rows| && SiteOk(rows, n, site) && h < |site.hands| && site.hands[h].Some?
    requires Q.Enabled(site.queue, Q.CallDequeue(h))
    ensures SiteWork(rows, n, LetGo(site, h, hop, x))
         == SiteWork(rows, n, site) - Left(rows, n, 2)(site.hands[h].value) + if x.Partial? then 3 else 1
  {
    if x.Partial? {
      SumItemsUpdate(site.hands, h, None, Left(rows, n, 2));
      MoreClosing(site.closing, h, hop);
    } else {
      ReleasedWork(rows, n, site, h);
    }
  }

  lemma CountShrinks(rows: seq<Row>, s: System, n: nat, h: nat)
    requires Inv(rows, s) && n < |rows| && h < |s.sites[n].hands| && s.sites[n].hands[h].Some?
    requires Q.Enabled(s.sites[n].queue, Q.CallDequeue(h))
    ensures Work(rows, CountOne(s, n, h).sites) < Work(rows, s.sites)
  {
    var site := s.sites[n];
    assert SiteOk(rows, n, site);
    OnRouteLeft(rows, n, site.hands[h].value, 2);
    ReleasedWork(rows, n, site, h);
    WorkUpdate(rows, s.sites, n, CountOne(s, n, h).sites[n]);
  }

  lemma GoneWork(rows: seq<Row>, s: System, n: nat, h: nat, hop: nat, x: Sending)
    requires Inv(rows, s) && n < |rows| && h < |s.sites[n].hands| && s.sites[n].hands[h].Some?
    requires Q.Enabled(s.sites[n].queue, Q.CallDequeue(h))
    ensures Work(rows, Gone(s, n, h, hop, x).sites)
         == Work(rows, s.sites) - Left(rows, n, 2)(s.sites[n].hands[h].value) + if x.Partial? then 3 else 1
  {
    assert SiteOk(rows, n, s.sites[n]);
    LetGoWork(rows, n, s.sites[n], h, hop, x);
    WorkUpdate(rows, s.sites, n, LetGo(s.sites[n], h, hop, x));
  }

  /** One level down a warning weighs two less than in the hand above. */
  lemma HopWeighsLess(rows: seq<Row>, n: nat, w: Warning)
    requires Proper(rows) && n < |rows| && OnRoute(rows, n, w) && !IsDestination(rows, n)
    ensures var hop := Hop(ParentsOf(rows), n, Target(rows, w));
            hop < |rows| && Left(rows, hop, 4)(w) + 2 == Left(rows, n, 2)(w) && Left(rows, n, 2)(w) >= 6
  {
    HopStaysOnRoute(rows, n, w);
    OnRouteLeft(rows, n, w, 2);
    OnRouteLeft(rows, Hop(ParentsOf(rows), n, Target(rows, w)), w, 4);
  }

  lemma ForwardShrinks(rows: seq<Row>, s: System, n: nat, h: nat, x: Sending)
    requires Inv(rows, s) && Enabled(rows, s, Finish(n, h, x)) && !IsDestination(rows, n) && !Overlaps(rows, s, Finish(n, h, x))
    ensures |Forward(rows, s, n, h, x).sites| == |rows|
    ensures Work(rows, Forward(rows, s, n, h, x).sites) < Work(rows, s.sites)
  {
    var w, hop := s.sites[n].hands[h].value, HopOf(rows, s, n, h);
    assert SiteOk(rows, n, s.sites[n]);
    HopWeighsLess(rows, n, w);
    GoneOk(rows, s, n, h, x);
    GoneWork(rows, s, n, h, hop, x);
    GoneDoesNotOverlap(rows, s, n, h, x);
    DeliverWork(rows, Gone(s, n, h, hop, x), hop, w, x);
  }

  lemma FinishShrinks(rows: seq<Row>, s: System, n: nat, h: nat, x: Sending)
    requires Inv(rows, s) && Enabled(rows, s, Finish(n, h, x)) && !Overlaps(rows, s, Finish(n, h, x))
    requires Inv(rows, Next(rows, s, Finish(n, h, x)))
    ensures Measure(rows, Next(rows, s, Finish(n, h, x))) < Measure(rows, s)
  {
    if IsDestination(rows, n) {
      CountShrinks(rows, s, n, h);
    } else {
      ForwardShrinks(rows, s, n, h, x);
      ForwardOk(rows, s, n, h, x);
    }
  }

  /** Closing a connection costs more than what it leaves: an awake thread and a closed connection. */
  lemma BackWork(rows: seq<Row>, s: System, n: nat, h: nat)
    requires Inv(rows, s) && Enabled(rows, s, Disconnect(n, h))
    ensures |Back(s, n, h).sites| == |rows| && Work(rows, Back(s, n, h).sites) == Work(rows, s.sites) - 2
  {
    var site := s.sites[n];
    assert SiteOk(rows, n, site);
    ReleasedWork(rows, n, site, h);
    WorkUpdate(rows, s.sites, n, Released(site, h));
  }

  lemma DisconnectWork(rows: seq<Row>, s: System, n: nat, h: nat)
    requires Inv(rows, s) && Enabled(rows, s, Disconnect(n, h))
    ensures var s' := Disconnected(rows, Back(s, n, h), n, s.sites[n].closing[h]);
            |s'.sites| == |rows| && Work(rows, s'.sites) < Work(rows, s.sites) && s' == s.(sites := s'.sites)
  {
    BackOk(rows, s, n, h, One());
    BackWork(rows, s, n, h);
    DisconnectedWork(rows, Back(s, n, h), s.sites[n].closing[h]);
  }

  lemma DisconnectShrinks(rows: seq<Row>, s: System, n: nat, h: nat)
    requires Inv(rows, s) && Enabled(rows, s, Disconnect(n, h)) && Inv(rows, Next(rows, s, Disconnect(n, h)))
    ensures Measure(rows, Next(rows, s, Disconnect(n, h))) < Measure(rows, s)
  {
    DisconnectWork(rows, s, n, h);
  }

  // ---- Steps of the data source ----

  lemma FromSenderBound(rows: seq<Row>, w: Warning)
    requires Proper(rows)
    ensures FromSender(rows)(w) + 2 <= PerWarning(rows)
  {
  }

  lemma BudgetStep(warnings: nat, each: nat)
    requires warnings > 0
    ensures Budget(warnings, each) == each + Budget(warnings - 1, each)
  {
  }

  lemma GenerateShrinks(rows: seq<Row>, s: System, d: nat, kind: uint32, value: uint64, timestamp: uint64, wake: Option<nat>)
    requires Inv(rows, s) && Enabled(rows, s, Generate(d, kind, value, timestamp, wake))
    requires Inv(rows, Next(rows, s, Generate(d, kind, value, timestamp, wake)))
    ensures Measure(rows, Next(rows, s, Generate(d, kind, value, timestamp, wake))) < Measure(rows, s)
  {
    var w := NewWarning(rows, d, kind, value, timestamp);
    FromSenderBound(rows, w);
    PutServes(s.source, Inside(s.sender), PRODUCER, Some(w), wake);
    SumItemsAdd(s.source.items, Some(w), FromSender(rows));
    BudgetStep(NUMBER_OF_WARNINGS - |s.generated|, PerWarning(rows));
  }

  lemma EndGenerationShrinks(rows: seq<Row>, s: System, wake: Option<nat>)
    requires Inv(rows, s) && Enabled(rows, s, EndGeneration(wake)) && Inv(rows, Next(rows, s, EndGeneration(wake)))
    ensures Measure(rows, Next(rows, s, EndGeneration(wake))) < Measure(rows, s)
  {
    PutServes(s.source, Inside(s.sender), PRODUCER, None, wake);
    SumItemsAdd(s.source.items, None, FromSender(rows));
  }

  lemma SourceTakeShrinks(rows: seq<Row>, s: System)
    requires Inv(rows, s) && Enabled(rows, s, SourceTake) && Inv(rows, Next(rows, s, SourceTake))
    ensures Measure(rows, Next(rows, s, SourceTake)) < Measure(rows, s)
  {
    TakeServes(s.source, Inside(s.sender), SENDER);
    if s.source.items != [] {
      FetchedSum(s.source.items, FromSender(rows));
    }
  }

  lemma AfterSendWork(rows: seq<Row>, s: System, hop: nat, x: Sending)
    requires Inv(rows, s) && Enabled(rows, s, SourceSend(x))
    ensures var s' := AfterSend(s, hop, x);
            SourceWork(rows, |s'.generated|, s'.generating, s'.source, s'.sender)
              == SourceWork(rows, |s.generated|, s.generating, s.source, s.sender)
                 - FromSender(rows)(s.sender.w) + if x.Partial? then 3 else 1
  {
    SenderBackOk(rows, s);
  }

  lemma SourceSendShrinks(rows: seq<Row>, s: System, x: Sending)
    requires Inv(rows, s) && Enabled(rows, s, SourceSend(x)) && !Overlaps(rows, s, SourceSend(x))
    requires Inv(rows, Next(rows, s, SourceSend(x)))
    ensures Measure(rows, Next(rows, s, SourceSend(x))) < Measure(rows, s)
  {
    var w, root := s.sender.w, RootOf(rows, s);
    RootOnRoute(rows, w);
    AfterSendOk(rows, s, x);
    AfterSendWork(rows, s, root, x);
    OnRouteLeft(rows, root, w, 4);
    DeliverOk(rows, AfterSend(s, root, x), |rows|, root, w, x);
    DeliverWork(rows, AfterSend(s, root, x), root, w, x);
  }

  lemma SourceDisconnectShrinks(rows: seq<Row>, s: System)
    requires Inv(rows, s) && Enabled(rows, s, SourceDisconnect) && Inv(rows, Next(rows, s, SourceDisconnect))
    ensures Measure(rows, Next(rows, s, SourceDisconnect)) < Measure(rows, s)
  {
    SenderBackOk(rows, s);
    DisconnectedOk(rows, SenderBack(s), s.sender.hop, One());
    DisconnectedWork(rows, SenderBack(s), s.sender.hop);
  }

  // ---- Every step, every run ----

  lemma LocalShrinks(rows: seq<Row>, s: System, step: Step)
    requires Inv(rows, s) && Enabled(rows, s, step) && IsLocal(step) && Inv(rows, Next(rows, s, step))
    ensures 1 + Measure(rows, Next(rows, s, step)) <= Measure(rows, s) + Extra(step)
  {
    var site := s.sites[step.n];
    assert SiteOk(rows, step.n, site);
    LocalSiteShrinks(rows, step.n, site, step);
    WorkUpdate(rows, s.sites, step.n, LocalNext(site, step));
  }

  lemma WokenSourceWork(rows: seq<Row>, generated: nat, generating: bool, source: Q.State<Warning>, sender: Sender)
    requires Proper(rows) && generated <= NUMBER_OF_WARNINGS
    requires Serving(source, Inside(sender)) && Q.Enabled(source, Q.SpuriousConsumer(SENDER))
    ensures SourceWork(rows, generated, generating, Q.Next(source, Q.SpuriousConsumer(SENDER)), sender)
         == SourceWork(rows, generated, generating, source, sender) + 1
  {
    SpuriousServes(source, Inside(sender), SENDER);
  }

  lemma SourceSpuriousWork(rows: seq<Row>, s: System)
    requires Inv(rows, s) && Enabled(rows, s, SourceSpurious) && Inv(rows, Next(rows, s, SourceSpurious))
    ensures Measure(rows, Next(rows, s, SourceSpurious)) == Measure(rows, s) + 1
  {
    WokenSourceWork(rows, |s.generated|, s.generating, s.source, s.sender);
  }

  lemma StepShrinks(rows: seq<Row>, s: System, step: Step)
    requires Inv(rows, s) && Enabled(rows, s, step) && !Overlaps(rows, s, step)
    ensures Inv(rows, Next(rows, s, step)) && 1 + Measure(rows, Next(rows, s, step)) <= Measure(rows, s) + Extra(step)
  {
    StepKeepsInv(rows, s, step);
    match step
    case Generate(d, kind, value, timestamp, wake) => GenerateShrinks(rows, s, d, kind, value, timestamp, wake);
    case EndGeneration(wake) => EndGenerationShrinks(rows, s, wake);
    case SourceTake => SourceTakeShrinks(rows, s);
    case SourceSend(x) => SourceSendShrinks(rows, s, x);
    case SourceDisconnect => SourceDisconnectShrinks(rows, s);
    case SourceSpurious => SourceSpuriousWork(rows, s);
    case Finish(n, h, x) => FinishShrinks(rows, s, n, h, x);
    case Disconnect(n, h) => DisconnectShrinks(rows, s, n, h);
    case _ => LocalShrinks(rows, s, step);
  }

  /** No clean run is longer than its measure and its spurious wakes allow. */
  lemma {:induction false} RunsAreFinite(rows: seq<Row>, s: System, steps: seq<Step>)
    requires Inv(rows, s) && Runs(rows, s, steps) && Clean(rows, s, steps)
    ensures Inv(rows, After(rows, s, steps))
    ensures |steps| + Measure(rows, After(rows, s, steps)) <= Measure(rows, s) + Extras(steps)
    decreases |steps|
  {
    if steps != [] {
      StepShrinks(rows, s, steps[0]);
      RunsAreFinite(rows, Next(rows, s, steps[0]), steps[1..]);
    }
  }

  lemma {:induction false} BudgetIsProduct(n: nat, each: nat)
    ensures Budget(n, each) == n * each
  {
    if n != 0 {
      BudgetIsProduct(n - 1, each);
      assert n * each == (n - 1) * each + each;
    }
  }

  lemma {:induction false} SumNatBound(xs: seq<nat>, each: nat)
    requires forall i :: 0 <= i < |xs| ==> xs[i] <= each
    ensures SumNat(xs) <= |xs| * each
  {
    if xs != [] {
      SumNatBound(xs[1..], each);
      assert |xs| * each == |xs[1..]| * each + each;
    }
  }

  lemma StartedSiteWork(rows: seq<Row>, n: nat, threads: nat)
    requires Proper(rows) && n < |rows|
    ensures SiteWork(rows, n, StartedSite(threads)) == threads
  {
    SumItemsNone(StartedSite(threads).hands, Left(rows, n, 2));
  }

  lemma InitialWork(rows: seq<Row>, threads: nat)
    requires Proper(rows) && threads > 0
    ensures Work(rows, Init(rows, threads).sites) <= |rows| * threads
  {
    var sites := Init(rows, threads).sites;
    forall n: nat | n < |rows| ensures SiteWork(rows, n, sites[n]) <= threads {
      StartedSiteWork(rows, n, if IsDestination(rows, n) then 1 else threads);
    }
    SumNatBound(seq(|sites|, i requires 0 <= i < |sites| => SiteWork(rows, i, sites[i])), threads);
  }

  /** The most steps that a clean run without spurious wakes can have. */
  ghost function Bound(rows: seq<Row>, threads: nat): nat
    requires Proper(rows)
  {
    NUMBER_OF_WARNINGS * (4 * Deepest(Depths(ParentsOf(rows))) + 8) + |rows| * threads + 3
  }

  /** Termination: every clean run of the system, with or without failed sends, has at most so many
      steps besides its spurious wakes and the sections these cause; so it comes to rest. */
  lemma CleanRunsComeToRest(rows: seq<Row>, threads: nat, steps: seq<Step>)
    requires CleanRun(rows, threads, steps)
    ensures |steps| <= Bound(rows, threads) + Extras(steps)
  {
    InitOk(rows, threads, One());
    InitialWork(rows, threads);
    BudgetIsProduct(NUMBER_OF_WARNINGS, PerWarning(rows));
    RunsAreFinite(rows, Init(rows, threads), steps);
  }

  /** In particular every run without short sends, whatever else fails. */
  lemma RunsWithoutShortSendsRest(rows: seq<Row>, threads: nat, steps: seq<Step>)
    requires Proper(rows) && threads > 0 && Runs(rows, Init(rows, threads), steps) && NoShortSends(steps)
    ensures |steps| <= Bound(rows, threads) + Extras(steps)
  {
    StartsUncut(rows, threads, steps);
    CleanRunsComeToRest(rows, threads, steps);
  }

  /** From every state of a clean run the system can run on to rest, cleanly and without a failed send or
      a spurious wake. */
  lemma RestIsReachable(rows: seq<Row>, s: System) returns (steps: seq<Step>)
    requires Inv(rows, s) && Owned(rows, s)
    ensures Runs(rows, s, steps) && Clean(rows, s, steps) && NoFailures(steps) && Extras(steps) == 0
    ensures Quiescent(rows, After(rows, s, steps))
    decreases Measure(rows, s)
  {
    if Quiescent(rows, s) {
      steps := [];
    } else {
      var step := SmoothStep(rows, s);
      StepShrinks(rows, s, step);
      StepKeepsOwned(rows, s, step);
      var rest := RestIsReachable(rows, Next(rows, s, step));
      RunsFrom(rows, s, step, rest);
      SmoothFrom(step, rest);
      steps := [step] + rest;
    }
  }

  lemma SmoothFrom(step: Step, rest: seq<Step>)
    requires !IsSpurious(step) && NoFailures([step]) && NoFailures(rest) && Extras(rest) == 0
    ensures NoFailures([step] + rest) && Extras([step] + rest) == 0
  {
    assert ([step] + rest)[1..] == rest && [step][0] == step;
  }

  lemma SomeStep(rows: seq<Row>, s: System) returns (step: Step)
    requires !Quiescent(rows, s)
    ensures Enabled(rows, s, step) && !IsSpurious(step) && NoFailures([step])
  {
    var any :| Enabled(rows, s, any) && !IsSpurious(any);
    step := Succeeding(any);
  }

  /** A step that goes on cleanly: where a send would overlap, the close that it would overtake. */
  lemma SmoothStep(rows: seq<Row>, s: System) returns (step: Step)
    requires Inv(rows, s) && Owned(rows, s) && !Quiescent(rows, s)
    ensures Enabled(rows, s, step) && !IsSpurious(step) && NoFailures([step]) && !Overlaps(rows, s, step)
  {
    step := SomeStep(rows, s);
    if step.SourceSend? {
      SourceDoesNotOverlap(rows, s, step.x);
    } else if step.Finish? && Overlaps(rows, s, Finish(step.n, step.h, step.x)) {
      step := DueClose(rows, s, step.n, step.h, step.x);
    }
  }

  lemma DueClose(rows: seq<Row>, s: System, n: nat, h: nat, x: Sending) returns (step: Step)
    requires Inv(rows, s) && Owned(rows, s) && Enabled(rows, s, Finish(n, h, x)) && Overlaps(rows, s, Finish(n, h, x))
    ensures step.Disconnect? && Enabled(rows, s, step)
  {
    var hop, site := HopOf(rows, s, n, h), s.sites[n];
    GoneOk(rows, s, n, h, x);
    ListenerIsHop(rows, hop);
    assert OwnedAt(rows, s, hop) && SiteOk(rows, n, site);
    var g :| g in site.closing && site.closing[g] == hop;
    ReleasedQueueOk(rows, n, site, g);
    step := Disconnect(n, g);
  }

  lemma RunsFrom(rows: seq<Row>, s: System, step: Step, rest: seq<Step>)
    requires Proper(rows) && |s.sites| == |rows| && Enabled(rows, s, step) && Runs(rows, Next(rows, s, step), rest)
    ensures Runs(rows, s, [step] + rest) && After(rows, s, [step] + rest) == After(rows, Next(rows, s, step), rest)
    ensures Clean(rows, s, [step] + rest) <==> !Overlaps(rows, s, step) && Clean(rows, Next(rows, s, step), rest)
  {
    assert ([step] + rest)[1..] == rest;
  }

  /** The same step with its send, if it has one, successful. */
  function Succeeding(step: Step): Step {
    match step
    case SourceSend(_) => SourceSend(Complete)
    case Finish(n, h, _) => Finish(n, h, Complete)
    case _ => step
  }
}
