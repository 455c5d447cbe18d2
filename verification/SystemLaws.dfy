/** What each step of the system needs and does, told by the fields of the state: when a thread, the
    generator or a listener can go on, and what has changed afterwards, and nothing else. */
module SystemLaws {
  import opened Basics
  import opened WireFormat
  import opened Topology
  import opened Streams
  import opened Mailbox
  import opened SystemModel
  import opened Accounting
  import opened Delivery
  import Q = TSQueue

  // ---- The configuration ----

  lemma ShortIdsLaw(rows: seq<Row>)
    ensures ShortIds(rows) <==> forall i :: 0 <= i < |rows| ==> |rows[i].id| < 512 && 0 !in rows[i].id
  {
  }

  lemma ProperLaw(rows: seq<Row>)
    ensures Proper(rows) <==>
              && (forall i, j :: 0 <= i < j < |rows| ==>
                    rows[i].id != rows[j].id && (rows[i].address != rows[j].address || rows[i].port != rows[j].port))
              && (forall i :: 0 <= i < |rows| ==> |rows[i].id| < 512 && 0 !in rows[i].id)
              && NoCycle(ParentsOf(rows))
  {
    AcyclicIffNoCycle(ParentsOf(rows));
    ShortIdsLaw(rows);
  }

  /** A process is a destination if it names a parent that is there and no row names it. */
  lemma DestinationLaw(rows: seq<Row>, d: nat)
    requires UniqueIds(rows)
    ensures IsDestination(rows, d) <==>
              && d < |rows| && (exists j :: 0 <= j < |rows| && Names(rows, d, j))
              && forall k :: 0 <= k < |rows| ==> !Names(rows, k, d)
  {
    if d < |rows| {
      TypeByRows(rows, d);
    }
  }

  lemma SendableLaw(w: Warning)
    ensures Sendable(w) <==> 0 !in w.city && 0 !in w.dest && 28 + |w.city| + |w.dest| < 0x8000_0000
  {
  }

  // ---- Generation ----

  /** The generator can go on: for every destination and every kind, value and time there is a next
      step that generates this warning, as long as fewer than 10000 have been. */
  lemma CanGenerate(rows: seq<Row>, s: System, d: nat, kind: uint32, value: uint64, timestamp: uint64) returns (wake: Option<nat>)
    requires Inv(rows, s) && s.generating && |s.generated| < 10000 && IsDestination(rows, d)
    ensures Enabled(rows, s, Generate(d, kind, value, timestamp, wake))
  {
    wake := SomePut(s.source, Inside(s.sender), PRODUCER, Some(NewWarning(rows, d, kind, value, timestamp)));
  }

  /** The new warning carries the destination's id twice, the kind, the value and the time, and becomes
      the last item of the data source's queue. */
  lemma GenerateLaw(rows: seq<Row>, s: System, d: nat, kind: uint32, value: uint64, timestamp: uint64, wake: Option<nat>)
    requires Inv(rows, s) && Enabled(rows, s, Generate(d, kind, value, timestamp, wake))
    ensures s.generating && |s.generated| < 10000 && d < |rows|
    ensures var s' := Next(rows, s, Generate(d, kind, value, timestamp, wake));
            && |s'.generated| == |s.generated| + 1 && s'.generated[..|s.generated|] == s.generated
            && s' == s.(generated := s'.generated, source := s'.source)
    ensures var s' := Next(rows, s, Generate(d, kind, value, timestamp, wake)); var g := s'.generated[|s.generated|];
            && g.city == rows[d].id && g.dest == rows[d].id
            && g.kind == kind && g.value == value && g.timestamp == timestamp
            && s'.source.items == s.source.items + [Some(g)]
  {
    PutServes(s.source, Inside(s.sender), PRODUCER, Some(NewWarning(rows, d, kind, value, timestamp)), wake);
  }

  /** The generator ends after 10000 warnings, with the sentinel, or at once without destinations. */
  lemma EndGenerationLaw(rows: seq<Row>, s: System) returns (wake: Option<nat>)
    requires Inv(rows, s)
    ensures Enabled(rows, s, EndGeneration(wake)) <==>
              s.generating && (|s.generated| == 10000 || forall d: nat :: !IsDestination(rows, d))
    ensures forall w :: Enabled(rows, s, EndGeneration(w)) ==>
              var s' := Next(rows, s, EndGeneration(w));
              && s' == s.(generating := false, source := s'.source)
              && s'.source.items == if HasDestination(rows) then s.source.items + [None] else []
  {
    wake := SomePut(s.source, Inside(s.sender), PRODUCER, None);
    forall w | Enabled(rows, s, EndGeneration(w))
      ensures Put(s.source, PRODUCER, None, w).items == s.source.items + [None]
    {
      PutServes(s.source, Inside(s.sender), PRODUCER, None, w);
    }
  }

  // ---- The sender ----

  lemma SourceTakeLaw(rows: seq<Row>, s: System)
    requires Inv(rows, s)
    ensures Enabled(rows, s, SourceTake) <==> s.sender.Ready? && SENDER in s.source.consAwake
    ensures Enabled(rows, s, SourceTake) ==>
              var s' := Next(rows, s, SourceTake); var items := s.source.items;
              && s' == s.(source := s'.source, sender := s'.sender)
              && s'.source.items == (if items == [] then [] else items[1..])
              && (s'.sender.Ready? <==> items == [])
              && (s'.sender.Stopped? <==> items != [] && items[0] == None)
              && (items != [] && items[0] != None ==> s'.sender == Holding(items[0].value))
  {
    if Enabled(rows, s, SourceTake) {
      TakeServes(s.source, {SENDER}, SENDER);
    }
  }

  /** The sender's send can go any way: complete, cut anywhere, or refused. */
  lemma CanSendFromSource(rows: seq<Row>, s: System, x: Sending)
    requires Inv(rows, s)
    ensures Enabled(rows, s, SourceSend(x)) <==>
              s.sender.Holding? && (x.Partial? ==> x.n < 28 + |s.sender.w.city| + |s.sender.w.dest|)
  {
    if s.sender.Holding? {
      SenderBackOk(rows, s);
    }
  }

  /** What a send does, told by what is on its way to the node `hop`: a complete one adds the warning
      there, any other adds nothing and loses the warning. */
  ghost predicate SentTo(s: System, s': System, hop: nat, w: Warning, x: Sending)
    requires hop < |s.sites| == |s'.sites|
  {
    && Arriving(s'.sites[hop].inbox) == Arriving(s.sites[hop].inbox) + (if x.Complete? then [w] else [])
    && s'.lost == s.lost + if x.Complete? then [] else [w]
  }

  /** Nothing but the inbox of the node `hop` has changed there, and nothing at all elsewhere. */
  predicate OnlyInbox(sites: seq<Site>, sites': seq<Site>, hop: nat) {
    && |sites'| == |sites| && (forall m :: 0 <= m < |sites| && m != hop ==> sites'[m] == sites[m])
    && (hop < |sites| ==> sites'[hop] == sites[hop].(inbox := sites'[hop].inbox))
  }

  lemma DeliverLaw(rows: seq<Row>, s: System, from: nat, hop: nat, w: Warning, x: Sending)
    requires Proper(rows) && SitesOk(rows, s.sites) && hop < |rows| && Possible(w, x)
    requires from == Feeder(rows, hop) && !WouldOverlap(rows, s, from, hop, x)
    ensures var s' := Deliver(rows, s, from, hop, w, x);
            && OnlyInbox(s.sites, s'.sites, hop) && SentTo(s, s', hop, w, x)
            && s' == s.(sites := s'.sites, lost := s'.lost)
  {
    ListenerIsHop(rows, hop);
    assert SiteOk(rows, hop, s.sites[hop]);
    SentArrives(s.sites[hop].inbox, from, w, x);
  }

  /** The sender sends to the root above the destination of the warning, and is then back in its
      dequeue, or about to close the connection if the send was short. */
  lemma SourceSendLaw(rows: seq<Row>, s: System, x: Sending)
    requires Inv(rows, s) && Enabled(rows, s, SourceSend(x)) && !Overlaps(rows, s, SourceSend(x))
    ensures var s' := Next(rows, s, SourceSend(x)); var root := RootOf(rows, s);
            && root < |s.sites| && OnlyInbox(s.sites, s'.sites, root) && SentTo(s, s', root, s.sender.w, x)
            && s'.sender == (if x.Partial? then Closing(root) else Ready)
            && s'.source.items == s.source.items && s'.generated == s.generated && s'.generating == s.generating
  {
    var root := RootOf(rows, s);
    AfterSendOk(rows, s, x);
    DeliverLaw(rows, AfterSend(s, root, x), |rows|, root, s.sender.w, x);
  }

  // ---- Listeners ----

  lemma SomeReceive(rows: seq<Row>, n: nat, site: Site) returns (wake: Option<nat>)
    requires Proper(rows) && SiteOk(rows, n, site) && Readable(site.inbox)
    ensures LocalEnabled(site, Receive(n, wake))
  {
    wake := SomePut(site.queue, IdleOf(site), PRODUCER, Some(Decode(site.inbox[0].bytes).value));
  }

  lemma ReadableLaw(inbox: Inbox)
    ensures Readable(inbox) <==> inbox != [] && ReceiveAll(inbox[0].bytes) != []
  {
  }

  /** A listener can hand on as soon as a whole frame has arrived on the connection it reads. */
  lemma CanReceiveFrame(rows: seq<Row>, s: System, n: nat) returns (wake: Option<nat>)
    requires Inv(rows, s) && n < |rows|
    requires s.sites[n].inbox != [] && ReceiveAll(s.sites[n].inbox[0].bytes) != []
    ensures Enabled(rows, s, Receive(n, wake))
  {
    ReadableLaw(s.sites[n].inbox);
    assert SiteOk(rows, n, s.sites[n]);
    wake := SomeReceive(rows, n, s.sites[n]);
  }

  lemma ReceivedLaw(site: Site, from: nat, wake: Option<nat>)
    requires InboxOk(site.inbox, from) && Serving(site.queue, IdleOf(site)) && LocalEnabled(site, Receive(0, wake))
    ensures var site' := LocalNext(site, Receive(0, wake));
            && site.inbox != [] && ReceiveAll(site.inbox[0].bytes) != []
            && Arriving(site'.inbox) == Arriving(site.inbox)[1..]
            && site'.queue.items == site.queue.items + [Some(ReceiveAll(site.inbox[0].bytes)[0])]
            && site' == site.(inbox := site'.inbox, queue := site'.queue)
  {
    ReadArrives(site.inbox, from);
    PutServes(site.queue, IdleOf(site), PRODUCER, Some(Decode(site.inbox[0].bytes).value), wake);
  }

  /** It moves the first warning on that connection to the end of the queue. */
  lemma ReceiveLaw(rows: seq<Row>, s: System, n: nat, wake: Option<nat>)
    requires Inv(rows, s) && Enabled(rows, s, Receive(n, wake))
    ensures var s' := Next(rows, s, Receive(n, wake)); var site, site' := s.sites[n], s'.sites[n];
            && site.inbox != [] && ReceiveAll(site.inbox[0].bytes) != []
            && Arriving(site'.inbox) == Arriving(site.inbox)[1..]
            && site'.queue.items == site.queue.items + [Some(ReceiveAll(site.inbox[0].bytes)[0])]
            && site' == site.(inbox := site'.inbox, queue := site'.queue) && s' == s.(sites := s.sites[n := site'])
  {
    assert SiteOk(rows, n, s.sites[n]);
    ReceivedLaw(s.sites[n], Feeder(rows, n), wake);
  }

  /** It turns to the next connection exactly when the sender has closed this one and no whole frame is
      left on it. */
  lemma HangupLaw(rows: seq<Row>, s: System, n: nat)
    requires Inv(rows, s)
    ensures Enabled(rows, s, Hangup(n)) <==>
              n < |rows| && s.sites[n].inbox != [] && s.sites[n].inbox[0].closed && ReceiveAll(s.sites[n].inbox[0].bytes) == []
    ensures Enabled(rows, s, Hangup(n)) ==>
              Next(rows, s, Hangup(n)) == s.(sites := s.sites[n := s.sites[n].(inbox := s.sites[n].inbox[1..])])
  {
  }

  // ---- Threads of a node ----

  /** A thread of node n is inside its dequeue exactly when it holds no warning and no close is due. */
  lemma InsideLaw(rows: seq<Row>, s: System, n: nat, h: nat)
    requires Inv(rows, s) && n < |rows|
    ensures h in s.sites[n].queue.consAwake + s.sites[n].queue.consAsleep <==>
              h < |s.sites[n].hands| && s.sites[n].hands[h].None? && h !in s.sites[n].closing
  {
    assert SiteOk(rows, n, s.sites[n]);
    assert IdleOf(s.sites[n]) == s.sites[n].queue.consAwake + s.sites[n].queue.consAsleep;
  }

  lemma CanTakeIff(rows: seq<Row>, s: System, n: nat, h: nat)
    requires Inv(rows, s) && n < |rows|
    ensures Enabled(rows, s, Take(n, h)) <==> h in s.sites[n].queue.consAwake
  {
    InsideLaw(rows, s, n, h);
    assert SiteOk(rows, n, s.sites[n]);
  }

  /** The thread takes the first item of its queue, or falls asleep if there is none. */
  lemma TakeLaw(rows: seq<Row>, s: System, n: nat, h: nat)
    requires Inv(rows, s) && Enabled(rows, s, Take(n, h))
    ensures var s' := Next(rows, s, Take(n, h)); var site, site' := s.sites[n], s'.sites[n];
            && s' == s.(sites := s.sites[n := site']) && site' == site.(hands := site'.hands, queue := site'.queue)
            && if site.queue.items == [] then site'.hands == site.hands && site'.queue.items == [] && h in site'.queue.consAsleep
               else site'.hands == site.hands[h := site.queue.items[0]] && site'.queue.items == site.queue.items[1..]
  {
    assert SiteOk(rows, n, s.sites[n]);
    TakeServes(s.sites[n].queue, IdleOf(s.sites[n]), h);
  }

  /** A thread can wake for no reason exactly when it sleeps. */
  lemma SpuriousLaw(rows: seq<Row>, s: System, n: nat, h: nat)
    requires |s.sites| == |rows|
    ensures Enabled(rows, s, Spurious(n, h)) <==> n < |rows| && h in s.sites[n].queue.consAsleep
    ensures Enabled(rows, s, SourceSpurious) <==> SENDER in s.source.consAsleep
  {
  }

  /** A thread that holds a warning can go on whatever becomes of its send. */
  lemma CanFinish(rows: seq<Row>, s: System, n: nat, h: nat, x: Sending)
    requires Inv(rows, s)
    ensures Enabled(rows, s, Finish(n, h, x)) <==>
              && n < |rows| && h < |s.sites[n].hands| && s.sites[n].hands[h].Some?
              && var w := s.sites[n].hands[h].value; x.Partial? ==> x.n < 28 + |w.city| + |w.dest|
  {
    if n < |rows| && h < |s.sites[n].hands| && s.sites[n].hands[h].Some? {
      assert SiteOk(rows, n, s.sites[n]);
      ReleasedOk(rows, n, s.sites[n], h);
    }
  }

  /** The thread is back in its dequeue. */
  predicate Returned(site: Site, site': Site, h: nat) {
    && site'.queue.items == site.queue.items && site'.queue.consAwake == site.queue.consAwake + {h}
    && h < |site.hands| && site'.hands == site.hands[h := None] && site'.closing == site.closing - {h}
  }

  /** At a destination the warning in hand is counted. */
  lemma CountLaw(rows: seq<Row>, s: System, n: nat, h: nat, x: Sending)
    requires Inv(rows, s) && Enabled(rows, s, Finish(n, h, x)) && IsDestination(rows, n)
    ensures var s' := Next(rows, s, Finish(n, h, x)); var site, site' := s.sites[n], s'.sites[n];
            && s' == s.(sites := s.sites[n := site'])
            && site'.counted == site.counted + [site.hands[h].value]
            && site'.inbox == site.inbox && Returned(site, site', h)
  {
  }

  /** At a propagator the warning goes to the next node on its way down, and the thread is back in its
      dequeue, or about to close the connection if the send was short. */
  lemma ForwardLaw(rows: seq<Row>, s: System, n: nat, h: nat, x: Sending)
    requires Inv(rows, s) && Enabled(rows, s, Finish(n, h, x)) && !IsDestination(rows, n) && !Overlaps(rows, s, Finish(n, h, x))
    ensures var s' := Next(rows, s, Finish(n, h, x)); var hop := HopOf(rows, s, n, h); var site := s.sites[n];
            && hop < |s.sites| && hop != n && |s'.sites| == |s.sites|
            && SentTo(s, s', hop, site.hands[h].value, x) && OnlyInbox(s.sites[n := s'.sites[n]], s'.sites, hop)
            && s' == s.(sites := s'.sites, lost := s'.lost)
    ensures var s' := Next(rows, s, Finish(n, h, x)); var hop := HopOf(rows, s, n, h); var site, site' := s.sites[n], s'.sites[n];
            if x.Partial? then site' == site.(hands := site.hands[h := None], closing := site.closing[h := hop])
            else Returned(site, site', h) && site'.inbox == site.inbox && site'.counted == site.counted
  {
    var hop := HopOf(rows, s, n, h);
    GoneOk(rows, s, n, h, x);
    GoneDoesNotOverlap(rows, s, n, h, x);
    DeliverLaw(rows, Gone(s, n, h, hop, x), n, hop, s.sites[n].hands[h].value, x);
  }

  // ---- The close after a short send ----

  /** Process `from` has no connection open. */
  predicate NoneOpen(inbox: Inbox, from: nat) {
    forall i :: 0 <= i < |inbox| ==> inbox[i].from == from ==> inbox[i].closed
  }

  /** The close leaves the process without an open connection, and closes no other's. */
  lemma ShutLaw(inbox: Inbox, from: nat)
    requires InboxOk(inbox, from)
    ensures NoneOpen(Shut(inbox, from), from) && |Shut(inbox, from)| == |inbox|
    ensures forall i :: 0 <= i < |inbox| ==> Shut(inbox, from)[i] == inbox[i].(closed := true)
  {
  }

  lemma DisconnectedLaw(rows: seq<Row>, s: System, hop: nat)
    requires Proper(rows) && SitesOk(rows, s.sites) && hop < |rows|
    ensures var s' := Disconnected(rows, s, Feeder(rows, hop), hop);
            && OnlyInbox(s.sites, s'.sites, hop) && NoneOpen(s'.sites[hop].inbox, Feeder(rows, hop))
            && Arriving(s'.sites[hop].inbox) == Arriving(s.sites[hop].inbox) && s' == s.(sites := s'.sites)
  {
    ListenerIsHop(rows, hop);
    assert SiteOk(rows, hop, s.sites[hop]);
    ShutArrives(s.sites[hop].inbox, Feeder(rows, hop));
    ShutLaw(s.sites[hop].inbox, Feeder(rows, hop));
  }

  /** The close can follow exactly after a short send. */
  lemma CanDisconnect(rows: seq<Row>, s: System, n: nat, h: nat)
    requires Inv(rows, s) && n < |rows|
    ensures Enabled(rows, s, Disconnect(n, h)) <==> h in s.sites[n].closing
    ensures h in s.sites[n].closing ==> s.sites[n].closing[h] < |rows| && Feeder(rows, s.sites[n].closing[h]) == n
  {
    assert SiteOk(rows, n, s.sites[n]);
    if h in s.sites[n].closing {
      ReleasedOk(rows, n, s.sites[n], h);
    }
  }

  /** A process is not its own feeder. */
  lemma FeederIsOther(rows: seq<Row>, hop: nat)
    requires Proper(rows) && hop < |rows|
    ensures Feeder(rows, hop) != hop
  {
    assert DepthAt(ParentsOf(rows), Depths(ParentsOf(rows)), hop);
  }

  /** It ends the connection and brings the thread back to its dequeue, and no warning is touched. */
  lemma DisconnectLaw(rows: seq<Row>, s: System, n: nat, h: nat)
    requires Inv(rows, s) && Enabled(rows, s, Disconnect(n, h))
    ensures var s' := Next(rows, s, Disconnect(n, h)); var hop := s.sites[n].closing[h];
            && hop < |s.sites| && OnlyInbox(s.sites[n := s'.sites[n]], s'.sites, hop) && Returned(s.sites[n], s'.sites[n], h)
            && NoneOpen(s'.sites[hop].inbox, n) && Arriving(s'.sites[hop].inbox) == Arriving(s.sites[hop].inbox)
            && s' == s.(sites := s'.sites)
  {
    var hop := s.sites[n].closing[h];
    CanDisconnect(rows, s, n, h);
    BackOk(rows, s, n, h, One());
    DisconnectedLaw(rows, Back(s, n, h), hop);
    FeederIsOther(rows, hop);
  }

  lemma SourceDisconnectLaw(rows: seq<Row>, s: System)
    requires Inv(rows, s)
    ensures Enabled(rows, s, SourceDisconnect) <==> s.sender.Closing?
    ensures s.sender.Closing? ==>
              var s' := Next(rows, s, SourceDisconnect); var hop := s.sender.hop;
              && hop < |rows| && OnlyInbox(s.sites, s'.sites, hop) && NoneOpen(s'.sites[hop].inbox, |rows|)
              && Arriving(s'.sites[hop].inbox) == Arriving(s.sites[hop].inbox)
              && s'.sender.Ready? && s'.source.items == s.source.items && s'.lost == s.lost
  {
    if s.sender.Closing? {
      SenderBackOk(rows, s);
      DisconnectedLaw(rows, SenderBack(s), s.sender.hop);
    }
  }

  // ---- The overlap between a short send and its close ----

  /** All connections are the process's, and only the last may be open: InboxOk without the bytes. */
  predicate OnlyLastOpen(inbox: Inbox, from: nat) {
    && (forall i :: 0 <= i < |inbox| ==> inbox[i].from == from)
    && (forall i :: 0 <= i < |inbox| - 1 ==> inbox[i].closed)
  }

  lemma LastOpen(inbox: Inbox, from: nat)
    requires OnlyLastOpen(inbox, from)
    ensures Slot(inbox, from) == if inbox != [] && !inbox[|inbox| - 1].closed then |inbox| - 1 else |inbox|
  {
  }

  /** A send goes on the last connection if that is open, and on a new one otherwise; a short send of at
      least one byte marks it. */
  lemma SentLaw(inbox: Inbox, from: nat, w: Warning, x: Sending)
    requires OnlyLastOpen(inbox, from) && Possible(w, x) && !x.Refused?
    ensures var piece := if x.Complete? then Encode(w) else Encode(w)[..x.n];
            var marks := x.Partial? && x.n > 0; var last := |inbox| - 1;
            Sent(inbox, from, w, x) ==
              if inbox != [] && !inbox[last].closed
              then inbox[last := Connection(from, inbox[last].bytes + piece, inbox[last].cut || marks, false)]
              else inbox + [Connection(from, piece, marks, false)]
  {
    LastOpen(inbox, from);
    assert [] + Piece(w, x) == Piece(w, x);
  }

  /** A connection of the process is open and marked. */
  predicate MarkedOpen(inbox: Inbox, from: nat) {
    exists i :: 0 <= i < |inbox| && inbox[i].from == from && !inbox[i].closed && inbox[i].cut
  }

  lemma CutOpenLaw(inbox: Inbox, from: nat)
    requires InboxOk(inbox, from)
    ensures CutOpen(inbox, from) <==> MarkedOpen(inbox, from)
  {
    var i := Slot(inbox, from);
    if i < |inbox| {
      assert i == |inbox| - 1;
    }
  }

  /** A send overlaps exactly when it puts a byte on a connection that a short send has marked and
      nobody has closed. */
  lemma SourceOverlapLaw(rows: seq<Row>, s: System, x: Sending)
    requires Inv(rows, s) && Enabled(rows, s, SourceSend(x))
    ensures Overlaps(rows, s, SourceSend(x)) <==>
              && (x.Complete? || (x.Partial? && x.n > 0))
              && RootOf(rows, s) < |s.sites| && MarkedOpen(s.sites[RootOf(rows, s)].inbox, |rows|)
  {
    var root := RootOf(rows, s);
    AfterSendOk(rows, s, x);
    ListenerIsHop(rows, root);
    assert SiteOk(rows, root, s.sites[root]);
    CutOpenLaw(s.sites[root].inbox, |rows|);
  }

  lemma ForwardOverlapLaw(rows: seq<Row>, s: System, n: nat, h: nat, x: Sending)
    requires Inv(rows, s) && Enabled(rows, s, Finish(n, h, x))
    ensures Overlaps(rows, s, Finish(n, h, x)) <==>
              && !IsDestination(rows, n) && (x.Complete? || (x.Partial? && x.n > 0))
              && HopOf(rows, s, n, h) < |s.sites| && MarkedOpen(s.sites[HopOf(rows, s, n, h)].inbox, n)
  {
    if !IsDestination(rows, n) {
      var hop := HopOf(rows, s, n, h);
      GoneOk(rows, s, n, h, x);
      ListenerIsHop(rows, hop);
      assert SiteOk(rows, hop, s.sites[hop]);
      CutOpenLaw(s.sites[hop].inbox, n);
    }
  }

  // ---- Runs ----

  lemma SameSites(rows: seq<Row>, s: System, step: Step)
    requires Acyclic(ParentsOf(rows)) && |s.sites| == |rows| && Enabled(rows, s, step)
    ensures |Next(rows, s, step).sites| == |s.sites|
  {
  }

  /** Any step that is possible after a run extends it. */
  lemma {:induction false} RunGoesOn(rows: seq<Row>, s: System, steps: seq<Step>, step: Step)
    requires Acyclic(ParentsOf(rows)) && Runs(rows, s, steps) && Enabled(rows, After(rows, s, steps), step)
    ensures |After(rows, s, steps).sites| == |rows| && Runs(rows, s, steps + [step])
    ensures After(rows, s, steps + [step]) == Next(rows, After(rows, s, steps), step)
    ensures Clean(rows, s, steps + [step]) <==> Clean(rows, s, steps) && !Overlaps(rows, After(rows, s, steps), step)
    decreases |steps|
  {
    if steps == [] {
      SameSites(rows, s, step);
      assert [step][1..] == [];
    } else {
      assert (steps + [step])[1..] == steps[1..] + [step];
      RunGoesOn(rows, Next(rows, s, steps[0]), steps[1..], step);
    }
  }

  /** At the start every thread is awake in its first dequeue, and there is no warning anywhere. */
  lemma InitLaw(rows: seq<Row>, threads: nat)
    ensures var s := Init(rows, threads);
            && s.generated == [] && s.generating && s.sender.Ready? && s.lost == [] && |s.sites| == |rows|
            && s.source.items == [] && s.source.consAwake == {SENDER} && s.source.capacity == 0
    ensures forall n: nat, h: nat :: n < |rows| ==> var site := Init(rows, threads).sites[n];
              && site.inbox == [] && site.queue.items == [] && site.queue.capacity == 0
              && |site.hands| == (if IsDestination(rows, n) then 1 else threads)
              && (h < |site.hands| <==> h in site.queue.consAwake) && (h < |site.hands| ==> site.hands[h].None?)
              && site.closing == map[] && site.counted == []
  {
  }

  // ---- Delivery, warning by warning ----

  ghost function Only(w: Warning): Warning -> nat {
    x => if x == w then 1 else 0
  }

  lemma {:induction false} SumIsMultiplicity(ws: seq<Warning>, w: Warning)
    ensures Sum(ws, Only(w)) == multiset(ws)[w]
  {
    if ws != [] {
      assert ws == [ws[0]] + ws[1..];
      SumIsMultiplicity(ws[1..], w);
    }
  }

  lemma ForOnly(rows: seq<Row>, ws: seq<Warning>, d: nat, w: Warning)
    requires UniqueIds(rows) && d < |rows|
    ensures Sum(ws, For(rows, d, Only(w))) == if w.dest == rows[d].id then multiset(ws)[w] else 0
  {
    LastIndexUnique(rows, |rows|, d);
    SumIsMultiplicity(ws, w);
    if w.dest == rows[d].id {
      SumSame(ws, For(rows, d, Only(w)), Only(w));
    } else {
      SumZero(ws, For(rows, d, Only(w)));
    }
  }

  /** At rest after a clean run, each warning generated for node d has been counted there or lost, as
      often as it was generated, and nothing else has been counted there. */
  lemma MissingIsLostEach(rows: seq<Row>, threads: nat, steps: seq<Step>, d: nat, w: Warning)
    requires CleanRun(rows, threads, steps) && d < |rows| && Quiescent(rows, After(rows, Init(rows, threads), steps))
    ensures var s := After(rows, Init(rows, threads), steps);
            && |s.sites| == |rows|
            && multiset(s.sites[d].counted)[w] + (if w.dest == rows[d].id then multiset(s.lost)[w] else 0)
               == if w.dest == rows[d].id then multiset(s.generated)[w] else 0
  {
    MissingIsLost(rows, threads, steps, d, Only(w));
    var s := After(rows, Init(rows, threads), steps);
    SumIsMultiplicity(s.sites[d].counted, w);
    ForOnly(rows, s.lost, d, w);
    ForOnly(rows, s.generated, d, w);
  }

  /** When no send has failed, each destination has counted every warning for it exactly as often as it
      was generated, and nothing else. */
  lemma EveryWarningDeliveredEach(rows: seq<Row>, threads: nat, steps: seq<Step>, d: nat, w: Warning)
    requires Proper(rows) && threads > 0 && HasDestination(rows) && d < |rows|
    requires Runs(rows, Init(rows, threads), steps) && NoFailures(steps)
    requires Quiescent(rows, After(rows, Init(rows, threads), steps))
    ensures var s := After(rows, Init(rows, threads), steps);
            && |s.generated| == 10000 && |s.sites| == |rows|
            && multiset(s.sites[d].counted)[w] == if w.dest == rows[d].id then multiset(s.generated)[w] else 0
  {
    EveryWarningDelivered(rows, threads, steps, d, Only(w));
    NothingLost(rows, threads, steps);
    MissingIsLostEach(rows, threads, steps, d, w);
  }
}
