/** Who closes a cut connection: whenever a short send has cut a frame on an open connection, some thread
    of the sending process is about to close it. With one worker per pool that thread is the only one
    that could send on the connection, so every run is clean. */
module Overlap {
  import opened Basics
  import opened WireFormat
  import opened Topology
  import opened Streams
  import opened Mailbox
  import opened SystemModel
  import opened Accounting
  import opened Delivery
  import Q = TSQueue

  /** Some thread is about to close a connection to node n. */
  ghost predicate ClosesTo(closing: map<nat, nat>, n: nat) {
    exists h :: h in closing && closing[h] == n
  }

  /** Process `from` is about to close its connection to node n. */
  ghost predicate Due(rows: seq<Row>, s: System, from: nat, n: nat) {
    if from == |rows| then s.sender == Closing(n) else from < |s.sites| && ClosesTo(s.sites[from].closing, n)
  }

  ghost predicate OwnedAt(rows: seq<Row>, s: System, n: nat)
    requires n < |s.sites|
  {
    CutOpen(s.sites[n].inbox, Feeder(rows, n)) ==> Due(rows, s, Feeder(rows, n), n)
  }

  ghost predicate Owned(rows: seq<Row>, s: System) {
    forall n :: 0 <= n < |s.sites| ==> OwnedAt(rows, s, n)
  }

  // ---- Connections ----

  lemma {:induction false} SlotOfRead(inbox: Inbox, from: nat)
    requires Readable(inbox)
    ensures Slot(Read(inbox), from) == Slot(inbox, from)
  {
    assert Read(inbox)[1..] == inbox[1..];
  }

  lemma CutOfLocal(site: Site, from: nat, step: Step)
    requires IsLocal(step) && LocalEnabled(site, step)
    ensures CutOpen(LocalNext(site, step).inbox, from) == CutOpen(site.inbox, from)
    ensures LocalNext(site, step).closing == site.closing
  {
    match step
    case Receive(_, _) => SlotOfRead(site.inbox, from);
    case Hangup(_) =>
    case _ =>
  }

  lemma CutOfSent(inbox: Inbox, from: nat, w: Warning, x: Sending)
    requires InboxOk(inbox, from) && Possible(w, x)
    ensures CutOpen(Sent(inbox, from, w, x), from) == (CutOpen(inbox, from) || (x.Partial? && x.n > 0))
  {
    var i, inbox' := Slot(inbox, from), Sent(inbox, from, w, x);
    if !x.Refused? {
      PastAndCurrent(inbox, from);
      assert inbox'[i].from == from && !inbox'[i].closed;
      assert Slot(inbox', from) == i;
    }
  }

  lemma CutOfShut(inbox: Inbox, from: nat)
    requires InboxOk(inbox, from)
    ensures !CutOpen(Shut(inbox, from), from)
  {
    PastAndCurrent(inbox, from);
    assert Slot(Shut(inbox, from), from) == |Shut(inbox, from)|;
  }

  // ---- Every step ----

  /** A close that is due stays due while its thread stays where it is. */
  lemma DueStays(rows: seq<Row>, s: System, s': System, from: nat, n: nat)
    requires Due(rows, s, from, n) && |s'.sites| == |s.sites|
    requires s.sender.Closing? ==> s'.sender == s.sender
    requires from < |s.sites| ==> ClosesTo(s.sites[from].closing, n) ==> ClosesTo(s'.sites[from].closing, n)
    ensures Due(rows, s', from, n)
  {
  }

  /** Only node n changes, and no close is forgotten. */
  lemma SiteOwned(rows: seq<Row>, s: System, n: nat, site: Site)
    requires Owned(rows, s) && n < |s.sites| && site.closing == s.sites[n].closing
    requires CutOpen(site.inbox, Feeder(rows, n)) ==> Due(rows, s, Feeder(rows, n), n)
    ensures Owned(rows, s.(sites := s.sites[n := site]))
  {
    var s' := s.(sites := s.sites[n := site]);
    forall m | 0 <= m < |s.sites| ensures OwnedAt(rows, s', m) {
      assert OwnedAt(rows, s, m);
      if CutOpen(s'.sites[m].inbox, Feeder(rows, m)) {
        DueStays(rows, s, s', Feeder(rows, m), m);
      }
    }
  }

  /** Nothing changes that a due close depends on. */
  lemma SameOwned(rows: seq<Row>, s: System, s': System)
    requires Owned(rows, s) && |s.sites| == |s'.sites|
    requires s.sender.Closing? ==> s'.sender == s.sender
    requires forall n :: 0 <= n < |s.sites| ==>
               s'.sites[n].inbox == s.sites[n].inbox && s'.sites[n].closing == s.sites[n].closing
    ensures Owned(rows, s')
  {
    forall m | 0 <= m < |s.sites| ensures OwnedAt(rows, s', m) {
      assert OwnedAt(rows, s, m);
      if CutOpen(s'.sites[m].inbox, Feeder(rows, m)) {
        DueStays(rows, s, s', Feeder(rows, m), m);
      }
    }
  }

  lemma DeliverOwned(rows: seq<Row>, s: System, hop: nat, w: Warning, x: Sending)
    requires Proper(rows) && SitesOk(rows, s.sites) && Owned(rows, s) && hop < |rows| && Possible(w, x)
    requires x.Partial? ==> Due(rows, s, Feeder(rows, hop), hop)
    ensures Owned(rows, Deliver(rows, s, Feeder(rows, hop), hop, w, x))
  {
    var from, site := Feeder(rows, hop), s.sites[hop];
    ListenerIsHop(rows, hop);
    assert SiteOk(rows, hop, site) && OwnedAt(rows, s, hop);
    CutOfSent(site.inbox, from, w, x);
    SiteOwned(rows, s, hop, site.(inbox := Sent(site.inbox, from, w, x)));
    SameOwned(rows, s.(sites := s.sites[hop := site.(inbox := Sent(site.inbox, from, w, x))]), Deliver(rows, s, from, hop, w, x));
  }

  /** A thread of node n begins to close a connection. */
  lemma ClosingOwned(rows: seq<Row>, s: System, n: nat, site: Site, h: nat, hop: nat)
    requires Owned(rows, s) && n < |s.sites| && n != |rows| && h !in s.sites[n].closing
    requires site.inbox == s.sites[n].inbox && site.closing == s.sites[n].closing[h := hop]
    ensures var s' := s.(sites := s.sites[n := site]); Owned(rows, s') && Due(rows, s', n, hop)
  {
    var s', was := s.(sites := s.sites[n := site]), s.sites[n].closing;
    assert site.closing[h] == hop;
    forall m | 0 <= m < |s.sites| ensures OwnedAt(rows, s', m) {
      assert OwnedAt(rows, s, m);
      if CutOpen(s'.sites[m].inbox, Feeder(rows, m)) {
        ClosesStill(was, h, hop, m);
        DueStays(rows, s, s', Feeder(rows, m), m);
      }
    }
  }

  lemma ClosesStill(closing: map<nat, nat>, h: nat, hop: nat, m: nat)
    requires h !in closing
    ensures ClosesTo(closing, m) ==> ClosesTo(closing[h := hop], m)
  {
    if g :| g in closing && closing[g] == m {
      assert g in closing[h := hop] && closing[h := hop][g] == m;
    }
  }

  lemma ForwardOwned(rows: seq<Row>, s: System, n: nat, h: nat, x: Sending)
    requires Inv(rows, s) && Owned(rows, s) && Enabled(rows, s, Finish(n, h, x)) && !IsDestination(rows, n)
    ensures Owned(rows, Forward(rows, s, n, h, x))
  {
    var hop := HopOf(rows, s, n, h);
    GoneOk(rows, s, n, h, x);
    GoneOwned(rows, s, n, h, hop, x);
    DeliverOwned(rows, Gone(s, n, h, hop, x), hop, s.sites[n].hands[h].value, x);
  }

  lemma GoneOwned(rows: seq<Row>, s: System, n: nat, h: nat, hop: nat, x: Sending)
    requires Inv(rows, s) && Owned(rows, s) && Enabled(rows, s, Finish(n, h, x))
    ensures Owned(rows, Gone(s, n, h, hop, x)) && (x.Partial? ==> Due(rows, Gone(s, n, h, hop, x), n, hop))
  {
    HolderIsNotClosing(rows, s, n, h);
    if x.Partial? {
      ClosingOwned(rows, s, n, LetGo(s.sites[n], h, hop, x), h, hop);
    } else {
      assert OwnedAt(rows, s, n);
      SiteOwned(rows, s, n, LetGo(s.sites[n], h, hop, x));
    }
  }

  lemma HolderIsNotClosing(rows: seq<Row>, s: System, n: nat, h: nat)
    requires Inv(rows, s) && n < |s.sites| && h < |s.sites[n].hands| && s.sites[n].hands[h].Some?
    ensures h !in s.sites[n].closing && s.sites[n].closing - {h} == s.sites[n].closing
  {
    assert SiteOk(rows, n, s.sites[n]);
  }

  lemma SourceSendOwned(rows: seq<Row>, s: System, x: Sending)
    requires Inv(rows, s) && Owned(rows, s) && Enabled(rows, s, SourceSend(x))
    ensures Owned(rows, SendFromSource(rows, s, x))
  {
    var root := RootOf(rows, s);
    AfterSendOk(rows, s, x);
    SameOwned(rows, s, AfterSend(s, root, x));
    DeliverOwned(rows, AfterSend(s, root, x), root, s.sender.w, x);
  }

  /** After the close nothing is due on the connection; every other due close stays. */
  lemma DisconnectedOwned(rows: seq<Row>, s: System, hop: nat)
    requires Proper(rows) && SitesOk(rows, s.sites) && hop < |rows|
    requires forall n :: 0 <= n < |s.sites| && n != hop ==> OwnedAt(rows, s, n)
    ensures Owned(rows, Disconnected(rows, s, Feeder(rows, hop), hop))
  {
    var from, site := Feeder(rows, hop), s.sites[hop];
    var s' := Disconnected(rows, s, from, hop);
    ListenerIsHop(rows, hop);
    assert SiteOk(rows, hop, site);
    CutOfShut(site.inbox, from);
    forall m | 0 <= m < |s.sites| ensures OwnedAt(rows, s', m) {
      if m != hop {
        assert OwnedAt(rows, s, m);
        if CutOpen(s'.sites[m].inbox, Feeder(rows, m)) {
          DueStays(rows, s, s', Feeder(rows, m), m);
        }
      }
    }
  }

  lemma ClosesOthers(closing: map<nat, nat>, h: nat, m: nat)
    requires h in closing && closing[h] != m
    ensures ClosesTo(closing, m) ==> ClosesTo(closing - {h}, m)
  {
    if g :| g in closing && closing[g] == m {
      assert g in closing - {h} && (closing - {h})[g] == m;
    }
  }

  lemma DisconnectOwned(rows: seq<Row>, s: System, n: nat, h: nat)
    requires Inv(rows, s) && Owned(rows, s) && Enabled(rows, s, Disconnect(n, h))
    ensures Owned(rows, Next(rows, s, Disconnect(n, h)))
  {
    var hop, s' := s.sites[n].closing[h], Back(s, n, h);
    BackOk(rows, s, n, h, One());
    forall m | 0 <= m < |s'.sites| && m != hop ensures OwnedAt(rows, s', m) {
      assert OwnedAt(rows, s, m);
      if CutOpen(s'.sites[m].inbox, Feeder(rows, m)) {
        ClosesOthers(s.sites[n].closing, h, m);
        DueStays(rows, s, s', Feeder(rows, m), m);
      }
    }
    DisconnectedOwned(rows, s', hop);
  }

  lemma SourceDisconnectOwned(rows: seq<Row>, s: System)
    requires Inv(rows, s) && Owned(rows, s) && Enabled(rows, s, SourceDisconnect)
    ensures Owned(rows, Next(rows, s, SourceDisconnect))
  {
    var s' := SenderBack(s);
    SenderBackOk(rows, s);
    forall m | 0 <= m < |s'.sites| && m != s.sender.hop ensures OwnedAt(rows, s', m) {
      assert OwnedAt(rows, s, m);
    }
    DisconnectedOwned(rows, s', s.sender.hop);
  }

  lemma LocalOwned(rows: seq<Row>, s: System, step: Step)
    requires Inv(rows, s) && Owned(rows, s) && Enabled(rows, s, step) && IsLocal(step)
    ensures Owned(rows, Next(rows, s, step))
  {
    var n := step.n;
    var site := s.sites[n];
    assert OwnedAt(rows, s, n);
    CutOfLocal(site, Feeder(rows, n), step);
    SiteOwned(rows, s, n, LocalNext(site, step));
  }

  lemma CountOwned(rows: seq<Row>, s: System, n: nat, h: nat)
    requires Inv(rows, s) && Owned(rows, s) && Enabled(rows, s, Finish(n, h, Complete)) && IsDestination(rows, n)
    ensures Owned(rows, CountOne(s, n, h))
  {
    HolderIsNotClosing(rows, s, n, h);
    assert OwnedAt(rows, s, n);
    SiteOwned(rows, s, n, CountOne(s, n, h).sites[n]);
  }

  lemma StepKeepsOwned(rows: seq<Row>, s: System, step: Step)
    requires Inv(rows, s) && Owned(rows, s) && Enabled(rows, s, step)
    ensures Owned(rows, Next(rows, s, step))
  {
    match step
    case Finish(n, h, x) => if IsDestination(rows, n) { CountOwned(rows, s, n, h); } else { ForwardOwned(rows, s, n, h, x); }
    case SourceSend(x) => SourceSendOwned(rows, s, x);
    case SourceDisconnect => SourceDisconnectOwned(rows, s);
    case Disconnect(n, h) => DisconnectOwned(rows, s, n, h);
    case Generate(_, _, _, _, _) => SameOwned(rows, s, Next(rows, s, step));
    case EndGeneration(_) => SameOwned(rows, s, Next(rows, s, step));
    case SourceTake => SameOwned(rows, s, Next(rows, s, step));
    case SourceSpurious => SameOwned(rows, s, Next(rows, s, step));
    case _ => LocalOwned(rows, s, step);
  }

  lemma InitOwned(rows: seq<Row>, threads: nat)
    ensures Owned(rows, Init(rows, threads))
  {
    var s := Init(rows, threads);
    forall n | 0 <= n < |s.sites| ensures OwnedAt(rows, s, n) {
      assert s.sites[n].inbox == [];
    }
  }

  /** The data source has one sender, which is not sending while it closes. */
  lemma SourceDoesNotOverlap(rows: seq<Row>, s: System, x: Sending)
    requires Inv(rows, s) && Owned(rows, s) && Enabled(rows, s, SourceSend(x))
    ensures !Overlaps(rows, s, SourceSend(x))
  {
    AfterSendOk(rows, s, x);
    ListenerIsHop(rows, RootOf(rows, s));
    assert OwnedAt(rows, s, RootOf(rows, s));
  }

  // ---- One worker per pool ----

  /** Every node has one thread. */
  predicate Solo(s: System) {
    forall n :: 0 <= n < |s.sites| ==> |s.sites[n].hands| == 1
  }

  lemma SoloUpdate(s: System, n: nat, site: Site)
    requires Solo(s) && n < |s.sites| && |site.hands| == 1
    ensures Solo(s.(sites := s.sites[n := site]))
  {
  }

  lemma DeliverSolo(rows: seq<Row>, s: System, from: nat, hop: nat, w: Warning, x: Sending)
    requires Solo(s) && hop < |rows| && Possible(w, x)
    ensures Solo(Deliver(rows, s, from, hop, w, x))
  {
    var n := ListenerAt(rows, hop);
    if n < |s.sites| {
      SoloUpdate(s, n, s.sites[n].(inbox := Sent(s.sites[n].inbox, from, w, x)));
    }
  }

  lemma DisconnectedSolo(rows: seq<Row>, s: System, from: nat, hop: nat)
    requires Solo(s)
    ensures Solo(Disconnected(rows, s, from, hop))
  {
    if hop < |rows| && ListenerAt(rows, hop) < |s.sites| {
      var n := ListenerAt(rows, hop);
      SoloUpdate(s, n, s.sites[n].(inbox := Shut(s.sites[n].inbox, from)));
    }
  }

  lemma FinishSolo(rows: seq<Row>, s: System, n: nat, h: nat, x: Sending)
    requires Inv(rows, s) && Enabled(rows, s, Finish(n, h, x)) && Solo(s)
    ensures Solo(Next(rows, s, Finish(n, h, x)))
  {
    if IsDestination(rows, n) {
      SoloUpdate(s, n, CountOne(s, n, h).sites[n]);
    } else {
      var hop := HopOf(rows, s, n, h);
      GoneOk(rows, s, n, h, x);
      SoloUpdate(s, n, LetGo(s.sites[n], h, hop, x));
      DeliverSolo(rows, Gone(s, n, h, hop, x), n, hop, s.sites[n].hands[h].value, x);
    }
  }

  lemma SourceSendSolo(rows: seq<Row>, s: System, x: Sending)
    requires Inv(rows, s) && Enabled(rows, s, SourceSend(x)) && Solo(s)
    ensures Solo(SendFromSource(rows, s, x))
  {
    AfterSendOk(rows, s, x);
    DeliverSolo(rows, AfterSend(s, RootOf(rows, s), x), |rows|, RootOf(rows, s), s.sender.w, x);
  }

  lemma DisconnectSolo(rows: seq<Row>, s: System, n: nat, h: nat)
    requires Inv(rows, s) && Enabled(rows, s, Disconnect(n, h)) && Solo(s)
    ensures Solo(Next(rows, s, Disconnect(n, h)))
  {
    SoloUpdate(s, n, Released(s.sites[n], h));
    DisconnectedSolo(rows, Back(s, n, h), n, s.sites[n].closing[h]);
  }

  /** The number of threads of a node never changes. */
  lemma StepKeepsSolo(rows: seq<Row>, s: System, step: Step)
    requires Inv(rows, s) && Enabled(rows, s, step) && Solo(s)
    ensures Solo(Next(rows, s, step))
  {
    match step
    case Finish(n, h, x) => FinishSolo(rows, s, n, h, x);
    case Disconnect(n, h) => DisconnectSolo(rows, s, n, h);
    case SourceSend(x) => SourceSendSolo(rows, s, x);
    case SourceDisconnect => DisconnectedSolo(rows, SenderBack(s), |rows|, s.sender.hop);
    case Generate(_, _, _, _, _) =>
    case EndGeneration(_) =>
    case SourceTake =>
    case SourceSpurious =>
    case _ => SoloUpdate(s, step.n, LocalNext(s.sites[step.n], step));
  }

  lemma SoloForward(rows: seq<Row>, s: System, n: nat, h: nat, x: Sending)
    requires Inv(rows, s) && Owned(rows, s) && Solo(s) && Enabled(rows, s, Finish(n, h, x)) && !IsDestination(rows, n)
    ensures !CutOpen(s.sites[HopOf(rows, s, n, h)].inbox, n)
  {
    var hop := HopOf(rows, s, n, h);
    GoneOk(rows, s, n, h, x);
    assert SiteOk(rows, n, s.sites[n]) && OwnedAt(rows, s, hop);
    AloneCloses(rows, n, s.sites[n], h);
  }

  /** A single thread that holds a warning closes nothing. */
  lemma AloneCloses(rows: seq<Row>, n: nat, site: Site, h: nat)
    requires Proper(rows) && ThreadsOk(rows, n, site.hands, site.closing)
    requires |site.hands| == 1 && h < |site.hands| && site.hands[h].Some?
    ensures site.closing == map[]
  {
    assert forall g :: g in site.closing ==> g == h;
  }

  lemma SoloDoesNotOverlap(rows: seq<Row>, s: System, step: Step)
    requires Inv(rows, s) && Owned(rows, s) && Solo(s) && Enabled(rows, s, step)
    ensures !Overlaps(rows, s, step)
  {
    match step
    case SourceSend(x) => SourceDoesNotOverlap(rows, s, x);
    case Finish(n, h, x) =>
      if !IsDestination(rows, n) {
        GoneOk(rows, s, n, h, x);
        SoloForward(rows, s, n, h, x);
        ListenerIsHop(rows, HopOf(rows, s, n, h));
      }
    case _ =>
  }

  lemma {:induction false} SoloRunIsClean(rows: seq<Row>, s: System, steps: seq<Step>)
    requires Inv(rows, s) && Owned(rows, s) && Solo(s) && Runs(rows, s, steps)
    ensures Clean(rows, s, steps)
    decreases |steps|
  {
    if steps != [] {
      SoloDoesNotOverlap(rows, s, steps[0]);
      StepKeepsInv(rows, s, steps[0]);
      StepKeepsOwned(rows, s, steps[0]);
      StepKeepsSolo(rows, s, steps[0]);
      SoloRunIsClean(rows, Next(rows, s, steps[0]), steps[1..]);
    }
  }

  /** With one worker per pool every run is clean, short sends included. */
  lemma SoloIsClean(rows: seq<Row>, steps: seq<Step>)
    requires Proper(rows) && Runs(rows, Init(rows, 1), steps)
    ensures CleanRun(rows, 1, steps)
  {
    InitOk(rows, 1, One());
    InitOwned(rows, 1);
    SoloRunIsClean(rows, Init(rows, 1), steps);
  }
}
