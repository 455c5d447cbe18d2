/** The connection pool: a cache of open sockets keyed by (address, port), changed under one lock,
    and the sender that uses it. Socket numbers count successful socket() calls, so every socket has
    its own number. */
module Connections {
  import opened Basics
  import opened WireFormat
  import opened Streams
  import opened CutFrames

  datatype Endpoint = Endpoint(address: seq<byte>, port: uint16)

  /** How far get_or_create_connection gets when it has to open a connection. */
  datatype Outcome = NoMemory | SocketFails | ConnectFails | StoreFails | Succeeds

  /** The state between lock sections; `live` is None while connections_map is NULL. */
  datatype State = State(live: Option<map<Endpoint, nat>>, created: nat, closed: set<nat>)

  function Init(): State {
    State(Some(map[]), 0, {})
  }

  function Stored(s: State): map<Endpoint, nat> {
    if s.live.Some? then s.live.value else map[]
  }

  function GetOrCreate(s: State, e: Endpoint, o: Outcome): (State, Option<nat>) {
    if s.live.None? || o.NoMemory? then (s, None)
    else if e in s.live.value then (s, Some(s.live.value[e]))
    else if o.SocketFails? then (s, None)
    else if o.Succeeds? then
      (s.(live := Some(s.live.value[e := s.created]), created := s.created + 1), Some(s.created))
    else
      (s.(created := s.created + 1, closed := s.closed + {s.created}), None)
  }

  function Close(s: State, e: Endpoint): State {
    if s.live.None? || e !in s.live.value then s
    else s.(live := Some(s.live.value - {e}), closed := s.closed + {s.live.value[e]})
  }

  function Cleanup(s: State): State {
    s.(live := None, closed := s.closed + Stored(s).Values)
  }

  datatype Step = StepGet(e: Endpoint, o: Outcome) | StepClose(e: Endpoint) | StepCleanup

  function Next(s: State, step: Step): State {
    match step
    case StepGet(e, o) => GetOrCreate(s, e, o).0
    case StepClose(e) => Close(s, e)
    case StepCleanup => Cleanup(s)
  }

  function After(s: State, steps: seq<Step>): State
    decreases |steps|
  {
    if steps == [] then s else After(Next(s, steps[0]), steps[1..])
  }

  /** Each stored socket has been opened, is still open, and is stored under one endpoint only; as many
      sockets have been opened as are stored or closed. */
  ghost predicate Inv(s: State) {
    var m := Stored(s);
    && (forall e :: e in m ==> m[e] < s.created && m[e] !in s.closed)
    && (forall e, f :: e in m && f in m && m[e] == m[f] ==> e == f)
    && (forall k :: k in s.closed ==> k < s.created)
    && |s.closed| + |m| == s.created
  }

  /** What a get does, by the map alone. It fails without a map or a temporary key; it answers with a
      stored socket and changes nothing; otherwise it opens a socket, if socket() succeeds, which is
      stored and returned, or closed again. */
  lemma GetLaw(s: State, e: Endpoint, o: Outcome)
    ensures var s', got := GetOrCreate(s, e, o).0, GetOrCreate(s, e, o).1;
            if s.live.None? || o.NoMemory? then s' == s && got == None
            else if e in s.live.value then s' == s && got == Some(s.live.value[e])
            else if o.SocketFails? then s' == s && got == None
            else
              && s'.created == s.created + 1
              && (o.Succeeds? ==> got == Some(s.created) && s'.closed == s.closed
                                  && s'.live == Some(s.live.value[e := s.created]))
              && (!o.Succeeds? ==> got == None && s'.closed == s.closed + {s.created} && s'.live == s.live)
  {
  }

  /** What a close does, by the map alone. */
  lemma CloseLaw(s: State, e: Endpoint)
    ensures var s' := Close(s, e);
            if s.live.Some? && e in s.live.value then
              s'.live == Some(s.live.value - {e}) && s'.closed == s.closed + {s.live.value[e]} && s'.created == s.created
            else s' == s
  {
  }

  lemma AddKeepsInv(s: State, e: Endpoint)
    requires Inv(s) && s.live.Some? && e !in s.live.value
    ensures Inv(State(Some(s.live.value[e := s.created]), s.created + 1, s.closed))
  {
    var m, m' := s.live.value, s.live.value[e := s.created];
    forall f, g | f in m' && g in m' && m'[f] == m'[g] ensures f == g {
      if f != e && g != e {
        assert m[f] == m[g];
      }
    }
    GrowsByOne(m, e, s.created);
  }

  lemma GrowsByOne(m: map<Endpoint, nat>, e: Endpoint, k: nat)
    requires e !in m
    ensures |m[e := k]| == |m| + 1
  {
    assert m[e := k].Keys == m.Keys + {e};
  }

  lemma GetKeepsInv(s: State, e: Endpoint, o: Outcome)
    requires Inv(s)
    ensures Inv(GetOrCreate(s, e, o).0)
  {
    if s.live.Some? && e !in s.live.value && o.Succeeds? {
      AddKeepsInv(s, e);
    } else if GetOrCreate(s, e, o).0 != s {
      assert |s.closed + {s.created}| == |s.closed| + 1;
    }
  }

  lemma CloseKeepsInv(s: State, e: Endpoint)
    requires Inv(s)
    ensures Inv(Close(s, e))
  {
    var m := Stored(s);
    if e in m {
      assert (m - {e}).Keys == m.Keys - {e};
    }
  }

  lemma {:induction false} InjectiveValues(m: map<Endpoint, nat>)
    requires forall e, f :: e in m && f in m && m[e] == m[f] ==> e == f
    ensures |m.Values| == |m|
  {
    if m != map[] {
      var e :| e in m;
      var rest := m - {e};
      assert rest.Keys == m.Keys - {e};
      InjectiveValues(rest);
      forall v ensures v in m.Values <==> v in rest.Values + {m[e]} {
        if v in m.Values && v != m[e] {
          var f :| f in m && m[f] == v;
          assert f in rest;
        }
      }
      assert m.Values == rest.Values + {m[e]};
      assert m[e] !in rest.Values;
    }
  }

  lemma CleanupKeepsInv(s: State)
    requires Inv(s)
    ensures Inv(Cleanup(s)) && |Cleanup(s).closed| == s.created
  {
    var m := Stored(s);
    InjectiveValues(m);
    assert s.closed !! m.Values;
    assert |s.closed + m.Values| == |s.closed| + |m.Values|;
  }

  lemma StepKeepsInv(s: State, step: Step)
    requires Inv(s)
    ensures Inv(Next(s, step))
  {
    match step
    case StepGet(e, o) => GetKeepsInv(s, e, o);
    case StepClose(e) => CloseKeepsInv(s, e);
    case StepCleanup => CleanupKeepsInv(s);
  }

  /** Connection pool invariant, in every run: stored sockets are open and stored under one key only,
      and sockets opened equal sockets closed plus sockets stored. */
  lemma {:induction false} PoolInvariant(s: State, steps: seq<Step>)
    requires Inv(s)
    ensures Inv(After(s, steps))
    ensures |After(s, steps).closed| + |Stored(After(s, steps))| == After(s, steps).created
    decreases |steps|
  {
    if steps != [] {
      StepKeepsInv(s, steps[0]);
      PoolInvariant(Next(s, steps[0]), steps[1..]);
    }
  }

  lemma {:induction false} FullRange(s: set<nat>, n: nat)
    requires (forall k :: k in s ==> k < n) && |s| == n
    ensures forall k: nat :: k < n ==> k in s
  {
    if n > 0 {
      if n - 1 in s {
        FullRange(s - {n - 1}, n - 1);
      } else {
        RangeBound(s, n - 1);
      }
    }
  }

  lemma {:induction false} RangeBound(s: set<nat>, n: nat)
    requires forall k :: k in s ==> k < n
    ensures |s| <= n
  {
    if n == 0 {
      assert s == {};
    } else {
      RangeBound(s - {n - 1}, n - 1);
    }
  }

  /** A run that ends in cleanup leaves no socket open. */
  lemma CleanupClosesAll(steps: seq<Step>, k: nat)
    ensures var s := Cleanup(After(Init(), steps)); k in s.closed <==> k < s.created
  {
    PoolInvariant(Init(), steps);
    var s := Cleanup(After(Init(), steps));
    CleanupKeepsInv(After(Init(), steps));
    FullRange(s.closed, s.created);
  }

  /** Repeated gets: once a get has returned a socket, every later get of the same endpoint that has
      memory for its key returns the same socket, until that endpoint is closed or the pool is
      cleaned up. */
  lemma {:induction false} GetIsStable(s: State, e: Endpoint, steps: seq<Step>, o: Outcome)
    requires s.live.Some? && e in s.live.value && !o.NoMemory?
    requires forall i :: 0 <= i < |steps| ==> steps[i] != StepClose(e) && steps[i] != StepCleanup
    ensures GetOrCreate(After(s, steps), e, o) == (After(s, steps), Some(s.live.value[e]))
    decreases |steps|
  {
    if steps != [] {
      assert steps[0] != StepClose(e) && steps[0] != StepCleanup;
      GetIsStable(Next(s, steps[0]), e, steps[1..], o);
    }
  }

  // ---- Sending over the pool ----

  /** The threads of a process send over its pool. For every socket: the bytes its sends have accepted,
      the warnings reported as sent, and what the last send that put bytes on it left of an unfinished
      frame. `due` are the threads between a short send and the close, with the endpoint. */
  datatype Client = Client(
    pool: State,
    wire: map<nat, seq<byte>>, sent: map<nat, seq<Warning>>, tail: map<nat, seq<byte>>,
    due: map<nat, Endpoint>)

  /** How the buffer allocation and the send call go: `accepted` bytes reach the connection. */
  datatype Attempt = Attempt(connect: Outcome, buffer: bool, accepted: nat)

  function On<T>(m: map<nat, seq<T>>, k: nat): seq<T> {
    if k in m then m[k] else []
  }

  function InitClient(): Client {
    Client(Init(), map[], map[], map[], map[])
  }

  /** Thread t's send call on socket k. */
  function Transmit(c: Client, t: nat, e: Endpoint, k: nat, w: Warning, accepted: nat): Client
    requires Sendable(w) && accepted <= FrameSize(w)
  {
    var piece := Encode(w)[..accepted];
    var c1 := c.(wire := c.wire[k := On(c.wire, k) + piece]);
    if accepted == FrameSize(w) then c1.(sent := c.sent[k := On(c.sent, k) + [w]], tail := c.tail[k := []])
    else c1.(due := c.due[t := e], tail := if accepted == 0 then c.tail else c.tail[k := piece])
  }

  /** The steps of a process: a thread looks up the connection and sends; after a short send it closes
      the connection; and the pool is cleaned up. */
  datatype ClientStep =
    | ClientSend(t: nat, e: Endpoint, w: Warning, a: Attempt)
    | ClientDisconnect(t: nat)
    | ClientCleanup

  predicate ClientEnabled(c: Client, step: ClientStep) {
    match step
    case ClientSend(t, e, w, a) => t !in c.due && Sendable(w) && a.accepted <= FrameSize(w)
    case ClientDisconnect(t) => t in c.due
    case ClientCleanup => true
  }

  function ClientNext(c: Client, step: ClientStep): Client
    requires ClientEnabled(c, step)
  {
    match step
    case ClientSend(t, e, w, a) =>
      var got := GetOrCreate(c.pool, e, a.connect);
      var c1 := c.(pool := got.0);
      if got.1.None? || !a.buffer then c1 else Transmit(c1, t, e, got.1.value, w, a.accepted)
    case ClientDisconnect(t) => c.(pool := Close(c.pool, c.due[t]), due := c.due - {t})
    case ClientCleanup => c.(pool := Cleanup(c.pool))
  }

  /** send_warning_to returns true. */
  predicate Reported(c: Client, step: ClientStep) {
    step.ClientSend? && step.a.buffer && step.a.accepted == FrameSize(step.w) && GetOrCreate(c.pool, step.e, step.a.connect).1.Some?
  }

  /** The send puts bytes on a connection behind those of a short send: another thread is between the
      short send and the close. */
  predicate ClientOverlaps(c: Client, step: ClientStep) {
    step.ClientSend? && step.a.buffer && step.a.accepted > 0 &&
    var got := GetOrCreate(c.pool, step.e, step.a.connect).1;
    got.Some? && On(c.tail, got.value) != []
  }

  ghost predicate ClientRuns(c: Client, steps: seq<ClientStep>)
    decreases |steps|
  {
    steps != [] ==> ClientEnabled(c, steps[0]) && ClientRuns(ClientNext(c, steps[0]), steps[1..])
  }

  /** The client after the first i steps of a run. */
  ghost function ClientAt(c: Client, steps: seq<ClientStep>, i: nat): Client
    requires ClientRuns(c, steps) && i <= |steps|
    decreases i
  {
    if i == 0 then c else ClientAt(ClientNext(c, steps[0]), steps[1..], i - 1)
  }

  lemma ClientRunsFrom(c: Client, step: ClientStep, rest: seq<ClientStep>)
    requires ClientEnabled(c, step)
    ensures ClientRuns(c, []) && (ClientRuns(c, [step] + rest) <==> ClientRuns(ClientNext(c, step), rest))
  {
    assert ([step] + rest)[1..] == rest;
  }

  lemma {:induction false} ClientAtStep(c: Client, steps: seq<ClientStep>, i: nat)
    requires ClientRuns(c, steps) && i < |steps|
    ensures ClientEnabled(ClientAt(c, steps, i), steps[i])
    ensures ClientAt(c, steps, i + 1) == ClientNext(ClientAt(c, steps, i), steps[i])
    decreases i
  {
    if i != 0 {
      ClientAtStep(ClientNext(c, steps[0]), steps[1..], i - 1);
    }
  }

  // ---- Framing ----

  /** Socket k carries exactly the frames of the warnings reported as sent on it, and then what a short
      send has left. */
  predicate InFrame(c: Client, k: nat) {
    On(c.wire, k) == EncodeAll(On(c.sent, k)) + On(c.tail, k)
  }

  ghost predicate AllInFrame(c: Client) {
    forall k: nat :: InFrame(c, k)
  }

  /** What was reported as sent could be sent, and what is left of a frame is not all of it. */
  ghost predicate Proper(c: Client) {
    forall k: nat :: SocketProper(On(c.sent, k), On(c.tail, k))
  }

  ghost predicate SocketProper(ws: seq<Warning>, tail: seq<byte>) {
    (forall w :: w in ws ==> Sendable(w)) && (tail != [] ==> exists w :: CutFrame(w, tail))
  }

  lemma StepKeepsProper(c: Client, step: ClientStep)
    requires Proper(c) && ClientEnabled(c, step)
    ensures Proper(ClientNext(c, step))
  {
    var c' := ClientNext(c, step);
    forall k: nat ensures SocketProper(On(c'.sent, k), On(c'.tail, k)) {
      assert SocketProper(On(c.sent, k), On(c.tail, k));
      if On(c'.tail, k) != On(c.tail, k) && On(c'.tail, k) != [] {
        assert CutFrame(step.w, On(c'.tail, k));
      }
    }
  }

  /** Bytes on one socket: in frame after a send that adds bytes exactly if nothing was left before. */
  lemma PieceInFrame(ws: seq<Warning>, tail: seq<byte>, w: Warning, n: nat)
    requires 0 < n <= FrameSize(w)
    ensures var whole := n == FrameSize(w); var piece := Encode(w)[..n];
            (EncodeAll(ws) + tail + piece == EncodeAll(if whole then ws + [w] else ws) + (if whole then [] else piece)) <==> tail == []
  {
    EncodeAllAppend(ws, w);
    assert Encode(w)[..FrameSize(w)] == Encode(w);
    assert tail == [] ==> EncodeAll(ws) + tail == EncodeAll(ws);
  }

  lemma TransmitInFrame(c: Client, t: nat, e: Endpoint, k: nat, w: Warning, accepted: nat, j: nat)
    requires Sendable(w) && accepted <= FrameSize(w) && InFrame(c, j)
    ensures InFrame(Transmit(c, t, e, k, w, accepted), j) <==> !(j == k && accepted > 0 && On(c.tail, k) != [])
  {
    if j == k {
      if accepted == 0 {
        assert On(c.wire, k) + Encode(w)[..0] == On(c.wire, k);
      } else {
        PieceInFrame(On(c.sent, k), On(c.tail, k), w, accepted);
      }
    }
  }

  /** Exactly when a step keeps every connection in frame. */
  lemma InFrameIff(c: Client, step: ClientStep)
    requires AllInFrame(c) && ClientEnabled(c, step)
    ensures AllInFrame(ClientNext(c, step)) <==> !ClientOverlaps(c, step)
  {
    if step.ClientSend? {
      var got := GetOrCreate(c.pool, step.e, step.a.connect);
      var c1 := c.(pool := got.0);
      assert forall k: nat :: InFrame(c1, k) <==> InFrame(c, k);
      if got.1.Some? && step.a.buffer {
        forall j: nat
          ensures InFrame(ClientNext(c, step), j) <==> !(j == got.1.value && step.a.accepted > 0 && On(c.tail, j) != [])
        {
          TransmitInFrame(c1, step.t, step.e, got.1.value, step.w, step.a.accepted, j);
        }
      } else {
        assert ClientNext(c, step) == c1;
      }
    } else {
      assert forall k: nat :: InFrame(ClientNext(c, step), k) <==> InFrame(c, k);
    }
  }

  ghost predicate AlwaysInFrame(steps: seq<ClientStep>)
    requires ClientRuns(InitClient(), steps)
  {
    forall i :: 0 <= i <= |steps| ==> AllInFrame(ClientAt(InitClient(), steps, i))
  }

  ghost predicate NeverOverlaps(steps: seq<ClientStep>)
    requires ClientRuns(InitClient(), steps)
  {
    forall i :: 0 <= i < |steps| ==> !ClientOverlaps(ClientAt(InitClient(), steps, i), steps[i])
  }

  lemma {:induction false} InFrameUpTo(steps: seq<ClientStep>, i: nat)
    requires ClientRuns(InitClient(), steps) && i <= |steps| && NeverOverlaps(steps)
    ensures AllInFrame(ClientAt(InitClient(), steps, i))
    decreases i
  {
    if i != 0 {
      InFrameUpTo(steps, i - 1);
      ClientAtStep(InitClient(), steps, i - 1);
      InFrameIff(ClientAt(InitClient(), steps, i - 1), steps[i - 1]);
    }
  }

  /** Framing, exactly: after every step of a run every connection carries the frames reported as sent
      and at most a part of one more, if and only if no send of the run falls between a short send on
      its connection and the close. */
  lemma FramedIffNoOverlap(steps: seq<ClientStep>)
    requires ClientRuns(InitClient(), steps)
    ensures AlwaysInFrame(steps) <==> NeverOverlaps(steps)
  {
    if NeverOverlaps(steps) {
      forall i | 0 <= i <= |steps| ensures AllInFrame(ClientAt(InitClient(), steps, i)) {
        InFrameUpTo(steps, i);
      }
    }
    if AlwaysInFrame(steps) {
      forall i | 0 <= i < |steps| ensures !ClientOverlaps(ClientAt(InitClient(), steps, i), steps[i]) {
        ClientAtStep(InitClient(), steps, i);
        InFrameIff(ClientAt(InitClient(), steps, i), steps[i]);
      }
    }
  }

  lemma {:induction false} ProperAt(c: Client, steps: seq<ClientStep>, i: nat)
    requires Proper(c) && ClientRuns(c, steps) && i <= |steps|
    ensures Proper(ClientAt(c, steps, i))
    decreases i
  {
    if i != 0 {
      StepKeepsProper(c, steps[0]);
      ProperAt(ClientNext(c, steps[0]), steps[1..], i - 1);
    }
  }

  /** The receiver of a socket that is in frame decodes exactly the warnings reported as sent on it. */
  lemma InFrameReceived(ws: seq<Warning>, tail: seq<byte>)
    requires SocketProper(ws, tail)
    ensures ReceiveAll(EncodeAll(ws) + tail) == ws
  {
    if tail == [] {
      StreamRoundTrip(ws, Warning([], 0, 0, 0, []), []);
    } else {
      var w :| CutFrame(w, tail);
      StreamRoundTrip(ws, w, tail);
    }
  }

  /** Acknowledged means received: after any run of sends by any number of threads, with any failures,
      short sends and reconnections but no send between a short send and its close, the receiver at the
      other end of each connection decodes exactly the warnings whose send returned true on it, in
      order. */
  lemma SentIsReceived(steps: seq<ClientStep>, k: nat)
    requires ClientRuns(InitClient(), steps) && NeverOverlaps(steps)
    ensures var c := ClientAt(InitClient(), steps, |steps|); ReceiveAll(On(c.wire, k)) == On(c.sent, k)
  {
    var c := ClientAt(InitClient(), steps, |steps|);
    InFrameUpTo(steps, |steps|);
    ProperAt(InitClient(), steps, |steps|);
    assert InFrame(c, k) && SocketProper(On(c.sent, k), On(c.tail, k));
    InFrameReceived(On(c.sent, k), On(c.tail, k));
  }

  // ---- The close ends the overlap ----

  /** What every run keeps beside framing: sockets that were not opened carry nothing, and where a stored
      connection holds a part of a frame, some thread has its close before it. */
  ghost predicate ClientInv(c: Client) {
    && Inv(c.pool)
    && (forall k :: k in c.tail && c.tail[k] != [] ==> k < c.pool.created)
    && (forall e :: e in Stored(c.pool) && On(c.tail, Stored(c.pool)[e]) != [] ==> e in c.due.Values)
  }

  lemma SendKeepsClientInv(c: Client, t: nat, e: Endpoint, w: Warning, a: Attempt)
    requires ClientInv(c) && ClientEnabled(c, ClientSend(t, e, w, a))
    ensures ClientInv(ClientNext(c, ClientSend(t, e, w, a)))
  {
    var got := GetOrCreate(c.pool, e, a.connect);
    GetKeepsInv(c.pool, e, a.connect);
    GetLaw(c.pool, e, a.connect);
    var c1 := c.(pool := got.0);
    assert ClientInv(c1);
    if got.1.Some? && a.buffer {
      TransmitKeepsClientInv(c1, t, e, got.1.value, w, a.accepted);
    }
  }

  lemma TransmitKeepsClientInv(c: Client, t: nat, e: Endpoint, k: nat, w: Warning, accepted: nat)
    requires ClientInv(c) && t !in c.due && Sendable(w) && accepted <= FrameSize(w)
    requires e in Stored(c.pool) && Stored(c.pool)[e] == k
    ensures ClientInv(Transmit(c, t, e, k, w, accepted))
  {
    var c', m := Transmit(c, t, e, k, w, accepted), Stored(c.pool);
    forall f | f in m && On(c'.tail, m[f]) != [] ensures f in c'.due.Values {
      if f == e {
        assert accepted < FrameSize(w) ==> c'.due[t] == e;
      } else {
        assert m[f] != k;
        assert f in c.due.Values;
        var u :| u in c.due && c.due[u] == f;
        assert c'.due[u] == f;
      }
    }
  }

  lemma DisconnectKeepsClientInv(c: Client, t: nat)
    requires ClientInv(c) && t in c.due
    ensures ClientInv(ClientNext(c, ClientDisconnect(t)))
  {
    var c', e := ClientNext(c, ClientDisconnect(t)), c.due[t];
    CloseKeepsInv(c.pool, e);
    CloseLaw(c.pool, e);
    forall f | f in Stored(c'.pool) && On(c'.tail, Stored(c'.pool)[f]) != [] ensures f in c'.due.Values {
      assert f in c.due.Values && f != e;
      var u :| u in c.due && c.due[u] == f;
      assert u != t && c'.due[u] == f;
    }
  }

  lemma StepKeepsClientInv(c: Client, step: ClientStep)
    requires ClientInv(c) && ClientEnabled(c, step)
    ensures ClientInv(ClientNext(c, step))
  {
    match step
    case ClientSend(t, e, w, a) => SendKeepsClientInv(c, t, e, w, a);
    case ClientDisconnect(t) => DisconnectKeepsClientInv(c, t);
    case ClientCleanup => CleanupKeepsInv(c.pool);
  }

  lemma {:induction false} ClientInvAt(c: Client, steps: seq<ClientStep>, i: nat)
    requires ClientInv(c) && ClientRuns(c, steps) && i <= |steps|
    ensures ClientInv(ClientAt(c, steps, i))
    decreases i
  {
    if i != 0 {
      var c' := ClientNext(c, steps[0]);
      StepKeepsClientInv(c, steps[0]);
      ClientInvAt(c', steps[1..], i - 1);
      assert ClientAt(c, steps, i) == ClientAt(c', steps[1..], i - 1);
    }
  }

  /** After the close that follows a short send the endpoint is not stored and the socket it had is
      closed; the next get that succeeds opens a new connection, with nothing left of any frame. */
  lemma DisconnectEndsOverlap(steps: seq<ClientStep>, t: nat)
    requires ClientRuns(InitClient(), steps)
    requires t in ClientAt(InitClient(), steps, |steps|).due
    ensures var c := ClientAt(InitClient(), steps, |steps|); var e := c.due[t];
            ClientEnabled(c, ClientDisconnect(t)) &&
            var c' := ClientNext(c, ClientDisconnect(t));
            && t !in c'.due && c'.wire == c.wire && c'.sent == c.sent
            && e !in Stored(c'.pool)
            && (e in Stored(c.pool) ==> Stored(c.pool)[e] in c'.pool.closed)
            && (c'.pool.live.Some? ==> GetOrCreate(c'.pool, e, Succeeds).1 == Some(c'.pool.created))
            && On(c'.tail, c'.pool.created) == []
  {
    ClientInvAt(InitClient(), steps, |steps|);
    DisconnectCloses(ClientAt(InitClient(), steps, |steps|), t);
  }

  lemma DisconnectCloses(c: Client, t: nat)
    requires ClientInv(c) && t in c.due
    ensures var e := c.due[t]; var c' := ClientNext(c, ClientDisconnect(t));
            && t !in c'.due && c'.wire == c.wire && c'.sent == c.sent
            && e !in Stored(c'.pool)
            && (e in Stored(c.pool) ==> Stored(c.pool)[e] in c'.pool.closed)
            && (c'.pool.live.Some? ==> GetOrCreate(c'.pool, e, Succeeds).1 == Some(c'.pool.created))
            && On(c'.tail, c'.pool.created) == []
  {
    CloseLaw(c.pool, c.due[t]);
    GetLaw(ClientNext(c, ClientDisconnect(t)).pool, c.due[t], Succeeds);
  }

  /** All sends and closes of the run are those of one thread. */
  predicate OneThread(steps: seq<ClientStep>, t: nat) {
    forall i :: 0 <= i < |steps| ==> steps[i].ClientCleanup? || steps[i].t == t
  }

  lemma {:induction false} OnlyDue(c: Client, steps: seq<ClientStep>, t: nat, i: nat)
    requires ClientRuns(c, steps) && OneThread(steps, t) && c.due.Keys <= {t} && i <= |steps|
    ensures ClientAt(c, steps, i).due.Keys <= {t}
    decreases i
  {
    if i != 0 {
      assert steps[0].ClientCleanup? || steps[0].t == t;
      OnlyDue(ClientNext(c, steps[0]), steps[1..], t, i - 1);
    }
  }

  lemma AloneDoesNotOverlap(c: Client, step: ClientStep, t: nat)
    requires ClientInv(c) && c.due.Keys <= {t} && ClientEnabled(c, step) && (step.ClientSend? ==> step.t == t)
    ensures !ClientOverlaps(c, step)
  {
    if step.ClientSend? {
      assert c.due == map[];
      GetLaw(c.pool, step.e, step.a.connect);
    }
  }

  /** A process with one sending thread never overlaps, whatever fails; so all its connections stay in
      frame and its receivers get exactly what it reported as sent. */
  lemma OneThreadStaysInFrame(steps: seq<ClientStep>, t: nat)
    requires ClientRuns(InitClient(), steps) && OneThread(steps, t)
    ensures NeverOverlaps(steps) && AlwaysInFrame(steps)
  {
    forall i | 0 <= i < |steps| ensures !ClientOverlaps(ClientAt(InitClient(), steps, i), steps[i]) {
      assert steps[i].ClientCleanup? || steps[i].t == t;
      ClientInvAt(InitClient(), steps, i);
      OnlyDue(InitClient(), steps, t, i);
      ClientAtStep(InitClient(), steps, i);
      AloneDoesNotOverlap(ClientAt(InitClient(), steps, i), steps[i], t);
    }
    FramedIffNoOverlap(steps);
  }

  /** What a send does, by the fields: without a connection or a buffer nothing but the get; else the
      accepted bytes follow those on the socket, and the warning counts as sent exactly if they are the
      whole frame; otherwise the thread has the close of the endpoint before it. */
  lemma SendLaw(c: Client, t: nat, e: Endpoint, w: Warning, a: Attempt)
    requires t !in c.due && Sendable(w) && a.accepted <= FrameSize(w)
    ensures ClientEnabled(c, ClientSend(t, e, w, a))
    ensures var got := GetOrCreate(c.pool, e, a.connect); var c' := ClientNext(c, ClientSend(t, e, w, a));
            && c'.pool == got.0
            && if got.1.None? || !a.buffer then
                 c'.wire == c.wire && c'.sent == c.sent && c'.due == c.due && c'.tail == c.tail
               else
                 var k := got.1.value;
                 && c'.wire == c.wire[k := On(c.wire, k) + Encode(w)[..a.accepted]]
                 && c'.sent == (if a.accepted == FrameSize(w) then c.sent[k := On(c.sent, k) + [w]] else c.sent)
                 && c'.due == (if a.accepted == FrameSize(w) then c.due else c.due[t := e])
  {
  }

  // ---- A send between a short send and its close ----

  /** Thread 1's send of a stops before the last byte, and thread 2 sends b before thread 1 closes. */
  function OverlappingSends(e: Endpoint, a: Warning, b: Warning): seq<ClientStep> {
    [ClientSend(1, e, a, Attempt(Succeeds, true, FrameSize(a) - 1)), ClientSend(2, e, b, Attempt(Succeeds, true, FrameSize(b)))]
  }

  /** Then b is reported as sent and a as failed, and the receiver reads a and not b. */
  lemma OverlapSwapsWarnings(e: Endpoint, a: Warning, b: Warning)
    requires Sendable(a) && Sendable(b) && a.timestamp % 0x100 == 0 && 1 <= |b.city| == |b.dest| < 0x100_0000
    ensures var steps := OverlappingSends(e, a, b);
            && ClientRuns(InitClient(), steps)
            && On(ClientAt(InitClient(), steps, 2).sent, 0) == [b]
            && ReceiveAll(On(ClientAt(InitClient(), steps, 2).wire, 0)) == [a]
  {
    var steps, c0 := OverlappingSends(e, a, b), InitClient();
    var c1 := ClientNext(c0, steps[0]);
    var part := Encode(a)[..FrameSize(a) - 1];
    assert On(c1.wire, 0) == part by { assert [] + part == part; }
    assert c1.pool.live.value == map[e := 0];
    var c2 := ClientNext(c1, steps[1]);
    assert Encode(b)[..FrameSize(b)] == Encode(b);
    assert On(c2.wire, 0) == part + Encode(b) && On(c2.sent, 0) == [b] by { assert [] + [b] == [b]; }
    assert steps[1..] == [steps[1]] && steps[1..][1..] == [];
    assert ClientAt(c0, steps, 2) == ClientAt(c1, steps[1..], 1) == c2;
    CutBeforeLastByte(a, b);
    ShiftedFails(b);
  }
}
