/** Byte streams between processes. A connection carries whole frames and, after a short send, a part of
    one more, as long as nothing is sent on it between the short send and the close that follows. A
    listener reads each connection to its end before it accepts the next. */
module Streams {
  import opened Basics
  import opened WireFormat

  /** The bytes are exactly the frames of ws, and if the last one was cut, a part of one more. */
  ghost predicate Framed(bytes: seq<byte>, ws: seq<Warning>, cut: bool) {
    && (forall w :: w in ws ==> Sendable(w))
    && if cut then exists next, partial :: CutFrame(next, partial) && bytes == EncodeAll(ws) + partial
       else bytes == EncodeAll(ws)
  }

  ghost predicate CutFrame(next: Warning, partial: seq<byte>) {
    Sendable(next) && partial < Encode(next)
  }

  lemma FramedEmpty()
    ensures Framed([], [], false)
  {
  }

  lemma FramedMore(bytes: seq<byte>, ws: seq<Warning>, w: Warning)
    requires Framed(bytes, ws, false) && Sendable(w)
    ensures Framed(bytes + Encode(w), ws + [w], false)
  {
    EncodeAllAppend(ws, w);
  }

  lemma FramedCut(bytes: seq<byte>, ws: seq<Warning>, w: Warning, n: nat)
    requires Framed(bytes, ws, false) && Sendable(w) && n < FrameSize(w)
    ensures Framed(bytes + Encode(w)[..n], ws, true)
  {
    assert CutFrame(w, Encode(w)[..n]);
  }

  /** The receiver's view of a framed connection: exactly the warnings sent completely on it. */
  lemma FramedReceived(bytes: seq<byte>, ws: seq<Warning>, cut: bool)
    requires Framed(bytes, ws, cut)
    ensures ReceiveAll(bytes) == ws
  {
    if cut {
      var next, partial :| CutFrame(next, partial) && bytes == EncodeAll(ws) + partial;
      StreamRoundTrip(ws, next, partial);
    } else {
      var w := Warning([], 0, 0, 0, []);
      assert EncodeAll(ws) + [] == bytes;
      StreamRoundTrip(ws, w, []);
    }
  }

  // ---- What is on its way to a listener ----

  /** A connection: the process that opened it, the bytes sent on it and not read yet, whether a short
      send has cut a frame on it, and whether its sender has closed it. */
  datatype Connection = Connection(from: nat, bytes: seq<byte>, cut: bool, closed: bool)

  /** The connections to one listener, in the order in which it accepts them. */
  type Inbox = seq<Connection>

  /** How a send goes: the whole frame, a part of it, or nothing because there is no connection or no
      buffer. Only a partial send is followed by a close. */
  datatype Sending = Complete | Partial(n: nat) | Refused

  predicate Possible(w: Warning, x: Sending) {
    Sendable(w) && (x.Partial? ==> x.n < FrameSize(w))
  }

  /** The send puts at least one byte on the connection. */
  predicate Adds(x: Sending) {
    x.Complete? || (x.Partial? && x.n > 0)
  }

  /** The open connection of a process, or the number of connections. */
  function Slot(inbox: Inbox, from: nat): (i: nat)
    ensures i <= |inbox|
    ensures i < |inbox| ==> inbox[i].from == from && !inbox[i].closed
    ensures forall j :: 0 <= j < i ==> inbox[j].from != from || inbox[j].closed
  {
    if inbox == [] || (inbox[0].from == from && !inbox[0].closed) then 0 else
      var i := 1 + Slot(inbox[1..], from);
      assert forall j :: 1 <= j < i ==> inbox[j] == inbox[1..][j - 1];
      i
  }

  /** The connection that the process's next send uses: its open one, or a new one. */
  function Current(inbox: Inbox, from: nat): Connection {
    if Slot(inbox, from) < |inbox| then inbox[Slot(inbox, from)] else Connection(from, [], false, false)
  }

  function Update(inbox: Inbox, c: Connection): Inbox {
    var i := Slot(inbox, c.from);
    if i < |inbox| then inbox[i := c] else inbox + [c]
  }

  /** The bytes that a send puts on the connection. */
  function Piece(w: Warning, x: Sending): seq<byte>
    requires Possible(w, x)
  {
    match x case Complete => Encode(w) case Partial(n) => Encode(w)[..n] case Refused => []
  }

  function Sent(inbox: Inbox, from: nat, w: Warning, x: Sending): Inbox
    requires Possible(w, x)
  {
    var c := Current(inbox, from);
    if x.Refused? then inbox
    else Update(inbox, c.(bytes := c.bytes + Piece(w, x), cut := c.cut || (x.Partial? && x.n > 0)))
  }

  /** The close after a short send: whatever connection the process has open. */
  function Shut(inbox: Inbox, from: nat): Inbox {
    var i := Slot(inbox, from);
    if i < |inbox| then inbox[i := inbox[i].(closed := true)] else inbox
  }

  /** The process has an open connection on which a frame has been cut: the close is due. */
  predicate CutOpen(inbox: Inbox, from: nat) {
    Current(inbox, from).cut
  }

  /** The listener finds a frame on the connection it reads. */
  predicate Readable(inbox: Inbox) {
    inbox != [] && Decode(inbox[0].bytes).Ok?
  }

  function Read(inbox: Inbox): Inbox
    requires Readable(inbox)
  {
    inbox[0 := inbox[0].(bytes := Decode(inbox[0].bytes).rest)]
  }

  /** The listener finds the end of the connection it reads, and drops what it holds of a frame. */
  predicate AtEnd(inbox: Inbox) {
    inbox != [] && inbox[0].closed && Decode(inbox[0].bytes).Fail?
  }

  /** The warnings on their way. */
  ghost function Arriving(inbox: Inbox): seq<Warning> {
    if inbox == [] then [] else ReceiveAll(inbox[0].bytes) + Arriving(inbox[1..])
  }

  ghost function Closed(inbox: Inbox): nat {
    if inbox == [] then 0 else (if inbox[0].closed then 1 else 0) + Closed(inbox[1..])
  }

  ghost predicate ConnectionOk(c: Connection) {
    Framed(c.bytes, ReceiveAll(c.bytes), c.cut)
  }

  /** All connections come from one process and are framed, and only the last may be open. */
  ghost predicate InboxOk(inbox: Inbox, from: nat) {
    && (forall i :: 0 <= i < |inbox| ==> inbox[i].from == from && ConnectionOk(inbox[i]))
    && (forall i :: 0 <= i < |inbox| - 1 ==> inbox[i].closed)
  }

  lemma {:induction false} ArrivingAdd(inbox: Inbox, c: Connection)
    ensures Arriving(inbox + [c]) == Arriving(inbox) + ReceiveAll(c.bytes)
    ensures Closed(inbox + [c]) == Closed(inbox) + if c.closed then 1 else 0
  {
    if inbox == [] {
      assert inbox + [c] == [c] && [c][1..] == [];
    } else {
      assert (inbox + [c])[1..] == inbox[1..] + [c];
      ArrivingAdd(inbox[1..], c);
      Associative(ReceiveAll(inbox[0].bytes), Arriving(inbox[1..]), ReceiveAll(c.bytes));
    }
  }

  lemma EmptyConnection(from: nat)
    ensures ConnectionOk(Connection(from, [], false, false)) && ReceiveAll([]) == []
  {
    FramedEmpty();
    FramedReceived([], [], false);
  }

  /** The connections before the current one, all closed. */
  ghost function Past(inbox: Inbox, from: nat): Inbox {
    inbox[..Slot(inbox, from)]
  }

  lemma {:induction false} PastAndCurrent(inbox: Inbox, from: nat)
    requires InboxOk(inbox, from)
    ensures var c := Current(inbox, from);
            && c.from == from && !c.closed && ConnectionOk(c)
            && Arriving(inbox) == Arriving(Past(inbox, from)) + ReceiveAll(c.bytes)
            && Closed(inbox) == Closed(Past(inbox, from))
    ensures forall i :: 0 <= i < |Past(inbox, from)| ==> inbox[i].closed
  {
    var i := Slot(inbox, from);
    EmptyConnection(from);
    if i < |inbox| {
      assert i == |inbox| - 1;
      assert inbox == Past(inbox, from) + [inbox[i]];
      ArrivingAdd(Past(inbox, from), inbox[i]);
    } else {
      assert Past(inbox, from) == inbox;
    }
  }

  lemma UpdateIs(inbox: Inbox, c: Connection)
    requires InboxOk(inbox, c.from)
    ensures Update(inbox, c) == Past(inbox, c.from) + [c]
  {
    PastAndCurrent(inbox, c.from);
  }

  lemma PastOk(inbox: Inbox, c: Connection)
    requires InboxOk(inbox, c.from) && ConnectionOk(c)
    ensures InboxOk(Past(inbox, c.from) + [c], c.from)
  {
    PastAndCurrent(inbox, c.from);
  }

  /** Replacing the current connection by one that carries `more` warnings. */
  lemma {:induction false} CurrentGrows(inbox: Inbox, c: Connection, more: seq<Warning>)
    requires InboxOk(inbox, c.from) && Framed(c.bytes, ReceiveAll(Current(inbox, c.from).bytes) + more, c.cut)
    ensures InboxOk(Update(inbox, c), c.from)
    ensures Arriving(Update(inbox, c)) == Arriving(inbox) + more
    ensures Closed(Update(inbox, c)) == Closed(inbox) + if c.closed then 1 else 0
  {
    var past, ws := Past(inbox, c.from), ReceiveAll(Current(inbox, c.from).bytes);
    PastAndCurrent(inbox, c.from);
    UpdateIs(inbox, c);
    FramedReceived(c.bytes, ws + more, c.cut);
    PastOk(inbox, c);
    ArrivingAdd(past, c);
    Associative(Arriving(past), ws, more);
  }

  /** As long as no byte follows a short send, a complete send adds exactly its warning to what the
      listener will read, and any other adds nothing. */
  lemma {:induction false} SentArrives(inbox: Inbox, from: nat, w: Warning, x: Sending)
    requires InboxOk(inbox, from) && Possible(w, x) && !(Adds(x) && CutOpen(inbox, from))
    ensures InboxOk(Sent(inbox, from, w, x), from)
    ensures Arriving(Sent(inbox, from, w, x)) == Arriving(inbox) + if x.Complete? then [w] else []
    ensures Closed(Sent(inbox, from, w, x)) == Closed(inbox)
  {
    var c := Current(inbox, from);
    var ws := ReceiveAll(c.bytes);
    PastAndCurrent(inbox, from);
    assert ws + [] == ws && c.bytes + [] == c.bytes;
    match x
    case Complete =>
      FramedMore(c.bytes, ws, w);
      CurrentGrows(inbox, c.(bytes := c.bytes + Encode(w)), [w]);
    case Partial(n) =>
      if n > 0 {
        FramedCut(c.bytes, ws, w, n);
      }
      CurrentGrows(inbox, c.(bytes := c.bytes + Encode(w)[..n], cut := c.cut || n > 0), []);
    case Refused =>
  }

  lemma {:induction false} ShutArrives(inbox: Inbox, from: nat)
    requires InboxOk(inbox, from)
    ensures InboxOk(Shut(inbox, from), from) && Arriving(Shut(inbox, from)) == Arriving(inbox)
    ensures Closed(Shut(inbox, from)) <= Closed(inbox) + 1
  {
    if Slot(inbox, from) < |inbox| {
      var c := Current(inbox, from);
      PastAndCurrent(inbox, from);
      assert ReceiveAll(c.bytes) + [] == ReceiveAll(c.bytes);
      CurrentGrows(inbox, c.(closed := true), []);
    }
  }

  lemma {:induction false} ReadArrives(inbox: Inbox, from: nat)
    requires InboxOk(inbox, from) && Readable(inbox)
    ensures InboxOk(Read(inbox), from) && Closed(Read(inbox)) == Closed(inbox)
    ensures Arriving(inbox) == [Decode(inbox[0].bytes).value] + Arriving(Read(inbox))
  {
    var c := inbox[0];
    FramedRest(c.bytes, c.cut);
    assert Read(inbox)[1..] == inbox[1..];
    Associative([Decode(c.bytes).value], ReceiveAll(Decode(c.bytes).rest), Arriving(inbox[1..]));
  }

  lemma FramedRest(bytes: seq<byte>, cut: bool)
    requires Framed(bytes, ReceiveAll(bytes), cut) && Decode(bytes).Ok?
    ensures var rest := Decode(bytes).rest; Framed(rest, ReceiveAll(rest), cut)
  {
    var ws := ReceiveAll(bytes);
    var partial := [];
    if cut {
      var next;
      next, partial :| CutFrame(next, partial) && bytes == EncodeAll(ws) + partial;
    } else {
      assert EncodeAll(ws) + [] == EncodeAll(ws);
    }
    var rest := EncodeAll(ws[1..]) + partial;
    Associative(Encode(ws[0]), EncodeAll(ws[1..]), partial);
    assert ws[0] in ws && forall w :: w in ws[1..] ==> w in ws;
    DecodeEncode(ws[0], rest);
  }

  lemma {:induction false} EndArrives(inbox: Inbox, from: nat)
    requires InboxOk(inbox, from) && AtEnd(inbox)
    ensures InboxOk(inbox[1..], from) && Arriving(inbox[1..]) == Arriving(inbox) && Closed(inbox[1..]) == Closed(inbox) - 1
  {
  }

  /** When there is neither a frame to read nor the end of a connection, nothing is on its way. */
  lemma {:induction false} NothingArrives(inbox: Inbox, from: nat)
    requires InboxOk(inbox, from) && !Readable(inbox) && !AtEnd(inbox)
    ensures Arriving(inbox) == []
  {
    if inbox != [] {
      assert inbox[1..] == [];
    }
  }
}
