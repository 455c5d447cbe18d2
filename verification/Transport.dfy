/** The code that moves frames through memory: the sender's buffer, recv_all, the deserializer and
    the receive loop, each proved against the reference format of WireFormat. */
module Transport {
  import opened Basics
  import opened WireFormat

  // ---- Sending: one buffer filled through a moving pointer ----

  /** memcpy of `src` to `buf + at`. */
  method CopyTo(buf: array<byte>, at: nat, src: seq<byte>)
    requires at + |src| <= buf.Length
    modifies buf
    ensures buf[..at] == old(buf[..at])
    ensures buf[at..at + |src|] == src
    ensures buf[at + |src|..] == old(buf[at + |src|..])
  {
    for i := 0 to |src|
      invariant buf[..at] == old(buf[..at])
      invariant buf[at..at + i] == src[..i]
      invariant buf[at + |src|..] == old(buf[at + |src|..])
    {
      buf[at + i] := src[i];
      assert buf[at..at + i + 1] == buf[at..at + i] + [src[i]];
    }
  }

  /** Appends `src` at the moving pointer `p`, keeping what is already written. */
  method Append(buf: array<byte>, p: nat, src: seq<byte>) returns (p': nat)
    requires p + |src| <= buf.Length
    modifies buf
    ensures p' == p + |src|
    ensures buf[..p'] == old(buf[..p]) + src
  {
    CopyTo(buf, p, src);
    p' := p + |src|;
    assert buf[..p'] == buf[..p] + buf[p..p'];
  }

  /** send_warning_to's frame construction: every write lands inside the buffer, the buffer is
      filled exactly, and it holds the reference frame. */
  method BuildFrame(w: Warning) returns (buf: array<byte>)
    requires Sendable(w)
    ensures fresh(buf)
    ensures buf[..] == Encode(w)
  {
    buf := new byte[4 + |w.city| + 4 + |w.dest| + 4 + 8 + 8];
    var p := 0;
    p := Append(buf, p, InMemory(Htonl(|w.city|), 4));
    p := Append(buf, p, w.city);
    p := Append(buf, p, InMemory(Htonl(|w.dest|), 4));
    p := Append(buf, p, w.dest);
    p := Append(buf, p, InMemory(Htonl(w.kind), 4));
    p := Append(buf, p, InMemory(HostToNetwork64(w.value), 8));
    p := Append(buf, p, InMemory(HostToNetwork64(w.timestamp), 8));
    FrameInMemory(w);
    assert buf[..] == buf[..p];
  }

  lemma FrameInMemory(w: Warning)
    requires Sendable(w)
    ensures [] + InMemory(Htonl(|w.city|), 4) + w.city + InMemory(Htonl(|w.dest|), 4) + w.dest
            + InMemory(Htonl(w.kind), 4) + InMemory(HostToNetwork64(w.value), 8)
            + InMemory(HostToNetwork64(w.timestamp), 8) == Encode(w)
  {
    HtonlWritesNetworkOrder(|w.city|);
    HtonlWritesNetworkOrder(|w.dest|);
    HtonlWritesNetworkOrder(w.kind);
    HostToNetwork64WritesNetworkOrder(w.value);
    HostToNetwork64WritesNetworkOrder(w.timestamp);
    Regroup(BigEndian(|w.city|, 4), w.city, BigEndian(|w.dest|, 4), w.dest,
            BigEndian(w.kind, 4), BigEndian(w.value, 8), BigEndian(w.timestamp, 8));
  }

  lemma Regroup(a: seq<byte>, b: seq<byte>, c: seq<byte>, d: seq<byte>, e: seq<byte>, f: seq<byte>, g: seq<byte>)
    ensures [] + a + b + c + d + e + f + g == (a + b) + ((c + d) + (e + (f + g)))
  {
    Associative(a + b, c + d, e + (f + g));
    Associative(a + b + (c + d), e, f + g);
    Associative(a + b + (c + d) + e, f, g);
    Associative(a + b, c, d);
    assert [] + a == a;
  }

  // ---- Receiving: a byte stream cut into arbitrary chunks ----

  function Flatten(chunks: seq<seq<byte>>): seq<byte> {
    if chunks == [] then [] else chunks[0] + Flatten(chunks[1..])
  }

  /** A connected socket: the pieces that successive recv calls will find, then end of stream or
      an error, reported as `endCode`. */
  class Socket {
    var chunks: seq<seq<byte>>
    const endCode: int

    constructor (chunks: seq<seq<byte>>, endCode: int)
      requires endCode <= 0 && [] !in chunks
      ensures Valid() && this.chunks == chunks && this.endCode == endCode
    {
      this.chunks, this.endCode := chunks, endCode;
    }

    ghost predicate Valid()
      reads this
    {
      endCode <= 0 && [] !in chunks
    }

    ghost function Pending(): seq<byte>
      reads this
    {
      Flatten(chunks)
    }

    /** One recv call: some bytes, at least one and at most n, or the end code. */
    method Recv(n: nat) returns (r: int, data: seq<byte>)
      requires Valid() && n > 0
      modifies this
      ensures Valid()
      ensures r <= 0 ==> data == [] && r == endCode && Pending() == old(Pending()) == []
      ensures r > 0 ==> |data| == r <= n && old(Pending()) == data + Pending()
    {
      if chunks == [] {
        return endCode, [];
      }
      var first := chunks[0];
      assert first in chunks;
      if |first| <= n {
        data := first;
        chunks := chunks[1..];
      } else {
        data := first[..n];
        assert data + (first[n..] + Flatten(chunks[1..])) == first + Flatten(chunks[1..]);
        chunks := [first[n..]] + chunks[1..];
        assert chunks[1..] == old(chunks)[1..];
      }
      r := |data|;
    }
  }

  /** recv_all: whatever the chunking, it reads exactly n bytes when the stream still holds n, and
      otherwise reports failure at the end of the stream. A negative n (a length of 2^31 or more
      after the cast to int) reads nothing and returns 0. */
  method RecvAll(s: Socket, buf: array<byte>, n: int) returns (total: int)
    requires s.Valid() && n <= buf.Length
    modifies s, buf
    ensures s.Valid()
    ensures n < 0 ==> total == 0 && s.Pending() == old(s.Pending())
    ensures 0 <= n <= |old(s.Pending())| ==>
              total == n && buf[..n] == old(s.Pending())[..n] && s.Pending() == old(s.Pending())[n..]
    ensures |old(s.Pending())| < n ==> total <= 0 && s.Pending() == []
  {
    total := 0;
    ghost var all := s.Pending();
    while total < n
      invariant s.Valid()
      invariant 0 <= total && (n < 0 || total <= n)
      invariant n < 0 ==> total == 0
      invariant total <= |all|
      invariant total <= buf.Length && buf[..total] == all[..total]
      invariant s.Pending() == all[total..]
    {
      var r, data := s.Recv(n - total);
      if r <= 0 {
        return r;
      }
      assert all[..total] + data == all[..total + r];
      var _ := Append(buf, total, data);
      total := total + r;
    }
  }

  /** deserialize_warning: reading through memory and the host's conversions agrees with Decode on
      every stream and every chunking. */
  method DeserializeWarning(s: Socket) returns (w: Option<Warning>)
    requires s.Valid()
    modifies s
    ensures s.Valid()
    ensures w == match Decode(old(s.Pending())) case Fail => None case Ok(x, _) => Some(x)
    ensures w.Some? ==> s.Pending() == Decode(old(s.Pending())).rest
  {
    var city := ReadString(s);
    if city.None? { return None; }
    var dest := ReadString(s);
    if dest.None? { return None; }
    var kind := Read32(s);
    if kind.None? { return None; }
    var value := Read64(s);
    if value.None? { return None; }
    var timestamp := Read64(s);
    if timestamp.None? { return None; }
    w := Some(Warning(UpToNul(city.value), kind.value, value.value, timestamp.value, UpToNul(dest.value)));
  }

  method Read32(s: Socket) returns (x: Option<uint32>)
    requires s.Valid()
    modifies s
    ensures s.Valid()
    ensures x == match TakeUint(old(s.Pending()), 4) case Fail => None case Ok(v, _) => Some(v)
    ensures x.Some? ==> s.Pending() == TakeUint(old(s.Pending()), 4).rest
  {
    var buf := new byte[4];
    var r := RecvAll(s, buf, 4);
    if r != 4 { return None; }
    NtohlReadsNetworkOrder(buf[..4]);
    x := Some(Htonl(FromMemory(buf[..4])));
  }

  method Read64(s: Socket) returns (x: Option<uint64>)
    requires s.Valid()
    modifies s
    ensures s.Valid()
    ensures x == match TakeUint(old(s.Pending()), 8) case Fail => None case Ok(v, _) => Some(v)
    ensures x.Some? ==> s.Pending() == TakeUint(old(s.Pending()), 8).rest
  {
    var buf := new byte[8];
    var r := RecvAll(s, buf, 8);
    if r != 8 { return None; }
    NetworkToHost64ReadsNetworkOrder(buf[..8]);
    x := Some(NetworkToHost64(FromMemory(buf[..8])));
  }

  /** The cast of a 32-bit length to int. */
  function AsInt(x: uint32): int {
    if x < 0x8000_0000 then x else x - 0x1_0000_0000
  }

  method ReadString(s: Socket) returns (x: Option<seq<byte>>)
    requires s.Valid()
    modifies s
    ensures s.Valid()
    ensures x == match TakeString(old(s.Pending())) case Fail => None case Ok(v, _) => Some(v)
    ensures x.Some? ==> s.Pending() == TakeString(old(s.Pending())).rest
  {
    var len := Read32(s);
    if len.None? { return None; }
    var buf := new byte[len.value + 1];
    var r := RecvAll(s, buf, AsInt(len.value));
    if r != AsInt(len.value) { return None; }
    x := Some(buf[..len.value]);
  }

  /** The inner receive loop: over any chunking it hands on exactly the warnings of ReceiveAll. */
  method ReceiveLoop(s: Socket) returns (received: seq<Warning>)
    requires s.Valid()
    modifies s
    ensures received == ReceiveAll(old(s.Pending()))
  {
    received := [];
    ghost var all := s.Pending();
    var more := true;
    while more
      invariant s.Valid()
      invariant more ==> ReceiveAll(all) == received + ReceiveAll(s.Pending())
      invariant !more ==> ReceiveAll(all) == received
      decreases more, |s.Pending()|
    {
      ghost var before := s.Pending();
      var w := DeserializeWarning(s);
      if w.None? {
        more := false;
        assert ReceiveAll(before) == [];
      } else {
        DecodeRawExact(before);
        assert ReceiveAll(before) == [w.value] + ReceiveAll(s.Pending());
        received := received + [w.value];
      }
    }
  }

  /** The stream round trip at the level of the code: for any warnings, any trailing partial frame
      and any chunking of the bytes, the receive loop yields exactly those warnings, then stops. */
  method ReceiveStream(chunks: seq<seq<byte>>, endCode: int,
                       ghost ws: seq<Warning>, ghost next: Warning, ghost partial: seq<byte>)
    returns (received: seq<Warning>)
    requires endCode <= 0 && [] !in chunks
    requires forall w :: w in ws ==> Sendable(w)
    requires Sendable(next) && partial < Encode(next)
    requires Flatten(chunks) == EncodeAll(ws) + partial
    ensures received == ws
  {
    var s := new Socket(chunks, endCode);
    received := ReceiveLoop(s);
    StreamRoundTrip(ws, next, partial);
  }
}
