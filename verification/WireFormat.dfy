/** The frame that carries one warning between two processes, as bytes.

    A reference layer (`BigEndian`, `Encode`, `Decode`, `ReceiveAll`) says what the frame is;
    the little-endian host arithmetic of the program (`Htonl`, `HostToNetwork64`,
    `NetworkToHost64` and the memory image of an integer) is proved against it. */
module WireFormat {
  import opened Basics

  // ---- Numbers as bytes ----

  /** Network order: most significant byte first (Appendix B of RFC 791). */
  function BigEndian(x: nat, n: nat): (bs: seq<byte>)
    ensures |bs| == n
  {
    if n == 0 then [] else BigEndian(x / 0x100, n - 1) + [x % 0x100]
  }

  function FromBigEndian(bs: seq<byte>): nat {
    if bs == [] then 0 else FromBigEndian(bs[..|bs| - 1]) * 0x100 + bs[|bs| - 1]
  }

  /** The bytes of an n-byte integer in the memory of a little-endian host, lowest address first. */
  function InMemory(x: nat, n: nat): (bs: seq<byte>)
    ensures |bs| == n
  {
    if n == 0 then [] else [x % 0x100] + InMemory(x / 0x100, n - 1)
  }

  function FromMemory(bs: seq<byte>): nat {
    if bs == [] then 0 else bs[0] + 0x100 * FromMemory(bs[1..])
  }

  function Pow256(n: nat): (p: nat)
    ensures p > 0
  {
    if n == 0 then 1 else 0x100 * Pow256(n - 1)
  }

  lemma {:induction false} BigEndianRoundTrip(x: nat, n: nat)
    requires x < Pow256(n)
    ensures FromBigEndian(BigEndian(x, n)) == x
  {
    if n != 0 {
      BigEndianRoundTrip(x / 0x100, n - 1);
      assert BigEndian(x, n)[..n - 1] == BigEndian(x / 0x100, n - 1);
    }
  }

  lemma {:induction false} FromBigEndianRoundTrip(bs: seq<byte>)
    ensures FromBigEndian(bs) < Pow256(|bs|)
    ensures BigEndian(FromBigEndian(bs), |bs|) == bs
  {
    if bs != [] {
      FromBigEndianRoundTrip(bs[..|bs| - 1]);
      assert bs == bs[..|bs| - 1] + [bs[|bs| - 1]];
      assert FromBigEndian(bs) / 0x100 == FromBigEndian(bs[..|bs| - 1]);
    }
  }

  lemma {:induction false} FromMemoryInMemory(x: nat, n: nat)
    requires x < Pow256(n)
    ensures FromMemory(InMemory(x, n)) == x
  {
    if n != 0 {
      FromMemoryInMemory(x / 0x100, n - 1);
      assert InMemory(x, n)[1..] == InMemory(x / 0x100, n - 1);
    }
  }

  lemma {:induction false} BigEndianAppend(x: nat, y: nat, m: nat, n: nat)
    requires y < Pow256(n)
    ensures BigEndian(x * Pow256(n) + y, m + n) == BigEndian(x, m) + BigEndian(y, n)
  {
    if n != 0 {
      var z := x * Pow256(n) + y;
      assert x * Pow256(n) == 0x100 * (x * Pow256(n - 1));
      assert z / 0x100 == x * Pow256(n - 1) + y / 0x100 && z % 0x100 == y % 0x100;
      BigEndianAppend(x, y / 0x100, m, n - 1);
      assert m + n - 1 == m + (n - 1);
    }
  }

  lemma {:induction false} InMemoryAppend(x: nat, y: nat, m: nat, n: nat)
    requires y < Pow256(n)
    ensures InMemory(x * Pow256(n) + y, n + m) == InMemory(y, n) + InMemory(x, m)
  {
    if n != 0 {
      var z := x * Pow256(n) + y;
      assert x * Pow256(n) == 0x100 * (x * Pow256(n - 1));
      assert z / 0x100 == x * Pow256(n - 1) + y / 0x100 && z % 0x100 == y % 0x100;
      InMemoryAppend(x, y / 0x100, m, n - 1);
    }
  }

  lemma Pow256At4()
    ensures Pow256(4) == 0x1_0000_0000
  {
    assert Pow256(2) == 0x1_0000;
    assert Pow256(3) == 0x100 * Pow256(2);
  }

  lemma Pow256At8()
    ensures Pow256(8) == 0x1_0000_0000_0000_0000
  {
    Pow256At4();
    assert Pow256(6) == 0x100 * Pow256(5);
    assert Pow256(7) == 0x100 * Pow256(6);
  }

  // ---- The host's conversions ----

  /** An n-byte number with its bytes in the opposite order. */
  function Reversed(x: nat, n: nat): (y: nat)
    ensures y < Pow256(n)
  {
    if n == 0 then 0 else ReversedBound(x, n); x % 0x100 * Pow256(n - 1) + Reversed(x / 0x100, n - 1)
  }

  lemma ReversedBound(x: nat, n: nat)
    requires n > 0
    ensures x % 0x100 * Pow256(n - 1) <= 0xFF * Pow256(n - 1)
  {
    Scale(x % 0x100, 0xFF, Pow256(n - 1));
  }

  lemma Scale(a: nat, b: nat, c: nat)
    requires a <= b
    ensures a * c <= b * c
  {
    assert b * c == a * c + (b - a) * c;
  }

  /** htonl and ntohl on a little-endian host: both reverse the four bytes. */
  function Htonl(x: uint32): uint32 {
    Pow256At4(); Reversed(x, 4)
  }

  function HostToNetwork64(x: uint64): uint64 {
    var hi := Htonl(x / 0x1_0000_0000);
    var lo := Htonl(x % 0x1_0000_0000);
    lo * 0x1_0000_0000 + hi
  }

  function NetworkToHost64(x: uint64): uint64 {
    var hi := Htonl(x % 0x1_0000_0000);
    var lo := Htonl(x / 0x1_0000_0000);
    hi * 0x1_0000_0000 + lo
  }

  lemma {:induction false} ReversedLayout(x: nat, n: nat)
    ensures InMemory(Reversed(x, n), n) == BigEndian(x, n)
  {
    if n != 0 {
      ReversedLayout(x / 0x100, n - 1);
      InMemoryAppend(x % 0x100, Reversed(x / 0x100, n - 1), 1, n - 1);
      assert InMemory(x % 0x100, 1) == [x % 0x100] + InMemory(x % 0x100 / 0x100, 0);
      assert n - 1 + 1 == n;
    }
  }

  lemma {:induction false} FromBigEndianFirst(b: byte, bs: seq<byte>)
    ensures FromBigEndian([b] + bs) == b * Pow256(|bs|) + FromBigEndian(bs)
  {
    if bs == [] {
      assert ([b] + bs)[..0] == [];
    } else {
      var front := bs[..|bs| - 1];
      FromBigEndianFirst(b, front);
      assert ([b] + bs)[..|bs|] == [b] + front;
    }
  }

  lemma {:induction false} ReversedReads(x: nat, n: nat)
    ensures Reversed(x, n) == FromBigEndian(InMemory(x, n))
  {
    if n != 0 {
      ReversedReads(x / 0x100, n - 1);
      FromBigEndianFirst(x % 0x100, InMemory(x / 0x100, n - 1));
    }
  }

  lemma HtonlInvolution(x: uint32)
    ensures Htonl(Htonl(x)) == x
  {
    Pow256At4();
    ReversedReads(Reversed(x, 4), 4);
    ReversedLayout(x, 4);
    BigEndianRoundTrip(x, 4);
  }

  /** Storing `htonl(x)` in memory writes x in network order. */
  lemma HtonlWritesNetworkOrder(x: uint32)
    ensures InMemory(Htonl(x), 4) == BigEndian(x, 4)
  {
    ReversedLayout(x, 4);
  }

  /** Storing `host_to_network64(x)` in memory writes x in network order. */
  lemma HostToNetwork64WritesNetworkOrder(x: uint64)
    ensures InMemory(HostToNetwork64(x), 8) == BigEndian(x, 8)
  {
    Pow256At4();
    var hi, lo := x / 0x1_0000_0000, x % 0x1_0000_0000;
    HtonlWritesNetworkOrder(hi);
    HtonlWritesNetworkOrder(lo);
    InMemoryAppend(Htonl(lo), Htonl(hi), 4, 4);
    assert HostToNetwork64(x) == Htonl(lo) * Pow256(4) + Htonl(hi);
    BigEndianAppend(hi, lo, 4, 4);
    assert x == hi * Pow256(4) + lo;
  }

  /** The receiver's 64-bit conversion undoes the sender's. */
  lemma NetworkToHost64Inverse(x: uint64)
    ensures NetworkToHost64(HostToNetwork64(x)) == x
  {
    var hi, lo := x / 0x1_0000_0000, x % 0x1_0000_0000;
    HtonlInvolution(hi);
    HtonlInvolution(lo);
    Halves(Htonl(lo), Htonl(hi));
  }

  lemma Halves(hi: uint32, lo: uint32)
    ensures (hi * 0x1_0000_0000 + lo) / 0x1_0000_0000 == hi
    ensures (hi * 0x1_0000_0000 + lo) % 0x1_0000_0000 == lo
  {
  }

  /** Reading four received bytes through memory and ntohl yields their network-order value. */
  lemma NtohlReadsNetworkOrder(bs: seq<byte>)
    requires |bs| == 4
    ensures FromMemory(bs) < 0x1_0000_0000
    ensures Htonl(FromMemory(bs)) == FromBigEndian(bs)
  {
    Pow256At4();
    FromBigEndianRoundTrip(bs);
    var x := FromBigEndian(bs);
    HtonlWritesNetworkOrder(x);
    FromMemoryInMemory(Htonl(x), 4);
    HtonlInvolution(x);
  }

  /** The same for eight received bytes and network_to_host64. */
  lemma NetworkToHost64ReadsNetworkOrder(bs: seq<byte>)
    requires |bs| == 8
    ensures FromMemory(bs) < 0x1_0000_0000_0000_0000
    ensures NetworkToHost64(FromMemory(bs)) == FromBigEndian(bs)
  {
    Pow256At8();
    FromBigEndianRoundTrip(bs);
    var x := FromBigEndian(bs);
    HostToNetwork64WritesNetworkOrder(x);
    FromMemoryInMemory(HostToNetwork64(x), 8);
    NetworkToHost64Inverse(x);
  }

  // ---- Frames ----

  /** A warning; the `double` value is its 64-bit pattern, strings are without their terminator. */
  datatype Warning = Warning(city: seq<byte>, kind: uint32, value: uint64, timestamp: uint64, dest: seq<byte>)

  /** The part of a byte buffer that strlen and _strdup see. */
  function UpToNul(s: seq<byte>): seq<byte> {
    if s == [] || s[0] == 0 then [] else [s[0]] + UpToNul(s[1..])
  }

  predicate CString(s: seq<byte>) {
    forall i :: 0 <= i < |s| ==> s[i] != 0
  }

  lemma {:induction false} UpToNulCString(s: seq<byte>)
    ensures |UpToNul(s)| <= |s|
    ensures CString(UpToNul(s))
    ensures CString(s) <==> UpToNul(s) == s
  {
    if s != [] && s[0] != 0 {
      UpToNulCString(s[1..]);
      assert s == [s[0]] + s[1..];
      if CString(s) {
        forall i | 0 <= i < |s[1..]| ensures s[1..][i] != 0 { assert s[1..][i] == s[i + 1]; }
      }
    }
  }

  function FrameSize(w: Warning): nat {
    4 + |w.city| + 4 + |w.dest| + 4 + 8 + 8
  }

  /** Warnings the sender can put on the wire: C strings, and a size that survives the cast to int. */
  predicate Sendable(w: Warning) {
    CString(w.city) && CString(w.dest) && FrameSize(w) < 0x8000_0000
  }

  function EncodeString(x: seq<byte>): (bs: seq<byte>)
    ensures |bs| == 4 + |x|
  {
    BigEndian(|x|, 4) + x
  }

  /** The frame layout. */
  function Encode(w: Warning): (bs: seq<byte>)
    ensures |bs| == FrameSize(w)
  {
    EncodeString(w.city) + (EncodeString(w.dest)
    + (BigEndian(w.kind, 4) + (BigEndian(w.value, 8) + BigEndian(w.timestamp, 8))))
  }

  function EncodeAll(ws: seq<Warning>): seq<byte> {
    if ws == [] then [] else Encode(ws[0]) + EncodeAll(ws[1..])
  }

  /** Network order, byte by byte: the most significant byte comes first. */
  lemma NetworkOrder4(a: byte, b: byte, c: byte, d: byte)
    ensures BigEndian(((a * 0x100 + b) * 0x100 + c) * 0x100 + d, 4) == [a, b, c, d]
  {
    var x3 := a * 0x100 + b;
    var x2 := x3 * 0x100 + c;
    var x1 := x2 * 0x100 + d;
    assert x1 / 0x100 == x2 && x2 / 0x100 == x3 && x3 / 0x100 == a;
    assert BigEndian(x1, 4) == BigEndian(x2, 3) + [d];
    assert BigEndian(x2, 3) == BigEndian(x3, 2) + [c];
    assert BigEndian(x3, 2) == BigEndian(a, 1) + [b];
    assert BigEndian(a, 1) == BigEndian(0, 0) + [a];
  }

  /** Eight bytes are the high four, then the low four. */
  lemma NetworkOrder8(hi: uint32, lo: uint32)
    ensures BigEndian(hi * 0x1_0000_0000 + lo, 8) == BigEndian(hi, 4) + BigEndian(lo, 4)
  {
    Pow256At4();
    BigEndianAppend(hi, lo, 4, 4);
  }

  /** The memory of the host, byte by byte: the least significant byte has the lowest address. */
  lemma HostOrder4(a: byte, b: byte, c: byte, d: byte)
    ensures InMemory(((d * 0x100 + c) * 0x100 + b) * 0x100 + a, 4) == [a, b, c, d]
  {
    var x3 := d * 0x100 + c;
    var x2 := x3 * 0x100 + b;
    var x1 := x2 * 0x100 + a;
    assert x1 / 0x100 == x2 && x2 / 0x100 == x3 && x3 / 0x100 == d;
    assert InMemory(x1, 4) == [a] + InMemory(x2, 3);
    assert InMemory(x2, 3) == [b] + InMemory(x3, 2);
    assert InMemory(x3, 2) == [c] + InMemory(d, 1);
    assert InMemory(d, 1) == [d] + InMemory(0, 0);
  }

  lemma SliceBehind<T>(a: seq<T>, b: seq<T>, i: nat, j: nat)
    requires i <= j <= |b|
    ensures (a + b)[|a| + i..|a| + j] == b[i..j]
  {
  }

  /** Where each field of a frame lies. */
  lemma FrameLayout(w: Warning)
    ensures var e, c, d := Encode(w), |w.city|, |w.dest|;
            && |e| == 28 + c + d
            && e[..4] == BigEndian(c, 4) && e[4..4 + c] == w.city
            && e[4 + c..8 + c] == BigEndian(d, 4) && e[8 + c..8 + c + d] == w.dest
            && e[8 + c + d..12 + c + d] == BigEndian(w.kind, 4)
            && e[12 + c + d..20 + c + d] == BigEndian(w.value, 8)
            && e[20 + c + d..28 + c + d] == BigEndian(w.timestamp, 8)
  {
    var c, d := |w.city|, |w.dest|;
    var numbers := BigEndian(w.kind, 4) + (BigEndian(w.value, 8) + BigEndian(w.timestamp, 8));
    assert numbers[..4] == BigEndian(w.kind, 4) && numbers[4..12] == BigEndian(w.value, 8) && numbers[12..20] == BigEndian(w.timestamp, 8);
    var rest := EncodeString(w.dest) + numbers;
    assert rest[..4] == BigEndian(d, 4) && rest[4..4 + d] == w.dest;
    SliceBehind(EncodeString(w.dest), numbers, 0, 4);
    SliceBehind(EncodeString(w.dest), numbers, 4, 12);
    SliceBehind(EncodeString(w.dest), numbers, 12, 20);
    var first := EncodeString(w.city);
    assert first + rest == Encode(w) && (first + rest)[..4] == BigEndian(c, 4) && (first + rest)[4..4 + c] == w.city;
    SliceBehind(first, rest, 0, 4);
    SliceBehind(first, rest, 4, 4 + d);
    SliceBehind(first, rest, 4 + d, 8 + d);
    SliceBehind(first, rest, 8 + d, 16 + d);
    SliceBehind(first, rest, 16 + d, 24 + d);
  }

  /** The copy of a received string ends before its first zero byte. */
  lemma {:induction false} UpToNulLaw(s: seq<byte>)
    ensures var r := UpToNul(s); r <= s && (forall i :: 0 <= i < |r| ==> r[i] != 0) && (|r| < |s| ==> s[|r|] == 0)
  {
    if s != [] && s[0] != 0 {
      UpToNulLaw(s[1..]);
      var r := UpToNul(s[1..]);
      assert UpToNul(s) == [s[0]] + r && s == [s[0]] + s[1..];
    }
  }

  /** Outcome of reading from a finite stream: a value and the unread rest, or failure. */
  datatype Parsed<+T> = Fail | Ok(value: T, rest: seq<byte>) {
    predicate IsFailure() { Fail? }
    function PropagateFailure<U>(): Parsed<U> requires Fail? { Fail }
    function Extract(): (T, seq<byte>) requires Ok? { (value, rest) }
  }

  function Take(s: seq<byte>, n: nat): Parsed<seq<byte>> {
    if |s| < n then Fail else Ok(s[..n], s[n..])
  }

  function TakeNumber(s: seq<byte>, n: nat): Parsed<nat> {
    var (bs, rest) :- Take(s, n);
    Ok(FromBigEndian(bs), rest)
  }

  /** A length of 2^31 or more turns negative in the cast to int, and the read is refused. */
  function TakeString(s: seq<byte>): Parsed<seq<byte>> {
    var (len, rest) :- TakeNumber(s, 4);
    if len >= 0x8000_0000 then Fail else Take(rest, len)
  }

  function TakeUint(s: seq<byte>, n: nat): (r: Parsed<nat>)
    ensures r.Ok? ==> r.value < Pow256(n)
    ensures r == TakeNumber(s, n)
  {
    if n <= |s| then FromBigEndianRoundTrip(s[..n]); TakeNumber(s, n) else Fail
  }

  /** The fields of one frame as received, before warning_create copies the strings. */
  function DecodeRaw(s: seq<byte>): Parsed<Warning> {
    var (city, s1) :- TakeString(s);
    var (dest, s2) :- TakeString(s1);
    var (kind, s3) :- TakeUint(s2, 4);
    var (value, s4) :- TakeUint(s3, 8);
    var (timestamp, s5) :- TakeUint(s4, 8);
    Pow256At4(); Pow256At8();
    Ok(Warning(city, kind, value, timestamp, dest), s5)
  }

  /** warning_create copies C strings, so a received zero byte cuts the string short. */
  function CopyStrings(w: Warning): Warning {
    w.(city := UpToNul(w.city), dest := UpToNul(w.dest))
  }

  function Decode(s: seq<byte>): Parsed<Warning> {
    var (raw, rest) :- DecodeRaw(s);
    Ok(CopyStrings(raw), rest)
  }

  lemma TakeStringExact(s: seq<byte>)
    requires TakeString(s).Ok?
    ensures var r := TakeString(s); s == EncodeString(r.value) + r.rest && |r.value| < 0x8000_0000
  {
    TakeUintExact(s, 4);
    var x, y := TakeString(s).value, TakeString(s).rest;
    assert TakeUint(s, 4).rest == x + y;
    Associative(BigEndian(|x|, 4), x, y);
  }

  lemma TakeUintExact(s: seq<byte>, n: nat)
    requires TakeUint(s, n).Ok?
    ensures s == BigEndian(TakeUint(s, n).value, n) + TakeUint(s, n).rest
  {
    FromBigEndianRoundTrip(s[..n]);
  }

  /** Whatever the reader accepts is exactly the frame of the fields it read. */
  lemma DecodeRawExact(s: seq<byte>)
    requires DecodeRaw(s).Ok?
    ensures s == Encode(DecodeRaw(s).value) + DecodeRaw(s).rest
    ensures |DecodeRaw(s).value.city| < 0x8000_0000 && |DecodeRaw(s).value.dest| < 0x8000_0000
  {
    TakeStringExact(s);
    var s1 := TakeString(s).rest;
    TakeStringExact(s1);
    var s2 := TakeString(s1).rest;
    TakeUintExact(s2, 4);
    var s3 := TakeUint(s2, 4).rest;
    TakeUintExact(s3, 8);
    var s4 := TakeUint(s3, 8).rest;
    TakeUintExact(s4, 8);
    var w, rest := DecodeRaw(s).value, DecodeRaw(s).rest;
    FrameParts(w, rest);
  }

  lemma FrameParts(w: Warning, rest: seq<byte>)
    ensures Encode(w) + rest
         == EncodeString(w.city) + (EncodeString(w.dest)
          + (BigEndian(w.kind, 4) + (BigEndian(w.value, 8) + (BigEndian(w.timestamp, 8) + rest))))
  {
    Associative(BigEndian(w.value, 8), BigEndian(w.timestamp, 8), rest);
    var s4 := BigEndian(w.value, 8) + BigEndian(w.timestamp, 8);
    Associative(BigEndian(w.kind, 4), s4, rest);
    var s3 := BigEndian(w.kind, 4) + s4;
    Associative(EncodeString(w.dest), s3, rest);
    Associative(EncodeString(w.city), EncodeString(w.dest) + s3, rest);
  }

  /** Re-encoding a received warning reproduces the bytes read exactly when neither string held
      a zero byte. */
  lemma ReencodeIffNoNul(s: seq<byte>)
    requires DecodeRaw(s).Ok?
    ensures var raw, r := DecodeRaw(s).value, Decode(s);
            s == Encode(r.value) + r.rest <==> CString(raw.city) && CString(raw.dest)
  {
    var raw := DecodeRaw(s).value;
    DecodeRawExact(s);
    UpToNulCString(raw.city);
    UpToNulCString(raw.dest);
    if s == Encode(Decode(s).value) + Decode(s).rest {
      assert FrameSize(raw) == FrameSize(Decode(s).value);
      DecodeFrame(raw, Decode(s).rest);
      DecodeFrame(Decode(s).value, Decode(s).rest);
    }
  }

  lemma TakeStringFrame(x: seq<byte>, rest: seq<byte>)
    requires |x| < 0x8000_0000
    ensures TakeString(EncodeString(x) + rest) == Ok(x, rest)
  {
    Pow256At4();
    Associative(BigEndian(|x|, 4), x, rest);
    TakeUintFrame(|x|, 4, x + rest);
    assert Take(x + rest, |x|) == Ok(x, rest);
  }

  lemma TakeUintFrame(x: nat, n: nat, rest: seq<byte>)
    requires x < Pow256(n)
    ensures TakeUint(BigEndian(x, n) + rest, n) == Ok(x, rest)
  {
    var s := BigEndian(x, n) + rest;
    BigEndianRoundTrip(x, n);
    assert s[..n] == BigEndian(x, n) && s[n..] == rest;
  }

  /** Reading a frame yields its fields and leaves what follows untouched. */
  lemma DecodeFrame(w: Warning, rest: seq<byte>)
    requires |w.city| < 0x8000_0000 && |w.dest| < 0x8000_0000
    ensures DecodeRaw(Encode(w) + rest) == Ok(w, rest)
  {
    Pow256At4();
    Pow256At8();
    var s5 := BigEndian(w.timestamp, 8) + rest;
    var s4 := BigEndian(w.value, 8) + s5;
    var s3 := BigEndian(w.kind, 4) + s4;
    var s2 := EncodeString(w.dest) + s3;
    FrameParts(w, rest);
    TakeStringFrame(w.city, s2);
    TakeStringFrame(w.dest, s3);
    TakeUintFrame(w.kind, 4, s4);
    TakeUintFrame(w.value, 8, s5);
    TakeUintFrame(w.timestamp, 8, rest);
  }

  /** Round trip of one frame. */
  lemma DecodeEncode(w: Warning, rest: seq<byte>)
    requires Sendable(w)
    ensures Decode(Encode(w) + rest) == Ok(w, rest)
  {
    DecodeFrame(w, rest);
    UpToNulCString(w.city);
    UpToNulCString(w.dest);
  }

  /** What follows an accepted frame does not change what was read. */
  lemma DecodeRawExtends(s: seq<byte>, more: seq<byte>)
    requires DecodeRaw(s).Ok?
    ensures DecodeRaw(s + more) == Ok(DecodeRaw(s).value, DecodeRaw(s).rest + more)
  {
    var raw, rest := DecodeRaw(s).value, DecodeRaw(s).rest;
    DecodeRawExact(s);
    Associative(Encode(raw), rest, more);
    DecodeFrame(raw, rest + more);
  }

  /** No proper prefix of a frame is accepted. */
  lemma DecodePartialFails(w: Warning, partial: seq<byte>)
    requires Sendable(w) && partial < Encode(w)
    ensures Decode(partial).Fail?
  {
    if DecodeRaw(partial).Ok? {
      var missing := Encode(w)[|partial|..];
      assert partial + missing == Encode(w) + [];
      DecodeRawExtends(partial, missing);
      DecodeFrame(w, []);
    }
  }

  // ---- Streams of frames ----

  /** The warnings the receive loop reads from a finite stream before its first failure. */
  function ReceiveAll(s: seq<byte>): seq<Warning> {
    match Decode(s)
    case Fail => []
    case Ok(w, rest) => DecodeRawExact(s); [w] + ReceiveAll(rest)
  }

  /** Stream round trip: a receiver gets exactly the complete frames, in order, and drops a
      trailing partial frame. */
  lemma {:induction false} StreamRoundTrip(ws: seq<Warning>, next: Warning, partial: seq<byte>)
    requires forall w :: w in ws ==> Sendable(w)
    requires Sendable(next) && partial < Encode(next)
    ensures ReceiveAll(EncodeAll(ws) + partial) == ws
  {
    if ws == [] {
      assert EncodeAll(ws) + partial == partial;
      DecodePartialFails(next, partial);
    } else {
      var rest := EncodeAll(ws[1..]) + partial;
      Associative(Encode(ws[0]), EncodeAll(ws[1..]), partial);
      DecodeEncode(ws[0], rest);
      StreamRoundTrip(ws[1..], next, partial);
    }
  }

  lemma {:induction false} EncodeAllAppend(ws: seq<Warning>, w: Warning)
    ensures EncodeAll(ws + [w]) == EncodeAll(ws) + Encode(w)
  {
    if ws == [] {
      assert ws + [w] == [w];
    } else {
      EncodeAllAppend(ws[1..], w);
      assert (ws + [w])[1..] == ws[1..] + [w];
      Associative(Encode(ws[0]), EncodeAll(ws[1..]), Encode(w));
    }
  }

  /** What a chain of propagators makes of a stream: each one receives and re-sends it. */
  function Relay(s: seq<byte>, hops: nat): seq<byte>
    decreases hops
  {
    if hops == 0 then s else Relay(EncodeAll(ReceiveAll(s)), hops - 1)
  }

  /** Relay invariance: through any number of propagators every field of every complete warning
      arrives unchanged. */
  lemma {:induction false} RelayInvariance(ws: seq<Warning>, next: Warning, partial: seq<byte>, hops: nat)
    requires forall w :: w in ws ==> Sendable(w)
    requires Sendable(next) && partial < Encode(next)
    ensures ReceiveAll(Relay(EncodeAll(ws) + partial, hops)) == ws
    decreases hops
  {
    StreamRoundTrip(ws, next, partial);
    if hops != 0 {
      assert EncodeAll(ws) + [] == EncodeAll(ws);
      RelayInvariance(ws, next, [], hops - 1);
    }
  }
}
