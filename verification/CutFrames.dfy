/** What a receiver makes of a frame that was cut short and followed by another frame on the same
    connection: it reads warnings that nobody sent completely, and loses ones that were. */
module CutFrames {
  import opened Basics
  import opened WireFormat

  /** The high byte of a string length is zero for every string shorter than 2^24. */
  lemma LengthStartsWithZero(n: nat)
    requires n < 0x100_0000
    ensures BigEndian(n, 4)[0] == 0
  {
    var n1, n2 := n / 0x100, n / 0x100 / 0x100;
    assert BigEndian(n, 4) == BigEndian(n1, 3) + [n % 0x100];
    assert BigEndian(n1, 3) == BigEndian(n2, 2) + [n1 % 0x100];
    assert BigEndian(n2, 2) == BigEndian(n2 / 0x100, 1) + [n2 % 0x100];
    assert BigEndian(n2 / 0x100, 1) == BigEndian(n2 / 0x100 / 0x100, 0) + [n2 / 0x100 % 0x100];
  }

  lemma FrameStartsWithZero(w: Warning)
    requires |w.city| < 0x100_0000
    ensures Encode(w)[0] == 0
  {
    LengthStartsWithZero(|w.city|);
    assert Encode(w)[0] == EncodeString(w.city)[0];
  }

  lemma FrameEndsWith(w: Warning)
    ensures Encode(w)[FrameSize(w) - 1] == w.timestamp % 0x100
  {
    var tail := BigEndian(w.value, 8) + BigEndian(w.timestamp, 8);
    assert tail[15] == BigEndian(w.timestamp, 8)[7];
    assert (BigEndian(w.kind, 4) + tail)[19] == tail[15];
    assert (EncodeString(w.dest) + (BigEndian(w.kind, 4) + tail))[4 + |w.dest| + 19] == tail[15];
  }

  /** The last byte of a is missing and b follows: the receiver reads a, and b's frame starts one byte
      short. */
  lemma CutBeforeLastByte(a: Warning, b: Warning)
    requires Sendable(a) && a.timestamp % 0x100 == 0 && |b.city| < 0x100_0000
    ensures Decode(Encode(a)[..FrameSize(a) - 1] + Encode(b)) == Ok(a, Encode(b)[1..])
  {
    var whole, first := Encode(a), Encode(b);
    FrameEndsWith(a);
    FrameStartsWithZero(b);
    assert whole == whole[..FrameSize(a) - 1] + [0];
    assert first == [0] + first[1..];
    Associative(whole[..FrameSize(a) - 1], [0], first[1..]);
    DecodeEncode(a, first[1..]);
  }

  /** No frame is shorter than 28 bytes. */
  lemma TooShort(s: seq<byte>)
    requires |s| < 28
    ensures Decode(s).Fail?
  {
    if DecodeRaw(s).Ok? {
      DecodeRawExact(s);
    }
  }

  /** Without its first byte a frame claims a city of more bytes than there are. */
  lemma ShiftedFails(w: Warning)
    requires 1 <= |w.city| == |w.dest| < 0x100_0000
    ensures Decode(Encode(w)[1..]).Fail?
  {
    var s, n, c := Encode(w)[1..], |w.city|, w.city[0];
    LengthStartsWithZero(n);
    var len := BigEndian(n, 4);
    assert s[..4] == len[1..] + [c] by {
      assert Encode(w)[..4] == EncodeString(w.city)[..4] == len;
      assert Encode(w)[4] == EncodeString(w.city)[4] == c;
    }
    assert FromBigEndian(s[..4]) == FromBigEndian(len[1..]) * 0x100 + c by {
      assert s[..4][..3] == len[1..];
    }
    assert FromBigEndian(len[1..]) == n by {
      assert len == [0 as byte] + len[1..];
      Pow256At4();
      BigEndianRoundTrip(n, 4);
      FromBigEndianFirst(0, len[1..]);
    }
    assert TakeNumber(s, 4) == Ok(n * 0x100 + c, s[4..]);
  }

  lemma {:induction false} UpToNulCut(s: seq<byte>, j: nat)
    requires j < |s| && s[j] == 0 && CString(s[..j])
    ensures UpToNul(s) == s[..j]
  {
    if j != 0 {
      assert s[0] == s[..j][0] && s[1..][..j - 1] == s[..j][1..];
      assert CString(s[1..][..j - 1]);
      UpToNulCut(s[1..], j - 1);
      assert s[..j] == [s[0]] + s[1..][..j - 1];
    }
  }

  /** The bytes of a frame up to byte j of its destination. */
  function UpToDest(a: Warning, j: nat): seq<byte>
    requires j <= |a.dest|
  {
    EncodeString(a.city) + (BigEndian(|a.dest|, 4) + a.dest[..j])
  }

  lemma UpToDestIsPrefix(a: Warning, j: nat)
    requires j <= |a.dest|
    ensures Encode(a)[..8 + |a.city| + j] == UpToDest(a, j)
  {
    var tail := BigEndian(a.kind, 4) + (BigEndian(a.value, 8) + BigEndian(a.timestamp, 8));
    var rest := EncodeString(a.dest) + tail;
    assert rest[..4 + j] == BigEndian(|a.dest|, 4) + a.dest[..j];
    assert Encode(a) == EncodeString(a.city) + rest;
  }

  /** What the receiver assembles when a is cut at byte j of its destination and b follows. */
  function Mixed(a: Warning, b: Warning, j: nat): Warning
    requires j < |a.dest| && |a.dest| - j + 20 <= FrameSize(b)
  {
    var m, s := |a.dest| - j, Encode(b);
    FromBigEndianRoundTrip(s[m..m + 4]); FromBigEndianRoundTrip(s[m + 4..m + 12]); FromBigEndianRoundTrip(s[m + 12..m + 20]);
    Pow256At4(); Pow256At8();
    Warning(a.city, FromBigEndian(s[m..m + 4]), FromBigEndian(s[m + 4..m + 12]), FromBigEndian(s[m + 12..m + 20]),
            a.dest[..j] + s[..m])
  }

  lemma Piece(s: seq<byte>, i: nat, j: nat)
    requires i <= j <= |s|
    ensures s[i..] == s[i..j] + s[j..]
  {
  }

  lemma Shift(a: seq<byte>, b: seq<byte>, c: seq<byte>, d: seq<byte>, e: seq<byte>)
    ensures (a + (b + c)) + (d + e) == a + ((b + (c + d)) + e)
  {
    Associative(a, b + c, d + e);
    Associative(b + c, d, e);
    Associative(b, c, d);
  }

  /** From byte m on, a frame read as the numbers of another one. */
  lemma MixedNumbers(a: Warning, b: Warning, j: nat)
    requires j < |a.dest| && |a.dest| - j + 20 <= FrameSize(b)
    ensures var m, s, w := |a.dest| - j, Encode(b), Mixed(a, b, j);
            s[m..] == BigEndian(w.kind, 4) + (BigEndian(w.value, 8) + (BigEndian(w.timestamp, 8) + s[m + 20..]))
  {
    var m, s := |a.dest| - j, Encode(b);
    FromBigEndianRoundTrip(s[m..m + 4]);
    FromBigEndianRoundTrip(s[m + 4..m + 12]);
    FromBigEndianRoundTrip(s[m + 12..m + 20]);
    Piece(s, m, m + 4);
    Piece(s, m + 4, m + 12);
    Piece(s, m + 12, m + 20);
  }

  lemma MixedDest(a: Warning, b: Warning, j: nat)
    requires j < |a.dest| && |a.dest| - j + 20 <= FrameSize(b)
    ensures EncodeString(Mixed(a, b, j).dest) == BigEndian(|a.dest|, 4) + (a.dest[..j] + Encode(b)[..|a.dest| - j])
  {
  }

  lemma MixedFrame(a: Warning, b: Warning, j: nat)
    requires j < |a.dest| && |a.dest| - j + 20 <= FrameSize(b)
    ensures UpToDest(a, j) + Encode(b) == Encode(Mixed(a, b, j)) + Encode(b)[|a.dest| - j + 20..]
  {
    var m, s, w := |a.dest| - j, Encode(b), Mixed(a, b, j);
    var city, len, known := EncodeString(a.city), BigEndian(|a.dest|, 4), a.dest[..j];
    assert UpToDest(a, j) + s == (city + (len + known)) + (s[..m] + s[m..]) by {
      assert s == s[..m] + s[m..];
    }
    Shift(city, len, known, s[..m], s[m..]);
    MixedDest(a, b, j);
    assert Encode(w) + s[m + 20..] == city + (EncodeString(w.dest) + s[m..]) by {
      MixedNumbers(a, b, j);
      FrameParts(w, s[m + 20..]);
    }
  }

  /** The frame of a is cut inside its destination and b follows: the receiver accepts a warning for the
      part of the destination that arrived. */
  lemma CutInsideDest(a: Warning, b: Warning, j: nat)
    requires Sendable(a) && |b.city| < 0x100_0000
    requires 0 < j < |a.dest| && |a.dest| - j + 20 <= FrameSize(b)
    ensures var r := Decode(Encode(a)[..8 + |a.city| + j] + Encode(b));
            && r.Ok? && r.value.city == a.city && r.value.dest == a.dest[..j]
            && r.rest == Encode(b)[|a.dest| - j + 20..]
  {
    var w := Mixed(a, b, j);
    UpToDestIsPrefix(a, j);
    MixedFrame(a, b, j);
    DecodeFrame(w, Encode(b)[|a.dest| - j + 20..]);
    FrameStartsWithZero(b);
    UpToNulCString(a.city);
    assert w.dest[..j] == a.dest[..j] && w.dest[j] == 0;
    assert CString(a.dest[..j]);
    UpToNulCut(w.dest, j);
  }
}
