/** Frames on a TCP connection: version, big-endian 16-bit total length, payload
    (pkg/stickpackage/stickpackage.go). */
module StickPackage {
  import opened Words

  type I16 = x: int | -0x8000 <= x < 0x8000
  type Bytes = seq<U8>

  const VERSION: Bytes := [0x76, 0x31]  // "v1"
  const HEADER: nat := 4
  /** The longest payload whose frame length still fits 16 signed bits. */
  const MAX_PAYLOAD: nat := 32763

  /** Go's conversion to `int16`. */
  function ToI16(x: int): I16 { (x + 0x8000) % 0x1_0000 - 0x8000 }

  function BigEndian(x: I16): Bytes {
    var u := x % 0x1_0000;
    var hi: U8, lo: U8 := u / 0x100, u % 0x100;
    [hi, lo]
  }

  function FromBigEndian(hi: U8, lo: U8): I16 {
    var h: int := hi;
    ToI16(h * 0x100 + lo)
  }

  /** What is written for a package. */
  function Frame(version: Bytes, length: I16, msg: Bytes): Bytes {
    version + BigEndian(length) + msg
  }

  function PackageLength(msg: Bytes): I16 { ToI16(4 + ToI16(|msg|)) }

  /** The frame the connect layer sends for a payload. */
  function FrameOf(msg: Bytes): Bytes { Frame(VERSION, PackageLength(msg), msg) }

  datatype Outcome = Unpacked | ShortRead | Panicked

  class Writer {
    var out: Bytes

    method Write(b: Bytes)
      modifies this
      ensures out == old(out) + b
    {
      out := out + b;
    }
  }

  class Reader {
    var rest: Bytes

    constructor (rest: Bytes)
      ensures this.rest == rest
    {
      this.rest := rest;
    }

    /** Takes `n` bytes; with fewer left, takes what there is and fails. */
    method ReadFull(n: nat) returns (ok: bool, b: Bytes)
      modifies this
      ensures ok == (n <= |old(rest)|)
      ensures ok ==> b == old(rest)[..n] && rest == old(rest)[n..]
      ensures !ok ==> rest == []
    {
      ok := n <= |rest|;
      if ok {
        b, rest := rest[..n], rest[n..];
      } else {
        b, rest := rest, [];
      }
    }
  }

  class Package {
    var version: Bytes
    var length: I16
    var msg: Bytes

    constructor ()
      ensures version == [0, 0] && length == 0 && msg == []
    {
      version, length, msg := [0, 0], 0, [];
    }

    method GetPackageLength() returns (n: I16)
      modifies this`length
      ensures n == length == PackageLength(msg)
      ensures n as int == 4 + |msg| <==> |msg| <= MAX_PAYLOAD
    {
      LengthExactIffShort(msg);
      length := ToI16(4 + ToI16(|msg|));
      n := length;
    }

    method Pack(w: Writer)
      modifies w
      ensures w.out == old(w.out) + Frame(version, length, msg)
    {
      w.Write(version);
      w.Write(BigEndian(length));
      w.Write(msg);
    }

    /** Fills the package from a reader. Only the last read's error is reported; a length below
        the header's makes the allocation panic. A field that cannot be read keeps what it had. */
    method Unpack(r: Reader) returns (o: Outcome)
      modifies this, r
      ensures o == OutcomeFrom(old(r.rest), old(length))
      ensures |old(r.rest)| >= 4 ==> o == UnpackOutcome(old(r.rest))
      ensures |old(r.rest)| >= 4 && UnpackOutcome(old(r.rest)) == Unpacked ==>
        && version == old(r.rest)[..2] && msg == Payload(old(r.rest))
        && old(r.rest) == Frame(version, length, msg) + r.rest
      ensures |old(r.rest)| < 4 ==>
        length == old(length) && version == (if |old(r.rest)| >= 2 then old(r.rest)[..2] else old(version)) && r.rest == []
      ensures o == ShortRead ==> |msg| == SizeFrom(old(r.rest), old(length)) && forall i | 0 <= i < |msg| :: msg[i] == 0
    {
      ghost var before := r.rest;
      Announced(before, length);
      hide ToI16, FromBigEndian, BigEndian, Frame, Payload, SizeFrom, MsgSize, OutcomeFrom, UnpackOutcome;
      var ok, b := r.ReadFull(2);
      if ok { version := b; }
      ok, b := r.ReadFull(2);
      if ok { length := FromBigEndian(b[0], b[1]); }
      var n := ToI16(length - 4);
      if n < 0 { return Panicked; }
      msg := seq(n, _ => 0);
      ok, b := r.ReadFull(n);
      if !ok { return ShortRead; }
      msg := b;
      o := Unpacked;
      if |before| >= 4 {
        ReadBack(before, n);
        PayloadOf(before, n);
      }
    }
  }

  lemma ReadBack(data: Bytes, n: nat)
    requires 4 + n <= |data|
    ensures data == Frame(data[..2], FromBigEndian(data[2], data[3]), data[4..4 + n]) + data[4 + n..]
  {
    BigEndianBack(data[2], data[3]);
    hide FromBigEndian, BigEndian;
    assert data == data[..2] + data[2..4] + data[4..4 + n] + data[4 + n..];
  }

  /** The size `Unpack` allocates for the payload, in a package whose length was `was`. */
  function SizeFrom(data: Bytes, was: I16): I16 {
    ToI16((if |data| >= 4 then FromBigEndian(data[2], data[3]) else was) - 4)
  }

  function OutcomeFrom(data: Bytes, was: I16): Outcome {
    var n := SizeFrom(data, was);
    if n < 0 then Panicked
    else if n > 0 && |data| < 4 + n then ShortRead
    else Unpacked
  }

  lemma Announced(data: Bytes, was: I16)
    ensures |data| >= 4 ==> UnpackOutcome(data) == OutcomeFrom(data, was)
    ensures
      var n := ToI16((if |data| >= 4 then FromBigEndian(data[2], data[3]) else was) - 4);
      && n == SizeFrom(data, was)
      && (n < 0 ==> OutcomeFrom(data, was) == Panicked)
      && (n > 0 && |data| < 4 + n ==> OutcomeFrom(data, was) == ShortRead)
      && (n == 0 || (n > 0 && |data| >= 4 + n) ==> OutcomeFrom(data, was) == Unpacked)
  {
    hide ToI16, FromBigEndian;
  }

  /** What a new package makes of the data. */
  function MsgSize(data: Bytes): I16 { SizeFrom(data, 0) }

  function UnpackOutcome(data: Bytes): Outcome { OutcomeFrom(data, 0) }

  /** The payload of a readable frame. */
  function Payload(data: Bytes): Bytes
    requires UnpackOutcome(data) == Unpacked
  {
    data[4..4 + MsgSize(data)]
  }

  lemma PayloadOf(data: Bytes, n: nat)
    requires |data| >= 4 + n && ToI16(FromBigEndian(data[2], data[3]) - 4) == n
    ensures UnpackOutcome(data) == Unpacked && Payload(data) == data[4..4 + n]
  {
    hide ToI16, FromBigEndian;
  }

  // ---------------------------------------------------------------- laws

  lemma BigEndianBack(hi: U8, lo: U8)
    ensures BigEndian(FromBigEndian(hi, lo)) == [hi, lo]
  {
    var h: int, l: int := hi, lo;
    var u := h * 0x100 + l;
    assert ToI16(u) == if u < 0x8000 then u else u - 0x1_0000;
    assert ToI16(u) % 0x1_0000 == u;
    assert u / 0x100 == h && u % 0x100 == l;
  }

  lemma FromBigEndianBack(x: I16)
    ensures |BigEndian(x)| == 2 && FromBigEndian(BigEndian(x)[0], BigEndian(x)[1]) == x
  {
    var u: int := x % 0x1_0000;
    assert u == if x >= 0 then x else x + 0x1_0000;
    TwoBytes(u);
    Wraps(u, x);
    hide ToI16;
  }

  lemma TwoBytes(u: int)
    requires 0 <= u < 0x1_0000
    ensures 0 <= u / 0x100 < 0x100 && 0 <= u % 0x100 < 0x100 && (u / 0x100) * 0x100 + u % 0x100 == u
  {
  }

  /** A number that differs from one of 16 signed bits by nothing or by one wrap converts to it. */
  lemma Wraps(u: int, x: I16)
    requires u == x || u == x + 0x1_0000 || u == x - 0x1_0000
    ensures ToI16(u) == x
  {
  }

  lemma ToI16Small(x: int)
    requires -0x8000 <= x < 0x8000
    ensures ToI16(x) == x
  {
  }

  lemma ShortLength(msg: Bytes)
    requires |msg| <= MAX_PAYLOAD
    ensures PackageLength(msg) == 4 + |msg|
  {
    hide ToI16;
    ToI16Small(|msg|);
    ToI16Small(4 + |msg|);
  }

  /** The frame of a short payload byte by byte: "v1", the length of the whole with the high byte first, and
      the payload. */
  lemma FrameBytes(msg: Bytes)
    requires |msg| <= MAX_PAYLOAD
    ensures var f := FrameOf(msg);
      && |f| == 4 + |msg| && f[0] == 0x76 && f[1] == 0x31
      && f[2] as int * 256 + f[3] as int == |f| && f[4..] == msg
  {
    LengthExactIffShort(msg);
    var n: I16 := PackageLength(msg);
    hide PackageLength;
    assert n % 0x1_0000 == n;
  }

  /** The length field holds the frame's real length exactly when the payload is short enough. */
  lemma LengthExactIffShort(msg: Bytes)
    ensures PackageLength(msg) as int == |FrameOf(msg)| <==> |msg| <= MAX_PAYLOAD
  {
    if |msg| <= MAX_PAYLOAD { ShortLength(msg); }
    assert PackageLength(msg) <= 32767;
    assert |FrameOf(msg)| == 4 + |msg|;
    hide PackageLength;
  }

  lemma FrameParts(msg: Bytes, rest: Bytes)
    ensures var f := FrameOf(msg) + rest;
      && |FrameOf(msg)| == 4 + |msg| && f[0] == 0x76
      && FromBigEndian(f[2], f[3]) == PackageLength(msg)
      && f[4..4 + |msg|] == msg && f[4 + |msg|..] == rest && f[..4 + |msg|] == FrameOf(msg)
  {
    var len := BigEndian(PackageLength(msg));
    FromBigEndianBack(PackageLength(msg));
    hide BigEndian, FromBigEndian, PackageLength;
    var f := FrameOf(msg) + rest;
    assert f == VERSION + (len + (msg + rest));
    assert f[2] == len[0] && f[3] == len[1];
  }

  /** The four bytes added before the second conversion and taken off after it wrap back. */
  lemma SizeIsWrapped(n: nat)
    ensures ToI16(ToI16(4 + ToI16(n)) - 4) == ToI16(n)
  {
    var x: int := ToI16(n);
    Wraps(4 + x, if 4 + x < 0x8000 then 4 + x else 4 + x - 0x1_0000);
    Wraps(ToI16(4 + x) - 4, x);
    hide ToI16;
  }

  lemma SizeOfFrame(msg: Bytes, rest: Bytes)
    ensures MsgSize(FrameOf(msg) + rest) == ToI16(|msg|) && |FrameOf(msg) + rest| == 4 + |msg| + |rest|
    ensures (FrameOf(msg) + rest)[4..4 + |msg|] == msg
  {
    hide ToI16, FromBigEndian, FrameOf;
    FrameParts(msg, rest);
    SizeIsWrapped(|msg|);
    assert PackageLength(msg) == ToI16(4 + ToI16(|msg|));
    hide PackageLength;
  }

  /** Reading a frame restores the payload, whatever follows it, exactly when the payload's length fits
      16 signed bits: the length field may have wrapped, but taking the header off wraps it back. */
  lemma UnpackFrameIffFits(msg: Bytes, rest: Bytes)
    ensures UnpackOutcome(FrameOf(msg) + rest) == Unpacked && Payload(FrameOf(msg) + rest) == msg <==> |msg| < 0x8000
  {
    SizeOfFrame(msg, rest);
    if |msg| < 0x8000 { ToI16Small(|msg|); }
    hide ToI16, FrameOf, MsgSize;
  }

  lemma UnpackFrame(msg: Bytes, rest: Bytes)
    requires |msg| <= MAX_PAYLOAD
    ensures UnpackOutcome(FrameOf(msg) + rest) == Unpacked
    ensures Payload(FrameOf(msg) + rest) == msg
  {
    UnpackFrameIffFits(msg, rest);
    hide UnpackOutcome, FrameOf, Payload;
  }
}
