/** Cutting a TCP byte stream back into frames: the split function of the read loop, driven by a
    buffered scanner that is handed the stream in arbitrary pieces (connect/server_tcp.go). */
module TcpScanner {
  import opened Words
  import opened StickPackage

  const MAX_TOKEN: nat := 65536

  datatype SplitResult = More | Token(advance: nat, token: Bytes) | Crash

  /** A frame is cut off the front once more than its header is buffered and its length is covered. */
  function Split(data: Bytes, atEOF: bool): SplitResult {
    if atEOF then More
    else if data == [] then Crash
    else if data[0] != 0x76 || |data| <= HEADER then More
    else
      var n := FromBigEndian(data[2], data[3]);
      if n > |data| then More
      else if n < 0 then Crash
      else Token(n, data[..n])
  }

  datatype ScanResult = Got(token: Bytes) | AtEnd | TooLong | Crashed | Stuck

  function Concat(chunks: seq<Bytes>): Bytes {
    if chunks == [] then [] else chunks[0] + Concat(chunks[1..])
  }

  /** One call of `Scan`: the result, the bytes still buffered, and the reads still to come. */
  function ScanOne(data: Bytes, chunks: seq<Bytes>): (ScanResult, Bytes, seq<Bytes>)
    decreases |chunks|
  {
    if data != [] && Split(data, false).Token? then
      var Token(n, t) := Split(data, false);
      (Got(t), data[n..], chunks)
    else if data != [] && Split(data, false).Crash? then (Crashed, data, chunks)
    else if |data| >= MAX_TOKEN then (TooLong, data, chunks)
    else if chunks == [] then (AtEnd, [], [])
    else ScanOne(data + chunks[0], chunks[1..])
  }

  class Scanner {
    var data: Bytes
    /** What successive reads of the connection will return; then the connection is at its end. */
    var chunks: seq<Bytes>

    constructor (chunks: seq<Bytes>)
      ensures data == [] && this.chunks == chunks
    {
      data := [];
      this.chunks := chunks;
    }

    method Scan() returns (r: ScanResult)
      modifies this
      ensures (r, data, chunks) == ScanOne(old(data), old(chunks))
    {
      while true
        invariant ScanOne(data, chunks) == ScanOne(old(data), old(chunks))
        decreases |chunks|
      {
        if data != [] {
          match Split(data, false)
          case Token(n, t) =>
            data := data[n..];
            return Got(t);
          case Crash => return Crashed;
          case More =>
        }
        if |data| >= MAX_TOKEN { return TooLong; }
        if chunks == [] {
          data := [];
          return AtEnd;
        }
        data, chunks := data + chunks[0], chunks[1..];
      }
    }

    /** The tokens of the loop that calls `Scan` until it fails. */
    method ScanTokens() returns (tokens: seq<Bytes>, last: ScanResult)
      modifies this
      ensures (tokens, last) == ScanAll(old(data), old(chunks))
    {
      tokens := [];
      ghost var (all, end) := ScanAll(data, chunks);
      while true
        invariant all == tokens + ScanAll(data, chunks).0 && end == ScanAll(data, chunks).1
        decreases |data| + |Concat(chunks)|
      {
        ScanOneShrinks(data, chunks);
        hide Split, ScanOne;
        var r := Scan();
        if !r.Got? {
          assert tokens + [] == tokens;
          return tokens, r;
        }
        if r.token == [] {
          assert tokens + [] == tokens;
          return tokens, Stuck;
        }
        ghost var more := ScanAll(data, chunks).0;
        assert tokens + ([r.token] + more) == (tokens + [r.token]) + more;
        tokens := tokens + [r.token];
      }
    }
  }

  lemma {:induction false} ScanOneShrinks(data: Bytes, chunks: seq<Bytes>)
    ensures var (r, data', chunks') := ScanOne(data, chunks);
      r.Got? ==> |data'| + |Concat(chunks')| + |r.token| == |data| + |Concat(chunks)|
    decreases |chunks|
  {
    if !(data != [] && !Split(data, false).More?) && |data| < MAX_TOKEN && chunks != [] {
      ScanOneShrinks(data + chunks[0], chunks[1..]);
    }
  }

  /** Every token until a scan fails, and how it failed. */
  function ScanAll(data: Bytes, chunks: seq<Bytes>): (seq<Bytes>, ScanResult)
    decreases |data| + |Concat(chunks)|
  {
    ScanOneShrinks(data, chunks);
    var (r, data', chunks') := ScanOne(data, chunks);
    if !r.Got? then ([], r)
    else if r.token == [] then ([], Stuck)
    else
      var (ts, last) := ScanAll(data', chunks');
      ([r.token] + ts, last)
  }

  // ---------------------------------------------------------------- the stream as a whole

  /** The frames cut off the front of a whole buffer, one after the other. */
  function Parse(data: Bytes): seq<Bytes> {
    if data == [] then []
    else
      match Split(data, false)
      case Token(n, t) => if n > 0 then [t] + Parse(data[n..]) else []
      case _ => []
  }

  /** How a scan of a whole buffer ends, once its frames have been cut off. */
  function Finish(data: Bytes): ScanResult {
    if data == [] then AtEnd
    else
      match Split(data, false)
      case More => if |data| >= MAX_TOKEN then TooLong else AtEnd
      case Crash => Crashed
      case Token(n, _) => if n > 0 then Finish(data[n..]) else Stuck
  }

  /** More bytes never change what was cut off or found unreadable; and whatever fills the
      scanner's buffer waits for ever. */
  lemma SplitIsStable(data: Bytes, more: Bytes)
    requires data != []
    ensures !Split(data, false).More? ==> Split(data + more, false) == Split(data, false)
    ensures Split(data, false).More? && |data| >= MAX_TOKEN ==> Split(data + more, false).More?
    ensures Split(data, false).Token? ==>
      var n := Split(data, false).advance; (data + more)[n..] == data[n..] + more
  {
    hide FromBigEndian;
    if |data| > HEADER {
      assert (data + more)[2] == data[2] && (data + more)[3] == data[3];
      if Split(data, false).Token? {
        var n := Split(data, false).advance;
        assert (data + more)[..n] == data[..n];
        assert (data + more)[n..] == data[n..] + more;
      }
    }
  }

  lemma {:induction false} ScanOneOfWhole(data: Bytes, chunks: seq<Bytes>)
    ensures var (r, data', chunks') := ScanOne(data, chunks);
      var all := data + Concat(chunks);
      if all == [] then r == AtEnd
      else
        match Split(all, false)
        case More => r == if |all| >= MAX_TOKEN then TooLong else AtEnd
        case Crash => r == Crashed
        case Token(n, t) => r == Got(t) && data' + Concat(chunks') == all[n..]
    decreases |chunks|
  {
    if data != [] {
      SplitIsStable(data, Concat(chunks));
    }
    hide Split;
    if data == [] || Split(data, false).More? {
      if |data| >= MAX_TOKEN {
      } else if chunks != [] {
        assert data + Concat(chunks) == (data + chunks[0]) + Concat(chunks[1..]);
        ScanOneOfWhole(data + chunks[0], chunks[1..]);
      } else {
        assert data + Concat(chunks) == data;
      }
    }
  }

  /** A scan takes the first frame of the whole. */
  lemma NextFrame(data: Bytes, chunks: seq<Bytes>)
    ensures var (r, data', chunks') := ScanOne(data, chunks);
      var (ts, ts') := (Parse(data + Concat(chunks)), Parse(data' + Concat(chunks')));
      var (end, end') := (Finish(data + Concat(chunks)), Finish(data' + Concat(chunks')));
      && (r.Got? && r.token != [] ==> ts == [r.token] + ts' && end == end')
      && (r.Got? && r.token == [] ==> ts == [] && end == Stuck)
      && (!r.Got? ==> ts == [] && end == r)
      && (r == AtEnd ==> ts' == [] && end' == AtEnd)
  {
    ScanOneOfWhole(data, chunks);
    ScanOneEnds(data, chunks);
    hide ScanOne, FromBigEndian;
    var (r, data', chunks') := ScanOne(data, chunks);
    if r == AtEnd { assert data' + Concat(chunks') == []; }
  }

  lemma {:induction false} ScanOneEnds(data: Bytes, chunks: seq<Bytes>)
    ensures var (r, data', chunks') := ScanOne(data, chunks); r == AtEnd ==> data' == [] && chunks' == []
    decreases |chunks|
  {
    if chunks != [] { ScanOneEnds(data + chunks[0], chunks[1..]); }
  }

  /** What a scan of a whole buffer does first, byte by byte. A frame is cut off the front if it begins with a
      'v', is there with more than its header, and says a length that is positive and all there; it may end the
      scan with an empty token or a panic; anything else waits, for ever or up to 64 KiB. */
  lemma FirstScan(data: Bytes)
    requires data != []
    ensures var framed := data[0] == 0x76 && |data| > 4;
      var n: int := if |data| > 4 then data[2] as int * 256 + data[3] as int else 0;
      && (framed && 0 < n < 0x8000 && n <= |data| ==>
            Parse(data) == [data[..n]] + Parse(data[n..]) && Finish(data) == Finish(data[n..]))
      && (framed && n == 0 ==> Parse(data) == [] && Finish(data) == Stuck)
      && (framed && n >= 0x8000 ==> Parse(data) == [] && Finish(data) == Crashed)
      && (!framed || |data| < n < 0x8000 ==> Parse(data) == [] && Finish(data) == if |data| >= 65536 then TooLong else AtEnd)
  {
    if |data| > 4 { FieldValue(data[2], data[3]); }
    hide FromBigEndian;
  }

  lemma FieldValue(hi: U8, lo: U8)
    ensures var n: int := hi as int * 256 + lo as int;
      FromBigEndian(hi, lo) as int == if n < 0x8000 then n else n - 0x1_0000
  {
  }

  /** However any stream is cut into reads, the scanner finds the frames of the whole, in order,
      and ends as the whole does. */
  lemma {:induction false} CutDoesNotMatter(data: Bytes, chunks: seq<Bytes>)
    ensures ScanAll(data, chunks) == (Parse(data + Concat(chunks)), Finish(data + Concat(chunks)))
    decreases |data| + |Concat(chunks)|
  {
    ScanOneOfWhole(data, chunks);
    ScanOneShrinks(data, chunks);
    var (r, data', chunks') := ScanOne(data, chunks);
    if r.Got? && r.token != [] {
      hide Split, ScanOne;
      CutDoesNotMatter(data', chunks');
    }
  }

  // ---------------------------------------------------------------- frames

  function Frames(ps: seq<Bytes>): Bytes {
    if ps == [] then [] else FrameOf(ps[0]) + Frames(ps[1..])
  }

  /** An empty payload's frame is no longer than a header, so it comes out only when another byte
      stands behind it. */
  function Delivered(ps: seq<Bytes>, tail: Bytes): seq<Bytes> {
    if ps != [] && ps[|ps| - 1] == [] && tail == [] then ps[..|ps| - 1] else ps
  }

  function Framed(ps: seq<Bytes>): seq<Bytes> {
    if ps == [] then [] else [FrameOf(ps[0])] + Framed(ps[1..])
  }

  predicate AllShort(ps: seq<Bytes>) { forall p | p in ps :: |p| <= MAX_PAYLOAD }

  /** A frame of which the end is missing. */
  ghost predicate Incomplete(tail: Bytes, q: Bytes) {
    |q| <= MAX_PAYLOAD && |tail| < |FrameOf(q)| && tail == FrameOf(q)[..|tail|]
  }

  lemma SplitFrame(p: Bytes, rest: Bytes)
    requires |p| <= MAX_PAYLOAD
    ensures |FrameOf(p)| == 4 + |p|
    ensures Split(FrameOf(p) + rest, false) ==
      if p == [] && rest == [] then More else Token(|FrameOf(p)|, FrameOf(p))
    ensures (FrameOf(p) + rest)[|FrameOf(p)|..] == rest && (FrameOf(p) + rest)[0] == 0x76
  {
    FrameParts(p, rest);
    ShortLength(p);
    hide FrameOf, FromBigEndian, PackageLength;
  }

  lemma SplitTail(tail: Bytes, q: Bytes)
    requires Incomplete(tail, q) && tail != []
    ensures Split(tail, false) == More && tail[0] == 0x76 && |tail| < MAX_TOKEN
  {
    FrameParts(q, []);
    assert FrameOf(q) + [] == FrameOf(q);
    ShortLength(q);
    hide FrameOf, FromBigEndian, PackageLength;
    assert tail[0] == FrameOf(q)[0];
    if |tail| > HEADER { assert tail[2] == FrameOf(q)[2] && tail[3] == FrameOf(q)[3]; }
  }

  lemma {:induction false} ParseFrames(ps: seq<Bytes>, tail: Bytes, q: Bytes)
    requires AllShort(ps) && Incomplete(tail, q)
    ensures Finish(Frames(ps) + tail) == AtEnd
    ensures Parse(Frames(ps) + tail) == Framed(Delivered(ps, tail))
    decreases |ps|
  {
    hide FrameOf, Incomplete, Split;
    if ps == [] {
      assert Frames(ps) + tail == tail;
      if tail != [] { SplitTail(tail, q); }
    } else {
      var rest := Frames(ps[1..]) + tail;
      assert Frames(ps) + tail == FrameOf(ps[0]) + rest;
      ParseFrames(ps[1..], tail, q);
      NothingBehind(ps[1..], tail);
      FrameFirst(ps[0], rest);
      DeliveredFirst(ps, tail);
      hide Frames, Delivered, Parse, Finish;
    }
  }

  /** A frame at the front is cut off, unless it is an empty payload's with nothing behind it. */
  lemma FrameFirst(p: Bytes, rest: Bytes)
    requires |p| <= MAX_PAYLOAD
    ensures Finish(FrameOf(p) + rest) == Finish(rest)
    ensures Parse(FrameOf(p) + rest) == if p == [] && rest == [] then [] else [FrameOf(p)] + Parse(rest)
  {
    SplitFrame(p, rest);
    hide FrameOf, Split;
    var data := FrameOf(p) + rest;
    assert data != [] && data[0] == 0x76;
  }

  /** A longer payload's frame never comes out as one. */
  lemma LongFrameNeverFirst(p: Bytes, rest: Bytes)
    requires |p| > MAX_PAYLOAD
    ensures !([FrameOf(p)] <= Parse(FrameOf(p) + rest))
  {
    FirstIsBounded(FrameOf(p) + rest);
    assert |FrameOf(p)| == 4 + |p| by { hide Parse, Split; }
    hide FrameOf, Parse;
  }

  lemma FirstIsBounded(data: Bytes)
    ensures Parse(data) != [] ==> |Parse(data)[0]| < 0x8000
  {
    hide FromBigEndian;
  }

  lemma SameFirst<T>(x: T, a: seq<T>, b: seq<T>)
    ensures [x] + a <= [x] + b <==> a <= b
  {
    assert ([x] + a)[1..] == a && ([x] + b)[1..] == b;
    if [x] + a <= [x] + b { assert a == b[..|a|] by { assert [x] + a == ([x] + b)[..|a| + 1]; } }
  }

  /** Of any payloads, with anything behind them, the scanner yields the frames in order if and
      only if none of them is longer than the length field can tell. */
  lemma FramesArriveIffShort(ps: seq<Bytes>, rest: Bytes, chunks: seq<Bytes>)
    requires Concat(chunks) == Frames(ps) + rest
    ensures Framed(Delivered(ps, rest)) <= ScanAll([], chunks).0 <==> AllShort(ps)
  {
    assert [] + Concat(chunks) == Concat(chunks);
    CutDoesNotMatter([], chunks);
    hide ScanAll, Parse, Framed, Delivered, Frames;
    ParsesIffShort(ps, rest);
  }

  lemma {:induction false} ParsesIffShort(ps: seq<Bytes>, rest: Bytes)
    ensures Framed(Delivered(ps, rest)) <= Parse(Frames(ps) + rest) <==> AllShort(ps)
  {
    hide FrameOf, Parse;
    if ps != [] {
      var behind := Frames(ps[1..]) + rest;
      assert Frames(ps) + rest == FrameOf(ps[0]) + behind;
      DeliveredFirst(ps, rest);
      NothingBehind(ps[1..], rest);
      ParsesIffShort(ps[1..], rest);
      hide Frames, Delivered, Framed;
      if ps[0] != [] || behind != [] {
        FirstIffShort(ps[0], behind, Framed(Delivered(ps[1..], rest)));
      }
      assert AllShort(ps) <==> |ps[0]| <= MAX_PAYLOAD && AllShort(ps[1..]) by { assert ps == [ps[0]] + ps[1..]; }
    }
  }

  lemma FirstIffShort(p: Bytes, behind: Bytes, later: seq<Bytes>)
    requires p != [] || behind != []
    ensures [FrameOf(p)] + later <= Parse(FrameOf(p) + behind) <==> |p| <= MAX_PAYLOAD && later <= Parse(behind)
  {
    if |p| <= MAX_PAYLOAD {
      FrameFirst(p, behind);
      hide FrameOf, Parse;
      SameFirst(FrameOf(p), later, Parse(behind));
    } else {
      LongFrameNeverFirst(p, behind);
      hide FrameOf, Parse;
    }
  }

  /** What stands behind some frames is scanned as if it stood alone. */
  lemma {:induction false} FramesFirst(ps: seq<Bytes>, rest: Bytes)
    requires AllShort(ps) && rest != []
    ensures Parse(Frames(ps) + rest) == Framed(ps) + Parse(rest)
    ensures Finish(Frames(ps) + rest) == Finish(rest)
  {
    hide FrameOf, Parse, Finish;
    if ps == [] {
      assert Frames(ps) + rest == rest;
    } else {
      var behind := Frames(ps[1..]) + rest;
      assert Frames(ps) + rest == FrameOf(ps[0]) + behind;
      assert ps[0] in ps;
      FramesFirst(ps[1..], rest);
      FrameFirst(ps[0], behind);
    }
  }

  lemma DeliveredFirst(ps: seq<Bytes>, tail: Bytes)
    requires ps != []
    ensures Framed(Delivered(ps, tail)) ==
      if ps == [[]] && tail == [] then [] else [FrameOf(ps[0])] + Framed(Delivered(ps[1..], tail))
  {
    hide FrameOf;
    if |ps| > 1 {
      assert Delivered(ps, tail) == [ps[0]] + Delivered(ps[1..], tail);
    }
  }

  lemma NothingBehind(ps: seq<Bytes>, tail: Bytes)
    ensures Frames(ps) + tail == [] <==> ps == [] && tail == []
  {
    if ps != [] { assert |FrameOf(ps[0])| >= 4; }
  }

  /** Every cutting of the frames of some payloads, with an unfinished frame behind them, yields
      exactly those frames in order and no error; each frame unpacks to its payload. A final
      frame with an empty payload is held back until another byte arrives. */
  lemma FramesArrive(ps: seq<Bytes>, tail: Bytes, q: Bytes, chunks: seq<Bytes>)
    requires AllShort(ps) && Incomplete(tail, q)
    requires Concat(chunks) == Frames(ps) + tail
    ensures ScanAll([], chunks) == (Framed(Delivered(ps, tail)), AtEnd)
    ensures |Framed(Delivered(ps, tail))| == |Delivered(ps, tail)|
    ensures forall i | 0 <= i < |Delivered(ps, tail)| ::
      var f := Framed(Delivered(ps, tail))[i];
      UnpackOutcome(f) == Unpacked && Payload(f) == Delivered(ps, tail)[i]
  {
    ParseFrames(ps, tail, q);
    assert [] + Concat(chunks) == Concat(chunks);
    CutDoesNotMatter([], chunks);
    hide ScanAll, Parse, Finish, UnpackOutcome;
    FramedAt(Delivered(ps, tail));
    forall i | 0 <= i < |Delivered(ps, tail)|
      ensures var f := FrameOf(Delivered(ps, tail)[i]);
        UnpackOutcome(f) == Unpacked && Payload(f) == Delivered(ps, tail)[i]
    {
      var p := Delivered(ps, tail)[i];
      UnpackFrame(p, []);
      assert FrameOf(p) + [] == FrameOf(p);
    }
  }

  lemma {:induction false} FramedAt(ps: seq<Bytes>)
    ensures |Framed(ps)| == |ps|
    ensures forall i | 0 <= i < |ps| :: Framed(ps)[i] == FrameOf(ps[i])
  {
    if ps != [] { FramedAt(ps[1..]); }
  }
}
