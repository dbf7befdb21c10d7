/** What a channel's bounded queue does to the messages pushed at it (connect/channel.go). */
module ChannelStream {

  datatype Msg = Msg(ver: int, op: int, seqId: string, body: string)

  /** `queue` waits for the writer; `offered` and `delivered` are the histories of the two ends. */
  datatype Stream = Stream(size: nat, queue: seq<Msg>, offered: seq<Msg>, delivered: seq<Msg>)

  const NO_STREAM := Stream(0, [], [], [])

  /** A push never waits: a full queue drops the message. */
  function Offer(s: Stream, m: Msg): Stream {
    s.(offered := s.offered + [m], queue := if |s.queue| < s.size then s.queue + [m] else s.queue)
  }

  function Take(s: Stream): Stream
    requires s.queue != []
  {
    s.(delivered := s.delivered + [s.queue[0]], queue := s.queue[1..])
  }

  /** `a` is `b` with some elements left out. */
  predicate Subsequence<T(==)>(a: seq<T>, b: seq<T>) {
    if a == [] then true
    else if b == [] then false
    else if a[|a| - 1] == b[|b| - 1] && Subsequence(a[..|a| - 1], b[..|b| - 1]) then true
    else Subsequence(a, b[..|b| - 1])
  }

  /** The queue keeps to its capacity, and what has left it or waits in it was offered in that order. */
  predicate Sound(s: Stream) {
    |s.queue| <= s.size && Subsequence(s.delivered + s.queue, s.offered)
  }

  lemma SubsequenceGrows<T>(a: seq<T>, b: seq<T>, x: T)
    requires Subsequence(a, b)
    ensures Subsequence(a, b + [x]) && Subsequence(a + [x], b + [x])
  {
    assert (b + [x])[..|b|] == b && (a + [x])[..|a|] == a;
  }

  lemma OfferSound(s: Stream, m: Msg)
    requires Sound(s)
    ensures Sound(Offer(s, m))
  {
    SubsequenceGrows(s.delivered + s.queue, s.offered, m);
    assert s.delivered + (s.queue + [m]) == s.delivered + s.queue + [m];
  }

  lemma TakeSound(s: Stream)
    requires Sound(s) && s.queue != []
    ensures Sound(Take(s))
  {
    assert s.delivered + [s.queue[0]] + s.queue[1..] == s.delivered + s.queue;
  }

  /** The writer's stream alone is an ordered part of the offers. */
  lemma DeliveredInOrder(s: Stream)
    requires Sound(s)
    ensures Subsequence(s.delivered, s.offered)
  {
    DropSuffix(s.delivered, s.queue, s.offered);
  }

  lemma {:induction false} DropSuffix<T>(a: seq<T>, c: seq<T>, b: seq<T>)
    requires Subsequence(a + c, b)
    ensures Subsequence(a, b)
    decreases |b|, |c|
  {
    if c == [] {
      assert a + c == a;
    } else {
      var d := a + c;
      assert d[..|d| - 1] == a + c[..|c| - 1];
      var b' := b[..|b| - 1];
      var shorter := d[|d| - 1] == b[|b| - 1] && Subsequence(d[..|d| - 1], b');
      assert !shorter ==> Subsequence(d, b');
      hide Subsequence;
      if shorter {
        DropSuffix(a, c[..|c| - 1], b');
      } else {
        DropSuffix(a, c, b');
      }
      SubsequenceGrows(a, b', b[|b| - 1]);
      assert b' + [b[|b| - 1]] == b;
    }
  }

  // ---------------------------------------------------------------- what gets through

  /** Everything that got into the queue, delivered or waiting. */
  function Through(s: Stream): seq<Msg> { s.delivered + s.queue }

  /** One message at most came to the channel on the way from `s` to `s'`. With room in the queue at the start
      it got through; with the writer at rest, only then. */
  predicate CameIn(s: Stream, s': Stream, m: Msg, atRest: bool) {
    && s'.offered == s.offered + [m]
    && (Through(s') == Through(s) + [m] || Through(s') == Through(s))
    && (|s.queue| < s.size ==> Through(s') == Through(s) + [m])
    && (atRest && Through(s') == Through(s) + [m] ==> |s.queue| < s.size)
  }

  /** What happens at a channel: a push, or the writer takes a message. */
  datatype Traffic = In(msg: Msg) | Out

  /** The writer takes only from a queue that holds something; `n` wait, of at most `size`. */
  predicate Possible(size: nat, n: nat, es: seq<Traffic>)
    decreases |es|
  {
    es == [] ||
    match es[0]
    case In(_) => Possible(size, if n < size then n + 1 else n, es[1..])
    case Out => n > 0 && Possible(size, n - 1, es[1..])
  }

  /** The messages pushed while fewer than `size` wait, in order. */
  function Entering(size: nat, n: nat, es: seq<Traffic>): seq<Msg>
    requires Possible(size, n, es)
    decreases |es|
  {
    if es == [] then []
    else
      match es[0]
      case In(m) => if n < size then [m] + Entering(size, n + 1, es[1..]) else Entering(size, n, es[1..])
      case Out => Entering(size, n - 1, es[1..])
  }

  function Incoming(es: seq<Traffic>): seq<Msg> {
    if es == [] then [] else (if es[0].In? then [es[0].msg] else []) + Incoming(es[1..])
  }

  /** No push meets a full queue. */
  predicate RoomForAll(size: nat, n: nat, es: seq<Traffic>)
    requires Possible(size, n, es)
    decreases |es|
  {
    es == [] ||
    match es[0]
    case In(_) => n < size && RoomForAll(size, n + 1, es[1..])
    case Out => RoomForAll(size, n - 1, es[1..])
  }

  function StepOf(s: Stream, e: Traffic): Stream
    requires e.Out? ==> s.queue != []
  {
    match e
    case In(m) => Offer(s, m)
    case Out => Take(s)
  }

  lemma StepQueue(s: Stream, e: Traffic)
    requires e.Out? ==> s.queue != []
    ensures StepOf(s, e).size == s.size
    ensures |StepOf(s, e).queue| == if e.Out? then |s.queue| - 1 else if |s.queue| < s.size then |s.queue| + 1 else |s.queue|
  {
  }

  function StreamAfter(s: Stream, es: seq<Traffic>): Stream
    requires |s.queue| <= s.size && Possible(s.size, |s.queue|, es)
    decreases |es|
  {
    if es == [] then s else StreamAfter(StepOf(s, es[0]), es[1..])
  }

  /** A push gets through exactly when the queue is not full. */
  lemma OfferGetsIn(s: Stream, m: Msg)
    ensures Through(Offer(s, m)) == Through(s) + (if |s.queue| < s.size then [m] else [])
    ensures Offer(s, m).size == s.size && Offer(s, m).offered == s.offered + [m] && Offer(s, m).delivered == s.delivered
  {
    assert s.delivered + (s.queue + [m]) == s.delivered + s.queue + [m];
    assert s.delivered + s.queue + [] == s.delivered + s.queue;
  }

  lemma TakeMoves(s: Stream)
    requires s.queue != []
    ensures Through(Take(s)) == Through(s) && Take(s).size == s.size && Take(s).offered == s.offered
    ensures |Take(s).queue| == |s.queue| - 1 && Take(s).delivered == s.delivered + [s.queue[0]]
  {
    assert s.delivered + [s.queue[0]] + s.queue[1..] == s.delivered + s.queue;
  }

  /** Over any run of pushes and receives exactly those messages get through that were pushed while the
      queue was not full, in order; all of them, if and only if it never was. */
  lemma {:induction false} ThroughIsEntering(s: Stream, es: seq<Traffic>)
    requires |s.queue| <= s.size && Possible(s.size, |s.queue|, es)
    ensures var s' := StreamAfter(s, es);
      && Through(s') == Through(s) + Entering(s.size, |s.queue|, es)
      && s'.offered == s.offered + Incoming(es) && s'.size == s.size
    ensures Entering(s.size, |s.queue|, es) == Incoming(es) <==> RoomForAll(s.size, |s.queue|, es)
    decreases |es|
  {
    EnteringCounts(s.size, |s.queue|, es);
    if es == [] {
      assert Through(s) + [] == Through(s) && s.offered + [] == s.offered;
    } else {
      var s1 := StepOf(s, es[0]);
      FirstGetsIn(s, es[0]);
      StepQueue(s, es[0]);
      hide Through, StepOf, RoomForAll;
      ThroughIsEntering(s1, es[1..]);
      var later := Entering(s1.size, |s1.queue|, es[1..]);
      Appended(Through(s), if es[0].In? && |s.queue| < s.size then [es[0].msg] else [], later);
      Appended(s.offered, if es[0].In? then [es[0].msg] else [], Incoming(es[1..]));
    }
  }

  lemma FirstGetsIn(s: Stream, e: Traffic)
    requires e.Out? ==> s.queue != []
    ensures Through(StepOf(s, e)) == Through(s) + (if e.In? && |s.queue| < s.size then [e.msg] else [])
    ensures StepOf(s, e).offered == s.offered + (if e.In? then [e.msg] else [])
  {
    if e.In? {
      OfferGetsIn(s, e.msg);
    } else {
      TakeMoves(s);
      assert Through(s) + [] == Through(s) && s.offered + [] == s.offered;
    }
    hide Offer, Take, Through;
  }

  lemma Appended<T>(a: seq<T>, b: seq<T>, c: seq<T>)
    ensures (a + b) + c == a + (b + c) && [] + c == c
  {
  }

  lemma {:induction false} EnteringCounts(size: nat, n: nat, es: seq<Traffic>)
    requires Possible(size, n, es)
    ensures |Entering(size, n, es)| <= |Incoming(es)|
    ensures |Entering(size, n, es)| == |Incoming(es)| <==> RoomForAll(size, n, es)
    ensures RoomForAll(size, n, es) ==> Entering(size, n, es) == Incoming(es)
    decreases |es|
  {
    if es != [] {
      match es[0]
      case In(_) => EnteringCounts(size, if n < size then n + 1 else n, es[1..]);
      case Out => EnteringCounts(size, n - 1, es[1..]);
    }
  }

  /** A run that brings one message. */
  lemma OneComesIn(s: Stream, es: seq<Traffic>, m: Msg)
    requires |s.queue| <= s.size && Possible(s.size, |s.queue|, es) && Incoming(es) == [m]
    ensures CameIn(s, StreamAfter(s, es), m, Out !in es)
  {
    ThroughIsEntering(s, es);
    EnteringOne(s.size, |s.queue|, es, m);
    hide StreamAfter, Entering, Possible;
    assert Through(s) + [] == Through(s);
    assert |Through(s) + [m]| == |Through(s)| + 1;
  }

  lemma {:induction false} EnteringOne(size: nat, n: nat, es: seq<Traffic>, m: Msg)
    requires n <= size && Possible(size, n, es) && Incoming(es) == [m]
    ensures Entering(size, n, es) == [m] || Entering(size, n, es) == []
    ensures n < size ==> Entering(size, n, es) == [m]
    ensures Out !in es && n >= size ==> Entering(size, n, es) == []
    decreases |es|
  {
    match es[0]
    case In(_) =>
      NoneEnters(size, if n < size then n + 1 else n, es[1..]);
    case Out =>
      assert Out in es;
      EnteringOne(size, n - 1, es[1..], m);
  }

  lemma {:induction false} NoneEnters(size: nat, n: nat, es: seq<Traffic>)
    requires Possible(size, n, es) && Incoming(es) == []
    ensures Entering(size, n, es) == []
    decreases |es|
  {
    if es != [] { NoneEnters(size, if es[0].Out? then n - 1 else n, es[1..]); }
  }
}
