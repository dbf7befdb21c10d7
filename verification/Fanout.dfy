/** Room broadcasts: how requests travel through the routines of a bucket, and what every
    channel is offered (connect/bucket.go, connect/rpc.go). */
module Fanout {
  import opened ChannelStream
  import opened IndexModel
  import opened RoundRobin

  // ---------------------------------------------------------------- each routine is a queue

  /** The requests a run puts on routine `i`, in order. */
  ghost function SentTo<C>(b: Bucket<C>, es: seq<Event<C>>, i: nat): seq<Request>
    requires Runs(b, es)
    decreases |es|
  {
    if es == [] then []
    else
      (if es[0].EBroadcast? && Turn(b) == i then [es[0].req] else [])
      + SentTo(Step(b, es[0]), es[1..], i)
  }

  /** The requests routine `i` handles in a run, in order. */
  ghost function HandledBy<C>(b: Bucket<C>, es: seq<Event<C>>, i: nat): seq<Request>
    requires Runs(b, es)
    decreases |es|
  {
    if es == [] then []
    else
      (if es[0].EHandle? && es[0].routine == i then [b.routines[i][0]] else [])
      + HandledBy(Step(b, es[0]), es[1..], i)
  }

  lemma RoutineStep<C>(b: Bucket<C>, e: Event<C>, i: nat)
    requires Known(b) && Enabled(b, e) && i < |b.routines|
    ensures |Step(b, e).routines| == |b.routines|
    ensures (if e.EHandle? && e.routine == i then [b.routines[i][0]] else []) + Step(b, e).routines[i]
         == b.routines[i] + (if e.EBroadcast? && Turn(b) == i then [e.req] else [])
  {
  }

  lemma Reassociate<T>(h: seq<T>, h': seq<T>, r: seq<T>, s: seq<T>, s': seq<T>, q: seq<T>, q': seq<T>)
    requires h' + r == q' + s' && h + q' == q + s
    ensures (h + h') + r == q + (s + s')
  {
    calc { (h + h') + r; h + (h' + r); h + (q' + s'); (h + q') + s'; q + (s + s'); }
  }

  /** In every run each routine handles, first in first out, exactly what was put on it. */
  lemma {:induction false} RoutineIsQueue<C>(b: Bucket<C>, es: seq<Event<C>>, i: nat)
    requires Runs(b, es) && i < |b.routines|
    ensures |After(b, es).routines| == |b.routines|
    ensures HandledBy(b, es, i) + After(b, es).routines[i] == b.routines[i] + SentTo(b, es, i)
    decreases |es|
  {
    if es != [] {
      hide Step, Known, Enabled;
      var b' := Step(b, es[0]);
      RoutineStep(b, es[0], i);
      RoutineIsQueue(b', es[1..], i);
      Reassociate(if es[0].EHandle? && es[0].routine == i then [b.routines[i][0]] else [],
        HandledBy(b', es[1..], i), After(b, es).routines[i],
        if es[0].EBroadcast? && Turn(b) == i then [es[0].req] else [],
        SentTo(b', es[1..], i), b.routines[i], b'.routines[i]);
    }
  }

  // ---------------------------------------------------------------- exactly once

  /** How many times `r` waits in a set of queues. */
  function Waiting(queues: seq<seq<Request>>, r: Request): nat {
    if queues == [] then 0 else Waiting(queues[..|queues| - 1], r) + multiset(queues[|queues| - 1])[r]
  }

  lemma {:induction false} WaitingUpdate(queues: seq<seq<Request>>, i: nat, q: seq<Request>, r: Request)
    requires i < |queues|
    ensures Waiting(queues[i := q], r) == Waiting(queues, r) - multiset(queues[i])[r] + multiset(q)[r]
    decreases |queues|
  {
    var n := |queues| - 1;
    var v := queues[i := q];
    if i < n {
      WaitingUpdate(queues[..n], i, q, r);
      assert v[..n] == queues[..n][i := q] && v[n] == queues[n];
    } else {
      assert v[..n] == queues[..n] && v[n] == q;
    }
  }

  ghost function Sent<C>(es: seq<Event<C>>, r: Request): nat {
    if es == [] then 0 else (if es[0] == EBroadcast(r) then 1 else 0) + Sent(es[1..], r)
  }

  ghost function HandledNow<C>(b: Bucket<C>, e: Event<C>, r: Request): nat
    requires Known(b) && Enabled(b, e)
  {
    if e.EHandle? && b.routines[e.routine][0] == r then 1 else 0
  }

  ghost function Handled<C>(b: Bucket<C>, es: seq<Event<C>>, r: Request): nat
    requires Runs(b, es)
    decreases |es|
  {
    if es == [] then 0 else HandledNow(b, es[0], r) + Handled(Step(b, es[0]), es[1..], r)
  }

  lemma StepConserves<C>(b: Bucket<C>, e: Event<C>, r: Request)
    requires Known(b) && Enabled(b, e)
    ensures Waiting(Step(b, e).routines, r) + HandledNow(b, e, r)
         == Waiting(b.routines, r) + (if e == EBroadcast(r) then 1 else 0)
  {
    hide Waiting;
    if e.EBroadcast? {
      WaitingUpdate(b.routines, Turn(b), b.routines[Turn(b)] + [e.req], r);
    } else if e.EHandle? {
      var q := b.routines[e.routine];
      assert q == [q[0]] + q[1..];
      assert multiset(q) == multiset{q[0]} + multiset(q[1..]);
      WaitingUpdate(b.routines, e.routine, q[1..], r);
    }
  }

  /** In every run each request of a bucket is either still waiting on a routine or was handled,
      as many times as it was sent: none is lost and none is doubled. */
  lemma {:induction false} ExactlyOnce<C>(b: Bucket<C>, es: seq<Event<C>>, r: Request)
    requires Runs(b, es)
    ensures Handled(b, es, r) + Waiting(After(b, es).routines, r) == Waiting(b.routines, r) + Sent(es, r)
    decreases |es|
  {
    if es != [] {
      hide Step, Known, Enabled, Waiting, HandledNow;
      StepConserves(b, es[0], r);
      ExactlyOnce(Step(b, es[0]), es[1..], r);
    }
  }

  // ---------------------------------------------------------------- what a channel is offered

  ghost function ReceivesAt<C>(b: Bucket<C>, e: Event<C>, c: C): seq<Msg>
    requires Known(b) && Enabled(b, e)
  {
    match e
    case EHandle(i) =>
      var r := b.routines[i][0];
      if c in Chain(b, r.roomId) then [r.msg] else []
    case EPush(user, m) => if user in b.users && b.users[user].ch == c then [m] else []
    case _ => []
  }

  ghost function Receives<C>(b: Bucket<C>, es: seq<Event<C>>, c: C): seq<Msg>
    requires Runs(b, es)
    decreases |es|
  {
    if es == [] then [] else ReceivesAt(b, es[0], c) + Receives(Step(b, es[0]), es[1..], c)
  }

  lemma HandleReceives<C>(b: Bucket<C>, i: nat, c: C)
    requires Inv(b) && i < |b.routines| && b.routines[i] != [] && c in b.streams
    ensures c in Handle(b, i).streams
    ensures Handle(b, i).streams[c].offered == b.streams[c].offered + ReceivesAt(b, EHandle(i), c)
  {
    var r := b.routines[i][0];
    assert r.roomId in b.rooms ==> NoRepeats(b.rooms[r.roomId]);
    OfferAllOnce(b.streams, Chain(b, r.roomId), r.msg);
    hide Inv, OfferAll, Chain;
  }

  lemma StepReceives<C>(b: Bucket<C>, e: Event<C>, c: C)
    requires Inv(b) && Enabled(b, e) && c in b.streams
    ensures c in Step(b, e).streams
    ensures Step(b, e).streams[c].offered == b.streams[c].offered + ReceivesAt(b, e, c)
  {
    if e.EHandle? { HandleReceives(b, e.routine, c); }
    hide Inv, PutFits, Handle, Sound, Leave;
  }

  /** Over any run a channel is offered, in order, one copy of every request handled while it was
      on that room's chain and of every message pushed to its user, and nothing else. */
  lemma {:induction false} RunReceives<C>(b: Bucket<C>, es: seq<Event<C>>, c: C)
    requires Inv(b) && Runs(b, es) && c in b.streams
    ensures c in After(b, es).streams
    ensures After(b, es).streams[c].offered == b.streams[c].offered + Receives(b, es, c)
    decreases |es|
  {
    if es != [] {
      var b' := Step(b, es[0]);
      StepReceives(b, es[0], c);
      StepKeeps(b, es[0]);
      hide Step, Known, Enabled, Inv, ReceivesAt;
      RunReceives(b', es[1..], c);
      Associate(b.streams[c].offered, ReceivesAt(b, es[0], c), Receives(b', es[1..], c));
    }
  }

  lemma Associate<T>(x: seq<T>, y: seq<T>, z: seq<T>)
    ensures (x + y) + z == x + (y + z)
  {
  }

  // ---------------------------------------------------------------- what gets through to a channel

  /** What a step does at a channel. */
  ghost function HeardAt<C>(b: Bucket<C>, e: Event<C>, c: C): seq<Traffic>
    requires Known(b) && Enabled(b, e)
  {
    if e == EWrite(c) then [Out]
    else if ReceivesAt(b, e, c) == [] then []
    else [In(ReceivesAt(b, e, c)[0])]
  }

  /** What a run does at a channel, in order. */
  ghost function Heard<C>(b: Bucket<C>, es: seq<Event<C>>, c: C): seq<Traffic>
    requires Runs(b, es)
    decreases |es|
  {
    if es == [] then [] else HeardAt(b, es[0], c) + Heard(Step(b, es[0]), es[1..], c)
  }

  /** At most one thing happens to the stream. */
  predicate Follows(s: Stream, t: seq<Traffic>, s': Stream) {
    if t == [] then s' == s else |t| == 1 && (t[0].Out? ==> s.queue != []) && s' == StepOf(s, t[0])
  }

  lemma StepHears<C>(b: Bucket<C>, e: Event<C>, c: C)
    requires Inv(b) && Enabled(b, e) && c in b.streams
    ensures c in Step(b, e).streams && Follows(b.streams[c], HeardAt(b, e, c), Step(b, e).streams[c])
    ensures Incoming(HeardAt(b, e, c)) == ReceivesAt(b, e, c)
  {
    StepMoves(b, e, c);
    Hears(b.streams[c], Step(b, e).streams[c], ReceivesAt(b, e, c), e == EWrite(c));
    hide Inv, Step, Enabled, Known, ReceivesAt, Offer, Take, Incoming, Follows;
  }

  lemma Hears(s: Stream, s': Stream, ms: seq<Msg>, written: bool)
    requires written ==> s.queue != [] && s' == Take(s) && ms == []
    requires !written ==> |ms| <= 1 && s' == if ms == [] then s else Offer(s, ms[0])
    ensures var t := if written then [Out] else if ms == [] then [] else [In(ms[0])];
      Follows(s, t, s') && Incoming(t) == ms
  {
    hide Offer, Take;
    var t := if written then [Out] else if ms == [] then [] else [In(ms[0])];
    if t != [] { assert t[1..] == []; }
  }

  /** A step offers a channel what it receives, or the writer takes, or nothing happens to it. */
  lemma StepMoves<C>(b: Bucket<C>, e: Event<C>, c: C)
    requires Inv(b) && Enabled(b, e) && c in b.streams
    ensures c in Step(b, e).streams
    ensures e == EWrite(c) ==>
      b.streams[c].queue != [] && Step(b, e).streams[c] == Take(b.streams[c]) && ReceivesAt(b, e, c) == []
    ensures e != EWrite(c) ==>
      var ms := ReceivesAt(b, e, c);
      |ms| <= 1 && Step(b, e).streams[c] == if ms == [] then b.streams[c] else Offer(b.streams[c], ms[0])
  {
    if e.EHandle? {
      HandleOffers(b, e.routine, c);
      hide Inv, Handle, Offer;
    } else {
      hide Inv, PutFits, Leave, OfferAll, Offer, Take, Sound;
    }
  }

  lemma HandleOffers<C>(b: Bucket<C>, i: nat, c: C)
    requires Inv(b) && i < |b.routines| && b.routines[i] != [] && c in b.streams
    ensures var r := b.routines[i][0];
      c in Handle(b, i).streams
      && Handle(b, i).streams[c] == if c in Chain(b, r.roomId) then Offer(b.streams[c], r.msg) else b.streams[c]
  {
    var r := b.routines[i][0];
    assert r.roomId in b.rooms ==> NoRepeats(b.rooms[r.roomId]);
    OfferAllOnce(b.streams, Chain(b, r.roomId), r.msg);
    hide Inv, OfferAll, Chain, Offer;
  }

  /** Over any run of a bucket a channel's queue does what its own traffic does to it, and the traffic
      brings what the channel is offered. */
  lemma {:induction false} RunHears<C>(b: Bucket<C>, es: seq<Event<C>>, c: C)
    requires Inv(b) && Runs(b, es) && c in b.streams
    ensures c in After(b, es).streams && |b.streams[c].queue| <= b.streams[c].size
    ensures var s, ts := b.streams[c], Heard(b, es, c);
      && Possible(s.size, |s.queue|, ts) && StreamAfter(s, ts) == After(b, es).streams[c]
      && Incoming(ts) == Receives(b, es, c)
    decreases |es|
  {
    SoundQueue(b, c);
    if es != [] {
      var b' := Step(b, es[0]);
      StepHears(b, es[0], c);
      StepKeeps(b, es[0]);
      hide Step, Known, Enabled, Inv, ReceivesAt, HeardAt, Follows;
      RunHears(b', es[1..], c);
      var t, ts := HeardAt(b, es[0], c), Heard(b', es[1..], c);
      HearsFirst(b.streams[c], b'.streams[c], t, ts);
      hide Possible, StreamAfter, Incoming;
      assert Heard(b, es, c) == t + ts;
    }
  }

  lemma {:induction false} OutIffWritten<C>(b: Bucket<C>, es: seq<Event<C>>, c: C)
    requires Runs(b, es)
    ensures Out in Heard(b, es, c) <==> EWrite(c) in es
    decreases |es|
  {
    if es != [] {
      OutIffWritten(Step(b, es[0]), es[1..], c);
      assert es == [es[0]] + es[1..];
      assert Out in HeardAt(b, es[0], c) <==> es[0] == EWrite(c);
      hide Step, Known, Enabled, HeardAt;
    }
  }

  lemma SoundQueue<C>(b: Bucket<C>, c: C)
    requires Inv(b) && c in b.streams
    ensures |b.streams[c].queue| <= b.streams[c].size
  {
    assert Sound(b.streams[c]);
  }

  lemma HearsFirst(s: Stream, s1: Stream, t: seq<Traffic>, ts: seq<Traffic>)
    requires |s.queue| <= s.size && |s1.queue| <= s1.size && Possible(s1.size, |s1.queue|, ts)
    requires Follows(s, t, s1)
    ensures Possible(s.size, |s.queue|, t + ts) && StreamAfter(s, t + ts) == StreamAfter(s1, ts)
    ensures Incoming(t + ts) == Incoming(t) + Incoming(ts)
  {
    if t == [] {
      assert t + ts == ts && Incoming([]) + Incoming(ts) == Incoming(ts);
    } else {
      assert (t + ts)[0] == t[0] && (t + ts)[1..] == ts && t[1..] == [];
      assert Incoming(t) == if t[0].In? then [t[0].msg] else [];
      StepQueue(s, t[0]);
      hide StepOf;
    }
  }

  /** Over any run exactly those of the offers get through to a channel that met a queue with room. */
  lemma RunThrough<C>(b: Bucket<C>, es: seq<Event<C>>, c: C)
    requires Inv(b) && Runs(b, es) && c in b.streams
    ensures c in After(b, es).streams
    ensures var s, ts := b.streams[c], Heard(b, es, c);
      && Incoming(ts) == Receives(b, es, c) && Possible(s.size, |s.queue|, ts)
      && Through(After(b, es).streams[c]) == Through(s) + Entering(s.size, |s.queue|, ts)
      && (Entering(s.size, |s.queue|, ts) == Receives(b, es, c) <==> RoomForAll(s.size, |s.queue|, ts))
  {
    RunHears(b, es, c);
    ThroughIsEntering(b.streams[c], Heard(b, es, c));
    hide After, Runs, Heard, Inv;
  }

  /** A run that offers one message, or none. */
  lemma OneThrough<C>(b: Bucket<C>, es: seq<Event<C>>, c: C)
    requires Inv(b) && Runs(b, es) && c in b.streams
    ensures c in After(b, es).streams
    ensures var s, s' := b.streams[c], After(b, es).streams[c];
      && (Receives(b, es, c) == [] ==> Through(s') == Through(s))
      && (|Receives(b, es, c)| == 1 ==> CameIn(s, s', Receives(b, es, c)[0], EWrite(c) !in es))
  {
    RunHears(b, es, c);
    OutIffWritten(b, es, c);
    var s, ts := b.streams[c], Heard(b, es, c);
    hide After, Runs, Heard, Receives, Inv;
    if Incoming(ts) == [] {
      ThroughIsEntering(s, ts);
      NoneEnters(s.size, |s.queue|, ts);
      assert Through(s) + [] == Through(s);
    } else if |Incoming(ts)| == 1 {
      OneComesIn(s, ts, Incoming(ts)[0]);
    }
  }

  // ---------------------------------------------------------------- stable membership

  /** Nobody joins or leaves. */
  ghost predicate Stable<C>(es: seq<Event<C>>) {
    forall e | e in es :: Stays(e)
  }

  predicate Stays<C>(e: Event<C>) { !e.EPut? && !e.EDelete? }

  function Times<T(==)>(s: seq<T>, x: T): nat { multiset(s)[x] }

  lemma StableRooms<C>(b: Bucket<C>, e: Event<C>)
    requires Known(b) && Enabled(b, e) && Stays(e)
    ensures Step(b, e).rooms == b.rooms && Step(b, e).users == b.users
  {
  }

  /** The message a step pushes to a channel's user alone. */
  ghost function PushedAt<C>(b: Bucket<C>, e: Event<C>, c: C): seq<Msg> {
    if e.EPush? && e.user in b.users && b.users[e.user].ch == c then [e.msg] else []
  }

  /** The messages a run pushes to a channel's user alone, in order. */
  ghost function Pushed<C>(b: Bucket<C>, es: seq<Event<C>>, c: C): seq<Msg>
    requires Runs(b, es)
    decreases |es|
  {
    if es == [] then [] else PushedAt(b, es[0], c) + Pushed(Step(b, es[0]), es[1..], c)
  }

  /** While nobody joins or leaves, being offered a message is having its request handled or its
      user pushed to. */
  lemma StableStep<C>(b: Bucket<C>, e: Event<C>, c: C, room: int, m: Msg)
    requires Inv(b) && Enabled(b, e) && c in Chain(b, room) && Stays(e)
    ensures Times(ReceivesAt(b, e, c), m) == HandledNow(b, e, Request(room, m)) + Times(PushedAt(b, e, c), m)
  {
    if e.EHandle? {
      var r := b.routines[e.routine][0];
      assert c in Chain(b, r.roomId) <==> r.roomId == room;
    }
  }

  lemma TimesBoth<T>(s: seq<T>, t: seq<T>, x: T)
    ensures Times(s + t, x) == Times(s, x) + Times(t, x)
  {
  }

  lemma {:induction false} StableRunReceives<C>(b: Bucket<C>, es: seq<Event<C>>, c: C, room: int, m: Msg)
    requires Inv(b) && Runs(b, es) && Stable(es) && c in Chain(b, room)
    ensures After(b, es).rooms == b.rooms
    ensures Times(Receives(b, es, c), m) == Handled(b, es, Request(room, m)) + Times(Pushed(b, es, c), m)
    decreases |es|
  {
    if es != [] {
      var b' := Step(b, es[0]);
      assert es[0] in es;
      StepKeeps(b, es[0]);
      StableStep(b, es[0], c, room, m);
      StableRooms(b, es[0]);
      TimesBoth(ReceivesAt(b, es[0], c), Receives(b', es[1..], c), m);
      TimesBoth(PushedAt(b, es[0], c), Pushed(b', es[1..], c), m);
      hide Step, Known, Enabled, Inv, ReceivesAt, HandledNow, PushedAt, Times;
      StableRunReceives(b', es[1..], c, room, m);
    }
  }

  /** While nobody joins or leaves, a channel of the room is offered exactly the messages sent to
      the room less those still waiting, and those pushed to its user alone; with the queues
      drained, one copy of every one. */
  lemma StableRunConserves<C>(b: Bucket<C>, es: seq<Event<C>>, c: C, room: int, m: Msg)
    requires Inv(b) && Runs(b, es) && Stable(es) && c in Chain(b, room)
    ensures var r := Request(room, m);
      Times(Receives(b, es, c), m) + Waiting(After(b, es).routines, r)
      == Waiting(b.routines, r) + Sent(es, r) + Times(Pushed(b, es, c), m)
  {
    StableRunReceives(b, es, c, room, m);
    ExactlyOnce(b, es, Request(room, m));
    hide *;
  }

  /** A channel on no chain of an addressed room hears what is pushed to its user and nothing else. */
  lemma {:induction false} OthersHearOnlyPushes<C>(b: Bucket<C>, es: seq<Event<C>>, c: C)
    requires Inv(b) && Runs(b, es) && Stable(es)
    requires forall q, r | q in b.routines && r in q :: c !in Chain(b, r.roomId)
    requires forall e | e in es && e.EBroadcast? :: c !in Chain(b, e.req.roomId)
    ensures Receives(b, es, c) == Pushed(b, es, c)
    decreases |es|
  {
    if es != [] {
      var b' := Step(b, es[0]);
      assert es[0] in es;
      StepKeeps(b, es[0]);
      StableRooms(b, es[0]);
      assert ReceivesAt(b, es[0], c) == PushedAt(b, es[0], c) by {
        if es[0].EHandle? { assert b.routines[es[0].routine] in b.routines; }
      }
      hide Inv, Step, Known, Enabled, ReceivesAt, PushedAt;
      forall q, r | q in b'.routines && r in q ensures c !in Chain(b', r.roomId) {
        QueuedStep(b, es[0], q, r);
      }
      OthersHearOnlyPushes(b', es[1..], c);
    }
  }

  lemma {:induction false} NonePushed<C>(b: Bucket<C>, es: seq<Event<C>>, c: C)
    requires Runs(b, es) && forall e | e in es :: !e.EPush?
    ensures Pushed(b, es, c) == []
    decreases |es|
  {
    if es != [] {
      assert es[0] in es;
      hide Step, Known, Enabled;
      NonePushed(Step(b, es[0]), es[1..], c);
    }
  }

  /** Whatever waits after a step waited before it, or was just sent. */
  lemma QueuedStep<C>(b: Bucket<C>, e: Event<C>, q: seq<Request>, r: Request)
    requires Known(b) && Enabled(b, e) && q in Step(b, e).routines && r in q
    ensures (exists p :: p in b.routines && r in p) || (e.EBroadcast? && r == e.req)
  {
    var i :| 0 <= i < |Step(b, e).routines| && Step(b, e).routines[i] == q;
    assert i < |b.routines| && b.routines[i] in b.routines;
    RoutineStep(b, e, i);
  }

  ghost predicate Drained<C>(b: Bucket<C>) {
    forall q | q in b.routines :: q == []
  }

  lemma {:induction false} NoneWaiting(queues: seq<seq<Request>>, r: Request)
    requires forall q | q in queues :: q == []
    ensures Waiting(queues, r) == 0
    decreases |queues|
  {
    if queues != [] {
      var n := |queues| - 1;
      assert queues[n] in queues;
      forall q | q in queues[..n] ensures q == [] { assert q in queues; }
      NoneWaiting(queues[..n], r);
    }
  }

  lemma {:induction false} NoneSent<C>(es: seq<Event<C>>, r: Request)
    requires forall e | e in es :: e.EHandle? || e.EWrite?
    ensures Sent(es, r) == 0
  {
    if es != [] {
      assert es[0] in es;
      NoneSent(es[1..], r);
    }
  }

  lemma OneWaiting(queues: seq<seq<Request>>, i: nat, r: Request, x: Request)
    requires i < |queues| && forall q | q in queues :: q == []
    ensures Waiting(queues[i := [r]], x) == if x == r then 1 else 0
  {
    NoneWaiting(queues, x);
    WaitingUpdate(queues, i, [r], x);
    assert queues[i] in queues;
  }

  /** From a bucket with nothing waiting, one broadcast and any drain: every channel on the room's
      chain is offered exactly that message, once, and no other channel anything. The message gets into the
      channel's queue if there is room when it comes. */
  lemma DrainOffersOnce<C>(b: Bucket<C>, r: Request, es: seq<Event<C>>, c: C)
    requires Inv(b) && b.routines != [] && Drained(b) && c in b.streams
    requires var b1 := Broadcast(b, r); Runs(b1, es) && Drained(After(b1, es))
    requires forall e | e in es :: e.EHandle? || e.EWrite?
    ensures var b2 := After(Broadcast(b, r), es);
      c in b2.streams
      && b2.streams[c].offered == b.streams[c].offered + (if c in Chain(b, r.roomId) then [r.msg] else [])
      && if c in Chain(b, r.roomId) then CameIn(b.streams[c], b2.streams[c], r.msg, EWrite(c) !in es)
         else Through(b2.streams[c]) == Through(b.streams[c])
  {
    var b1 := Broadcast(b, r);
    StepKeeps(b, EBroadcast(r));
    RunReceives(b1, es, c);
    OneThrough(b1, es, c);
    assert b.routines[Turn(b)] in b.routines;
    assert b.routines[Turn(b)] + [r] == [r];
    assert b1.routines == b.routines[Turn(b) := [r]];
    hide Broadcast, Inv, Turn, CameIn, Through;
    if c in Chain(b, r.roomId) {
      OnlyOneReceived(b1, b.routines, Turn(b), r, es, c);
    } else {
      assert Chain(b1, r.roomId) == Chain(b, r.roomId);
      NothingReceived(b1, b.routines, Turn(b), r, es, c);
    }
  }

  lemma OnlyOneReceived<C>(b: Bucket<C>, idle: seq<seq<Request>>, i: nat, r: Request, es: seq<Event<C>>, c: C)
    requires i < |idle| && (forall q | q in idle :: q == []) && b.routines == idle[i := [r]]
    requires Inv(b) && Runs(b, es) && Drained(After(b, es)) && c in Chain(b, r.roomId)
    requires forall e | e in es :: e.EHandle? || e.EWrite?
    ensures Receives(b, es, c) == [r.msg]
  {
    NonePushed(b, es, c);
    assert Stable(es);
    forall m ensures Times(Receives(b, es, c), m) == Times([r.msg], m) {
      StableRunConserves(b, es, c, r.roomId, m);
      NoneWaiting(After(b, es).routines, Request(r.roomId, m));
      NoneSent(es, Request(r.roomId, m));
      OneWaiting(idle, i, r, Request(r.roomId, m));
      hide Inv, Runs, Receives, Chain;
    }
    OnlyCopy(Receives(b, es, c), r.msg);
  }

  lemma NothingReceived<C>(b: Bucket<C>, idle: seq<seq<Request>>, i: nat, r: Request, es: seq<Event<C>>, c: C)
    requires i < |idle| && (forall q | q in idle :: q == []) && b.routines == idle[i := [r]]
    requires Inv(b) && Runs(b, es) && c !in Chain(b, r.roomId)
    requires forall e | e in es :: e.EHandle? || e.EWrite?
    ensures Receives(b, es, c) == []
  {
    NonePushed(b, es, c);
    forall q, x | q in b.routines && x in q ensures c !in Chain(b, x.roomId) {
      var j :| 0 <= j < |b.routines| && b.routines[j] == q;
      QueueAt(idle, i, r, j);
    }
    OthersHearOnlyPushes(b, es, c);
  }

  lemma QueueAt(idle: seq<seq<Request>>, i: nat, r: Request, j: nat)
    requires i < |idle| && j < |idle| && forall q | q in idle :: q == []
    ensures idle[i := [r]][j] == if j == i then [r] else []
  {
    assert idle[j] in idle;
  }

  lemma OnlyCopy(s: seq<Msg>, m: Msg)
    requires forall x :: Times(s, x) == Times([m], x)
    ensures s == [m]
  {
    forall x ensures multiset(s)[x] == multiset([m])[x] {
      assert Times(s, x) == Times([m], x);
    }
    assert multiset(s) == multiset{m};
    assert |s| == |multiset(s)|;
    if |s| == 1 {
      assert s == [s[0]];
      assert m in multiset(s);
    }
  }

  // ---------------------------------------------------------------- fairness of the routines

  ghost function Broadcasts<C>(es: seq<Event<C>>): nat {
    if es == [] then 0 else (if es[0].EBroadcast? then 1 else 0) + Broadcasts(es[1..])
  }

  lemma {:induction false} WrappedLoadTurns(start: nat, n: nat, w: nat, k: nat, x: nat)
    requires k > 0 && w > 0
    ensures WrappedLoad(start + w, n, w, k, x) == WrappedLoad(start, n, w, k, x)
  {
    if n > 0 {
      WrappedLoadTurns(start, n - 1, w, k, x);
      StepMod(start + n - 1, w);
      assert start + w + n - 1 == start + n - 1 + w;
    }
  }

  /** How many requests a run puts on a routine is how often the 64-bit counter comes to it. */
  lemma {:induction false} SentToIsLoad<C>(b: Bucket<C>, es: seq<Event<C>>, i: nat)
    requires Runs(b, es) && i < |b.routines| && b.turns < UINT64
    ensures |SentTo(b, es, i)| == WrappedLoad(b.turns + 1, Broadcasts(es), UINT64, |b.routines|, i)
    decreases |es|
  {
    if es != [] {
      var b' := Step(b, es[0]);
      RoutineStep(b, es[0], i);
      TurnsStep(b, es[0]);
      LoadOfStep(b, es[0], Broadcasts(es[1..]), i);
      assert |SentTo(b, es, i)| == (if es[0].EBroadcast? && Turn(b) == i then 1 else 0) + |SentTo(b', es[1..], i)|;
      hide Step, Known, Enabled, WrappedLoad, Turn, SentTo;
      SentToIsLoad(b', es[1..], i);
    }
  }

  /** A broadcast takes the first value of the counter; any other step takes none. */
  lemma LoadOfStep<C>(b: Bucket<C>, e: Event<C>, n: nat, i: nat)
    requires Known(b) && Enabled(b, e) && b.turns < UINT64 && b.routines != []
    ensures var k := |b.routines|;
      WrappedLoad(b.turns + 1, (if e.EBroadcast? then 1 else 0) + n, UINT64, k, i)
      == (if e.EBroadcast? && Turn(b) == i then 1 else 0) + WrappedLoad(Step(b, e).turns + 1, n, UINT64, k, i)
  {
    TurnsStep(b, e);
    hide Step, Enabled, WrappedLoad;
    if e.EBroadcast? { LoadFirst(b.turns, n, |b.routines|, i); }
  }

  /** The first value of the counter split off. */
  lemma LoadFirst(turns: nat, n: nat, k: nat, x: nat)
    requires turns < UINT64 && k > 0
    ensures WrappedLoad(turns + 1, 1 + n, UINT64, k, x)
         == (if (turns + 1) % UINT64 % k == x then 1 else 0)
            + WrappedLoad((if turns + 1 == UINT64 then 0 else turns + 1) + 1, n, UINT64, k, x)
  {
    WrappedLoadSplit(turns + 1, 1, n, UINT64, k, x);
    assert WrappedLoad(turns + 1, 0, UINT64, k, x) == 0;
    if turns + 1 == UINT64 { WrappedLoadTurns(1, n, UINT64, k, x); }
  }

  lemma TurnsStep<C>(b: Bucket<C>, e: Event<C>)
    requires Known(b) && Enabled(b, e) && b.turns < UINT64
    ensures Step(b, e).turns == if e.EBroadcast? then (if b.turns + 1 == UINT64 then 0 else b.turns + 1) else b.turns
  {
  }

  /** Over any run the numbers of requests two routines get differ by at most one, as long as the
      counter does not wrap, and even if it does when the number of routines divides 2^64. */
  lemma RoutinesFair<C>(b: Bucket<C>, es: seq<Event<C>>, i: nat, j: nat)
    requires Runs(b, es) && i < |b.routines| && j < |b.routines| && b.turns < UINT64
    requires b.turns + 1 + Broadcasts(es) <= UINT64 || UINT64 % |b.routines| == 0
    ensures |SentTo(b, es, i)| <= |SentTo(b, es, j)| + 1
  {
    SentToIsLoad(b, es, i);
    SentToIsLoad(b, es, j);
    var s, n, k := b.turns + 1, Broadcasts(es), |b.routines|;
    if s + n <= UINT64 {
      NoWrap(s, n, UINT64, k, i);
      NoWrap(s, n, UINT64, k, j);
    } else {
      WrapUnseen(s, n, UINT64, k, i);
      WrapUnseen(s, n, UINT64, k, j);
    }
    LoadsFair(s, n, k, i, j);
  }

  /** Exactly the divisors of 2^64 are numbers of routines that stay fair across the wrap. */
  lemma FairAcrossWrapIffDivides(routines: nat)
    requires 0 < routines < UINT64
    ensures FairAtEveryStretch(UINT64, routines) <==> UINT64 % routines == 0
  {
    FairIffDivides(UINT64, routines);
  }
}
