/** A server: many buckets, each user's channel in the one the hash of the user id picks
    (connect/server.go, connect/rpc.go). The laws say that all of them together behave like one
    plain map from user id to channel. */
module ServerModel {
  import opened ChannelStream
  import opened IndexModel
  import opened Words
  import CityHash32
  import Text
  import Fanout

  type Server<C(==)> = seq<Bucket<C>>

  /** The bucket that owns a user: the city hash of the printed id, modulo the number of buckets. */
  function Owner(user: int, buckets: nat): (i: nat)
    requires buckets > 0
    ensures i < buckets
  {
    var s := Text.DecimalBytes(user);
    CityHash32.Hash32(s, |s| % 0x1_0000_0000) % buckets
  }

  ghost predicate ServerInv<C>(s: Server<C>) {
    && s != []
    && (forall i | 0 <= i < |s| :: Inv(s[i]))
    && (forall i, u | 0 <= i < |s| && u in s[i].users :: Owner(u, |s|) == i)
    && (forall i, j | 0 <= i < |s| && 0 <= j < |s| && i != j :: s[i].streams.Keys !! s[j].streams.Keys)
  }

  datatype ServerEvent<C> =
    | SPut(user: int, room: int, ch: C, stream: Stream, was: int)
    | SDelete(user: int)
    | SPush(user: int, msg: Msg)
    | SPushRoom(req: Request)
    | SLocal(bucket: nat, event: Event<C>)

  /** `stream` and `was` are what the channel holds; one that no bucket knows is new. */
  ghost predicate ServerHolds<C>(s: Server<C>, ch: C, stream: Stream, was: int) {
    && Sound(stream)
    && (forall i | 0 <= i < |s| :: Holds(s[i], ch, stream, was))
    && ((forall i | 0 <= i < |s| :: ch !in s[i].streams) ==> was == NO_ROOM)
  }

  /** A put fits the owner's bucket, and the channel is idle in every other. */
  ghost predicate ServerFits<C>(s: Server<C>, user: int, room: int, ch: C, was: int)
    requires s != []
  {
    && PutFits(s[Owner(user, |s|)], user, room, ch, was)
    && (forall i | 0 <= i < |s| && i != Owner(user, |s|) :: Idle(s[i], ch))
  }

  ghost function ServerPut<C>(s: Server<C>, user: int, room: int, ch: C, stream: Stream, was: int): Server<C>
    requires s != []
  {
    var o := Owner(user, |s|);
    Forgotten(s, o, ch)[o := Put(s[o], user, room, ch, stream, was)]
  }

  /** All buckets but one with an idle channel forgotten. */
  ghost function Forgotten<C>(s: Server<C>, o: nat, ch: C): (s': Server<C>)
    requires o < |s|
    ensures |s'| == |s|
  {
    seq(|s|, i requires 0 <= i < |s| => if i == o then s[i] else Forget(s[i], ch))
  }

  /** Routines and writers work inside one bucket. */
  ghost predicate ServerEnabled<C>(s: Server<C>, e: ServerEvent<C>)
    requires s != []
  {
    match e
    case SPut(user, room, ch, stream, was) => ServerHolds(s, ch, stream, was) && ServerFits(s, user, room, ch, was)
    case SDelete(_) => true
    case SPush(_, _) => true
    case SPushRoom(_) => forall i | 0 <= i < |s| :: s[i].routines != []
    case SLocal(i, ev) => i < |s| && (ev.EHandle? || ev.EWrite?) && Enabled(s[i], ev)
  }

  ghost function BroadcastAll<C>(s: Server<C>, r: Request): Server<C>
    requires forall i | 0 <= i < |s| :: s[i].routines != []
  {
    seq(|s|, i requires 0 <= i < |s| => Broadcast(s[i], r))
  }

  ghost function ServerStep<C>(s: Server<C>, e: ServerEvent<C>): Server<C>
    requires s != [] && (forall i | 0 <= i < |s| :: Known(s[i])) && ServerEnabled(s, e)
  {
    match e
    case SPut(user, room, ch, stream, was) => ServerPut(s, user, room, ch, stream, was)
    case SDelete(user) =>
      var o := Owner(user, |s|);
      s[o := Delete(s[o], user)]
    case SPush(user, m) =>
      var o := Owner(user, |s|);
      s[o := PushOne(s[o], user, m)]
    case SPushRoom(r) => BroadcastAll(s, r)
    case SLocal(i, ev) => s[i := Step(s[i], ev)]
  }

  /** The registrations of all buckets together. */
  function Flat<C(==)>(s: Server<C>): map<int, Entry<C>> {
    if s == [] then map[] else Flat(s[..|s| - 1]) + s[|s| - 1].users
  }

  /** What one plain map of registrations would do. */
  function PlainStep<C(==)>(users: map<int, Entry<C>>, e: ServerEvent<C>): map<int, Entry<C>> {
    match e
    case SPut(user, room, ch, _, was) => users[user := Entry(ch, if room == NO_ROOM then was else room)]
    case SDelete(user) => users - {user}
    case _ => users
  }

  /** Each bucket holds only users it owns. */
  ghost predicate Sharded<C>(s: Server<C>, n: nat)
    requires n > 0
  {
    forall i, u | 0 <= i < |s| && u in s[i].users :: Owner(u, n) == i
  }

  /** Two maps say the same of a user. */
  predicate SameAt<C(==)>(m: map<int, Entry<C>>, n: map<int, Entry<C>>, u: int) {
    (u in m <==> u in n) && (u in m ==> m[u] == n[u])
  }

  lemma {:induction false} FlatAt<C>(s: Server<C>, n: nat, u: int)
    requires n > 0 && Sharded(s, n)
    ensures var o := Owner(u, n); SameAt(Flat(s), if o < |s| then s[o].users else map[], u)
    decreases |s|
  {
    hide Owner;
    if s != [] {
      FlatAt(s[..|s| - 1], n, u);
    }
  }

  /** A user is registered in at most one bucket, the one that owns it. */
  lemma OneBucketPerUser<C>(s: Server<C>, u: int)
    requires ServerInv(s)
    ensures u in Flat(s) <==> exists i :: 0 <= i < |s| && u in s[i].users
    ensures forall i, j | 0 <= i < |s| && 0 <= j < |s| && u in s[i].users && u in s[j].users :: i == j
  {
    FlatAt(s, |s|, u);
  }

  // ---------------------------------------------------------------- every step

  /** A step other than a put or a room push happens inside one bucket. */
  ghost function Place<C>(s: Server<C>, e: ServerEvent<C>): nat
    requires s != [] && !e.SPushRoom? && !e.SPut?
  {
    if e.SLocal? then e.bucket else Owner(e.user, |s|)
  }

  ghost function AsLocal<C>(e: ServerEvent<C>): Event<C>
    requires !e.SPushRoom? && !e.SPut?
  {
    match e
    case SDelete(user) => EDelete(user)
    case SPush(user, m) => EPush(user, m)
    case SLocal(_, ev) => ev
  }

  lemma StepIsLocal<C>(s: Server<C>, e: ServerEvent<C>)
    requires ServerInv(s) && ServerEnabled(s, e) && !e.SPushRoom? && !e.SPut?
    ensures var i := Place(s, e);
      i < |s| && Known(s[i]) && Enabled(s[i], AsLocal(e)) && ServerStep(s, e) == s[i := Step(s[i], AsLocal(e))]
  {
    hide CityHash32.Hash32;
    var i := Place(s, e);
    assert Inv(s[i]);
  }

  lemma RoomPushKeeps<C>(s: Server<C>, r: Request)
    requires ServerInv(s) && forall i | 0 <= i < |s| :: s[i].routines != []
    ensures ServerInv(BroadcastAll(s, r))
  {
    hide Owner;
    forall i | 0 <= i < |s| ensures Inv(Broadcast(s[i], r)) {
      StepKeeps(s[i], EBroadcast(r));
    }
    hide Inv;
  }

  lemma ServerStepKeeps<C>(s: Server<C>, e: ServerEvent<C>)
    requires ServerInv(s) && ServerEnabled(s, e)
    ensures ServerInv(ServerStep(s, e))
  {
    hide Owner, Inv, ServerPut, ServerFits, ServerHolds, Step, Enabled;
    if e.SPushRoom? {
      RoomPushKeeps(s, e.req);
    } else if e.SPut? {
      ServerPutKeeps(s, e.user, e.room, e.ch, e.stream, e.was);
    } else {
      LocalKeeps(s, e);
    }
  }

  lemma LocalKeeps<C>(s: Server<C>, e: ServerEvent<C>)
    requires ServerInv(s) && ServerEnabled(s, e) && !e.SPushRoom? && !e.SPut?
    ensures ServerInv(ServerStep(s, e))
  {
    hide Inv, ServerStep, Enabled, CityHash32.Hash32;
    StepIsLocal(s, e);
    OneBucketKeeps(s, Place(s, e), AsLocal(e));
  }

  /** A step inside one bucket, on a user it owns or on none. */
  lemma OneBucketKeeps<C>(s: Server<C>, i: nat, e: Event<C>)
    requires ServerInv(s) && i < |s| && Known(s[i]) && Enabled(s[i], e)
    requires e.EPut? ==> Owner(e.user, |s|) == i && forall j | 0 <= j < |s| && j != i :: e.ch !in s[j].streams
    ensures ServerInv(s[i := Step(s[i], e)])
  {
    hide CityHash32.Hash32;
    StepKeeps(s[i], e);
    StepUsers(s[i], e);
    var b := Step(s[i], e);
    hide Inv, Step, Known, Enabled;
    var s' := s[i := b];
    forall j, k | 0 <= j < |s'| && 0 <= k < |s'| && j != k ensures s'[j].streams.Keys !! s'[k].streams.Keys {
      assert s[j].streams.Keys !! s[k].streams.Keys;
    }
  }

  lemma ForgottenKeeps<C>(s: Server<C>, o: nat, ch: C)
    requires ServerInv(s) && o < |s|
    ensures ServerInv(Forgotten(s, o, ch))
    ensures forall i | 0 <= i < |s| && i != o :: ch in Forgotten(s, o, ch)[i].streams ==> !Idle(s[i], ch)
  {
    hide CityHash32.Hash32, Inv;
    var s' := Forgotten(s, o, ch);
    forall i | 0 <= i < |s|
      ensures Inv(s'[i]) && s'[i].users == s[i].users && s'[i].streams.Keys <= s[i].streams.Keys
      ensures i != o && ch in s'[i].streams ==> !Idle(s[i], ch)
    {
      ForgetKeeps(s[i], ch);
    }
    hide Idle, Forgotten;
    forall i, j | 0 <= i < |s'| && 0 <= j < |s'| && i != j ensures s'[i].streams.Keys !! s'[j].streams.Keys {
      assert s[i].streams.Keys !! s[j].streams.Keys;
    }
  }

  lemma ServerPutKeeps<C>(s: Server<C>, user: int, room: int, ch: C, stream: Stream, was: int)
    requires ServerInv(s) && ServerHolds(s, ch, stream, was) && ServerFits(s, user, room, ch, was)
    ensures ServerInv(ServerPut(s, user, room, ch, stream, was))
  {
    var o := Owner(user, |s|);
    ForgottenKeeps(s, o, ch);
    var s' := Forgotten(s, o, ch);
    assert s'[o] == s[o] && Known(s[o]);
    assert Enabled(s[o], EPut(user, room, ch, stream, was));
    hide Inv, Owner, Forgotten, Idle, PutFits, Holds;
    OneBucketKeeps(s', o, EPut(user, room, ch, stream, was));
  }

  /** Through the hash, too, a put keeps the invariant exactly when it fits. */
  lemma ServerPutKeepsIffFits<C>(s: Server<C>, user: int, room: int, ch: C, stream: Stream, was: int)
    requires ServerInv(s) && ServerHolds(s, ch, stream, was)
    ensures ServerInv(ServerPut(s, user, room, ch, stream, was)) <==> ServerFits(s, user, room, ch, was)
  {
    var o := Owner(user, |s|);
    var s' := ServerPut(s, user, room, ch, stream, was);
    if ServerFits(s, user, room, ch, was) {
      ServerPutKeeps(s, user, room, ch, stream, was);
    }
    if ServerInv(s') {
      assert Inv(s'[o]) && s'[o] == Put(s[o], user, room, ch, stream, was);
      PutKeepsIffFits(s[o], user, room, ch, stream, was);
      forall i | 0 <= i < |s| && i != o ensures Idle(s[i], ch) {
        IdleElsewhere(s, s', user, room, ch, stream, was, i);
      }
    }
    hide Inv, Owner, PutFits, Idle, ServerInv;
  }

  lemma IdleElsewhere<C>(s: Server<C>, s': Server<C>, user: int, room: int, ch: C, stream: Stream, was: int, i: nat)
    requires ServerInv(s) && ServerInv(s') && s' == ServerPut(s, user, room, ch, stream, was)
    requires i < |s| && i != Owner(user, |s|)
    ensures Idle(s[i], ch)
  {
    var o := Owner(user, |s|);
    assert s'[i] == Forget(s[i], ch) && ch in s'[o].streams;
    assert s'[i].streams.Keys !! s'[o].streams.Keys;
    assert Known(s[i]) by { assert Inv(s[i]); }
    hide Owner, ServerInv, Inv;
    assert ch !in Forget(s[i], ch).streams;
  }

  lemma StepUsers<C>(b: Bucket<C>, e: Event<C>)
    requires Known(b) && Enabled(b, e)
    ensures Step(b, e).users ==
      if e.EPut? then b.users[e.user := Entry(e.ch, if e.room == NO_ROOM then e.was else e.room)] else if e.EDelete? then b.users - {e.user} else b.users
    ensures Step(b, e).streams.Keys == b.streams.Keys + (if e.EPut? then {e.ch} else {})
  {
  }

  /** Through the hash, every operation does to the buckets together what it would do to one
      plain map. */
  lemma StepRefinesPlain<C>(s: Server<C>, e: ServerEvent<C>)
    requires ServerInv(s) && ServerEnabled(s, e)
    ensures Flat(ServerStep(s, e)) == PlainStep(Flat(s), e)
  {
    var s' := ServerStep(s, e);
    ServerStepKeeps(s, e);
    forall u ensures SameAt(Flat(s'), PlainStep(Flat(s), e), u) {
      RefinesAt(s, e, u);
    }
    SameEverywhere(Flat(s'), PlainStep(Flat(s), e));
  }

  lemma SameEverywhere<C>(m: map<int, Entry<C>>, n: map<int, Entry<C>>)
    requires forall u :: SameAt(m, n, u)
    ensures m == n
  {
    forall u | u in m || u in n ensures u in m && u in n && m[u] == n[u] {
      assert SameAt(m, n, u);
    }
  }

  /** The owner's own registrations follow the plain map at the user they own. */
  lemma OwnerRefines<C>(s: Server<C>, e: ServerEvent<C>, u: int)
    requires ServerInv(s) && ServerEnabled(s, e)
    ensures |ServerStep(s, e)| == |s|
    ensures var o := Owner(u, |s|); SameAt(ServerStep(s, e)[o].users, PlainStep(s[o].users, e), u)
  {
    if e.SPushRoom? {
      RoomPushesKeepUsers(s, e, u);
    } else if e.SPut? {
      OwnerPuts(s, e, u);
    } else {
      OwnerSteps(s, e, u);
    }
    hide ServerStep, ServerInv, ServerEnabled, Owner, PlainStep;
  }

  lemma RoomPushesKeepUsers<C>(s: Server<C>, e: ServerEvent<C>, u: int)
    requires ServerInv(s) && ServerEnabled(s, e) && e.SPushRoom?
    ensures |ServerStep(s, e)| == |s|
    ensures var o := Owner(u, |s|); SameAt(ServerStep(s, e)[o].users, PlainStep(s[o].users, e), u)
  {
    OwnerBound(u, |s|);
    hide Inv, Owner, Known;
  }

  lemma OwnerSteps<C>(s: Server<C>, e: ServerEvent<C>, u: int)
    requires ServerInv(s) && ServerEnabled(s, e) && !e.SPushRoom? && !e.SPut?
    ensures |ServerStep(s, e)| == |s|
    ensures var o := Owner(u, |s|); SameAt(ServerStep(s, e)[o].users, PlainStep(s[o].users, e), u)
  {
    hide Inv, ServerStep, Step, Enabled, Known, CityHash32.Hash32, Text.DecimalBytes;
    StepIsLocal(s, e);
    StepAt(s, e, Place(s, e), Owner(u, |s|), u);
  }

  lemma StepAt<C>(s: Server<C>, e: ServerEvent<C>, i: nat, o: nat, u: int)
    requires i < |s| && o < |s| && !e.SPushRoom? && !e.SPut? && (e.SDelete? && u == e.user ==> o == i)
    requires Known(s[i]) && Enabled(s[i], AsLocal(e)) && (e.SLocal? ==> e.event.EHandle? || e.event.EWrite?)
    ensures SameAt(s[i := Step(s[i], AsLocal(e))][o].users, PlainStep(s[o].users, e), u)
  {
    StepUsers(s[i], AsLocal(e));
    hide Known, Enabled, Step;
  }

  lemma OwnerPuts<C>(s: Server<C>, e: ServerEvent<C>, u: int)
    requires ServerInv(s) && ServerEnabled(s, e) && e.SPut?
    ensures |ServerStep(s, e)| == |s|
    ensures var o := Owner(u, |s|); SameAt(ServerStep(s, e)[o].users, PlainStep(s[o].users, e), u)
  {
    hide Owner, Inv, PutFits, Idle, Holds, Put, Forget, Known, ServerFits, ServerHolds;
    OwnerBound(u, |s|);
    OwnerBound(e.user, |s|);
    PutAt(s, e, Owner(e.user, |s|), Owner(u, |s|), u);
  }

  lemma PutAt<C>(s: Server<C>, e: ServerEvent<C>, p: nat, o: nat, u: int)
    requires e.SPut? && p < |s| && o < |s| && (u == e.user ==> o == p)
    ensures var s' := Forgotten(s, p, e.ch)[p := Put(s[p], e.user, e.room, e.ch, e.stream, e.was)];
      SameAt(s'[o].users, PlainStep(s[o].users, e), u)
  {
    hide Idle;
  }

  lemma RefinesAt<C>(s: Server<C>, e: ServerEvent<C>, u: int)
    requires ServerInv(s) && ServerEnabled(s, e) && ServerInv(ServerStep(s, e))
    ensures SameAt(Flat(ServerStep(s, e)), PlainStep(Flat(s), e), u)
  {
    OwnerRefines(s, e, u);
    FlatAt(s, |s|, u);
    FlatAt(ServerStep(s, e), |s|, u);
    OwnerBound(u, |s|);
    PlainStepAt(Flat(s), s[Owner(u, |s|)].users, e, u);
    hide Flat, ServerStep, Owner, ServerEnabled, ServerInv, PlainStep;
  }

  lemma PlainStepAt<C>(m: map<int, Entry<C>>, n: map<int, Entry<C>>, e: ServerEvent<C>, u: int)
    ensures SameAt(m, n, u) ==> SameAt(PlainStep(m, e), PlainStep(n, e), u)
  {
  }

  lemma OwnerBound(u: int, n: nat)
    requires n > 0
    ensures Owner(u, n) < n
  {
  }

  ghost predicate ServerRuns<C>(s: Server<C>, es: seq<ServerEvent<C>>)
    decreases |es|
  {
    es == [] || (s != [] && (forall i | 0 <= i < |s| :: Known(s[i])) && ServerEnabled(s, es[0])
                 && ServerRuns(ServerStep(s, es[0]), es[1..]))
  }

  ghost function ServerAfter<C>(s: Server<C>, es: seq<ServerEvent<C>>): Server<C>
    requires ServerRuns(s, es)
    decreases |es|
  {
    if es == [] then s else ServerAfter(ServerStep(s, es[0]), es[1..])
  }

  function PlainAfter<C(==)>(users: map<int, Entry<C>>, es: seq<ServerEvent<C>>): map<int, Entry<C>>
    decreases |es|
  {
    if es == [] then users else PlainAfter(PlainStep(users, es[0]), es[1..])
  }

  /** Over every run the sharded index agrees with one plain map, and stays sound. */
  lemma {:induction false} RunRefinesPlain<C>(s: Server<C>, es: seq<ServerEvent<C>>)
    requires ServerInv(s) && ServerRuns(s, es)
    ensures ServerInv(ServerAfter(s, es))
    ensures Flat(ServerAfter(s, es)) == PlainAfter(Flat(s), es)
    decreases |es|
  {
    if es != [] {
      ServerStepKeeps(s, es[0]);
      StepRefinesPlain(s, es[0]);
      hide ServerInv, ServerStep, ServerEnabled, Known, Flat, PlainStep;
      RunRefinesPlain(ServerStep(s, es[0]), es[1..]);
    }
  }

  /** A single push comes to exactly the channel the plain map gives, in whatever bucket, and gets into its
      queue exactly if that has room. */
  lemma SinglePushFollowsPlainMap<C>(s: Server<C>, user: int, m: Msg, i: nat, c: C)
    requires ServerInv(s) && i < |s| && c in s[i].streams
    ensures var s' := ServerStep(s, SPush(user, m));
      |s'| == |s| && c in s'[i].streams
      && (if user in Flat(s) && Flat(s)[user].ch == c then CameIn(s[i].streams[c], s'[i].streams[c], m, true)
          else s'[i].streams[c] == s[i].streams[c])
  {
    SingleIsOffered(s, user, m, i, c);
    OfferGetsIn(s[i].streams[c], m);
    hide CityHash32.Hash32, Flat, Offer, Text.DecimalBytes, Through, ServerInv, ServerStep, Sound;
  }

  lemma SingleIsOffered<C>(s: Server<C>, user: int, m: Msg, i: nat, c: C)
    requires ServerInv(s) && i < |s| && c in s[i].streams
    ensures var s' := ServerStep(s, SPush(user, m));
      |s'| == |s| && c in s'[i].streams
      && s'[i].streams[c] == if user in Flat(s) && Flat(s)[user].ch == c then Offer(s[i].streams[c], m) else s[i].streams[c]
  {
    hide CityHash32.Hash32, Flat, Offer, Text.DecimalBytes;
    FlatAt(s, |s|, user);
    var o := Owner(user, |s|);
    assert Known(s[o]) by { assert Inv(s[o]); }
    hide Inv;
    if user in s[o].users && i != o {
      assert s[o].users[user].ch in s[o].streams;
      assert s[i].streams.Keys !! s[o].streams.Keys;
    }
  }

  /** A room push reaches every bucket: once the routines have drained, every channel of the room
      in any bucket has been offered that message once, and gets it if its queue has room then; every other
      channel nothing. */
  lemma RoomPushReachesAll<C>(s: Server<C>, r: Request, runs: seq<seq<Event<C>>>, i: nat, c: C)
    requires ServerInv(s) && ServerEnabled(s, SPushRoom(r)) && |runs| == |s|
    requires forall k | 0 <= k < |s| :: Fanout.Drained(s[k])
    requires forall k | 0 <= k < |s| ::
      var b := ServerStep(s, SPushRoom(r))[k];
      Runs(b, runs[k]) && Fanout.Drained(After(b, runs[k])) && forall e | e in runs[k] :: e.EHandle? || e.EWrite?
    requires i < |s| && c in s[i].streams
    ensures var b' := After(ServerStep(s, SPushRoom(r))[i], runs[i]);
      c in b'.streams
      && b'.streams[c].offered == s[i].streams[c].offered + (if c in Chain(s[i], r.roomId) then [r.msg] else [])
      && if c in Chain(s[i], r.roomId) then CameIn(s[i].streams[c], b'.streams[c], r.msg, EWrite(c) !in runs[i])
         else Through(b'.streams[c]) == Through(s[i].streams[c])
  {
    hide Inv, CameIn, Through;
    Fanout.DrainOffersOnce(s[i], r, runs[i], c);
  }
}
