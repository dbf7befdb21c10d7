/** The state of one bucket as a value, and the state machine its operations run
    (connect/bucket.go, connect/room.go, connect/channel.go).

    A bucket knows a channel in two ways: registered under its user id, and on the chain of a
    room. The laws here are about every run of the machine. */
module IndexModel {
  import opened ChannelStream

  const NO_ROOM: int := -1
  const UINT64: nat := 0x1_0000_0000_0000_0000

  datatype Request = Request(roomId: int, msg: Msg)

  /** A registered channel; `room` is its room's id, or `NO_ROOM`. */
  datatype Entry<C> = Entry(ch: C, room: int)

  /** `carried` is the id in a channel's own room field; a channel that leaves its room keeps it.
      `routines[i]` is what waits on broadcast routine `i`: its buffer, then the senders blocked
      on it, in order. `turns` is the round-robin counter. */
  datatype Bucket<C(==)> = Bucket(
    users: map<int, Entry<C>>,
    rooms: map<int, seq<C>>,
    streams: map<C, Stream>,
    carried: map<C, int>,
    routines: seq<seq<Request>>,
    turns: nat)

  // ---------------------------------------------------------------- operations

  function Chain<C(==)>(b: Bucket<C>, room: int): seq<C> {
    if room in b.rooms then b.rooms[room] else []
  }

  /** Puts a channel that holds `stream` and carries the room id `was`; with no room named, it keeps
      the room it carries. */
  function Put<C(==)>(b: Bucket<C>, user: int, room: int, ch: C, stream: Stream, was: int): Bucket<C> {
    var seat := if room == NO_ROOM then was else room;
    b.(users := b.users[user := Entry(ch, seat)],
       rooms := if room == NO_ROOM then b.rooms else b.rooms[room := [ch] + Chain(b, room)],
       streams := b.streams[ch := stream],
       carried := b.carried[ch := seat])
  }

  function Without<C(==)>(chain: seq<C>, ch: C): seq<C> {
    if chain == [] then []
    else if chain[0] == ch then chain[1..]
    else [chain[0]] + Without(chain[1..], ch)
  }

  function Leave<C(==)>(rooms: map<int, seq<C>>, room: int, ch: C): map<int, seq<C>> {
    if room !in rooms then rooms
    else
      var rest := Without(rooms[room], ch);
      if rest == [] then rooms - {room} else rooms[room := rest]
  }

  function Delete<C(==)>(b: Bucket<C>, user: int): Bucket<C> {
    if user !in b.users then b
    else b.(users := b.users - {user}, rooms := Leave(b.rooms, b.users[user].room, b.users[user].ch))
  }

  /** The routine the next request goes to. */
  function Turn<C>(b: Bucket<C>): nat
    requires b.routines != []
  {
    (b.turns + 1) % UINT64 % |b.routines|
  }

  function Broadcast<C(==)>(b: Bucket<C>, r: Request): Bucket<C>
    requires b.routines != []
  {
    var i := Turn(b);
    b.(turns := (b.turns + 1) % UINT64, routines := b.routines[i := b.routines[i] + [r]])
  }

  /** Walks a chain, pushing to each channel in turn. */
  function OfferAll<C(==)>(streams: map<C, Stream>, chain: seq<C>, m: Msg): (r: map<C, Stream>)
    requires forall c | c in chain :: c in streams
    ensures r.Keys == streams.Keys
    decreases |chain|
  {
    if chain == [] then streams
    else OfferAll(streams[chain[0] := Offer(streams[chain[0]], m)], chain[1..], m)
  }

  ghost predicate Known<C>(b: Bucket<C>) {
    && (forall r, c | r in b.rooms && c in b.rooms[r] :: c in b.streams)
    && (forall u | u in b.users :: b.users[u].ch in b.streams)
  }

  /** Routine `i` takes its first request and pushes it along the room's chain. */
  ghost function Handle<C>(b: Bucket<C>, i: nat): Bucket<C>
    requires Known(b) && i < |b.routines| && b.routines[i] != []
  {
    var r := b.routines[i][0];
    b.(routines := b.routines[i := b.routines[i][1..]], streams := OfferAll(b.streams, Chain(b, r.roomId), r.msg))
  }

  ghost function PushOne<C>(b: Bucket<C>, user: int, m: Msg): Bucket<C>
    requires Known(b)
  {
    if user !in b.users then b
    else
      var ch := b.users[user].ch;
      b.(streams := b.streams[ch := Offer(b.streams[ch], m)])
  }

  function Write<C(==)>(b: Bucket<C>, ch: C): Bucket<C>
    requires ch in b.streams && b.streams[ch].queue != []
  {
    b.(streams := b.streams[ch := Take(b.streams[ch])])
  }

  // ---------------------------------------------------------------- the invariant

  predicate NoRepeats<T(==)>(s: seq<T>) {
    forall i, j | 0 <= i < j < |s| :: s[i] != s[j]
  }

  /** Chains are non-empty, repeat nothing and share nothing. */
  ghost predicate ChainsOk<C>(rooms: map<int, seq<C>>) {
    && (forall r | r in rooms :: r != NO_ROOM && rooms[r] != [] && NoRepeats(rooms[r]))
    && (forall r, r', c | r in rooms && r' in rooms && c in rooms[r] && c in rooms[r'] :: r == r')
  }

  /** A registered channel is on the chain of its room if it has one, and on no other; no two
      users share one. */
  ghost predicate UsersOk<C>(users: map<int, Entry<C>>, rooms: map<int, seq<C>>) {
    && (forall u | u in users && users[u].room != NO_ROOM ::
          users[u].room in rooms && users[u].ch in rooms[users[u].room])
    && (forall u, r | u in users && r in rooms && users[u].ch in rooms[r] :: users[u].room == r)
    && (forall u, v | u in users && v in users && users[u].ch == users[v].ch :: u == v)
  }

  /** Every known channel carries a room id: that of the chain it is on, and of its registration. */
  ghost predicate CarriedOk<C>(b: Bucket<C>) {
    && b.carried.Keys == b.streams.Keys
    && (forall r, c | r in b.rooms && c in b.rooms[r] :: c in b.carried && b.carried[c] == r)
    && (forall u | u in b.users :: b.users[u].ch in b.carried && b.users[u].room == b.carried[b.users[u].ch])
  }

  ghost predicate Inv<C>(b: Bucket<C>) {
    && Known(b)
    && ChainsOk(b.rooms)
    && UsersOk(b.users, b.rooms)
    && CarriedOk(b)
    && (forall c | c in b.streams :: Sound(b.streams[c]))
  }

  datatype Event<C> =
    | EPut(user: int, room: int, ch: C, stream: Stream, was: int)
    | EDelete(user: int)
    | EBroadcast(req: Request)
    | EHandle(routine: nat)
    | EPush(user: int, msg: Msg)
    | EWrite(ch: C)

  /** `stream` and `was` are what the channel holds: what the bucket knows of it, if it knows it. */
  ghost predicate Holds<C>(b: Bucket<C>, ch: C, stream: Stream, was: int) {
    Sound(stream) && (ch in b.streams ==> ch in b.carried && stream == b.streams[ch] && was == b.carried[ch])
  }

  /** A put into a room needs a channel that is on no chain; a put without one needs a channel that
      carries no room, or is on the chain of the room it carries. Either needs a channel that is
      registered under no other user. */
  ghost predicate PutFits<C>(b: Bucket<C>, user: int, room: int, ch: C, was: int) {
    && (forall u | u in b.users && b.users[u].ch == ch :: u == user)
    && (if room == NO_ROOM then was == NO_ROOM || ch in Chain(b, was)
        else forall r | r in b.rooms :: ch !in b.rooms[r])
  }

  /** On no chain and registered under no user. */
  ghost predicate Idle<C>(b: Bucket<C>, ch: C) {
    && (forall r | r in b.rooms :: ch !in b.rooms[r])
    && (forall u | u in b.users :: b.users[u].ch != ch)
  }

  /** An idle channel leaves a bucket's books when another bucket puts it. */
  ghost function Forget<C>(b: Bucket<C>, ch: C): Bucket<C> {
    if Idle(b, ch) then b.(streams := b.streams - {ch}, carried := b.carried - {ch}) else b
  }

  /** A put fits, and a step that takes something needs something to take. */
  ghost predicate Enabled<C>(b: Bucket<C>, e: Event<C>) {
    match e
    case EPut(user, room, ch, stream, was) => Holds(b, ch, stream, was) && PutFits(b, user, room, ch, was)
    case EDelete(_) => true
    case EBroadcast(_) => b.routines != []
    case EHandle(i) => i < |b.routines| && b.routines[i] != []
    case EPush(_, _) => true
    case EWrite(ch) => ch in b.streams && b.streams[ch].queue != []
  }

  ghost function Step<C>(b: Bucket<C>, e: Event<C>): Bucket<C>
    requires Known(b) && Enabled(b, e)
  {
    match e
    case EPut(user, room, ch, stream, was) => Put(b, user, room, ch, stream, was)
    case EDelete(user) => Delete(b, user)
    case EBroadcast(r) => Broadcast(b, r)
    case EHandle(i) => Handle(b, i)
    case EPush(user, m) => PushOne(b, user, m)
    case EWrite(ch) => Write(b, ch)
  }

  // ---------------------------------------------------------------- chains

  lemma {:induction false} WithoutMembers<C>(chain: seq<C>, ch: C)
    requires NoRepeats(chain)
    ensures NoRepeats(Without(chain, ch))
    ensures forall c | c in Without(chain, ch) :: c in chain && c != ch
    ensures forall c | c in chain && c != ch :: c in Without(chain, ch)
  {
    if chain != [] {
      assert forall c :: c in chain <==> c == chain[0] || c in chain[1..];
      assert NoRepeats(chain[1..]) && chain[0] !in chain[1..];
      WithoutMembers(chain[1..], ch);
    }
  }

  /** A push along a chain without repeats offers the message once to each channel on it, and
      to no other. */
  lemma {:induction false} OfferAllOnce<C>(streams: map<C, Stream>, chain: seq<C>, m: Msg)
    requires NoRepeats(chain) && forall c | c in chain :: c in streams
    ensures forall c | c in streams ::
      OfferAll(streams, chain, m)[c] == if c in chain then Offer(streams[c], m) else streams[c]
    decreases |chain|
  {
    if chain != [] {
      var streams' := streams[chain[0] := Offer(streams[chain[0]], m)];
      OfferAllOnce(streams', chain[1..], m);
      assert forall c :: c in chain <==> c == chain[0] || c in chain[1..];
    }
  }

  // ---------------------------------------------------------------- what every step keeps

  lemma PutKeeps<C>(b: Bucket<C>, user: int, room: int, ch: C, stream: Stream, was: int)
    requires Inv(b) && Holds(b, ch, stream, was) && PutFits(b, user, room, ch, was)
    ensures Inv(Put(b, user, room, ch, stream, was))
  {
    if room != NO_ROOM { PutChains(b, room, ch); }
    PutUsers(b, user, room, ch, was);
    PutCarried(b, user, room, ch, stream, was);
    hide ChainsOk, UsersOk, CarriedOk;
  }

  lemma PutUsers<C>(b: Bucket<C>, user: int, room: int, ch: C, was: int)
    requires UsersOk(b.users, b.rooms) && ChainsOk(b.rooms) && CarriedOk(b) && PutFits(b, user, room, ch, was)
    requires ch in b.carried ==> b.carried[ch] == was
    ensures var seat := if room == NO_ROOM then was else room;
      UsersOk(b.users[user := Entry(ch, seat)], if room == NO_ROOM then b.rooms else b.rooms[room := [ch] + Chain(b, room)])
  {
    if room != NO_ROOM {
      hide ChainsOk;
      assert forall c :: c in [ch] + Chain(b, room) <==> c == ch || c in Chain(b, room);
    }
  }

  lemma PutCarried<C>(b: Bucket<C>, user: int, room: int, ch: C, stream: Stream, was: int)
    requires Known(b) && CarriedOk(b) && Holds(b, ch, stream, was) && PutFits(b, user, room, ch, was)
    ensures Known(Put(b, user, room, ch, stream, was)) && CarriedOk(Put(b, user, room, ch, stream, was))
  {
    hide Sound;
    assert forall c :: c in [ch] + Chain(b, room) <==> c == ch || c in Chain(b, room);
  }

  lemma PutChains<C>(b: Bucket<C>, room: int, ch: C)
    requires ChainsOk(b.rooms) && room != NO_ROOM
    requires forall r | r in b.rooms :: ch !in b.rooms[r]
    ensures ChainsOk(b.rooms[room := [ch] + Chain(b, room)])
  {
    var rooms := b.rooms[room := [ch] + Chain(b, room)];
    assert forall c :: c in rooms[room] <==> c == ch || c in Chain(b, room);
    assert NoRepeats(rooms[room]);
  }

  /** A put keeps the invariant exactly when it fits. */
  lemma PutKeepsIffFits<C>(b: Bucket<C>, user: int, room: int, ch: C, stream: Stream, was: int)
    requires Inv(b) && Holds(b, ch, stream, was)
    ensures Inv(Put(b, user, room, ch, stream, was)) <==> PutFits(b, user, room, ch, was)
  {
    if PutFits(b, user, room, ch, was) {
      PutKeeps(b, user, room, ch, stream, was);
    }
    if Inv(Put(b, user, room, ch, stream, was)) {
      KeptPutFits(b, user, room, ch, stream, was);
    }
    hide Inv, PutFits;
  }

  lemma KeptPutFits<C>(b: Bucket<C>, user: int, room: int, ch: C, stream: Stream, was: int)
    requires Inv(Put(b, user, room, ch, stream, was))
    ensures PutFits(b, user, room, ch, was)
  {
    var b' := Put(b, user, room, ch, stream, was);
    assert b'.users[user].ch == ch;
    forall u | u in b.users && b.users[u].ch == ch ensures u == user {
      assert u in b'.users && b'.users[u].ch == ch;
    }
    if room != NO_ROOM {
      forall r | r in b.rooms ensures ch !in b.rooms[r] {
        OffOtherChains(b, b', room, ch, r);
      }
    }
  }

  /** A channel in front of a sound chain is not further down, and on no other. */
  lemma OffOtherChains<C>(b: Bucket<C>, b': Bucket<C>, room: int, ch: C, r: int)
    requires r in b.rooms && ChainsOk(b'.rooms) && b'.rooms == b.rooms[room := [ch] + Chain(b, room)]
    ensures ch !in b.rooms[r]
  {
    var chain := b'.rooms[room];
    assert chain[0] == ch && ch in chain;
    forall i | 0 <= i < |b.rooms[r]| ensures b.rooms[r][i] != ch {
      assert r == room ==> chain[1 + i] == b.rooms[r][i];
      assert r != room ==> b.rooms[r][i] in b'.rooms[r];
    }
  }

  lemma ForgetUnknown<C>(b: Bucket<C>, ch: C)
    requires Known(b) && ch !in b.streams && b.carried.Keys == b.streams.Keys
    ensures Forget(b, ch) == b && Idle(b, ch)
  {
    assert b.streams - {ch} == b.streams && b.carried - {ch} == b.carried;
  }

  lemma ForgetKeeps<C>(b: Bucket<C>, ch: C)
    requires Inv(b)
    ensures Inv(Forget(b, ch))
    ensures ch in Forget(b, ch).streams ==> !Idle(b, ch)
  {
    hide Sound;
  }

  ghost predicate On<C>(rooms: map<int, seq<C>>, r: int, c: C) { r in rooms && c in rooms[r] }

  /** Leaving takes one channel off one chain, and drops the room with the last one. */
  lemma LeaveMembers<C>(rooms: map<int, seq<C>>, room: int, ch: C)
    requires ChainsOk(rooms)
    ensures forall r, c :: On(Leave(rooms, room, ch), r, c) <==> On(rooms, r, c) && !(r == room && c == ch)
    ensures forall r | r in Leave(rooms, room, ch) ::
      r in rooms && Leave(rooms, room, ch)[r] != [] && NoRepeats(Leave(rooms, room, ch)[r])
  {
    if room in rooms {
      var rest := Without(rooms[room], ch);
      WithoutMembers(rooms[room], ch);
      assert On(rooms, room, ch) <==> ch in rooms[room];
    }
  }

  lemma LeaveChains<C>(rooms: map<int, seq<C>>, room: int, ch: C)
    requires ChainsOk(rooms)
    ensures ChainsOk(Leave(rooms, room, ch))
  {
    LeaveMembers(rooms, room, ch);
    var rooms' := Leave(rooms, room, ch);
    forall r, r', c | r in rooms' && r' in rooms' && c in rooms'[r] && c in rooms'[r'] ensures r == r' {
      assert On(rooms', r, c) && On(rooms', r', c);
    }
  }

  lemma DeleteUsers<C>(users: map<int, Entry<C>>, rooms: map<int, seq<C>>, user: int)
    requires ChainsOk(rooms) && UsersOk(users, rooms) && user in users
    ensures UsersOk(users - {user}, Leave(rooms, users[user].room, users[user].ch))
  {
    var rooms' := Leave(rooms, users[user].room, users[user].ch);
    LeaveMembers(rooms, users[user].room, users[user].ch);
    hide Leave, ChainsOk;
    forall u | u in users - {user} && users[u].room != NO_ROOM
      ensures users[u].room in rooms' && users[u].ch in rooms'[users[u].room]
    {
      assert On(rooms, users[u].room, users[u].ch);
    }
    forall u, r | u in users - {user} && r in rooms' && users[u].ch in rooms'[r] ensures users[u].room == r {
      assert On(rooms', r, users[u].ch);
    }
  }

  lemma DeleteCarried<C>(b: Bucket<C>, user: int)
    requires Known(b) && CarriedOk(b) && ChainsOk(b.rooms) && user in b.users
    ensures Known(Delete(b, user)) && CarriedOk(Delete(b, user))
  {
    var rooms := Leave(b.rooms, b.users[user].room, b.users[user].ch);
    LeaveStays(b.rooms, b.users[user].room, b.users[user].ch);
    hide Leave, ChainsOk, On;
    FewerKnown(b, rooms, user);
    hide Known, CarriedOk;
  }

  lemma LeaveStays<C>(rooms: map<int, seq<C>>, room: int, ch: C)
    requires ChainsOk(rooms)
    ensures forall r, c | r in Leave(rooms, room, ch) && c in Leave(rooms, room, ch)[r] :: r in rooms && c in rooms[r]
  {
    LeaveMembers(rooms, room, ch);
    var rooms' := Leave(rooms, room, ch);
    hide Leave, ChainsOk;
    forall r, c | r in rooms' && c in rooms'[r] ensures r in rooms && c in rooms[r] {
      assert On(rooms', r, c);
    }
  }

  lemma FewerKnown<C>(b: Bucket<C>, rooms: map<int, seq<C>>, user: int)
    requires Known(b) && CarriedOk(b)
    requires forall r, c | r in rooms && c in rooms[r] :: c in b.streams && c in b.carried && b.carried[c] == r
    ensures var b' := b.(users := b.users - {user}, rooms := rooms); Known(b') && CarriedOk(b')
  {
  }

  lemma DeleteKeeps<C>(b: Bucket<C>, user: int)
    requires Inv(b)
    ensures Inv(Delete(b, user))
  {
    if user in b.users {
      var room, ch := b.users[user].room, b.users[user].ch;
      LeaveChains(b.rooms, room, ch);
      DeleteUsers(b.users, b.rooms, user);
      DeleteCarried(b, user);
      hide Leave, ChainsOk, UsersOk, CarriedOk, Known;
    }
  }

  lemma HandleKeeps<C>(b: Bucket<C>, i: nat)
    requires Inv(b) && i < |b.routines| && b.routines[i] != []
    ensures Inv(Handle(b, i))
  {
    var r := b.routines[i][0];
    OfferAllOnce(b.streams, Chain(b, r.roomId), r.msg);
    forall c | c in b.streams ensures Sound(Handle(b, i).streams[c]) {
      OfferSound(b.streams[c], r.msg);
    }
  }

  lemma StepKeeps<C>(b: Bucket<C>, e: Event<C>)
    requires Inv(b) && Enabled(b, e)
    ensures Inv(Step(b, e))
  {
    match e
    case EPut(user, room, ch, stream, was) => PutKeeps(b, user, room, ch, stream, was);
    case EDelete(user) => DeleteKeeps(b, user);
    case EBroadcast(r) =>
    case EHandle(i) => HandleKeeps(b, i);
    case EPush(user, m) =>
      if user in b.users { OfferSound(b.streams[b.users[user].ch], m); }
    case EWrite(ch) => TakeSound(b.streams[ch]);
  }

  // ---------------------------------------------------------------- runs

  ghost predicate Runs<C>(b: Bucket<C>, es: seq<Event<C>>)
    decreases |es|
  {
    es == [] || (Known(b) && Enabled(b, es[0]) && Runs(Step(b, es[0]), es[1..]))
  }

  ghost function After<C>(b: Bucket<C>, es: seq<Event<C>>): Bucket<C>
    requires Runs(b, es)
    decreases |es|
  {
    if es == [] then b else After(Step(b, es[0]), es[1..])
  }

  function Fresh<C(==)>(routines: nat): Bucket<C> {
    Bucket(map[], map[], map[], map[], seq(routines, _ => []), 0)
  }

  /** The invariant holds in every state a run reaches. */
  lemma {:induction false} RunKeeps<C>(b: Bucket<C>, es: seq<Event<C>>)
    requires Inv(b) && Runs(b, es)
    ensures Inv(After(b, es))
    decreases |es|
  {
    if es != [] {
      StepKeeps(b, es[0]);
      RunKeeps(Step(b, es[0]), es[1..]);
    }
  }

  // ---------------------------------------------------------------- the same user put twice

  /** Every channel on some chain. */
  ghost function Listed<C>(b: Bucket<C>): set<C> { ListedIn(b.rooms) }

  ghost function ListedIn<C>(rooms: map<int, seq<C>>): set<C> {
    set r, c | r in rooms && c in rooms[r] :: c
  }

  /** Every registered channel that has a room. */
  ghost function Seated<C>(b: Bucket<C>): set<C> {
    set u | u in b.users && b.users[u].room != NO_ROOM :: b.users[u].ch
  }

  /** Channels still on a chain although no user is registered with them. */
  ghost function Stranded<C>(b: Bucket<C>): set<C> { Listed(b) - Seated(b) }

  /** The channel an event takes a seated user's registration away from. */
  ghost function Displaced<C>(b: Bucket<C>, e: Event<C>): set<C> {
    if e.EPut? && e.user in b.users && b.users[e.user].room != NO_ROOM then {b.users[e.user].ch} - {e.ch} else {}
  }

  /** The channel an event puts. */
  ghost function Placed<C>(e: Event<C>): set<C> { if e.EPut? then {e.ch} else {} }

  lemma SeatedAreListed<C>(b: Bucket<C>)
    requires Inv(b)
    ensures Seated(b) <= Listed(b)
  {
  }

  lemma PutStrands<C>(b: Bucket<C>, e: Event<C>)
    requires Inv(b) && Enabled(b, e) && e.EPut?
    ensures Stranded(Step(b, e)) == Stranded(b) - {e.ch} + Displaced(b, e)
  {
    PutListed(b, e);
    PutSeated(b, e);
    SeatedAreListed(b);
    var b' := Step(b, e);
    assert e.ch in Seated(b') || e.ch !in Listed(b');
    var l, l', s, s', d: set<C> := Listed(b), Listed(b'), Seated(b), Seated(b'), Displaced(b, e);
    hide Listed, Seated, Displaced, Inv, Enabled, Step;
    forall c ensures c in l' - s' <==> c in l - s - {e.ch} + d {
    }
  }

  lemma PutListed<C>(b: Bucket<C>, e: Event<C>)
    requires Inv(b) && Enabled(b, e) && e.EPut?
    ensures Listed(Step(b, e)) == Listed(b) + (if e.room == NO_ROOM then {} else {e.ch})
  {
    var b' := Step(b, e);
    if e.room != NO_ROOM {
      assert b'.rooms[e.room] == [e.ch] + Chain(b, e.room);
      forall c ensures c in Listed(b') <==> c in Listed(b) || c == e.ch {
        OnListed(b.rooms, c);
        OnListed(b'.rooms, c);
        assert On(b'.rooms, e.room, c) <==> c == e.ch || On(b.rooms, e.room, c);
        assert forall r | r != e.room :: On(b'.rooms, r, c) <==> On(b.rooms, r, c);
      }
    }
  }

  lemma PutSeated<C>(b: Bucket<C>, e: Event<C>)
    requires Inv(b) && Enabled(b, e) && e.EPut?
    ensures Seated(Step(b, e)) ==
      Seated(b) - Displaced(b, e) + (if e.room == NO_ROOM && e.was == NO_ROOM then {} else {e.ch})
  {
    var b' := Step(b, e);
    var seat := if e.room == NO_ROOM then e.was else e.room;
    assert b'.users[e.user] == Entry(e.ch, seat);
    forall c ensures c in Seated(b') <==> (c in Seated(b) && c !in Displaced(b, e)) || (seat != NO_ROOM && c == e.ch) {
      if c in Seated(b) {
        var u :| u in b.users && b.users[u].room != NO_ROOM && b.users[u].ch == c;
        if u != e.user { assert u in b'.users && b'.users[u] == b.users[u]; }
      }
      if c in Seated(b') {
        var u :| u in b'.users && b'.users[u].room != NO_ROOM && b'.users[u].ch == c;
        if u != e.user { assert u in b.users && b'.users[u] == b.users[u]; }
      }
    }
  }

  lemma DeleteStrandsNone<C>(b: Bucket<C>, user: int)
    requires Inv(b)
    ensures Stranded(Delete(b, user)) == Stranded(b)
  {
    if user in b.users {
      var gone := if b.users[user].room == NO_ROOM then {} else {b.users[user].ch};
      assert gone <= Seated(b);
      DeleteListed(b, user);
      DeleteSeated(b, user);
      hide Listed, Seated, Delete, Inv;
      assert (Listed(b) - gone) - (Seated(b) - gone) == Listed(b) - Seated(b);
    }
  }

  lemma OnListed<C>(rooms: map<int, seq<C>>, c: C)
    ensures c in ListedIn(rooms) <==> exists r :: On(rooms, r, c)
  {
    if c in ListedIn(rooms) {
      var r :| r in rooms && c in rooms[r];
      assert On(rooms, r, c);
    }
  }

  lemma LeaveListed<C>(rooms: map<int, seq<C>>, room: int, ch: C)
    requires ChainsOk(rooms) && On(rooms, room, ch)
    ensures ListedIn(Leave(rooms, room, ch)) == ListedIn(rooms) - {ch}
  {
    var rooms' := Leave(rooms, room, ch);
    LeaveMembers(rooms, room, ch);
    assert forall r | On(rooms, r, ch) :: r == room;
    var before, after: set<C> := ListedIn(rooms), ListedIn(rooms');
    hide On, Leave, ChainsOk, ListedIn;
    forall c ensures c in after <==> c in before - {ch} {
      OnListed(rooms, c);
      OnListed(rooms', c);
    }
  }

  lemma DeleteListed<C>(b: Bucket<C>, user: int)
    requires Inv(b) && user in b.users
    ensures Listed(Delete(b, user)) == Listed(b) - (if b.users[user].room == NO_ROOM then {} else {b.users[user].ch})
  {
    if b.users[user].room != NO_ROOM {
      LeaveListed(b.rooms, b.users[user].room, b.users[user].ch);
    }
  }

  lemma DeleteSeated<C>(b: Bucket<C>, user: int)
    requires Inv(b) && user in b.users
    ensures Seated(Delete(b, user)) == Seated(b) - (if b.users[user].room == NO_ROOM then {} else {b.users[user].ch})
  {
    var b' := Delete(b, user);
    forall c ensures c in Seated(b') <==> c in Seated(b) && (b.users[user].room == NO_ROOM || c != b.users[user].ch) {
      if c in Seated(b) {
        var u :| u in b.users && b.users[u].room != NO_ROOM && b.users[u].ch == c;
        if u != user { assert u in b'.users; }
      }
    }
  }

  lemma StepStrands<C>(b: Bucket<C>, e: Event<C>)
    requires Inv(b) && Enabled(b, e)
    ensures Stranded(Step(b, e)) == Stranded(b) - Placed(e) + Displaced(b, e)
  {
    if e.EPut? {
      PutStrands(b, e);
    } else if e.EDelete? {
      DeleteStrandsNone(b, e.user);
    }
  }

  /** The channels a run puts. */
  ghost function PlacedIn<C>(es: seq<Event<C>>): set<C> {
    if es == [] then {} else Placed(es[0]) + PlacedIn(es[1..])
  }

  /** The channels a run displaces and does not put again afterwards. */
  ghost function DisplacedIn<C>(b: Bucket<C>, es: seq<Event<C>>): set<C>
    requires Runs(b, es)
    decreases |es|
  {
    if es == [] then {}
    else Displaced(b, es[0]) - PlacedIn(es[1..]) + DisplacedIn(Step(b, es[0]), es[1..])
  }

  /** Over any run the stranded channels are those there were, plus every channel displaced on the
      way, less those put again later: nothing but being put again takes a stranded channel off. */
  lemma {:induction false} RunStrands<C>(b: Bucket<C>, es: seq<Event<C>>)
    requires Inv(b) && Runs(b, es)
    ensures Stranded(After(b, es)) == Stranded(b) - PlacedIn(es) + DisplacedIn(b, es)
    decreases |es|
  {
    if es != [] {
      StepKeeps(b, es[0]);
      StepStrands(b, es[0]);
      hide Step, Stranded, Inv, Enabled, Known, Displaced, Placed;
      RunStrands(Step(b, es[0]), es[1..]);
    }
  }

  lemma FreshOk<C>(routines: nat)
    ensures Inv(Fresh<C>(routines)) && Listed(Fresh<C>(routines)) == {} && Seated(Fresh<C>(routines)) == {}
  {
  }

  lemma SameIffNoneOver<T>(a: set<T>, b: set<T>)
    requires a <= b
    ensures b == a <==> b - a == {}
  {
    if b - a == {} {
      forall x | x in b ensures x in a {
        assert x !in b - a;
      }
    }
  }

  /** After any run from a new bucket, the channels on chains are exactly the registered channels
      with a room if and only if every channel displaced on the way was put again later. */
  lemma ListedIsSeatedIffNoneDisplaced<C>(routines: nat, es: seq<Event<C>>)
    requires Runs(Fresh<C>(routines), es)
    ensures var b := After(Fresh<C>(routines), es);
      Listed(b) == Seated(b) <==> DisplacedIn(Fresh<C>(routines), es) == {}
  {
    var b0 := Fresh<C>(routines);
    var b := After(b0, es);
    FreshOk<C>(routines);
    RunKeeps(b0, es);
    RunStrands(b0, es);
    SeatedAreListed(b);
    SameIffNoneOver(Seated(b), Listed(b));
    assert Stranded(b0) - PlacedIn(es) + DisplacedIn(b0, es) == DisplacedIn(b0, es);
    hide Listed, Seated, After, DisplacedIn, Inv;
  }

  /** The shortest run that strands a channel: a user put twice in a room, then deleted. The
      first channel keeps the room alive and goes on receiving its broadcasts. */
  lemma PutTwiceStrands<C>(c1: C, c2: C, st: Stream, routines: nat)
    requires c1 != c2 && Sound(st)
    ensures var es := [EPut(1, 5, c1, st, NO_ROOM), EPut(1, 5, c2, st, NO_ROOM), EDelete(1)];
      Runs(Fresh<C>(routines), es) && After(Fresh<C>(routines), es).rooms == map[5 := [c1]]
      && After(Fresh<C>(routines), es).users == map[]
  {
    var b0 := Fresh<C>(routines);
    var b1 := Put(b0, 1, 5, c1, st, NO_ROOM);
    var b2 := Put(b1, 1, 5, c2, st, NO_ROOM);
    var b3 := Delete(b2, 1);
    assert b1.rooms[5] == [c1] && b2.rooms[5] == [c2, c1];
    assert Without([c2, c1], c2) == [c1];
    var e1, e2, e3 := EPut(1, 5, c1, st, NO_ROOM), EPut(1, 5, c2, st, NO_ROOM), EDelete(1);
    assert [e1, e2, e3][1..] == [e2, e3] && [e2, e3][1..] == [e3] && [e3][1..] == [];
    assert Runs(b3, []) && Runs(b2, [e3]) && After(b2, [e3]) == b3;
    assert Runs(b1, [e2, e3]) && After(b1, [e2, e3]) == b3;
  }
}
