/** The connect layer's index and the logic layer's rooms side by side, over the lives of many
    connections (connect/server.go, connect/server_tcp.go, logic/rpc.go). Connecting is a call to the
    logic layer followed by a put into the index; ending takes the user out of the index and then
    out of the room. The index is there twice: as the plain map of registrations, and as the buckets
    that refine it. */
module Connections {
  import opened RedisStore
  import opened Logic
  import P = Presence
  import opened IndexModel
  import opened ChannelStream
  import R = ReadLoops
  import S = ServerModel

  /** `live` holds what each open connection's channel carries. */
  datatype World<C(==)> = World(index: map<int, Entry<C>>, db: Db, live: map<C, R.Seat>)

  function Nobody<C(==)>(): World<C> { World(map[], map[], map[]) }

  /** `stream` is what the channel holds when it is put. */
  datatype Event<C> =
    | Open(ch: C, user: int, room: int, name: string, stream: Stream)
    | End(ch: C)

  /** A known user; any name and any room. A connection may ask again. */
  ghost predicate Enabled<C>(w: World<C>, e: Event<C>) {
    match e
    case Open(_, user, _, _, _) => user != 0
    case End(ch) => ch in w.live
  }

  /** The seat of a connection before it asks. */
  ghost function SeatOf<C>(w: World<C>, ch: C): R.Seat {
    if ch in w.live then w.live[ch] else R.NOBODY
  }

  /** A channel without a room, or without a user, is cleaned up nowhere. */
  ghost function Step<C>(w: World<C>, e: Event<C>): World<C>
    requires Enabled(w, e)
  {
    match e
    case Open(ch, user, room, name, stream) =>
      World(S.PlainStep(w.index, S.SPut(user, room, ch, stream, SeatOf(w, ch).room)), JoinRoom(w.db, room, user, name),
        w.live[ch := R.Seated(SeatOf(w, ch), user, room)])
    case End(ch) =>
      var seat := w.live[ch];
      if R.Cleanup(seat) == [] then w.(live := w.live - {ch})
      else World(S.PlainStep(w.index, S.SDelete(seat.user)), LeaveRoom(w.db, seat.room, seat.user), w.live - {ch})
  }

  // ---------------------------------------------------------------- agreement

  /** The open connections are exactly the registered ones. */
  ghost predicate Registered<C>(w: World<C>) {
    && (forall c | c in w.live :: w.live[c].user in w.index && w.index[w.live[c].user] == Entry(c, w.live[c].room)
          && w.live[c].user != 0)
    && (forall u | u in w.index :: w.index[u].ch in w.live && w.live[w.index[u].ch] == R.Seat(u, w.index[u].room))
  }

  /** A room's hash holds exactly the users registered in it, and its counter their number. */
  ghost predicate Present<C>(w: World<C>) {
    && (forall r, u :: u in MembersOf(w.db, r) <==> u in w.index && w.index[u].room == r)
    && (forall r :: P.InStep(w.db, r))
  }

  ghost predicate Agree<C>(w: World<C>) { Registered(w) && Present(w) }

  /** A new connection of a user without one, or a connection that asks again for the seat it has and is
      listed there under a name; and the end of a connection in a room with a positive id. */
  ghost predicate PlainFits<C>(w: World<C>, e: Event<C>) {
    match e
    case Open(ch, user, room, _, _) =>
      if ch in w.live then w.live[ch] == R.Seat(user, room) && NameAt(w.db, room, user) != "" else user !in w.index
    case End(ch) => ch in w.live && w.live[ch].room > 0
  }

  /** Of the connections that ask again, only those without a room leave the buckets sound. */
  ghost predicate Fits<C>(w: World<C>, e: Event<C>) {
    PlainFits(w, e) && (e.Open? && e.ch in w.live ==> e.room == NO_ROOM)
  }

  // ---------------------------------------------------------------- the plain map

  lemma Joined(db: Db, room: int, user: int, name: string)
    ensures var db' := JoinRoom(db, room, user, name);
      var news := NameAt(db, room, user) == "";
      && MembersOf(db', room) == (if news then MembersOf(db, room)[user := name] else MembersOf(db, room))
      && CountOf(db', room) == CountOf(db, room) + (if news then 1 else 0)
      && user in MembersOf(db', room)
      && (forall r | r != room :: MembersOf(db', r) == MembersOf(db, r) && CountOf(db', r) == CountOf(db, r))
  {
    HSetChanges(db, room, user, name);
    AddCountChanges(HSet(db, room, user, name), room, 1);
    hide HSet, AddCount, MembersOf, CountOf;
  }

  /** Joining a room anew keeps every counter in step. */
  lemma JoinedInStep(db: Db, room: int, user: int, name: string)
    requires (forall r :: P.InStep(db, r)) && user !in MembersOf(db, room)
    ensures forall r :: P.InStep(JoinRoom(db, room, user, name), r)
  {
    Joined(db, room, user, name);
    hide JoinRoom, MembersOf, CountOf;
    forall r ensures P.InStep(JoinRoom(db, room, user, name), r) {
      assert P.InStep(db, r);
    }
  }

  lemma LeftInStep(db: Db, room: int, user: int)
    requires user != 0 && user in MembersOf(db, room) && forall r :: P.InStep(db, r)
    ensures (forall r :: P.InStep(LeaveRoom(db, room, user), r)) <==> room > 0
  {
    LeaveEffect(db, room, user);
    P.DisconnectInStepIff(db, room, user);
    hide LeaveRoom, MembersOf, CountOf;
    assert P.InStep(db, room);
    forall r | r != room ensures P.InStep(LeaveRoom(db, room, user), r) {
      assert P.InStep(db, r);
    }
  }

  lemma OpenRegisters<C>(w: World<C>, e: Event<C>)
    requires Registered(w) && Enabled(w, e) && e.Open? && PlainFits(w, e)
    ensures Registered(Step(w, e))
    ensures e.ch in w.live ==> Step(w, e).index == w.index && Step(w, e).live == w.live
  {
    hide JoinRoom, NameAt;
    assert e.ch in w.live ==> Step(w, e).index == w.index && Step(w, e).live == w.live;
  }

  lemma EndRegisters<C>(w: World<C>, e: Event<C>)
    requires Registered(w) && Enabled(w, e) && e.End? && w.live[e.ch].room != NO_ROOM
    ensures Registered(Step(w, e))
  {
    hide LeaveRoom;
    var w' := Step(w, e);
    forall u | u in w'.index ensures w'.index[u].ch in w'.live {
      assert w.live[w.index[u].ch] == R.Seat(u, w.index[u].room);
    }
  }

  lemma OpenKeeps<C>(w: World<C>, e: Event<C>)
    requires Agree(w) && Enabled(w, e) && e.Open? && PlainFits(w, e)
    ensures Agree(Step(w, e))
  {
    assert PlainFits(w, e) && e.ch in w.live ==> JoinRoom(w.db, e.room, e.user, e.name) == w.db;
    hide JoinRoom, MembersOf, P.InStep;
    OpenRegisters(w, e);
    if e.ch in w.live {
      assert Step(w, e) == w;
    } else {
      OpenPresent(w, e);
    }
    hide Registered, Present, Step;
  }

  lemma OpenPresent<C>(w: World<C>, e: Event<C>)
    requires Present(w) && Enabled(w, e) && e.Open? && e.ch !in w.live && e.user !in w.index
    ensures Present(Step(w, e))
  {
    hide JoinRoom, MembersOf, CountOf, P.InStep;
    assert e.user !in MembersOf(w.db, e.room);
    JoinedInStep(w.db, e.room, e.user, e.name);
    Joined(w.db, e.room, e.user, e.name);
    var w' := Step(w, e);
    forall r, u ensures u in MembersOf(w'.db, r) <==> u in w'.index && w'.index[u].room == r {
      assert u in MembersOf(w.db, r) <==> u in w.index && w.index[u].room == r;
    }
  }

  lemma EndKeeps<C>(w: World<C>, e: Event<C>)
    requires Agree(w) && Enabled(w, e) && e.End? && PlainFits(w, e)
    ensures Agree(Step(w, e))
  {
    EndRegisters(w, e);
    assert w.index[w.live[e.ch].user].room == w.live[e.ch].room && w.live[e.ch].user != 0;
    EndPresent(w, e);
    hide Registered, Present, Step;
  }

  lemma EndPresent<C>(w: World<C>, e: Event<C>)
    requires Present(w) && Enabled(w, e) && e.End? && PlainFits(w, e)
    requires var seat := w.live[e.ch]; seat.user != 0 && seat.user in w.index && w.index[seat.user].room == seat.room
    ensures Present(Step(w, e))
  {
    hide LeaveRoom, MembersOf, CountOf, P.InStep;
    var seat := w.live[e.ch];
    assert seat.user in MembersOf(w.db, seat.room);
    LeftInStep(w.db, seat.room, seat.user);
    LeaveEffect(w.db, seat.room, seat.user);
    var w' := Step(w, e);
    forall r, u ensures u in MembersOf(w'.db, r) <==> u in w'.index && w'.index[u].room == r {
      assert u in MembersOf(w.db, r) <==> u in w.index && w.index[u].room == r;
    }
  }

  lemma OpenBreaks<C>(w: World<C>, e: Event<C>)
    requires Agree(w) && Enabled(w, e) && e.Open? && !PlainFits(w, e)
    ensures !Agree(Step(w, e))
  {
    Joined(w.db, e.room, e.user, e.name);
    hide JoinRoom, MembersOf, CountOf;
    var w' := Step(w, e);
    var seat := SeatOf(w', e.ch);
    assert w'.index[e.user] == Entry(e.ch, seat.room) && w'.live[e.ch] == seat;
    if e.ch !in w.live {
      var older := w.index[e.user].ch;
      assert older in w'.live && w'.live[older].user == e.user && older != e.ch;
    } else if w.live[e.ch].user != e.user {
      assert w'.index[w.live[e.ch].user].ch == e.ch;
    } else if w.live[e.ch].room != e.room {
      var before := w.live[e.ch].room;
      assert e.user in MembersOf(w.db, before) && e.user in MembersOf(w'.db, before) && e.user in MembersOf(w'.db, e.room);
    } else {
      assert e.user in MembersOf(w.db, e.room) && P.InStep(w.db, e.room) && !P.InStep(w'.db, e.room);
    }
  }

  lemma EndBreaks<C>(w: World<C>, e: Event<C>)
    requires Agree(w) && Enabled(w, e) && e.End? && !PlainFits(w, e)
    ensures !Agree(Step(w, e))
  {
    var seat := w.live[e.ch];
    var w' := Step(w, e);
    if seat.room == NO_ROOM {
      assert w'.index[seat.user].ch == e.ch && e.ch !in w'.live;
    } else {
      assert seat.user in MembersOf(w.db, seat.room);
      LeftInStep(w.db, seat.room, seat.user);
      hide LeaveRoom, MembersOf;
    }
  }

  /** With the plain map for an index, a step keeps agreement exactly when it fits it. */
  lemma PlainAgreesIff<C>(w: World<C>, e: Event<C>)
    requires Agree(w) && Enabled(w, e)
    ensures Agree(Step(w, e)) <==> PlainFits(w, e)
  {
    if e.Open? {
      if PlainFits(w, e) { OpenKeeps(w, e); } else { OpenBreaks(w, e); }
    } else {
      if PlainFits(w, e) { EndKeeps(w, e); } else { EndBreaks(w, e); }
    }
    hide Agree, Step;
  }

  // ---------------------------------------------------------------- the buckets

  /** Hashes, counters and plain map agree, the buckets are sound and refine the plain map, and their
      chains hold open connections only. */
  ghost predicate Whole<C>(w: World<C>, s: S.Server<C>) {
    && Agree(w) && S.ServerInv(s) && S.Flat(s) == w.index
    && ChainsOpen(w, s)
  }

  ghost predicate ChainsOpen<C>(w: World<C>, s: S.Server<C>) {
    forall i, r, c | 0 <= i < |s| && r in s[i].rooms && c in s[i].rooms[r] :: c in w.live
  }

  /** A connection has a channel of its own: a new one's is known to no bucket. */
  ghost predicate EnabledOn<C>(w: World<C>, s: S.Server<C>, e: Event<C>) {
    Enabled(w, e)
    && (e.Open? ==>
          && S.ServerHolds(s, e.ch, e.stream, SeatOf(w, e.ch).room)
          && (e.ch !in w.live ==> forall i | 0 <= i < |s| :: e.ch !in s[i].streams))
  }

  ghost function StepOn<C>(w: World<C>, s: S.Server<C>, e: Event<C>): S.Server<C>
    requires S.ServerInv(s) && Enabled(w, e)
  {
    match e
    case Open(ch, user, room, _, stream) => S.ServerPut(s, user, room, ch, stream, SeatOf(w, ch).room)
    case End(ch) => if R.Cleanup(w.live[ch]) == [] then s else S.ServerStep(s, S.SDelete(w.live[ch].user))
  }

  lemma UnknownFits<C>(s: S.Server<C>, user: int, room: int, ch: C)
    requires S.ServerInv(s) && forall i | 0 <= i < |s| :: ch !in s[i].streams
    ensures S.ServerFits(s, user, room, ch, NO_ROOM)
  {
    hide S.Owner;
    forall i | 0 <= i < |s| ensures Idle(s[i], ch) {
      assert Inv(s[i]);
    }
    S.OwnerBound(user, |s|);
  }

  /** Where a registered user and its channel are. */
  lemma SeatedAt<C>(s: S.Server<C>, user: int)
    requires S.ServerInv(s) && user in S.Flat(s)
    ensures var o := S.Owner(user, |s|); o < |s| && user in s[o].users && s[o].users[user] == S.Flat(s)[user]
    ensures forall i | 0 <= i < |s| && i != S.Owner(user, |s|) :: S.Flat(s)[user].ch !in s[i].streams
  {
    S.FlatAt(s, |s|, user);
    S.OwnerBound(user, |s|);
    hide S.Owner, S.Flat;
    var o := S.Owner(user, |s|);
    assert Inv(s[o]);
    hide Inv;
    forall i | 0 <= i < |s| && i != o ensures s[o].users[user].ch !in s[i].streams {
      assert s[i].streams.Keys !! s[o].streams.Keys;
    }
  }

  /** A connection that asks again for its seat puts a channel that fits only if it has no room. */
  lemma AgainFitsIff<C>(s: S.Server<C>, user: int, room: int, ch: C)
    requires S.ServerInv(s) && user in S.Flat(s) && S.Flat(s)[user] == Entry(ch, room)
    ensures S.ServerFits(s, user, room, ch, room) <==> room == NO_ROOM
  {
    SeatedAt(s, user);
    hide S.Owner, S.Flat;
    var o := S.Owner(user, |s|);
    forall i | 0 <= i < |s| && i != o ensures Idle(s[i], ch) {
      assert Inv(s[i]);
    }
    assert Inv(s[o]);
    hide Known, CarriedOk, ChainsOk;
  }

  lemma PutOpens<C>(w: World<C>, s: S.Server<C>, e: Event<C>)
    requires ChainsOpen(w, s) && Enabled(w, e) && e.Open? && S.ServerInv(s)
    ensures ChainsOpen(Step(w, e), StepOn(w, s, e))
  {
    assert s != [];
    hide S.Owner, S.ServerInv, JoinRoom;
    PutsChains(s, e.user, e.room, e.ch, e.stream, SeatOf(w, e.ch).room);
    hide S.ServerPut;
  }

  lemma PutsChains<C>(s: S.Server<C>, user: int, room: int, ch: C, stream: Stream, was: int)
    requires s != []
    ensures var s' := S.ServerPut(s, user, room, ch, stream, was);
      |s'| == |s| && forall i, r, c | 0 <= i < |s'| && r in s'[i].rooms && c in s'[i].rooms[r] ::
        c == ch || (r in s[i].rooms && c in s[i].rooms[r])
  {
    hide S.Owner, Idle;
    S.OwnerBound(user, |s|);
  }

  lemma DeletesChains<C>(s: S.Server<C>, user: int)
    requires S.ServerInv(s) && user in S.Flat(s)
    ensures var s' := S.ServerStep(s, S.SDelete(user));
      |s'| == |s| && forall i, r, c | 0 <= i < |s'| && r in s'[i].rooms && c in s'[i].rooms[r] ::
        c != S.Flat(s)[user].ch && r in s[i].rooms && c in s[i].rooms[r]
  {
    SeatedAt(s, user);
    hide S.Owner, S.Flat;
    var o := S.Owner(user, |s|);
    var s' := S.ServerStep(s, S.SDelete(user));
    forall i, r, c | 0 <= i < |s'| && r in s'[i].rooms && c in s'[i].rooms[r]
      ensures c != s[o].users[user].ch && r in s[i].rooms && c in s[i].rooms[r]
    {
      assert Inv(s[i]);
      if i == o {
        LeaveTakesOut(s[o], user, r, c);
      }
    }
  }

  lemma LeaveTakesOut<C>(b: Bucket<C>, user: int, r: int, c: C)
    requires Inv(b) && user in b.users && r in Delete(b, user).rooms && c in Delete(b, user).rooms[r]
    ensures c != b.users[user].ch && r in b.rooms && c in b.rooms[r]
  {
    var room := b.users[user].room;
    if room in b.rooms { WithoutMembers(b.rooms[room], b.users[user].ch); }
    hide Without, Known, CarriedOk;
  }

  lemma OpenFitsWhole<C>(w: World<C>, s: S.Server<C>, e: Event<C>)
    requires Whole(w, s) && EnabledOn(w, s, e) && e.Open? && Fits(w, e)
    ensures Whole(Step(w, e), StepOn(w, s, e))
  {
    OpenKeeps(w, e);
    PutOpens(w, s, e);
    if e.ch in w.live {
      AgainFitsIff(s, e.user, e.room, e.ch);
    } else {
      UnknownFits(s, e.user, e.room, e.ch);
    }
    hide Agree, ChainsOpen, S.ServerInv, S.ServerFits, S.ServerHolds, S.ServerPut, S.Flat;
    var put := S.SPut(e.user, e.room, e.ch, e.stream, SeatOf(w, e.ch).room);
    PutRefines(s, put);
  }

  lemma PutRefines<C>(s: S.Server<C>, e: S.ServerEvent<C>)
    requires S.ServerInv(s) && e.SPut? && S.ServerHolds(s, e.ch, e.stream, e.was) && S.ServerFits(s, e.user, e.room, e.ch, e.was)
    ensures var s' := S.ServerPut(s, e.user, e.room, e.ch, e.stream, e.was);
      S.ServerInv(s') && S.Flat(s') == S.PlainStep(S.Flat(s), e)
  {
    S.ServerStepKeeps(s, e);
    S.StepRefinesPlain(s, e);
    hide S.ServerFits, S.ServerHolds, S.ServerPut, S.Flat, Inv, S.Owner;
  }

  lemma EndFitsWhole<C>(w: World<C>, s: S.Server<C>, e: Event<C>)
    requires Whole(w, s) && EnabledOn(w, s, e) && e.End? && Fits(w, e)
    ensures Whole(Step(w, e), StepOn(w, s, e))
  {
    EndKeeps(w, e);
    var seat := w.live[e.ch];
    assert seat.user in S.Flat(s) && S.Flat(s)[seat.user].ch == e.ch;
    assert R.Cleanup(seat) != [];
    DeletesChains(s, seat.user);
    S.ServerStepKeeps(s, S.SDelete(seat.user));
    S.StepRefinesPlain(s, S.SDelete(seat.user));
    hide Agree, S.ServerInv, S.ServerStep, S.Flat, LeaveRoom;
  }

  /** From agreement of hashes, counters and sound buckets, a step keeps all of it exactly when it fits:
      a new connection of a user with none open, or one that asks again for no room and is listed there
      under a name, and the end of a connection in a room with a positive id. */
  lemma StepAgreesIff<C>(w: World<C>, s: S.Server<C>, e: Event<C>)
    requires Whole(w, s) && EnabledOn(w, s, e)
    ensures Whole(Step(w, e), StepOn(w, s, e)) <==> Fits(w, e)
  {
    PlainAgreesIff(w, e);
    if Fits(w, e) {
      if e.Open? { OpenFitsWhole(w, s, e); } else { EndFitsWhole(w, s, e); }
    } else if PlainFits(w, e) {
      assert w.index[e.user] == Entry(e.ch, e.room);
      AgainFitsIff(s, e.user, e.room, e.ch);
      S.ServerPutKeepsIffFits(s, e.user, e.room, e.ch, e.stream, e.room);
    }
    hide Agree, S.ServerInv, S.ServerFits, S.ServerPut, S.Flat, Step, ChainsOpen;
  }

  // ---------------------------------------------------------------- every run

  ghost predicate Runs<C>(w: World<C>, s: S.Server<C>, es: seq<Event<C>>)
    decreases |es|
  {
    es == [] ||
    (S.ServerInv(s) && EnabledOn(w, s, es[0]) && Fits(w, es[0]) && Runs(Step(w, es[0]), StepOn(w, s, es[0]), es[1..]))
  }

  ghost function After<C>(w: World<C>, s: S.Server<C>, es: seq<Event<C>>): (World<C>, S.Server<C>)
    requires Runs(w, s, es)
    decreases |es|
  {
    if es == [] then (w, s) else After(Step(w, es[0]), StepOn(w, s, es[0]), es[1..])
  }

  lemma {:induction false} RunAgrees<C>(w: World<C>, s: S.Server<C>, es: seq<Event<C>>)
    requires Whole(w, s) && Runs(w, s, es)
    ensures var (w', s') := After(w, s, es); Whole(w', s')
    decreases |es|
  {
    if es != [] {
      StepAgreesIff(w, s, es[0]);
      hide Step, StepOn, Whole, EnabledOn, Fits;
      RunAgrees(Step(w, es[0]), StepOn(w, s, es[0]), es[1..]);
    }
  }

  /** New buckets with nobody connected. */
  lemma NobodyWhole<C>(s: S.Server<C>, routines: nat)
    requires s != [] && forall i | 0 <= i < |s| :: s[i] == Fresh<C>(routines)
    ensures Whole(Nobody<C>(), s)
  {
    hide S.Owner;
    FreshOk<C>(routines);
    assert S.ServerInv(s) by { hide Inv; }
    forall u ensures u !in S.Flat(s) {
      S.OneBucketPerUser(s, u);
    }
    assert S.Flat(s) == map[];
  }

  /** The open connections of a room. */
  ghost function InRoom<C>(w: World<C>, room: int): set<C> {
    set c | c in w.live && w.live[c].room == room
  }

  lemma Inhabited(users: set<int>)
    ensures users == {} || exists u :: u in users
  {
    if forall u :: u !in users {
      assert users == {};
    }
  }

  ghost function ChannelsOf<C>(index: map<int, Entry<C>>, users: set<int>): (r: set<C>)
    requires users <= index.Keys
    requires forall u, v | u in users && v in users && index[u].ch == index[v].ch :: u == v
    ensures |r| == |users|
    ensures forall c | c in r :: exists u :: u in users && index[u].ch == c
    ensures forall u | u in users :: index[u].ch in r
  {
    if users == {} then {}
    else
      Inhabited(users);
      var u :| u in users;
      ChannelsOf(index, users - {u}) + {index[u].ch}
  }

  /** In every run of steps that fit, from new buckets: a room's counter is the number of connections open
      in it, its hash holds exactly their users, and each of them is the channel a push to its user
      reaches through the buckets. */
  lemma CounterIsOpenConnections<C>(s: S.Server<C>, routines: nat, es: seq<Event<C>>, room: int, ch: C)
    requires s != [] && (forall i | 0 <= i < |s| :: s[i] == Fresh<C>(routines)) && Runs(Nobody<C>(), s, es)
    ensures var (w, s') := After(Nobody<C>(), s, es);
      && CountOf(w.db, room) == |InRoom(w, room)|
      && (forall u :: u in MembersOf(w.db, room) <==> exists c :: c in InRoom(w, room) && w.live[c].user == u)
      && (ch in w.live ==> w.live[ch].user in S.Flat(s') && S.Flat(s')[w.live[ch].user].ch == ch)
  {
    NobodyWhole(s, routines);
    RunAgrees(Nobody<C>(), s, es);
    var (w, s') := After(Nobody<C>(), s, es);
    hide After, Runs, S.Flat, S.ServerInv;
    MembersAreOpen(w, room);
  }

  lemma MembersAreOpen<C>(w: World<C>, room: int)
    requires Agree(w)
    ensures CountOf(w.db, room) == |InRoom(w, room)|
    ensures forall u :: u in MembersOf(w.db, room) <==> exists c :: c in InRoom(w, room) && w.live[c].user == u
  {
    var users := MembersOf(w.db, room).Keys;
    assert P.InStep(w.db, room);
    assert CountOf(w.db, room) == |users|;
    hide MembersOf, CountOf;
    forall u, v | u in users && v in users && w.index[u].ch == w.index[v].ch ensures u == v {
      assert w.live[w.index[u].ch] == R.Seat(u, w.index[u].room);
      assert w.live[w.index[v].ch] == R.Seat(v, w.index[v].room);
    }
    forall u | u in users ensures u in w.index && w.index[u].room == room {
      assert u in MembersOf(w.db, room) <==> u in w.index && w.index[u].room == room;
    }
    var chans := ChannelsOf(w.index, users);
    assert chans == InRoom(w, room) by {
      forall c | c in InRoom(w, room) ensures c in chans {
        assert w.index[w.live[c].user].ch == c && w.live[c].user in users;
      }
    }
    forall u | u in users ensures exists c :: c in InRoom(w, room) && w.live[c].user == u {
      assert w.index[u].ch in InRoom(w, room);
    }
  }

  // ---------------------------------------------------------------- openings that do not fit

  /** With a second connection open, ending the first silences the second: it stays open, but pushes no
      longer find it. Its user stays in the second room's hash if that is another room. */
  lemma SecondConnectionGoesSilent<C>(w: World<C>, user: int, r1: int, r2: int, name: string, c1: C, c2: C)
    requires Agree(w) && user !in w.index && user != 0 && name != "" && r1 > 0 && r2 > 0
    requires c1 !in w.live && c2 !in w.live && c1 != c2
    ensures Enabled(w, Open(c1, user, r1, name, NO_STREAM))
    ensures var w1 := Step(w, Open(c1, user, r1, name, NO_STREAM));
      Enabled(w1, Open(c2, user, r2, name, NO_STREAM)) &&
      var w2 := Step(w1, Open(c2, user, r2, name, NO_STREAM));
      Enabled(w2, End(c1)) &&
      var w3 := Step(w2, End(c1));
      && c2 in w3.live && w3.live[c2] == R.Seat(user, r2)
      && user !in MembersOf(w3.db, r1) && (user in MembersOf(w3.db, r2) <==> r1 != r2)
      && user !in w3.index
  {
    hide JoinRoom, LeaveRoom, MembersOf, Agree;
    var w1 := Step(w, Open(c1, user, r1, name, NO_STREAM));
    var w2 := Step(w1, Open(c2, user, r2, name, NO_STREAM));
    Joined(w.db, r1, user, name);
    Joined(w1.db, r2, user, name);
    LeaveEffect(w2.db, r1, user);
  }

  /** A connection that asks for a second room leaves its user behind in the first: when it ends, the
      user has no connection and is in no bucket, but the first room still lists and counts it. */
  lemma SecondRoomLeaks<C>(w: World<C>, user: int, r1: int, r2: int, name: string, ch: C)
    requires Agree(w) && user !in w.index && user != 0 && name != "" && r1 > 0 && r2 > 0 && r1 != r2
    requires ch !in w.live
    ensures Enabled(w, Open(ch, user, r1, name, NO_STREAM))
    ensures var w1 := Step(w, Open(ch, user, r1, name, NO_STREAM));
      Enabled(w1, Open(ch, user, r2, name, NO_STREAM)) &&
      var w2 := Step(w1, Open(ch, user, r2, name, NO_STREAM));
      Enabled(w2, End(ch)) &&
      var w3 := Step(w2, End(ch));
      && w3.live == w.live && w3.index == w.index
      && user in MembersOf(w3.db, r1) && user !in MembersOf(w3.db, r2)
      && CountOf(w3.db, r1) == CountOf(w.db, r1) + 1 && CountOf(w3.db, r2) == CountOf(w.db, r2)
  {
    hide JoinRoom, LeaveRoom, MembersOf, CountOf, Agree;
    NowhereListed(w, user, r1);
    NowhereListed(w, user, r2);
    LeftBehind(w.db, r1, r2, user, name);
    TwoRooms(w, user, r1, r2, name, ch);
    hide Step;
  }

  lemma TwoRooms<C>(w: World<C>, user: int, r1: int, r2: int, name: string, ch: C)
    requires user !in w.index && user != 0 && r1 > 0 && r2 > 0 && ch !in w.live
    ensures var w2 := Step(Step(w, Open(ch, user, r1, name, NO_STREAM)), Open(ch, user, r2, name, NO_STREAM));
      && ch in w2.live
      && Step(w2, End(ch))
         == World(w.index, LeaveRoom(JoinRoom(JoinRoom(w.db, r1, user, name), r2, user, name), r2, user), w.live)
  {
    hide JoinRoom, LeaveRoom;
    var w2 := Step(Step(w, Open(ch, user, r1, name, NO_STREAM)), Open(ch, user, r2, name, NO_STREAM));
    assert w2.live - {ch} == w.live && w2.index - {user} == w.index;
  }

  lemma NowhereListed<C>(w: World<C>, user: int, room: int)
    requires Agree(w) && user !in w.index
    ensures user !in MembersOf(w.db, room) && P.InStep(w.db, room)
  {
  }

  /** Joining two rooms and leaving the second. */
  lemma LeftBehind(db: Db, r1: int, r2: int, user: int, name: string)
    requires user != 0 && name != "" && r2 > 0 && r1 != r2 && P.InStep(db, r2)
    requires user !in MembersOf(db, r1) && user !in MembersOf(db, r2)
    ensures var db' := LeaveRoom(JoinRoom(JoinRoom(db, r1, user, name), r2, user, name), r2, user);
      && MembersOf(db', r1) == MembersOf(db, r1)[user := name] && MembersOf(db', r2) == MembersOf(db, r2)
      && CountOf(db', r1) == CountOf(db, r1) + 1 && CountOf(db', r2) == CountOf(db, r2)
  {
    hide JoinRoom, LeaveRoom, MembersOf, CountOf;
    var db1 := JoinRoom(db, r1, user, name);
    var db2 := JoinRoom(db1, r2, user, name);
    var db' := LeaveRoom(db2, r2, user);
    Joined(db, r1, user, name);
    Joined(db1, r2, user, name);
    LeaveEffect(db2, r2, user);
    assert MembersOf(db', r2) == MembersOf(db, r2);
  }
}
