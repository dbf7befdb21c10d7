/** A message's whole way: queued by the logic layer, passed on by the task layer, called into the
    connect servers, offered to channels (logic/rpc.go, task/push.go, task/rpc.go, connect/rpc.go). */
module EndToEnd {
  import opened ChannelStream
  import opened ServiceRecords
  import D = Dispatch
  import L = Logic
  import M = IndexModel
  import P = Pipeline
  import RedisStore
  import S = ServerModel
  import F = Fanout

  // ---------------------------------------------------------------- through the task layer

  /** Nothing is left in the queue, in hand, or with a worker. */
  ghost predicate Idle(w: P.World) {
    w.queue == [] && w.inHand == [] && forall q | q in w.workers :: q == []
  }

  lemma OnlyOne<T>(s: seq<T>, x: T)
    requires forall y :: multiset(s)[y] == multiset([x])[y]
    ensures s == [x]
  {
    assert multiset(s) == multiset{x};
    assert |s| == |multiset(s)|;
    if |s| == 1 {
      assert s == [s[0]];
      assert x in multiset(s);
    }
  }

  lemma NoneAtAll<T>(s: seq<T>)
    requires forall y :: multiset(s)[y] == 0
    ensures s == []
  {
    assert multiset(s) == multiset{};
    assert |s| == |multiset(s)|;
  }

  /** A run from an empty pipeline that publishes one call and ends idle has handed on that call alone,
      or, if its worker found no instance of its server, nothing. */
  lemma HandedOnOnce(workers: nat, servers: D.Table, capacity: nat, es: seq<P.Event>, call: P.Call)
    requires P.Runs(P.Empty(workers, servers), capacity, es) && P.Published(es) == [call]
    requires Idle(P.After(P.Empty(workers, servers), capacity, es))
    ensures var w0 := P.Empty(workers, servers);
      && P.After(w0, capacity, es).calls == (if P.Served(w0, capacity, es) then [call] else [])
      && (!call.Single? ==> P.Served(w0, capacity, es))
  {
    var w0 := P.Empty(workers, servers);
    var w := P.After(w0, capacity, es);
    var lost := P.ServedOrLost(w0, capacity, es);
    forall x ensures multiset(w.calls)[x] + P.Lost(w0, capacity, es, x) == multiset([call])[x] {
      P.PipelineConserves(w0, capacity, es, x);
      P.NoneWithWorkers(w0.workers, x);
      P.NoneWithWorkers(w.workers, x);
      hide P.After, P.Runs, P.WithWorkers, P.Asks, P.Lost;
    }
    hide P.After, P.Runs, P.Lost, P.Served, P.Empty, Idle;
    if P.Served(w0, capacity, es) {
      OnlyOne(w.calls, call);
    } else {
      assert multiset([call])[lost] > 0;
      assert multiset(w.calls)[call] == 0;
      NoneAtAll(w.calls);
    }
  }

  /** A single message that was handed on met an instance of its server. */
  lemma HandedOnMet(workers: nat, servers: D.Table, capacity: nat, es: seq<P.Event>, params: P.PushParams)
    requires P.Runs(P.Empty(workers, servers), capacity, es)
    requires P.After(P.Empty(workers, servers), capacity, es).calls == [P.Single(params)]
    ensures var w := P.After(P.Empty(workers, servers), capacity, es); |w.met| == 1 && D.Available(w.met[0], params.serverId)
  {
    P.SinglesMetTheirServer(P.Empty(workers, servers), capacity, es);
    hide P.After, P.Runs;
  }

  // ---------------------------------------------------------------- messages without a server

  /** Discovery lists no server without an id. */
  lemma NamelessIsUnavailable(servers: D.Table, rs: seq<Record>)
    requires Groups(servers, rs)
    ensures !D.Available(servers, "")
  {
    NoneWithoutId(rs);
    hide Of;
  }

  lemma {:induction false} NoneWithoutId(rs: seq<Record>)
    ensures Of(rs, "") == []
  {
    hide ParamByKey;
    if rs != [] { NoneWithoutId(rs[..|rs| - 1]); }
  }

  /** A message for a user who is recorded on no server ends the task process when its worker takes it,
      with all that waits in its memory. */
  lemma StrangerEndsTask(db: RedisStore.Db, user: int, body: string, rs: seq<Record>, w: P.World, capacity: nat, i: nat)
    requires Groups(w.servers, rs) && L.TextAt(db, RedisStore.ServerOf(user)) == ""
    requires P.Enabled(w, capacity, P.Work(i)) && P.Asks(L.SingleMsg(db, user, body)) == [P.Single(w.workers[i][0])]
    ensures var w' := P.Step(w, capacity, P.Work(i));
      !w'.alive && w'.inHand == [] && (forall q | q in w'.workers :: q == []) && w'.calls == w.calls
  {
    NamelessIsUnavailable(w.servers, rs);
  }

  /** Logging out makes a user such a one; the next message to the user is the last that is taken. */
  lemma LoggedOutEndsTask(db: RedisStore.Db, token: string, body: string, rs: seq<Record>, servers: D.Table, workers: nat, capacity: nat)
    requires L.SessionOf(db, token).Some? && Groups(servers, rs) && workers > 0 && capacity > 0
    ensures var user := L.SessionOf(db, token).value.userId;
      var es := [P.Publish(L.SingleMsg(L.LogoutDb(db, token), user, body)), P.Pop, P.Dispatch(0), P.Work(0)];
      var w0 := P.Empty(workers, servers);
      && P.Runs(w0, capacity, es) && !P.Served(w0, capacity, es)
      && !P.After(w0, capacity, es).alive && P.After(w0, capacity, es).calls == []
  {
    var user := L.SessionOf(db, token).value.userId;
    var m := L.SingleMsg(L.LogoutDb(db, token), user, body);
    assert m.serverId == "";
    NamelessIsUnavailable(servers, rs);
    hide L.SessionOf, L.LogoutDb, Groups, Of;
    var w0 := P.Empty(workers, servers);
    var w1 := P.Step(w0, capacity, P.Publish(m));
    var w2 := P.Step(w1, capacity, P.Pop);
    var w3 := P.Step(w2, capacity, P.Dispatch(0));
    assert w3.workers[0] == [P.PushParams("", user, body)];
    var es := [P.Publish(m), P.Pop, P.Dispatch(0), P.Work(0)];
    assert es[1..] == [P.Pop, P.Dispatch(0), P.Work(0)] && es[1..][1..] == [P.Dispatch(0), P.Work(0)]
      && es[1..][1..][1..] == [P.Work(0)] && es[1..][1..][1..][1..] == [];
    assert P.Dies(w3, P.Work(0));
    var w4 := P.Step(w3, capacity, P.Work(0));
    assert !w4.alive && w4.calls == [];
    assert P.Enabled(w0, capacity, es[0]) && P.Enabled(w1, capacity, P.Pop) && P.Enabled(w2, capacity, P.Dispatch(0));
    hide P.Step, P.Enabled, P.Dies;
    assert P.Runs(w3, capacity, [P.Work(0)]) && P.After(w3, capacity, [P.Work(0)]) == w4 && !P.Served(w3, capacity, [P.Work(0)]);
    assert P.Runs(w2, capacity, es[1..][1..]) && P.After(w2, capacity, es[1..][1..]) == w4 && !P.Served(w2, capacity, es[1..][1..]);
  }

  // ---------------------------------------------------------------- into the connect servers

  /** Each instance of the picker's table is the client of one connect server. */
  type Cluster<C(==)> = map<Instance, S.Server<C>>

  /** The message a call carries to the connect layer. */
  function ConnectMsg(op: int, body: string, seqId: string): Msg { Msg(1, op, seqId, body) }

  ghost predicate Running<C>(cl: Cluster<C>) {
    forall k | k in cl :: S.ServerInv(cl[k])
  }

  ghost function CallSingle<C>(cl: Cluster<C>, k: Instance, user: int, m: Msg): Cluster<C>
    requires Running(cl) && k in cl
  {
    cl[k := S.ServerStep(cl[k], S.SPush(user, m))]
  }

  /** A message queued for a user, alone in the task layer, is handed on if and only if the server the user
      is recorded on has an instance when its worker takes it. It then reaches one instance of that server,
      and there the channel registered for the user: it comes to that channel once, gets into its queue exactly
      if that has room, and comes to no other channel of any server. */
  lemma SingleArrivesOnce<C>(db: RedisStore.Db, user: int, body: string, seqId: string,
      workers: nat, servers: D.Table, capacity: nat, es: seq<P.Event>, p: D.Picker, cl: Cluster<C>, j: Instance, i: nat, c: C)
    requires var w0 := P.Empty(workers, servers); P.Runs(w0, capacity, es) && Idle(P.After(w0, capacity, es))
    requires P.Published(es) == P.Asks(L.SingleMsg(db, user, body))
    requires forall id, x | id in p.servers && x in p.servers[id] :: x in cl
    requires Running(cl) && j in cl && i < |cl[j]| && c in cl[j][i].streams
    ensures var id := L.TextAt(db, RedisStore.ServerOf(user));
      var w0 := P.Empty(workers, servers);
      var w := P.After(w0, capacity, es);
      if !P.Served(w0, capacity, es) then w.calls == []
      else
        && w.calls == [P.Single(P.PushParams(id, user, body))] && |w.met| == 1 && D.Available(w.met[0], id)
        && (p.servers == w.met[0] ==>
              var k := D.Pick(p, id).1.value;
              var m := ConnectMsg(RedisStore.OP_SINGLE_SEND, body, seqId);
              k in p.servers[id] && k in cl &&
              var cl' := CallSingle(cl, k, user, m);
              j in cl' && i < |cl'[j]| && c in cl'[j][i].streams
              && if j == k && user in S.Flat(cl[k]) && S.Flat(cl[k])[user].ch == c
                 then CameIn(cl[j][i].streams[c], cl'[j][i].streams[c], m, true)
                 else cl'[j][i].streams[c] == cl[j][i].streams[c])
  {
    var id := L.TextAt(db, RedisStore.ServerOf(user));
    var params := P.PushParams(id, user, body);
    hide P.After, P.Runs, P.Published, P.Served, Idle, P.Empty;
    assert P.Asks(L.SingleMsg(db, user, body)) == [P.Single(params)];
    HandedOnOnce(workers, servers, capacity, es, P.Single(params));
    if P.Served(P.Empty(workers, servers), capacity, es) {
      HandedOnMet(workers, servers, capacity, es, params);
      if p.servers == P.After(P.Empty(workers, servers), capacity, es).met[0] {
        SingleOffers(p, id, user, ConnectMsg(RedisStore.OP_SINGLE_SEND, body, seqId), cl, j, i, c);
      }
    }
    hide D.Pick, S.ServerInv, S.ServerStep, S.Flat, CameIn, CallSingle;
  }

  lemma SingleOffers<C>(p: D.Picker, id: string, user: int, m: Msg, cl: Cluster<C>, j: Instance, i: nat, c: C)
    requires D.Available(p.servers, id) && forall id, x | id in p.servers && x in p.servers[id] :: x in cl
    requires Running(cl) && j in cl && i < |cl[j]| && c in cl[j][i].streams
    ensures var k := D.Pick(p, id).1.value;
      k in p.servers[id] && k in cl &&
      var cl' := CallSingle(cl, k, user, m);
      j in cl' && i < |cl'[j]| && c in cl'[j][i].streams
      && if j == k && user in S.Flat(cl[k]) && S.Flat(cl[k])[user].ch == c
         then CameIn(cl[j][i].streams[c], cl'[j][i].streams[c], m, true)
         else cl'[j][i].streams[c] == cl[j][i].streams[c]
  {
    var k := D.Pick(p, id).1.value;
    assert k in p.servers[id];
    hide S.ServerInv, S.ServerStep, S.Flat, CameIn, D.Pick;
    if j == k { S.SinglePushFollowsPlainMap(cl[k], user, m, i, c); }
  }

  ghost function CallRoom<C>(cl: Cluster<C>, ks: seq<Instance>, r: M.Request): Cluster<C>
    requires forall k | k in ks :: k in cl && forall i | 0 <= i < |cl[k]| :: cl[k][i].routines != []
    requires M.NoRepeats(ks)
    decreases |ks|
  {
    if ks == [] then cl else CallRoom(cl[ks[0] := S.BroadcastAll(cl[ks[0]], r)], ks[1..], r)
  }

  /** The calls reach each of the instances once, and no other. */
  lemma {:induction false} CallRoomAt<C>(cl: Cluster<C>, ks: seq<Instance>, r: M.Request, j: Instance)
    requires forall k | k in ks :: k in cl && forall i | 0 <= i < |cl[k]| :: cl[k][i].routines != []
    requires M.NoRepeats(ks) && j in cl
    ensures j in CallRoom(cl, ks, r)
    ensures CallRoom(cl, ks, r)[j] == if j in ks then S.BroadcastAll(cl[j], r) else cl[j]
    decreases |ks|
  {
    hide S.BroadcastAll;
    if ks != [] {
      assert forall k | k in ks[1..] :: k in ks && k != ks[0];
      assert j in ks <==> j == ks[0] || j in ks[1..];
      CallRoomAt(cl[ks[0] := S.BroadcastAll(cl[ks[0]], r)], ks[1..], r, j);
    }
  }

  /** One instance of each server is picked, so no instance is picked twice. */
  lemma WalkRepeatsNone(p: D.Picker, order: seq<string>)
    requires D.RemembersOne(p) && D.Once(order) && forall id | id in order :: D.Available(p.servers, id)
    requires forall id, x | id in p.servers && x in p.servers[id] :: x.serverId == id
    ensures var ks := D.Chosen(p, D.Picks(order));
      |ks| == |order| && M.NoRepeats(ks) && forall i | 0 <= i < |ks| :: ks[i].serverId == order[i]
    ensures forall k | k in D.Chosen(p, D.Picks(order)) :: k.serverId in p.servers && k in p.servers[k.serverId]
  {
    D.WalkTakesFirsts(p, order);
    hide D.Chosen, D.Picks;
    var ks := D.Chosen(p, D.Picks(order));
    forall i | 0 <= i < |ks| ensures ks[i].serverId == order[i] {
      assert order[i] in p.servers && ks[i] in p.servers[order[i]];
    }
  }

  // ---------------------------------------------------------------- what a room is told

  /** What is encoded into the body of a notice. */
  datatype Notice = CountNotice(count: int) | InfoNotice(roomId: int, count: int, members: map<int, string>)

  /** The request a room call carries to the connect servers. */
  function RequestOf(call: P.Call, encode: Notice -> string, seqId: string): M.Request
    requires !call.Single?
  {
    match call
    case Room(room, msg) => M.Request(room, ConnectMsg(RedisStore.OP_ROOM_SEND, msg, seqId))
    case RoomCountCall(room, count) => M.Request(room, ConnectMsg(RedisStore.OP_ROOM_COUNT, encode(CountNotice(count)), seqId))
    case RoomInfo(room, members) =>
      M.Request(room, ConnectMsg(RedisStore.OP_ROOM_INFO, encode(InfoNotice(room, |members|, members)), seqId))
  }

  /** No routine of any server has anything to do. */
  ghost predicate Quiet<C>(cl: Cluster<C>) {
    Running(cl) && forall k, n | k in cl && 0 <= n < |cl[k]| :: cl[k][n].routines != [] && F.Drained(cl[k][n])
  }

  /** A walk over all servers that have an instance; every instance is a server. */
  ghost predicate Walks<C>(p: D.Picker, order: seq<string>, cl: Cluster<C>) {
    && D.RemembersOne(p) && D.Once(order) && (forall id :: id in order <==> D.Available(p.servers, id))
    && (forall id, x | id in p.servers && x in p.servers[id] :: x.serverId == id && x in cl)
  }

  /** The runs of a server's buckets that take a broadcast to its end. */
  ghost predicate Drains<C>(s: S.Server<C>, r: M.Request, runs: seq<seq<M.Event<C>>>)
    requires forall n | 0 <= n < |s| :: s[n].routines != []
  {
    && |runs| == |s|
    && forall n | 0 <= n < |s| ::
      var b := S.BroadcastAll(s, r)[n];
      M.Runs(b, runs[n]) && F.Drained(M.After(b, runs[n])) && forall e | e in runs[n] :: e.EHandle? || e.EWrite?
  }

  /** The message comes once to the channels of the room in the bucket, and to no other. */
  ghost predicate OnceInRoom<C>(b: M.Bucket<C>, b': M.Bucket<C>, r: M.Request, c: C, atRest: bool)
    requires c in b.streams && c in b'.streams
  {
    if c in M.Chain(b, r.roomId) then CameIn(b.streams[c], b'.streams[c], r.msg, atRest)
    else b'.streams[c].offered == b.streams[c].offered && Through(b'.streams[c]) == Through(b.streams[c])
  }

  /** One instance of every server is called, once; there, the request comes once to every channel of its room
      in any bucket, and to no other. Servers whose instance was not picked hear nothing. */
  ghost predicate OnceEverywhere<C>(p: D.Picker, order: seq<string>, cl: Cluster<C>, r: M.Request,
      j: Instance, runs: seq<seq<M.Event<C>>>, i: nat, c: C)
    requires j in cl && i < |cl[j]| && c in cl[j][i].streams && Quiet(cl) && Drains(cl[j], r, runs)
  {
    var ks := D.Chosen(p, D.Picks(order));
    && |ks| == |order| && M.NoRepeats(ks) && (forall n | 0 <= n < |ks| :: ks[n].serverId == order[n])
    && (forall k | k in ks :: k in cl)
    && var cl' := CallRoom(cl, ks, r);
    j in cl' &&
    if j !in ks then cl'[j] == cl[j]
    else
      cl'[j] == S.BroadcastAll(cl[j], r)
      && var b := M.After(cl'[j][i], runs[i]);
      c in b.streams && OnceInRoom(cl[j][i], b, r, c, M.EWrite(c) !in runs[i])
  }

  /** A call to a room, alone in the task layer, is handed on, and its request goes everywhere once. */
  lemma BroadcastArrivesOnce<C>(call: P.Call, r: M.Request,
      workers: nat, servers: D.Table, capacity: nat, es: seq<P.Event>, p: D.Picker, order: seq<string>, cl: Cluster<C>,
      j: Instance, runs: seq<seq<M.Event<C>>>, i: nat, c: C)
    requires var w0 := P.Empty(workers, servers); P.Runs(w0, capacity, es) && Idle(P.After(w0, capacity, es))
    requires P.Published(es) == [call] && !call.Single?
    requires Walks(p, order, cl) && Quiet(cl) && j in cl && i < |cl[j]| && c in cl[j][i].streams && Drains(cl[j], r, runs)
    ensures P.After(P.Empty(workers, servers), capacity, es).calls == [call]
    ensures OnceEverywhere(p, order, cl, r, j, runs, i, c)
  {
    hide P.After, P.Runs, P.Published, Idle, D.Chosen, D.Picks, S.ServerInv, M.After, M.Runs, F.Drained, S.BroadcastAll;
    HandedOnOnce(workers, servers, capacity, es, call);
    hide D.RemembersOne, D.Once;
    WalkRepeatsNone(p, order);
    var ks := D.Chosen(p, D.Picks(order));
    CallRoomAt(cl, ks, r, j);
    hide CallRoom, M.NoRepeats, CameIn;
    if j in ks { RoomOffers(cl[j], r, runs, i, c); }
  }

  /** A room message, alone in the task layer, comes to every channel of the room once, as it was sent. */
  lemma RoomArrivesOnce<C>(db: RedisStore.Db, room: int, body: string, seqId: string, encode: Notice -> string,
      workers: nat, servers: D.Table, capacity: nat, es: seq<P.Event>, p: D.Picker, order: seq<string>, cl: Cluster<C>,
      j: Instance, runs: seq<seq<M.Event<C>>>, i: nat, c: C)
    requires var w0 := P.Empty(workers, servers); P.Runs(w0, capacity, es) && Idle(P.After(w0, capacity, es))
    requires P.Published(es) == P.Asks(L.RoomMsg(db, room, body))
    requires P.After(P.Empty(workers, servers), capacity, es).met == [p.servers]
    requires Walks(p, order, cl) && Quiet(cl) && j in cl && i < |cl[j]| && c in cl[j][i].streams
    requires Drains(cl[j], M.Request(room, Msg(1, 3, seqId, body)), runs)
    ensures var calls, r := P.After(P.Empty(workers, servers), capacity, es).calls, M.Request(room, Msg(1, 3, seqId, body));
      |calls| == 1 && !calls[0].Single? && RequestOf(calls[0], encode, seqId) == r && OnceEverywhere(p, order, cl, r, j, runs, i, c)
  {
    hide P.After, P.Runs, P.Published, Walks, Quiet, Drains, OnceEverywhere, Idle;
    BroadcastArrivesOnce(P.Room(room, body), M.Request(room, Msg(1, 3, seqId, body)), workers, servers, capacity, es, p, order, cl, j, runs, i, c);
  }

  /** A room's count, alone in the task layer, comes to every channel of that room once: its counter as the
      logic layer read it. */
  lemma CountArrivesOnce<C>(db: RedisStore.Db, room: int, seqId: string, encode: Notice -> string,
      workers: nat, servers: D.Table, capacity: nat, es: seq<P.Event>, p: D.Picker, order: seq<string>, cl: Cluster<C>,
      j: Instance, runs: seq<seq<M.Event<C>>>, i: nat, c: C)
    requires var w0 := P.Empty(workers, servers); P.Runs(w0, capacity, es) && Idle(P.After(w0, capacity, es))
    requires P.Published(es) == P.Asks(L.CountMsg(db, room))
    requires P.After(P.Empty(workers, servers), capacity, es).met == [p.servers]
    requires Walks(p, order, cl) && Quiet(cl) && j in cl && i < |cl[j]| && c in cl[j][i].streams
    requires Drains(cl[j], M.Request(room, Msg(1, 4, seqId, encode(CountNotice(L.CountOf(db, room))))), runs)
    ensures var calls := P.After(P.Empty(workers, servers), capacity, es).calls;
      var r := M.Request(room, Msg(1, 4, seqId, encode(CountNotice(L.CountOf(db, room)))));
      |calls| == 1 && !calls[0].Single? && RequestOf(calls[0], encode, seqId) == r && OnceEverywhere(p, order, cl, r, j, runs, i, c)
  {
    hide P.After, P.Runs, P.Published, Walks, Quiet, Drains, OnceEverywhere, Idle;
    var r := M.Request(room, Msg(1, 4, seqId, encode(CountNotice(L.CountOf(db, room)))));
    BroadcastArrivesOnce(P.RoomCountCall(room, L.CountOf(db, room)), r, workers, servers, capacity, es, p, order, cl, j, runs, i, c);
  }

  /** A room's members, alone in the task layer, come to every channel of that room once: as the logic layer
      read them. */
  lemma InfoArrivesOnce<C>(db: RedisStore.Db, room: int, seqId: string, encode: Notice -> string,
      workers: nat, servers: D.Table, capacity: nat, es: seq<P.Event>, p: D.Picker, order: seq<string>, cl: Cluster<C>,
      j: Instance, runs: seq<seq<M.Event<C>>>, i: nat, c: C)
    requires var w0 := P.Empty(workers, servers); P.Runs(w0, capacity, es) && Idle(P.After(w0, capacity, es))
    requires P.Published(es) == P.Asks(L.InfoMsg(db, room))
    requires P.After(P.Empty(workers, servers), capacity, es).met == [p.servers]
    requires Walks(p, order, cl) && Quiet(cl) && j in cl && i < |cl[j]| && c in cl[j][i].streams
    requires var names := L.MembersOf(db, room);
      Drains(cl[j], M.Request(room, Msg(1, 5, seqId, encode(InfoNotice(room, |names|, names)))), runs)
    ensures var calls, names := P.After(P.Empty(workers, servers), capacity, es).calls, L.MembersOf(db, room);
      var r := M.Request(room, Msg(1, 5, seqId, encode(InfoNotice(room, |names|, names))));
      |calls| == 1 && !calls[0].Single? && RequestOf(calls[0], encode, seqId) == r && OnceEverywhere(p, order, cl, r, j, runs, i, c)
  {
    hide P.After, P.Runs, P.Published, Walks, Quiet, Drains, OnceEverywhere, Idle;
    var names := L.MembersOf(db, room);
    var r := M.Request(room, Msg(1, 5, seqId, encode(InfoNotice(room, |names|, names))));
    BroadcastArrivesOnce(P.RoomInfo(room, names), r, workers, servers, capacity, es, p, order, cl, j, runs, i, c);
  }

  lemma RoomOffers<C>(s: S.Server<C>, r: M.Request, runs: seq<seq<M.Event<C>>>, i: nat, c: C)
    requires S.ServerInv(s) && i < |s| && c in s[i].streams
    requires (forall n | 0 <= n < |s| :: s[n].routines != [] && F.Drained(s[n])) && Drains(s, r, runs)
    ensures |S.BroadcastAll(s, r)| == |s| && M.Runs(S.BroadcastAll(s, r)[i], runs[i])
    ensures var b := M.After(S.BroadcastAll(s, r)[i], runs[i]);
      c in b.streams && OnceInRoom(s[i], b, r, c, M.EWrite(c) !in runs[i])
  {
    hide M.After, M.Runs, F.Drained, CameIn, Through;
    assert S.ServerStep(s, S.SPushRoom(r)) == S.BroadcastAll(s, r);
    S.RoomPushReachesAll(s, r, runs, i, c);
  }
}
