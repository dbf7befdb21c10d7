/** The logic layer's calls, command by command over Redis (logic/rpc.go, logic/dao/user.go). */
module Logic {
  import opened RedisStore

  datatype Option<T> = None | Some(value: T)

  // ---------------------------------------------------------------- reading the store

  function SessionOf(db: Db, token: string): Option<Value> {
    if Session(token) in db && db[Session(token)].SessionData? then Some(db[Session(token)]) else None
  }

  function TextAt(db: Db, k: Key): string {
    if k in db && db[k].Text? then db[k].text else ""
  }

  function MembersOf(db: Db, room: int): map<int, string> {
    if RoomUsers(room) in db && db[RoomUsers(room)].Members? then db[RoomUsers(room)].names else map[]
  }

  function NameAt(db: Db, room: int, user: int): string {
    if user in MembersOf(db, room) then MembersOf(db, room)[user] else ""
  }

  function CountOf(db: Db, room: int): int {
    if RoomCount(room) in db && db[RoomCount(room)].Number? then db[RoomCount(room)].n else 0
  }

  function QueueOf(db: Db): seq<RedisMsg> {
    if Queue in db && db[Queue].List? then db[Queue].messages else []
  }

  /** A token that spells the suffix of a user's login key: reading its session finds that key's string
      where a hash is asked for, and fails. */
  predicate Clashes(db: Db, token: string) {
    exists k :: k in db && Meets(Session(token), k)
  }

  /** Session keys are of issued tokens and hold sessions, login keys hold strings. */
  predicate Sorted(db: Db) {
    forall k | k in db :: Proper(k) && (k.Session? ==> db[k].SessionData?) && (k.LoginOf? ==> db[k].Text?)
  }

  /** Reading a session fails exactly with a token that clashes, which has no session; otherwise it finds
      the token's session, if there is one. */
  lemma SessionReads(db: Db, token: string)
    requires Sorted(db)
    ensures var r := Effect(Sees(db, Session(token)), GetAll(Session(token))).1;
      && (r == WrongType <==> Clashes(db, token))
      && r == (match SessionOf(db, token) case Some(s) => Found(s) case None => if Clashes(db, token) then WrongType else Nothing)
  {
    hide Meets;
    if Session(token) in db {
      forall k | k in db ensures !Meets(Session(token), k) {
        NoLoginMeets(Session(token), k);
      }
    }
    forall k | k in db && Meets(Session(token), k) ensures k.LoginOf? {
      MeetsLogin(Session(token), k);
    }
  }

  lemma MeetsLogin(j: Key, k: Key)
    requires Meets(j, k)
    ensures k.LoginOf?
  {
  }

  // ---------------------------------------------------------------- single commands

  function HSet(db: Db, room: int, user: int, name: string): Db {
    db[RoomUsers(room) := Members(MembersOf(db, room)[user := name])]
  }

  /** A hash that loses its last field is gone. */
  function HDel(db: Db, room: int, user: int): Db {
    var rest := MembersOf(db, room) - {user};
    if rest == map[] then db - {RoomUsers(room)} else db[RoomUsers(room) := Members(rest)]
  }

  function AddCount(db: Db, room: int, d: int): Db {
    db[RoomCount(room) := Number(CountOf(db, room) + d)]
  }

  function LPush(db: Db, m: RedisMsg): Db { db[Queue := List([m] + QueueOf(db))] }

  /** Each key of a room, and the queue, holds the kind of value the program puts there. */
  predicate WellTyped(db: Db, room: int) {
    && (RoomUsers(room) in db ==> db[RoomUsers(room)].Members? && db[RoomUsers(room)].names != map[])
    && (RoomCount(room) in db ==> db[RoomCount(room)].Number?)
    && (Queue in db ==> db[Queue].List?)
  }

  /** The steps of the calls below are the store's own commands. */
  lemma StepsAreCommands(db: Db, room: int, user: int, name: string, d: int, m: RedisMsg)
    requires WellTyped(db, room)
    ensures Apply(db, RoomUsers(room), SetField(RoomUsers(room), user, name)) == (HSet(db, room, user, name), Done)
    ensures Apply(db, RoomUsers(room), DelField(RoomUsers(room), user)) == (HDel(db, room, user), Done)
    ensures Apply(db, RoomCount(room), Add(RoomCount(room), d)) == (AddCount(db, room, d), Found(Number(CountOf(db, room) + d)))
    ensures Apply(db, Queue, PushFront(Queue, m)) == (LPush(db, m), Done)
    ensures var r := Apply(db, RoomUsers(room), GetField(RoomUsers(room), user)).1;
      NameAt(db, room, user) == if r.Field? then r.name else ""
  {
    assert [m] + [] == [m];
    if RoomUsers(room) !in db {
      assert db - {RoomUsers(room)} == db && map[][user := name] == map[user := name];
    }
  }

  /** The replies aside, what a run of commands makes of the store. */
  function After(db: Db, cs: seq<Command>): Db {
    if cs == [] then db else Apply(After(db, cs[..|cs| - 1]), cs[|cs| - 1].key, cs[|cs| - 1]).0
  }

  lemma OneMore(db: Db, cs: seq<Command>, c: Command)
    ensures After(db, cs + [c]) == Apply(After(db, cs), c.key, c).0
  {
    assert (cs + [c])[..|cs|] == cs;
  }

  /** What is put is found, as a string or a number, and what is deleted is not. */
  lemma StringsAreCommands(db: Db, k: Key, v: Value)
    ensures Apply(db, k, Put(k, v)) == (db[k := v], Done) && Apply(db, k, Del(k)) == (db - {k}, Done)
    ensures v.Text? || v.Number? ==> Apply(db[k := v], k, Get(k)) == (db[k := v], Found(v))
    ensures Apply(db - {k}, k, Get(k)) == (db - {k}, Nothing)
    ensures TextAt(db, k) == match Apply(db, k, Get(k)).1 case Found(Text(t)) => t case _ => ""
  {
    assert db - {k} - {k} == db - {k};
    assert db[k := v][k := v] == db[k := v];
  }

  /** Taking from the back of the queue gives its oldest message. */
  lemma PopTakesOldest(db: Db)
    requires WellTyped(db, 0)
    ensures var ((db', r), q) := (Apply(db, Queue, PopBack(Queue)), QueueOf(db));
      if q == [] then r == Nothing && QueueOf(db') == [] else r == Popped(q[|q| - 1]) && QueueOf(db') == q[..|q| - 1]
  {
    assert QueueOf(db)[..0] == [];
  }

  /** The session calls are runs of the store's commands, in this order. */
  lemma CallsAreCommands(db: Db, user: int, name: string, token: string)
    ensures var linked := TextAt(db, LoginOf(user));
      LoginDb(db, user, name, token) ==
        After(db, (if linked != "" then [Del(Session(linked))] else [])
                  + [Put(Session(token), SessionData(user, name))] + [Put(LoginOf(user), Text(token))])
    ensures SessionOf(db, token).Some? ==>
      var u := SessionOf(db, token).value.userId;
      LogoutDb(db, token) == After(db, [Del(LoginOf(u))] + [Del(ServerOf(u))] + [Del(Session(token))])
  {
    var linked := TextAt(db, LoginOf(user));
    var first := if linked != "" then [Del(Session(linked))] else [];
    var put, link := Put(Session(token), SessionData(user, name)), Put(LoginOf(user), Text(token));
    OneMore(db, [], Del(Session(linked)));
    assert [] + [Del(Session(linked))] == [Del(Session(linked))];
    OneMore(db, first, put);
    OneMore(db, first + [put], link);
    if SessionOf(db, token).Some? {
      var u := SessionOf(db, token).value.userId;
      OneMore(db, [], Del(LoginOf(u)));
      assert [] + [Del(LoginOf(u))] == [Del(LoginOf(u))];
      OneMore(db, [Del(LoginOf(u))], Del(ServerOf(u)));
      OneMore(db, [Del(LoginOf(u))] + [Del(ServerOf(u))], Del(Session(token)));
    }
    hide After;
  }

  lemma HSetChanges(db: Db, r: int, u: int, name: string)
    ensures MembersOf(HSet(db, r, u, name), r) == MembersOf(db, r)[u := name]
    ensures forall q | q != r :: MembersOf(HSet(db, r, u, name), q) == MembersOf(db, q)
    ensures forall q :: CountOf(HSet(db, r, u, name), q) == CountOf(db, q)
  {
  }

  lemma HDelChanges(db: Db, r: int, u: int)
    ensures MembersOf(HDel(db, r, u), r) == MembersOf(db, r) - {u}
    ensures forall q | q != r :: MembersOf(HDel(db, r, u), q) == MembersOf(db, q)
    ensures forall q :: CountOf(HDel(db, r, u), q) == CountOf(db, q)
  {
  }

  lemma AddCountChanges(db: Db, r: int, d: int)
    ensures forall q :: MembersOf(AddCount(db, r, d), q) == MembersOf(db, q)
    ensures forall q :: CountOf(AddCount(db, r, d), q) == if q == r then CountOf(db, r) + d else CountOf(db, q)
  {
  }

  // ---------------------------------------------------------------- whole calls

  /** The room part of a connect: a user without a name in the room's hash is added and counted. */
  function JoinRoom(db: Db, room: int, user: int, name: string): Db {
    if NameAt(db, room, user) == "" then AddCount(HSet(db, room, user, name), room, 1) else db
  }

  /** The room part of a disconnect: the count goes down if it is positive, the user goes. */
  function LeaveRoom(db: Db, room: int, user: int): Db {
    var db1 := if room > 0 && CountOf(db, room) > 0 then AddCount(db, room, -1) else db;
    if user != 0 then HDel(db1, room, user) else db1
  }

  function ConnectDb(db: Db, token: string, room: int, serverId: string): Db {
    match SessionOf(db, token)
    case None => db
    case Some(s) => if s.userId == 0 then db else JoinRoom(db[ServerOf(s.userId) := Text(serverId)], room, s.userId, s.userName)
  }

  /** What is queued for one user: the server it was last connected to is looked up. */
  function SingleMsg(db: Db, user: int, body: string): RedisMsg {
    RedisMsg(OP_SINGLE_SEND, TextAt(db, ServerOf(user)), 0, user, body, 0, map[])
  }

  function RoomMsg(db: Db, room: int, msg: string): RedisMsg {
    RedisMsg(OP_ROOM_SEND, "", room, 0, msg, |MembersOf(db, room)|, MembersOf(db, room))
  }

  function CountMsg(db: Db, room: int): RedisMsg {
    RedisMsg(OP_ROOM_COUNT, "", room, 0, "", CountOf(db, room), map[])
  }

  function InfoMsg(db: Db, room: int): RedisMsg {
    RedisMsg(OP_ROOM_INFO, "", room, 0, "", |MembersOf(db, room)|, MembersOf(db, room))
  }

  function DisConnectDb(db: Db, room: int, user: int): Db {
    var db1 := LeaveRoom(db, room, user);
    LPush(db1, RoomMsg(db1, room, ""))
  }

  lemma DisConnectEffect(db: Db, room: int, user: int)
    ensures var db' := DisConnectDb(db, room, user);
      && MembersOf(db', room) == MembersOf(db, room) - (if user != 0 then {user} else {})
      && CountOf(db', room) == CountOf(db, room) - (if room > 0 && CountOf(db, room) > 0 then 1 else 0)
      && QueueOf(db') == [RoomMsg(db', room, "")] + QueueOf(db)
      && forall r | r != room :: MembersOf(db', r) == MembersOf(db, r) && CountOf(db', r) == CountOf(db, r)
  {
    LeaveEffect(db, room, user);
    PushChanges(LeaveRoom(db, room, user), RoomMsg(LeaveRoom(db, room, user), room, ""));
    hide LeaveRoom, LPush, MembersOf, CountOf, QueueOf;
  }

  lemma PushChanges(db: Db, m: RedisMsg)
    ensures QueueOf(LPush(db, m)) == [m] + QueueOf(db)
    ensures forall r :: MembersOf(LPush(db, m), r) == MembersOf(db, r) && CountOf(LPush(db, m), r) == CountOf(db, r)
  {
  }

  lemma LeaveEffect(db: Db, room: int, user: int)
    ensures var db' := LeaveRoom(db, room, user);
      && MembersOf(db', room) == MembersOf(db, room) - (if user != 0 then {user} else {})
      && CountOf(db', room) == CountOf(db, room) - (if room > 0 && CountOf(db, room) > 0 then 1 else 0)
      && QueueOf(db') == QueueOf(db)
      && forall r | r != room :: MembersOf(db', r) == MembersOf(db, r) && CountOf(db', r) == CountOf(db, r)
  {
    var db1 := if room > 0 && CountOf(db, room) > 0 then AddCount(db, room, -1) else db;
    AddCountChanges(db, room, -1);
    HDelChanges(db1, room, user);
    assert QueueOf(db1) == QueueOf(db) && QueueOf(HDel(db1, room, user)) == QueueOf(db1);
    hide HDel, AddCount, MembersOf, CountOf, QueueOf;
    assert MembersOf(db, room) - {} == MembersOf(db, room);
  }

  function LogoutDb(db: Db, token: string): Db {
    match SessionOf(db, token)
    case None => db
    case Some(s) => db - {LoginOf(s.userId)} - {ServerOf(s.userId)} - {Session(token)}
  }

  function LoginDb(db: Db, user: int, name: string, token: string): Db {
    var linked := TextAt(db, LoginOf(user));
    var db1 := if linked != "" then db - {Session(linked)} else db;
    db1[Session(token) := SessionData(user, name)][LoginOf(user) := Text(token)]
  }

  // ---------------------------------------------------------------- the user table

  datatype User = User(id: int, password: string)

  datatype State = State(users: map<string, User>, nextId: int, db: Db)

  /** The session of a new account carries the name field of the failed look-up, which is empty. */
  function RegisterState(s: State, name: string, password: string, token: string): State {
    if name in s.users || name == "" || password == "" then s
    else State(s.users[name := User(s.nextId, password)], s.nextId + 1, s.db[Session(token) := SessionData(s.nextId, "")])
  }

  predicate Accepts(s: State, name: string, password: string) {
    name in s.users && s.users[name].password == password
  }

  function LoginState(s: State, name: string, password: string, token: string): State {
    if !Accepts(s, name, password) then s
    else s.(db := LoginDb(s.db, s.users[name].id, name, token))
  }

  // ---------------------------------------------------------------- the calls as they run

  class RpcLogic {
    var users: map<string, User>
    var nextId: int
    var redis: Db

    constructor ()
      ensures Value() == State(map[], 1, map[])
    {
      users, nextId, redis := map[], 1, map[];
    }

    function Value(): State
      reads this
    {
      State(users, nextId, redis)
    }

    /** `token` is the random token drawn for this call. */
    method Register(name: string, password: string, token: string) returns (reply: Option<string>)
      modifies this
      ensures Value() == RegisterState(old(Value()), name, password, token)
      ensures reply == if name in old(users) || name == "" || password == "" then None else Some(token)
      ensures reply.Some? ==>
        && users == old(users)[name := User(old(nextId), password)]
        && SessionOf(redis, token) == Some(SessionData(old(nextId), ""))
        && (forall t | t != token :: SessionOf(redis, t) == SessionOf(old(redis), t))
        && (forall u :: TextAt(redis, LoginOf(u)) == TextAt(old(redis), LoginOf(u)))
      ensures reply.None? ==> Value() == old(Value())
    {
      var foundName := if name in users then name else "";
      if name in users { return None; }
      if name == "" || password == "" { return None; }
      var userId := nextId;
      users, nextId := users[name := User(userId, password)], nextId + 1;
      redis := redis[Session(token) := SessionData(userId, foundName)];
      reply := Some(token);
    }

    method Login(name: string, password: string, token: string) returns (reply: Option<string>)
      modifies this`redis
      ensures Value() == LoginState(old(Value()), name, password, token)
      ensures reply == if name in users && users[name].password == password then Some(token) else None
      ensures reply.Some? ==>
        var user := users[name].id;
        var linked := TextAt(old(redis), LoginOf(user));
        && SessionOf(redis, token) == Some(SessionData(user, name)) && TextAt(redis, LoginOf(user)) == token
        && (linked != "" && linked != token ==> SessionOf(redis, linked) == None)
        && (forall t | t != token && t != linked :: SessionOf(redis, t) == SessionOf(old(redis), t))
        && (forall u | u != user :: TextAt(redis, LoginOf(u)) == TextAt(old(redis), LoginOf(u)))
      ensures reply.None? ==> redis == old(redis)
    {
      if name !in users || users[name].password != password { return None; }
      var user := users[name].id;
      var linked := TextAt(redis, LoginOf(user));
      if linked != "" {
        redis := redis - {Session(linked)};
      }
      redis := redis[Session(token) := SessionData(user, name)];
      redis := redis[LoginOf(user) := Text(token)];
      reply := Some(token);
    }

    method CheckAuth(token: string) returns (reply: Option<(int, string)>, failed: bool)
      ensures failed == Clashes(redis, token)
      ensures reply.Some? <==> !failed && SessionOf(redis, token).Some?
      ensures reply.Some? ==> SessionData(reply.value.0, reply.value.1) == SessionOf(redis, token).value
    {
      failed := false;
      if Clashes(redis, token) { return None, true; }
      var s := SessionOf(redis, token);
      if s == None { return None, false; }
      reply := Some((s.value.userId, s.value.userName));
    }

    method Logout(token: string) returns (ok: bool, failed: bool)
      modifies this`redis
      ensures failed == Clashes(old(redis), token)
      ensures redis == if failed then old(redis) else LogoutDb(old(redis), token)
      ensures ok == (!failed && SessionOf(old(redis), token).Some?)
      ensures !failed ==> SessionOf(redis, token) == None
      ensures ok ==>
        var user := SessionOf(old(redis), token).value.userId;
        && TextAt(redis, LoginOf(user)) == "" && TextAt(redis, ServerOf(user)) == ""
        && (forall t | t != token :: SessionOf(redis, t) == SessionOf(old(redis), t))
        && (forall u | u != user :: TextAt(redis, LoginOf(u)) == TextAt(old(redis), LoginOf(u)))
      ensures !ok ==> redis == old(redis)
    {
      failed := false;
      if Clashes(redis, token) { return false, true; }
      var s := SessionOf(redis, token);
      if s == None { return false, false; }
      redis := redis - {LoginOf(s.value.userId)};
      redis := redis - {ServerOf(s.value.userId)};
      redis := redis - {Session(token)};
      ok := true;
    }

    /** A failed call is more than a refused one: the connect server that made it ends. */
    method Connect(token: string, room: int, serverId: string) returns (userId: int, failed: bool)
      modifies this`redis
      ensures failed == Clashes(old(redis), token)
      ensures redis == if failed then old(redis) else ConnectDb(old(redis), token, room, serverId)
      ensures userId == if !failed && SessionOf(old(redis), token).Some? then SessionOf(old(redis), token).value.userId else 0
      ensures userId == 0 ==> redis == old(redis)
      ensures userId != 0 ==>
        && TextAt(redis, ServerOf(userId)) == serverId && userId in MembersOf(redis, room)
        && NameAt(redis, room, userId) ==
          (if NameAt(old(redis), room, userId) == "" then SessionOf(old(redis), token).value.userName else NameAt(old(redis), room, userId))
        && MembersOf(redis, room) - {userId} == MembersOf(old(redis), room) - {userId}
        && CountOf(redis, room) == CountOf(old(redis), room) + (if NameAt(old(redis), room, userId) == "" then 1 else 0)
        && (forall r | r != room :: MembersOf(redis, r) == MembersOf(old(redis), r) && CountOf(redis, r) == CountOf(old(redis), r))
    {
      failed := false;
      if Clashes(redis, token) { return 0, true; }
      var s := SessionOf(redis, token);
      if s == None { return 0, false; }
      userId := s.value.userId;
      if userId != 0 {
        redis := redis[ServerOf(userId) := Text(serverId)];
        if NameAt(redis, room, userId) == "" {
          redis := HSet(redis, room, userId, s.value.userName);
          redis := AddCount(redis, room, 1);
        }
      }
    }

    method DisConnect(room: int, user: int)
      modifies this`redis
      ensures redis == DisConnectDb(old(redis), room, user)
      ensures MembersOf(redis, room) == MembersOf(old(redis), room) - (if user != 0 then {user} else {})
      ensures CountOf(redis, room) == CountOf(old(redis), room) - if room > 0 && CountOf(old(redis), room) > 0 then 1 else 0
      ensures QueueOf(redis) == [RoomMsg(redis, room, "")] + QueueOf(old(redis))
      ensures forall r | r != room :: MembersOf(redis, r) == MembersOf(old(redis), r) && CountOf(redis, r) == CountOf(old(redis), r)
    {
      if room > 0 {
        var count := CountOf(redis, room);
        if count > 0 {
          redis := AddCount(redis, room, -1);
        }
      }
      if user != 0 {
        redis := HDel(redis, room, user);
      }
      redis := LPush(redis, RoomMsg(redis, room, ""));
      DisConnectEffect(old(redis), room, user);
      hide MembersOf, CountOf, QueueOf, AddCount, HDel, RoomMsg;
    }

    /** A message to one user goes to the queue with the server the user was last connected to. */
    method Push(toUser: int, body: string)
      modifies this`redis
      ensures QueueOf(redis) == [SingleMsg(old(redis), toUser, body)] + QueueOf(old(redis))
      ensures redis - {Queue} == old(redis) - {Queue}
    {
      var serverId := TextAt(redis, ServerOf(toUser));
      redis := LPush(redis, RedisMsg(OP_SINGLE_SEND, serverId, 0, toUser, body, 0, map[]));
    }

    method PushRoom(room: int, body: string)
      modifies this`redis
      ensures QueueOf(redis) == [RoomMsg(old(redis), room, body)] + QueueOf(old(redis))
      ensures redis - {Queue} == old(redis) - {Queue}
    {
      redis := LPush(redis, RoomMsg(redis, room, body));
    }

    /** Has a room told how many are online in it. */
    method Count(room: int)
      modifies this`redis
      ensures QueueOf(redis) == [CountMsg(old(redis), room)] + QueueOf(old(redis))
      ensures redis - {Queue} == old(redis) - {Queue}
    {
      var count := CountOf(redis, room);
      redis := LPush(redis, RedisMsg(OP_ROOM_COUNT, "", room, 0, "", count, map[]));
    }

    /** Has a room told who is in it, if anybody is. */
    method GetRoomInfo(room: int) returns (ok: bool)
      modifies this`redis
      ensures ok == (MembersOf(old(redis), room) != map[])
      ensures ok ==> QueueOf(redis) == [InfoMsg(old(redis), room)] + QueueOf(old(redis))
      ensures redis - {Queue} == old(redis) - {Queue} && (!ok ==> redis == old(redis))
    {
      var roomUserInfo := MembersOf(redis, room);
      if |roomUserInfo| == 0 { return false; }
      redis := LPush(redis, RedisMsg(OP_ROOM_INFO, "", room, 0, "", |roomUserInfo|, roomUserInfo));
      ok := true;
    }
  }
}
