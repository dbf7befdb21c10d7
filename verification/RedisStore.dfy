/** What the program keeps in Redis: one flat keyspace of strings, used as if it were several
    separate maps (logic/publish.go, tools/session_token.go, config/config.go). */
module RedisStore {
  import opened Text
  import Token

  const OP_SINGLE_SEND: int := 2
  const OP_ROOM_SEND: int := 3
  const OP_ROOM_COUNT: int := 4
  const OP_ROOM_INFO: int := 5

  /** A message on the queue. */
  datatype RedisMsg = RedisMsg(op: int, serverId: string, roomId: int, userId: int, msg: string, count: int, roomUsers: map<int, string>)

  datatype Key =
    | Session(token: string)
    | LoginOf(user: int)
    | ServerOf(user: int)
    | RoomUsers(room: int)
    | RoomCount(room: int)
    | Queue

  datatype Value =
    | SessionData(userId: int, userName: string)
    | Text(text: string)
    | Members(names: map<int, string>)
    | Number(n: int)
    | List(messages: seq<RedisMsg>)

  const SESSION_PREFIX: string := "session_"
  const REDIS_PREFIX: string := "yoyichat_"
  const ROOM_PREFIX: string := "yoyichat_room_"
  const ONLINE_PREFIX: string := "yoyichat_room_online_count_"
  const QUEUE_NAME: string := "yoyichat_queue"

  /** The key as Redis sees it. */
  function Render(k: Key): string {
    match k
    case Session(t) => SESSION_PREFIX + t
    case LoginOf(u) => SESSION_PREFIX + "_map_" + Decimal(u)
    case ServerOf(u) => REDIS_PREFIX + Decimal(u)
    case RoomUsers(r) => ROOM_PREFIX + Decimal(r)
    case RoomCount(r) => ONLINE_PREFIX + Decimal(r)
    case Queue => QUEUE_NAME
  }

  /** A key the program makes by itself: its tokens are ones it issued. */
  predicate Proper(k: Key) { k.Session? ==> Token.Issued(k.token) }

  lemma CancelPrefix(p: string, a: string, b: string)
    ensures p + a == p + b <==> a == b
  {
    if p + a == p + b {
      assert (p + a)[|p|..] == a && (p + b)[|p|..] == b;
    }
  }

  lemma DecimalStart(n: int)
    ensures Decimal(n)[0] in DIGITS || Decimal(n)[0] == '-'
    ensures Decimal(n)[0] != 'r' && Decimal(n)[0] != 'q' && Decimal(n)[0] != 'o'
    ensures Decimal(n)[|Decimal(n)| - 1] != '='
  {
    var d := Decimal(n);
    hide Decimal;
    assert d[0] in d && d[|d| - 1] in d;
  }

  /** The character that tells the families of keys apart. */
  lemma RenderAt(k: Key)
    ensures var s := Render(k);
      match k
      case Session(_) => |s| > 0 && s[0] == 's'
      case LoginOf(_) => |s| > 0 && s[0] == 's'
      case ServerOf(u) => |s| > 9 && s[0] == 'y' && s[9] == Decimal(u)[0]
      case RoomUsers(r) => |s| > 14 && s[0] == 'y' && s[9] == 'r' && s[14] == Decimal(r)[0]
      case RoomCount(_) => |s| > 14 && s[0] == 'y' && s[9] == 'r' && s[14] == 'o'
      case Queue => |s| > 9 && s[0] == 'y' && s[9] == 'q'
  {
    hide Decimal;
  }

  /** A session key can only meet a login key if its token spells that key's suffix. */
  lemma SessionMeetsLogin(t: string, u: int)
    ensures Render(Session(t)) == Render(LoginOf(u)) <==> t == "_map_" + Decimal(u)
  {
    hide Decimal;
    assert SESSION_PREFIX + "_map_" + Decimal(u) == SESSION_PREFIX + ("_map_" + Decimal(u));
    CancelPrefix(SESSION_PREFIX, t, "_map_" + Decimal(u));
  }

  lemma IssuedIsNoLogin(t: string, u: int)
    requires Token.Issued(t)
    ensures t != "_map_" + Decimal(u)
  {
    DecimalStart(u);
    hide Decimal;
    var s := "_map_" + Decimal(u);
    assert s[|s| - 1] == Decimal(u)[|Decimal(u)| - 1];
  }

  function Family(k: Key): nat {
    match k
    case Session(_) => 0
    case LoginOf(_) => 1
    case ServerOf(_) => 2
    case RoomUsers(_) => 3
    case RoomCount(_) => 4
    case Queue => 5
  }

  /** A session key whose token spells a login key's suffix. */
  predicate Meets(j: Key, k: Key) {
    j.Session? && k.LoginOf? && j.token == "_map_" + Decimal(k.user)
  }

  /** Keys of different families meet in this one way only. */
  lemma FamiliesApart(j: Key, k: Key)
    requires Family(j) < Family(k)
    ensures Render(j) == Render(k) <==> Meets(j, k)
  {
    if j.Session? && k.LoginOf? {
      SessionMeetsLogin(j.token, k.user);
    } else {
      RenderAt(j);
      RenderAt(k);
      if j.ServerOf? { DecimalStart(j.user); }
      if j.RoomUsers? { DecimalStart(j.room); }
      hide Decimal, Render;
    }
  }

  lemma SameFamily(j: Key, k: Key)
    requires Family(j) == Family(k)
    ensures Render(j) == Render(k) <==> j == k
  {
    match j
    case Session(t) => CancelPrefix(SESSION_PREFIX, t, k.token);
    case LoginOf(u) =>
      DecimalInjective(u, k.user);
      CancelPrefix(SESSION_PREFIX + "_map_", Decimal(u), Decimal(k.user));
    case ServerOf(u) =>
      DecimalInjective(u, k.user);
      CancelPrefix(REDIS_PREFIX, Decimal(u), Decimal(k.user));
    case RoomUsers(r) =>
      DecimalInjective(r, k.room);
      CancelPrefix(ROOM_PREFIX, Decimal(r), Decimal(k.room));
    case RoomCount(r) =>
      DecimalInjective(r, k.room);
      CancelPrefix(ONLINE_PREFIX, Decimal(r), Decimal(k.room));
    case Queue =>
  }

  /** Two keys are the same string only if they are the same key, or a session key whose token spells a
      login key's suffix; with issued tokens, only if they are the same key. */
  lemma RenderInjective(j: Key, k: Key)
    ensures Render(j) == Render(k) <==> j == k || Meets(j, k) || Meets(k, j)
    ensures Proper(j) && Proper(k) ==> !Meets(j, k) && !Meets(k, j)
  {
    hide Render, Decimal;
    if Family(j) < Family(k) {
      FamiliesApart(j, k);
    } else if Family(k) < Family(j) {
      FamiliesApart(k, j);
    } else {
      SameFamily(j, k);
    }
    if j.Session? && k.LoginOf? && Proper(j) { IssuedIsNoLogin(j.token, k.user); }
    if k.Session? && j.LoginOf? && Proper(k) { IssuedIsNoLogin(k.token, j.user); }
  }

  // ---------------------------------------------------------------- the flat store

  type Db = map<Key, Value>

  /** The commands the program issues, on strings, hashes, counters and lists. */
  datatype Command =
    | Put(key: Key, value: Value)
    | Del(key: Key)
    | Get(key: Key)
    | GetAll(key: Key)
    | SetField(key: Key, user: int, name: string)
    | DelField(key: Key, user: int)
    | GetField(key: Key, user: int)
    | Add(key: Key, amount: int)
    | PushFront(key: Key, msg: RedisMsg)
    | PopBack(key: Key)

  datatype Reply = Done | Nothing | Found(value: Value) | Field(name: string) | Popped(msg: RedisMsg) | WrongType

  /** What is under a key. */
  datatype Slot = Absent | Holding(value: Value)

  /** What a command does to the value under its key. A hash or list that becomes empty is gone. */
  function Effect(s: Slot, c: Command): (Slot, Reply) {
    match c
    case Put(_, v) => (Holding(v), Done)
    case Del(_) => (Absent, Done)
    case Get(_) =>
      (s, if s.Absent? then Nothing else if s.value.Text? || s.value.Number? then Found(s.value) else WrongType)
    case GetAll(_) =>
      (s, if s.Absent? then Nothing else if s.value.SessionData? || s.value.Members? then Found(s.value) else WrongType)
    case SetField(_, u, name) =>
      if s.Absent? then (Holding(Members(map[u := name])), Done)
      else if s.value.Members? then (Holding(Members(s.value.names[u := name])), Done)
      else (s, WrongType)
    case DelField(_, u) =>
      if s.Absent? then (s, Done)
      else if !s.value.Members? then (s, WrongType)
      else if s.value.names - {u} == map[] then (Absent, Done)
      else (Holding(Members(s.value.names - {u})), Done)
    case GetField(_, u) =>
      if s.Absent? then (s, Nothing)
      else if !s.value.Members? then (s, WrongType)
      else (s, if u in s.value.names then Field(s.value.names[u]) else Nothing)
    case Add(_, d) =>
      if s.Absent? then (Holding(Number(d)), Found(Number(d)))
      else if s.value.Number? then (Holding(Number(s.value.n + d)), Found(Number(s.value.n + d)))
      else (s, WrongType)
    case PushFront(_, m) =>
      if s.Absent? then (Holding(List([m])), Done)
      else if s.value.List? then (Holding(List([m] + s.value.messages)), Done)
      else (s, WrongType)
    case PopBack(_) =>
      if s.Absent? || s.value == List([]) then (s, Nothing)
      else if !s.value.List? then (s, WrongType)
      else
        var ms := s.value.messages;
        (if |ms| == 1 then Absent else Holding(List(ms[..|ms| - 1])), Popped(ms[|ms| - 1]))
  }

  function SlotAt<K(==)>(db: map<K, Value>, k: K): Slot { if k in db then Holding(db[k]) else Absent }

  function Apply<K(==)>(db: map<K, Value>, k: K, c: Command): (map<K, Value>, Reply) {
    var (s, r) := Effect(SlotAt(db, k), c);
    (if s.Absent? then db - {k} else db[k := s.value], r)
  }

  /** What is found under a key: what was put there, or what is under the login key its token spells. */
  ghost function Sees(db: Db, k: Key): Slot {
    if k in db then Holding(db[k])
    else if exists m :: m in db && Meets(k, m) then
      var m :| m in db && Meets(k, m);
      Holding(db[m])
    else Absent
  }

  /** A command on the store of typed keys; only a read of a whole hash may name a token never issued. */
  ghost function Answer(db: Db, c: Command): (Db, Reply) {
    if c.GetAll? then (db, Effect(Sees(db, c.key), c).1) else Apply(db, c.key, c)
  }

  /** The replies to a run of commands on the store of typed keys. */
  ghost function Typed(db: Db, cs: seq<Command>): seq<Reply>
    decreases |cs|
  {
    if cs == [] then []
    else
      var (db', r) := Answer(db, cs[0]);
      [r] + Typed(db', cs[1..])
  }

  /** The replies to the same run on the flat store of strings. */
  function Flat(db: map<string, Value>, cs: seq<Command>): seq<Reply>
    decreases |cs|
  {
    if cs == [] then []
    else
      var (db', r) := Apply(db, Render(cs[0].key), cs[0]);
      [r] + Flat(db', cs[1..])
  }

  /** The flat store holds, under each rendered key, what the typed store holds under the key. */
  ghost predicate Mirrors(flat: map<string, Value>, db: Db) {
    && (forall k | k in db :: Proper(k))
    && (forall k | Proper(k) :: Render(k) in flat <==> k in db)
    && (forall k | k in db :: flat[Render(k)] == db[k])
    && (forall s | s in flat :: exists k :: k in db && Render(k) == s)
  }

  lemma ApplyMirrors(flat: map<string, Value>, db: Db, c: Command)
    requires Mirrors(flat, db) && Proper(c.key)
    ensures Mirrors(Apply(flat, Render(c.key), c).0, Apply(db, c.key, c).0)
    ensures Apply(flat, Render(c.key), c).1 == Apply(db, c.key, c).1
  {
    var flat', db' := Apply(flat, Render(c.key), c).0, Apply(db, c.key, c).0;
    hide Render, Effect, Meets;
    assert SlotAt(flat, Render(c.key)) == SlotAt(db, c.key);
    forall k | Proper(k)
      ensures Render(k) in flat' <==> k in db'
      ensures k in db' ==> flat'[Render(k)] == db'[k]
    {
      RenderInjective(k, c.key);
    }
    forall s | s in flat' ensures exists k :: k in db' && Render(k) == s {
      if s == Render(c.key) {
        assert c.key in db';
      } else {
        assert s in flat;
      }
    }
  }

  /** Reading the hash of any key, also of a session whose token was never issued. */
  lemma ReadMirrors(flat: map<string, Value>, db: Db, k: Key)
    requires Mirrors(flat, db)
    ensures SlotAt(flat, Render(k)) == Sees(db, k)
  {
    hide Render, Meets;
    if k !in db {
      forall m | m in db ensures Render(m) == Render(k) <==> Meets(k, m) {
        RenderInjective(m, k);
        NoLoginMeets(m, k);
      }
      if exists m :: m in db && Meets(k, m) {
        assert Render(k) in flat;
      }
    }
  }

  lemma NoLoginMeets(m: Key, k: Key)
    requires Proper(m)
    ensures !Meets(m, k)
  {
    if Meets(m, k) { IssuedIsNoLogin(m.token, k.user); }
  }

  /** Over every run of commands on the program's keys, and of reads of any session, the one flat store
      answers as the separate typed maps would. */
  lemma {:induction false} FlatRefinesTyped(flat: map<string, Value>, db: Db, cs: seq<Command>)
    requires Mirrors(flat, db) && forall c | c in cs :: Proper(c.key) || c.GetAll?
    ensures Flat(flat, cs) == Typed(db, cs)
    decreases |cs|
  {
    if cs != [] {
      assert cs[0] in cs;
      if cs[0].GetAll? {
        ReadMirrors(flat, db, cs[0].key);
        ReadKeeps(flat, cs[0]);
      } else {
        ApplyMirrors(flat, db, cs[0]);
      }
      hide Mirrors, Render, Apply, Sees, SlotAt, Effect;
      FlatRefinesTyped(Apply(flat, Render(cs[0].key), cs[0]).0, Answer(db, cs[0]).0, cs[1..]);
    }
  }

  lemma ReadKeeps(flat: map<string, Value>, c: Command)
    requires c.GetAll?
    ensures Apply(flat, Render(c.key), c) == (flat, Effect(SlotAt(flat, Render(c.key)), c).1)
  {
    hide Render;
    var k := Render(c.key);
    assert k !in flat ==> flat - {k} == flat;
    assert k in flat ==> flat[k := flat[k]] == flat;
  }
}
