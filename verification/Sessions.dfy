/** What registering, logging in and logging out keep of the session keys, over every run of
    calls in which every drawn token is new (logic/rpc.go). */
module Sessions {
  import opened RedisStore
  import opened Logic

  /** `drawn` are the tokens ever handed to a register or login call. */
  datatype World = World(s: State, drawn: set<string>)

  datatype Call =
    | CallRegister(name: string, password: string, token: string)
    | CallLogin(name: string, password: string, token: string)
    | CallLogout(token: string)
    | CallConnect(token: string, room: int, serverId: string)
    | CallDisConnect(room: int, user: int)

  predicate Enabled(w: World, c: Call) {
    c.CallRegister? || c.CallLogin? ==> c.token != "" && c.token !in w.drawn
  }

  function Step(w: World, c: Call): World {
    match c
    case CallRegister(name, password, token) => World(RegisterState(w.s, name, password, token), w.drawn + {token})
    case CallLogin(name, password, token) => World(LoginState(w.s, name, password, token), w.drawn + {token})
    case CallLogout(token) => w.(s := w.s.(db := LogoutDb(w.s.db, token)))
    case CallConnect(token, room, serverId) => w.(s := w.s.(db := ConnectDb(w.s.db, token, room, serverId)))
    case CallDisConnect(room, user) => w.(s := w.s.(db := DisConnectDb(w.s.db, room, user)))
  }

  predicate Live(db: Db, t: string) { SessionOf(db, t).Some? }

  function UserOf(db: Db, t: string): int
    requires Live(db, t)
  {
    SessionOf(db, t).value.userId
  }

  /** The token the user's login key names; empty if there is none. */
  function Linked(db: Db, user: int): string { TextAt(db, LoginOf(user)) }

  /** A live session its user's login key does not name. */
  predicate Loose(db: Db, t: string) { Live(db, t) && Linked(db, UserOf(db, t)) != t }

  /** A login key names a live session of its own user. */
  ghost predicate LinksOk(db: Db) {
    forall u | Linked(db, u) != "" :: Live(db, Linked(db, u)) && UserOf(db, Linked(db, u)) == u
  }

  /** A user has at most one loose session. */
  ghost predicate LooseOk(db: Db) {
    forall t, t' | Loose(db, t) && Loose(db, t') && UserOf(db, t) == UserOf(db, t') :: t == t'
  }

  /** Live tokens were drawn, and name users that exist. */
  ghost predicate TokensOk(w: World) {
    forall t | Live(w.s.db, t) :: t in w.drawn && t != "" && 0 < UserOf(w.s.db, t) < w.s.nextId
  }

  ghost predicate Inv(w: World) {
    && LinksOk(w.s.db)
    && LooseOk(w.s.db)
    && TokensOk(w)
    && (forall n | n in w.s.users :: 0 < w.s.users[n].id < w.s.nextId)
    && w.s.nextId > 0
  }

  // ---------------------------------------------------------------- what a call does to sessions

  lemma OtherKeysKeep(db: Db, db': Db)
    requires forall t | Session(t) in db || Session(t) in db' :: Session(t) in db && Session(t) in db' && db[Session(t)] == db'[Session(t)]
    requires forall u | LoginOf(u) in db || LoginOf(u) in db' :: LoginOf(u) in db && LoginOf(u) in db' && db[LoginOf(u)] == db'[LoginOf(u)]
    ensures forall t :: SessionOf(db, t) == SessionOf(db', t)
    ensures forall u :: Linked(db, u) == Linked(db', u)
  {
  }

  lemma RegisterChanges(db: Db, user: int, token: string)
    ensures var db' := db[Session(token) := SessionData(user, "")];
      && (forall t :: SessionOf(db', t) == if t == token then Some(SessionData(user, "")) else SessionOf(db, t))
      && (forall u :: Linked(db', u) == Linked(db, u))
  {
  }

  lemma LoginChanges(db: Db, user: int, name: string, token: string)
    requires token != "" && Linked(db, user) != token
    ensures var db' := LoginDb(db, user, name, token);
      && (forall t :: SessionOf(db', t) == if t == token then Some(SessionData(user, name))
                                           else if t == Linked(db, user) && t != "" then None else SessionOf(db, t))
      && (forall u :: Linked(db', u) == if u == user then token else Linked(db, u))
  {
  }

  lemma LogoutChanges(db: Db, token: string)
    requires Live(db, token)
    ensures var db' := LogoutDb(db, token);
      && (forall t :: SessionOf(db', t) == if t == token then None else SessionOf(db, t))
      && (forall u :: Linked(db', u) == if u == UserOf(db, token) then "" else Linked(db, u))
  {
  }

  lemma ConnectChanges(db: Db, token: string, room: int, serverId: string)
    ensures forall t :: SessionOf(ConnectDb(db, token, room, serverId), t) == SessionOf(db, t)
    ensures forall u :: Linked(ConnectDb(db, token, room, serverId), u) == Linked(db, u)
  {
    OtherKeysKeep(db, ConnectDb(db, token, room, serverId));
  }

  lemma DisConnectChanges(db: Db, room: int, user: int)
    ensures forall t :: SessionOf(DisConnectDb(db, room, user), t) == SessionOf(db, t)
    ensures forall u :: Linked(DisConnectDb(db, room, user), u) == Linked(db, u)
  {
    OtherKeysKeep(db, DisConnectDb(db, room, user));
  }

  // ---------------------------------------------------------------- every step

  lemma RegisterKeeps(w: World, name: string, password: string, token: string)
    requires Inv(w) && Enabled(w, CallRegister(name, password, token))
    ensures Inv(Step(w, CallRegister(name, password, token)))
  {
    var s := w.s;
    if !(name in s.users || name == "" || password == "") {
      RegisterChanges(s.db, s.nextId, token);
      var db' := RegisterState(s, name, password, token).db;
      hide SessionOf, Linked;
      assert forall t | Live(db', t) && t != token :: Live(s.db, t);
      assert forall t | Loose(db', t) :: t == token || Loose(s.db, t);
      assert forall u | Linked(db', u) != "" :: Live(s.db, Linked(s.db, u));
    }
  }

  lemma LoginLinks(db: Db, user: int, name: string, token: string)
    requires LinksOk(db) && token != "" && !Live(db, token)
    ensures LinksOk(LoginDb(db, user, name, token))
  {
    var db' := LoginDb(db, user, name, token);
    LoginChanges(db, user, name, token);
    hide SessionOf, Linked, LoginDb;
    forall u | Linked(db', u) != "" ensures Live(db', Linked(db', u)) && UserOf(db', Linked(db', u)) == u {
      if u != user { assert Live(db, Linked(db, u)) && UserOf(db, Linked(db, u)) == u; }
      if Linked(db, user) != "" { assert UserOf(db, Linked(db, user)) == user; }
    }
  }

  lemma LoginLoose(db: Db, user: int, name: string, token: string)
    requires LinksOk(db) && LooseOk(db) && token != "" && !Live(db, token) && !Live(db, "")
    ensures LooseOk(LoginDb(db, user, name, token))
  {
    var db' := LoginDb(db, user, name, token);
    LoginChanges(db, user, name, token);
    hide SessionOf, Linked, LoginDb, LinksOk;
    forall t | Loose(db', t) ensures Loose(db, t) && UserOf(db', t) == UserOf(db, t) {
    }
  }

  lemma LoginKeeps(w: World, name: string, password: string, token: string)
    requires Inv(w) && Enabled(w, CallLogin(name, password, token))
    ensures Inv(Step(w, CallLogin(name, password, token)))
  {
    var s := w.s;
    if Accepts(s, name, password) {
      var user := s.users[name].id;
      var db' := LoginDb(s.db, user, name, token);
      LoginLinks(s.db, user, name, token);
      LoginLoose(s.db, user, name, token);
      LoginChanges(s.db, user, name, token);
      hide SessionOf, Linked, LoginDb, LooseOk, LinksOk;
      assert forall t | Live(db', t) && t != token :: Live(s.db, t);
    }
  }

  lemma LogoutLoose(db: Db, token: string)
    requires LinksOk(db) && LooseOk(db) && Live(db, token) && !Live(db, "")
    ensures LooseOk(LogoutDb(db, token))
  {
    var db' := LogoutDb(db, token);
    var user := UserOf(db, token);
    LogoutChanges(db, token);
    hide SessionOf, Linked, LogoutDb;
    forall t | Loose(db', t)
      ensures t != token && Live(db, t) && UserOf(db', t) == UserOf(db, t)
      ensures Loose(db, t) || (t == Linked(db, user) && UserOf(db, t) == user)
    {
    }
    assert Loose(db, token) || token == Linked(db, user);
    hide LinksOk;
  }

  lemma LogoutLinks(db: Db, token: string)
    requires LinksOk(db) && Live(db, token)
    ensures LinksOk(LogoutDb(db, token))
  {
    var db' := LogoutDb(db, token);
    LogoutChanges(db, token);
    hide SessionOf, Linked, LogoutDb;
    assert forall u | Linked(db', u) != "" :: Live(db, Linked(db, u));
  }

  lemma LogoutKeeps(w: World, token: string)
    requires Inv(w)
    ensures Inv(Step(w, CallLogout(token)))
  {
    var db := w.s.db;
    if Live(db, token) {
      LogoutLinks(db, token);
      LogoutLoose(db, token);
      LogoutChanges(db, token);
      hide SessionOf, Linked, LogoutDb, LooseOk, LinksOk;
      assert forall t | Live(LogoutDb(db, token), t) :: Live(db, t);
    }
  }

  lemma SameSessions(w: World, db': Db)
    requires Inv(w)
    requires forall t :: SessionOf(db', t) == SessionOf(w.s.db, t)
    requires forall u :: Linked(db', u) == Linked(w.s.db, u)
    ensures Inv(w.(s := w.s.(db := db')))
  {
    var db := w.s.db;
    hide SessionOf, Linked;
    assert forall t | Live(db', t) :: Live(db, t);
    assert forall t | Loose(db', t) :: Loose(db, t);
    assert forall u | Linked(db', u) != "" :: Live(db, Linked(db, u));
  }

  lemma StepKeeps(w: World, c: Call)
    requires Inv(w) && Enabled(w, c)
    ensures Inv(Step(w, c))
  {
    match c
    case CallRegister(name, password, token) => RegisterKeeps(w, name, password, token);
    case CallLogin(name, password, token) => LoginKeeps(w, name, password, token);
    case CallLogout(token) => LogoutKeeps(w, token);
    case CallConnect(token, room, serverId) =>
      ConnectChanges(w.s.db, token, room, serverId);
      SameSessions(w, ConnectDb(w.s.db, token, room, serverId));
    case CallDisConnect(room, user) =>
      DisConnectChanges(w.s.db, room, user);
      SameSessions(w, DisConnectDb(w.s.db, room, user));
  }

  /** A drawn token whose session is gone stays gone. */
  lemma StepRevivesNone(w: World, c: Call, t: string)
    requires Inv(w) && Enabled(w, c) && t in w.drawn && !Live(w.s.db, t)
    ensures t in Step(w, c).drawn && !Live(Step(w, c).s.db, t)
  {
    match c
    case CallRegister(name, password, token) =>
    case CallLogin(name, password, token) =>
      if Accepts(w.s, name, password) {
        LoginChanges(w.s.db, w.s.users[name].id, name, token);
      }
    case CallLogout(token) =>
      if Live(w.s.db, token) { LogoutChanges(w.s.db, token); }
    case CallConnect(token, room, serverId) => ConnectChanges(w.s.db, token, room, serverId);
    case CallDisConnect(room, user) => DisConnectChanges(w.s.db, room, user);
  }

  // ---------------------------------------------------------------- every run

  predicate Runs(w: World, cs: seq<Call>)
    decreases |cs|
  {
    cs == [] || (Enabled(w, cs[0]) && Runs(Step(w, cs[0]), cs[1..]))
  }

  function After(w: World, cs: seq<Call>): World
    decreases |cs|
  {
    if cs == [] then w else After(Step(w, cs[0]), cs[1..])
  }

  const START := World(State(map[], 1, map[]), {})

  lemma {:induction false} RunKeeps(w: World, cs: seq<Call>)
    requires Inv(w) && Runs(w, cs)
    ensures Inv(After(w, cs))
    decreases |cs|
  {
    if cs != [] {
      StepKeeps(w, cs[0]);
      hide Inv, Step, Enabled;
      RunKeeps(Step(w, cs[0]), cs[1..]);
    }
  }

  // ---------------------------------------------------------------- who may log in

  datatype Account = Account(name: string, password: string)

  predicate Holds(accounts: seq<Account>, name: string) { exists i :: 0 <= i < |accounts| && accounts[i].name == name }

  /** The accounts a run opens, in order: a registration opens one if it gives a name and a password and the
      name is new. */
  function Accounts(cs: seq<Call>): seq<Account> {
    if cs == [] then []
    else
      var before, c := Accounts(cs[..|cs| - 1]), cs[|cs| - 1];
      if c.CallRegister? && c.name != "" && c.password != "" && !Holds(before, c.name)
      then before + [Account(c.name, c.password)]
      else before
  }

  /** The user table holds exactly these accounts, numbered from 1. */
  ghost predicate Lists(s: State, accounts: seq<Account>) {
    && s.nextId == |accounts| + 1
    && (forall n :: n in s.users <==> Holds(accounts, n))
    && (forall i | 0 <= i < |accounts| :: accounts[i].name in s.users && s.users[accounts[i].name] == User(i + 1, accounts[i].password))
  }

  lemma StepLists(s: State, accounts: seq<Account>, name: string, password: string, token: string)
    requires Lists(s, accounts)
    ensures Lists(RegisterState(s, name, password, token),
      if name != "" && password != "" && !Holds(accounts, name) then accounts + [Account(name, password)] else accounts)
  {
    var more := accounts + [Account(name, password)];
    assert forall i | 0 <= i < |accounts| :: more[i] == accounts[i];
    assert more[|accounts|].name == name;
  }

  lemma {:induction false} AfterLast(w: World, cs: seq<Call>, c: Call)
    ensures After(w, cs + [c]) == Step(After(w, cs), c)
    decreases |cs|
  {
    hide Step;
    if cs == [] {
      assert (cs + [c])[1..] == [];
    } else {
      assert (cs + [c])[1..] == cs[1..] + [c];
      AfterLast(Step(w, cs[0]), cs[1..], c);
    }
  }

  lemma {:induction false} RunLists(cs: seq<Call>)
    ensures Lists(After(START, cs).s, Accounts(cs))
    decreases |cs|
  {
    hide Step, Lists, Holds;
    NoneListed();
    if cs != [] {
      var front, c := cs[..|cs| - 1], cs[|cs| - 1];
      RunLists(front);
      AfterLast(START, front, c);
      assert front + [c] == cs;
      hide After;
      StepOpens(After(START, front), Accounts(front), c);
    }
  }

  lemma NoneListed()
    ensures Lists(START.s, [])
  {
  }

  lemma StepOpens(w: World, accounts: seq<Account>, c: Call)
    requires Lists(w.s, accounts)
    ensures Lists(Step(w, c).s,
      if c.CallRegister? && c.name != "" && c.password != "" && !Holds(accounts, c.name)
      then accounts + [Account(c.name, c.password)] else accounts)
  {
    if c.CallRegister? {
      StepLists(w.s, accounts, c.name, c.password, c.token);
      hide Lists, Holds, RegisterState;
    } else {
      KeepsTable(w, c);
      hide Holds, Step;
    }
  }

  lemma KeepsTable(w: World, c: Call)
    requires !c.CallRegister?
    ensures Step(w, c).s.users == w.s.users && Step(w, c).s.nextId == w.s.nextId
  {
    hide LoginDb, LogoutDb, ConnectDb, DisConnectDb, Accepts;
  }

  /** In every run a login is granted exactly if it gives the name and the password of a registration that
      opened an account; the new token is then live for that account's user. A login that is refused changes
      nothing. */
  lemma LoginGrantedIff(cs: seq<Call>, name: string, password: string, token: string)
    requires Runs(START, cs) && Enabled(After(START, cs), CallLogin(name, password, token))
    ensures var w := After(START, cs);
      var w' := Step(w, CallLogin(name, password, token));
      && (Live(w'.s.db, token) <==> Account(name, password) in Accounts(cs))
      && (Account(name, password) !in Accounts(cs) ==> w'.s == w.s)
      && (forall i | 0 <= i < |Accounts(cs)| && Accounts(cs)[i] == Account(name, password) ::
            Live(w'.s.db, token) && SessionOf(w'.s.db, token).value == SessionData(i + 1, name))
  {
    RunLists(cs);
    RunKeeps(START, cs);
    var w := After(START, cs);
    var accounts := Accounts(cs);
    hide After, Accounts, Runs;
    assert !Live(w.s.db, token);
    NamesOnce(w.s, accounts);
    if Account(name, password) in accounts {
      LoginChanges(w.s.db, w.s.users[name].id, name, token);
    } else if name in w.s.users {
      var i :| 0 <= i < |accounts| && accounts[i].name == name;
      assert accounts[i] in accounts;
    }
  }

  lemma NamesOnce(s: State, accounts: seq<Account>)
    requires Lists(s, accounts)
    ensures forall i, j | 0 <= i < |accounts| && 0 <= j < |accounts| && accounts[i].name == accounts[j].name :: i == j
  {
    forall i, j | 0 <= i < |accounts| && 0 <= j < |accounts| && accounts[i].name == accounts[j].name ensures i == j {
      assert s.users[accounts[i].name].id == i + 1 && s.users[accounts[j].name].id == j + 1;
    }
  }

  /** In every reachable state a login key names a live session of that same user, and a user has
      at most two live sessions: the linked one and one other. */
  lemma AtMostTwoSessions(cs: seq<Call>, t1: string, t2: string, t3: string)
    requires Runs(START, cs)
    ensures var db := After(START, cs).s.db;
      && (forall u | Linked(db, u) != "" :: Live(db, Linked(db, u)) && UserOf(db, Linked(db, u)) == u)
      && (Live(db, t1) && Live(db, t2) && Live(db, t3) && UserOf(db, t1) == UserOf(db, t2) == UserOf(db, t3) ==>
            t1 == t2 || t1 == t3 || t2 == t3)
  {
    RunKeeps(START, cs);
    hide SessionOf, Linked, After;
  }

  lemma {:induction false} DeadStaysDead(w: World, cs: seq<Call>, t: string)
    requires Inv(w) && Runs(w, cs) && t in w.drawn && !Live(w.s.db, t)
    ensures !Live(After(w, cs).s.db, t)
    decreases |cs|
  {
    if cs != [] {
      StepKeeps(w, cs[0]);
      StepRevivesNone(w, cs[0], t);
      hide Inv, Step, Enabled, Live;
      DeadStaysDead(Step(w, cs[0]), cs[1..], t);
    }
  }

  /** A token that was live and is logged out never passes an authentication check again. */
  lemma LoggedOutForGood(w: World, cs: seq<Call>, t: string)
    requires Inv(w) && Live(w.s.db, t) && Runs(Step(w, CallLogout(t)), cs)
    ensures !Live(After(Step(w, CallLogout(t)), cs).s.db, t)
  {
    LogoutKeeps(w, t);
    LogoutChanges(w.s.db, t);
    DeadStaysDead(Step(w, CallLogout(t)), cs, t);
  }

  /** A login puts an end to the linked session for good. */
  lemma LoginKillsLinked(w: World, name: string, password: string, token: string, cs: seq<Call>)
    requires Inv(w) && Enabled(w, CallLogin(name, password, token)) && Accepts(w.s, name, password)
    requires Runs(Step(w, CallLogin(name, password, token)), cs)
    requires Linked(w.s.db, w.s.users[name].id) != ""
    ensures !Live(After(Step(w, CallLogin(name, password, token)), cs).s.db, Linked(w.s.db, w.s.users[name].id))
  {
    var user := w.s.users[name].id;
    var t := Linked(w.s.db, user);
    assert Live(w.s.db, t) && t in w.drawn && t != token;
    LoginKeeps(w, name, password, token);
    LoginChanges(w.s.db, user, name, token);
    DeadStaysDead(Step(w, CallLogin(name, password, token)), cs, t);
  }

  /** After a login the new token is the user's only live session exactly when the user had no live
      session outside its login key. */
  lemma LoginLeavesOneIff(w: World, name: string, password: string, token: string)
    requires Inv(w) && Enabled(w, CallLogin(name, password, token)) && Accepts(w.s, name, password)
    ensures var user := w.s.users[name].id;
      var db' := Step(w, CallLogin(name, password, token)).s.db;
      && Live(db', token) && UserOf(db', token) == user
      && ((forall t | Live(db', t) && UserOf(db', t) == user :: t == token)
          <==> (forall t | Live(w.s.db, t) && UserOf(w.s.db, t) == user :: t == Linked(w.s.db, user)))
  {
    var db, user := w.s.db, w.s.users[name].id;
    var db' := Step(w, CallLogin(name, password, token)).s.db;
    assert Linked(db, user) != token && !Live(db, token);
    LoginChanges(db, user, name, token);
    hide LoginDb, SessionOf, Linked;
    forall t | t != token
      ensures Live(db', t) <==> Live(db, t) && !(t == Linked(db, user) && t != "")
      ensures Live(db', t) ==> UserOf(db', t) == UserOf(db, t)
    {
    }
    forall t | Live(db, t) ensures t != "" {
    }
  }

  /** Registering and then logging in leaves the registration's token live beside the new one. */
  lemma RegistrationOutlivesLogin(t0: string, t1: string)
    requires t0 != t1 && t0 != "" && t1 != ""
    ensures var cs := [CallRegister("alice", "pw", t0), CallLogin("alice", "pw", t1)];
      var db := After(START, cs).s.db;
      Runs(START, cs) && Live(db, t0) && Live(db, t1) && UserOf(db, t0) == UserOf(db, t1)
  {
    var c0, c1 := CallRegister("alice", "pw", t0), CallLogin("alice", "pw", t1);
    var w1 := Step(START, c0);
    var w2 := Step(w1, c1);
    assert [c0, c1][1..] == [c1] && [c1][1..] == [];
    assert Runs(w2, []) && Runs(w1, [c1]) && After(w1, [c1]) == w2;
    LoginChanges(w1.s.db, 1, "alice", t1);
  }
}
