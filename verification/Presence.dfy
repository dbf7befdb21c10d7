/** The online counter of a room against the hash of its users, when connects and disconnects run
    side by side, one Redis command at a time (logic/rpc.go). */
module Presence {
  import opened RedisStore
  import opened Logic

  /** Where a call in progress stands: the command it issues next. A connect checks the hash, adds
      the user, counts it; a disconnect reads the count, lowers it, removes the user. */
  datatype Phase =
    | CGet(name: string)
    | CSet(name: string)
    | CIncr
    | DGet
    | DDecr
    | DDel

  datatype Call = Call(room: int, user: int, phase: Phase)

  /** Any number of calls may be in progress, also on the same room and user. */
  datatype World = World(db: Db, calls: map<nat, Call>)

  datatype Event =
    | StartConnect(id: nat, room: int, user: int, name: string)
    | StartDisconnect(id: nat, room: int, user: int)
    | Advance(id: nat)

  /** A call is new; a connect only gets this far with a user. */
  predicate Enabled(w: World, e: Event) {
    match e
    case StartConnect(id, _, u, _) => id !in w.calls && u != 0
    case StartDisconnect(id, _, _) => id !in w.calls
    case Advance(id) => id in w.calls
  }

  /** The guard in front of lowering the count. */
  predicate Guard(db: Db, r: int) { r > 0 && CountOf(db, r) > 0 }

  /** After the counter, a disconnect removes its user if it has one. */
  function Removing(u: int): Option<Phase> { if u != 0 then Some(DDel) else None }

  function Command(db: Db, r: int, u: int, p: Phase): (Db, Option<Phase>) {
    match p
    case CGet(name) => (db, if NameAt(db, r, u) == "" then Some(CSet(name)) else None)
    case CSet(name) => (HSet(db, r, u, name), Some(CIncr))
    case CIncr => (AddCount(db, r, 1), None)
    case DGet => (db, if Guard(db, r) then Some(DDecr) else Removing(u))
    case DDecr => (AddCount(db, r, -1), Removing(u))
    case DDel => (HDel(db, r, u), None)
  }

  function Step(w: World, e: Event): World
    requires Enabled(w, e)
  {
    match e
    case StartConnect(id, r, u, name) => w.(calls := w.calls[id := Call(r, u, CGet(name))])
    case StartDisconnect(id, r, u) => w.(calls := w.calls[id := Call(r, u, DGet)])
    case Advance(id) =>
      var c := w.calls[id];
      var (db, next) := Command(w.db, c.room, c.user, c.phase);
      World(db, if next.Some? then w.calls[id := c.(phase := next.value)] else w.calls - {id})
  }

  /** Between hash and count: about to count a user, or about to remove one. */
  predicate Between(c: Call) { c.phase.CIncr? || c.phase.DDel? }

  function Caught(w: World, room: int): set<nat> {
    set id | id in w.calls && w.calls[id].room == room && Between(w.calls[id])
  }

  // ---------------------------------------------------------------- what a command changes

  function MembersAfter(m: map<int, string>, u: int, p: Phase): map<int, string> {
    if p.CSet? then m[u := p.name] else if p.DDel? then m - {u} else m
  }

  function CountChange(p: Phase): int {
    if p.CIncr? then 1 else if p.DDecr? then -1 else 0
  }

  lemma CommandChanges(db: Db, r: int, u: int, p: Phase)
    ensures var db' := Command(db, r, u, p).0;
      && MembersOf(db', r) == MembersAfter(MembersOf(db, r), u, p)
      && (forall q | q != r :: MembersOf(db', q) == MembersOf(db, q))
      && (forall q :: CountOf(db', q) == CountOf(db, q) + if q == r then CountChange(p) else 0)
  {
    HSetChanges(db, r, u, if p.CSet? then p.name else "");
    HDelChanges(db, r, u);
    AddCountChanges(db, r, 1);
    AddCountChanges(db, r, -1);
    hide HSet, HDel, AddCount, MembersOf, CountOf;
  }

  lemma SizeAfter(m: map<int, string>, u: int, p: Phase)
    ensures |MembersAfter(m, u, p)| ==
      |m| + if p.CSet? && u !in m then 1 else if p.DDel? && u in m then -1 else 0
  {
    if p.DDel? {
      assert (m - {u}).Keys == m.Keys - {u};
      if u !in m { assert m - {u} == m; }
    }
  }

  // ---------------------------------------------------------------- the drift, step by step

  /** How far the counter is from the hash, once the calls caught in between are through. */
  function Drift(w: World, room: int): int {
    CountOf(w.db, room) - |MembersOf(w.db, room)| + |Caught(w, room)|
  }

  /** One up when a connect adds a user whom the hash holds already, because it came in since the check or
      sat there under an empty name, or a disconnect goes on to remove its user without having lowered the count. One down when a disconnect finds its user gone, or lowers the
      count for no user. */
  function Slip(w: World, e: Event): int
    requires Enabled(w, e)
  {
    if !e.Advance? then 0
    else
      var c := w.calls[e.id];
      match c.phase
      case CSet(_) => if c.user in MembersOf(w.db, c.room) then 1 else 0
      case DGet => if !Guard(w.db, c.room) && c.user != 0 then 1 else 0
      case DDecr => if c.user == 0 then -1 else 0
      case DDel => if c.user in MembersOf(w.db, c.room) then 0 else -1
      case _ => 0
  }

  function SlipAt(w: World, e: Event, room: int): int
    requires Enabled(w, e)
  {
    if e.Advance? && w.calls[e.id].room == room then Slip(w, e) else 0
  }

  lemma CaughtStep(w: World, e: Event, q: int)
    requires Enabled(w, e)
    ensures |Caught(Step(w, e), q)| == |Caught(w, q)| +
      if !e.Advance? || w.calls[e.id].room != q then 0
      else
        var c := w.calls[e.id];
        match c.phase
        case CSet(_) => 1
        case DGet => if !Guard(w.db, q) && c.user != 0 then 1 else 0
        case DDecr => if c.user != 0 then 1 else 0
        case CIncr => -1
        case DDel => -1
        case CGet(_) => 0
  {
    var w' := Step(w, e);
    hide HSet, HDel, AddCount, MembersOf, CountOf, NameAt;
    var before, after := Caught(w, q), Caught(w', q);
    forall id | id != e.id ensures id in after <==> id in before {
      assert id in w'.calls <==> id in w.calls;
    }
    assert e.id in before <==> e.id in w.calls && w.calls[e.id].room == q && Between(w.calls[e.id]);
    assert e.id in after <==> e.id in w'.calls && w'.calls[e.id].room == q && Between(w'.calls[e.id]);
    hide Caught;
    OneMoves(before, after, e.id);
  }

  lemma OneMoves(a: set<nat>, b: set<nat>, x: nat)
    requires forall y: nat | y != x :: y in a <==> y in b
    ensures |b| == |a| + (if x in b then 1 else 0) - (if x in a then 1 else 0)
  {
    assert a - {x} == b - {x};
    OneLess(a, x);
    OneLess(b, x);
  }

  lemma OneLess(a: set<nat>, x: nat)
    ensures |a - {x}| == |a| - if x in a then 1 else 0
  {
    if x !in a { assert a - {x} == a; }
  }

  /** Every command of any call, whatever else is in progress, moves the drift of a room by exactly its
      slip. */
  lemma StepDrift(w: World, e: Event, q: int)
    requires Enabled(w, e)
    ensures Drift(Step(w, e), q) == Drift(w, q) + SlipAt(w, e, q)
  {
    hide Caught, Guard;
    CaughtStep(w, e, q);
    if e.Advance? {
      var c := w.calls[e.id];
      CommandChanges(w.db, c.room, c.user, c.phase);
      SizeAfter(MembersOf(w.db, c.room), c.user, c.phase);
      hide MembersOf, CountOf, MembersAfter, Command;
    }
  }

  // ---------------------------------------------------------------- every run

  predicate Runs(w: World, es: seq<Event>)
    decreases |es|
  {
    es == [] || (Enabled(w, es[0]) && Runs(Step(w, es[0]), es[1..]))
  }

  function After(w: World, es: seq<Event>): World
    requires Runs(w, es)
    decreases |es|
  {
    if es == [] then w else After(Step(w, es[0]), es[1..])
  }

  function Slips(w: World, es: seq<Event>, room: int): int
    requires Runs(w, es)
    decreases |es|
  {
    if es == [] then 0 else SlipAt(w, es[0], room) + Slips(Step(w, es[0]), es[1..], room)
  }

  /** For every interleaving of the commands of any calls, the counter is the size of the hash, less the
      calls caught in between, plus the slips on the way. */
  lemma {:induction false} RunDrifts(w: World, es: seq<Event>, room: int)
    requires Runs(w, es)
    ensures Drift(After(w, es), room) == Drift(w, room) + Slips(w, es, room)
    decreases |es|
  {
    if es != [] {
      StepDrift(w, es[0], room);
      hide Step, Enabled, Drift, SlipAt;
      RunDrifts(Step(w, es[0]), es[1..], room);
    }
  }

  /** Two connects of one user whose checks both come before the first addition count the user twice. */
  lemma TwoConnectsCountTwice(w: World, i: nat, j: nat, r: int, u: int, name: string)
    requires i !in w.calls && j !in w.calls && i != j && u != 0 && u !in MembersOf(w.db, r)
    ensures var es := [StartConnect(i, r, u, name), StartConnect(j, r, u, name),
                       Advance(i), Advance(j), Advance(i), Advance(j), Advance(i), Advance(j)];
      Runs(w, es)
      && After(w, es).calls == w.calls
      && MembersOf(After(w, es).db, r) == MembersOf(w.db, r)[u := name]
      && CountOf(After(w, es).db, r) == CountOf(w.db, r) + 2
  {
    var start := [StartConnect(i, r, u, name), StartConnect(j, r, u, name), Advance(i), Advance(j)];
    var rest := [Advance(i), Advance(j), Advance(i), Advance(j)];
    var calls := w.calls[i := Call(r, u, CSet(name))][j := Call(r, u, CSet(name))];
    BothCheck(w, i, j, r, u, name, rest);
    BothAdd(World(w.db, calls), i, j, r, u, name);
    assert start + rest == [StartConnect(i, r, u, name), StartConnect(j, r, u, name),
                            Advance(i), Advance(j), Advance(i), Advance(j), Advance(i), Advance(j)];
    assert calls - {i} - {j} == w.calls;
    hide Runs, After, MembersOf, CountOf;
  }

  /** Both find no name, whatever comes behind. */
  lemma BothCheck(w: World, i: nat, j: nat, r: int, u: int, name: string, rest: seq<Event>)
    requires i !in w.calls && j !in w.calls && i != j && u != 0 && NameAt(w.db, r, u) == ""
    ensures var end := World(w.db, w.calls[i := Call(r, u, CSet(name))][j := Call(r, u, CSet(name))]);
      var es := [StartConnect(i, r, u, name), StartConnect(j, r, u, name), Advance(i), Advance(j)] + rest;
      Runs(end, rest) ==> Runs(w, es) && After(w, es) == After(end, rest)
  {
    hide HSet, HDel, AddCount, NameAt;
    var w1 := w.(calls := w.calls[i := Call(r, u, CGet(name))]);
    var w2 := w1.(calls := w1.calls[j := Call(r, u, CGet(name))]);
    var w3 := w2.(calls := w2.calls[i := Call(r, u, CSet(name))]);
    var w4 := w3.(calls := w3.calls[j := Call(r, u, CSet(name))]);
    var (e1, e2, e3, e4) := (StartConnect(i, r, u, name), StartConnect(j, r, u, name), Advance(i), Advance(j));
    assert Enabled(w, e1) && Step(w, e1) == w1 && Enabled(w1, e2) && Step(w1, e2) == w2;
    assert Enabled(w2, e3) && Step(w2, e3) == w3 && Enabled(w3, e4) && Step(w3, e4) == w4;
    assert w4.calls == w.calls[i := Call(r, u, CSet(name))][j := Call(r, u, CSet(name))];
    if Runs(w4, rest) {
      hide Step, Enabled;
      var end := After(w4, rest);
      Takes(w3, w4, e4, rest, end);
      Takes(w2, w3, e3, [e4] + rest, end);
      Takes(w1, w2, e2, [e3] + ([e4] + rest), end);
      Takes(w, w1, e1, [e2] + ([e3] + ([e4] + rest)), end);
      assert [e1] + ([e2] + ([e3] + ([e4] + rest))) == [e1, e2, e3, e4] + rest;
    }
  }

  /** Both add and count the user. */
  lemma BothAdd(w: World, i: nat, j: nat, r: int, u: int, name: string)
    requires i in w.calls && j in w.calls && i != j && u !in MembersOf(w.db, r)
    requires w.calls[i] == w.calls[j] == Call(r, u, CSet(name))
    ensures var es := [Advance(i), Advance(j), Advance(i), Advance(j)];
      Runs(w, es) && After(w, es).calls == w.calls - {i} - {j}
      && MembersOf(After(w, es).db, r) == MembersOf(w.db, r)[u := name]
      && CountOf(After(w, es).db, r) == CountOf(w.db, r) + 2
  {
    hide HSet, HDel, AddCount, NameAt, MembersOf, CountOf;
    var w1 := World(HSet(w.db, r, u, name), w.calls[i := Call(r, u, CIncr)]);
    var w2 := World(HSet(w1.db, r, u, name), w1.calls[j := Call(r, u, CIncr)]);
    var w3 := World(AddCount(w2.db, r, 1), w2.calls - {i});
    var w4 := World(AddCount(w3.db, r, 1), w3.calls - {j});
    var (a, b) := (Advance(i), Advance(j));
    assert Enabled(w, a) && Step(w, a) == w1 && Enabled(w1, b) && Step(w1, b) == w2;
    assert Enabled(w2, a) && Step(w2, a) == w3 && Enabled(w3, b) && Step(w3, b) == w4;
    assert w4.calls == w.calls - {i} - {j};
    HSetChanges(w.db, r, u, name);
    HSetChanges(w1.db, r, u, name);
    AddCountChanges(w2.db, r, 1);
    AddCountChanges(w3.db, r, 1);
    hide Step, Enabled;
    assert Runs(w4, []) && After(w4, []) == w4;
    Takes(w3, w4, b, [], w4);
    Takes(w2, w3, a, [b] + [], w4);
    Takes(w1, w2, b, [a] + ([b] + []), w4);
    Takes(w, w1, a, [b] + ([a] + ([b] + [])), w4);
    assert [a] + ([b] + ([a] + ([b] + []))) == [a, b, a, b];
  }

  /** One step in front of a run. */
  lemma Takes(w: World, w1: World, e: Event, es: seq<Event>, end: World)
    requires Enabled(w, e) && Step(w, e) == w1 && Runs(w1, es) && After(w1, es) == end
    ensures Runs(w, [e] + es) && After(w, [e] + es) == end
  {
    hide Step, Enabled;
    assert ([e] + es)[1..] == es;
  }

  // ---------------------------------------------------------------- serialised calls

  /** Calls on one room and user come one after the other, rooms have positive ids, names are not empty,
      and only current members disconnect. */
  predicate Serial(w: World, e: Event) {
    match e
    case StartConnect(_, r, u, name) => NoneOn(w, r, u) && r > 0 && name != ""
    case StartDisconnect(_, r, u) => NoneOn(w, r, u) && r > 0 && u != 0 && u in MembersOf(w.db, r)
    case Advance(_) => true
  }

  predicate NoneOn(w: World, r: int, u: int) {
    forall id | id in w.calls :: !(w.calls[id].room == r && w.calls[id].user == u)
  }

  ghost predicate Inv(w: World) {
    && (forall r, u | u in MembersOf(w.db, r) :: MembersOf(w.db, r)[u] != "")
    && (forall id | id in w.calls :: CallOk(w, w.calls[id]))
    && (forall i, j | i in w.calls && j in w.calls && w.calls[i].room == w.calls[j].room && w.calls[i].user == w.calls[j].user :: i == j)
    && (forall r :: Drift(w, r) == 0)
  }

  ghost predicate CallOk(w: World, c: Call) {
    && c.room > 0 && c.user != 0
    && (c.phase.CGet? ==> c.phase.name != "")
    && (c.phase.CSet? ==> c.phase.name != "" && c.user !in MembersOf(w.db, c.room))
    && (c.phase.CIncr? || c.phase.DGet? || c.phase.DDecr? || c.phase.DDel? ==> c.user in MembersOf(w.db, c.room))
  }

  /** The users of some calls, each in one call only. */
  lemma {:induction false} CaughtFit(calls: map<nat, Call>, ids: set<nat>, room: int, users: set<int>)
    requires ids <= calls.Keys
    requires forall i | i in ids :: calls[i].room == room && calls[i].user in users
    requires forall i, j | i in ids && j in ids && calls[i].user == calls[j].user :: i == j
    ensures |ids| <= |users|
    decreases |ids|
  {
    if ids != {} {
      Inhabited(ids);
      var id :| id in ids;
      var u := calls[id].user;
      CaughtFit(calls, ids - {id}, room, users - {u});
    }
  }

  lemma Inhabited(ids: set<nat>)
    ensures ids == {} || exists id :: id in ids
  {
    if forall id: nat :: id !in ids {
      assert ids == {};
    }
  }

  /** When a serialised disconnect reads or lowers the count, it is positive. */
  lemma GuardPasses(w: World, id: nat)
    requires Inv(w) && id in w.calls && (w.calls[id].phase.DGet? || w.calls[id].phase.DDecr?)
    ensures Guard(w.db, w.calls[id].room)
  {
    var c := w.calls[id];
    assert CallOk(w, c) && Drift(w, c.room) == 0;
    var keys, caught := MembersOf(w.db, c.room).Keys, Caught(w, c.room);
    forall i | i in caught ensures w.calls[i].user in keys - {c.user} {
      assert CallOk(w, w.calls[i]);
    }
    CaughtFit(w.calls, caught, c.room, keys - {c.user});
    assert |keys - {c.user}| == |keys| - 1;
  }

  lemma NoSlip(w: World, e: Event, q: int)
    requires Inv(w) && Enabled(w, e) && Serial(w, e)
    ensures SlipAt(w, e, q) == 0
  {
    if e.Advance? {
      var c := w.calls[e.id];
      assert CallOk(w, c);
      if c.phase.DGet? { GuardPasses(w, e.id); }
    }
    hide MembersOf, CountOf, Guard;
  }

  /** A serialised step keeps the invariant: calls are where the hash says they are, and nothing slips. */
  lemma StepKeeps(w: World, e: Event)
    requires Inv(w) && Enabled(w, e) && Serial(w, e)
    ensures Inv(Step(w, e))
  {
    forall q ensures Drift(Step(w, e), q) == 0 {
      assert Drift(w, q) == 0;
      StepDrift(w, e, q);
      NoSlip(w, e, q);
    }
    hide Drift, SlipAt;
    if e.Advance? {
      AdvanceMembers(w, e);
      AdvanceCalls(w, e);
    } else {
      StartCalls(w, e);
    }
    hide Step, CallOk, MembersOf;
  }

  ghost predicate CallsOk(w: World) {
    && (forall id | id in w.calls :: CallOk(w, w.calls[id]))
    && (forall i, j | i in w.calls && j in w.calls && w.calls[i].room == w.calls[j].room && w.calls[i].user == w.calls[j].user :: i == j)
  }

  lemma StartCalls(w: World, e: Event)
    requires Inv(w) && Enabled(w, e) && Serial(w, e) && !e.Advance?
    ensures CallsOk(Step(w, e)) && Step(w, e).db == w.db
  {
    hide Drift, MembersOf;
    var w' := Step(w, e);
    forall id | id in w'.calls ensures CallOk(w', w'.calls[id]) {
      if id != e.id { assert CallOk(w, w.calls[id]); }
    }
  }

  lemma AdvanceMembers(w: World, e: Event)
    requires Inv(w) && Enabled(w, e) && e.Advance?
    ensures forall q, v | v in MembersOf(Step(w, e).db, q) :: MembersOf(Step(w, e).db, q)[v] != ""
  {
    hide Drift;
    var c := w.calls[e.id];
    assert CallOk(w, c);
    CommandChanges(w.db, c.room, c.user, c.phase);
    hide MembersOf, CountOf, Command;
  }

  lemma AdvanceCalls(w: World, e: Event)
    requires Inv(w) && Enabled(w, e) && e.Advance?
    ensures CallsOk(Step(w, e))
  {
    var c, w' := w.calls[e.id], Step(w, e);
    assert CallOk(w, c);
    CommandChanges(w.db, c.room, c.user, c.phase);
    assert NameAt(w.db, c.room, c.user) == "" <==> c.user !in MembersOf(w.db, c.room);
    hide MembersOf, CountOf, HSet, HDel, AddCount, NameAt, Drift, Guard;
    forall id | id in w'.calls ensures CallOk(w', w'.calls[id]) {
      if id != e.id {
        assert CallOk(w, w.calls[id]);
        assert w.calls[id].room == c.room ==> w.calls[id].user != c.user;
      }
    }
  }

  predicate SerialRuns(w: World, es: seq<Event>)
    decreases |es|
  {
    es == [] || (Enabled(w, es[0]) && Serial(w, es[0]) && SerialRuns(Step(w, es[0]), es[1..]))
  }

  lemma {:induction false} RunKeeps(w: World, es: seq<Event>)
    requires Inv(w) && SerialRuns(w, es)
    ensures Runs(w, es) && Inv(After(w, es))
    decreases |es|
  {
    if es != [] {
      StepKeeps(w, es[0]);
      hide Step, Enabled, Inv, Serial;
      RunKeeps(Step(w, es[0]), es[1..]);
    }
  }

  /** However the commands of serialised calls interleave, the counter is the number of users in the hash
      less those caught in between: never negative, never above the hash, and equal to it when no
      call on the room is in progress. */
  lemma CounterTracksHash(es: seq<Event>, room: int)
    requires SerialRuns(World(map[], map[]), es)
    ensures Runs(World(map[], map[]), es)
    ensures var w := After(World(map[], map[]), es);
      && CountOf(w.db, room) == |MembersOf(w.db, room)| - |Caught(w, room)|
      && 0 <= CountOf(w.db, room) <= |MembersOf(w.db, room)|
      && ((forall id | id in w.calls :: w.calls[id].room != room) ==> CountOf(w.db, room) == |MembersOf(w.db, room)|)
  {
    var w0 := World(map[], map[]);
    assert forall r :: Caught(w0, r) == {};
    RunKeeps(w0, es);
    var w := After(w0, es);
    hide Runs, After, SerialRuns;
    Counted(w, room);
  }

  lemma Counted(w: World, room: int)
    requires Inv(w)
    ensures CountOf(w.db, room) == |MembersOf(w.db, room)| - |Caught(w, room)|
    ensures 0 <= CountOf(w.db, room) <= |MembersOf(w.db, room)|
    ensures (forall id | id in w.calls :: w.calls[id].room != room) ==> Caught(w, room) == {}
  {
    assert Drift(w, room) == 0;
    forall i | i in Caught(w, room) ensures w.calls[i].user in MembersOf(w.db, room).Keys {
      assert CallOk(w, w.calls[i]);
    }
    CaughtFit(w.calls, Caught(w, room), room, MembersOf(w.db, room).Keys);
  }

  // ---------------------------------------------------------------- one call after the other

  function Advances(id: nat, n: nat): seq<Event> {
    if n == 0 then [] else [Advance(id)] + Advances(id, n - 1)
  }

  /** The commands of one undisturbed call are the call. */
  lemma SerialConnect(w: World, id: nat, r: int, u: int, name: string)
    requires Enabled(w, StartConnect(id, r, u, name))
    ensures var es := [StartConnect(id, r, u, name)] + Advances(id, if NameAt(w.db, r, u) == "" then 3 else 1);
      Runs(w, es) && After(w, es) == World(JoinRoom(w.db, r, u, name), w.calls)
  {
    hide HSet, AddCount, NameAt;
    var w1 := Step(w, StartConnect(id, r, u, name));
    var w2 := Step(w1, Advance(id));
    if NameAt(w.db, r, u) == "" {
      var w3 := Step(w2, Advance(id));
      var w4 := Step(w3, Advance(id));
      assert w4.calls == w.calls;
      Takes(w3, w4, Advance(id), Advances(id, 0), w4);
      Takes(w2, w3, Advance(id), Advances(id, 1), w4);
      Takes(w1, w2, Advance(id), Advances(id, 2), w4);
      Takes(w, w1, StartConnect(id, r, u, name), Advances(id, 3), w4);
    } else {
      assert w2.calls == w.calls;
      Takes(w1, w2, Advance(id), Advances(id, 0), w2);
      Takes(w, w1, StartConnect(id, r, u, name), Advances(id, 1), w2);
    }
  }

  lemma SerialDisconnect(w: World, id: nat, r: int, u: int)
    requires Enabled(w, StartDisconnect(id, r, u))
    ensures var es := [StartDisconnect(id, r, u)] + Advances(id, 1 + (if Guard(w.db, r) then 1 else 0) + if u != 0 then 1 else 0);
      Runs(w, es) && After(w, es) == World(LeaveRoom(w.db, r, u), w.calls)
  {
    hide HDel, AddCount, CountOf, MembersOf;
    var w1 := Step(w, StartDisconnect(id, r, u));
    var w2 := Step(w1, Advance(id));
    var lowered := if Guard(w.db, r) then Step(w2, Advance(id)) else w2;
    var end := if u != 0 then Step(lowered, Advance(id)) else lowered;
    assert end.calls == w.calls;
    if u != 0 { Takes(lowered, end, Advance(id), Advances(id, 0), end); }
    var n := if u != 0 then 1 else 0;
    if Guard(w.db, r) { Takes(w2, lowered, Advance(id), Advances(id, n), end); }
    var m := n + if Guard(w.db, r) then 1 else 0;
    Takes(w1, w2, Advance(id), Advances(id, m), end);
    Takes(w, w1, StartDisconnect(id, r, u), Advances(id, m + 1), end);
  }

  predicate InStep(db: Db, room: int) { CountOf(db, room) == |MembersOf(db, room)| }

  /** A connect keeps counter and hash in step exactly when the user is not already in the room
      under an empty name. */
  lemma ConnectInStepIff(db: Db, r: int, u: int, name: string)
    requires InStep(db, r)
    ensures InStep(JoinRoom(db, r, u, name), r) <==> !(u in MembersOf(db, r) && MembersOf(db, r)[u] == "")
  {
    HSetChanges(db, r, u, name);
    AddCountChanges(HSet(db, r, u, name), r, 1);
    hide HSet, AddCount, MembersOf, CountOf;
  }

  /** A disconnect keeps them in step exactly when a member leaves a room with a positive id, or
      a stranger leaves one with none, or an empty one. */
  lemma DisconnectInStepIff(db: Db, r: int, u: int)
    requires InStep(db, r) && u != 0
    ensures InStep(LeaveRoom(db, r, u), r) <==>
      if u in MembersOf(db, r) then r > 0 else r <= 0 || MembersOf(db, r) == map[]
  {
    HDelChanges(AddCount(db, r, -1), r, u);
    HDelChanges(db, r, u);
    AddCountChanges(db, r, -1);
    hide HDel, AddCount, MembersOf, CountOf;
    var m := MembersOf(db, r);
    assert u in m ==> |m - {u}| == |m| - 1 by { assert (m - {u}).Keys == m.Keys - {u}; }
    assert u !in m ==> m - {u} == m;
    assert |m| == 0 <==> m == map[];
  }

  /** Registering, then connecting twice with the token of the registration, counts one user twice:
      that session carries no name. */
  lemma RegisteredUserCountedTwice(token: string, room: int, server: string)
    ensures var s := RegisterState(State(map[], 1, map[]), "alice", "pw", token);
      var db := ConnectDb(ConnectDb(s.db, token, room, server), token, room, server);
      MembersOf(db, room) == map[1 := ""] && CountOf(db, room) == 2
  {
    var s := RegisterState(State(map[], 1, map[]), "alice", "pw", token);
    var db0 := s.db[ServerOf(1) := Text(server)];
    assert SessionOf(s.db, token) == Some(SessionData(1, ""));
    var db1 := JoinRoom(db0, room, 1, "");
    assert db1 == ConnectDb(s.db, token, room, server);
    HSetChanges(db0, room, 1, "");
    AddCountChanges(HSet(db0, room, 1, ""), room, 1);
    assert SessionOf(db1, token) == Some(SessionData(1, ""));
    var db1' := db1[ServerOf(1) := Text(server)];
    assert MembersOf(db1', room) == map[1 := ""] && CountOf(db1', room) == 1;
    HSetChanges(db1', room, 1, "");
    AddCountChanges(HSet(db1', room, 1, ""), room, 1);
  }
}
