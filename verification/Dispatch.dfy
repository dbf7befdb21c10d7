/** Choosing the connect client for a server id: a rotation over the server's instances that is kept
    in an index map (task/rpc.go). */
module Dispatch {
  import opened ServiceRecords
  import opened RoundRobin

  datatype Option<T> = None | Some(value: T)

  type Table = map<string, seq<Instance>>

  datatype Picker = Picker(servers: Table, index: map<string, nat>)

  predicate Available(servers: Table, id: string) { id in servers && servers[id] != [] }

  /** Where the rotation of a server stands. An unknown server starts at 0 and makes the map forget
      all others. */
  function Position(p: Picker, id: string): nat
    requires Available(p.servers, id)
  {
    (if id in p.index then p.index[id] else 0) % |p.servers[id]|
  }

  function Pick(p: Picker, id: string): (Picker, Option<Instance>) {
    if !Available(p.servers, id) then (p, None)
    else
      var index := if id in p.index then p.index else map[id := 0];
      var k := |p.servers[id]|;
      (p.(index := index[id := (index[id] + 1) % k]), Some(p.servers[id][index[id] % k]))
  }

  class RpcConnectClient {
    var serverInsMap: Table
    var indexMap: map<string, nat>

    constructor ()
      ensures Value() == Picker(map[], map[])
    {
      serverInsMap, indexMap := map[], map[];
    }

    function Value(): Picker
      reads this
    {
      Picker(serverInsMap, indexMap)
    }

    method GetRpcClientByServerId(serverId: string) returns (c: Option<Instance>)
      modifies this`indexMap
      ensures (Value(), c) == Pick(old(Value()), serverId)
      ensures c.Some? <==> Available(serverInsMap, serverId)
      ensures c.Some? ==>
        var at, k := old(Position(Value(), serverId)), |serverInsMap[serverId]|;
        c.value == serverInsMap[serverId][at] && Position(Value(), serverId) == (at + 1) % k
    {
      if serverId !in serverInsMap || |serverInsMap[serverId]| <= 0 {
        return None;
      }
      if serverId !in indexMap {
        indexMap := map[serverId := 0];
      }
      var idx := indexMap[serverId] % |serverInsMap[serverId]|;
      var ins := serverInsMap[serverId][idx];
      indexMap := indexMap[serverId := (indexMap[serverId] + 1) % |serverInsMap[serverId]|];
      c := Some(ins);
      NextMod(old(if serverId in indexMap then indexMap[serverId] else 0), |serverInsMap[serverId]|);
    }

    /** Asks for a client of every server, in whatever order the map is walked. */
    method GetAllConnectTypeRpcClient() returns (clients: seq<Instance>, ghost order: seq<string>)
      modifies this`indexMap
      ensures Once(order) && forall id :: id in order <==> Available(serverInsMap, id)
      ensures Value() == After(old(Value()), Picks(order))
      ensures clients == Chosen(old(Value()), Picks(order))
    {
      clients, order := [], [];
      var left := serverInsMap.Keys;
      while left != {}
        invariant left <= serverInsMap.Keys
        invariant Once(order) && forall id :: id in order <==> id !in left && Available(serverInsMap, id)
        invariant Value() == After(old(Value()), Picks(order))
        invariant clients == Chosen(old(Value()), Picks(order))
        decreases |left|
      {
        hide Picks, Chosen, After;
        var serverId :| serverId in left;
        left := left - {serverId};
        var c := GetRpcClientByServerId(serverId);
        if c.Some? {
          PicksNext(old(Value()), order, serverId);
          clients, order := clients + [c.value], order + [serverId];
        }
      }
    }

    /** A change of the services replaces the table and leaves the index map alone. */
    method WatchServices(records: seq<Record>)
      modifies this`serverInsMap
      ensures Groups(serverInsMap, records)
    {
      serverInsMap := GroupByServer(records);
    }
  }

  ghost predicate Once<T>(s: seq<T>) {
    forall i, j | 0 <= i < j < |s| :: s[i] != s[j]
  }

  // ---------------------------------------------------------------- runs

  datatype Event = EPick(id: string) | EReplace(servers: Table)

  function Step(p: Picker, e: Event): Picker {
    match e
    case EPick(id) => Pick(p, id).0
    case EReplace(servers) => p.(servers := servers)
  }

  function After(p: Picker, es: seq<Event>): Picker {
    if es == [] then p else Step(After(p, es[..|es| - 1]), es[|es| - 1])
  }

  function ChosenBy(p: Picker, e: Event): seq<Instance> {
    if e.EPick? && Pick(p, e.id).1.Some? then [Pick(p, e.id).1.value] else []
  }

  /** The instances a run picks, in order. */
  function Chosen(p: Picker, es: seq<Event>): seq<Instance> {
    if es == [] then [] else Chosen(p, es[..|es| - 1]) + ChosenBy(After(p, es[..|es| - 1]), es[|es| - 1])
  }

  function Picks(ids: seq<string>): seq<Event> {
    if ids == [] then [] else Picks(ids[..|ids| - 1]) + [EPick(ids[|ids| - 1])]
  }

  lemma PicksNext(p: Picker, ids: seq<string>, id: string)
    ensures Picks(ids + [id]) == Picks(ids) + [EPick(id)]
    ensures After(p, Picks(ids + [id])) == Pick(After(p, Picks(ids)), id).0
    ensures Chosen(p, Picks(ids + [id])) == Chosen(p, Picks(ids)) + ChosenBy(After(p, Picks(ids)), EPick(id))
  {
    assert (ids + [id])[..|ids|] == ids;
    var es := Picks(ids);
    assert (es + [EPick(id)])[..|es|] == es;
  }

  /** The index map never remembers more than one server. */
  predicate RemembersOne(p: Picker) { forall a, b | a in p.index && b in p.index :: a == b }

  lemma {:induction false} RunRemembersOne(p: Picker, es: seq<Event>)
    requires RemembersOne(p)
    ensures RemembersOne(After(p, es))
    decreases |es|
  {
    if es != [] { RunRemembersOne(p, es[..|es| - 1]); }
  }

  /** Whenever a pick of one server comes right after a pick of another, it takes instance 0. */
  lemma SwitchRestarts(p: Picker, es: seq<Event>, a: string, b: string)
    requires RemembersOne(p) && a != b
    requires var q := After(p, es); Available(q.servers, a) && Available(q.servers, b)
    ensures var q := After(p, es); Pick(Pick(q, a).0, b).1 == Some(q.servers[b][0])
  {
    hide After;
    RunRemembersOne(p, es);
    SwitchNow(After(p, es), a, b);
  }

  lemma SwitchNow(q: Picker, a: string, b: string)
    requires RemembersOne(q) && a != b && Available(q.servers, a) && Available(q.servers, b)
    ensures Pick(Pick(q, a).0, b).1 == Some(q.servers[b][0])
  {
    var i := if a in q.index then q.index[a] else 0;
    var q1 := Pick(q, a).0;
    assert q1.servers == q.servers && b !in q1.index;
    QuotientUnique(0, |q.servers[b]|, 0, 0);
  }

  lemma {:induction false} WalkLengths(p: Picker, order: seq<string>)
    requires forall id | id in order :: Available(p.servers, id)
    ensures After(p, Picks(order)).servers == p.servers
    ensures |Chosen(p, Picks(order))| == |order|
    ensures forall i | 0 <= i < |order| ::
      order[i] in p.servers && Chosen(p, Picks(order))[i] in p.servers[order[i]]
    decreases |order|
  {
    if order != [] {
      var n := |order| - 1;
      var front := order[..n];
      assert front + [order[n]] == order;
      assert order[n] in order;
      forall id | id in front ensures Available(p.servers, id) { assert id in order; }
      WalkLengths(p, front);
      PicksNext(p, front, order[n]);
      PickIsListed(After(p, Picks(front)), order[n]);
      hide Picks, Chosen, After, Pick;
    }
  }

  lemma PickIsListed(p: Picker, id: string)
    requires Available(p.servers, id)
    ensures Pick(p, id).1.Some? && Pick(p, id).1.value in p.servers[id] && Pick(p, id).0.servers == p.servers
  {
  }

  /** A walk over all servers yields one client for each, the server's own; with two servers or
      more, every one but the first walked gives its instance 0. */
  lemma {:induction false} WalkTakesFirsts(p: Picker, order: seq<string>)
    requires RemembersOne(p) && Once(order) && forall id | id in order :: Available(p.servers, id)
    ensures |Chosen(p, Picks(order))| == |order|
    ensures forall i | 0 <= i < |order| ::
      order[i] in p.servers && Chosen(p, Picks(order))[i] in p.servers[order[i]]
    ensures forall i | 0 < i < |order| ::
      order[i] in p.servers && p.servers[order[i]] != [] && Chosen(p, Picks(order))[i] == p.servers[order[i]][0]
    decreases |order|
  {
    hide Picks, Chosen, After, Pick, ChosenBy, RemembersOne;
    WalkLengths(p, order);
    if order != [] {
      var n := |order| - 1;
      var front := order[..n];
      assert front + [order[n]] == order;
      forall i | 0 <= i < |order| ensures Available(p.servers, order[i]) { assert order[i] in order; }
      forall id | id in front ensures Available(p.servers, id) { assert id in order; }
      WalkTakesFirsts(p, front);
      PicksNext(p, front, order[n]);
      if n > 0 { LastOfWalk(p, front, order[n]); }
    }
  }

  lemma LastOfWalk(p: Picker, front: seq<string>, b: string)
    requires RemembersOne(p) && front != [] && b != front[|front| - 1] && Available(p.servers, b)
    requires forall id | id in front :: Available(p.servers, id)
    ensures ChosenBy(After(p, Picks(front)), EPick(b)) == [p.servers[b][0]]
  {
    var m := |front| - 1;
    var f, a := front[..m], front[m];
    assert f + [a] == front;
    assert a in front;
    forall id | id in f ensures Available(p.servers, id) { assert id in front; }
    WalkLengths(p, f);
    PicksNext(p, f, a);
    hide Picks, Chosen, Pick, RemembersOne;
    SwitchRestarts(p, Picks(f), a, b);
  }

  // ---------------------------------------------------------------- one server at a time

  /** Nothing but picks of one server, and new tables that list the same instances for it. */
  predicate Steady(es: seq<Event>, id: string, instances: seq<Instance>) {
    forall e | e in es ::
      (e.EPick? ==> e.id == id) && (e.EReplace? ==> id in e.servers && e.servers[id] == instances)
  }

  /** The positions a run picks from, in order. */
  function Turns(p: Picker, es: seq<Event>): seq<nat> {
    if es == [] then []
    else
      var q, e := After(p, es[..|es| - 1]), es[|es| - 1];
      Turns(p, es[..|es| - 1]) + (if e.EPick? && Available(q.servers, e.id) then [Position(q, e.id)] else [])
  }

  lemma SteadyStep(q: Picker, e: Event, id: string)
    requires Available(q.servers, id) && Steady([e], id, q.servers[id])
    ensures var q' := Step(q, e); Available(q'.servers, id) && q'.servers[id] == q.servers[id]
    ensures var k := |q.servers[id]|;
      Position(Step(q, e), id) == if e.EPick? then (Position(q, id) + 1) % k else Position(q, id)
    ensures ChosenBy(q, e) == if e.EPick? then [q.servers[id][Position(q, id)]] else []
  {
    assert e in [e];
    if e.EPick? {
      NextMod(if id in q.index then q.index[id] else 0, |q.servers[id]|);
    }
  }

  lemma NextMod(a: nat, k: nat)
    requires k > 0
    ensures (a + 1) % k % k == (a % k + 1) % k && (a + 1) % k == (a % k + 1) % k
  {
    AddMod(a, 1, k);
  }

  /** In a block of picks of one server with unchanged instances the picks go round: the j-th takes
      the instance j places after the start. */
  lemma {:induction false} SteadyPicks(p: Picker, es: seq<Event>, id: string)
    requires Available(p.servers, id) && Steady(es, id, p.servers[id])
    ensures var q := After(p, es);
      Available(q.servers, id) && q.servers[id] == p.servers[id]
    ensures var n, k := |Turns(p, es)|, |p.servers[id]|;
      && Position(After(p, es), id) == (Position(p, id) + n) % k
      && (forall j | 0 <= j < n :: Turns(p, es)[j] == (Position(p, id) + j) % k)
      && |Chosen(p, es)| == n
      && (forall j | 0 <= j < n :: Chosen(p, es)[j] == p.servers[id][Turns(p, es)[j]])
    decreases |es|
  {
    var k := |p.servers[id]|;
    if es == [] {
      ModSmall(Position(p, id), k);
    } else {
      var front, e := es[..|es| - 1], es[|es| - 1];
      LastEvent(p, es);
      hide After, Turns, Chosen, Position, Step, ChosenBy;
      assert e in es;
      assert Steady(front, id, p.servers[id]) by {
        forall x | x in front ensures x in es { }
      }
      SteadyPicks(p, front, id);
      var q := After(p, front);
      SteadyStep(q, e, id);
      NextMod(Position(p, id) + |Turns(p, front)|, k);
    }
  }

  lemma LastEvent(p: Picker, es: seq<Event>)
    requires es != []
    ensures var front, e := es[..|es| - 1], es[|es| - 1];
      var q := After(p, front);
      && After(p, es) == Step(q, e)
      && Chosen(p, es) == Chosen(p, front) + ChosenBy(q, e)
      && Turns(p, es) == Turns(p, front) + (if e.EPick? && Available(q.servers, e.id) then [Position(q, e.id)] else [])
  {
  }

  lemma {:induction false} TurnsAreLoad(start: nat, k: nat, turns: seq<nat>, x: nat)
    requires k > 0 && forall j | 0 <= j < |turns| :: turns[j] == (start + j) % k
    ensures multiset(turns)[x] == Load(start, |turns|, k, x)
    decreases |turns|
  {
    if turns != [] {
      var n := |turns| - 1;
      TurnsAreLoad(start, k, turns[..n], x);
      assert turns == turns[..n] + [turns[n]];
    }
  }

  /** Over a block of picks of one server with unchanged instances, no position is used more than
      once more than another. */
  lemma SteadyPicksFair(p: Picker, es: seq<Event>, id: string, x: nat, y: nat)
    requires Available(p.servers, id) && Steady(es, id, p.servers[id])
    requires x < |p.servers[id]| && y < |p.servers[id]|
    ensures multiset(Turns(p, es))[x] <= multiset(Turns(p, es))[y] + 1
  {
    hide Turns, Position, After, Chosen, Load, Steady;
    SteadyPicks(p, es, id);
    var start, k := Position(p, id), |p.servers[id]|;
    TurnsAreLoad(start, k, Turns(p, es), x);
    TurnsAreLoad(start, k, Turns(p, es), y);
    LoadsFair(start, |Turns(p, es)|, k, x, y);
  }
}
