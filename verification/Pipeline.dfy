/** The path of a message through the task layer: the Redis list, the consumer, the workers for
    single messages (logic/publish.go, task/queue.go, task/push.go). A worker that finds no client for
    its message calls into nothing; the process ends, and all it held in memory is lost (task/rpc.go). */
module Pipeline {
  import opened RedisStore
  import opened ChannelStream
  import D = Dispatch
  import opened ServiceRecords

  datatype PushParams = PushParams(serverId: string, userId: int, msg: string)

  /** What is handed on to the connect layer. */
  datatype Call =
    | Single(params: PushParams)
    | Room(roomId: int, msg: string)
    | RoomCountCall(roomId: int, count: int)
    | RoomInfo(roomId: int, roomUsers: map<int, string>)

  /** The call a message asks for; an unknown operation asks for none. */
  function Asks(m: RedisMsg): seq<Call> {
    if m.op == OP_SINGLE_SEND then [Single(PushParams(m.serverId, m.userId, m.msg))]
    else if m.op == OP_ROOM_SEND then [Room(m.roomId, m.msg)]
    else if m.op == OP_ROOM_COUNT then [RoomCountCall(m.roomId, m.count)]
    else if m.op == OP_ROOM_INFO then [RoomInfo(m.roomId, m.roomUsers)]
    else []
  }

  /** `queue` is the Redis list, pushed at the front and popped at the back; `inHand` is the message
      the consumer has popped and not yet passed on. `servers` are the connect servers the process knows,
      `met[k]` those it knew when it made `calls[k]`. */
  datatype World = World(queue: seq<RedisMsg>, inHand: seq<RedisMsg>, workers: seq<seq<PushParams>>,
    calls: seq<Call>, met: seq<D.Table>, servers: D.Table, alive: bool)

  datatype Event =
    | Publish(msg: RedisMsg)
    | Pop
    | Dispatch(worker: nat)
    | Work(worker: nat)
    | Replace(servers: D.Table)
    | Start(servers: D.Table)

  /** A full worker channel makes the consumer wait. The list takes messages even while no process runs. */
  predicate Enabled(w: World, capacity: nat, e: Event) {
    match e
    case Publish(_) => true
    case Pop => w.alive && w.inHand == [] && w.queue != []
    case Dispatch(i) =>
      w.alive && |w.inHand| == 1 && i < |w.workers| && (w.inHand[0].op == OP_SINGLE_SEND ==> |w.workers[i]| < capacity)
    case Work(i) => w.alive && i < |w.workers| && w.workers[i] != []
    case Replace(_) => w.alive
    case Start(_) => !w.alive
  }

  function Push(w: World, i: nat): World
    requires |w.inHand| == 1 && i < |w.workers|
  {
    var m := w.inHand[0];
    if m.op == OP_SINGLE_SEND then
      w.(inHand := [], workers := w.workers[i := w.workers[i] + [PushParams(m.serverId, m.userId, m.msg)]])
    else
      w.(inHand := [], calls := w.calls + Asks(m), met := w.met + (if Asks(m) == [] then [] else [w.servers]))
  }

  /** The next message of worker `i` is for a server without instances. */
  predicate Dies(w: World, e: Event) {
    e.Work? && e.worker < |w.workers| && w.workers[e.worker] != []
    && !D.Available(w.servers, w.workers[e.worker][0].serverId)
  }

  /** What the end of the process leaves: the list, and what was called before. */
  function Fall(w: World): World {
    w.(inHand := [], workers := seq(|w.workers|, _ => []), alive := false)
  }

  function Step(w: World, capacity: nat, e: Event): World
    requires Enabled(w, capacity, e)
  {
    match e
    case Publish(m) => w.(queue := [m] + w.queue)
    case Pop => w.(inHand := [w.queue[|w.queue| - 1]], queue := w.queue[..|w.queue| - 1])
    case Dispatch(i) => Push(w, i)
    case Work(i) =>
      if Dies(w, e) then Fall(w)
      else
        w.(workers := w.workers[i := w.workers[i][1..]], calls := w.calls + [Single(w.workers[i][0])],
           met := w.met + [w.servers])
    case Replace(servers) => w.(servers := servers)
    case Start(servers) => w.(servers := servers, alive := true)
  }

  // ---------------------------------------------------------------- the task layer as it runs

  class Task {
    var queue: seq<RedisMsg>
    var inHand: seq<RedisMsg>
    var pushChannel: seq<seq<PushParams>>
    var alive: bool
    const capacity: nat
    const rClient: D.RpcConnectClient
    ghost var calls: seq<Call>
    ghost var met: seq<D.Table>

    constructor (workers: nat, capacity: nat, rClient: D.RpcConnectClient)
      ensures Value() == Empty(workers, rClient.serverInsMap) && this.capacity == capacity && this.rClient == rClient
    {
      queue, inHand, pushChannel, calls, met, alive := [], [], seq(workers, _ => []), [], [], true;
      this.capacity, this.rClient := capacity, rClient;
    }

    ghost function Value(): World
      reads this, rClient
    {
      World(queue, inHand, pushChannel, calls, met, rClient.serverInsMap, alive)
    }

    method LPush(m: RedisMsg)
      modifies this`queue
      ensures Value() == Step(old(Value()), capacity, Publish(m))
      ensures Waiting(queue) == Waiting(old(queue)) + Asks(m)
    {
      queue := [m] + queue;
      assert queue[1..] == old(queue);
    }

    method BRPop()
      requires Enabled(Value(), capacity, Pop)
      modifies this`queue, this`inHand
      ensures Value() == Step(old(Value()), capacity, Pop)
      ensures InHand(Value()) + Waiting(queue) == Waiting(old(queue))
    {
      WaitingPop(queue);
      inHand := [queue[|queue| - 1]];
      queue := queue[..|queue| - 1];
    }

    /** Passes the popped message on; `random` picks the worker for a single message. Anything else is
        called at once into one client of every server that has one, in some order. */
    method PushMessage(random: nat) returns (clients: seq<Instance>, ghost order: seq<string>)
      requires Enabled(Value(), capacity, Dispatch(random))
      modifies this`inHand, this`pushChannel, this`calls, this`met, rClient`indexMap
      ensures Value() == Step(old(Value()), capacity, Dispatch(random))
      ensures inHand == [] && forall c :: Total(Value(), c) == Total(old(Value()), c)
      ensures D.Once(order) && clients == D.Chosen(old(rClient.Value()), D.Picks(order))
      ensures calls != old(calls) ==> forall id :: id in order <==> D.Available(rClient.serverInsMap, id)
      ensures calls == old(calls) ==> clients == [] && rClient.Value() == old(rClient.Value())
    {
      forall c ensures Total(Push(Value(), random), c) == Total(Value(), c) {
        DispatchConserves(Value(), random, c);
      }
      hide Total, D.Chosen, D.After;
      assert D.Chosen(rClient.Value(), D.Picks([])) == [] by { NothingChosen(rClient.Value()); }
      clients, order := [], [];
      var m := inHand[0];
      inHand := [];
      if m.op == OP_SINGLE_SEND {
        pushChannel := pushChannel[random := pushChannel[random] + [PushParams(m.serverId, m.userId, m.msg)]];
      } else if m.op == OP_ROOM_SEND {
        clients, order := rClient.GetAllConnectTypeRpcClient();
        calls := calls + [Room(m.roomId, m.msg)];
      } else if m.op == OP_ROOM_COUNT {
        clients, order := rClient.GetAllConnectTypeRpcClient();
        calls := calls + [RoomCountCall(m.roomId, m.count)];
      } else if m.op == OP_ROOM_INFO {
        clients, order := rClient.GetAllConnectTypeRpcClient();
        calls := calls + [RoomInfo(m.roomId, m.roomUsers)];
      }
      met := met + (if calls == old(calls) then [] else [rClient.serverInsMap]);
    }

    /** A worker's turn. The process survives it exactly when the message's server has an instance. */
    method ProcessSinglePush(i: nat) returns (client: D.Option<Instance>)
      requires Enabled(Value(), capacity, Work(i))
      modifies this`pushChannel, this`inHand, this`alive, this`calls, this`met, rClient`indexMap
      ensures Value() == Step(old(Value()), capacity, Work(i))
      ensures (rClient.Value(), client) == D.Pick(old(rClient.Value()), old(pushChannel)[i][0].serverId)
      ensures alive == client.Some? == D.Available(rClient.serverInsMap, old(pushChannel)[i][0].serverId)
      ensures alive ==>
        && calls == old(calls) + [Single(old(pushChannel)[i][0])] && pushChannel[i] == old(pushChannel)[i][1..]
        && forall c :: Total(Value(), c) == Total(old(Value()), c)
      ensures !alive ==>
        && calls == old(calls) && inHand == [] && (forall q | q in pushChannel :: q == [])
        && forall c :: Total(Value(), c) == Total(old(Value()), c) - Memory(old(Value()), c)
    {
      forall c ensures Total(Step(Value(), capacity, Work(i)), c) == Total(Value(), c) - LostIn(Value(), Work(i), c) {
        WorkConserves(Value(), capacity, i, c);
      }
      hide Total, Memory, D.Pick;
      var arg := pushChannel[i][0];
      client := rClient.GetRpcClientByServerId(arg.serverId);
      if client.None? {
        inHand, pushChannel, alive := [], seq(|pushChannel|, _ => []), false;
      } else {
        pushChannel := pushChannel[i := pushChannel[i][1..]];
        calls, met := calls + [Single(arg)], met + [rClient.serverInsMap];
      }
    }
  }

  lemma NothingChosen(p: D.Picker)
    ensures D.Chosen(p, D.Picks([])) == []
  {
  }

  // ---------------------------------------------------------------- runs

  predicate Runs(w: World, capacity: nat, es: seq<Event>)
    decreases |es|
  {
    es == [] || (Enabled(w, capacity, es[0]) && Runs(Step(w, capacity, es[0]), capacity, es[1..]))
  }

  function After(w: World, capacity: nat, es: seq<Event>): World
    requires Runs(w, capacity, es)
    decreases |es|
  {
    if es == [] then w else After(Step(w, capacity, es[0]), capacity, es[1..])
  }

  /** The calls a list of messages asks for, oldest message first: the list's back is its oldest. */
  function Waiting(queue: seq<RedisMsg>): seq<Call> {
    if queue == [] then [] else Waiting(queue[1..]) + Asks(queue[0])
  }

  lemma {:induction false} WaitingPop(queue: seq<RedisMsg>)
    requires queue != []
    ensures Waiting(queue) == Asks(queue[|queue| - 1]) + Waiting(queue[..|queue| - 1])
    decreases |queue|
  {
    hide Asks;
    var n := |queue| - 1;
    if n > 0 {
      WaitingPop(queue[1..]);
      assert queue[1..][..n - 1] == queue[..n][1..];
    } else {
      assert queue[1..] == [] && queue[..0] == [];
    }
  }

  function InHand(w: World): seq<Call> {
    if w.inHand == [] then [] else Asks(w.inHand[0])
  }

  /** The calls a run's published messages ask for, in publish order. */
  function Published(es: seq<Event>): seq<Call> {
    if es == [] then [] else (if es[0].Publish? then Asks(es[0].msg) else []) + Published(es[1..])
  }

  /** The calls the consumer passes on in a run, to workers or at once, in order. */
  function Passed(w: World, capacity: nat, es: seq<Event>): seq<Call>
    requires Runs(w, capacity, es)
    decreases |es|
  {
    if es == [] then []
    else (if es[0].Dispatch? then Asks(w.inHand[0]) else []) + Passed(Step(w, capacity, es[0]), capacity, es[1..])
  }

  lemma Associate<T>(a: seq<T>, b: seq<T>, c: seq<T>)
    ensures (a + b) + c == a + (b + c)
  {
  }

  /** What is in the consumer's hand when the process ends. */
  function Dropped(w: World, capacity: nat, es: seq<Event>): seq<Call>
    requires Runs(w, capacity, es)
    decreases |es|
  {
    if es == [] then []
    else (if Dies(w, es[0]) then InHand(w) else []) + Dropped(Step(w, capacity, es[0]), capacity, es[1..])
  }

  function Leaving(w: World, capacity: nat, e: Event): seq<Call>
    requires Enabled(w, capacity, e)
  {
    if e.Dispatch? then Asks(w.inHand[0]) else if Dies(w, e) then InHand(w) else []
  }

  /** The calls that leave the consumer's hand in a run, passed on or dropped, in order. */
  function Taken(w: World, capacity: nat, es: seq<Event>): seq<Call>
    requires Runs(w, capacity, es)
    decreases |es|
  {
    if es == [] then []
    else Leaving(w, capacity, es[0]) + Taken(Step(w, capacity, es[0]), capacity, es[1..])
  }

  lemma QueueStep(w: World, capacity: nat, e: Event)
    requires Enabled(w, capacity, e) && |w.inHand| <= 1
    ensures var w' := Step(w, capacity, e);
      && |w'.inHand| <= 1
      && Leaving(w, capacity, e) + (InHand(w') + Waiting(w'.queue))
         == (InHand(w) + Waiting(w.queue)) + (if e.Publish? then Asks(e.msg) else [])
  {
    hide Asks, D.Available;
    var w' := Step(w, capacity, e);
    match e
    case Publish(m) =>
      assert w'.queue[1..] == w.queue;
      Associate(InHand(w), Waiting(w.queue), Asks(m));
    case Pop => WaitingPop(w.queue);
    case Dispatch(i) =>
      PushMoves(w, i);
      hide Push, Waiting;
    case Work(i) => hide Waiting;
    case Replace(_) =>
    case Start(_) =>
  }

  /** The queue is first in, first out: calls leave the consumer's hand in the order they were published,
      whatever is still in hand or queued being next. It passes all of them on if and only if it held
      nothing whenever the process ended. */
  lemma PassedInOrder(w: World, capacity: nat, es: seq<Event>)
    requires Runs(w, capacity, es) && |w.inHand| <= 1
    ensures var w' := After(w, capacity, es);
      Taken(w, capacity, es) + (InHand(w') + Waiting(w'.queue)) == (InHand(w) + Waiting(w.queue)) + Published(es)
    ensures Subsequence(Passed(w, capacity, es), Taken(w, capacity, es))
    ensures Passed(w, capacity, es) == Taken(w, capacity, es) <==> Dropped(w, capacity, es) == []
  {
    TakenInOrder(w, capacity, es);
    TakenSplits(w, capacity, es);
    hide Taken, Passed, Dropped, After, Subsequence;
  }

  lemma {:induction false} TakenInOrder(w: World, capacity: nat, es: seq<Event>)
    requires Runs(w, capacity, es) && |w.inHand| <= 1
    ensures var w' := After(w, capacity, es);
      Taken(w, capacity, es) + (InHand(w') + Waiting(w'.queue)) == (InHand(w) + Waiting(w.queue)) + Published(es)
    decreases |es|
  {
    if es != [] {
      var w1 := Step(w, capacity, es[0]);
      QueueStep(w, capacity, es[0]);
      TakenInOrder(w1, capacity, es[1..]);
      var w' := After(w, capacity, es);
      var d := Leaving(w, capacity, es[0]);
      hide Step, Enabled, Asks, Waiting, InHand, Leaving;
      var p := if es[0].Publish? then Asks(es[0].msg) else [];
      Associate(d, Taken(w1, capacity, es[1..]), InHand(w') + Waiting(w'.queue));
      Associate(d, InHand(w1) + Waiting(w1.queue), Published(es[1..]));
      Associate(InHand(w) + Waiting(w.queue), p, Published(es[1..]));
    }
  }

  /** What leaves the consumer's hand is what it passes on and what is dropped. */
  lemma {:induction false} TakenSplits(w: World, capacity: nat, es: seq<Event>)
    requires Runs(w, capacity, es)
    ensures var (taken, passed, dropped) := (Taken(w, capacity, es), Passed(w, capacity, es), Dropped(w, capacity, es));
      && Subsequence(passed, taken) && |taken| == |passed| + |dropped| && (dropped == [] ==> taken == passed)
      && Subsequence(RoomClass(passed), RoomClass(taken))
      && |RoomClass(taken)| == |RoomClass(passed)| + |RoomClass(dropped)|
      && (RoomClass(dropped) == [] ==> RoomClass(taken) == RoomClass(passed))
    decreases |es|
  {
    if es != [] {
      var w1 := Step(w, capacity, es[0]);
      TakenSplits(w1, capacity, es[1..]);
      var d := Leaving(w, capacity, es[0]);
      var p := if es[0].Dispatch? then d else [];
      var x := if Dies(w, es[0]) then d else [];
      assert RoomClass([]) == [];
      hide Step, Enabled, Asks, InHand, Subsequence, RoomClass, Leaving;
      var (taken, passed, dropped) :=
        (Taken(w1, capacity, es[1..]), Passed(w1, capacity, es[1..]), Dropped(w1, capacity, es[1..]));
      assert Taken(w, capacity, es) == d + taken && Passed(w, capacity, es) == p + passed && Dropped(w, capacity, es) == x + dropped;
      Splits(d, p, x, taken, passed, dropped);
      RoomClassConcat(d, taken);
      RoomClassConcat(p, passed);
      RoomClassConcat(x, dropped);
      Splits(RoomClass(d), RoomClass(p), RoomClass(x), RoomClass(taken), RoomClass(passed), RoomClass(dropped));
    }
  }

  lemma Splits(d: seq<Call>, p: seq<Call>, x: seq<Call>, taken: seq<Call>, passed: seq<Call>, dropped: seq<Call>)
    requires (p == d && x == []) || (p == [] && x == d)
    requires Subsequence(passed, taken) && |taken| == |passed| + |dropped| && (dropped == [] ==> taken == passed)
    ensures Subsequence(p + passed, d + taken) && |d + taken| == |p + passed| + |x + dropped|
    ensures x + dropped == [] ==> d + taken == p + passed
  {
    SelfSubsequence(d);
    hide Subsequence;
    ConcatSubsequence(p, d, passed, taken);
  }

  // ---------------------------------------------------------------- room calls

  function RoomClass(cs: seq<Call>): seq<Call> {
    if cs == [] then [] else RoomClass(cs[..|cs| - 1]) + (if cs[|cs| - 1].Single? then [] else [cs[|cs| - 1]])
  }

  lemma {:induction false} RoomClassConcat(a: seq<Call>, b: seq<Call>)
    ensures RoomClass(a + b) == RoomClass(a) + RoomClass(b)
    decreases |b|
  {
    if b == [] {
      assert a + b == a;
    } else {
      var n := |b| - 1;
      RoomClassConcat(a, b[..n]);
      assert (a + b)[..|a| + n] == a + b[..n];
    }
  }

  lemma HandedStep(w: World, capacity: nat, e: Event)
    requires Enabled(w, capacity, e)
    ensures RoomClass(Step(w, capacity, e).calls)
         == RoomClass(w.calls) + RoomClass(if e.Dispatch? then Asks(w.inHand[0]) else [])
  {
    if e.Dispatch? {
      RoomClassConcat(w.calls, Asks(w.inHand[0]));
    } else if e.Work? && !Dies(w, e) {
      RoomClassConcat(w.calls, [Single(w.workers[e.worker][0])]);
    }
  }

  lemma {:induction false} RoomCallsArePassed(w: World, capacity: nat, es: seq<Event>)
    requires Runs(w, capacity, es)
    ensures RoomClass(After(w, capacity, es).calls) == RoomClass(w.calls) + RoomClass(Passed(w, capacity, es))
    decreases |es|
  {
    if es == [] {
      assert RoomClass(w.calls) + RoomClass([]) == RoomClass(w.calls);
    } else {
      var w1 := Step(w, capacity, es[0]);
      var d := if es[0].Dispatch? then Asks(w.inHand[0]) else [];
      HandedStep(w, capacity, es[0]);
      hide Step, Enabled, Asks, RoomClass;
      RoomCallsArePassed(w1, capacity, es[1..]);
      RoomClassConcat(d, Passed(w1, capacity, es[1..]));
      Associate(RoomClass(w.calls), RoomClass(d), RoomClass(Passed(w1, capacity, es[1..])));
    }
  }

  function Empty(workers: nat, servers: D.Table): World { World([], [], seq(workers, _ => []), [], [], servers, true) }

  lemma EmptyPasses(w0: World, capacity: nat, es: seq<Event>)
    requires Runs(w0, capacity, es) && w0.inHand == [] && w0.queue == []
    ensures var w := After(w0, capacity, es);
      Taken(w0, capacity, es) + (InHand(w) + Waiting(w.queue)) == Published(es)
  {
    TakenInOrder(w0, capacity, es);
    assert InHand(w0) + Waiting(w0.queue) == [];
    hide After, Taken;
    assert [] + Published(es) == Published(es);
  }

  /** From an empty pipeline, room calls are handed on in publish order; with the ones still to come they
      are all of the published ones if and only if no room call was in hand when the process ended. */
  lemma RoomCallsInOrder(workers: nat, servers: D.Table, capacity: nat, es: seq<Event>)
    requires Runs(Empty(workers, servers), capacity, es)
    ensures var w0 := Empty(workers, servers);
      var w := After(w0, capacity, es);
      && Subsequence(RoomClass(w.calls), RoomClass(Published(es)))
      && (RoomClass(w.calls) + RoomClass(InHand(w) + Waiting(w.queue)) == RoomClass(Published(es))
          <==> RoomClass(Dropped(w0, capacity, es)) == [])
  {
    var w0 := Empty(workers, servers);
    var w := After(w0, capacity, es);
    EmptyPasses(w0, capacity, es);
    RoomCallsArePassed(w0, capacity, es);
    TakenSplits(w0, capacity, es);
    assert RoomClass(w0.calls) == [];
    hide After, Passed, Taken, Dropped, Empty, InHand, Waiting, RoomClass, Subsequence;
    assert [] + RoomClass(Passed(w0, capacity, es)) == RoomClass(Passed(w0, capacity, es));
    RoomClassConcat(Taken(w0, capacity, es), InHand(w) + Waiting(w.queue));
    AppendRight(RoomClass(w.calls), RoomClass(Taken(w0, capacity, es)), RoomClass(InHand(w) + Waiting(w.queue)));
  }

  // ---------------------------------------------------------------- single messages

  function PassedTo(w: World, capacity: nat, es: seq<Event>, i: nat): seq<Call>
    requires Runs(w, capacity, es)
    decreases |es|
  {
    if es == [] then []
    else
      (if es[0] == Dispatch(i) && w.inHand[0].op == OP_SINGLE_SEND then Asks(w.inHand[0]) else [])
      + PassedTo(Step(w, capacity, es[0]), capacity, es[1..], i)
  }

  /** The calls worker `i` hands on, in order. */
  function WorkedBy(w: World, capacity: nat, es: seq<Event>, i: nat): seq<Call>
    requires Runs(w, capacity, es)
    decreases |es|
  {
    if es == [] then []
    else
      (if es[0] == Work(i) && !Dies(w, es[0]) then [Single(w.workers[i][0])] else [])
      + WorkedBy(Step(w, capacity, es[0]), capacity, es[1..], i)
  }

  /** What waits with worker `i` when the process ends. */
  function DroppedBy(w: World, capacity: nat, es: seq<Event>, i: nat): seq<Call>
    requires Runs(w, capacity, es) && i < |w.workers|
    decreases |es|
  {
    if es == [] then []
    else
      (if Dies(w, es[0]) then Singles(w.workers[i]) else [])
      + DroppedBy(Step(w, capacity, es[0]), capacity, es[1..], i)
  }

  function LeavingFrom(w: World, e: Event, i: nat): seq<Call>
    requires i < |w.workers|
  {
    if Dies(w, e) then Singles(w.workers[i])
    else if e == Work(i) && w.workers[i] != [] then [Single(w.workers[i][0])]
    else []
  }

  /** What leaves worker `i`'s queue, handed on or dropped, in order. */
  function TakenFrom(w: World, capacity: nat, es: seq<Event>, i: nat): seq<Call>
    requires Runs(w, capacity, es) && i < |w.workers|
    decreases |es|
  {
    if es == [] then [] else LeavingFrom(w, es[0], i) + TakenFrom(Step(w, capacity, es[0]), capacity, es[1..], i)
  }

  function Singles(ps: seq<PushParams>): (cs: seq<Call>)
    ensures |cs| == |ps| && forall i | 0 <= i < |ps| :: cs[i] == Single(ps[i])
  {
    if ps == [] then [] else [Single(ps[0])] + Singles(ps[1..])
  }

  lemma NoSingles()
    ensures Singles([]) == []
  {
  }

  lemma SinglesFirst(p: PushParams, rest: seq<PushParams>)
    ensures Singles([p] + rest) == [Single(p)] + Singles(rest)
    ensures [p] + [] == [p]
  {
    assert ([p] + rest)[1..] == rest;
  }

  lemma WorkerStep(w: World, capacity: nat, e: Event, i: nat)
    requires Enabled(w, capacity, e) && i < |w.workers|
    ensures var w' := Step(w, capacity, e);
      && |w'.workers| == |w.workers|
      && LeavingFrom(w, e, i) + Singles(w'.workers[i])
         == Singles(w.workers[i]) + (if e == Dispatch(i) && w.inHand[0].op == OP_SINGLE_SEND then Asks(w.inHand[0]) else [])
  {
    hide D.Available, Singles;
    assert Singles([]) == [] by { NoSingles(); }
    match e
    case Dispatch(j) =>
      PushMoves(w, j);
      hide Push;
      if j == i && w.inHand[0].op == OP_SINGLE_SEND {
        var m := w.inHand[0];
        var ps := [PushParams(m.serverId, m.userId, m.msg)];
        SinglesConcat(w.workers[i], ps);
        SinglesFirst(ps[0], []);
        assert Singles(ps) == Asks(m);
      }
    case Work(j) =>
      if j == i { SinglesFirst(w.workers[i][0], w.workers[i][1..]); }
    case Publish(_) =>
    case Pop =>
    case Replace(_) =>
    case Start(_) =>
  }

  /** What leaves a worker's queue is what was passed to it, first in first out. The worker hands all of
      it on if and only if nothing waited there whenever the process ended. */
  lemma WorkerIsQueue(w: World, capacity: nat, es: seq<Event>, i: nat)
    requires Runs(w, capacity, es) && i < |w.workers|
    ensures |After(w, capacity, es).workers| == |w.workers|
    ensures TakenFrom(w, capacity, es, i) + Singles(After(w, capacity, es).workers[i])
         == Singles(w.workers[i]) + PassedTo(w, capacity, es, i)
    ensures Subsequence(WorkedBy(w, capacity, es, i), TakenFrom(w, capacity, es, i))
    ensures WorkedBy(w, capacity, es, i) == TakenFrom(w, capacity, es, i) <==> DroppedBy(w, capacity, es, i) == []
  {
    TakenFromInOrder(w, capacity, es, i);
    TakenFromSplits(w, capacity, es, i);
    hide After, TakenFrom, WorkedBy, DroppedBy, PassedTo, Subsequence;
  }

  lemma {:induction false} TakenFromInOrder(w: World, capacity: nat, es: seq<Event>, i: nat)
    requires Runs(w, capacity, es) && i < |w.workers|
    ensures |After(w, capacity, es).workers| == |w.workers|
    ensures TakenFrom(w, capacity, es, i) + Singles(After(w, capacity, es).workers[i])
         == Singles(w.workers[i]) + PassedTo(w, capacity, es, i)
    decreases |es|
  {
    if es != [] {
      var w1 := Step(w, capacity, es[0]);
      WorkerStep(w, capacity, es[0], i);
      TakenFromInOrder(w1, capacity, es[1..], i);
      var d := LeavingFrom(w, es[0], i);
      var p := if es[0] == Dispatch(i) && w.inHand[0].op == OP_SINGLE_SEND then Asks(w.inHand[0]) else [];
      var last := Singles(After(w, capacity, es).workers[i]);
      hide Step, Enabled, Asks, Singles, LeavingFrom;
      Associate(d, TakenFrom(w1, capacity, es[1..], i), last);
      Associate(d, Singles(w1.workers[i]), PassedTo(w1, capacity, es[1..], i));
      Associate(Singles(w.workers[i]), p, PassedTo(w1, capacity, es[1..], i));
    }
  }

  lemma {:induction false} TakenFromSplits(w: World, capacity: nat, es: seq<Event>, i: nat)
    requires Runs(w, capacity, es) && i < |w.workers|
    ensures var (taken, worked, dropped) :=
        (TakenFrom(w, capacity, es, i), WorkedBy(w, capacity, es, i), DroppedBy(w, capacity, es, i));
      Subsequence(worked, taken) && |taken| == |worked| + |dropped| && (dropped == [] ==> taken == worked)
    decreases |es|
  {
    if es != [] {
      var w1 := Step(w, capacity, es[0]);
      TakenFromSplits(w1, capacity, es[1..], i);
      var d := LeavingFrom(w, es[0], i);
      var p := if es[0] == Work(i) && !Dies(w, es[0]) then d else [];
      var x := if Dies(w, es[0]) then d else [];
      SelfSubsequence(d);
      hide Step, Enabled, Subsequence, Singles;
      var (taken, worked) := (TakenFrom(w1, capacity, es[1..], i), WorkedBy(w1, capacity, es[1..], i));
      assert TakenFrom(w, capacity, es, i) == d + taken && WorkedBy(w, capacity, es, i) == p + worked
        && DroppedBy(w, capacity, es, i) == x + DroppedBy(w1, capacity, es[1..], i);
      ConcatSubsequence(p, d, worked, taken);
    }
  }

  lemma {:induction false} ConcatSubsequence<T>(y: seq<T>, x: seq<T>, a: seq<T>, b: seq<T>)
    requires Subsequence(y, x) && Subsequence(a, b)
    ensures Subsequence(y + a, x + b)
    decreases |b|
  {
    if b == [] {
      assert y + a == y && x + b == x;
    } else {
      var n := |b| - 1;
      var b' := b[..n];
      assert x + b == (x + b') + [b[n]];
      if a != [] && a[|a| - 1] == b[n] && Subsequence(a[..|a| - 1], b') {
        var a' := a[..|a| - 1];
        ConcatSubsequence(y, x, a', b');
        SubsequenceGrows(y + a', x + b', b[n]);
        assert y + a == (y + a') + [b[n]];
      } else {
        ConcatSubsequence(y, x, a, b');
        SubsequenceGrows(y + a, x + b', b[n]);
      }
    }
  }

  lemma {:induction false} SelfSubsequence<T>(x: seq<T>)
    ensures Subsequence(x, x) && Subsequence([], x)
  {
    if x != [] { SelfSubsequence(x[..|x| - 1]); }
  }

  /** What is passed to one worker keeps the order in which everything is passed on. */
  lemma {:induction false} PassedToKeepsOrder(w: World, capacity: nat, es: seq<Event>, i: nat)
    requires Runs(w, capacity, es)
    ensures Subsequence(PassedTo(w, capacity, es, i), Passed(w, capacity, es))
    decreases |es|
  {
    if es != [] {
      var w1 := Step(w, capacity, es[0]);
      PassedToKeepsOrder(w1, capacity, es[1..], i);
      var d := if es[0].Dispatch? then Asks(w.inHand[0]) else [];
      var t := if es[0] == Dispatch(i) && w.inHand[0].op == OP_SINGLE_SEND then Asks(w.inHand[0]) else [];
      SelfSubsequence(d);
      assert Subsequence(t, d);
      hide Step, Enabled, Asks, Subsequence;
      ConcatSubsequence(t, d, PassedTo(w1, capacity, es[1..], i), Passed(w1, capacity, es[1..]));
    }
  }

  lemma {:induction false} SubsequenceOfSubsequence<T>(a: seq<T>, b: seq<T>, c: seq<T>)
    requires Subsequence(a, b) && Subsequence(b, c)
    ensures Subsequence(a, c)
    decreases |c|
  {
    if a != [] {
      var n := |c| - 1;
      if b[|b| - 1] == c[n] && Subsequence(b[..|b| - 1], c[..n]) {
        if a[|a| - 1] == b[|b| - 1] && Subsequence(a[..|a| - 1], b[..|b| - 1]) {
          SubsequenceOfSubsequence(a[..|a| - 1], b[..|b| - 1], c[..n]);
        } else {
          SubsequenceOfSubsequence(a, b[..|b| - 1], c[..n]);
        }
      } else {
        SubsequenceOfSubsequence(a, b, c[..n]);
      }
    }
  }

  /** Single messages keep publish order within each worker. */
  lemma SinglesKeepOrder(workers: nat, servers: D.Table, capacity: nat, es: seq<Event>, i: nat)
    requires i < workers && Runs(Empty(workers, servers), capacity, es)
    ensures Subsequence(WorkedBy(Empty(workers, servers), capacity, es, i), Published(es))
  {
    var w0 := Empty(workers, servers);
    var w := After(w0, capacity, es);
    WorkerIsQueue(w0, capacity, es, i);
    PassedToKeepsOrder(w0, capacity, es, i);
    EmptyPasses(w0, capacity, es);
    PassedInOrder(w0, capacity, es);
    assert Singles(w0.workers[i]) == [];
    hide After, Passed, Taken, TakenFrom, Empty, PassedTo, WorkedBy, DroppedBy, Dropped, InHand, Waiting, Subsequence, Singles, Published;
    assert [] + PassedTo(w0, capacity, es, i) == PassedTo(w0, capacity, es, i);
    DropSuffix(TakenFrom(w0, capacity, es, i), Singles(w.workers[i]), Passed(w0, capacity, es));
    SubsequenceOfSubsequence(WorkedBy(w0, capacity, es, i), TakenFrom(w0, capacity, es, i), Passed(w0, capacity, es));
    SubsequenceOfSubsequence(WorkedBy(w0, capacity, es, i), Passed(w0, capacity, es), Taken(w0, capacity, es));
    AppendRight(WorkedBy(w0, capacity, es, i), Taken(w0, capacity, es), InHand(w) + Waiting(w.queue));
  }

  lemma {:induction false} AppendRight<T>(a: seq<T>, b: seq<T>, c: seq<T>)
    requires Subsequence(a, b)
    ensures Subsequence(a, b + c)
    decreases |c|
  {
    hide Subsequence;
    if c == [] {
      assert b + c == b;
    } else {
      var n := |c| - 1;
      AppendRight(a, b, c[..n]);
      SubsequenceGrows(a, b + c[..n], c[n]);
      assert b + c == b + c[..n] + [c[n]];
    }
  }

  /** No worker's queue is longer than its channel is wide. */
  predicate WithinCapacity(w: World, capacity: nat) { forall q | q in w.workers :: |q| <= capacity }

  lemma {:induction false} RunWithinCapacity(w: World, capacity: nat, es: seq<Event>)
    requires Runs(w, capacity, es) && WithinCapacity(w, capacity)
    ensures WithinCapacity(After(w, capacity, es), capacity)
    decreases |es|
  {
    if es != [] {
      StepWithinCapacity(w, capacity, es[0]);
      hide Step, Enabled, WithinCapacity;
      RunWithinCapacity(Step(w, capacity, es[0]), capacity, es[1..]);
    }
  }

  lemma StepWithinCapacity(w: World, capacity: nat, e: Event)
    requires Enabled(w, capacity, e) && WithinCapacity(w, capacity)
    ensures WithinCapacity(Step(w, capacity, e), capacity)
  {
    hide D.Available, Asks;
    if e.Work? { assert w.workers[e.worker] in w.workers; }
  }

  // ---------------------------------------------------------------- conservation

  function Count(cs: seq<Call>, c: Call): nat { multiset(cs)[c] }

  function WithWorkers(workers: seq<seq<PushParams>>, c: Call): nat {
    if workers == [] then 0
    else WithWorkers(workers[..|workers| - 1], c) + Count(Singles(workers[|workers| - 1]), c)
  }

  lemma {:induction false} WithWorkersUpdate(workers: seq<seq<PushParams>>, i: nat, q: seq<PushParams>, c: Call)
    requires i < |workers|
    ensures WithWorkers(workers[i := q], c) == WithWorkers(workers, c) - Count(Singles(workers[i]), c) + Count(Singles(q), c)
    decreases |workers|
  {
    hide Singles, Count;
    var n := |workers| - 1;
    var v := workers[i := q];
    if i < n {
      WithWorkersUpdate(workers[..n], i, q, c);
      assert v[..n] == workers[..n][i := q] && v[n] == workers[n];
    } else {
      assert v[..n] == workers[..n] && v[n] == q;
    }
  }

  /** How often a call is asked for by what is queued, in hand, with workers, or was handed on. */
  function Total(w: World, c: Call): nat {
    Count(Waiting(w.queue), c) + Count(InHand(w), c) + WithWorkers(w.workers, c) + Count(w.calls, c)
  }

  /** How often a call is asked for by what the process holds in memory. */
  function Memory(w: World, c: Call): nat { Count(InHand(w), c) + WithWorkers(w.workers, c) }

  function LostIn(w: World, e: Event, c: Call): nat { if Dies(w, e) then Memory(w, c) else 0 }

  /** How often a call is lost in a run. */
  function Lost(w: World, capacity: nat, es: seq<Event>, c: Call): nat
    requires Runs(w, capacity, es)
    decreases |es|
  {
    if es == [] then 0 else LostIn(w, es[0], c) + Lost(Step(w, capacity, es[0]), capacity, es[1..], c)
  }

  /** Every message a worker takes is for a server that has an instance then. */
  predicate Served(w: World, capacity: nat, es: seq<Event>)
    requires Runs(w, capacity, es)
    decreases |es|
  {
    es == [] || (!Dies(w, es[0]) && Served(Step(w, capacity, es[0]), capacity, es[1..]))
  }

  lemma CountConcat(a: seq<Call>, b: seq<Call>, c: Call)
    ensures Count(a + b, c) == Count(a, c) + Count(b, c)
  {
  }

  lemma SinglesConcat(a: seq<PushParams>, b: seq<PushParams>)
    ensures Singles(a + b) == Singles(a) + Singles(b)
  {
  }

  lemma OneMoreForWorker(workers: seq<seq<PushParams>>, i: nat, p: PushParams, c: Call)
    requires i < |workers|
    ensures WithWorkers(workers[i := workers[i] + [p]], c) == WithWorkers(workers, c) + Count([Single(p)], c)
  {
    assert Singles([p]) == [Single(p)];
    hide WithWorkers, Singles, Count;
    WithWorkersUpdate(workers, i, workers[i] + [p], c);
    SinglesConcat(workers[i], [p]);
    CountConcat(Singles(workers[i]), [Single(p)], c);
  }

  lemma PushMoves(w: World, i: nat)
    requires |w.inHand| == 1 && i < |w.workers|
    ensures InHand(w) == Asks(w.inHand[0]) && InHand(Push(w, i)) == [] && Push(w, i).inHand == [] && Push(w, i).queue == w.queue
    ensures var m := w.inHand[0];
      if m.op == OP_SINGLE_SEND then
        var p := PushParams(m.serverId, m.userId, m.msg);
        Asks(m) == [Single(p)] && Push(w, i).workers == w.workers[i := w.workers[i] + [p]] && Push(w, i).calls == w.calls
      else Push(w, i).workers == w.workers && Push(w, i).calls == w.calls + Asks(m)
  {
  }

  lemma DispatchConserves(w: World, i: nat, c: Call)
    requires |w.inHand| == 1 && i < |w.workers|
    ensures Total(Push(w, i), c) == Total(w, c)
  {
    PushMoves(w, i);
    assert Count([], c) == 0;
    var m := w.inHand[0];
    hide WithWorkers, Waiting, Asks, InHand, Singles, Count, Push;
    if m.op == OP_SINGLE_SEND {
      OneMoreForWorker(w.workers, i, PushParams(m.serverId, m.userId, m.msg), c);
    } else {
      CountConcat(w.calls, Asks(m), c);
    }
  }

  lemma {:induction false} NoneWithWorkers(workers: seq<seq<PushParams>>, c: Call)
    requires forall q | q in workers :: q == []
    ensures WithWorkers(workers, c) == 0
  {
    if workers != [] {
      var n := |workers| - 1;
      assert workers[n] in workers;
      forall q | q in workers[..n] ensures q == [] { assert q in workers; }
      NoneWithWorkers(workers[..n], c);
    }
  }

  lemma FallLoses(w: World, c: Call)
    ensures Total(Fall(w), c) == Total(w, c) - Memory(w, c)
  {
    NoneWithWorkers(Fall(w).workers, c);
    NoneCounted(c);
    hide WithWorkers, Waiting, Count;
  }

  lemma WorkConserves(w: World, capacity: nat, i: nat, c: Call)
    requires Enabled(w, capacity, Work(i))
    ensures Total(Step(w, capacity, Work(i)), c) == Total(w, c) - LostIn(w, Work(i), c)
  {
    if Dies(w, Work(i)) {
      FallLoses(w, c);
    } else {
      var q := w.workers[i];
      assert Singles(q) == [Single(q[0])] + Singles(q[1..]);
      hide WithWorkers, Waiting, Asks, Count, Singles;
      WithWorkersUpdate(w.workers, i, q[1..], c);
      CountConcat([Single(q[0])], Singles(q[1..]), c);
      CountConcat(w.calls, [Single(q[0])], c);
    }
  }

  lemma PublishConserves(w: World, m: RedisMsg, c: Call)
    ensures Total(w.(queue := [m] + w.queue), c) == Total(w, c) + Count(Asks(m), c)
  {
    assert ([m] + w.queue)[1..] == w.queue;
    assert Waiting([m] + w.queue) == Waiting(w.queue) + Asks(m);
    hide WithWorkers, Asks, Waiting, Count;
    CountConcat(Waiting(w.queue), Asks(m), c);
  }

  lemma PopConserves(w: World, capacity: nat, c: Call)
    requires Enabled(w, capacity, Pop)
    ensures Total(Step(w, capacity, Pop), c) == Total(w, c)
  {
    WaitingPop(w.queue);
    hide WithWorkers, Asks, Waiting, Count;
    CountConcat(Asks(w.queue[|w.queue| - 1]), Waiting(w.queue[..|w.queue| - 1]), c);
    assert Count([], c) == 0 by { NoneCounted(c); }
  }

  lemma NoneCounted(c: Call)
    ensures Count([], c) == 0
  {
  }

  lemma StepConserves(w: World, capacity: nat, e: Event, c: Call)
    requires Enabled(w, capacity, e) && |w.inHand| <= 1
    ensures |Step(w, capacity, e).inHand| <= 1
    ensures Total(Step(w, capacity, e), c) + LostIn(w, e, c) == Total(w, c) + Count(if e.Publish? then Asks(e.msg) else [], c)
  {
    hide Asks, Count, Push, Memory;
    NoneCounted(c);
    match e
    case Publish(m) => hide Total; PublishConserves(w, m, c);
    case Pop => hide Total; PopConserves(w, capacity, c);
    case Dispatch(i) => hide Total; DispatchConserves(w, i, c); PushMoves(w, i);
    case Work(i) => hide Total; WorkConserves(w, capacity, i, c);
    case Replace(_) =>
    case Start(_) =>
  }

  /** In every run each published call is queued, in hand, with a worker, handed on, or lost with the
      process, as many times as it was published. */
  lemma {:induction false} PipelineConserves(w: World, capacity: nat, es: seq<Event>, c: Call)
    requires Runs(w, capacity, es) && |w.inHand| <= 1
    ensures Total(After(w, capacity, es), c) + Lost(w, capacity, es, c) == Total(w, c) + Count(Published(es), c)
    decreases |es|
  {
    if es != [] {
      StepConserves(w, capacity, es[0], c);
      PipelineConserves(Step(w, capacity, es[0]), capacity, es[1..], c);
      CountConcat(if es[0].Publish? then Asks(es[0].msg) else [], Published(es[1..]), c);
      hide Step, Enabled, Total, Asks, Count, LostIn;
    }
  }

  /** A run loses nothing exactly when every message a worker takes finds an instance of its server. */
  lemma ConservedIffServed(w: World, capacity: nat, es: seq<Event>)
    requires Runs(w, capacity, es) && |w.inHand| <= 1
    ensures (forall c :: Total(After(w, capacity, es), c) == Total(w, c) + Count(Published(es), c)) <==> Served(w, capacity, es)
  {
    hide Total, After, Runs, Lost, Served, Count, Published;
    var lost := ServedOrLost(w, capacity, es);
    forall c
      ensures Total(After(w, capacity, es), c) + Lost(w, capacity, es, c) == Total(w, c) + Count(Published(es), c)
      ensures Served(w, capacity, es) ==> Lost(w, capacity, es, c) == 0
    {
      PipelineConserves(w, capacity, es, c);
    }
    assert Total(After(w, capacity, es), lost) + Lost(w, capacity, es, lost) == Total(w, lost) + Count(Published(es), lost);
  }

  /** A run that is not served loses a single message. */
  lemma {:induction false} ServedOrLost(w: World, capacity: nat, es: seq<Event>) returns (lost: Call)
    requires Runs(w, capacity, es)
    ensures Served(w, capacity, es) ==> forall c :: Lost(w, capacity, es, c) == 0
    ensures !Served(w, capacity, es) ==> lost.Single? && Lost(w, capacity, es, lost) > 0
    decreases |es|
  {
    hide Memory;
    lost := Room(0, "");
    if es != [] {
      lost := ServedOrLost(Step(w, capacity, es[0]), capacity, es[1..]);
      if Dies(w, es[0]) {
        TakenIsLost(w, es[0].worker);
        lost := Single(w.workers[es[0].worker][0]);
      }
    }
  }

  /** The message whose worker dies is among the lost. */
  lemma TakenIsLost(w: World, i: nat)
    requires Dies(w, Work(i))
    ensures LostIn(w, Work(i), Single(w.workers[i][0])) > 0
  {
    var c := Single(w.workers[i][0]);
    WithWorkersUpdate(w.workers, i, [], c);
    assert Singles(w.workers[i])[0] == c;
    hide WithWorkers, Singles, InHand;
  }

  /** What a call met, it met when it was made: a single call met an instance of its server. */
  lemma {:induction false} SinglesMetTheirServer(w: World, capacity: nat, es: seq<Event>)
    requires Runs(w, capacity, es)
    requires |w.met| == |w.calls| && forall k | 0 <= k < |w.calls| && w.calls[k].Single? :: D.Available(w.met[k], w.calls[k].params.serverId)
    ensures var w' := After(w, capacity, es);
      |w'.met| == |w'.calls| && forall k | 0 <= k < |w'.calls| && w'.calls[k].Single? :: D.Available(w'.met[k], w'.calls[k].params.serverId)
    decreases |es|
  {
    if es != [] {
      SinglesMetTheirServer(Step(w, capacity, es[0]), capacity, es[1..]);
    }
  }
}
