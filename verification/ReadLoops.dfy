/** What a connection's read loop calls, in order, and what it undoes when the connection ends
    (connect/server_tcp.go, connect/server.go). Decoding a payload and the logic layer's answers are
    parameters: any decoding, any answers. */
module ReadLoops {
  import opened StickPackage
  import opened TcpScanner
  import M = IndexModel
  import RedisStore

  const OP_BUILD_TCP_CONN := 6

  datatype TcpMsg = TcpMsg(op: int, token: string, room: int, body: string)

  /** A frame's content: unreadable, fatal to read, or a message. */
  datatype Item = Bad | Fatal | Good(msg: TcpMsg)

  datatype Reply = Failed | User(id: int)

  /** How a read loop goes on, or ends: by returning, by a panic, which lets the deferred function run and
      then ends the server, or by ending the server on the spot. */
  datatype Next = GoesOn | Returns | Panics | Exits

  datatype Call =
    | Connect(token: string, room: int)
    | Put(user: int, room: int)
    | PushRoom(msg: TcpMsg)
    | Delete(user: int)
    | DisConnect(room: int, user: int)

  /** The user id and the room a channel carries. */
  datatype Seat = Seat(user: int, room: int)

  const NOBODY := Seat(0, M.NO_ROOM)

  /** How the logic layer answers the n-th connect of a connection. */
  type Answers = (nat, string, int) -> Reply

  // ---------------------------------------------------------------- one message

  /** A put without a room leaves the channel's room as it was. */
  function Seated(seat: Seat, user: int, room: int): Seat {
    Seat(user, if room == M.NO_ROOM then seat.room else room)
  }

  /** The calls a request to connect makes, and how the loop goes on. A call that fails ends the server
      (connect/rpc.go). */
  function Joining(token: string, room: int, n: nat, seat: Seat, answers: Answers): (seq<Call>, Seat, Next) {
    var reply := answers(n, token, room);
    if reply.Failed? then ([Connect(token, room)], seat, Exits)
    else if reply.id == 0 then ([Connect(token, room)], seat, Returns)
    else ([Connect(token, room), Put(reply.id, room)], Seated(seat, reply.id, room), GoesOn)
  }

  function React(m: TcpMsg, n: nat, seat: Seat, answers: Answers): (seq<Call>, Seat, Next) {
    if m.token == "" || m.room <= 0 then ([], seat, Returns)
    else if m.op == OP_BUILD_TCP_CONN then Joining(m.token, m.room, n, seat, answers)
    else if m.op == RedisStore.OP_ROOM_SEND then ([PushRoom(m)], seat, GoesOn)
    else ([], seat, GoesOn)
  }

  function Connects(calls: seq<Call>): nat {
    if calls == [] then 0 else (if calls[0].Connect? then 1 else 0) + Connects(calls[1..])
  }

  // ---------------------------------------------------------------- the loop

  /** All messages, with no frame unreadable. */
  function HandleGood(msgs: seq<TcpMsg>, n: nat, seat: Seat, answers: Answers): (seq<Call>, Seat, Next) {
    if msgs == [] then ([], seat, GoesOn)
    else
      var (calls, seat', next) := React(msgs[0], n, seat, answers);
      if !next.GoesOn? then (calls, seat', next)
      else
        var (rest, last, end) := HandleGood(msgs[1..], n + Connects(calls), seat', answers);
        (calls + rest, last, end)
  }

  /** An unreadable frame ends a pass over the scanner; `passes` are left. */
  function Handle(items: seq<Item>, passes: nat, n: nat, seat: Seat, answers: Answers): (seq<Call>, Seat, Next) {
    if passes == 0 || items == [] then ([], seat, Returns)
    else
      match items[0]
      case Bad => Handle(items[1..], passes - 1, n, seat, answers)
      case Fatal => ([], seat, Panics)
      case Good(m) =>
        var (calls, seat', next) := React(m, n, seat, answers);
        if !next.GoesOn? then (calls, seat', next)
        else
          var (rest, last, end) := Handle(items[1..], passes, n + Connects(calls), seat', answers);
          (calls + rest, last, end)
  }

  /** What the deferred function does: a channel with a room and a user is taken out of the index,
      then the logic layer is told. */
  function Cleanup(seat: Seat): seq<Call> {
    if seat.room == M.NO_ROOM || seat.user == 0 then []
    else Undo(seat.user, seat.room)
  }

  function Undo(user: int, room: int): seq<Call> { [Delete(user), DisConnect(room, user)] }

  /** What the deferred function adds when a loop has ended. */
  function Deferred(seat: Seat, end: Next): seq<Call> {
    if end.Exits? then [] else Cleanup(seat)
  }

  /** The calls of a TCP connection, and how it ends. */
  function Served(items: seq<Item>, answers: Answers): (seq<Call>, Next) {
    var (calls, seat, end) := Handle(items, 3, 0, NOBODY, answers);
    (calls + Deferred(seat, end), end)
  }

  function ItemOf(token: Bytes, decode: Bytes -> Item): Item {
    match UnpackOutcome(token)
    case Panicked => Fatal
    case ShortRead => Bad
    case Unpacked => decode(Payload(token))
  }

  function Items(tokens: seq<Bytes>, decode: Bytes -> Item): seq<Item> {
    if tokens == [] then [] else [ItemOf(tokens[0], decode)] + Items(tokens[1..], decode)
  }

  /** What a whole stream holds; a scan that panics, or yields an empty token, is fatal. */
  function Held(data: Bytes, decode: Bytes -> Item): seq<Item> {
    Items(Parse(data), decode) + (if Finish(data) in {Crashed, Stuck} then [Fatal] else [])
  }

  method Decode(token: Bytes, decode: Bytes -> Item) returns (item: Item)
    ensures item == ItemOf(token, decode)
  {
    hide FromBigEndian;
    var p := new Package();
    var r := new Reader(token);
    var o := p.Unpack(r);
    match o
    case Panicked => item := Fatal;
    case ShortRead => item := Bad;
    case Unpacked => item := decode(p.msg);
  }

  type Course = (seq<Call>, Seat, Next)

  /** The calls made so far and those still to come are all the calls. */
  ghost predicate Continues(all: Course, calls: seq<Call>,
      todo: seq<Item>, passes: nat, n: nat, seat: Seat, answers: Answers) {
    var (rest, last, end) := Handle(todo, passes, n, seat, answers);
    all == (calls + rest, last, end)
  }

  lemma Begins(todo: seq<Item>, passes: nat, n: nat, seat: Seat, answers: Answers)
    ensures Continues(Handle(todo, passes, n, seat, answers), [], todo, passes, n, seat, answers)
  {
    hide Handle;
    var (rest, last, end) := Handle(todo, passes, n, seat, answers);
    assert [] + rest == rest;
  }

  /** With nothing to come, or no pass left, or a fatal frame next, all has been called. */
  lemma Ends(all: Course, calls: seq<Call>,
      todo: seq<Item>, passes: nat, n: nat, seat: Seat, answers: Answers)
    requires Continues(all, calls, todo, passes, n, seat, answers)
    requires todo == [] || passes == 0 || todo[0].Fatal?
    ensures all == (calls, seat, if todo != [] && passes > 0 then Panics else Returns)
    ensures todo == [] ==> forall p: nat :: Continues(all, calls, todo, p, n, seat, answers)
  {
    assert calls + [] == calls;
  }

  lemma ContinuesWith(all: Course, calls: seq<Call>,
      todo: seq<Item>, passes: nat, n: nat, seat: Seat, answers: Answers)
    requires Continues(all, calls, todo, passes, n, seat, answers)
    ensures var part := Handle(todo, passes, n, seat, answers); all == (calls + part.0, part.1, part.2)
  {
  }

  lemma PassEnds(all: Course, calls: seq<Call>,
      todo: seq<Item>, passes: nat, n: nat, seat: Seat, answers: Answers)
    requires Continues(all, calls, todo, passes, n, seat, answers) && passes > 0 && todo != [] && todo[0].Bad?
    ensures Continues(all, calls, todo[1..], passes - 1, n, seat, answers)
  {
  }

  lemma MessageHandled(all: Course, calls: seq<Call>,
      todo: seq<Item>, passes: nat, n: nat, seat: Seat, answers: Answers)
    requires Continues(all, calls, todo, passes, n, seat, answers) && passes > 0 && todo != [] && todo[0].Good?
    ensures var (cs, seat', next) := React(todo[0].msg, n, seat, answers);
      if next.GoesOn? then Continues(all, calls + cs, todo[1..], passes, n + Connects(cs), seat', answers)
      else all == (calls + cs, seat', next)
  {
    hide React, Connects;
    var (cs, seat', next) := React(todo[0].msg, n, seat, answers);
    if next.GoesOn? {
      var (rest, last, end) := Handle(todo[1..], passes, n + Connects(cs), seat', answers);
      assert calls + (cs + rest) == (calls + cs) + rest;
    }
  }

  /** What goes on within a part goes on within the whole. */
  lemma Resumes(all: Course, calls: seq<Call>, part: Course, cs: seq<Call>,
      todo: seq<Item>, passes: nat, n: nat, seat: Seat, next: Next, answers: Answers)
    requires all == (calls + part.0, part.1, part.2)
    ensures part == (cs, seat, next) ==> all == (calls + cs, seat, next)
    ensures Continues(part, cs, todo, passes, n, seat, answers) ==> Continues(all, calls + cs, todo, passes, n, seat, answers)
  {
    hide Handle;
    var (rest, last, end) := Handle(todo, passes, n, seat, answers);
    assert calls + (cs + rest) == (calls + cs) + rest;
  }

  /** The next scan, in terms of what the rest of the stream holds. An empty token is fatal. */
  lemma Scanned(data: Bytes, chunks: seq<Bytes>, decode: Bytes -> Item)
    ensures var (r, data', chunks') := ScanOne(data, chunks);
      var (todo, todo') := (Held(data + Concat(chunks), decode), Held(data' + Concat(chunks'), decode));
      && (r.Got? && r.token != [] ==> todo == [ItemOf(r.token, decode)] + todo'
                                      && |data'| + |Concat(chunks')| < |data| + |Concat(chunks)|)
      && (r.Got? && r.token == [] ==> todo == [Fatal] && ItemOf(r.token, decode) == Fatal)
      && (!r.Got? ==> todo == if r == Crashed then [Fatal] else [])
      && (r == AtEnd ==> todo' == [])
      && !r.Stuck?
  {
    NextFrame(data, chunks);
    ScanOneShrinks(data, chunks);
    ScanOneOfWhole(data, chunks);
    EmptyIsFatal(decode);
    hide ScanOne, ItemOf, Parse, Finish, Concat, Split;
    var (r, data', chunks') := ScanOne(data, chunks);
    if r.Got? && r.token != [] {
      var (ts, tail) := (Parse(data' + Concat(chunks')), if Finish(data' + Concat(chunks')) in {Crashed, Stuck} then [Fatal] else []);
      assert Items([r.token] + ts, decode) == [ItemOf(r.token, decode)] + Items(ts, decode);
      assert [ItemOf(r.token, decode)] + Items(ts, decode) + tail == [ItemOf(r.token, decode)] + (Items(ts, decode) + tail);
    }
  }

  lemma EmptyIsFatal(decode: Bytes -> Item)
    ensures ItemOf([], decode) == Fatal
  {
  }

  /** What the rest of the stream holds. */
  ghost function ToCome(sc: Scanner, decode: Bytes -> Item): seq<Item>
    reads sc
  {
    Held(sc.data + Concat(sc.chunks), decode)
  }

  /** One pass over the scanner: until it fails, a frame is unreadable, or a message ends the loop. */
  method Pass(sc: Scanner, decode: Bytes -> Item, answers: Answers, n0: nat, seat0: Seat, ghost passes: nat)
    returns (calls: seq<Call>, n: nat, seat: Seat, next: Next)
    requires passes > 0
    modifies sc
    ensures var all := Handle(old(ToCome(sc, decode)), passes, n0, seat0, answers);
      if !next.GoesOn? then all == (calls, seat, next) else Continues(all, calls, ToCome(sc, decode), passes - 1, n, seat, answers)
  {
    ghost var all := Handle(ToCome(sc, decode), passes, n0, seat0, answers);
    Begins(ToCome(sc, decode), passes, n0, seat0, answers);
    hide Handle, Continues, Held, Concat, ItemOf, React, ScanOne;
    calls, n, seat, next := [], n0, seat0, GoesOn;
    while true
      invariant next.GoesOn? && Continues(all, calls, ToCome(sc, decode), passes, n, seat, answers)
      decreases |sc.data| + |Concat(sc.chunks)|
    {
      ghost var todo := ToCome(sc, decode);
      Scanned(sc.data, sc.chunks, decode);
      var r := sc.Scan();
      if !r.Got? {
        Ends(all, calls, todo, passes, n, seat, answers);
        next := if r.AtEnd? then GoesOn else if r.Crashed? then Panics else Returns;
        return;
      }
      assert r.token != [] ==> todo[1..] == ToCome(sc, decode);
      var item := Decode(r.token, decode);
      if item.Bad? {
        PassEnds(all, calls, todo, passes, n, seat, answers);
        return;
      } else if item.Fatal? {
        Ends(all, calls, todo, passes, n, seat, answers);
        next := Panics;
        return;
      }
      MessageHandled(all, calls, todo, passes, n, seat, answers);
      var (cs, seat', after) := React(item.msg, n, seat, answers);
      calls, seat, next := calls + cs, seat', after;
      if !next.GoesOn? {
        return;
      }
      n := n + Connects(cs);
    }
  }

  /** The read loop of a TCP connection: up to three passes over the scanner. Its calls are those of
      the whole stream's frames, whatever the stream holds and however it arrives. */
  method ServeTcp(sc: Scanner, decode: Bytes -> Item, answers: Answers) returns (calls: seq<Call>, next: Next)
    modifies sc
    ensures (calls, next) == Served(old(ToCome(sc, decode)), answers)
  {
    hide Handle, Parse, Concat, Deferred, React, ToCome, Continues;
    ghost var todo := ToCome(sc, decode);
    ghost var all := Handle(todo, 3, 0, NOBODY, answers);
    Begins(todo, 3, 0, NOBODY, answers);
    calls, next := [], GoesOn;
    var scanTimes, n: nat, seat := 0, 0, NOBODY;
    while true
      invariant 0 <= scanTimes <= 3
      invariant Continues(all, calls, ToCome(sc, decode), 3 - scanTimes, n, seat, answers)
      decreases 3 - scanTimes
    {
      scanTimes := scanTimes + 1;
      if scanTimes > 3 {
        break;
      }
      var cs;
      ghost var part := Handle(ToCome(sc, decode), 4 - scanTimes, n, seat, answers);
      ContinuesWith(all, calls, ToCome(sc, decode), 4 - scanTimes, n, seat, answers);
      cs, n, seat, next := Pass(sc, decode, answers, n, seat, 4 - scanTimes);
      Resumes(all, calls, part, cs, ToCome(sc, decode), 3 - scanTimes, n, seat, next, answers);
      calls := calls + cs;
      if !next.GoesOn? {
        calls := calls + Deferred(seat, next);
        return;
      }
    }
    Ends(all, calls, ToCome(sc, decode), 0, n, seat, answers);
    next := Returns;
    calls := calls + Deferred(seat, next);
  }

  // ---------------------------------------------------------------- the websocket loop

  /** A read of the websocket: it fails, or returns no message, or a request; text that is no
      request reads as one without a token. */
  datatype WsRead = Closed | Request(token: string, room: int)

  function WsHandle(msgs: seq<WsRead>, n: nat, seat: Seat, answers: Answers): (seq<Call>, Seat, Next) {
    if msgs == [] || msgs[0].Closed? || msgs[0].token == "" then ([], seat, Returns)
    else
      var (calls, seat', next) := Joining(msgs[0].token, msgs[0].room, n, seat, answers);
      if !next.GoesOn? then (calls, seat', next)
      else
        var (rest, last, end) := WsHandle(msgs[1..], n + 1, seat', answers);
        (calls + rest, last, end)
  }

  function WsServed(msgs: seq<WsRead>, answers: Answers): (seq<Call>, Next) {
    var (calls, seat, end) := WsHandle(msgs, 0, NOBODY, answers);
    (calls + Deferred(seat, end), end)
  }

  /** The read loop of a websocket connection; every request is taken for a connect. */
  method ServeWs(msgs: seq<WsRead>, answers: Answers) returns (calls: seq<Call>, next: Next)
    ensures (calls, next) == WsServed(msgs, answers)
  {
    hide Joining, Deferred;
    calls, next := [], Returns;
    var n: nat, seat := 0, NOBODY;
    ghost var (all, last, end) := WsHandle(msgs, 0, NOBODY, answers);
    assert [] + all == all;
    while n < |msgs|
      invariant n <= |msgs| && next == Returns
      invariant var (rest, last', end') := WsHandle(msgs[n..], n, seat, answers); all == calls + rest && last == last' && end == end'
    {
      ghost var before := calls;
      if msgs[n].Closed? || msgs[n].token == "" {
        break;
      }
      var (cs, seat', after) := Joining(msgs[n].token, msgs[n].room, n, seat, answers);
      calls, seat, n := calls + cs, seat', n + 1;
      if !after.GoesOn? {
        return calls + Deferred(seat, after), after;
      }
      assert msgs[n - 1..][1..] == msgs[n..];
      ghost var (rest, _, _) := WsHandle(msgs[n..], n, seat, answers);
      assert before + (cs + rest) == (before + cs) + rest;
    }
    assert calls + [] == calls;
    calls := calls + Deferred(seat, next);
  }

  // ---------------------------------------------------------------- which frames are handled

  /** Where the loop stops: at the frame that ends its last pass, or a fatal one, or the end. */
  function Reach(items: seq<Item>, passes: nat): (k: nat)
    ensures k <= |items|
  {
    if passes == 0 || items == [] || items[0].Fatal? then 0
    else 1 + Reach(items[1..], if items[0].Bad? then passes - 1 else passes)
  }

  function Messages(items: seq<Item>): seq<TcpMsg> {
    if items == [] then []
    else if items[0].Good? then [items[0].msg] + Messages(items[1..])
    else Messages(items[1..])
  }

  function BadOnes(items: seq<Item>): nat {
    if items == [] then 0 else (if items[0].Bad? then 1 else 0) + BadOnes(items[1..])
  }

  /** The loop handles exactly the readable messages before the third unreadable frame: up to two
      such frames cost nothing but themselves, the third ends the connection. */
  lemma {:induction false} ThreeStrikes(items: seq<Item>, passes: nat, n: nat, seat: Seat, answers: Answers)
    ensures var k := Reach(items, passes);
      var (calls, last, end) := HandleGood(Messages(items[..k]), n, seat, answers);
      Handle(items, passes, n, seat, answers) ==
        (calls, last,
         if !end.GoesOn? then end
         else if k < |items| && items[k].Fatal? && BadOnes(items[..k]) < passes then Panics
         else Returns)
    ensures BadOnes(items[..Reach(items, passes)]) <= passes
    ensures Reach(items, passes) < |items| ==>
      BadOnes(items[..Reach(items, passes)]) == passes || items[Reach(items, passes)].Fatal?
  {
    hide React, Connects;
    if passes > 0 && items != [] && !items[0].Fatal? {
      var left := if items[0].Bad? then passes - 1 else passes;
      var k := Reach(items[1..], left);
      assert items[..1 + k][1..] == items[1..][..k];
      if items[0].Bad? {
        ThreeStrikes(items[1..], left, n, seat, answers);
      } else {
        var (calls, seat', next) := React(items[0].msg, n, seat, answers);
        ThreeStrikes(items[1..], left, n + Connects(calls), seat', answers);
      }
    }
  }

  function Decoded(payloads: seq<Bytes>, decode: Bytes -> Item): seq<Item> {
    if payloads == [] then [] else [decode(payloads[0])] + Decoded(payloads[1..], decode)
  }

  /** The frames of some payloads, and an unfinished one behind them, are served as the decoded
      payloads, whatever pieces the stream arrives in. */
  lemma FramesServed(ps: seq<Bytes>, tail: Bytes, q: Bytes, chunks: seq<Bytes>, decode: Bytes -> Item)
    requires AllShort(ps) && Incomplete(tail, q)
    requires Concat(chunks) == Frames(ps) + tail
    ensures Held([] + Concat(chunks), decode) == Decoded(Delivered(ps, tail), decode)
  {
    ParseFrames(ps, tail, q);
    assert [] + Concat(chunks) == Concat(chunks);
    hide Parse, Finish, Incomplete, Concat, Frames, Framed, Items;
    DecodedFrames(Delivered(ps, tail), decode);
    assert Items(Framed(Delivered(ps, tail)), decode) + [] == Items(Framed(Delivered(ps, tail)), decode);
  }

  /** After some readable frames, a frame whose length field says less than its own header ends the server,
      once the deferred function has run; no other length does. */
  lemma ShortFramePanicsIff(ps: seq<Bytes>, data: Bytes, decode: Bytes -> Item) returns (later: seq<Item>)
    requires AllShort(ps) && |data| > HEADER && data[0] == 0x76 && forall b :: !decode(b).Fatal?
    ensures Held(Frames(ps) + data, decode) == Decoded(ps, decode) + later
    ensures later != [] && later[0] == Fatal <==> FromBigEndian(data[2], data[3]) as int < HEADER
  {
    later := Held(data, decode);
    FirstFatalIff(data, decode);
    hide FromBigEndian;
    HeldBehind(ps, data, decode);
    hide Held, Decoded, Frames;
  }

  lemma HeldBehind(ps: seq<Bytes>, data: Bytes, decode: Bytes -> Item)
    requires AllShort(ps) && data != []
    ensures Held(Frames(ps) + data, decode) == Decoded(ps, decode) + Held(data, decode)
  {
    hide Frames, Parse, Finish, Items, Framed, Decoded, ItemOf;
    FramesFirst(ps, data);
    DecodedFrames(ps, decode);
    ItemsConcat(Framed(ps), Parse(data), decode);
  }

  lemma {:induction false} ItemsConcat(a: seq<Bytes>, b: seq<Bytes>, decode: Bytes -> Item)
    ensures Items(a + b, decode) == Items(a, decode) + Items(b, decode)
  {
    hide ItemOf;
    if a == [] {
      assert a + b == b;
    } else {
      ItemsConcat(a[1..], b, decode);
      assert (a + b)[1..] == a[1..] + b;
    }
  }

  lemma FirstFatalIff(data: Bytes, decode: Bytes -> Item)
    requires |data| > HEADER && data[0] == 0x76 && forall b :: !decode(b).Fatal?
    ensures Held(data, decode) != [] && Held(data, decode)[0] == Fatal <==> FromBigEndian(data[2], data[3]) as int < HEADER
  {
    hide FromBigEndian;
    var n := FromBigEndian(data[2], data[3]);
    if 0 < n <= |data| {
      var token := data[..n];
      assert n >= 4 ==> token[2] == data[2] && token[3] == data[3];
      assert ItemOf(token, decode).Fatal? <==> n < 4;
    }
  }

  lemma {:induction false} DecodedFrames(ps: seq<Bytes>, decode: Bytes -> Item)
    requires AllShort(ps)
    ensures Items(Framed(ps), decode) == Decoded(ps, decode)
  {
    hide FrameOf, UnpackOutcome, Payload;
    if ps != [] {
      UnpackFrame(ps[0], []);
      assert FrameOf(ps[0]) + [] == FrameOf(ps[0]);
      assert Framed(ps)[1..] == Framed(ps[1..]);
      DecodedFrames(ps[1..], decode);
    }
  }

  // ---------------------------------------------------------------- what the messages call

  /** A message the loop acts on. */
  predicate Valid(m: TcpMsg) { m.token != "" && m.room > 0 }

  predicate Refuses(reply: Reply) { reply.Failed? || reply.id == 0 }

  /** A message that ends the loop: not valid, or a request to connect that is refused; `n` were made before. */
  predicate EndsLoop(m: TcpMsg, n: nat, answers: Answers) {
    !Valid(m) || (m.op == 6 && Refuses(answers(n, m.token, m.room)))
  }

  /** How many messages come before one that ends the loop. */
  function Before(msgs: seq<TcpMsg>, n: nat, answers: Answers): (k: nat)
    ensures k <= |msgs|
  {
    if msgs == [] || EndsLoop(msgs[0], n, answers) then 0
    else 1 + Before(msgs[1..], if msgs[0].op == 6 then n + 1 else n, answers)
  }

  function WithOp(msgs: seq<TcpMsg>, op: int): seq<TcpMsg> {
    if msgs == [] then [] else (if msgs[0].op == op then [msgs[0]] else []) + WithOp(msgs[1..], op)
  }

  function RoomPushes(calls: seq<Call>): seq<TcpMsg> {
    if calls == [] then [] else (if calls[0].PushRoom? then [calls[0].msg] else []) + RoomPushes(calls[1..])
  }

  datatype Ask = Ask(token: string, room: int)

  function Asked(calls: seq<Call>): seq<Ask> {
    if calls == [] then [] else (if calls[0].Connect? then [Ask(calls[0].token, calls[0].room)] else []) + Asked(calls[1..])
  }

  function AsksOf(msgs: seq<TcpMsg>): seq<Ask> {
    if msgs == [] then [] else [Ask(msgs[0].token, msgs[0].room)] + AsksOf(msgs[1..])
  }

  /** The seats granted to requests, the `n`-th and following. */
  function Granted(asks: seq<Ask>, n: nat, answers: Answers): seq<Seat>
    decreases |asks|
  {
    if asks == [] then []
    else
      var reply := answers(n, asks[0].token, asks[0].room);
      (if Refuses(reply) then [] else [Seat(reply.id, asks[0].room)]) + Granted(asks[1..], n + 1, answers)
  }

  /** Seats named by one run of calls. */
  lemma {:induction false} CallsConcat(a: seq<Call>, b: seq<Call>)
    ensures RoomPushes(a + b) == RoomPushes(a) + RoomPushes(b) && Asked(a + b) == Asked(a) + Asked(b)
    ensures Puts(a + b) == Puts(a) + Puts(b) && Connects(a + b) == Connects(a) + Connects(b)
  {
    hide RoomPushes, Asked, Puts, Connects;
    NoCalls();
    if a == [] {
      assert a + b == b;
    } else {
      var x, rest := a[0], a[1..];
      CallsConcat(rest, b);
      FirstCall(x, rest + b);
      FirstCall(x, rest);
      assert a == [x] + rest && a + b == [x] + (rest + b);
      Joined(if x.PushRoom? then [x.msg] else [], RoomPushes(rest), RoomPushes(b));
      Joined(if x.Connect? then [Ask(x.token, x.room)] else [], Asked(rest), Asked(b));
      Joined(if x.Put? then [Seat(x.user, x.room)] else [], Puts(rest), Puts(b));
    }
  }

  lemma Joined<T>(a: seq<T>, b: seq<T>, c: seq<T>)
    ensures (a + b) + c == a + (b + c)
  {
  }

  lemma FirstCall(c: Call, rest: seq<Call>)
    ensures RoomPushes([c] + rest) == (if c.PushRoom? then [c.msg] else []) + RoomPushes(rest)
    ensures Asked([c] + rest) == (if c.Connect? then [Ask(c.token, c.room)] else []) + Asked(rest)
    ensures Puts([c] + rest) == (if c.Put? then [Seat(c.user, c.room)] else []) + Puts(rest)
    ensures Connects([c] + rest) == (if c.Connect? then 1 else 0) + Connects(rest)
  {
    assert ([c] + rest)[1..] == rest;
  }

  /** Two calls, or one. */
  lemma FewCalls(c: Call, d: Call)
    ensures RoomPushes([c]) == (if c.PushRoom? then [c.msg] else [])
    ensures Asked([c]) == (if c.Connect? then [Ask(c.token, c.room)] else [])
    ensures Puts([c]) == (if c.Put? then [Seat(c.user, c.room)] else []) && Connects([c]) == (if c.Connect? then 1 else 0)
    ensures RoomPushes([c, d]) == RoomPushes([c]) + RoomPushes([d]) && Asked([c, d]) == Asked([c]) + Asked([d])
    ensures Puts([c, d]) == Puts([c]) + Puts([d]) && Connects([c, d]) == Connects([c]) + Connects([d])
  {
    FirstCall(c, []);
    FirstCall(d, []);
    FirstCall(c, [d]);
    assert [c] + [] == [c] && [d] + [] == [d] && [c] + [d] == [c, d];
  }

  /** What one message calls. */
  lemma ReactCalls(m: TcpMsg, n: nat, seat: Seat, answers: Answers)
    ensures var (calls, _, next) := React(m, n, seat, answers);
      && RoomPushes(calls) == (if Valid(m) && m.op == 3 then [m] else [])
      && Asked(calls) == (if Valid(m) && m.op == 6 then [Ask(m.token, m.room)] else [])
      && Puts(calls) == (if Valid(m) && m.op == 6 then Granted([Ask(m.token, m.room)], n, answers) else [])
      && Connects(calls) == (if Valid(m) && m.op == 6 then 1 else 0)
      && (next.GoesOn? <==> !EndsLoop(m, n, answers))
      && (next.Exits? <==> Valid(m) && m.op == 6 && answers(n, m.token, m.room).Failed?)
  {
    var calls := React(m, n, seat, answers).0;
    if calls != [] {
      FewCalls(calls[0], calls[|calls| - 1]);
      assert calls == if |calls| == 1 then [calls[0]] else [calls[0], calls[1]];
      if |calls| == 2 { FewCalls(calls[1], calls[1]); }
    }
    hide RoomPushes, Asked, Puts, Connects;
    assert [Ask(m.token, m.room)][1..] == [];
    assert RoomPushes([]) == [] && Asked([]) == [] && Puts([]) == [] && Connects([]) == 0 by { NoCalls(); }
  }

  /** The messages that are handled: those before one that ends the loop, and that one if it is valid. */
  function HandledOf(msgs: seq<TcpMsg>, n: nat, answers: Answers): seq<TcpMsg> {
    var k := Before(msgs, n, answers);
    if k < |msgs| && Valid(msgs[k]) then msgs[..k + 1] else msgs[..k]
  }

  lemma HandledFirst(msgs: seq<TcpMsg>, n: nat, answers: Answers)
    requires msgs != []
    ensures HandledOf(msgs, n, answers) ==
      if EndsLoop(msgs[0], n, answers) then (if Valid(msgs[0]) then [msgs[0]] else [])
      else [msgs[0]] + HandledOf(msgs[1..], if msgs[0].op == 6 then n + 1 else n, answers)
  {
    hide EndsLoop, Valid;
    if EndsLoop(msgs[0], n, answers) {
      assert msgs[..1] == [msgs[0]];
    } else {
      var k := Before(msgs[1..], if msgs[0].op == 6 then n + 1 else n, answers);
      assert msgs[..k + 1] == [msgs[0]] + msgs[1..][..k];
      if k < |msgs[1..]| {
        assert msgs[..k + 2] == [msgs[0]] + msgs[1..][..k + 1];
      }
    }
  }

  lemma FirstWithOp(m: TcpMsg, rest: seq<TcpMsg>, op: int)
    ensures WithOp([m] + rest, op) == (if m.op == op then [m] else []) + WithOp(rest, op)
    ensures AsksOf([m] + rest) == [Ask(m.token, m.room)] + AsksOf(rest)
  {
  }

  lemma FirstGranted(a: Ask, rest: seq<Ask>, n: nat, answers: Answers)
    ensures Granted([a] + rest, n, answers) == Granted([a], n, answers) + Granted(rest, n + 1, answers)
  {
    assert ([a] + rest)[1..] == rest && [a][1..] == [];
  }

  /** The server ends with the last request, if that failed. */
  predicate LastFailed(asks: seq<Ask>, n: nat, answers: Answers) {
    asks != [] && var last := asks[|asks| - 1]; answers(n + |asks| - 1, last.token, last.room).Failed?
  }

  /** Room messages, requests to connect and seats granted, as the messages have them. */
  lemma {:induction false} GoodCalls(msgs: seq<TcpMsg>, n: nat, seat: Seat, answers: Answers)
    ensures var (calls, _, next) := HandleGood(msgs, n, seat, answers);
      var handled := HandledOf(msgs, n, answers);
      var asks := AsksOf(WithOp(handled, 6));
      && RoomPushes(calls) == WithOp(handled, 3) && Asked(calls) == asks && Puts(calls) == Granted(asks, n, answers)
      && (next.GoesOn? <==> Before(msgs, n, answers) == |msgs|)
      && (next.Exits? <==> LastFailed(asks, n, answers))
    decreases |msgs|
  {
    hide React, Connects, RoomPushes, Asked, Puts, HandledOf, WithOp, AsksOf, Granted, EndsLoop, Valid, LastFailed;
    if msgs == [] {
      NoneGood(n, answers);
    } else {
      var m := msgs[0];
      ReactCalls(m, n, seat, answers);
      HandledFirst(msgs, n, answers);
      var (calls, seat', next) := React(m, n, seat, answers);
      if next.GoesOn? {
        GoodCalls(msgs[1..], n + Connects(calls), seat', answers);
        NotEnding(m, n, answers);
        GoodFirst(m, calls, msgs[1..], n, seat', answers);
      } else {
        GoodLast(m, n, answers);
      }
    }
  }

  lemma NoneGood(n: nat, answers: Answers)
    ensures HandledOf([], n, answers) == [] && WithOp([], 3) == WithOp([], 6) == [] && AsksOf([]) == []
    ensures Granted([], n, answers) == [] && !LastFailed([], n, answers)
    ensures RoomPushes([]) == [] && Asked([]) == [] && Puts([]) == []
  {
  }

  lemma NotEnding(m: TcpMsg, n: nat, answers: Answers)
    requires !EndsLoop(m, n, answers)
    ensures Valid(m) && !(m.op == 6 && answers(n, m.token, m.room).Failed?)
  {
  }

  /** What a last message calls. */
  lemma GoodLast(m: TcpMsg, n: nat, answers: Answers)
    ensures var handled := if Valid(m) then [m] else [];
      && WithOp(handled, 3) == (if Valid(m) && m.op == 3 then [m] else [])
      && AsksOf(WithOp(handled, 6)) == (if Valid(m) && m.op == 6 then [Ask(m.token, m.room)] else [])
      && (Valid(m) && m.op == 6 ==> Granted(AsksOf(WithOp(handled, 6)), n, answers) == Granted([Ask(m.token, m.room)], n, answers))
      && (!(Valid(m) && m.op == 6) ==> Granted(AsksOf(WithOp(handled, 6)), n, answers) == [])
      && (LastFailed(AsksOf(WithOp(handled, 6)), n, answers) <==> Valid(m) && m.op == 6 && answers(n, m.token, m.room).Failed?)
  {
    NoneGood(n, answers);
    FirstWithOp(m, [], 3);
    FirstWithOp(m, [], 6);
    hide HandledOf, WithOp, AsksOf, Granted, Valid;
    assert [m] + [] == [m];
    assert [Ask(m.token, m.room)] + [] == [Ask(m.token, m.room)];
  }

  lemma GoodFirst(m: TcpMsg, calls: seq<Call>, rest: seq<TcpMsg>, n: nat, seat: Seat, answers: Answers)
    requires Valid(m) && !EndsLoop(m, n, answers)
    requires RoomPushes(calls) == (if m.op == 3 then [m] else []) && Connects(calls) == (if m.op == 6 then 1 else 0)
    requires Asked(calls) == (if m.op == 6 then [Ask(m.token, m.room)] else [])
    requires Puts(calls) == (if m.op == 6 then Granted([Ask(m.token, m.room)], n, answers) else [])
    requires var (later, _, next) := HandleGood(rest, n + Connects(calls), seat, answers);
      var handled := HandledOf(rest, n + Connects(calls), answers);
      var asks := AsksOf(WithOp(handled, 6));
      && RoomPushes(later) == WithOp(handled, 3) && Asked(later) == asks
      && Puts(later) == Granted(asks, n + Connects(calls), answers)
      && (next.Exits? <==> LastFailed(asks, n + Connects(calls), answers))
    ensures var (later, _, next) := HandleGood(rest, n + Connects(calls), seat, answers);
      var handled := [m] + HandledOf(rest, n + Connects(calls), answers);
      var asks := AsksOf(WithOp(handled, 6));
      && RoomPushes(calls + later) == WithOp(handled, 3) && Asked(calls + later) == asks
      && Puts(calls + later) == Granted(asks, n, answers)
      && (next.Exits? <==> LastFailed(asks, n, answers))
  {
    hide HandleGood, HandledOf, WithOp, AsksOf, Granted, RoomPushes, Asked, Puts, Connects;
    var later := HandleGood(rest, n + Connects(calls), seat, answers).0;
    var handled := HandledOf(rest, n + Connects(calls), answers);
    CallsConcat(calls, later);
    FirstWithOp(m, handled, 3);
    FirstWithOp(m, handled, 6);
    if m.op == 6 {
      FirstWithOp(m, WithOp(handled, 6), 6);
      FirstGranted(Ask(m.token, m.room), AsksOf(WithOp(handled, 6)), n, answers);
    } else {
      assert [] + WithOp(handled, 6) == WithOp(handled, 6);
    }
  }

  lemma NoCalls()
    ensures RoomPushes([]) == [] && Asked([]) == [] && Puts([]) == [] && Connects([]) == 0
  {
  }

  lemma NothingCalled(seat: Seat, end: Next)
    ensures var calls := Deferred(seat, end); RoomPushes(calls) == [] && Asked(calls) == [] && Puts(calls) == []
  {
    var calls := Deferred(seat, end);
    NoCalls();
    if calls != [] {
      FewCalls(calls[0], calls[1]);
      FewCalls(calls[1], calls[1]);
      hide RoomPushes, Asked, Puts, Connects;
      assert calls == [calls[0], calls[1]];
    }
  }

  /** Of the messages before the third unreadable frame, a TCP connection handles those before one that ends its
      loop, and that one if it is valid. It pushes to rooms exactly the room messages among them, asks the logic
      layer exactly what the requests to connect among them say, and puts its channel exactly into the seats
      that are granted, each in that order. It ends the server if and only if its last request failed. */
  lemma ServedCalls(items: seq<Item>, answers: Answers)
    ensures var handled := HandledOf(Messages(items[..Reach(items, 3)]), 0, answers);
      var asks := AsksOf(WithOp(handled, 6));
      var (calls, end) := Served(items, answers);
      && RoomPushes(calls) == WithOp(handled, 3) && Asked(calls) == asks && Puts(calls) == Granted(asks, 0, answers)
      && (end.Exits? <==> LastFailed(asks, 0, answers))
  {
    ThreeStrikes(items, 3, 0, NOBODY, answers);
    var msgs := Messages(items[..Reach(items, 3)]);
    GoodCalls(msgs, 0, NOBODY, answers);
    var (calls, seat, end) := Handle(items, 3, 0, NOBODY, answers);
    NothingCalled(seat, end);
    hide Handle, HandleGood, Messages, Reach, Deferred, RoomPushes, Asked, Puts, HandledOf, WithOp, AsksOf, Granted;
    CallsConcat(calls, Deferred(seat, end));
    assert RoomPushes(calls) + [] == RoomPushes(calls) && Asked(calls) + [] == Asked(calls) && Puts(calls) + [] == Puts(calls);
  }

  /** The requests of a websocket connection, up to one without a token. */
  function WsAsks(msgs: seq<WsRead>): seq<Ask> {
    if msgs == [] || msgs[0].Closed? || msgs[0].token == "" then [] else [Ask(msgs[0].token, msgs[0].room)] + WsAsks(msgs[1..])
  }

  function UntilRefused(asks: seq<Ask>, n: nat, answers: Answers): seq<Ask>
    decreases |asks|
  {
    if asks == [] then []
    else [asks[0]] + (if Refuses(answers(n, asks[0].token, asks[0].room)) then [] else UntilRefused(asks[1..], n + 1, answers))
  }

  lemma {:induction false} WsCalls(msgs: seq<WsRead>, n: nat, seat: Seat, answers: Answers)
    ensures var (calls, _, next) := WsHandle(msgs, n, seat, answers);
      var asks := UntilRefused(WsAsks(msgs), n, answers);
      && Asked(calls) == asks && Puts(calls) == Granted(asks, n, answers) && RoomPushes(calls) == []
      && (next.Exits? <==> LastFailed(asks, n, answers))
    decreases |msgs|
  {
    hide Joining, RoomPushes, Asked, Puts, Granted, LastFailed;
    if msgs == [] || msgs[0].Closed? || msgs[0].token == "" {
      NoneGood(n, answers);
    } else {
      var ask, rest := Ask(msgs[0].token, msgs[0].room), WsAsks(msgs[1..]);
      assert WsAsks(msgs) == [ask] + rest;
      FirstAsk(ask, rest, n, answers);
      JoiningCalls(ask, n, seat, answers);
      var (calls, seat', next) := Joining(ask.token, ask.room, n, seat, answers);
      if next.GoesOn? {
        WsCalls(msgs[1..], n + 1, seat', answers);
        CallsConcat(calls, WsHandle(msgs[1..], n + 1, seat', answers).0);
        hide UntilRefused, WsAsks;
      }
    }
  }

  /** The first of some requests. */
  lemma FirstAsk(ask: Ask, rest: seq<Ask>, n: nat, answers: Answers)
    ensures var (asks, later) := (UntilRefused([ask] + rest, n, answers), UntilRefused(rest, n + 1, answers));
      if Refuses(answers(n, ask.token, ask.room)) then
        asks == [ask] && (LastFailed(asks, n, answers) <==> answers(n, ask.token, ask.room).Failed?)
      else
        && asks == [ask] + later && Granted(asks, n, answers) == Granted([ask], n, answers) + Granted(later, n + 1, answers)
        && (LastFailed(asks, n, answers) <==> LastFailed(later, n + 1, answers))
  {
    var later := UntilRefused(rest, n + 1, answers);
    UntilFirst(ask, rest, n, answers);
    FirstGranted(ask, later, n, answers);
    hide UntilRefused, Granted;
    if !Refuses(answers(n, ask.token, ask.room)) { LastOfMore(ask, later, n, answers); }
  }

  lemma UntilFirst(ask: Ask, rest: seq<Ask>, n: nat, answers: Answers)
    ensures UntilRefused([ask] + rest, n, answers) ==
      if Refuses(answers(n, ask.token, ask.room)) then [ask] else [ask] + UntilRefused(rest, n + 1, answers)
  {
    assert ([ask] + rest)[1..] == rest && [ask] + [] == [ask];
  }

  lemma LastOfMore(ask: Ask, later: seq<Ask>, n: nat, answers: Answers)
    requires !answers(n, ask.token, ask.room).Failed?
    ensures LastFailed([ask] + later, n, answers) <==> LastFailed(later, n + 1, answers)
  {
    if later != [] { assert ([ask] + later)[|later|] == later[|later| - 1]; }
  }

  lemma JoiningCalls(ask: Ask, n: nat, seat: Seat, answers: Answers)
    ensures var (calls, _, next) := Joining(ask.token, ask.room, n, seat, answers);
      && Asked(calls) == [ask] && Puts(calls) == Granted([ask], n, answers) && RoomPushes(calls) == []
      && (next.GoesOn? <==> !Refuses(answers(n, ask.token, ask.room)))
      && (next.Exits? <==> answers(n, ask.token, ask.room).Failed?)
  {
    hide RoomPushes, Asked, Puts, Connects;
    NoCalls();
    var calls := Joining(ask.token, ask.room, n, seat, answers).0;
    FewCalls(calls[0], calls[|calls| - 1]);
    assert calls == if |calls| == 1 then [calls[0]] else [calls[0], calls[1]];
    if |calls| == 2 { FewCalls(calls[1], calls[1]); }
    assert [ask][1..] == [];
  }

  /** A websocket connection asks the logic layer what its requests say, up to one that is refused, and puts its
      channel into the seats that are granted. It ends the server if and only if its last request failed. */
  lemma WsServedCalls(msgs: seq<WsRead>, answers: Answers)
    ensures var asks := UntilRefused(WsAsks(msgs), 0, answers);
      var (calls, end) := WsServed(msgs, answers);
      && Asked(calls) == asks && Puts(calls) == Granted(asks, 0, answers) && RoomPushes(calls) == []
      && (end.Exits? <==> LastFailed(asks, 0, answers))
  {
    WsCalls(msgs, 0, NOBODY, answers);
    var (calls, seat, end) := WsHandle(msgs, 0, NOBODY, answers);
    NothingCalled(seat, end);
    hide WsHandle, Deferred, RoomPushes, Asked, Puts, UntilRefused, WsAsks, Granted;
    CallsConcat(calls, Deferred(seat, end));
    assert Asked(calls) + [] == Asked(calls) && Puts(calls) + [] == Puts(calls);
  }

  // ---------------------------------------------------------------- what the cleanup undoes

  /** The seat after some calls: only puts change it. */
  function After(calls: seq<Call>, seat: Seat): Seat {
    if calls == [] then seat
    else After(calls[1..], if calls[0].Put? then Seated(seat, calls[0].user, calls[0].room) else seat)
  }

  function Puts(calls: seq<Call>): seq<Seat> {
    if calls == [] then []
    else (if calls[0].Put? then [Seat(calls[0].user, calls[0].room)] else []) + Puts(calls[1..])
  }

  /** Calls that undo nothing and put only known users. */
  predicate Forward(calls: seq<Call>) {
    forall c | c in calls :: !c.Delete? && !c.DisConnect? && (c.Put? ==> c.user != 0)
  }

  predicate InRooms(calls: seq<Call>) {
    forall c | c in calls :: c.Put? ==> c.room > 0
  }

  lemma StepsOnce(calls: seq<Call>, seat: Seat)
    requires calls != []
    ensures After(calls, seat) == After(calls[1..], if calls[0].Put? then Seated(seat, calls[0].user, calls[0].room) else seat)
    ensures Puts(calls) == (if calls[0].Put? then [Seat(calls[0].user, calls[0].room)] else []) + Puts(calls[1..])
  {
  }

  lemma {:induction false} AfterBoth(a: seq<Call>, b: seq<Call>, seat: Seat)
    ensures After(a + b, seat) == After(b, After(a, seat))
    ensures Puts(a + b) == Puts(a) + Puts(b)
  {
    if a == [] {
      assert a + b == b;
    } else {
      hide Seated;
      var next := if a[0].Put? then Seated(seat, a[0].user, a[0].room) else seat;
      AfterBoth(a[1..], b, next);
      StepsOnce(a + b, seat);
      StepsOnce(a, seat);
      assert (a + b)[0] == a[0] && (a + b)[1..] == a[1..] + b;
      hide After, Puts;
    }
  }

  lemma {:induction false} HandleMovesForward(items: seq<Item>, passes: nat, n: nat, seat: Seat, answers: Answers)
    ensures var (calls, last, _) := Handle(items, passes, n, seat, answers);
      Forward(calls) && InRooms(calls) && last == After(calls, seat)
  {
    hide React, Connects, After, Forward, InRooms;
    NoneForward(seat);
    if passes > 0 && items != [] {
      match items[0]
      case Fatal =>
      case Bad => HandleMovesForward(items[1..], passes - 1, n, seat, answers);
      case Good(m) =>
        ReactMovesForward(m, n, seat, answers);
        var (calls, seat', next) := React(m, n, seat, answers);
        if next.GoesOn? {
          HandleMovesForward(items[1..], passes, n + Connects(calls), seat', answers);
          var (rest, last, _) := Handle(items[1..], passes, n + Connects(calls), seat', answers);
          AfterBoth(calls, rest, seat);
          ForwardBoth(calls, rest);
        }
    }
  }

  lemma NoneForward(seat: Seat)
    ensures Forward([]) && InRooms([]) && After([], seat) == seat
  {
  }

  lemma ForwardBoth(a: seq<Call>, b: seq<Call>)
    requires Forward(a) && Forward(b)
    ensures Forward(a + b) && (InRooms(a) && InRooms(b) ==> InRooms(a + b))
  {
  }

  lemma ReactMovesForward(m: TcpMsg, n: nat, seat: Seat, answers: Answers)
    ensures var (calls, seat', _) := React(m, n, seat, answers);
      Forward(calls) && InRooms(calls) && seat' == After(calls, seat)
  {
    JoiningMovesForward(m.token, m.room, n, seat, answers);
    hide Joining;
  }

  lemma JoiningMovesForward(token: string, room: int, n: nat, seat: Seat, answers: Answers)
    ensures var (calls, seat', _) := Joining(token, room, n, seat, answers);
      Forward(calls) && (room > 0 ==> InRooms(calls)) && seat' == After(calls, seat)
  {
    var (calls, seat', _) := Joining(token, room, n, seat, answers);
    if |calls| == 2 {
      assert calls[1..] == [calls[1]] && calls[1..][1..] == [];
      assert After(calls[1..], seat) == seat';
    } else {
      assert calls[1..] == [];
    }
  }

  lemma {:induction false} WsMovesForward(msgs: seq<WsRead>, n: nat, seat: Seat, answers: Answers)
    ensures var (calls, last, _) := WsHandle(msgs, n, seat, answers); Forward(calls) && last == After(calls, seat)
  {
    if msgs != [] && !msgs[0].Closed? && msgs[0].token != "" {
      JoiningMovesForward(msgs[0].token, msgs[0].room, n, seat, answers);
      hide Joining, After;
      var (calls, seat', next) := Joining(msgs[0].token, msgs[0].room, n, seat, answers);
      if next.GoesOn? {
        WsMovesForward(msgs[1..], n + 1, seat', answers);
        var (rest, last, _) := WsHandle(msgs[1..], n + 1, seat', answers);
        AfterBoth(calls, rest, seat);
      }
    }
  }

  /** The room of the last put that names one, and the user of the last put. */
  lemma {:induction false} AfterIsLast(calls: seq<Call>, seat: Seat)
    requires Forward(calls)
    ensures var puts := Puts(calls);
      && (puts == [] ==> After(calls, seat) == seat)
      && (puts != [] ==> After(calls, seat).user == puts[|puts| - 1].user != 0)
      && (puts != [] && puts[|puts| - 1].room != M.NO_ROOM ==> After(calls, seat) == puts[|puts| - 1])
      && (After(calls, seat).room == M.NO_ROOM <==> seat.room == M.NO_ROOM && forall s | s in puts :: s.room == M.NO_ROOM)
  {
    if calls != [] {
      StepsOnce(calls, seat);
      hide After, Puts;
      assert Forward(calls[1..]);
      AfterIsLast(calls[1..], if calls[0].Put? then Seated(seat, calls[0].user, calls[0].room) else seat);
    }
  }

  /** A TCP connection that put its channel somewhere ends by taking out the user of the last put
      and telling the logic layer that this user left that room; one that did not undoes nothing, and
      neither does one that ended the server. */
  lemma TcpUndoesLastPut(items: seq<Item>, answers: Answers) returns (calls: seq<Call>, end: Next)
    ensures Forward(calls)
    ensures Served(items, answers) ==
      (calls +
       if Puts(calls) == [] || end.Exits? then []
       else
         var last := Puts(calls)[|Puts(calls)| - 1];
         Undo(last.user, last.room),
       end)
  {
    HandleMovesForward(items, 3, 0, NOBODY, answers);
    calls, end := Handle(items, 3, 0, NOBODY, answers).0, Handle(items, 3, 0, NOBODY, answers).2;
    AfterIsLast(calls, NOBODY);
    PutsInRooms(calls);
    hide Handle, After, Puts;
  }

  lemma {:induction false} PutsInRooms(calls: seq<Call>)
    requires InRooms(calls)
    ensures forall s | s in Puts(calls) :: s.room > 0
  {
    if calls != [] { PutsInRooms(calls[1..]); }
  }

  /** A websocket connection cleans up exactly when one of its puts named a room and it did not end the
      server; otherwise the user stays registered after the connection is gone. */
  lemma WsUndoesIff(msgs: seq<WsRead>, answers: Answers) returns (calls: seq<Call>, room: int, end: Next)
    ensures Forward(calls) && WsServed(msgs, answers).1 == end
    ensures WsServed(msgs, answers).0 != calls <==> !end.Exits? && exists s :: s in Puts(calls) && s.room != M.NO_ROOM
    ensures WsServed(msgs, answers).0 != calls ==>
      room != M.NO_ROOM && WsServed(msgs, answers).0 == calls + Undo(Puts(calls)[|Puts(calls)| - 1].user, room)
  {
    WsMovesForward(msgs, 0, NOBODY, answers);
    var course := WsHandle(msgs, 0, NOBODY, answers);
    calls, end := course.0, course.2;
    room := After(calls, NOBODY).room;
    AfterIsLast(calls, NOBODY);
    hide WsHandle, After, Puts;
    assert calls + [] == calls;
  }

  /** Nothing keeps a connection from building twice: its channel is then put twice, under
      whatever rooms it names, and only the second put is undone. */
  lemma BuildingTwicePutsTwice(token: string, r1: int, r2: int, answers: Answers)
    requires token != "" && r1 > 0 && r2 > 0
    requires answers(0, token, r1) == User(7) && answers(1, token, r2) == User(7)
    ensures Served([Good(TcpMsg(OP_BUILD_TCP_CONN, token, r1, "")), Good(TcpMsg(OP_BUILD_TCP_CONN, token, r2, ""))], answers)
      == ([Connect(token, r1), Put(7, r1), Connect(token, r2), Put(7, r2), Delete(7), DisConnect(r2, 7)], Returns)
  {
    var m1, m2 := TcpMsg(OP_BUILD_TCP_CONN, token, r1, ""), TcpMsg(OP_BUILD_TCP_CONN, token, r2, "");
    var c1, c2 := [Connect(token, r1), Put(7, r1)], [Connect(token, r2), Put(7, r2)];
    assert React(m1, 0, NOBODY, answers) == (c1, Seat(7, r1), GoesOn);
    assert React(m2, 1, Seat(7, r1), answers) == (c2, Seat(7, r2), GoesOn);
    OneConnect(token, r1, 7);
    hide React, Connects;
    var n := 1 + Connects(c2);
    assert Deferred(Seat(7, r2), Returns) == [Delete(7), DisConnect(r2, 7)];
    hide Deferred;
    assert Handle([], 3, n, Seat(7, r2), answers) == ([], Seat(7, r2), Returns);
    assert [Good(m2)][1..] == [] && c2 + [] == c2;
    assert Handle([Good(m2)], 3, 1, Seat(7, r1), answers) == (c2, Seat(7, r2), Returns);
    assert [Good(m1), Good(m2)][1..] == [Good(m2)];
    assert Handle([Good(m1), Good(m2)], 3, 0, NOBODY, answers) == (c1 + c2, Seat(7, r2), Returns);
    assert c1 + c2 + [Delete(7), DisConnect(r2, 7)]
      == [Connect(token, r1), Put(7, r1), Connect(token, r2), Put(7, r2), Delete(7), DisConnect(r2, 7)];
  }

  lemma OneConnect(token: string, room: int, user: int)
    ensures Connects([Connect(token, room), Put(user, room)]) == 1
  {
    var calls := [Connect(token, room), Put(user, room)];
    assert calls[1..] == [Put(user, room)] && calls[1..][1..] == [];
    assert Connects(calls[1..][1..]) == 0 && Connects(calls[1..]) == 0;
  }
}
