/** The connect layer's index as it is laid out in memory: channels linked into rooms, rooms and
    channels found through a bucket (connect/channel.go, connect/room.go, connect/bucket.go). */
module ConnectIndex {
  import opened ChannelStream
  import M = IndexModel

  class Channel {
    var room: Room?
    var next: Channel?
    var prev: Channel?
    var userId: int
    const size: nat
    var broadcast: seq<Msg>
    ghost var offered: seq<Msg>
    ghost var delivered: seq<Msg>

    constructor (size: nat)
      ensures room == null && next == null && prev == null && userId == 0
      ensures History() == Stream(size, [], [], [])
    {
      this.size := size;
      room, next, prev, userId := null, null, null, 0;
      broadcast, offered, delivered := [], [], [];
    }

    ghost function History(): Stream
      reads this`broadcast, this`offered, this`delivered
    {
      Stream(size, broadcast, offered, delivered)
    }

    method Push(m: Msg)
      modifies this`broadcast, this`offered
      ensures History() == Offer(old(History()), m)
      ensures broadcast == if |old(broadcast)| < size then old(broadcast) + [m] else old(broadcast)
    {
      if |broadcast| < size {
        broadcast := broadcast + [m];
      }
      offered := offered + [m];
    }

    /** The writer's side of the queue; it waits while there is nothing to take. */
    method Receive() returns (m: Msg)
      requires broadcast != []
      modifies this`broadcast, this`delivered
      ensures old(broadcast) == [m] + broadcast && History() == Take(old(History()))
    {
      m := broadcast[0];
      broadcast := broadcast[1..];
      delivered := delivered + [m];
    }
  }

  /** `head` starts a doubly linked, nil-terminated list of exactly the channels of `chain`. */
  ghost predicate Linked(head: Channel?, chain: seq<Channel>)
    reads chain`next, chain`prev
  {
    && M.NoRepeats(chain)
    && head == (if chain == [] then null else chain[0])
    && (forall i {:trigger chain[i].prev} | 0 <= i < |chain| ::
          chain[i].prev == (if i == 0 then null else chain[i - 1]))
    && (forall i {:trigger chain[i].next} | 0 <= i < |chain| ::
          chain[i].next == (if i + 1 == |chain| then null else chain[i + 1]))
  }

  /** Following `next` from the first of these channels comes back to it. */
  ghost predicate Cycle(nodes: seq<Channel>)
    reads nodes`next
  {
    nodes != [] && forall i | 0 <= i < |nodes| :: nodes[i].next == nodes[if i + 1 == |nodes| then 0 else i + 1]
  }

  /** The nodes come one after the other along `next`. */
  ghost predicate Follows(head: Channel?, nodes: seq<Channel>)
    reads nodes`next
  {
    nodes != [] && head == nodes[0] && forall i | 0 <= i < |nodes| - 1 :: nodes[i].next == nodes[i + 1]
  }

  /** There is only one way along `next`. */
  lemma {:induction false} WalkFollows(head: Channel?, chain: seq<Channel>, nodes: seq<Channel>)
    requires Linked(head, chain) && Follows(head, nodes)
    ensures |nodes| <= |chain| && chain[..|nodes|] == nodes
    ensures nodes[|nodes| - 1].next == null ==> chain == nodes
    decreases |nodes|
  {
    var n := |nodes| - 1;
    if n > 0 {
      WalkFollows(head, chain, nodes[..n]);
      assert chain[n - 1] == nodes[..n][n - 1] == nodes[n - 1] && nodes[n - 1].next == nodes[n];
    }
    assert chain[n].next == if n + 1 == |chain| then null else chain[n + 1];
    assert nodes == nodes[..n] + [nodes[n]] && chain[..n + 1] == chain[..n] + [chain[n]];
  }

  /** The nodes come one after the other along `next`, and the last ends the walk. */
  ghost predicate Ends(head: Channel?, nodes: seq<Channel>)
    reads nodes`next
  {
    Follows(head, nodes) && nodes[|nodes| - 1].next == null
  }

  lemma FirstAt<C>(chain: seq<C>, k: nat)
    requires M.NoRepeats(chain) && k < |chain|
    ensures forall i | 0 <= i < k :: chain[i] != chain[k]
  {
  }

  lemma Merged(head: Channel?, chain: seq<Channel>, k: nat, behind: seq<Channel>)
    requires k < |chain| && head == chain[0] && forall i | 0 <= i < k :: chain[i].next == chain[i + 1]
    requires chain[k].next == if behind == [] then null else behind[0]
    requires forall i {:trigger behind[i].next} | 0 <= i < |behind| ::
      behind[i].next == if i + 1 == |behind| then null else behind[i + 1]
    ensures Ends(head, chain[..k + 1] + behind)
  {
    var nodes := chain[..k + 1] + behind;
    forall i | 0 <= i < |nodes| ensures nodes[i].next == if i + 1 == |nodes| then null else nodes[i + 1] {
      if i <= k {
        assert nodes[i] == chain[i];
        assert i < k ==> nodes[i + 1] == chain[i + 1];
      } else {
        assert nodes[i] == behind[i - k - 1];
      }
    }
  }

  /** A walk along the nodes before `chain[k]` comes to it; it cannot start there and come to it again. */
  lemma Revisits(head: Channel?, walk: seq<Channel>, chain: seq<Channel>, k: nat, inFront: bool)
    requires Linked(head, walk) && k < |chain| && forall i | 0 <= i < k :: chain[i].next == chain[i + 1]
    requires if inFront then head == chain[k] && chain[k].next == chain[0] else head == chain[0]
    ensures !inFront && chain[k] in walk
  {
    var nodes := if inFront then [chain[k]] + chain[..k + 1] else chain[..k + 1];
    assert nodes[|nodes| - 1] == chain[k];
    WalkFollows(head, walk, nodes);
    assert walk[|nodes| - 1] == nodes[|nodes| - 1];
    if inFront {
      assert false;
    }
  }

  class Room {
    const id: int
    var onlineCount: int
    var drop: bool
    var next: Channel?
    ghost var chain: seq<Channel>

    constructor (roomId: int)
      ensures id == roomId && !drop && chain == [] && next == null && onlineCount == 0 && Valid()
    {
      id, onlineCount, drop, next := roomId, 0, false, null;
      chain := [];
    }

    ghost predicate Valid()
      reads this, chain`next, chain`prev
    {
      Linked(next, chain) && onlineCount == |chain|
    }

    /** Puts a channel at the head. One that is on the chain already is linked into a cycle. */
    method Put(ch: Channel) returns (err: bool)
      requires Valid()
      modifies this, ch`next, ch`prev, Only(next)`prev
      ensures err == old(drop) && drop == old(drop)
      ensures err ==> chain == old(chain) && Valid()
      ensures !err ==> next == ch && ch.next == old(next) && ch.prev == null && onlineCount == old(onlineCount) + 1 && chain == [ch] + old(chain)
      ensures !err && ch !in old(chain) ==> Valid()
      ensures !err ==> forall k | 0 <= k < |old(chain)| && old(chain)[k] == ch :: Cycle([ch] + old(chain)[..k])
    {
      err := false;
      if !drop {
        if next != null {
          next.prev := ch;
        }
        ch.next := next;
        ch.prev := null;
        next := ch;
        onlineCount := onlineCount + 1;
        chain := [ch] + chain;
        assert forall i | 1 <= i < |chain| :: chain[i] == old(chain)[i - 1];
      } else {
        err := true;
      }
    }

    method Push(m: Msg)
      requires Valid()
      modifies chain`broadcast, chain`offered
      ensures forall c | c in chain :: c.History() == Offer(old(c.History()), m)
    {
      hide Offer;
      var ch := next;
      ghost var i := 0;
      while ch != null
        invariant 0 <= i <= |chain| && ch == (if i == |chain| then null else chain[i])
        invariant forall k | 0 <= k < i :: chain[k].History() == Offer(old(chain[k].History()), m)
        invariant forall k | i <= k < |chain| :: chain[k].History() == old(chain[k].History())
        decreases |chain| - i
      {
        assert chain[i].next == if i + 1 == |chain| then null else chain[i + 1];
        ch.Push(m);
        ch := ch.next;
        i := i + 1;
      }
    }

    /** Unlinks a channel. Nothing checks that it is on the chain: with one that is not, the count no
        longer fits, or the links do and some channel of the chain is lost. */
    method DeleteChannel(ch: Channel) returns (empty: bool)
      modifies this, Only(ch.next)`prev, Only(ch.prev)`next
      ensures onlineCount == old(onlineCount) - 1 && empty == drop == (onlineCount <= 0)
      ensures next == if old(ch.prev) == null then old(ch.next) else old(next)
      ensures (forall c | c in Only(old(ch.next)) :: c.prev == old(ch.prev)) && forall c | c in Only(old(ch.prev)) :: c.next == old(ch.next)
      ensures old(Valid()) && ch in old(chain) ==>
        Valid() && chain == M.Without(old(chain), ch) && empty == (chain == [])
      ensures old(Valid()) && ch !in old(chain) ==>
        forall rest: seq<Channel> :: Linked(next, rest) && onlineCount == |rest| ==> exists c :: c in old(chain) && c !in rest
    {
      hide M.Without, M.NoRepeats, Linked;
      if ch.next != null {
        ch.next.prev := ch.prev;
      }
      if ch.prev != null {
        ch.prev.next := ch.next;
      } else {
        next := ch.next;
      }
      onlineCount := onlineCount - 1;
      drop := false;
      if onlineCount <= 0 {
        drop := true;
      }
      empty := drop;
      if old(Valid()) {
        if ch in chain {
          Unlinked(ch);
          chain := M.Without(chain, ch);
        } else {
          SomeoneLost();
        }
      }
    }

    /** Rewiring the neighbours of a channel of the chain leaves the chain without it. */
    twostate lemma Unlinked(ch: Channel)
      requires old(Valid()) && ch in old(chain)
      requires next == if old(ch.prev) == null then old(ch.next) else old(next)
      requires forall c | c in old(chain) :: c.next == if c == old(ch.prev) then old(ch.next) else old(c.next)
      requires forall c | c in old(chain) :: c.prev == if c == old(ch.next) then old(ch.prev) else old(c.prev)
      ensures Linked(next, M.Without(old(chain), ch)) && |M.Without(old(chain), ch)| == |old(chain)| - 1
    {
      var chain := old(chain);
      var k :| 0 <= k < |chain| && chain[k] == ch;
      assert old(ch.next) == if k + 1 == |chain| then null else chain[k + 1];
      assert old(ch.prev) == if k == 0 then null else chain[k - 1];
      var rest := Around(chain, k);
      hide M.Without, M.NoRepeats;
    }

    /** A count that is one less than the old chain fits no chain that has all of it. */
    twostate lemma SomeoneLost()
      requires old(Valid()) && onlineCount == old(onlineCount) - 1
      ensures forall rest: seq<Channel> :: Linked(next, rest) && onlineCount == |rest| ==> exists c :: c in old(chain) && c !in rest
    {
      forall rest: seq<Channel> | Linked(next, rest) && onlineCount == |rest|
        ensures exists c :: c in old(chain) && c !in rest
      {
        Pigeonhole(old(chain), rest);
      }
    }
  }

  /** The object, if it is one. */
  function Only(c: Channel?): set<Channel> { if c == null then {} else {c} }

  /** A chain without repeats does not fit into a shorter one. */
  lemma Pigeonhole<C>(chain: seq<C>, rest: seq<C>)
    requires M.NoRepeats(chain) && |rest| < |chain|
    ensures exists c :: c in chain && c !in rest
  {
    if forall c | c in chain :: c in rest {
      Distinct(chain);
      AtMost(rest);
      assert Elements(chain) <= Elements(rest);
      Fewer(Elements(chain), Elements(rest));
    }
  }

  ghost function Elements<C>(chain: seq<C>): set<C> { set c | c in chain }

  lemma {:induction false} Distinct<C>(chain: seq<C>)
    requires M.NoRepeats(chain)
    ensures |Elements(chain)| == |chain|
  {
    if chain != [] {
      Distinct(chain[1..]);
      assert Elements(chain) == {chain[0]} + Elements(chain[1..]);
    }
  }

  lemma {:induction false} AtMost<C>(chain: seq<C>)
    ensures |Elements(chain)| <= |chain|
  {
    if chain != [] {
      AtMost(chain[1..]);
      assert Elements(chain) == {chain[0]} + Elements(chain[1..]);
    }
  }

  lemma Fewer<C>(a: set<C>, b: set<C>)
    requires a <= b
    ensures |a| <= |b|
  {
    assert b == a + (b - a);
  }

  /** The chain without its `k`-th channel, and which of its channels stand next to the gap. */
  lemma Around<C>(chain: seq<C>, k: nat) returns (rest: seq<C>)
    requires M.NoRepeats(chain) && k < |chain|
    ensures rest == M.Without(chain, chain[k]) && M.NoRepeats(rest) && |rest| == |chain| - 1
    ensures forall i | 0 <= i < |rest| :: rest[i] == chain[if i < k then i else i + 1]
    ensures forall i | 0 <= i < |rest| && i != k :: k + 1 < |chain| ==> rest[i] != chain[k + 1]
    ensures forall i | 0 <= i < |rest| && i != k - 1 :: k > 0 ==> rest[i] != chain[k - 1]
  {
    rest := chain[..k] + chain[k + 1..];
    WithoutAt(chain, k);
    M.WithoutMembers(chain, chain[k]);
  }

  lemma {:induction false} WithoutAt<C>(chain: seq<C>, k: nat)
    requires M.NoRepeats(chain) && k < |chain|
    ensures M.Without(chain, chain[k]) == chain[..k] + chain[k + 1..]
  {
    if k > 0 {
      WithoutAt(chain[1..], k - 1);
      assert chain[..k] + chain[k + 1..] == [chain[0]] + (chain[1..][..k - 1] + chain[1..][k..]);
    } else {
      assert chain[..0] + chain[1..] == chain[1..];
    }
  }

  class Bucket {
    var chs: map<int, Channel>
    var rooms: map<int, Room>
    var routines: seq<seq<M.Request>>
    var routinesNum: nat
    /** Every channel that was ever put here. */
    ghost var members: set<Channel>

    constructor (routineAmount: nat)
      ensures Valid() && Abs() == M.Fresh<Channel>(routineAmount) && members == {}
    {
      chs, rooms := map[], map[];
      routines := seq(routineAmount, _ => []);
      routinesNum := 0;
      members := {};
    }

    ghost function Objects(): set<object>
      reads this
    {
      {this} + rooms.Values + members
    }

    ghost predicate RoomValid(r: int)
      requires r in rooms
      reads this`rooms, this`members, rooms.Values, members
    {
      var room := rooms[r];
      && room.id == r && !room.drop && room.chain != []
      && (forall c | c in room.chain :: c in members && c.room == room)
      && room.Valid()
    }

    ghost predicate UserValid(u: int)
      requires u in chs
      reads this`chs, this`rooms, this`members, rooms.Values, members
    {
      var c := chs[u];
      && c in members && c.userId == u
      && (c.room != null ==> c.room.id in rooms && rooms[c.room.id] == c.room && c in rooms[c.room.id].chain)
    }

    /** No channel carries a room under the id that means none. */
    ghost predicate Named(c: Channel)
      reads c`room
    {
      c.room != null ==> c.room.id != M.NO_ROOM
    }

    ghost predicate Valid()
      reads this, rooms.Values, members
    {
      && (forall r | r in rooms :: RoomValid(r))
      && (forall u | u in chs :: UserValid(u))
      && (forall c | c in members :: Sound(c.History()) && Named(c))
      && M.NO_ROOM !in rooms
      && routinesNum < M.UINT64
    }

    ghost function Entry(c: Channel): M.Entry<Channel>
      reads c`room
    {
      M.Entry(c, if c.room == null then M.NO_ROOM else c.room.id)
    }

    ghost function Users(): map<int, M.Entry<Channel>>
      requires Valid()
      reads this, rooms.Values, members
    {
      map u | u in chs :: (assert UserValid(u); Entry(chs[u]))
    }

    ghost function Rooms(): map<int, seq<Channel>>
      requires Valid()
      reads this, rooms.Values, members
    {
      map r | r in rooms :: rooms[r].chain
    }

    ghost function Streams(): map<Channel, Stream>
      requires Valid()
      reads this, rooms.Values, members
    {
      map c | c in members :: c.History()
    }

    ghost function Carried(): map<Channel, int>
      requires Valid()
      reads this, rooms.Values, members
    {
      map c | c in members :: Entry(c).room
    }

    /** The bucket as a value. */
    ghost function Abs(): (b: M.Bucket<Channel>)
      requires Valid()
      reads this, rooms.Values, members
      ensures M.Known(b)
    {
      KnownHere();
      M.Bucket(Users(), Rooms(), Streams(), Carried(), routines, routinesNum)
    }

    lemma KnownHere()
      requires Valid()
      ensures forall r, c | r in Rooms() && c in Rooms()[r] :: c in Streams()
      ensures forall u | u in Users() :: Users()[u].ch in Streams()
    {
      forall r, c | r in Rooms() && c in Rooms()[r] ensures c in Streams() { assert RoomValid(r); }
      forall u | u in Users() ensures Users()[u].ch in Streams() { assert UserValid(u); }
    }

    lemma AbsInv()
      requires Valid()
      ensures M.Inv(Abs())
    {
    }

    /** Every room but one is the same object with the same chain, as sound as before. */
    twostate predicate RoomsKept(except: int)
      reads this, rooms.Values, members
    {
      forall r | r in old(rooms) && r != except ::
        && r in rooms && rooms[r] == old(rooms[r]) && rooms[r].chain == old(rooms[r].chain)
        && !rooms[r].drop && (forall c | c in rooms[r].chain :: c in members) && rooms[r].Valid()
    }

    ghost function OnChains(chains: map<int, seq<Channel>>): (s: set<Channel>)
      ensures forall r, c | r in chains && c in chains[r] :: c in s
    {
      set r, c | r in chains && c in chains[r] :: c
    }

    /** `chains` are what the pointers say: each room's walk ends, visits only channels that carry this
        room, and every registered channel that carries a room is on that room's walk. */
    ghost predicate Consistent(chains: map<int, seq<Channel>>)
      reads this, rooms.Values, chs.Values, OnChains(chains)
    {
      && rooms.Keys <= chains.Keys
      && (forall r | r in rooms :: Linked(rooms[r].next, chains[r]) && forall c | c in chains[r] :: c.room == rooms[r])
      && (forall u | u in chs ::
            && chs[u].userId == u
            && (chs[u].room != null ==>
                  var id := chs[u].room.id; id in rooms && rooms[id] == chs[u].room && chs[u] in chains[id]))
    }

    lemma ValidIsConsistent()
      requires Valid()
      ensures Consistent(Rooms())
    {
      hide Linked, Sound;
      forall r | r in rooms ensures Linked(rooms[r].next, Rooms()[r]) && forall c | c in Rooms()[r] :: c.room == rooms[r] {
        assert RoomValid(r);
      }
      forall u | u in chs
        ensures chs[u].userId == u
        ensures chs[u].room != null ==>
          var id := chs[u].room.id; id in rooms && rooms[id] == chs[u].room && chs[u] in Rooms()[id]
      {
        assert UserValid(u);
      }
    }

    /** What putting `p.0` into the room `p.1` changes, object by object, when the put fits. */
    twostate predicate PutDone(p: (Channel, int))
      reads this, rooms.Values, members, p.0
    {
      var (ch, roomId) := p;
      && ch.History() == old(ch.History()) && Named(ch)
      && chs == old(chs)[ch.userId := ch] && members == old(members) + {ch}
      && routines == old(routines) && routinesNum == old(routinesNum)
      && (forall u | u in old(chs) && old(chs[u]) == ch :: u == ch.userId)
      && (forall c | c in old(members) :: c in members && c.History() == old(c.History()))
      && (forall c | c in old(members) && c != ch :: c.room == old(c.room) && c.userId == old(c.userId))
      && RoomsKept(roomId)
      && (forall r | r in rooms :: r in old(rooms) || (r == roomId && r != M.NO_ROOM))
      && if roomId == M.NO_ROOM then
           ch.room == old(ch.room)
           && (ch.room != null ==> ch.room.id in old(rooms) && old(rooms[ch.room.id]) == ch.room && ch in old(rooms[ch.room.id].chain))
         else
           && (forall r | r in old(rooms) :: ch !in old(rooms[r].chain))
           && roomId in rooms && ch.room == rooms[roomId] && ch.room.id == roomId
           && (roomId in old(rooms) ==> rooms[roomId] == old(rooms[roomId]))
           && !rooms[roomId].drop
           && rooms[roomId].chain == [ch] + (if roomId in old(rooms) then old(rooms[roomId].chain) else [])
           && (forall c | c in rooms[roomId].chain :: c in members) && rooms[roomId].Valid()
    }

    twostate lemma PutValid(p: (Channel, int))
      requires old(Valid()) && PutDone(p) && Sound(p.0.History())
      ensures Valid()
    {
      hide Linked, Sound, Room.Valid;
      forall r | r in rooms ensures RoomValid(r) {
        if r in old(rooms) { assert old(RoomValid(r)); }
      }
      forall u | u in chs ensures UserValid(u) {
        if u != p.0.userId { assert old(UserValid(u)); }
      }
    }

    twostate lemma PutUsers(p: (Channel, int))
      requires old(Valid()) && PutDone(p) && Valid()
      ensures Users() == old(Users())[p.0.userId := Entry(p.0)]
    {
      hide RoomsKept, RoomValid;
      forall u | u in chs && u != p.0.userId ensures Entry(chs[u]) == old(Entry(chs[u])) {
        assert old(UserValid(u));
      }
    }

    twostate lemma PutRooms(p: (Channel, int))
      requires old(Valid()) && PutDone(p) && Valid()
      ensures Rooms() == if p.1 == M.NO_ROOM then old(Rooms())
                         else old(Rooms())[p.1 := [p.0] + (if p.1 in old(Rooms()) then old(Rooms())[p.1] else [])]
    {
      hide Linked, Sound, Room.Valid, UserValid;
      forall r | r in old(rooms) && r != p.1 ensures r in rooms && rooms[r].chain == old(rooms[r].chain) {
        assert old(RoomValid(r));
      }
      assert forall r :: r in Rooms() <==> r in old(Rooms()) || (r == p.1 && r != M.NO_ROOM);
    }

    twostate lemma PutStreams(p: (Channel, int))
      requires old(Valid()) && PutDone(p) && Valid()
      ensures Streams() == old(Streams())[p.0 := old(p.0.History())]
      ensures Carried() == old(Carried())[p.0 := Entry(p.0).room]
    {
      hide RoomsKept, RoomValid, UserValid, Channel.History, Sound;
    }

    twostate lemma PutAbs(p: (Channel, int))
      requires old(Valid()) && PutDone(p) && Valid()
      ensures Abs() == M.Put(old(Abs()), p.0.userId, p.1, p.0, old(p.0.History()), old(Entry(p.0)).room)
    {
      PutUsers(p);
      PutRooms(p);
      PutStreams(p);
      hide Valid, Users, Rooms, Streams, Carried, RoomsKept;
    }

    /** What putting `p.0` into the room `p.1` does to the pointers, whether it fits or not. */
    twostate predicate PutLinks(p: (Channel, int))
      reads this, rooms.Values, members, p.0
    {
      var (ch, roomId) := p;
      && chs == old(chs)[ch.userId := ch] && members == old(members) + {ch}
      && (forall c | c in old(members) && c != ch :: c.next == old(c.next) && c.room == old(c.room))
      && (forall c | c in old(members) && c != ch && !(roomId in old(rooms) && c == old(rooms[roomId].next)) ::
            c.prev == old(c.prev))
      && (forall r | r in old(rooms) && r != roomId :: r in rooms && rooms[r] == old(rooms[r]) && rooms[r].next == old(rooms[r].next))
      && if roomId == M.NO_ROOM then
           rooms == old(rooms) && ch.next == old(ch.next) && ch.prev == old(ch.prev) && ch.room == old(ch.room)
         else
           && roomId in rooms && rooms[roomId].next == ch && ch.prev == null && ch.room == rooms[roomId] && ch.room.id == roomId
           && ch.next == (if roomId in old(rooms) then old(rooms[roomId].next) else null)
    }

    /** The condition for a put to fit, read off the objects. */
    twostate predicate Fits(p: (Channel, int))
      requires old(Valid())
      reads p.0
    {
      M.PutFits(old(Abs()), p.0.userId, p.1, p.0, old(Entry(p.0)).room)
    }

    /** The walk of a room that had `p.0` on its chain comes to it, but the room it carries is another. */
    twostate lemma PutOnTwo(p: (Channel, int))
      requires old(Valid()) && PutLinks(p) && p.1 != M.NO_ROOM
      ensures forall r, walk: seq<Channel> |
        r in old(rooms) && p.0 in old(rooms[r].chain) && r in rooms && Linked(rooms[r].next, walk) ::
        r != p.1 && p.0 in walk
    {
      forall r, walk: seq<Channel> |
        r in old(rooms) && p.0 in old(rooms[r].chain) && r in rooms && Linked(rooms[r].next, walk)
        ensures r != p.1 && p.0 in walk
      {
        assert old(RoomValid(r));
        var chain := old(rooms[r].chain);
        var k :| 0 <= k < |chain| && chain[k] == p.0;
        assert forall i | 0 <= i < k :: chain[i] != p.0 && chain[i].next == old(chain[i].next) == chain[i + 1];
        hide Sound, Linked, Valid;
        Revisits(rooms[r].next, walk, chain, k, r == p.1);
      }
    }

    /** What a room's chain and its pointers were. */
    twostate lemma OldWalk(r: int)
      requires old(Valid()) && r in old(rooms)
      ensures var chain := old(rooms[r].chain);
        && chain != [] && old(rooms[r].next) == chain[0] && M.NoRepeats(chain)
        && (forall c | c in chain :: c in old(members) && old(c.room) == old(rooms[r]))
        && (forall i {:trigger chain[i].next} | 0 <= i < |chain| ::
              old(chain[i].next) == if i + 1 == |chain| then null else chain[i + 1])
    {
      hide Sound;
      assert old(RoomValid(r));
    }

    /** A channel (`q.0`) on the chain of one room (`q.2`) that is put into another (`q.1`) leads the first
        room's walk into the second: behind it come the second room's channels, and what stood behind it
        is lost. */
    twostate lemma PutMerges(q: (Channel, int, int)) returns (k: nat)
      requires old(Valid()) && PutLinks((q.0, q.1)) && q.1 != M.NO_ROOM && q.1 != q.2
      requires q.2 in old(rooms) && q.0 in old(rooms[q.2].chain)
      ensures k < |old(rooms[q.2].chain)| && old(rooms[q.2].chain)[k] == q.0 && q.2 in rooms
      ensures Ends(rooms[q.2].next, old(rooms[q.2].chain)[..k + 1] + if q.1 in old(rooms) then old(rooms[q.1].chain) else [])
    {
      hide Valid, M.NoRepeats, RoomValid, Linked, Sound;
      var ch, roomId, r := q.0, q.1, q.2;
      assert ch.next == if roomId in old(rooms) then old(rooms[roomId].next) else null;
      assert r in rooms && rooms[r] == old(rooms[r]) && rooms[r].next == old(rooms[r].next);
      OldWalk(r);
      var chain := old(rooms[r].chain);
      k :| 0 <= k < |chain| && chain[k] == ch;
      FirstAt(chain, k);
      forall c | c in chain && c != ch ensures c.next == old(c.next) {
        assert c in old(members);
      }
      hide PutLinks;
      assert forall i | 0 <= i < k :: chain[i].next == chain[i + 1];
      if roomId in old(rooms) {
        OldWalk(roomId);
        RoomsDiffer((r, roomId));
        var behind := old(rooms[roomId].chain);
        assert old(ch.room) == old(rooms[r]);
        BehindKept((ch, roomId));
        Merged(rooms[r].next, chain, k, behind);
      } else {
        Merged(rooms[r].next, chain, k, []);
      }
    }

    twostate lemma BehindKept(p: (Channel, int))
      requires old(Valid()) && PutLinks(p) && p.1 in old(rooms) && old(p.0.room) != old(rooms[p.1])
      ensures forall c | c in old(rooms[p.1].chain) :: c.next == old(c.next)
    {
      OldWalk(p.1);
      hide Valid;
      forall c | c in old(rooms[p.1].chain) ensures c.next == old(c.next) {
        assert old(c.room) == old(rooms[p.1]) && c in old(members);
      }
    }

    twostate lemma RoomsDiffer(rs: (int, int))
      requires old(Valid()) && rs.0 in old(rooms) && rs.1 in old(rooms) && rs.0 != rs.1
      ensures old(rooms[rs.0]) != old(rooms[rs.1])
    {
      hide Sound;
      assert old(RoomValid(rs.0)) && old(RoomValid(rs.1));
    }

    /** The walk of a room is its chain as long as no `next` changed. */
    twostate lemma SameWalk(r: int)
      requires r in old(rooms) && old(RoomValid(r))
      requires r in rooms && rooms[r] == old(rooms[r]) && rooms[r].next == old(rooms[r].next)
      requires forall c | c in old(rooms[r].chain) :: c.next == old(c.next)
      ensures forall walk: seq<Channel> | Linked(rooms[r].next, walk) :: walk == old(rooms[r].chain)
    {
      var chain := old(rooms[r].chain);
      assert forall i | 0 <= i < |chain| :: chain[i].next == old(chain[i].next);
      forall walk: seq<Channel> | Linked(rooms[r].next, walk) ensures walk == chain {
        WalkFollows(rooms[r].next, walk, chain);
      }
    }

    /** After a put that does not fit no chains agree with the pointers. */
    twostate lemma PutBreaks(p: (Channel, int))
      requires old(Valid()) && PutLinks(p) && !Fits(p)
      ensures forall chains: map<int, seq<Channel>> :: !Consistent(chains)
    {
      hide Linked, Sound, Room.Valid;
      var ch, roomId := p.0, p.1;
      forall chains: map<int, seq<Channel>> ensures !Consistent(chains) {
        assert ch.userId in chs && chs[ch.userId] == ch;
        if u :| u in old(chs) && old(chs[u]) == ch && u != ch.userId {
          assert u in chs && chs[u] == ch;
        } else if roomId != M.NO_ROOM {
          var r :| r in old(rooms) && ch in old(rooms[r].chain);
          assert old(RoomValid(r));
          PutOnTwo(p);
        } else if ch.room != null && ch.room.id in rooms && rooms[ch.room.id] == ch.room {
          var id := ch.room.id;
          assert old(RoomValid(id));
          assert ch !in old(rooms[id].chain);
          SameWalk(id);
        }
      }
    }

    /** Rooms whose links are untouched stay sound. */
    twostate lemma OthersKept(except: int)
      requires old(Valid()) && old(members) <= members
      requires forall r | r in old(rooms) && r != except ::
        r in rooms && rooms[r] == old(rooms[r]) && unchanged(rooms[r])
        && forall c | c in rooms[r].chain :: c.next == old(c.next) && c.prev == old(c.prev)
      ensures RoomsKept(except)
    {
      hide Linked, Room.Valid;
      forall r | r in old(rooms) && r != except
        ensures (forall c | c in rooms[r].chain :: c in members) && !rooms[r].drop && rooms[r].Valid()
      {
        assert old(RoomValid(r));
        RoomKept(rooms[r]);
      }
    }

    /** The head of a room was on no other room's chain. */
    twostate lemma HeadApart(r: int)
      requires old(Valid()) && r in old(rooms)
      ensures forall s, c | s in old(rooms) && s != r && c in old(rooms[s].chain) :: c != old(rooms[r].next)
    {
      hide Sound;
      assert old(RoomValid(r));
      forall s, c | s in old(rooms) && s != r && c in old(rooms[s].chain) ensures c != old(rooms[r].next) {
        assert old(RoomValid(s));
      }
    }

    lemma HeadKnown(r: int)
      requires r in rooms && rooms[r].Valid() && forall c | c in rooms[r].chain :: c in members
      ensures Only(rooms[r].next) <= members
    {
    }

    /** The part of `Put` under the bucket's lock: finds or makes the room, registers the channel. */
    method Register(userId: int, roomId: int, ch: Channel) returns (room: Room?)
      requires Valid()
      modifies this, ch`room, ch`userId
      ensures chs == old(chs)[userId := ch] && members == old(members) + {ch}
      ensures routines == old(routines) && routinesNum == old(routinesNum)
      ensures ch.userId == userId
      ensures roomId == M.NO_ROOM ==> room == null && rooms == old(rooms) && ch.room == old(ch.room)
      ensures roomId != M.NO_ROOM ==>
        && room != null && ch.room == room && room.id == roomId && !room.drop && room.Valid()
        && rooms == old(rooms)[roomId := room]
        && (roomId in old(rooms) ==> room == old(rooms[roomId]))
        && (roomId !in old(rooms) ==> fresh(room) && room.chain == [] && room.next == null)
    {
      room := null;
      if roomId != M.NO_ROOM {
        if roomId in rooms {
          assert RoomValid(roomId);
          room := rooms[roomId];
        } else {
          room := new Room(roomId);
          rooms := rooms[roomId := room];
        }
        ch.room := room;
      }
      ch.userId := userId;
      chs := chs[userId := ch];
      members := members + {ch};
    }

    /** Registers the channel and puts it in front of its room's chain. */
    method Enlist(userId: int, roomId: int, ch: Channel) returns (err: bool)
      requires Valid() && Named(ch)
      modifies this, rooms.Values, members`next, members`prev, ch`room, ch`userId, ch`next, ch`prev
      ensures !err && PutLinks((ch, roomId)) && PutOthers((ch, roomId))
      ensures ch.userId == userId && Named(ch) && ch.History() == old(ch.History())
      ensures forall r | r in rooms :: r in old(rooms) || (r == roomId && r != M.NO_ROOM)
      ensures forall r | r in rooms.Values :: r in old(rooms.Values) || fresh(r)
      ensures roomId != M.NO_ROOM ==>
        var before := if roomId in old(rooms) then old(rooms[roomId].chain) else [];
        && !rooms[roomId].drop && rooms[roomId].chain == [ch] + before
        && (ch !in before ==> rooms[roomId].Valid())
    {
      hide Linked, Sound, Room.Valid, UserValid, Channel.History;
      var room := Register(userId, roomId, ch);
      err := false;
      if room != null {
        assert roomId in old(rooms) ==> old(RoomValid(roomId));
        HeadKnown(roomId);
        err := room.Put(ch);
      }
      assert forall r | r in old(rooms) :: old(RoomValid(r));
    }

    /** What an enlisting leaves as it was. */
    twostate predicate PutOthers(p: (Channel, int))
      reads this, rooms.Values, members, p.0
    {
      && routines == old(routines) && routinesNum == old(routinesNum)
      && (p.1 in old(rooms) ==> p.1 in rooms && rooms[p.1] == old(rooms[p.1]))
      && (forall c | c in old(members) :: c in members && c.History() == old(c.History()))
      && (forall c | c in old(members) && c != p.0 :: c.userId == old(c.userId))
      && (forall r | r in old(rooms) && r != p.1 ::
            r in rooms && rooms[r] == old(rooms[r]) && unchanged(rooms[r]))
    }

    /** Puts any channel, one already put included. A put that fits is the machine's put; after one that
        does not, no chains agree with the pointers. */
    method Put(userId: int, roomId: int, ch: Channel) returns (err: bool)
      requires Valid() && Sound(ch.History()) && Named(ch)
      modifies this, rooms.Values, members`next, members`prev, ch`room, ch`userId, ch`next, ch`prev
      ensures !err && ch.userId == userId && PutLinks((ch, roomId))
      ensures var was := old(Entry(ch)).room;
        if M.PutFits(old(Abs()), userId, roomId, ch, was)
        then Valid() && Abs() == M.Put(old(Abs()), userId, roomId, ch, old(ch.History()), was)
        else !Valid() && forall chains: map<int, seq<Channel>> :: !Consistent(chains)
      ensures members == old(members) + {ch} && chs == old(chs)[userId := ch]
      ensures forall r | r in rooms.Values :: r in old(rooms.Values) || fresh(r)
    {
      hide Linked, Sound, Room.Valid, UserValid, M.Put, Abs, Channel.History, RoomsKept, M.PutFits;
      err := Enlist(userId, roomId, ch);
      if Fits((ch, roomId)) {
        FitsMeans((ch, roomId));
        FitsDone((ch, roomId));
      }
      PutTells((ch, roomId));
      if Valid() { ValidIsConsistent(); }
    }

    twostate lemma FitsDone(p: (Channel, int))
      requires old(Valid()) && PutLinks(p) && PutOthers(p) && Named(p.0) && p.0.History() == old(p.0.History())
      requires forall r | r in rooms :: r in old(rooms) || (r == p.1 && r != M.NO_ROOM)
      requires p.1 != M.NO_ROOM ==>
        var before := if p.1 in old(rooms) then old(rooms[p.1].chain) else [];
        && !rooms[p.1].drop && rooms[p.1].chain == [p.0] + before
        && (p.0 !in before ==> rooms[p.1].Valid())
      requires forall u | u in old(chs) && old(chs[u]) == p.0 :: u == p.0.userId
      requires p.1 != M.NO_ROOM ==> forall r | r in old(rooms) :: p.0 !in old(rooms[r].chain)
      requires p.1 == M.NO_ROOM && p.0.room != null ==>
        var id := p.0.room.id;
        id in old(rooms) && old(rooms[id]) == p.0.room && p.0 in old(rooms[id].chain)
      ensures PutDone(p)
    {
      hide Linked, Sound, Room.Valid, UserValid, Channel.History;
      if p.1 in old(rooms) { HeadApart(p.1); }
      forall r | r in old(rooms) && r != p.1
        ensures unchanged(rooms[r]) && forall c | c in rooms[r].chain :: c.next == old(c.next) && c.prev == old(c.prev)
      {
        assert old(RoomValid(r));
      }
      OthersKept(p.1);
      assert p.1 in old(rooms) ==> old(RoomValid(p.1));
    }

    /** A put that fits, object by object. */
    twostate lemma FitsMeans(p: (Channel, int))
      requires old(Valid()) && Fits(p)
      ensures forall u | u in old(chs) && old(chs[u]) == p.0 :: u == p.0.userId
      ensures p.1 != M.NO_ROOM ==> forall r | r in old(rooms) :: p.0 !in old(rooms[r].chain)
      ensures p.1 == M.NO_ROOM && old(p.0.room) != null && old(Named(p.0)) ==>
        var id := old(p.0.room).id;
        id in old(rooms) && old(rooms[id]) == old(p.0.room) && p.0 in old(rooms[id].chain)
    {
      var b, ch, was := old(Abs()), p.0, old(Entry(p.0)).room;
      assert forall u | u in old(chs) :: b.users[u].ch == old(chs[u]);
      assert forall r | r in old(rooms) :: b.rooms[r] == old(rooms[r].chain);
      if p.1 == M.NO_ROOM && old(ch.room) != null && old(Named(ch)) {
        assert ch in M.Chain(b, was) && was in old(rooms);
        assert old(RoomValid(was));
      }
      hide Linked, Sound, RoomValid, UserValid, Room.Valid, M.Known;
    }

    /** The pointers after a put tell whether it fitted. */
    twostate lemma PutTells(p: (Channel, int))
      requires old(Valid()) && PutLinks(p)
      requires Fits(p) ==> PutDone(p) && Sound(p.0.History())
      ensures if Fits(p) then
          Valid() && Abs() == M.Put(old(Abs()), p.0.userId, p.1, p.0, old(p.0.History()), old(Entry(p.0)).room)
        else forall chains: map<int, seq<Channel>> :: !Consistent(chains)
    {
      if Fits(p) {
        PutValid(p);
        PutAbs(p);
      } else {
        PutBreaks(p);
      }
    }

    /** What deleting a registered user changes, object by object. */
    twostate predicate DeleteDone(userId: int)
      requires userId in old(chs)
      reads this, rooms.Values, members
    {
      var c := old(chs[userId]);
      var room := old(c.room);
      && chs == old(chs) - {userId} && members == old(members)
      && routines == old(routines) && routinesNum == old(routinesNum)
      && (forall c | c in old(members) ::
            c.room == old(c.room) && c.userId == old(c.userId) && c.History() == old(c.History()))
      && if room == null then rooms == old(rooms) && RoomsKept(M.NO_ROOM)
         else
           && room.id in old(rooms) && RoomsKept(room.id)
           && var rest := M.Without(old(rooms[room.id].chain), c);
           if rest == [] then rooms == old(rooms) - {room.id}
           else
             && rooms == old(rooms) && rooms[room.id].chain == rest && !rooms[room.id].drop
             && (forall c | c in rest :: c in members) && rooms[room.id].Valid()
    }

    twostate lemma DeleteValid(userId: int)
      requires old(Valid()) && userId in old(chs) && DeleteDone(userId)
      ensures Valid()
    {
      var gone := old(chs[userId]);
      assert old(UserValid(userId));
      if gone.room != null {
        assert old(RoomValid(gone.room.id));
        M.WithoutMembers(old(rooms[gone.room.id].chain), gone);
      }
      hide Linked, Sound, Room.Valid, M.Without;
      forall r | r in rooms ensures RoomValid(r) {
        assert old(RoomValid(r));
      }
      forall u | u in chs ensures UserValid(u) {
        assert old(UserValid(u)) && old(UserValid(userId));
      }
    }

    twostate lemma DeleteUsers(userId: int)
      requires old(Valid()) && userId in old(chs) && DeleteDone(userId) && Valid()
      ensures Users() == old(Users()) - {userId}
    {
      hide RoomsKept, RoomValid, Linked;
      forall u | u in chs ensures Entry(chs[u]) == old(Entry(chs[u])) {
        assert old(UserValid(u));
      }
    }

    twostate lemma DeleteRooms(userId: int)
      requires old(Valid()) && userId in old(chs) && DeleteDone(userId) && Valid()
      ensures Rooms() == M.Leave(old(Rooms()), old(Entry(chs[userId])).room, old(chs[userId]))
    {
      assert old(UserValid(userId));
      hide Linked, Sound, Room.Valid, M.Without, UserValid;
      var gone := old(Entry(chs[userId])).room;
      forall r | r in old(rooms) && r != gone ensures r in rooms && rooms[r].chain == old(rooms[r].chain) {
        assert old(RoomValid(r));
      }
      assert forall r :: r in Rooms() ==> r in old(Rooms());
    }

    twostate lemma DeleteStreams(userId: int)
      requires old(Valid()) && userId in old(chs) && DeleteDone(userId) && Valid()
      ensures Streams() == old(Streams())
    {
      hide RoomsKept, RoomValid, UserValid, Channel.History, Sound;
    }

    twostate lemma DeleteAbs(userId: int)
      requires old(Valid()) && userId in old(chs) && DeleteDone(userId) && Valid()
      ensures Abs() == M.Delete(old(Abs()), userId)
    {
      DeleteUsers(userId);
      DeleteRooms(userId);
      DeleteStreams(userId);
      assert userId in old(Users()) && old(Users())[userId] == old(Entry(chs[userId]));
      hide Valid, Users, Rooms, Streams, RoomsKept, M.Leave;
    }

    /** The id that the channel registered under this one carries; deleting works on that one. */
    ghost function Own(userId: int): int
      reads this, chs.Values
    {
      if userId in chs then chs[userId].userId else userId
    }

    /** The channel registered under this id carries one that is not registered: its lookup finds nothing. */
    ghost predicate Crashes(userId: int)
      reads this, chs.Values
    {
      Own(userId) !in chs && userId in chs
    }

    ghost function RoomOf(userId: int): set<Room>
      reads this, chs.Values
    {
      if userId in chs && Own(userId) in chs && chs[Own(userId)].room != null then {chs[Own(userId)].room} else {}
    }

    ghost function NextOf(userId: int): set<Channel>
      reads this, chs.Values
    {
      if RoomOf(userId) == {} then {} else Only(chs[userId].next)
    }

    ghost function PrevOf(userId: int): set<Channel>
      reads this, chs.Values
    {
      if RoomOf(userId) == {} then {} else Only(chs[userId].prev)
    }

    lemma NeighboursKnown(userId: int)
      requires Valid()
      ensures RoomOf(userId) <= rooms.Values && NextOf(userId) <= members && PrevOf(userId) <= members
    {
      hide Sound;
      if userId in chs && chs[userId].room != null {
        assert UserValid(userId);
        assert RoomValid(chs[userId].room.id);
      }
    }

    /** Unregisters the id the registered channel carries, and unlinks the channel from the room of that
        id's channel; the room is dropped from the index, by its id, when its count is used up. */
    method Withdraw(userId: int)
      requires userId in chs && Own(userId) in chs
      modifies this`chs, this`rooms, RoomOf(userId), NextOf(userId)`prev, PrevOf(userId)`next
      ensures members == old(members) && chs == old(chs) - {old(Own(userId))}
      ensures forall r | r in old(RoomOf(userId)) ::
        && r.onlineCount == old(r.onlineCount) - 1
        && rooms == (if r.onlineCount <= 0 then old(rooms) - {r.id} else old(rooms))
        && r.next == if old(chs[userId].prev) == null then old(chs[userId].next) else old(r.next)
      ensures forall c | c in old(NextOf(userId)) :: c.prev == old(chs[userId].prev)
      ensures forall c | c in old(PrevOf(userId)) :: c.next == old(chs[userId].next)
      ensures old(RoomOf(userId)) == {} ==> rooms == old(rooms)
      ensures old(Valid()) ==> DeleteDone(userId)
    {
      hide Linked, Sound, Room.Valid, Channel.History, M.Without;
      ghost var valid := Valid();
      if valid {
        NeighboursKnown(userId);
        assert UserValid(userId);
      }
      var registered := chs[userId];
      var room := chs[registered.userId].room;
      chs := chs - {registered.userId};
      if room != null {
        if valid {
          assert RoomValid(room.id);
          RestOnChain(room, registered);
        }
        var empty := room.DeleteChannel(registered);
        if empty {
          rooms := rooms - {room.id};
        }
      }
      if valid { WithdrawDone(userId); }
    }

    /** In a valid bucket the unlinked channel leaves its own room's chain, and touches no other. */
    twostate lemma WithdrawDone(userId: int)
      requires old(Valid()) && userId in old(chs) && chs == old(chs) - {userId} && members == old(members)
      requires routines == old(routines) && routinesNum == old(routinesNum)
      requires forall c | c in members :: c.room == old(c.room) && c.userId == old(c.userId) && c.History() == old(c.History())
      requires forall c | c in members && c !in old(PrevOf(userId)) :: c.next == old(c.next)
      requires forall c | c in members && c !in old(NextOf(userId)) :: c.prev == old(c.prev)
      requires forall r | r in old(rooms) && old(rooms[r]) !in old(RoomOf(userId)) :: unchanged(old(rooms[r]))
      requires forall r | r in old(RoomOf(userId)) ::
        && r.Valid() && r.chain == M.Without(old(r.chain), old(chs[userId])) && r.drop == (r.chain == [])
        && rooms == if r.drop then old(rooms) - {r.id} else old(rooms)
      requires old(RoomOf(userId)) == {} ==> rooms == old(rooms)
      ensures DeleteDone(userId)
    {
      hide Linked, Sound, Room.Valid, Channel.History, M.Without;
      var c := old(chs[userId]);
      var room := old(c.room);
      assert old(UserValid(userId));
      OldNeighbours(userId);
      if room != null {
        assert room in old(RoomOf(userId)) && old(RoomValid(room.id));
        DistinctBefore(room);
        M.WithoutMembers(old(room.chain), c);
      }
      forall r | r in old(rooms) && (room == null || r != room.id)
        ensures r in rooms && rooms[r] == old(rooms[r]) && unchanged(rooms[r])
        ensures forall c | c in rooms[r].chain :: c.next == old(c.next) && c.prev == old(c.prev)
      {
        assert old(RoomValid(r));
      }
      OthersKept(if room == null then M.NO_ROOM else room.id);
    }

    twostate lemma DistinctBefore(r: Room)
      requires old(r.Valid())
      ensures M.NoRepeats(old(r.chain))
    {
    }

    twostate lemma OldNeighbours(userId: int)
      requires old(Valid())
      ensures forall room, s, c |
        room in old(RoomOf(userId)) && s in old(rooms) && s != room.id && c in old(rooms[s].chain) ::
        c !in old(NextOf(userId)) && c !in old(PrevOf(userId))
    {
      hide Sound;
      if userId in old(chs) && old(chs[userId].room) != null {
        assert old(UserValid(userId));
        var room := old(chs[userId].room);
        assert old(RoomValid(room.id));
        forall s, c | s in old(rooms) && s != room.id && c in old(rooms[s].chain)
          ensures c !in old(NextOf(userId)) && c !in old(PrevOf(userId))
        {
          assert old(RoomValid(s));
        }
      }
    }

    /** Looks up the channel registered under the id `ch` carries, and deletes the id that one carries.
        In a valid bucket these are one id; in any other the call may delete another user, or fail: it does
        exactly when that second id is not registered, and then the server ends. */
    method DeleteChannel(ch: Channel) returns (crashed: bool)
      modifies this`chs, this`rooms, RoomOf(ch.userId), NextOf(ch.userId)`prev, PrevOf(ch.userId)`next
      ensures crashed == old(Crashes(ch.userId))
      ensures members == old(members)
      ensures chs == if crashed then old(chs) else old(chs) - {old(Own(ch.userId))}
      ensures forall r | r in old(RoomOf(ch.userId)) ::
        && r.onlineCount == old(r.onlineCount) - 1
        && rooms == (if r.onlineCount <= 0 then old(rooms) - {r.id} else old(rooms))
        && r.next == if old(chs[ch.userId].prev) == null then old(chs[ch.userId].next) else old(r.next)
      ensures forall c | c in old(NextOf(ch.userId)) :: c.prev == old(chs[ch.userId].prev)
      ensures forall c | c in old(PrevOf(ch.userId)) :: c.next == old(chs[ch.userId].next)
      ensures old(RoomOf(ch.userId)) == {} ==> rooms == old(rooms)
      ensures old(Valid()) ==> !crashed && Valid() && Abs() == M.Delete(old(Abs()), ch.userId)
      ensures old(Valid()) ==> rooms.Values <= old(rooms.Values)
    {
      hide M.Delete, Abs, DeleteDone, Valid;
      ghost var valid := Valid();
      var userId := ch.userId;
      crashed := false;
      if valid && userId in chs { OwnIsSame(userId); }
      if userId in chs {
        if chs[userId].userId !in chs {
          return true;
        }
        Withdraw(userId);
        if valid {
          DeleteValid(userId);
          DeleteAbs(userId);
        }
      } else if valid {
        NotRegistered(userId);
      }
    }

    lemma OwnIsSame(userId: int)
      requires Valid() && userId in chs
      ensures Own(userId) == userId
    {
      assert UserValid(userId);
    }

    /** The channel registered for a user, or none. */
    method Lookup(userId: int) returns (ch: Channel?)
      requires Valid()
      ensures ch == if userId in Abs().users then Abs().users[userId].ch else null
    {
      ch := if userId in chs then chs[userId] else null;
    }

    /** Hands a request to the next broadcast routine; a full routine makes the caller wait its turn. */
    method BroadcastRoom(r: M.Request)
      requires Valid() && routines != []
      modifies this`routines, this`routinesNum
      ensures Valid() && Abs() == M.Broadcast(old(Abs()), r)
    {
      hide RoomValid, UserValid, Sound, Channel.History;
      routinesNum := (routinesNum + 1) % M.UINT64;
      var num := routinesNum % |routines|;
      routines := routines[num := routines[num] + [r]];
      SameIndex();
      hide Users, Rooms, Carried, Valid;
    }

    /** One turn of routine `i`'s loop: takes a request and pushes it along the room's chain. */
    method PushRoom(i: nat)
      requires Valid() && i < |routines| && routines[i] != []
      modifies this`routines, members`broadcast, members`offered
      ensures Valid() && Abs() == M.Handle(old(Abs()), i)
    {
      hide Offer, Users, Streams, Rooms;
      var arg := routines[i][0];
      routines := routines[i := routines[i][1..]];
      assert Valid();
      hide Linked, Sound, UserValid, Channel.History, Room.Valid;
      PushToRoom(arg);
      hide Valid, RoomValid, M.Known;
      PushEnds(arg);
    }

    /** Pushes along the chain of the request's room, if there is such a room. */
    method PushToRoom(arg: M.Request)
      requires Valid()
      modifies members`broadcast, members`offered
      ensures forall c | c in members ::
        c.History() == if c in old(ChainOf(arg.roomId)) then Offer(old(c.History()), arg.msg) else old(c.History())
    {
      hide Linked, Sound, UserValid, Offer, Room.Valid;
      if arg.roomId in rooms {
        assert RoomValid(arg.roomId);
        rooms[arg.roomId].Push(arg.msg);
      }
    }

    ghost function ChainOf(id: int): seq<Channel>
      reads this, rooms.Values
    {
      if id in rooms then rooms[id].chain else []
    }

    /** Only queues and routines changed, and the queues by one push along a room's chain. */
    twostate predicate PushDone(r: M.Request)
      reads this, rooms.Values, members
    {
      && chs == old(chs) && rooms == old(rooms) && members == old(members) && routinesNum == old(routinesNum)
      && (forall id | id in rooms :: unchanged(rooms[id]))
      && (forall c | c in members ::
            c.next == old(c.next) && c.prev == old(c.prev) && c.room == old(c.room) && c.userId == old(c.userId))
      && (forall c | c in members ::
            c.History() == if c in old(ChainOf(r.roomId)) then Offer(old(c.History()), r.msg) else old(c.History()))
    }

    twostate lemma PushValid(r: M.Request)
      requires old(Valid()) && PushDone(r)
      ensures Valid()
    {
      hide RoomValid, UserValid, Sound, Offer, Channel.History;
      StillValid();
    }

    /** Registrations and chains as before. */
    twostate lemma SameIndex()
      requires old(Valid()) && Valid()
      requires chs == old(chs) && rooms == old(rooms) && members == old(members)
      requires forall id | id in rooms :: rooms[id].chain == old(rooms[id].chain)
      requires forall c | c in members :: c.room == old(c.room)
      ensures Users() == old(Users()) && Rooms() == old(Rooms()) && Carried() == old(Carried())
    {
      hide RoomValid, Sound;
      assert forall id | id in rooms :: Rooms()[id] == old(Rooms())[id];
      forall u | u in chs ensures Entry(chs[u]) == old(Entry(chs[u])) {
        assert old(UserValid(u));
      }
    }

    lemma ChainDistinct(id: int)
      requires Valid()
      ensures M.NoRepeats(ChainOf(id)) && forall c | c in ChainOf(id) :: c in members
      ensures M.Chain(Abs(), id) == ChainOf(id)
    {
      if id in rooms { assert RoomValid(id); }
      hide Sound;
    }

    twostate lemma PushStreams(r: M.Request)
      requires old(Valid()) && PushDone(r) && Valid()
      ensures Streams() == M.OfferAll(old(Streams()), M.Chain(old(Abs()), r.roomId), r.msg)
    {
      hide Linked, Offer, Sound, M.OfferAll, M.Known, Channel.History, RoomValid, UserValid;
      var chain := ChainOf(r.roomId);
      SameIndex();
      ChainDistinct(r.roomId);
      assert chain == old(ChainOf(r.roomId));
      assert M.Chain(old(Abs()), r.roomId) == M.Chain(Abs(), r.roomId);
      assert old(Streams()).Keys == members;
      M.OfferAllOnce(old(Streams()), chain, r.msg);
    }

    twostate lemma PushEnds(r: M.Request)
      requires old(Valid()) && PushDone(r)
      ensures Valid()
      ensures var b := old(Abs());
        Abs() == b.(routines := routines, streams := M.OfferAll(b.streams, M.Chain(b, r.roomId), r.msg))
    {
      hide RoomValid, UserValid, Sound, Channel.History;
      PushValid(r);
      SameIndex();
      PushStreams(r);
      hide Users, Rooms, Streams, Carried;
    }

    /** Looks a user's channel up and pushes a message to it if there is one. */
    method PushTo(userId: int, m: Msg) returns (found: bool)
      requires Valid()
      modifies members`broadcast, members`offered
      ensures Valid() && Abs() == M.PushOne(old(Abs()), userId, m)
      ensures found == (userId in old(Abs()).users)
    {
      var channel := Lookup(userId);
      found := channel != null;
      if channel != null {
        assert UserValid(userId);
        channel.Push(m);
        hide Valid, RoomValid, UserValid, Sound, Offer, Users, Rooms, Streams;
        OnePushed((userId, m));
      }
    }

    /** After a message (`p.1`) was pushed to the channel of a registered user (`p.0`). */
    twostate lemma OnePushed(p: (int, Msg))
      requires old(Valid()) && p.0 in chs && unchanged(this)
      requires forall id | id in rooms :: unchanged(rooms[id])
      requires forall c | c in members ::
        c.next == old(c.next) && c.prev == old(c.prev) && c.room == old(c.room) && c.userId == old(c.userId)
      requires forall c | c in members ::
        c.History() == if c == chs[p.0] then Offer(old(c.History()), p.1) else old(c.History())
      ensures Valid() && Abs() == M.PushOne(old(Abs()), p.0, p.1)
    {
      assert old(UserValid(p.0));
      StillValid();
      SameIndex();
      OnePushedStreams(p);
      hide Users, Rooms, Streams, Carried, RoomValid, UserValid, Sound, Offer;
    }

    /** Links and registrations untouched, every queue changed at most by one push. */
    twostate lemma StillValid()
      requires old(Valid())
      requires chs == old(chs) && rooms == old(rooms) && members == old(members) && routinesNum == old(routinesNum)
      requires forall id | id in rooms :: unchanged(rooms[id])
      requires forall c | c in members ::
        c.next == old(c.next) && c.prev == old(c.prev) && c.room == old(c.room) && c.userId == old(c.userId)
      requires forall c | c in members ::
        c.History() == old(c.History()) || exists m :: c.History() == Offer(old(c.History()), m)
      ensures Valid()
    {
      hide Linked, Offer, Sound;
      forall id | id in rooms ensures RoomValid(id) {
        assert old(RoomValid(id));
        RoomKept(rooms[id]);
      }
      forall u | u in chs ensures UserValid(u) {
        assert old(UserValid(u));
      }
      forall c | c in members ensures Sound(c.History()) {
        if c.History() != old(c.History()) {
          var m :| c.History() == Offer(old(c.History()), m);
          OfferSound(old(c.History()), m);
        }
      }
    }

    twostate lemma OnePushedStreams(p: (int, Msg))
      requires old(Valid()) && Valid() && p.0 in chs && members == old(members) && chs[p.0] in members
      requires forall c | c in members ::
        c.History() == if c == chs[p.0] then Offer(old(c.History()), p.1) else old(c.History())
      ensures Streams() == old(Streams())[chs[p.0] := Offer(old(Streams())[chs[p.0]], p.1)]
    {
      hide RoomValid, UserValid, Sound, Offer, Channel.History;
    }

    lemma Unknown(ch: Channel)
      requires Valid()
      ensures ch !in members ==> M.Idle(Abs(), ch) && M.Forget(Abs(), ch) == Abs()
    {
      hide Sound, Linked;
      if ch !in members { M.ForgetUnknown(Abs(), ch); }
    }

    /** After an idle channel was struck off the bucket's books. */
    twostate lemma Forgot(ch: Channel)
      requires old(Valid()) && M.Idle(old(Abs()), ch)
      requires chs == old(chs) && rooms == old(rooms) && routines == old(routines) && routinesNum == old(routinesNum)
      requires members == old(members) - {ch}
      requires (forall r | r in rooms :: unchanged(rooms[r])) && forall c | c in old(members) :: unchanged(c)
      ensures Valid() && Abs() == M.Forget(old(Abs()), ch)
    {
      hide Linked, Sound, Channel.History;
      assert forall r | r in rooms :: old(Abs()).rooms[r] == rooms[r].chain;
      assert forall u | u in chs :: old(Abs()).users[u].ch == chs[u];
      forall r | r in rooms ensures RoomValid(r) {
        assert old(RoomValid(r));
        RoomKept(rooms[r]);
      }
      forall u | u in chs ensures UserValid(u) {
        assert old(UserValid(u));
      }
      hide RoomValid, UserValid, Room.Valid;
      ForgotMaps(ch);
      hide Valid, M.Idle, Users, Rooms, Streams, Carried;
    }

    twostate lemma ForgotMaps(ch: Channel)
      requires old(Valid()) && Valid() && chs == old(chs) && rooms == old(rooms) && members == old(members) - {ch}
      requires (forall r | r in rooms :: rooms[r].chain == old(rooms[r].chain))
      requires forall c | c in old(members) :: c.room == old(c.room) && c.History() == old(c.History())
      ensures Users() == old(Users()) && Rooms() == old(Rooms())
      ensures Streams() == old(Streams()) - {ch} && Carried() == old(Carried()) - {ch}
    {
      hide Linked, Sound, Channel.History, RoomValid, Room.Valid;
      forall u | u in chs ensures Entry(chs[u]) == old(Entry(chs[u])) {
        assert old(UserValid(u));
      }
      hide UserValid;
      assert forall r | r in rooms :: Rooms()[r] == old(Rooms())[r];
    }

    lemma NotRegistered(userId: int)
      requires Valid() && userId !in chs
      ensures M.Delete(Abs(), userId) == Abs()
    {
    }
  }

  method FirstComes(b: Bucket, c: Channel)
    requires b.Valid() && b.members == {} && b.chs == map[] && b.rooms == map[]
    requires c.room == null && Sound(c.History())
    modifies b, c
    ensures b.Valid() && b.members == {c} && b.chs == map[1 := c] && b.rooms.Keys == {5}
    ensures c.room == b.rooms[5] && fresh(c.room) && c.room.id == 5 && c.room.onlineCount == 1 && c.userId == 1
    ensures c.next == c.prev == null && c.History() == old(c.History())
  {
    hide Linked, Sound, Room.Valid, Channel.History, Bucket.UserValid, Bucket.RoomValid, Bucket.Consistent;
    var err := b.Put(1, 5, c);
    assert [c] + [] == [c];
    assert b.Abs().rooms == map[5 := [c]];
    OneOnChain(b, c);
    assert b.rooms[5] in b.rooms.Values;
  }

  /** A new bucket whose first channel came and went: the room is gone, but the channel carries it. */
  method ComeAndGo(b: Bucket, c: Channel)
    requires b.Valid() && b.members == {} && b.chs == map[] && b.rooms == map[]
    requires c.room == null && Sound(c.History())
    modifies b, c
    ensures b.Valid() && b.members == {c} && b.chs == map[] && b.rooms == map[]
    ensures c.room != null && fresh(c.room) && c.room.id == 5 && c.room.onlineCount == 0 && c.next == c.prev == null
    ensures c.History() == old(c.History())
  {
    hide Linked, Sound, Room.Valid, Channel.History, Bucket.Valid, Bucket.Abs;
    FirstComes(b, c);
    assert b.RoomOf(1) == {c.room} && b.NextOf(1) == {} && b.PrevOf(1) == {};
    var crashed := b.DeleteChannel(c);
  }

  lemma OneOnChain(b: Bucket, c: Channel)
    requires b.Valid() && 5 in b.rooms && b.Abs().rooms == map[5 := [c]]
    ensures b.rooms.Keys == {5} && c.room == b.rooms[5] && b.rooms[5].id == 5 && b.rooms[5].onlineCount == 1
    ensures c.next == c.prev == null
  {
    assert b.RoomValid(5) && b.Abs().rooms[5] == b.rooms[5].chain;
    assert b.rooms[5].chain[0].prev == null && b.rooms[5].chain[0].next == null;
    assert forall r :: r in b.rooms <==> r in b.Abs().rooms;
  }

  /** Then another user takes a seat in a new room with the same id. */
  method AnotherComes(b: Bucket, a: Channel, c: Channel)
    requires b.Valid() && b.members == {} && b.chs == map[] && b.rooms == map[]
    requires a != c && a.room == null && c.room == null && Sound(a.History()) && Sound(c.History())
    modifies b, a, c
    ensures b.Valid() && b.members == {a, c} && b.chs == map[2 := a] && b.rooms.Keys == {5} && fresh(b.rooms[5])
    ensures a.room != null && a.room.id == 5
    ensures c.room != null && fresh(c.room) && c.room.id == 5 && c.room.onlineCount == 0 && c.room != b.rooms[5]
    ensures Sound(c.History()) && c.next == c.prev == null
  {
    hide Linked, Sound, Room.Valid, Channel.History, Bucket.UserValid, Bucket.RoomValid, Bucket.Consistent;
    ComeAndGo(b, c);
    var err := b.Put(2, 5, a);
    assert b.rooms.Keys == b.Abs().rooms.Keys == {5};
    assert b.rooms[5] in b.rooms.Values && fresh(b.rooms[5]);
    assert b.Abs().users[2] == M.Entry(a, 5) == b.Entry(a);
  }

  /** Putting a channel without naming a room only registers it, fitting or not. */
  method PutRoomless(b: Bucket, userId: int, c: Channel)
    requires b.Valid() && Sound(c.History()) && b.Named(c) && c in b.members
    modifies b, b.rooms.Values, b.members`next, b.members`prev, c
    ensures b.chs == old(b.chs)[userId := c] && b.rooms == old(b.rooms) && c.userId == userId
    ensures c.next == old(c.next) && c.prev == old(c.prev) && c.room == old(c.room)
    ensures forall x | x in old(b.members) :: x.room == old(x.room)
  {
    hide Linked, Sound, Room.Valid, Channel.History, Bucket.Valid, Bucket.Abs, Bucket.Consistent, M.PutFits, M.Put;
    var err := b.Put(userId, M.NO_ROOM, c);
  }

  /** A channel that left its room still carries it. Put again without a room, and deleted again, it
      takes the room with the same id out of the index, with everybody in it: `a` stays registered,
      but no broadcast finds it. */
  method StaleSeatDropsRoom(b: Bucket, a: Channel, c: Channel)
    requires b.Valid() && b.members == {} && b.chs == map[] && b.rooms == map[]
    requires a != c && a.room == null && c.room == null && Sound(a.History()) && Sound(c.History())
    modifies b, a, c
    ensures b.chs == map[2 := a] && a.room != null && a.room.id == 5 && b.rooms == map[]
  {
    hide Linked, Sound, Room.Valid, Channel.History, Bucket.Valid, Bucket.Abs;
    AnotherComes(b, a, c);
    PutRoomless(b, 1, c);
    assert b.RoomOf(1) == {c.room} && b.NextOf(1) == {} && b.PrevOf(1) == {};
    var crashed := b.DeleteChannel(c);
  }

  /** A channel no put has seen fits into any room. */
  lemma NewcomerFits(b: Bucket, userId: int, roomId: int, c: Channel)
    requires b.Valid() && c !in b.members && roomId != M.NO_ROOM
    ensures M.PutFits(b.Abs(), userId, roomId, c, b.Entry(c).room)
  {
    b.Unknown(c);
    hide Bucket.Abs, Bucket.Valid;
  }

  /** Two connections, `x` and then `c`, name the same user. */
  method OneName(b: Bucket, x: Channel, c: Channel)
    requires b.Valid() && b.members == {} && b.chs == map[] && b.rooms == map[]
    requires x != c && x.room == null && c.room == null && Sound(x.History()) && Sound(c.History())
    modifies b, x, c
    ensures b.Valid() && b.members == {x, c} && b.chs == map[1 := c] && b.rooms.Keys == {5, 6}
    ensures x.userId == 1 && c.room != null && c.room.id == 6 && Sound(c.History())
    ensures forall r | r in b.rooms.Values :: fresh(r)
  {
    hide Linked, Sound, Room.Valid, Channel.History, Bucket.Consistent, Bucket.Valid, Bucket.Abs, M.PutFits;
    FirstComes(b, x);
    RoomKeys(b);
    assert b.rooms.Values == {b.rooms[5]};
    NewcomerFits(b, 1, 6, c);
    var err := b.Put(1, 6, c);
    RoomKeys(b);
  }

  lemma RoomKeys(b: Bucket)
    requires b.Valid()
    ensures b.Abs().rooms.Keys == b.rooms.Keys
  {
  }

  /** Then the second connection names another user as well. */
  method TwoNames(b: Bucket, x: Channel, c: Channel)
    requires b.Valid() && b.members == {} && b.chs == map[] && b.rooms == map[]
    requires x != c && x.room == null && c.room == null && Sound(x.History()) && Sound(c.History())
    modifies b, x, c
    ensures b.chs == map[1 := c, 2 := c] && x.userId == 1 && c.userId == 2
    ensures c.room != null && fresh(c.room) && c.next == c.prev == null
  {
    hide Linked, Sound, Room.Valid, Channel.History, Bucket.Valid, Bucket.Abs, Bucket.Consistent, M.PutFits;
    OneName(b, x, c);
    var err := b.Put(2, 7, c);
    assert b.rooms[7] in b.rooms.Values;
  }

  /** The first connection ends, and what is deleted is the other user the second is registered for. */
  method EndDeletesAnother(b: Bucket, x: Channel, c: Channel)
    requires b.Valid() && b.members == {} && b.chs == map[] && b.rooms == map[]
    requires x != c && x.room == null && c.room == null && Sound(x.History()) && Sound(c.History())
    modifies b, x, c
    ensures x.userId == 1 && b.chs == map[1 := c]
  {
    hide Linked, Sound, Room.Valid, Channel.History, Bucket.Valid, Bucket.Abs;
    TwoNames(b, x, c);
    var crashed := b.DeleteChannel(x);
  }

  /** The second connection ends, then the first, and the server crashes. */
  method EndCrashes(b: Bucket, x: Channel, c: Channel) returns (crashed: bool)
    requires b.Valid() && b.members == {} && b.chs == map[] && b.rooms == map[]
    requires x != c && x.room == null && c.room == null && Sound(x.History()) && Sound(c.History())
    modifies b, x, c
    ensures crashed
  {
    hide Linked, Sound, Room.Valid, Channel.History, Bucket.Valid, Bucket.Abs;
    TwoNames(b, x, c);
    crashed := b.DeleteChannel(c);
    crashed := b.DeleteChannel(x);
  }

  lemma RestOnChain(r: Room, c: Channel)
    requires r.Valid()
    ensures forall x | x in M.Without(r.chain, c) :: x in r.chain
  {
    M.WithoutMembers(r.chain, c);
  }

  /** A room none of whose links changed is as sound as it was. */
  twostate lemma RoomKept(r: Room)
    requires old(r.Valid()) && unchanged(r)
    requires forall c | c in r.chain :: c.next == old(c.next) && c.prev == old(c.prev)
    ensures r.Valid()
  {
  }
}
