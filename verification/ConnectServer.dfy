/** The connect server: the objects behind the sharded index (connect/server.go, connect/rpc.go). */
module ConnectServer {
  import opened ChannelStream
  import opened ConnectIndex
  import opened Words
  import M = IndexModel
  import S = ServerModel
  import CityHash32
  import Text

  /** No two buckets share an object. */
  ghost predicate Apart(bs: seq<Bucket>)
    reads bs
  {
    forall i, j | 0 <= i < |bs| && 0 <= j < |bs| && i != j :: bs[i].Objects() !! bs[j].Objects()
  }

  /** Every user is in the bucket its hash picks. */
  ghost predicate Owned(bs: seq<Bucket>)
    reads bs
  {
    forall i, u | 0 <= i < |bs| && u in bs[i].chs :: S.Owner(u, |bs|) == i
  }

  ghost function Footprint(bs: seq<Bucket>): (r: set<object>)
    reads bs
    ensures forall i | 0 <= i < |bs| :: bs[i] in r && bs[i].Objects() <= r
  {
    if bs == [] then {}
    else
      var n := |bs| - 1;
      Footprint(bs[..n]) + bs[n].Objects()
  }

  class Server {
    const buckets: seq<Bucket>
    ghost var repr: set<object>

    constructor (b: seq<Bucket>)
      requires b != [] && (forall i | 0 <= i < |b| :: b[i].Valid() && b[i].chs == map[])
      requires Apart(b)
      ensures buckets == b && Valid()
    {
      assert Owned(b);
      hide Bucket.Valid, S.Owner, Apart, Owned, Bucket.Objects;
      buckets := b;
      repr := Footprint(b);
      new;
    }

    ghost predicate Valid()
      reads this, repr
    {
      && buckets != []
      && (forall i | 0 <= i < |buckets| :: buckets[i] in repr && buckets[i].Objects() <= repr && buckets[i].Valid())
      && Apart(buckets)
      && Owned(buckets)
    }

    /** The first `n` buckets as values. */
    ghost function Values(n: nat): (s: S.Server<Channel>)
      requires Valid() && n <= |buckets|
      reads this, repr
      ensures |s| == n && forall i | 0 <= i < n :: s[i] == buckets[i].Abs()
    {
      if n == 0 then [] else Values(n - 1) + [buckets[n - 1].Abs()]
    }

    /** The server as a value. */
    ghost function Abs(): (s: S.Server<Channel>)
      requires Valid()
      reads this, repr
      ensures |s| == |buckets| && forall i | 0 <= i < |buckets| :: s[i] == buckets[i].Abs()
    {
      Values(|buckets|)
    }

    lemma AbsInv()
      requires Valid()
      ensures S.ServerInv(Abs())
    {
      hide Bucket.Valid, S.Owner, M.Inv;
      forall i | 0 <= i < |buckets| ensures M.Inv(buckets[i].Abs()) {
        buckets[i].AbsInv();
      }
    }

    /** The bucket index of a user, as the program computes it. */
    method BucketIndex(userId: int) returns (i: nat)
      requires buckets != []
      ensures i == S.Owner(userId, |buckets|) < |buckets|
    {
      var s := Text.DecimalBytes(userId);
      var h, _ := CityHash32.Compute(s, |s| % 0x1_0000_0000);
      i := h % |buckets|;
    }

    /** One bucket as it was, object for object. */
    twostate predicate Same(j: int)
      requires 0 <= j < |buckets|
      reads buckets[j], buckets[j].Objects()
    {
      old(buckets[j].Valid()) &&
      buckets[j].Objects() == old(buckets[j].Objects()) && buckets[j].chs == old(buckets[j].chs)
      && buckets[j].Valid() && buckets[j].Abs() == old(buckets[j].Abs())
    }

    /** What touches none of the objects of the other buckets leaves them the same. */
    twostate lemma Untouched(i: int)
      requires old(Valid())
      requires forall j, o | 0 <= j < |buckets| && j != i && o in old(buckets[j].Objects()) :: unchanged(o)
      ensures forall j | 0 <= j < |buckets| && j != i :: Same(j)
    {
      forall j | 0 <= j < |buckets| && j != i ensures Same(j) {
        assert forall o | o in old(buckets[j].Objects()) :: unchanged(o);
        assert buckets[j] in old(buckets[j].Objects()) && unchanged(buckets[j]);
      }
    }

    /** Only bucket `i` changed, and what it gained belonged to no other. */
    twostate lemma OneChanged(i: int)
      requires old(Valid()) && 0 <= i < |buckets|
      requires repr == old(repr) + buckets[i].Objects() && buckets[i].Valid()
      requires forall j | 0 <= j < |buckets| && j != i :: Same(j)
      requires forall j | 0 <= j < |buckets| && j != i :: buckets[i].Objects() !! old(buckets[j].Objects())
      requires forall u | u in buckets[i].chs :: S.Owner(u, |buckets|) == i
      ensures Valid() && Abs() == old(Abs())[i := buckets[i].Abs()]
    {
      hide Bucket.Valid, S.Owner, Bucket.Abs, Bucket.Objects;
      assert old(Apart(buckets)) && old(Owned(buckets));
      assert Apart(buckets) by {
        forall j, k | 0 <= j < |buckets| && 0 <= k < |buckets| && j != k
          ensures buckets[j].Objects() !! buckets[k].Objects()
        {
          assert j != i ==> Same(j);
          assert k != i ==> Same(k);
          assert old(buckets[j].Objects()) !! old(buckets[k].Objects());
        }
      }
      assert Owned(buckets) by {
        forall j, u | 0 <= j < |buckets| && u in buckets[j].chs ensures S.Owner(u, |buckets|) == j {
          assert j != i ==> Same(j);
        }
      }
      forall j | 0 <= j < |buckets|
        ensures buckets[j] in repr && buckets[j].Objects() <= repr && buckets[j].Valid()
        ensures j != i ==> buckets[j].Abs() == old(buckets[j].Abs())
      {
        assert j != i ==> Same(j);
      }
    }

    /** Strikes a channel that is idle everywhere else off all books but bucket `o`'s. */
    ghost method ForgetElsewhere(o: nat, ch: Channel)
      requires Valid() && o < |buckets| && forall j | 0 <= j < |buckets| && j != o :: M.Idle(Abs()[j], ch)
      modifies buckets`members
      ensures Valid() && Abs() == S.Forgotten(old(Abs()), o, ch) && repr == old(repr)
      ensures forall j | 0 <= j < |buckets| && j != o :: ch !in buckets[j].members
    {
      hide Bucket.Valid, Bucket.Abs, S.Owner, M.Idle, M.Forget;
      ghost var before: S.Server<Channel> := Abs();
      assert old(Owned(buckets)) && old(Apart(buckets));
      forall j | 0 <= j < |buckets| && ch !in buckets[j].members ensures M.Forget(before[j], ch) == before[j] {
        buckets[j].Unknown(ch);
      }
      if k: nat :| k < |buckets| && k != o && ch in buckets[k].members {
        forall j | 0 <= j < |buckets| && j != k ensures ch !in buckets[j].members {
          assert buckets[j].Objects() !! buckets[k].Objects();
        }
        Strike(k, buckets[k], ch);
      }
    }

    ghost method Strike(k: nat, b: Bucket, ch: Channel)
      requires Valid() && k < |buckets| && b == buckets[k] && M.Idle(Abs()[k], ch)
      modifies b`members
      ensures Valid() && Abs() == old(Abs())[k := M.Forget(old(Abs())[k], ch)] && repr == old(repr)
      ensures b.members == old(b.members) - {ch}
    {
      hide Bucket.Valid, Bucket.Abs, S.Owner, M.Idle, M.Forget;
      assert old(Owned(buckets)) && old(Apart(buckets));
      b.members := b.members - {ch};
      b.Forgot(ch);
      assert repr == old(repr) + b.Objects();
      OneChanged(k);
    }

    /** No bucket but `i` knows the channel. */
    ghost predicate Alone(i: nat, ch: Channel)
      reads buckets
    {
      forall j | 0 <= j < |buckets| && j != i :: ch !in buckets[j].members
    }

    /** Puts a channel into the bucket that owns the user. */
    method PutInto(i: nat, b: Bucket, userId: int, roomId: int, ch: Channel) returns (err: bool)
      requires Valid() && i < |buckets| && b == buckets[i] && S.Owner(userId, |buckets|) == i
      requires Sound(ch.History()) && b.Named(ch)
      modifies this`repr, repr, ch
      ensures !err && fresh(repr - old(repr) - {ch})
      ensures var was := old(b.Entry(ch)).room;
        if M.PutFits(old(Abs())[i], userId, roomId, ch, was) && old(Alone(i, ch))
        then Valid() && Abs() == old(Abs())[i := M.Put(old(Abs())[i], userId, roomId, ch, old(ch.History()), was)]
        else !Valid()
    {
      hide Bucket.Valid, Sound, S.Owner, M.Put, Bucket.Abs, M.PutFits, Bucket.Consistent, Bucket.PutLinks, Bucket.Entry, Channel.History;
      ghost var fits := M.PutFits(b.Abs(), userId, roomId, ch, b.Entry(ch).room);
      assert Owned(buckets) && Apart(buckets);
      err := b.Put(userId, roomId, ch);
      repr := repr + b.Objects();
      if old(Alone(i, ch)) {
        if fits {
          Untouched(i);
          OneChanged(i);
        }
      } else {
        NotApart(i, ch);
      }
    }

    lemma IdleIfAlone(i: nat, ch: Channel)
      requires Valid() && Alone(i, ch)
      ensures forall j | 0 <= j < |buckets| && j != i :: M.Idle(Abs()[j], ch)
    {
      hide Bucket.Valid, Bucket.Abs, M.Idle, M.Forget;
      forall j | 0 <= j < |buckets| && j != i ensures M.Idle(Abs()[j], ch) {
        buckets[j].Unknown(ch);
      }
    }

    lemma NotApart(i: nat, ch: Channel)
      requires i < |buckets| && ch in buckets[i].members && !Alone(i, ch)
      ensures !Apart(buckets)
    {
      var j :| 0 <= j < |buckets| && j != i && ch in buckets[j].members;
      assert ch in buckets[i].Objects() && ch in buckets[j].Objects();
      assert !(buckets[i].Objects() !! buckets[j].Objects());
    }

    /** What a put by the user's bucket will find: if the put fits the server, the channel is struck off
        the other buckets' books first; if not, the owner or another bucket objects. */
    ghost method Prepare(i: nat, userId: int, roomId: int, ch: Channel, was: int)
      requires Valid() && i < |buckets| && S.Owner(userId, |buckets|) == i
      modifies buckets`members
      ensures Valid() && repr == old(repr)
      ensures S.ServerFits(old(Abs()), userId, roomId, ch, was) <==> M.PutFits(Abs()[i], userId, roomId, ch, was) && Alone(i, ch)
      ensures S.ServerFits(old(Abs()), userId, roomId, ch, was) ==> Abs() == S.Forgotten(old(Abs()), i, ch)
    {
      hide Bucket.Valid, S.Owner, Bucket.Abs, M.PutFits, M.Idle, M.Forget;
      if S.ServerFits(Abs(), userId, roomId, ch, was) {
        ForgetElsewhere(i, ch);
      } else if Alone(i, ch) {
        IdleIfAlone(i, ch);
      }
    }

    /** Puts a channel, known to some bucket or new. A put that fits is the machine's put; after one that
        does not, the server is not valid. */
    method Put(userId: int, roomId: int, ch: Channel) returns (err: bool)
      requires Valid() && Sound(ch.History()) && buckets[0].Named(ch)
      modifies this`repr, repr, ch
      ensures !err && fresh(repr - old(repr) - {ch})
      ensures var s, was := old(Abs()), old(buckets[0].Entry(ch)).room;
        if S.ServerFits(s, userId, roomId, ch, was)
        then Valid() && Abs() == S.ServerPut(s, userId, roomId, ch, old(ch.History()), was)
        else !Valid()
    {
      hide Bucket.Valid, Sound, S.Owner, M.Put, Bucket.Abs, M.PutFits, S.ServerFits, M.Forget, Channel.History, Abs, Alone;
      assert forall j | 0 <= j < |buckets| :: buckets[j] in repr;
      hide Valid;
      ghost var was := buckets[0].Entry(ch).room;
      var i := BucketIndex(userId);
      Prepare(i, userId, roomId, ch, was);
      err := PutInto(i, buckets[i], userId, roomId, ch);
    }

    /** Takes out whatever channel is registered under the id `ch` carries. */
    method DeleteChannel(ch: Channel)
      requires Valid()
      modifies repr
      ensures Valid() && repr == old(repr)
      ensures var o := S.Owner(ch.userId, |buckets|); Abs() == old(Abs())[o := M.Delete(old(Abs())[o], ch.userId)]
    {
      hide Bucket.Valid, S.Owner, M.Delete, Bucket.Abs, Abs;
      var i := BucketIndex(ch.userId);
      DeleteIn(i, buckets[i], ch);
    }

    method DeleteIn(i: nat, b: Bucket, ch: Channel)
      requires Valid() && i < |buckets| && b == buckets[i]
      modifies b, b.rooms.Values, b.members`next, b.members`prev
      ensures Valid() && repr == old(repr)
      ensures Abs() == old(Abs())[i := M.Delete(old(Abs())[i], ch.userId)]
    {
      hide Bucket.Valid, S.Owner, M.Delete, Bucket.Abs;
      assert Owned(buckets) && Apart(buckets);
      b.NeighboursKnown(ch.userId);
      var crashed := b.DeleteChannel(ch);
      assert repr == old(repr) + b.Objects();
      Untouched(i);
      hide Bucket.RoomOf, Bucket.NextOf, Bucket.PrevOf, Apart;
      OneChanged(i);
    }

    /** Pushes to the channel the user's bucket knows; answers the caller only if there is none. */
    method PushSingleMsg(userId: int, m: Msg) returns (answered: bool)
      requires Valid()
      modifies repr
      ensures Valid() && repr == old(repr)
      ensures answered == (userId !in old(Abs())[S.Owner(userId, |buckets|)].users)
      ensures var o := S.Owner(userId, |buckets|); Abs() == old(Abs())[o := M.PushOne(old(Abs())[o], userId, m)]
    {
      hide S.Owner, Bucket.Valid, Bucket.Abs, M.PushOne;
      var i := BucketIndex(userId);
      assert old(Owned(buckets));
      assert old(Apart(buckets));
      var found := buckets[i].PushTo(userId, m);
      answered := !found;
      assert repr == old(repr) + buckets[i].Objects();
      Untouched(i);
      OneChanged(i);
    }

    method BroadcastAt(k: nat, b: Bucket, r: M.Request)
      requires Valid() && k < |buckets| && b == buckets[k] && Abs()[k].routines != []
      modifies b`routines, b`routinesNum
      ensures Valid() && repr == old(repr)
      ensures Abs() == old(Abs())[k := M.Broadcast(old(Abs())[k], r)]
    {
      assert b.routines != [];
      hide Bucket.Valid, Bucket.Abs, M.Broadcast, S.Owner, Abs;
      assert Owned(buckets);
      b.BroadcastRoom(r);
      OneChanged(k);
    }

    /** Hands a room request to every bucket. */
    method PushRoomMsg(r: M.Request)
      requires Valid() && forall i | 0 <= i < |buckets| :: Abs()[i].routines != []
      modifies buckets`routines, buckets`routinesNum
      ensures Valid() && repr == old(repr)
      ensures Abs() == S.BroadcastAll(old(Abs()), r)
    {
      hide Valid, Abs, M.Broadcast;
      ghost var before: S.Server<Channel> := Abs();
      for k := 0 to |buckets|
        invariant Valid() && repr == old(repr)
        invariant forall i | 0 <= i < k :: Abs()[i] == M.Broadcast(before[i], r)
        invariant forall i | k <= i < |buckets| :: Abs()[i] == before[i]
      {
        BroadcastAt(k, buckets[k], r);
      }
    }
  }
}
