/** The registry of resident rooms and their routable sockets, as far as the
    drain needs it (host/runtime.js: get, roomsInBucket, closeRoom, maybeEvict). */
module Runtimes {
  import opened Wrappers
  import opened Sequences

  /** The bucket of a room name; the runtime only needs that there is one. */
  type BucketFn = string -> Option<int>

  /** Resident rooms in insertion order, with the sockets of each. */
  datatype Rooms = Rooms(order: seq<string>, sockets: map<string, set<int>>) {
    ghost predicate Wf() {
      Distinct(order) && forall r :: r in order <==> r in sockets
    }

    predicate IsLive(r: string) {
      r in sockets && sockets[r] != {}
    }
  }

  /** The rooms of a list that hash into a bucket, in order. */
  function InBucket(f: BucketFn, rooms: seq<string>, bucket: int): seq<string> {
    if rooms == [] then []
    else if f(rooms[0]) == Some(bucket) then [rooms[0]] + InBucket(f, rooms[1..], bucket)
    else InBucket(f, rooms[1..], bucket)
  }

  function LiveOf(order: seq<string>, rs: Rooms): seq<string> {
    if order == [] then []
    else if rs.IsLive(order[0]) then [order[0]] + LiveOf(order[1..], rs)
    else LiveOf(order[1..], rs)
  }

  /** Rooms with at least one socket, in insertion order. */
  function LiveRooms(rs: Rooms): seq<string> {
    LiveOf(rs.order, rs)
  }

  lemma {:induction false} InBucketMembers(f: BucketFn, rooms: seq<string>, bucket: int)
    ensures forall r :: r in InBucket(f, rooms, bucket) <==> r in rooms && f(r) == Some(bucket)
  {
    if rooms != [] {
      InBucketMembers(f, rooms[1..], bucket);
      assert rooms == [rooms[0]] + rooms[1..];
    }
  }

  lemma {:induction false} LiveMembers(order: seq<string>, rs: Rooms)
    ensures forall r :: r in LiveOf(order, rs) <==> r in order && rs.IsLive(r)
  {
    if order != [] {
      LiveMembers(order[1..], rs);
      assert order == [order[0]] + order[1..];
    }
  }

  /** Every socket of the listed rooms is closed; the rooms stay resident. */
  function ClosedAll(rs: Rooms, gone: seq<string>): Rooms {
    rs.(sockets := map r | r in rs.sockets :: if r in gone then {} else rs.sockets[r])
  }

  /** A socket is accepted into a room, which becomes resident if it was not. */
  function Accepted1(rs: Rooms, room: string, socket: int): Rooms {
    Rooms(if room in rs.sockets then rs.order else rs.order + [room],
          rs.sockets[room := (if room in rs.sockets then rs.sockets[room] else {}) + {socket}])
  }

  function Closed1(rs: Rooms, room: string, socket: int): Rooms {
    if room in rs.sockets then rs.(sockets := rs.sockets[room := rs.sockets[room] - {socket}]) else rs
  }

  /** A room without sockets leaves the registry. */
  function Dropped(rs: Rooms, room: string): Rooms {
    if room in rs.sockets && rs.sockets[room] == {} then Rooms(Without(rs.order, [room]), rs.sockets - {room}) else rs
  }

  lemma {:induction false} LiveOfClosed(order: seq<string>, rs: Rooms, gone: seq<string>)
    requires forall r :: r in order ==> r in rs.sockets
    ensures LiveOf(order, ClosedAll(rs, gone)) == Without(LiveOf(order, rs), gone)
  {
    if order != [] {
      LiveOfClosed(order[1..], rs, gone);
    }
  }

  lemma {:induction false} LiveOfDistinct(order: seq<string>, rs: Rooms)
    requires Distinct(order)
    ensures Distinct(LiveOf(order, rs))
  {
    if order != [] {
      LiveOfDistinct(order[1..], rs);
      LiveMembers(order[1..], rs);
      assert ([order[0]] + LiveOf(order[1..], rs))[1..] == LiveOf(order[1..], rs);
    }
  }

  lemma LiveInBucketStep(f: BucketFn, order: seq<string>, rs: Rooms, bucket: int)
    requires order != []
    ensures InBucket(f, LiveOf(order, rs), bucket)
            == (if rs.IsLive(order[0]) && f(order[0]) == Some(bucket) then [order[0]] else [])
               + InBucket(f, LiveOf(order[1..], rs), bucket)
  {
  }

  class Runtime {
    const bucketOf: BucketFn
    var order: seq<string>
    var sockets: map<string, set<int>>

    ghost function State(): Rooms
      reads this
    {
      Rooms(order, sockets)
    }

    constructor (bucketOf: BucketFn)
      ensures State() == Rooms([], map[]) && this.bucketOf == bucketOf
    {
      this.bucketOf := bucketOf;
      order := [];
      sockets := map[];
    }

    /** get, then acceptWebSocket. */
    method Accept(room: string, socket: int)
      modifies this
      ensures State() == Accepted1(old(State()), room, socket)
    {
      if room !in sockets {
        order := order + [room];
        sockets := sockets[room := {}];
      }
      ghost var here := sockets[room];
      sockets := sockets[room := sockets[room] + {socket}];
      assert sockets == old(sockets)[room := here + {socket}];
    }

    /** The close event of one socket, with the registry check it ends in. */
    method SocketClosed(room: string, socket: int)
      modifies this
      ensures State() == Dropped(Closed1(old(State()), room, socket), room)
    {
      if room in sockets {
        sockets := sockets[room := sockets[room] - {socket}];
        if sockets[room] == {} {
          order := Without(order, [room]);
          sockets := sockets - {room};
        }
      }
    }

    method RoomsInBucket(bucket: int) returns (out: seq<string>)
      requires State().Wf()
      ensures out == InBucket(bucketOf, LiveRooms(State()), bucket)
    {
      out := [];
      ghost var rs := State();
      var rest := order;
      while rest != []
        invariant forall r :: r in rest ==> r in sockets
        invariant out + InBucket(bucketOf, LiveOf(rest, rs), bucket) == InBucket(bucketOf, LiveRooms(rs), bucket)
        decreases |rest|
      {
        var r := rest[0];
        assert r in rest;
        LiveInBucketStep(bucketOf, rest, rs, bucket);
        if sockets[r] != {} && bucketOf(r) == Some(bucket) {
          out := out + [r];
        }
        rest := rest[1..];
      }
    }

    /** Close every socket of a room together. */
    method CloseRoom(room: string) returns (closed: nat)
      modifies this`sockets
      ensures State() == ClosedAll(old(State()), [room])
      ensures closed == if room in old(sockets) then |old(sockets)[room]| else 0
    {
      if room !in sockets {
        return 0;
      }
      var snapshot := sockets[room];
      closed := |snapshot|;
      var todo := snapshot;
      while todo != {}
        invariant todo <= snapshot
        invariant sockets == old(sockets)[room := todo]
        decreases todo
      {
        SomeMember(todo);
        var ws :| ws in todo;
        sockets := sockets[room := sockets[room] - {ws}];
        todo := todo - {ws};
      }
    }
  }
}
