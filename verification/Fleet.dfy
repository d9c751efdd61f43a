/** The fleet: hosts that poll a published shard map through a cache, and the
    timing argument that makes draining safe (src/sharding/params.js, and the
    orderings behind host/server.js and src/sharding/drainScheduler.js).

    The assumptions about the outside world are the guards of the steps: the
    cache serves a version no more than `ttl` behind (`MayServe`), and time does not
    pass a host's next good poll by more than `poll` (`Enabled` of `Advance`). */
module Fleets {
  import opened Wrappers
  import opened ShardMaps
  import opened OwnedSets
  import opened ShardMapStores
  import opened Runtimes
  import opened Drain
  import DrainProofs
  import opened Hosts

  datatype Publication = Publication(m: ShardMap, at: int)

  datatype Member = Member(state: HostState, hist: History, lastPoll: int) {
    function Version(): int {
      state.store.Version()
    }
  }

  datatype Fleet = Fleet(now: int, published: seq<Publication>, hosts: map<string, Member>)

  datatype Timing = Timing(ttl: nat, poll: int, conf: Config)

  ghost predicate SafeTiming(tm: Timing) {
    ValidateParams(tm.ttl, tm.poll, tm.conf.drainDelay, tm.conf.rate).None?
  }

  datatype Move =
    | Advance(dt: nat)
    | Publish(m: ShardMap)
    | Boot(host: string, k: nat, acq: seq<int>)
    | GoodPoll(host: string, k: nat, rel: seq<int>, acq: seq<int>)
    | BadPoll(host: string, o: FetchOutcome)
    | Room(host: string, e: Event)
    | DrainTick(host: string)

  /** A fetch ending now returns publication `k`: nothing published more than
      `ttl` ago may be newer. */
  ghost predicate MayServe(fl: Fleet, tm: Timing, k: nat) {
    && k < |fl.published|
    && forall j :: 0 <= j < |fl.published| && fl.published[j].at + tm.ttl < fl.now ==>
         fl.published[j].m.version <= fl.published[k].m.version
  }

  /** A host that has just started, with the map of its first good poll. */
  ghost function Started(fl: Fleet, f: BucketFn, tm: Timing, host: string, k: nat, acq: seq<int>): Member
    requires k < |fl.published|
  {
    var e := Poll(Parsed(fl.published[k].m), fl.now, [], acq);
    Member(Next(f, tm.conf, host, Booted(fl.now), e).0,
           Remember(History(map[], map[]), Booted(fl.now), host, e), fl.now)
  }

  ghost function Stepped(f: BucketFn, tm: Timing, host: string, mem: Member, e: Event, lastPoll: int): Member {
    Member(Next(f, tm.conf, host, mem.state, e).0, Remember(mem.hist, mem.state, host, e), lastPoll)
  }

  ghost predicate Enabled(fl: Fleet, f: BucketFn, tm: Timing, mv: Move) {
    match mv
    case Advance(dt) => forall h :: h in fl.hosts ==> fl.now + dt <= fl.hosts[h].lastPoll + tm.poll
    case Publish(m) =>
      Accepted(m) && forall j :: 0 <= j < |fl.published| ==> fl.published[j].m.version < m.version
    case Boot(host, k, acq) =>
      MayServe(fl, tm, k) && Legal(Booted(fl.now), host, Poll(Parsed(fl.published[k].m), fl.now, [], acq))
    case GoodPoll(host, k, rel, acq) =>
      && host in fl.hosts && MayServe(fl, tm, k)
      && Legal(fl.hosts[host].state, host, Poll(Parsed(fl.published[k].m), fl.now, rel, acq))
    case BadPoll(host, o) => host in fl.hosts && !Good(o)
    case Room(host, e) => host in fl.hosts && (e.Upgrade? || e.Close?)
    case DrainTick(host) => host in fl.hosts
  }

  ghost function Moved(fl: Fleet, f: BucketFn, tm: Timing, mv: Move): Fleet
    requires Enabled(fl, f, tm, mv)
  {
    match mv
    case Advance(dt) => fl.(now := fl.now + dt)
    case Publish(m) => fl.(published := fl.published + [Publication(m, fl.now)])
    case Boot(host, k, acq) => fl.(hosts := fl.hosts[host := Started(fl, f, tm, host, k, acq)])
    case GoodPoll(host, k, rel, acq) =>
      var e := Poll(Parsed(fl.published[k].m), fl.now, rel, acq);
      fl.(hosts := fl.hosts[host := Stepped(f, tm, host, fl.hosts[host], e, fl.now)])
    case BadPoll(host, o) =>
      var e := Poll(o, fl.now, [], []);
      fl.(hosts := fl.hosts[host := Stepped(f, tm, host, fl.hosts[host], e, fl.hosts[host].lastPoll)])
    case Room(host, e) =>
      fl.(hosts := fl.hosts[host := Stepped(f, tm, host, fl.hosts[host], e, fl.hosts[host].lastPoll)])
    case DrainTick(host) =>
      fl.(hosts := fl.hosts[host := Stepped(f, tm, host, fl.hosts[host], Tick(fl.now), fl.hosts[host].lastPoll)])
  }

  /** The rooms a host would evict if its drain ticked now. */
  ghost function EvictedNow(fl: Fleet, f: BucketFn, tm: Timing, host: string): seq<string>
    requires host in fl.hosts
  {
    Next(f, tm.conf, host, fl.hosts[host].state, Tick(fl.now)).1
  }

  // ------------------------------------------------------------ invariant

  ghost predicate Published(fl: Fleet, m: ShardMap) {
    exists j :: 0 <= j < |fl.published| && fl.published[j].m == m
  }

  /** An episode was begun by adopting a version already published by then. */
  ghost predicate BegunByPublished(fl: Fleet, mem: Member, b: int) {
    && b in mem.hist.begunBy && b in mem.hist.relinquishedAt
    && mem.hist.begunBy[b] <= mem.Version()
    && exists j :: 0 <= j < |fl.published| && fl.published[j].m.version == mem.hist.begunBy[b]
                   && fl.published[j].at <= mem.hist.relinquishedAt[b]
  }

  ghost predicate MemberInv(fl: Fleet, f: BucketFn, tm: Timing, host: string, mem: Member) {
    && Inv(f, tm.conf, mem.state, mem.hist)
    && mem.state.store.held.Some? && Published(fl, mem.state.store.held.value)
    && mem.state.store.owned == OwnedOf(mem.state.store.held.value.ranges, host)
    && mem.lastPoll <= fl.now <= mem.lastPoll + tm.poll
    // Anything published more than `ttl` before the last good poll has been adopted.
    && (forall j :: 0 <= j < |fl.published| && fl.published[j].at + tm.ttl < mem.lastPoll ==>
          fl.published[j].m.version <= mem.Version())
    && (forall b :: b in mem.state.sched.eps ==> BegunByPublished(fl, mem, b))
  }

  ghost predicate FleetInv(fl: Fleet, f: BucketFn, tm: Timing) {
    && (forall i :: 0 <= i < |fl.published| ==> Accepted(fl.published[i].m) && fl.published[i].at <= fl.now)
    && (forall i, j :: 0 <= i < j < |fl.published| ==> fl.published[i].m.version < fl.published[j].m.version)
    && (forall h :: h in fl.hosts ==> MemberInv(fl, f, tm, h, fl.hosts[h]))
  }

  lemma {:induction false} PublishKeepsMember(fl: Fleet, fl1: Fleet, f: BucketFn, tm: Timing, m: ShardMap, host: string, mem: Member)
    requires MemberInv(fl, f, tm, host, mem)
    requires fl1 == fl.(published := fl.published + [Publication(m, fl.now)])
    ensures MemberInv(fl1, f, tm, host, mem)
  {
    var n := |fl.published|;
    assert forall j :: 0 <= j < n ==> fl1.published[j] == fl.published[j];
    assert Published(fl1, mem.state.store.held.value) by {
      var j :| 0 <= j < n && fl.published[j].m == mem.state.store.held.value;
      assert fl1.published[j].m == mem.state.store.held.value;
    }
    forall b | b in mem.state.sched.eps
      ensures BegunByPublished(fl1, mem, b)
    {
      assert BegunByPublished(fl, mem, b);
      var j :| 0 <= j < n && fl.published[j].m.version == mem.hist.begunBy[b] && fl.published[j].at <= mem.hist.relinquishedAt[b];
      assert fl1.published[j].m.version == mem.hist.begunBy[b];
    }
  }

  /** A good poll, from any state in which the host had seen what it should. */
  lemma {:induction false} PollKeepsMember(fl: Fleet, f: BucketFn, tm: Timing, host: string, mem: Member, k: nat, rel: seq<int>, acq: seq<int>)
    requires MayServe(fl, tm, k) && Accepted(fl.published[k].m) && fl.published[k].at <= fl.now && tm.poll >= 0
    requires Inv(f, tm.conf, mem.state, mem.hist)
    requires mem.state.store.held.Some? ==>
               Published(fl, mem.state.store.held.value)
               && mem.state.store.owned == OwnedOf(mem.state.store.held.value.ranges, host)
    requires forall b :: b in mem.state.sched.eps ==> BegunByPublished(fl, mem, b)
    requires Legal(mem.state, host, Poll(Parsed(fl.published[k].m), fl.now, rel, acq))
    ensures MemberInv(fl, f, tm, host, Stepped(f, tm, host, mem, Poll(Parsed(fl.published[k].m), fl.now, rel, acq), fl.now))
  {
    var m := fl.published[k].m;
    var e := Poll(Parsed(m), fl.now, rel, acq);
    var mem1 := Stepped(f, tm, host, mem, e, fl.now);
    PollKeepsInv(f, tm.conf, host, mem.state, mem.hist, e);
    PollDoes(f, tm.conf, host, mem.state, e);
    assert Published(fl, m);
    assert mem1.Version() >= mem.Version() && mem1.Version() >= m.version;
    forall b | b in mem1.state.sched.eps
      ensures BegunByPublished(fl, mem1, b)
    {
      if b in rel {
        assert fl.published[k].m.version == mem1.hist.begunBy[b];
      } else {
        assert BegunByPublished(fl, mem, b);
      }
    }
  }

  /** Events that leave the store alone. */
  lemma QuietKeepsMember(fl: Fleet, f: BucketFn, tm: Timing, host: string, mem: Member, e: Event)
    requires MemberInv(fl, f, tm, host, mem) && Legal(mem.state, host, e)
    requires e.Poll? ==> !Good(e.o)
    ensures MemberInv(fl, f, tm, host, Stepped(f, tm, host, mem, e, mem.lastPoll))
  {
    var mem1 := Stepped(f, tm, host, mem, e, mem.lastPoll);
    EventKeepsInv(f, tm.conf, host, mem.state, mem.hist, e);
    EpisodesOnlyEnd(f, tm, host, mem.state, e);
    forall b | b in mem1.state.sched.eps
      ensures BegunByPublished(fl, mem1, b)
    {
      assert BegunByPublished(fl, mem, b);
    }
  }

  lemma EpisodesOnlyEnd(f: BucketFn, tm: Timing, host: string, h: HostState, e: Event)
    requires h.sched.Wf() && Legal(h, host, e) && (e.Poll? ==> !Good(e.o))
    ensures forall b :: b in Next(f, tm.conf, host, h, e).0.sched.eps ==> b in h.sched.eps
  {
    match e
    case Poll(_, _, _, _) => PollDoes(f, tm.conf, host, h, e);
    case Tick(t) => DrainProofs.RanDoes(f, h.sched, tm.conf, t, LiveRooms(h.rooms));
    case Upgrade(_, _) =>
    case Close(_, _) =>
  }

  lemma MoveKeepsInv(fl: Fleet, f: BucketFn, tm: Timing, mv: Move)
    requires FleetInv(fl, f, tm) && Enabled(fl, f, tm, mv) && SafeTiming(tm)
    ensures FleetInv(Moved(fl, f, tm, mv), f, tm)
  {
    match mv
    case Advance(_) => BoardMoveKeepsInv(fl, f, tm, mv);
    case Publish(_) => BoardMoveKeepsInv(fl, f, tm, mv);
    case Boot(_, _, _) => BootKeepsInv(fl, f, tm, mv);
    case GoodPoll(_, _, _, _) => GoodPollKeepsInv(fl, f, tm, mv);
    case _ => QuietMoveKeepsInv(fl, f, tm, mv);
  }

  lemma BoardMoveKeepsInv(fl: Fleet, f: BucketFn, tm: Timing, mv: Move)
    requires FleetInv(fl, f, tm) && Enabled(fl, f, tm, mv) && (mv.Advance? || mv.Publish?)
    ensures FleetInv(Moved(fl, f, tm, mv), f, tm)
  {
    var fl1 := Moved(fl, f, tm, mv);
    forall h | h in fl1.hosts
      ensures MemberInv(fl1, f, tm, h, fl1.hosts[h])
    {
      if mv.Advance? {
        SameBoard(fl, fl1, f, tm, h, fl.hosts[h]);
      } else {
        PublishKeepsMember(fl, fl1, f, tm, mv.m, h, fl.hosts[h]);
      }
    }
  }

  lemma BootKeepsInv(fl: Fleet, f: BucketFn, tm: Timing, mv: Move)
    requires FleetInv(fl, f, tm) && Enabled(fl, f, tm, mv) && mv.Boot? && SafeTiming(tm)
    ensures FleetInv(Moved(fl, f, tm, mv), f, tm)
  {
    PollKeepsMember(fl, f, tm, mv.host, Member(Booted(fl.now), History(map[], map[]), fl.now), mv.k, [], mv.acq);
    OthersKeep(fl, Moved(fl, f, tm, mv), f, tm, mv.host);
  }

  lemma GoodPollKeepsInv(fl: Fleet, f: BucketFn, tm: Timing, mv: Move)
    requires FleetInv(fl, f, tm) && Enabled(fl, f, tm, mv) && mv.GoodPoll? && SafeTiming(tm)
    ensures FleetInv(Moved(fl, f, tm, mv), f, tm)
  {
    PollKeepsMember(fl, f, tm, mv.host, fl.hosts[mv.host], mv.k, mv.rel, mv.acq);
    OthersKeep(fl, Moved(fl, f, tm, mv), f, tm, mv.host);
  }

  lemma QuietMoveKeepsInv(fl: Fleet, f: BucketFn, tm: Timing, mv: Move)
    requires FleetInv(fl, f, tm) && Enabled(fl, f, tm, mv)
    requires mv.BadPoll? || mv.Room? || mv.DrainTick?
    ensures FleetInv(Moved(fl, f, tm, mv), f, tm)
  {
    match mv
    case BadPoll(host, o) => QuietEventKeepsInv(fl, f, tm, host, Poll(o, fl.now, [], []));
    case Room(host, e) => QuietEventKeepsInv(fl, f, tm, host, e);
    case DrainTick(host) => QuietEventKeepsInv(fl, f, tm, host, Tick(fl.now));
  }

  lemma QuietEventKeepsInv(fl: Fleet, f: BucketFn, tm: Timing, host: string, e: Event)
    requires FleetInv(fl, f, tm) && host in fl.hosts && Legal(fl.hosts[host].state, host, e)
    requires e.Poll? ==> !Good(e.o)
    ensures var mem := fl.hosts[host];
            FleetInv(fl.(hosts := fl.hosts[host := Stepped(f, tm, host, mem, e, mem.lastPoll)]), f, tm)
  {
    var mem := fl.hosts[host];
    QuietKeepsMember(fl, f, tm, host, mem, e);
    OthersKeep(fl, fl.(hosts := fl.hosts[host := Stepped(f, tm, host, mem, e, mem.lastPoll)]), f, tm, host);
  }

  lemma SameBoard(fl: Fleet, fl1: Fleet, f: BucketFn, tm: Timing, host: string, mem: Member)
    requires MemberInv(fl, f, tm, host, mem) && fl1.published == fl.published
    requires mem.lastPoll <= fl1.now <= mem.lastPoll + tm.poll
    ensures MemberInv(fl1, f, tm, host, mem)
  {
  }

  lemma OthersKeep(fl: Fleet, fl1: Fleet, f: BucketFn, tm: Timing, host: string)
    requires FleetInv(fl, f, tm)
    requires fl1.published == fl.published && fl1.now == fl.now
    requires host in fl1.hosts && MemberInv(fl, f, tm, host, fl1.hosts[host])
    requires forall h :: h in fl1.hosts && h != host ==> h in fl.hosts && fl1.hosts[h] == fl.hosts[h]
    ensures FleetInv(fl1, f, tm)
  {
    forall h | h in fl1.hosts
      ensures MemberInv(fl1, f, tm, h, fl1.hosts[h])
    {
      SameBoard(fl, fl1, f, tm, h, fl1.hosts[h]);
    }
  }

  // ----------------------------------------------------------------- runs

  ghost predicate LegalMoves(fl: Fleet, f: BucketFn, tm: Timing, mvs: seq<Move>)
    decreases |mvs|
  {
    mvs == [] || (Enabled(fl, f, tm, mvs[0]) && LegalMoves(Moved(fl, f, tm, mvs[0]), f, tm, mvs[1..]))
  }

  ghost function AfterMoves(fl: Fleet, f: BucketFn, tm: Timing, mvs: seq<Move>): Fleet
    requires LegalMoves(fl, f, tm, mvs)
    decreases |mvs|
  {
    if mvs == [] then fl else AfterMoves(Moved(fl, f, tm, mvs[0]), f, tm, mvs[1..])
  }

  /** A fleet that some run reaches: nothing published and no host at first. */
  ghost predicate Reachable(fl: Fleet, f: BucketFn, tm: Timing) {
    exists start: int, mvs: seq<Move> ::
      LegalMoves(Fleet(start, [], map[]), f, tm, mvs) && AfterMoves(Fleet(start, [], map[]), f, tm, mvs) == fl
  }

  lemma {:induction false} RunKeepsFleetInv(fl: Fleet, f: BucketFn, tm: Timing, mvs: seq<Move>)
    requires FleetInv(fl, f, tm) && LegalMoves(fl, f, tm, mvs) && SafeTiming(tm)
    decreases |mvs|
    ensures FleetInv(AfterMoves(fl, f, tm, mvs), f, tm)
  {
    if mvs != [] {
      MoveKeepsInv(fl, f, tm, mvs[0]);
      RunKeepsFleetInv(Moved(fl, f, tm, mvs[0]), f, tm, mvs[1..]);
    }
  }

  lemma ReachableInv(fl: Fleet, f: BucketFn, tm: Timing)
    requires Reachable(fl, f, tm) && SafeTiming(tm)
    ensures FleetInv(fl, f, tm)
  {
    var start: int, mvs: seq<Move> :|
      LegalMoves(Fleet(start, [], map[]), f, tm, mvs) && AfterMoves(Fleet(start, [], map[]), f, tm, mvs) == fl;
    RunKeepsFleetInv(Fleet(start, [], map[]), f, tm, mvs);
  }

  // ---------------------------------------------------------- the theorems

  /** Timed drain safety. When a host evicts a room, every host of the fleet has
      already adopted the version that began the drain, or a newer one. */
  lemma EvictionMeansEveryoneAdopted(fl: Fleet, f: BucketFn, tm: Timing, host: string, r: string)
    requires Reachable(fl, f, tm) && SafeTiming(tm)
    requires host in fl.hosts && r in EvictedNow(fl, f, tm, host)
    ensures f(r).Some? && f(r).value in fl.hosts[host].hist.begunBy
    ensures forall h :: h in fl.hosts ==> fl.hosts[h].Version() >= fl.hosts[host].hist.begunBy[f(r).value]
  {
    ReachableInv(fl, f, tm);
    var mem := fl.hosts[host];
    assert MemberInv(fl, f, tm, host, mem);
    TickKeepsInv(f, tm.conf, host, mem.state, mem.hist, fl.now);
    var b := f(r).value;
    assert BegunByPublished(fl, mem, b);
    var j :| 0 <= j < |fl.published| && fl.published[j].m.version == mem.hist.begunBy[b]
             && fl.published[j].at <= mem.hist.relinquishedAt[b];
    forall h | h in fl.hosts
      ensures fl.hosts[h].Version() >= mem.hist.begunBy[b]
    {
      assert MemberInv(fl, f, tm, h, fl.hosts[h]);
      assert fl.published[j].at + tm.ttl < fl.hosts[h].lastPoll;
    }
  }

  /** If the version that began the drain is still the newest, the host it names
      for the bucket is another one, and it admits the evicted client. */
  lemma EvictedClientIsAdmitted(fl: Fleet, f: BucketFn, tm: Timing, host: string, r: string, newest: ShardMap)
    requires Reachable(fl, f, tm) && SafeTiming(tm)
    requires host in fl.hosts && r in EvictedNow(fl, f, tm, host)
    requires |fl.published| > 0 && newest == fl.published[|fl.published| - 1].m
    requires f(r).Some? && 0 <= f(r).value < EXPECTED_BUCKETS
    requires f(r).value in fl.hosts[host].hist.begunBy && fl.hosts[host].hist.begunBy[f(r).value] == newest.version
    ensures HostForBucket(newest, f(r).value).Some?
    ensures var g := HostForBucket(newest, f(r).value).value;
            g != host && (g in fl.hosts ==> Admits(f, fl.hosts[g].state.store.owned, r))
    ensures !Admits(f, fl.hosts[host].state.store.owned, r)
  {
    EvictionMeansEveryoneAdopted(fl, f, tm, host, r);
    var b := f(r).value;
    EveryBucketHasAHost(newest, b) by {
      ReachableInv(fl, f, tm);
    }
    var g := HostForBucket(newest, b).value;
    forall h | h in fl.hosts
      ensures b in fl.hosts[h].state.store.owned <==> h == g
    {
      HoldsNewest(fl, f, tm, h, newest, b);
    }
    EvictorDoesNotOwn(fl, f, tm, host, r);
  }

  lemma EvictorDoesNotOwn(fl: Fleet, f: BucketFn, tm: Timing, host: string, r: string)
    requires Reachable(fl, f, tm) && SafeTiming(tm)
    requires host in fl.hosts && r in EvictedNow(fl, f, tm, host)
    ensures !Admits(f, fl.hosts[host].state.store.owned, r)
  {
    ReachableInv(fl, f, tm);
    var mem := fl.hosts[host];
    assert MemberInv(fl, f, tm, host, mem);
    TickKeepsInv(f, tm.conf, host, mem.state, mem.hist, fl.now);
  }

  /** A host at the newest version or above owns what the newest map says. */
  lemma HoldsNewest(fl: Fleet, f: BucketFn, tm: Timing, h: string, newest: ShardMap, b: int)
    requires Reachable(fl, f, tm) && SafeTiming(tm) && h in fl.hosts
    requires |fl.published| > 0 && newest == fl.published[|fl.published| - 1].m
    requires fl.hosts[h].Version() >= newest.version && 0 <= b < EXPECTED_BUCKETS
    ensures fl.hosts[h].state.store.held == Some(newest)
    ensures b in fl.hosts[h].state.store.owned <==> HostForBucket(newest, b) == Some(h)
  {
    ReachableInv(fl, f, tm);
    assert MemberInv(fl, f, tm, h, fl.hosts[h]);
    var i :| 0 <= i < |fl.published| && fl.published[i].m == fl.hosts[h].state.store.held.value;
    OwnedIsLookup(newest, h);
  }

  /** Two hosts that both admit a room hold different versions. */
  lemma BothAdmitOnlyAcrossVersions(fl: Fleet, f: BucketFn, tm: Timing, g: string, h: string, r: string)
    requires Reachable(fl, f, tm) && SafeTiming(tm)
    requires g in fl.hosts && h in fl.hosts && g != h
    requires Admits(f, fl.hosts[g].state.store.owned, r) && Admits(f, fl.hosts[h].state.store.owned, r)
    ensures fl.hosts[g].Version() != fl.hosts[h].Version()
  {
    ReachableInv(fl, f, tm);
    assert MemberInv(fl, f, tm, g, fl.hosts[g]) && MemberInv(fl, f, tm, h, fl.hosts[h]);
    var mg, mh := fl.hosts[g].state.store.held.value, fl.hosts[h].state.store.held.value;
    var i :| 0 <= i < |fl.published| && fl.published[i].m == mg;
    var j :| 0 <= j < |fl.published| && fl.published[j].m == mh;
    if mg.version == mh.version {
      assert i == j;
      OwnedSetsPartitionTheRing(mg, f(r).value, g, h);
    }
  }

  /** Once more than `ttl + poll` has passed since a publication with nothing newer, the
      fleet has converged: a room is admitted by the host the map names and by
      no other. */
  lemma FleetConverges(fl: Fleet, f: BucketFn, tm: Timing, r: string, h: string)
    requires Reachable(fl, f, tm) && SafeTiming(tm)
    requires |fl.published| > 0 && fl.published[|fl.published| - 1].at + tm.ttl + tm.poll < fl.now
    requires h in fl.hosts
    ensures var newest := fl.published[|fl.published| - 1].m;
            && fl.hosts[h].state.store.held == Some(newest)
            && (f(r).Some? && 0 <= f(r).value < EXPECTED_BUCKETS ==>
                  (Admits(f, fl.hosts[h].state.store.owned, r) <==> HostForBucket(newest, f(r).value) == Some(h)))
  {
    ReachableInv(fl, f, tm);
    var n := |fl.published| - 1;
    var mem := fl.hosts[h];
    assert MemberInv(fl, f, tm, h, mem);
    assert fl.published[n].at + tm.ttl < mem.lastPoll;
    HoldsNewest(fl, f, tm, h, fl.published[n].m, 0);
    if f(r).Some? && 0 <= f(r).value < EXPECTED_BUCKETS {
      HoldsNewest(fl, f, tm, h, fl.published[n].m, f(r).value);
    }
  }
}
