/** The drain of a serving host comes to an end: rooms of draining buckets go,
    while upgrades, closes and polls go on (host/server.js,
    src/sharding/drainScheduler.js). */
module HostDrain {
  import opened Wrappers
  import opened ShardMapStores
  import opened Runtimes
  import opened Drain
  import opened DrainProofs
  import opened Hosts

  /** The live rooms the drain still has to evict at `t`. */
  function Pending(f: BucketFn, h: HostState, t: int): seq<string> {
    Due(f, h.sched.order, h.sched.eps, t, LiveRooms(h.rooms))
  }

  predicate AllDue(h: HostState, t0: int) {
    forall b :: b in h.sched.eps ==> h.sched.eps[b].deadline <= t0
  }

  /** A legal run that relinquishes nothing more, with ticks from `t0` on, each at
      least k * 1000 / rate milliseconds after the one before. */
  ghost predicate Draining(f: BucketFn, c: Config, k: nat, selfHost: string, h: HostState, es: seq<Event>, t0: int)
    decreases |es|
  {
    es == []
    || (&& Legal(h, selfHost, es[0])
        && (es[0].Poll? ==> es[0].rel == [])
        && (es[0].Tick? ==> t0 <= es[0].t && Spaced(c.rate, k, h.sched.lastRun, es[0].t))
        && Draining(f, c, k, selfHost, Next(f, c, selfHost, h, es[0]).0, es[1..], t0))
  }

  function Ticks(es: seq<Event>): nat {
    if es == [] then 0 else (if es[0].Tick? then 1 else 0) + Ticks(es[1..])
  }

  lemma LiveAfterUpgrade(rs: Rooms, room: string, socket: int)
    requires rs.Wf()
    ensures forall r :: r in LiveRooms(Accepted1(rs, room, socket)) ==> r in LiveRooms(rs) || r == room
  {
    LiveMembers(rs.order, rs);
    LiveMembers(Accepted1(rs, room, socket).order, Accepted1(rs, room, socket));
  }

  lemma LiveAfterClose(rs: Rooms, room: string, socket: int)
    requires rs.Wf()
    ensures forall r :: r in LiveRooms(Dropped(Closed1(rs, room, socket), room)) ==> r in LiveRooms(rs)
  {
    var after := Dropped(Closed1(rs, room, socket), room);
    LiveMembers(rs.order, rs);
    LiveMembers(after.order, after);
  }

  /** What any event but a tick does to the episodes and to the rooms in them. */
  lemma BetweenTicks(f: BucketFn, c: Config, selfHost: string, h: HostState, hist: History, e: Event)
    requires Inv(f, c, h, hist) && Legal(h, selfHost, e) && !e.Tick? && (e.Poll? ==> e.rel == [])
    ensures var h1 := Next(f, c, selfHost, h, e).0;
            && h1.sched.tokens == h.sched.tokens && h1.sched.lastRun == h.sched.lastRun
            && (forall b :: b in h1.sched.eps ==> b in h.sched.eps && h1.sched.eps[b] == h.sched.eps[b])
            && (forall r :: r in LiveRooms(h1.rooms) && Drained(f, h1.sched.eps.Keys, r) ==> r in LiveRooms(h.rooms))
  {
    match e
    case Poll(_, _, _, _) =>
      PollDoes(f, c, selfHost, h, e);
      ReacquireAllDoes(h.sched, e.acq);
    case Upgrade(room, socket) =>
      LiveAfterUpgrade(h.rooms, room, socket);
      if f(room).Some? {
        var b := f(room).value;
        assert b in h.sched.eps ==> b !in h.store.owned;
      }
    case Close(room, socket) => LiveAfterClose(h.rooms, room, socket);
  }

  lemma AfterTick(f: BucketFn, c: Config, k: nat, selfHost: string, h: HostState, hist: History, t: int, t0: int)
    requires Inv(f, c, h, hist) && TokensInRange(h.sched, c) && Paced(c, k) && AllDue(h, t0)
    requires t0 <= t && Spaced(c.rate, k, h.sched.lastRun, t)
    ensures var h1 := Next(f, c, selfHost, h, Tick(t)).0;
            && Inv(f, c, h1, hist) && TokensInRange(h1.sched, c) && AllDue(h1, t0)
            && |Pending(f, h1, t0)| <= (if |Pending(f, h, t0)| > k then |Pending(f, h, t0)| - k else 0)
            && (|Pending(f, h, t0)| <= k ==> forall b :: b !in h1.sched.eps)
  {
    var live := LiveRooms(h.rooms);
    var evicted := Ran(f, h.sched, c, t, live).1;
    var live1 := LiveRooms(ClosedAll(h.rooms, evicted));
    TickKeepsInv(f, c, selfHost, h, hist, t);
    LiveAfterEvicting(h.rooms, evicted);
    DueAtAnyTime(f, h.sched.order, h.sched.eps, t0, t, live);
    TickProgresses(f, c, h.sched, k, t, live, t0, live1);
  }

  lemma LiveAfterEvicting(rs: Rooms, evicted: seq<string>)
    requires rs.Wf()
    ensures forall r :: r in LiveRooms(ClosedAll(rs, evicted)) ==> r in LiveRooms(rs)
  {
    LiveOfClosed(rs.order, rs, evicted);
  }

  /** Nothing draining stays nothing draining. */
  lemma {:induction false} StaysDrained(f: BucketFn, c: Config, k: nat, selfHost: string, h: HostState, hist: History,
                                        es: seq<Event>, t0: int)
    requires Inv(f, c, h, hist) && (forall b :: b !in h.sched.eps) && Draining(f, c, k, selfHost, h, es, t0)
    ensures var (h1, hist1) := AfterRun(f, c, selfHost, h, hist, es);
            Inv(f, c, h1, hist1) && forall b :: b !in h1.sched.eps
    decreases |es|
  {
    if es != [] {
      var e := es[0];
      EventKeepsInv(f, c, selfHost, h, hist, e);
      if e.Tick? {
        RanDoes(f, h.sched, c, e.t, LiveRooms(h.rooms));
      } else {
        BetweenTicks(f, c, selfHost, h, hist, e);
      }
      StaysDrained(f, c, k, selfHost, Next(f, c, selfHost, h, e).0, Remember(hist, h, selfHost, e), es[1..], t0);
    }
  }

  lemma {:induction false} EpisodesEnd(f: BucketFn, c: Config, k: nat, selfHost: string, h: HostState, hist: History,
                                       es: seq<Event>, t0: int)
    requires Inv(f, c, h, hist) && TokensInRange(h.sched, c) && Paced(c, k) && AllDue(h, t0)
    requires Draining(f, c, k, selfHost, h, es, t0)
    requires Ticks(es) >= 1 && |Pending(f, h, t0)| <= Quota(k, Ticks(es))
    ensures var (h1, hist1) := AfterRun(f, c, selfHost, h, hist, es);
            Inv(f, c, h1, hist1) && forall b :: b !in h1.sched.eps
    decreases |es|
  {
    var e := es[0];
    var h1, hist1 := Next(f, c, selfHost, h, e).0, Remember(hist, h, selfHost, e);
    if e.Tick? {
      AfterTick(f, c, k, selfHost, h, hist, e.t, t0);
      if |Pending(f, h, t0)| <= k {
        StaysDrained(f, c, k, selfHost, h1, hist1, es[1..], t0);
      } else {
        EpisodesEnd(f, c, k, selfHost, h1, hist1, es[1..], t0);
      }
    } else {
      EventKeepsInv(f, c, selfHost, h, hist, e);
      BetweenTicks(f, c, selfHost, h, hist, e);
      DueNotRaised(f, h.sched, h1.sched, t0, LiveRooms(h.rooms), LiveRooms(h1.rooms));
      EpisodesEnd(f, c, k, selfHost, h1, hist1, es[1..], t0);
    }
  }

  // --------------------------------------------------------- from boot on

  ghost predicate TicksForward(f: BucketFn, c: Config, selfHost: string, h: HostState, es: seq<Event>)
    decreases |es|
  {
    es == []
    || ((es[0].Tick? ==> h.sched.lastRun <= es[0].t)
        && TicksForward(f, c, selfHost, Next(f, c, selfHost, h, es[0]).0, es[1..]))
  }

  lemma {:induction false} TokensOnRun(f: BucketFn, c: Config, selfHost: string, h: HostState, hist: History, es: seq<Event>)
    requires Inv(f, c, h, hist) && TokensInRange(h.sched, c) && c.rate > 0.0
    requires LegalRun(f, c, selfHost, h, es) && TicksForward(f, c, selfHost, h, es)
    ensures var (h1, hist1) := AfterRun(f, c, selfHost, h, hist, es);
            Inv(f, c, h1, hist1) && TokensInRange(h1.sched, c)
    decreases |es|
  {
    if es != [] {
      var e := es[0];
      EventKeepsInv(f, c, selfHost, h, hist, e);
      if e.Tick? {
        StepSpends(f, c, h.sched, OpTick(e.t, LiveRooms(h.rooms)));
      } else if e.Poll? {
        var s1 := RelinquishAll(h.sched, c, e.rel, e.now);
        RelinquishAllDoes(h.sched, c, e.rel, e.now);
        ReacquireAllDoes(s1, e.acq);
      }
      TokensOnRun(f, c, selfHost, Next(f, c, selfHost, h, e).0, Remember(hist, h, selfHost, e), es[1..]);
    }
  }

  /** After any run from boot, once every drain is due and nothing more is
      relinquished, the drain ends at its rate, whatever else is upgraded, closed or
      polled meanwhile. For every k >= 1 that is 1 or at most the rate, R rooms to
      evict take R / k ticks, rounded up, and at least one, if ticks are at least
      k * 1000 / rate milliseconds apart: then no bucket drains, and every live room
      is in a bucket the host owns. */
  lemma DrainCompletes(f: BucketFn, c: Config, k: nat, selfHost: string, now: int, before: seq<Event>, es: seq<Event>, t0: int)
    requires c.rate > 0.0 && k >= 1 && (k == 1 || k as real <= c.rate)
    requires LegalRun(f, c, selfHost, Booted(now), before) && TicksForward(f, c, selfHost, Booted(now), before)
    requires var h := AfterRun(f, c, selfHost, Booted(now), History(map[], map[]), before).0;
             && AllDue(h, t0) && Draining(f, c, k, selfHost, h, es, t0)
             && Ticks(es) >= 1 && |Pending(f, h, t0)| <= k * Ticks(es)
    ensures var (h, hist) := AfterRun(f, c, selfHost, Booted(now), History(map[], map[]), before);
            var h1 := AfterRun(f, c, selfHost, h, hist, es).0;
            && (forall b :: b !in h1.sched.eps)
            && (forall r :: h1.rooms.IsLive(r) ==> f(r).Some? && f(r).value in h1.store.owned)
  {
    var (h, hist) := AfterRun(f, c, selfHost, Booted(now), History(map[], map[]), before);
    TokensOnRun(f, c, selfHost, Booted(now), History(map[], map[]), before);
    EpisodesEnd(f, c, k, selfHost, h, hist, es, t0);
  }
}
