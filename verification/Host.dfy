/** One relay host in distributed mode: the store and its poller, the ownership
    gate, the drain and the registry of live rooms, wired together as in
    host/server.js. */
module Hosts {
  import opened Wrappers
  import opened Sequences
  import opened OwnedSets
  import opened ShardMapStores
  import opened Routing
  import opened Runtimes
  import opened Drain
  import opened DrainProofs

  // ---------------------------------------------------------- parameters

  datatype ParamError = TtlNotBelowPoll | DrainDelayTooShort | NonPositiveRate

  /** validateParams: the first broken ordering is reported. */
  function ValidateParams(ttlMs: int, pollMs: int, drainDelayMs: int, rate: real): (e: Option<ParamError>)
    ensures e.None? <==> ttlMs < pollMs && drainDelayMs >= 2 * pollMs && rate > 0.0
    ensures e == Some(TtlNotBelowPoll) <==> pollMs <= ttlMs
    ensures e == Some(DrainDelayTooShort) <==> ttlMs < pollMs && drainDelayMs < 2 * pollMs
  {
    if ttlMs >= pollMs then Some(TtlNotBelowPoll)
    else if drainDelayMs < 2 * pollMs then Some(DrainDelayTooShort)
    else if rate <= 0.0 then Some(NonPositiveRate)
    else None
  }

  // ---------------------------------------------------------- host state

  datatype HostState = HostState(store: StoreState, sched: Sched, rooms: Rooms)

  /** When each draining bucket was relinquished, and by adopting which version.
      The host does not keep this; the properties speak of it. */
  datatype History = History(relinquishedAt: map<int, int>, begunBy: map<int, int>)

  ghost predicate Lists(s: seq<int>, buckets: set<int>) {
    forall b :: b in s <==> b in buckets
  }

  function RelinquishAll(s: Sched, c: Config, bs: seq<int>, now: int): Sched
    decreases |bs|
  {
    if bs == [] then s else RelinquishAll(Relinquished(s, c, bs[0], now), c, bs[1..], now)
  }

  function ReacquireAll(s: Sched, bs: seq<int>): Sched
    decreases |bs|
  {
    if bs == [] then s else ReacquireAll(Reacquired(s, bs[0]), bs[1..])
  }

  /** applyShardDiff: a Set is iterated in some order. */
  function DiffApplied(s: Sched, c: Config, rel: seq<int>, acq: seq<int>, now: int): Sched {
    ReacquireAll(RelinquishAll(s, c, rel, now), acq)
  }

  predicate Admits(f: BucketFn, owned: set<int>, room: string) {
    f(room).Some? && f(room).value in owned
  }

  lemma GateIsOwnershipDecision(owned: set<int>, room: string)
    ensures OwnershipDecision(Distributed, room, owned).Admit? <==> Admits(BucketForRoomName, owned, room)
  {
  }

  datatype Event =
    | Poll(o: FetchOutcome, now: int, rel: seq<int>, acq: seq<int>)
    | Upgrade(room: string, socket: int)
    | Close(room: string, socket: int)
    | Tick(t: int)

  /** The iteration orders of a poll list what the poll changed. */
  ghost predicate Legal(h: HostState, selfHost: string, e: Event) {
    e.Poll? ==>
      var diff := Polled(h.store, selfHost, e.o).1;
      Lists(e.rel, diff.relinquished) && Lists(e.acq, diff.acquired)
  }

  /** What an event does to a host, and the rooms it evicts. */
  ghost function Next(f: BucketFn, c: Config, selfHost: string, h: HostState, e: Event): (HostState, seq<string>) {
    match e
    case Poll(o, now, rel, acq) =>
      (h.(store := Polled(h.store, selfHost, o).0, sched := DiffApplied(h.sched, c, rel, acq, now)), [])
    case Upgrade(room, socket) =>
      (if Admits(f, h.store.owned, room) then h.(rooms := Accepted1(h.rooms, room, socket)) else h, [])
    case Close(room, socket) =>
      (h.(rooms := Dropped(Closed1(h.rooms, room, socket), room)), [])
    case Tick(t) =>
      var (s, evicted) := Ran(f, h.sched, c, t, LiveRooms(h.rooms));
      (h.(sched := s, rooms := ClosedAll(h.rooms, evicted)), evicted)
  }

  ghost function Remember(hist: History, h: HostState, selfHost: string, e: Event): History {
    if e.Poll? && Polled(h.store, selfHost, e.o).1.adopted then
      var diff := Polled(h.store, selfHost, e.o).1;
      History(hist.relinquishedAt + (map b | b in diff.relinquished :: e.now),
              hist.begunBy + (map b | b in diff.relinquished :: e.o.m.version))
    else hist
  }

  // ------------------------------------------------------------ the class

  class Host {
    const store: ShardMapStore
    const poller: ShardMapPoller
    const drain: DrainScheduler
    const runtime: Runtime

    ghost function State(): HostState
      reads store, drain, runtime
    {
      HostState(store.State(), drain.State(), runtime.State())
    }

    ghost predicate Valid()
      reads drain, runtime
    {
      && poller.store == store && drain.Valid() && runtime.State().Wf()
      && runtime.bucketOf == BucketForRoomName
    }

    constructor (selfHost: string, c: Config, now: int)
      ensures Valid() && fresh(store) && fresh(drain) && fresh(runtime)
      ensures store.selfHost == selfHost && drain.Conf() == c
      ensures State() == HostState(EMPTY, Sched([], map[], 0.0, now), Rooms([], map[]))
    {
      var s := new ShardMapStore(selfHost);
      var p := new ShardMapPoller(s);
      var d := new DrainScheduler(c.drainDelay, c.rate, now);
      var r := new Runtime(BucketForRoomName);
      store, poller, drain, runtime := s, p, d, r;
    }

    /** One poll: fetch, validate, adopt or ignore, and hand the difference to
        the drain. */
    method PollOnce(o: FetchOutcome, now: int) returns (rel: seq<int>, acq: seq<int>)
      requires Valid()
      modifies store, drain
      ensures Valid()
      ensures Legal(old(State()), store.selfHost, Poll(o, now, rel, acq))
      ensures State() == Next(BucketForRoomName, drain.Conf(), store.selfHost, old(State()), Poll(o, now, rel, acq)).0
    {
      var ok, diff := poller.FetchOnce(o);
      rel, acq := [], [];
      if diff.adopted {
        rel, acq := ApplyShardDiff(diff, now);
      }
    }

    method ApplyShardDiff(diff: Diff, now: int) returns (rel: seq<int>, acq: seq<int>)
      requires drain.Valid()
      modifies drain
      ensures drain.Valid()
      ensures Lists(rel, diff.relinquished) && Lists(acq, diff.acquired)
      ensures drain.State() == DiffApplied(old(drain.State()), drain.Conf(), rel, acq, now)
    {
      rel := Listing(diff.relinquished);
      acq := Listing(diff.acquired);
      ghost var s0, c := drain.State(), drain.Conf();
      var rest := rel;
      while rest != []
        invariant drain.Valid()
        invariant RelinquishAll(drain.State(), c, rest, now) == RelinquishAll(s0, c, rel, now)
        decreases |rest|
      {
        drain.Relinquish(rest[0], now);
        rest := rest[1..];
      }
      ghost var s1 := drain.State();
      rest := acq;
      while rest != []
        invariant drain.Valid()
        invariant ReacquireAll(drain.State(), rest) == ReacquireAll(s1, acq)
        decreases |rest|
      {
        drain.Reacquire(rest[0]);
        rest := rest[1..];
      }
    }

    /** The ownership gate, and admission to the registry if it passes. */
    method UpgradeSocket(room: string, socket: int) returns (d: Decision)
      requires Valid()
      modifies runtime
      ensures Valid()
      ensures d == OwnershipDecision(Distributed, room, old(State()).store.owned)
      ensures State() == Next(BucketForRoomName, drain.Conf(), store.selfHost, old(State()), Upgrade(room, socket)).0
    {
      GateIsOwnershipDecision(store.owned, room);
      d := OwnershipDecision(Distributed, room, store.owned);
      if d.Admit? {
        AcceptedWf(runtime.State(), room, socket);
        runtime.Accept(room, socket);
      }
    }

    method SocketClosed(room: string, socket: int)
      requires Valid()
      modifies runtime
      ensures Valid()
      ensures State() == Next(BucketForRoomName, drain.Conf(), store.selfHost, old(State()), Close(room, socket)).0
    {
      ClosedWf(runtime.State(), room, socket);
      runtime.SocketClosed(room, socket);
    }

    method DrainTick(t: int) returns (evicted: seq<string>)
      requires Valid()
      modifies drain, runtime
      ensures Valid()
      ensures (State(), evicted) == Next(BucketForRoomName, drain.Conf(), store.selfHost, old(State()), Tick(t))
    {
      evicted := drain.Run(t, runtime);
    }
  }

  /** The elements of a set, in whatever order it is iterated. */
  method Listing(s: set<int>) returns (out: seq<int>)
    ensures Lists(out, s)
  {
    out := [];
    var todo := s;
    while todo != {}
      invariant todo <= s && Lists(out, s - todo)
      decreases todo
    {
      SomeMember(todo);
      var b :| b in todo;
      out := out + [b];
      todo := todo - {b};
    }
  }

  lemma AcceptedWf(rs: Rooms, room: string, socket: int)
    requires rs.Wf()
    ensures Accepted1(rs, room, socket).Wf()
  {
    if room !in rs.sockets {
      AppendDistinct(rs.order, room);
    }
  }

  lemma ClosedWf(rs: Rooms, room: string, socket: int)
    requires rs.Wf()
    ensures Dropped(Closed1(rs, room, socket), room).Wf()
  {
    WithoutKeepsDistinct(rs.order, [room]);
  }

  // ------------------------------------------------- no room is stranded

  ghost predicate Inv(f: BucketFn, c: Config, h: HostState, hist: History) {
    && h.sched.Wf() && h.rooms.Wf()
    // Every live room is owned or draining.
    && (forall r :: h.rooms.IsLive(r) ==> f(r).Some? && (f(r).value in h.store.owned || f(r).value in h.sched.eps))
    // Nothing is both.
    && (forall b :: b in h.sched.eps ==> b !in h.store.owned)
    // A room evicted in a current episode is not live.
    && (forall b, r :: b in h.sched.eps && r in h.sched.eps[b].evicted ==> f(r) == Some(b) && !h.rooms.IsLive(r))
    // The deadline is the drain delay after the bucket was relinquished.
    && (forall b :: b in h.sched.eps ==>
          && b in hist.relinquishedAt && b in hist.begunBy
          && h.sched.eps[b].deadline == hist.relinquishedAt[b] + c.drainDelay)
  }

  lemma {:induction false} RelinquishAllDoes(s: Sched, c: Config, bs: seq<int>, now: int)
    requires s.Wf()
    decreases |bs|
    ensures var s1 := RelinquishAll(s, c, bs, now);
            && s1.Wf() && s1.tokens == s.tokens && s1.lastRun == s.lastRun
            && (forall b :: b in s1.eps <==> b in s.eps || b in bs)
            && (forall b :: b in s1.eps ==> s1.eps[b] == if b in bs then Episode(now + c.drainDelay, {}) else s.eps[b])
  {
    if bs != [] {
      assert bs == [bs[0]] + bs[1..];
      RelinquishedWf(s, c, bs[0], now);
      RelinquishAllDoes(Relinquished(s, c, bs[0], now), c, bs[1..], now);
    }
  }

  lemma {:induction false} ReacquireAllDoes(s: Sched, bs: seq<int>)
    requires s.Wf()
    decreases |bs|
    ensures var s1 := ReacquireAll(s, bs);
            && s1.Wf() && s1.tokens == s.tokens && s1.lastRun == s.lastRun
            && (forall b :: b in s1.eps <==> b in s.eps && b !in bs)
            && (forall b :: b in s1.eps ==> s1.eps[b] == s.eps[b])
  {
    if bs != [] {
      assert bs == [bs[0]] + bs[1..];
      ReacquiredWf(s, bs[0]);
      ReacquireAllDoes(Reacquired(s, bs[0]), bs[1..]);
    }
  }

  /** What a poll changes, bucket by bucket. */
  ghost predicate PollEffect(c: Config, h: HostState, h1: HostState, rel: seq<int>, acq: seq<int>, now: int) {
    && h1.rooms == h.rooms && h1.sched.Wf()
    && (forall b :: b in h1.store.owned <==> (b in h.store.owned && b !in rel) || b in acq)
    && (forall b :: b in rel ==> b in h.store.owned && b !in acq)
    && (forall b :: b in h1.sched.eps <==> (b in h.sched.eps || b in rel) && b !in acq)
    && (forall b :: b in h1.sched.eps ==>
          h1.sched.eps[b] == if b in rel then Episode(now + c.drainDelay, {}) else h.sched.eps[b])
  }

  lemma PollDoes(f: BucketFn, c: Config, selfHost: string, h: HostState, e: Event)
    requires h.sched.Wf() && e.Poll? && Legal(h, selfHost, e)
    ensures PollEffect(c, h, Next(f, c, selfHost, h, e).0, e.rel, e.acq, e.now)
  {
    var s1 := RelinquishAll(h.sched, c, e.rel, e.now);
    RelinquishAllDoes(h.sched, c, e.rel, e.now);
    ReacquireAllDoes(s1, e.acq);
  }

  lemma PollEffectKeepsInv(f: BucketFn, c: Config, h: HostState, h1: HostState, hist: History, hist1: History,
                           rel: seq<int>, acq: seq<int>, now: int)
    requires Inv(f, c, h, hist) && PollEffect(c, h, h1, rel, acq, now)
    requires forall b :: b in rel ==> b in hist1.relinquishedAt && hist1.relinquishedAt[b] == now && b in hist1.begunBy
    requires forall b :: b in hist.relinquishedAt ==>
               b in hist1.relinquishedAt && (b !in rel ==> hist1.relinquishedAt[b] == hist.relinquishedAt[b])
    requires forall b :: b in hist.begunBy ==> b in hist1.begunBy
    ensures Inv(f, c, h1, hist1)
  {
    forall r | h1.rooms.IsLive(r)
      ensures f(r).Some? && (f(r).value in h1.store.owned || f(r).value in h1.sched.eps)
    {
      assert h.rooms.IsLive(r);
      var b := f(r).value;
      assert b in h.store.owned || b in h.sched.eps;
    }
    forall b, r | b in h1.sched.eps && r in h1.sched.eps[b].evicted
      ensures f(r) == Some(b) && !h1.rooms.IsLive(r)
    {
      assert b !in rel;
      assert r in h.sched.eps[b].evicted;
    }
  }

  lemma PollKeepsInv(f: BucketFn, c: Config, selfHost: string, h: HostState, hist: History, e: Event)
    requires Inv(f, c, h, hist) && e.Poll? && Legal(h, selfHost, e)
    ensures Inv(f, c, Next(f, c, selfHost, h, e).0, Remember(hist, h, selfHost, e))
  {
    var h1 := Next(f, c, selfHost, h, e).0;
    PollDoes(f, c, selfHost, h, e);
    PollEffectKeepsInv(f, c, h, h1, hist, Remember(hist, h, selfHost, e), e.rel, e.acq, e.now);
  }

  lemma TickKeepsInv(f: BucketFn, c: Config, selfHost: string, h: HostState, hist: History, t: int)
    requires Inv(f, c, h, hist)
    ensures var (h1, evicted) := Next(f, c, selfHost, h, Tick(t));
            && Inv(f, c, h1, hist)
            && (forall r :: r in evicted ==> EvictedRightly(f, c, h, h1, hist, t, r))
            && Distinct(evicted)
  {
    var (h1, evicted) := Next(f, c, selfHost, h, Tick(t));
    RanDoes(f, h.sched, c, t, LiveRooms(h.rooms));
    LiveMembers(h.rooms.order, h.rooms);
    PassEffectKeepsInv(f, c, h, h1, hist, t, evicted);
  }

  /** Evicting `r` at `t` was justified, and closed it. */
  ghost predicate EvictedRightly(f: BucketFn, c: Config, h: HostState, h1: HostState, hist: History, t: int, r: string) {
    && h.rooms.IsLive(r) && !h1.rooms.IsLive(r) && f(r).Some?
    && f(r).value !in h.store.owned
    && f(r).value in hist.relinquishedAt
    && hist.relinquishedAt[f(r).value] + c.drainDelay <= t
    && f(r).value in h.sched.eps && r !in h.sched.eps[f(r).value].evicted
  }

  lemma AllEvictedRightly(f: BucketFn, c: Config, h: HostState, h1: HostState, hist: History, t: int, evicted: seq<string>)
    requires Inv(f, c, h, hist) && h1.rooms == ClosedAll(h.rooms, evicted)
    requires PassEffect(f, h.sched.eps, t, LiveRooms(h.rooms), Pass(h1.sched.order, h1.sched.eps, h1.sched.tokens, evicted))
    requires forall r :: r in LiveRooms(h.rooms) <==> r in h.rooms.order && h.rooms.IsLive(r)
    ensures forall r :: r in evicted ==> EvictedRightly(f, c, h, h1, hist, t, r)
  {
    forall r | r in evicted
      ensures EvictedRightly(f, c, h, h1, hist, t, r)
    {
      var b := f(r).value;
      assert b in h.sched.eps && h.sched.eps[b].deadline <= t;
      assert r in LiveRooms(h.rooms);
    }
  }

  lemma PassEffectKeepsInv(f: BucketFn, c: Config, h: HostState, h1: HostState, hist: History, t: int, evicted: seq<string>)
    requires Inv(f, c, h, hist)
    requires h1.store == h.store && h1.rooms == ClosedAll(h.rooms, evicted) && h1.sched.Wf()
    requires PassEffect(f, h.sched.eps, t, LiveRooms(h.rooms), Pass(h1.sched.order, h1.sched.eps, h1.sched.tokens, evicted))
    requires forall r :: r in LiveRooms(h.rooms) <==> r in h.rooms.order && h.rooms.IsLive(r)
    ensures Inv(f, c, h1, hist)
    ensures forall r :: r in evicted ==> EvictedRightly(f, c, h, h1, hist, t, r)
  {
    forall r | h1.rooms.IsLive(r)
      ensures f(r).Some? && (f(r).value in h1.store.owned || f(r).value in h1.sched.eps)
    {
      assert h.rooms.IsLive(r) && r !in evicted && r in LiveRooms(h.rooms);
      var b := f(r).value;
      assert f(r) == Some(b) && (b in h.store.owned || b in h.sched.eps);
      assert b in h.sched.eps ==> r !in h.sched.eps[b].evicted;
    }
    forall b, r | b in h1.sched.eps && r in h1.sched.eps[b].evicted
      ensures f(r) == Some(b) && !h1.rooms.IsLive(r)
    {
      assert r in h.sched.eps[b].evicted || r in evicted;
    }
    AllEvictedRightly(f, c, h, h1, hist, t, evicted);
  }

  lemma UpgradeKeepsInv(f: BucketFn, c: Config, selfHost: string, h: HostState, hist: History, e: Event)
    requires Inv(f, c, h, hist) && Legal(h, selfHost, e) && e.Upgrade?
    ensures var (h1, evicted) := Next(f, c, selfHost, h, e);
            Inv(f, c, h1, Remember(hist, h, selfHost, e)) && evicted == []
  {
    AcceptedWf(h.rooms, e.room, e.socket);
  }

  lemma CloseKeepsInv(f: BucketFn, c: Config, selfHost: string, h: HostState, hist: History, e: Event)
    requires Inv(f, c, h, hist) && Legal(h, selfHost, e) && e.Close?
    ensures var (h1, evicted) := Next(f, c, selfHost, h, e);
            Inv(f, c, h1, Remember(hist, h, selfHost, e)) && evicted == []
  {
    ClosedWf(h.rooms, e.room, e.socket);
  }

  /** Every event keeps the invariant, and evict is only ever called on a live
      room of a bucket that the host does not own, at least the drain delay
      after it was relinquished, and once per episode. */
  lemma EventKeepsInv(f: BucketFn, c: Config, selfHost: string, h: HostState, hist: History, e: Event)
    requires Inv(f, c, h, hist) && Legal(h, selfHost, e)
    ensures var (h1, evicted) := Next(f, c, selfHost, h, e);
            && Inv(f, c, h1, Remember(hist, h, selfHost, e))
            && (forall r :: r in evicted ==> e.Tick? && EvictedRightly(f, c, h, h1, hist, e.t, r))
            && Distinct(evicted)
  {
    match e
    case Poll(_, _, _, _) => PollKeepsInv(f, c, selfHost, h, hist, e);
    case Upgrade(_, _) => UpgradeKeepsInv(f, c, selfHost, h, hist, e);
    case Close(_, _) => CloseKeepsInv(f, c, selfHost, h, hist, e);
    case Tick(t) => TickKeepsInv(f, c, selfHost, h, hist, t);
  }

  // ------------------------------------------------------ runs of one host

  ghost predicate LegalRun(f: BucketFn, c: Config, selfHost: string, h: HostState, es: seq<Event>)
    decreases |es|
  {
    es == [] || (Legal(h, selfHost, es[0]) && LegalRun(f, c, selfHost, Next(f, c, selfHost, h, es[0]).0, es[1..]))
  }

  ghost function AfterRun(f: BucketFn, c: Config, selfHost: string, h: HostState, hist: History, es: seq<Event>): (HostState, History)
    decreases |es|
  {
    if es == [] then (h, hist)
    else AfterRun(f, c, selfHost, Next(f, c, selfHost, h, es[0]).0, Remember(hist, h, selfHost, es[0]), es[1..])
  }

  function Booted(now: int): HostState {
    HostState(EMPTY, Sched([], map[], 0.0, now), Rooms([], map[]))
  }

  /** No stranded room on any run from boot: in every state a live room is owned
      or draining, never both, and never one the current episode evicted. */
  lemma {:induction false} NoStrandedRoom(f: BucketFn, c: Config, selfHost: string, now: int, es: seq<Event>)
    requires LegalRun(f, c, selfHost, Booted(now), es)
    ensures var (h, hist) := AfterRun(f, c, selfHost, Booted(now), History(map[], map[]), es);
            Inv(f, c, h, hist)
  {
    RunKeepsInv(f, c, selfHost, Booted(now), History(map[], map[]), es);
  }

  /** On any run from boot, every eviction is of a live room of a bucket that is
      no longer owned and was relinquished at least the drain delay before, and
      happens once per episode. */
  lemma EvictionsAreJustified(f: BucketFn, c: Config, selfHost: string, now: int, es: seq<Event>, t: int)
    requires LegalRun(f, c, selfHost, Booted(now), es)
    ensures var (h, hist) := AfterRun(f, c, selfHost, Booted(now), History(map[], map[]), es);
            var (h1, evicted) := Next(f, c, selfHost, h, Tick(t));
            Distinct(evicted) && forall r :: r in evicted ==> EvictedRightly(f, c, h, h1, hist, t, r)
  {
    NoStrandedRoom(f, c, selfHost, now, es);
    var (h, hist) := AfterRun(f, c, selfHost, Booted(now), History(map[], map[]), es);
    TickKeepsInv(f, c, selfHost, h, hist, t);
  }

  lemma {:induction false} RunKeepsInv(f: BucketFn, c: Config, selfHost: string, h: HostState, hist: History, es: seq<Event>)
    requires Inv(f, c, h, hist) && LegalRun(f, c, selfHost, h, es)
    decreases |es|
    ensures Inv(f, c, AfterRun(f, c, selfHost, h, hist, es).0, AfterRun(f, c, selfHost, h, hist, es).1)
  {
    if es != [] {
      EventKeepsInv(f, c, selfHost, h, hist, es[0]);
      RunKeepsInv(f, c, selfHost, Next(f, c, selfHost, h, es[0]).0, Remember(hist, h, selfHost, es[0]), es[1..]);
    }
  }
}
