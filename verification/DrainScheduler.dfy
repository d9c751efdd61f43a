/** The drain: closing the live rooms of relinquished buckets, deferred and then
    paced by a token bucket (src/sharding/drainScheduler.js). Tokens are exact
    reals and times are integer milliseconds. */
module Drain {
  import opened Wrappers
  import opened Sequences
  import opened Runtimes

  /** One drain of one bucket. */
  datatype Episode = Episode(deadline: int, evicted: set<string>)

  /** `order` is the insertion order of the Map of episodes. */
  datatype Sched = Sched(order: seq<int>, eps: map<int, Episode>, tokens: real, lastRun: int) {
    ghost predicate Wf() {
      Distinct(order) && forall b :: b in order <==> b in eps
    }
  }

  datatype Config = Config(drainDelay: int, rate: real)

  function Cap(rate: real): real {
    if rate > 1.0 then rate else 1.0
  }

  // ------------------------------------------------- what each call means

  /** A Map keeps the position of a key that is set again. */
  function Relinquished(s: Sched, c: Config, b: int, now: int): Sched {
    s.(order := if b in s.eps then s.order else s.order + [b],
       eps := s.eps[b := Episode(now + c.drainDelay, {})])
  }

  function Reacquired(s: Sched, b: int): Sched {
    s.(order := Without(s.order, [b]), eps := s.eps - {b})
  }

  /** `earned` thousandths of a token more, up to the cap. */
  function Refill(tokens: real, earned: real, cap: real): real {
    var full := tokens + earned / 1000.0;
    if full < cap then full else cap
  }

  function Accrued(s: Sched, c: Config, t: int): real {
    Refill(s.tokens, (t - s.lastRun) as real * c.rate, Cap(c.rate))
  }

  /** The rooms of `rooms` not in `done`, each once, in order. */
  function Todo(rooms: seq<string>, done: set<string>): seq<string> {
    if rooms == [] then []
    else if rooms[0] in done then Todo(rooms[1..], done)
    else [rooms[0]] + Todo(rooms[1..], done + {rooms[0]})
  }

  lemma {:induction false} TodoMembers(rooms: seq<string>, done: set<string>)
    ensures forall r :: r in Todo(rooms, done) <==> r in rooms && r !in done
    ensures Distinct(Todo(rooms, done))
  {
    if rooms != [] {
      assert rooms == [rooms[0]] + rooms[1..];
      if rooms[0] in done {
        TodoMembers(rooms[1..], done);
      } else {
        TodoMembers(rooms[1..], done + {rooms[0]});
        assert Todo(rooms, done)[1..] == Todo(rooms[1..], done + {rooms[0]});
      }
    }
  }

  /** How many of `n` evictions the tokens pay for. */
  function Affordable(tokens: real, n: nat): (k: nat)
    ensures k <= n
    ensures k as real <= tokens || k == 0
    ensures k < n ==> tokens < (k + 1) as real
  {
    if tokens < 1.0 then 0 else if tokens.Floor <= n then tokens.Floor else n
  }

  datatype Pass = Pass(kept: seq<int>, eps: map<int, Episode>, tokens: real, evicted: seq<string>)

  /** One pass over the episodes. A starved pass keeps everything it has not
      finished; a finished episode is dropped. (Every key of the order has an
      episode; the function skips one that has not, to be total.) */
  function Scan(f: BucketFn, order: seq<int>, eps: map<int, Episode>, tokens: real, t: int, live: seq<string>): Pass
  {
    if order == [] then Pass([], eps, tokens, [])
    else
      var b := order[0];
      if b !in eps then Scan(f, order[1..], eps, tokens, t, live)
      else if eps[b].deadline > t then
        var rest := Scan(f, order[1..], eps, tokens, t, live);
        rest.(kept := [b] + rest.kept)
      else
        var todo := Todo(InBucket(f, live, b), eps[b].evicted);
        var k := Affordable(tokens, |todo|);
        if k < |todo| then
          Pass(order, eps[b := Marked(eps[b], todo[..k])], tokens - k as real, todo[..k])
        else
          var rest := Scan(f, order[1..], eps - {b}, tokens - k as real, t, live);
          rest.(evicted := todo + rest.evicted)
  }

  function Ran(f: BucketFn, s: Sched, c: Config, t: int, live: seq<string>): (Sched, seq<string>)
  {
    var p := Scan(f, s.order, s.eps, Accrued(s, c, t), t, live);
    (Sched(p.kept, p.eps, p.tokens, t), p.evicted)
  }

  lemma RanFrom(f: BucketFn, s: Sched, c: Config, t: int, live: seq<string>, tokens: real)
    requires tokens == Accrued(s, c, t)
    ensures var p := Scan(f, s.order, s.eps, tokens, t, live);
            Ran(f, s, c, t, live) == (Sched(p.kept, p.eps, p.tokens, t), p.evicted)
  {
  }

  // ------------------------------------------------------------ the class

  class DrainScheduler {
    const drainDelay: int
    const rate: real
    const cap: real
    var order: seq<int>
    var eps: map<int, Episode>
    var tokens: real
    var lastRun: int

    ghost function State(): Sched
      reads this
    {
      Sched(order, eps, tokens, lastRun)
    }

    ghost function Conf(): Config {
      Config(drainDelay, rate)
    }

    ghost predicate Valid()
      reads this
    {
      cap == Cap(rate) && State().Wf()
    }

    constructor (drainDelay: int, rate: real, now: int)
      ensures Valid() && Conf() == Config(drainDelay, rate)
      ensures State() == Sched([], map[], 0.0, now)
    {
      this.drainDelay := drainDelay;
      this.rate := rate;
      cap := if rate > 1.0 then rate else 1.0;
      order := [];
      eps := map[];
      tokens := 0.0;
      lastRun := now;
    }

    method Relinquish(bucket: int, now: int)
      requires Valid()
      modifies this
      ensures Valid() && State() == Relinquished(old(State()), Conf(), bucket, now)
      ensures eps == old(eps)[bucket := Episode(now + drainDelay, {})] && tokens == old(tokens)
    {
      if bucket !in eps {
        AppendDistinct(order, bucket);
        order := order + [bucket];
      }
      eps := eps[bucket := Episode(now + drainDelay, {})];
    }

    method Reacquire(bucket: int)
      requires Valid()
      modifies this
      ensures Valid() && State() == Reacquired(old(State()), bucket)
      ensures eps == old(eps) - {bucket} && tokens == old(tokens)
    {
      WithoutKeepsDistinct(order, [bucket]);
      order := Without(order, [bucket]);
      eps := eps - {bucket};
    }

    /** run: the callbacks of the source are `runtime.RoomsInBucket` and
        `runtime.CloseRoom`, so rooms close while the pass goes on. */
    method Run(t: int, runtime: Runtime) returns (evicted: seq<string>)
      requires Valid() && runtime.State().Wf()
      modifies this, runtime
      ensures Valid()
      ensures (State(), evicted) == Ran(runtime.bucketOf, old(State()), Conf(), t, LiveRooms(old(runtime.State())))
      ensures runtime.State() == ClosedAll(old(runtime.State()), evicted)
    {
      Accrue(t);
      ScanKeepsWf(runtime.bucketOf, order, eps, tokens, t, LiveRooms(runtime.State()));
      RanFrom(runtime.bucketOf, old(State()), Conf(), t, LiveRooms(runtime.State()), tokens);
      evicted := ScanEpisodes(t, runtime);
    }

    /** The token bucket fills with the time since the last run, up to its cap. */
    method Accrue(t: int)
      requires Valid()
      modifies this`tokens, this`lastRun
      ensures tokens == Accrued(old(State()), Conf(), t) && lastRun == t
    {
      var earned := (t - lastRun) as real * rate;
      var full := tokens + earned / 1000.0;
      tokens := if full < cap then full else cap;
      lastRun := t;
    }

    /** The loop of `run` over the episodes. `rest` is what the iterator has not
        visited; only visited keys are deleted. */
    method ScanEpisodes(t: int, runtime: Runtime) returns (evicted: seq<string>)
      requires State().Wf() && runtime.State().Wf()
      modifies this`order, this`eps, this`tokens, runtime
      ensures Pass(order, eps, tokens, evicted)
              == Scan(runtime.bucketOf, old(order), old(eps), old(tokens), t, LiveRooms(old(runtime.State())))
      ensures runtime.State() == ClosedAll(old(runtime.State()), evicted)
    {
      ghost var rooms0 := runtime.State();
      ghost var live := LiveRooms(rooms0);
      ghost var f := runtime.bucketOf;
      evicted := [];
      var rest := order;
      var kept: seq<int> := []; // visited keys that stay
      ghost var goal := Scan(f, order, eps, tokens, t, live);
      ghost var pending := goal;
      assert ClosedAll(rooms0, []) == rooms0;
      AllUnvisited(f, rest, eps);
      while rest != []
        invariant order == kept + rest && Unvisited(f, rest, eps, evicted)
        invariant runtime.State() == ClosedAll(rooms0, evicted)
        invariant pending == Scan(f, rest, eps, tokens, t, live)
        invariant goal == Prefixed(kept, evicted, pending)
        decreases |rest|
      {
        var b := rest[0];
        if eps[b].deadline > t {
          PassDeferred(f, kept, evicted, rest, eps, tokens, t, live);
          pending := Scan(f, rest[1..], eps, tokens, t, live);
          MoveHead(kept, rest);
          kept := kept + [b];
          rest := rest[1..];
          continue;
        }
        LaterBucketUnaffected(f, rooms0, evicted, b);
        ghost var eps0, tokens0 := eps, tokens;
        var starved, gone := DrainBucket(b, runtime);
        PassDue(f, kept, evicted, b, rest, eps0, tokens0, tokens, t, live, starved, gone);
        ClosedTwice(rooms0, evicted, gone);
        StillUnvisited(f, rest[1..], eps0, evicted, b, gone);
        evicted := evicted + gone;
        if starved {
          return;
        }
        order := kept + rest[1..];
        rest := rest[1..];
        pending := Scan(f, rest, eps, tokens, t, live);
      }
    }

    /** What the pass does with one past-deadline bucket; the episode is
        complete unless the tokens ran out first. */
    method DrainBucket(b: int, runtime: Runtime) returns (starved: bool, gone: seq<string>)
      requires b in eps && runtime.State().Wf()
      modifies this`eps, this`tokens, runtime
      ensures Drains(runtime.bucketOf, LiveRooms(old(runtime.State())), b, old(eps)[b], old(tokens), starved, gone)
      ensures tokens == old(tokens) - |gone| as real
      ensures starved ==> eps == old(eps)[b := Marked(old(eps)[b], gone)]
      ensures !starved ==> eps == old(eps) - {b}
      ensures runtime.State() == ClosedAll(old(runtime.State()), gone)
      ensures forall r :: r in gone ==> runtime.bucketOf(r) == Some(b)
    {
      var ids := runtime.RoomsInBucket(b);
      TodoMembers(ids, eps[b].evicted);
      InBucketMembers(runtime.bucketOf, LiveRooms(runtime.State()), b);
      starved, gone := EvictFrom(b, ids, runtime);
      if !starved {
        eps := eps - {b};
        assert eps == old(eps) - {b};
      }
    }

    /** The inner loop: evict the rooms of one past-deadline bucket while
        tokens last. */
    method EvictFrom(b: int, ids: seq<string>, runtime: Runtime) returns (starved: bool, gone: seq<string>)
      requires b in eps
      modifies this`eps, this`tokens, runtime
      ensures Pays(old(tokens), Todo(ids, old(eps)[b].evicted), starved, gone)
      ensures tokens == old(tokens) - |gone| as real
      ensures eps == old(eps)[b := Marked(old(eps)[b], gone)]
      ensures runtime.State() == ClosedAll(old(runtime.State()), gone)
    {
      gone := [];
      var ep := eps[b];
      ghost var ep0, rooms0 := ep, runtime.State();
      starved := false;
      var rest := ids;
      ghost var todo := Todo(ids, ep0.evicted);
      ghost var left := todo;
      while rest != []
        invariant !starved
        invariant eps == old(eps) && ep == Marked(ep0, gone)
        invariant left == Todo(rest, ep.evicted) && gone + left == todo
        invariant tokens == old(tokens) - |gone| as real
        invariant gone != [] ==> tokens >= 0.0
        invariant runtime.State() == ClosedAll(rooms0, gone)
        decreases |rest|
      {
        var id := rest[0];
        TodoStep(rest, ep.evicted);
        if id !in ep.evicted {
          if tokens < 1.0 {
            starved := true;
            break;
          }
          tokens := tokens - 1.0;
          MoveHead(gone, left);
          left := left[1..];
          MarkedOnce(ep0, gone, id);
          ep := Episode(ep.deadline, ep.evicted + {id});
          var n := runtime.CloseRoom(id);
          ClosedTwice(rooms0, gone, [id]);
          gone := gone + [id];
        }
        rest := rest[1..];
      }
      // In the source `ep` is shared with the Map; nothing reads it in between.
      eps := eps[b := ep];
      PaysIs(old(tokens), todo, left, starved, gone);
    }
  }

  lemma TodoStep(rooms: seq<string>, done: set<string>)
    requires rooms != []
    ensures rooms[0] in done ==> Todo(rooms, done) == Todo(rooms[1..], done)
    ensures rooms[0] !in done ==>
              && Todo(rooms, done) != [] && Todo(rooms, done)[0] == rooms[0]
              && Todo(rooms, done)[1..] == Todo(rooms[1..], done + {rooms[0]})
  {
  }

  /** The tokens pay for `gone`, a prefix of `todo`. */
  predicate Pays(tokens: real, todo: seq<string>, starved: bool, gone: seq<string>) {
    var k := Affordable(tokens, |todo|);
    starved == (k < |todo|) && gone == todo[..k]
  }

  lemma PaysIs(tokens: real, todo: seq<string>, rest: seq<string>, starved: bool, gone: seq<string>)
    requires todo == gone + rest && (starved <==> rest != [])
    requires gone != [] ==> tokens - |gone| as real >= 0.0
    requires starved ==> tokens - |gone| as real < 1.0
    ensures Pays(tokens, todo, starved, gone)
  {
  }

  /** An episode that has also evicted `gone`. */
  function Marked(ep: Episode, gone: seq<string>): Episode {
    Episode(ep.deadline, ep.evicted + Elements(gone))
  }

  lemma MarkedOnce(ep: Episode, gone: seq<string>, id: string)
    ensures Marked(ep, gone + [id]) == Episode(ep.deadline, Marked(ep, gone).evicted + {id})
  {
  }

  lemma ClosedTwice(rs: Rooms, before: seq<string>, gone: seq<string>)
    ensures ClosedAll(ClosedAll(rs, before), gone) == ClosedAll(rs, before + gone)
  {
  }

  lemma PassDeferred(f: BucketFn, kept: seq<int>, evicted: seq<string>, order: seq<int>, eps: map<int, Episode>,
                     tokens: real, t: int, live: seq<string>)
    requires order != []
    requires order[0] in eps && eps[order[0]].deadline > t
    ensures Prefixed(kept, evicted, Scan(f, order, eps, tokens, t, live))
            == Prefixed(kept + [order[0]], evicted, Scan(f, order[1..], eps, tokens, t, live))
  {
  }

  /** What draining one due bucket evicts, and whether it starves. */
  predicate Drains(f: BucketFn, live: seq<string>, b: int, ep: Episode, tokens: real, starved: bool, gone: seq<string>) {
    Pays(tokens, Todo(InBucket(f, live, b), ep.evicted), starved, gone)
  }

  lemma PassDue(f: BucketFn, kept: seq<int>, evicted: seq<string>, b: int, order: seq<int>, eps: map<int, Episode>,
                tokens: real, left: real, t: int, live: seq<string>, starved: bool, gone: seq<string>)
    requires order != [] && order[0] == b
    requires b in eps && eps[b].deadline <= t
    requires Drains(f, live, b, eps[b], tokens, starved, gone) && left == tokens - |gone| as real
    ensures starved ==>
              Prefixed(kept, evicted, Scan(f, order, eps, tokens, t, live))
              == Pass(kept + order, eps[b := Marked(eps[b], gone)], left, evicted + gone)
    ensures !starved ==>
              Prefixed(kept, evicted, Scan(f, order, eps, tokens, t, live))
              == Prefixed(kept, evicted + gone, Scan(f, order[1..], eps - {b}, left, t, live))
  {
  }

  /** Keys the pass has not reached: each has its episode, and no room of its
      bucket has been evicted. */
  ghost predicate Unvisited(f: BucketFn, rest: seq<int>, eps: map<int, Episode>, evicted: seq<string>) {
    rest == []
    || (&& rest[0] in eps && rest[0] !in rest[1..] && (forall r :: r in evicted ==> f(r) != Some(rest[0]))
        && Unvisited(f, rest[1..], eps, evicted))
  }

  lemma {:induction false} AllUnvisited(f: BucketFn, rest: seq<int>, eps: map<int, Episode>)
    requires Distinct(rest) && forall b :: b in rest ==> b in eps
    ensures Unvisited(f, rest, eps, [])
  {
    if rest != [] {
      var b := rest[0];
      assert rest == [b] + rest[1..] && b in rest;
      AllUnvisited(f, rest[1..], eps);
    }
  }

  lemma {:induction false} StillUnvisited(f: BucketFn, rest: seq<int>, eps: map<int, Episode>, evicted: seq<string>, b: int, gone: seq<string>)
    requires Unvisited(f, rest, eps, evicted) && b !in rest && forall r :: r in gone ==> f(r) == Some(b)
    ensures Unvisited(f, rest, eps - {b}, evicted + gone)
  {
    if rest != [] {
      assert rest == [rest[0]] + rest[1..];
      StillUnvisited(f, rest[1..], eps, evicted, b, gone);
    }
  }

  /** A pass whose first part has kept `kept` and evicted `evicted`. */
  function Prefixed(kept: seq<int>, evicted: seq<string>, p: Pass): Pass {
    Pass(kept + p.kept, p.eps, p.tokens, evicted + p.evicted)
  }

  /** Rooms of other buckets closing does not change the rooms of this one. */
  lemma LaterBucketUnaffected(f: BucketFn, rooms0: Rooms, gone: seq<string>, b: int)
    requires rooms0.Wf()
    requires forall r :: r in gone ==> f(r) != Some(b)
    ensures ClosedAll(rooms0, gone).Wf()
    ensures InBucket(f, LiveRooms(ClosedAll(rooms0, gone)), b) == InBucket(f, LiveRooms(rooms0), b)
  {
    LiveOfClosed(rooms0.order, rooms0, gone);
    OtherBuckets(f, LiveRooms(rooms0), gone, b);
  }

  lemma {:induction false} OtherBuckets(f: BucketFn, live: seq<string>, gone: seq<string>, b: int)
    requires forall r :: r in gone ==> f(r) != Some(b)
    ensures InBucket(f, Without(live, gone), b) == InBucket(f, live, b)
  {
    if live != [] {
      OtherBuckets(f, live[1..], gone, b);
      assert ([live[0]] + Without(live[1..], gone))[1..] == Without(live[1..], gone);
    }
  }

  lemma {:induction false} ScanKeepsWf(f: BucketFn, order: seq<int>, eps: map<int, Episode>, tokens: real, t: int, live: seq<string>)
    requires Distinct(order) && forall b :: b in order ==> b in eps
    ensures var p := Scan(f, order, eps, tokens, t, live);
            && Distinct(p.kept)
            && (forall b :: b in p.kept ==> b in order)
            && (forall b :: b in p.eps <==> b in p.kept || (b in eps && b !in order))
  {
    if order != [] {
      var b := order[0];
      assert order == [b] + order[1..];
      var todo := Todo(InBucket(f, live, b), eps[b].evicted);
      var k := Affordable(tokens, |todo|);
      if eps[b].deadline > t {
        ScanKeepsWf(f, order[1..], eps, tokens, t, live);
        var rest := Scan(f, order[1..], eps, tokens, t, live).kept;
        assert ([b] + rest)[1..] == rest;
      } else if k == |todo| {
        ScanKeepsWf(f, order[1..], eps - {b}, tokens - k as real, t, live);
      }
    }
  }
}
