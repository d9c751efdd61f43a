/** What the drain guarantees: which rooms a pass evicts, how fast, and that it
    finishes (src/sharding/drainScheduler.js). */
module DrainProofs {
  import opened Wrappers
  import opened Sequences
  import opened Runtimes
  import opened Drain

  // ------------------------------------------------- what one pass evicts

  /** The live rooms of past-deadline episodes that the episode has not evicted
      yet, in scanning order. */
  function Due(f: BucketFn, order: seq<int>, eps: map<int, Episode>, t: int, live: seq<string>): seq<string> {
    if order == [] then []
    else if order[0] in eps && eps[order[0]].deadline <= t then
      Todo(InBucket(f, live, order[0]), eps[order[0]].evicted) + Due(f, order[1..], eps, t, live)
    else Due(f, order[1..], eps, t, live)
  }

  lemma {:induction false} DueFrame(f: BucketFn, order: seq<int>, eps: map<int, Episode>, b: int, t: int, live: seq<string>)
    requires b !in order
    ensures Due(f, order, eps - {b}, t, live) == Due(f, order, eps, t, live)
  {
    if order != [] {
      assert order == [order[0]] + order[1..];
      DueFrame(f, order[1..], eps, b, t, live);
    }
  }

  lemma AffordableSum(tokens: real, a: nat, b: nat)
    ensures Affordable(tokens, a) < a ==> Affordable(tokens, a + b) == Affordable(tokens, a)
    ensures Affordable(tokens, a) == a ==> Affordable(tokens, a + b) == a + Affordable(tokens - a as real, b)
  {
  }

  /** A pass evicts the first floor(tokens) due rooms, or all of them. */
  lemma {:induction false} PassEvictsDue(f: BucketFn, order: seq<int>, eps: map<int, Episode>, tokens: real, t: int, live: seq<string>)
    requires Distinct(order)
    ensures var p := Scan(f, order, eps, tokens, t, live);
            var due := Due(f, order, eps, t, live);
            && p.evicted == due[..Affordable(tokens, |due|)]
            && p.tokens == tokens - |p.evicted| as real
  {
    if order != [] {
      var b := order[0];
      if b !in eps || eps[b].deadline > t {
        PassEvictsDue(f, order[1..], eps, tokens, t, live);
      } else {
        var todo := Todo(InBucket(f, live, b), eps[b].evicted);
        var k := Affordable(tokens, |todo|);
        var later := Due(f, order[1..], eps, t, live);
        AffordableSum(tokens, |todo|, |later|);
        if k < |todo| {
          assert (todo + later)[..k] == todo[..k];
        } else {
          PassEvictsDue(f, order[1..], eps - {b}, tokens - k as real, t, live);
          DueFrame(f, order[1..], eps, b, t, live);
          var n := Affordable(tokens - k as real, |later|);
          assert (todo + later)[..k + n] == todo + later[..n];
        }
      }
    }
  }

  /** Everything a pass does to the episodes, in terms of what it evicted. */
  ghost predicate PassEffect(f: BucketFn, eps: map<int, Episode>, t: int, live: seq<string>, p: Pass) {
    // An episode that stays keeps its deadline and records its evictions.
    && (forall b :: b in p.eps ==>
          && b in eps && p.eps[b].deadline == eps[b].deadline
          && (forall r :: r in p.eps[b].evicted <==> r in eps[b].evicted || (r in p.evicted && f(r) == Some(b))))
    // An episode that is dropped was due and has no live room left over.
    && (forall b :: b in eps && b !in p.eps ==>
          && eps[b].deadline <= t
          && (forall r :: r in live && f(r) == Some(b) ==> r in eps[b].evicted || r in p.evicted))
    // Only live rooms of due episodes are evicted, once per episode.
    && (forall r :: r in p.evicted ==>
          && r in live && f(r).Some? && f(r).value in eps
          && eps[f(r).value].deadline <= t && r !in eps[f(r).value].evicted)
    && Distinct(p.evicted)
  }

  lemma {:induction false} PassDoes(f: BucketFn, order: seq<int>, eps: map<int, Episode>, tokens: real, t: int, live: seq<string>)
    requires Distinct(order) && forall b :: b in eps ==> b in order
    ensures PassEffect(f, eps, t, live, Scan(f, order, eps, tokens, t, live))
  {
    PassDoesPart(f, order, eps, tokens, t, live);
  }

  /** The same for a suffix of the order: other episodes stay as they are. */
  lemma {:induction false} PassDoesPart(f: BucketFn, order: seq<int>, eps: map<int, Episode>, tokens: real, t: int, live: seq<string>)
    requires Distinct(order)
    ensures PassEffect(f, eps, t, live, Scan(f, order, eps, tokens, t, live))
    ensures forall r :: r in Scan(f, order, eps, tokens, t, live).evicted ==> f(r).Some? && f(r).value in order
  {
    var p := Scan(f, order, eps, tokens, t, live);
    if order != [] {
      var b := order[0];
      assert order == [b] + order[1..];
      if b !in eps || eps[b].deadline > t {
        PassDoesPart(f, order[1..], eps, tokens, t, live);
      } else {
        var rooms := InBucket(f, live, b);
        var todo := Todo(rooms, eps[b].evicted);
        var k := Affordable(tokens, |todo|);
        InBucketMembers(f, live, b);
        TodoMembers(rooms, eps[b].evicted);
        PrefixDistinct(todo, k);
        assert forall r :: r in todo[..k] ==> r in todo;
        if k == |todo| {
          assert todo[..k] == todo;
          PassDoesPart(f, order[1..], eps - {b}, tokens - k as real, t, live);
          var rest := Scan(f, order[1..], eps - {b}, tokens - k as real, t, live);
          ConcatDistinct(todo, rest.evicted);
          PassComposes(f, eps, b, t, live, todo, rest);
        }
      }
    }
  }

  lemma PassComposes(f: BucketFn, eps: map<int, Episode>, b: int, t: int, live: seq<string>, todo: seq<string>, rest: Pass)
    requires b in eps && eps[b].deadline <= t
    requires forall r :: r in todo <==> r in live && f(r) == Some(b) && r !in eps[b].evicted
    requires PassEffect(f, eps - {b}, t, live, rest) && Distinct(todo + rest.evicted)
    ensures PassEffect(f, eps, t, live, rest.(evicted := todo + rest.evicted))
  {
  }

  lemma RanDoes(f: BucketFn, s: Sched, c: Config, t: int, live: seq<string>)
    requires s.Wf()
    ensures var (s1, evicted) := Ran(f, s, c, t, live);
            && s1.Wf() && s1.lastRun == t
            && PassEffect(f, s.eps, t, live, Pass(s1.order, s1.eps, s1.tokens, evicted))
            && evicted == Due(f, s.order, s.eps, t, live)[..Affordable(Accrued(s, c, t), |Due(f, s.order, s.eps, t, live)|)]
            && s1.tokens == Accrued(s, c, t) - |evicted| as real
  {
    PassDoes(f, s.order, s.eps, Accrued(s, c, t), t, live);
    PassEvictsDue(f, s.order, s.eps, Accrued(s, c, t), t, live);
    ScanKeepsWf(f, s.order, s.eps, Accrued(s, c, t), t, live);
  }

  // ----------------------------------------------------------------- rate

  /** What happens to a scheduler over time. */
  datatype Op = OpRelinquish(bucket: int, now: int) | OpReacquire(bucket: int) | OpTick(t: int, live: seq<string>)

  function Step(f: BucketFn, c: Config, s: Sched, op: Op): (Sched, nat) {
    match op
    case OpRelinquish(b, now) => (Relinquished(s, c, b, now), 0)
    case OpReacquire(b) => (Reacquired(s, b), 0)
    case OpTick(t, live) => (Ran(f, s, c, t, live).0, |Ran(f, s, c, t, live).1|)
  }

  function Final(f: BucketFn, c: Config, s: Sched, ops: seq<Op>): Sched
    decreases |ops|
  {
    if ops == [] then s else Final(f, c, Step(f, c, s, ops[0]).0, ops[1..])
  }

  /** How many rooms are evicted over a run. */
  function Evictions(f: BucketFn, c: Config, s: Sched, ops: seq<Op>): nat
    decreases |ops|
  {
    if ops == [] then 0 else Step(f, c, s, ops[0]).1 + Evictions(f, c, Step(f, c, s, ops[0]).0, ops[1..])
  }

  /** The clock does not run backwards, and every tick is in [from, to]. */
  predicate Clocked(ops: seq<Op>, last: int, from: int, to: int) {
    ops == []
    || (if ops[0].OpTick? then last <= ops[0].t && from <= ops[0].t <= to && Clocked(ops[1..], ops[0].t, from, to)
        else Clocked(ops[1..], last, from, to))
  }

  predicate TokensInRange(s: Sched, c: Config) {
    0.0 <= s.tokens <= Cap(c.rate)
  }

  lemma PrefixPaid(tokens: real, due: seq<string>)
    requires tokens >= 0.0
    ensures tokens - |due[..Affordable(tokens, |due|)]| as real >= 0.0
  {
  }

  lemma ReacquiredWf(s: Sched, b: int)
    requires s.Wf()
    ensures Reacquired(s, b).Wf()
  {
    WithoutKeepsDistinct(s.order, [b]);
  }

  lemma RelinquishedWf(s: Sched, c: Config, b: int, now: int)
    requires s.Wf()
    ensures Relinquished(s, c, b, now).Wf()
  {
    if b !in s.eps {
      AppendDistinct(s.order, b);
    }
  }

  lemma AccruedRange(s: Sched, c: Config, t: int)
    requires TokensInRange(s, c) && c.rate > 0.0 && t >= s.lastRun
    ensures 0.0 <= Accrued(s, c, t) <= Cap(c.rate)
  {
    var earned := (t - s.lastRun) as real * c.rate;
    NonNegative((t - s.lastRun) as real, c.rate);
    RefillRange(s.tokens, earned, Cap(c.rate));
    assert Accrued(s, c, t) == Refill(s.tokens, earned, Cap(c.rate));
  }

  lemma RefillRange(tokens: real, earned: real, cap: real)
    requires 0.0 <= tokens <= cap && earned >= 0.0
    ensures 0.0 <= Refill(tokens, earned, cap) <= cap
  {
  }

  lemma NonNegative(x: real, y: real)
    requires x >= 0.0 && y >= 0.0
    ensures x * y >= 0.0
  {
  }

  /** `t` is at least k * 1000 / rate milliseconds after `last`. */
  predicate Spaced(rate: real, k: nat, last: int, t: int) {
    last <= t && (t - last) as real * rate >= k as real * 1000.0
  }

  /** The cap leaves room for `k` rooms a tick. */
  predicate Paced(c: Config, k: nat) {
    c.rate > 0.0 && k >= 1 && (k == 1 || k as real <= c.rate)
  }

  lemma AccruedPays(s: Sched, c: Config, t: int, k: nat)
    requires s.tokens >= 0.0 && Paced(c, k) && Spaced(c.rate, k, s.lastRun, t)
    ensures Accrued(s, c, t) >= k as real
  {
    var earned := (t - s.lastRun) as real * c.rate;
    assert Accrued(s, c, t) == Refill(s.tokens, earned, Cap(c.rate));
  }

  /** One step keeps the tokens within [0, max(1, rate)], and spends at most
      what it had plus what accrued. */
  lemma StepSpends(f: BucketFn, c: Config, s: Sched, op: Op)
    requires s.Wf() && TokensInRange(s, c) && c.rate > 0.0 && (op.OpTick? ==> s.lastRun <= op.t)
    ensures var (s1, n) := Step(f, c, s, op);
            && s1.Wf() && TokensInRange(s1, c)
            && (op.OpTick? ==> s1.lastRun == op.t && n as real + s1.tokens == Accrued(s, c, op.t))
            && (!op.OpTick? ==> n == 0 && s1.tokens == s.tokens && s1.lastRun == s.lastRun)
  {
    match op
    case OpTick(t, live) =>
      RanDoes(f, s, c, t, live);
      AccruedRange(s, c, t);
      PrefixPaid(Accrued(s, c, t), Due(f, s.order, s.eps, t, live));
    case OpReacquire(b) => ReacquiredWf(s, b);
    case OpRelinquish(b, now) => RelinquishedWf(s, c, b, now);
  }

  lemma {:induction false} TokensStayInRange(f: BucketFn, c: Config, s: Sched, ops: seq<Op>, from: int, to: int)
    requires s.Wf() && TokensInRange(s, c) && c.rate > 0.0 && Clocked(ops, s.lastRun, from, to)
    decreases |ops|
    ensures Final(f, c, s, ops).Wf() && 0.0 <= Final(f, c, s, ops).tokens <= if c.rate > 1.0 then c.rate else 1.0
  {
    if ops != [] {
      StepSpends(f, c, s, ops[0]);
      TokensStayInRange(f, c, Step(f, c, s, ops[0]).0, ops[1..], from, to);
    }
  }

  /** The tokens that accrue over a stretch of time. */
  function Flow(c: Config, from: int, to: int): real {
    (to - from) as real * c.rate / 1000.0
  }

  lemma FlowAdds(c: Config, a: int, b: int, d: int)
    requires c.rate > 0.0
    ensures Flow(c, a, b) + Flow(c, b, d) == Flow(c, a, d)
    ensures a <= b ==> Flow(c, a, b) >= 0.0
  {
  }

  /** No step spends more than accrues while it passes. */
  lemma StepBudget(f: BucketFn, c: Config, s: Sched, op: Op, to: int)
    requires s.Wf() && TokensInRange(s, c) && c.rate > 0.0 && (op.OpTick? ==> s.lastRun <= op.t)
    ensures var (s1, n) := Step(f, c, s, op);
            && n as real + s1.tokens + Flow(c, s1.lastRun, to) <= s.tokens + Flow(c, s.lastRun, to)
            && (op.OpTick? ==> n as real + s1.tokens <= Cap(c.rate))
  {
    StepSpends(f, c, s, op);
    if op.OpTick? {
      FlowAdds(c, s.lastRun, op.t, to);
      assert Accrued(s, c, op.t) <= s.tokens + Flow(c, s.lastRun, op.t);
    }
  }

  lemma {:induction false} SpendsWhatAccrues(f: BucketFn, c: Config, s: Sched, ops: seq<Op>, from: int, to: int)
    requires s.Wf() && TokensInRange(s, c) && c.rate > 0.0 && Clocked(ops, s.lastRun, from, to) && s.lastRun <= to
    decreases |ops|
    ensures Evictions(f, c, s, ops) as real <= s.tokens + Flow(c, s.lastRun, to)
  {
    if ops == [] {
      FlowAdds(c, s.lastRun, to, to);
    } else {
      var (s1, n) := Step(f, c, s, ops[0]);
      StepSpends(f, c, s, ops[0]);
      StepBudget(f, c, s, ops[0], to);
      SpendsWhatAccrues(f, c, s1, ops[1..], from, to);
      EvictionsStep(f, c, s, ops, s1, n);
    }
  }

  lemma EvictionsStep(f: BucketFn, c: Config, s: Sched, ops: seq<Op>, s1: Sched, n: nat)
    requires ops != [] && (s1, n) == Step(f, c, s, ops[0])
    ensures Evictions(f, c, s, ops) as real == n as real + Evictions(f, c, s1, ops[1..]) as real
  {
  }

  lemma {:induction false} CapAndFlow(f: BucketFn, c: Config, s: Sched, ops: seq<Op>, from: int, to: int)
    requires s.Wf() && TokensInRange(s, c) && c.rate > 0.0 && Clocked(ops, s.lastRun, from, to) && from <= to
    decreases |ops|
    ensures Evictions(f, c, s, ops) as real <= Cap(c.rate) + Flow(c, from, to)
  {
    if ops == [] {
      FlowAdds(c, from, to, to);
    } else {
      var (s1, n) := Step(f, c, s, ops[0]);
      StepSpends(f, c, s, ops[0]);
      StepBudget(f, c, s, ops[0], to);
      EvictionsStep(f, c, s, ops, s1, n);
      if ops[0].OpTick? {
        SpendsWhatAccrues(f, c, s1, ops[1..], from, to);
        AddUp(c, from, s1.lastRun, to, n, s1.tokens, Evictions(f, c, s1, ops[1..]));
      } else {
        CapAndFlow(f, c, s1, ops[1..], from, to);
      }
    }
  }

  lemma AddUp(c: Config, from: int, t: int, to: int, n: nat, left: real, rest: nat)
    requires c.rate > 0.0 && from <= t
    requires n as real + left <= Cap(c.rate) && rest as real <= left + Flow(c, t, to)
    ensures n as real + rest as real <= Cap(c.rate) + Flow(c, from, to)
  {
    FlowAdds(c, from, t, to);
  }

  /** In any stretch whose ticks lie in [from, to], whatever is relinquished and
      reacquired in between, at most max(1, rate) + rate * (to - from) / 1000
      rooms are evicted. */
  lemma RateBound(f: BucketFn, c: Config, s: Sched, ops: seq<Op>, from: int, to: int)
    requires s.Wf() && TokensInRange(s, c) && c.rate > 0.0 && Clocked(ops, s.lastRun, from, to) && from <= to
    ensures Evictions(f, c, s, ops) as real
            <= (if c.rate > 1.0 then c.rate else 1.0) + (to - from) as real * c.rate / 1000.0
  {
    CapAndFlow(f, c, s, ops, from, to);
    BoundIs(c, Evictions(f, c, s, ops), from, to);
  }

  lemma BoundIs(c: Config, n: nat, from: int, to: int)
    requires n as real <= Cap(c.rate) + Flow(c, from, to)
    ensures n as real <= (if c.rate > 1.0 then c.rate else 1.0) + (to - from) as real * c.rate / 1000.0
  {
  }

  // ------------------------------------------------------------- progress

  lemma {:induction false} DueMembers(f: BucketFn, order: seq<int>, eps: map<int, Episode>, t: int, live: seq<string>)
    requires Distinct(order)
    ensures forall r :: r in Due(f, order, eps, t, live) <==>
              (&& r in live && f(r).Some? && f(r).value in order && f(r).value in eps
               && eps[f(r).value].deadline <= t && r !in eps[f(r).value].evicted)
    ensures Distinct(Due(f, order, eps, t, live))
  {
    if order != [] {
      var b := order[0];
      assert order == [b] + order[1..];
      DueMembers(f, order[1..], eps, t, live);
      if b in eps && eps[b].deadline <= t {
        var rooms := InBucket(f, live, b);
        var todo := Todo(rooms, eps[b].evicted);
        InBucketMembers(f, live, b);
        TodoMembers(rooms, eps[b].evicted);
        ConcatDistinct(todo, Due(f, order[1..], eps, t, live));
      }
    }
  }

  lemma Remaining(left: seq<string>, due: seq<string>, gone: seq<string>)
    requires Distinct(left) && Distinct(due) && Distinct(gone)
    requires forall r :: r in gone ==> r in due
    requires forall r :: r in left ==> r in due && r !in gone
    ensures |left| + |gone| <= |due|
  {
    DistinctSize(left);
    DistinctSize(due);
    DistinctSize(gone);
    SubsetSize(Elements(left) + Elements(gone), Elements(due));
    assert Elements(left) !! Elements(gone);
  }

  /** A tick with enough tokens for everything due drops every due episode. */
  lemma {:induction false} UnstarvedPassDropsAll(
    f: BucketFn, order: seq<int>, eps: map<int, Episode>, tokens: real, t: int, live: seq<string>)
    requires Distinct(order) && (forall b :: b in eps ==> eps[b].deadline <= t)
    requires Affordable(tokens, |Due(f, order, eps, t, live)|) == |Due(f, order, eps, t, live)|
    ensures forall b :: b in Scan(f, order, eps, tokens, t, live).eps ==> b !in order
  {
    if order != [] {
      var b := order[0];
      assert order == [b] + order[1..];
      if b !in eps {
        UnstarvedPassDropsAll(f, order[1..], eps, tokens, t, live);
        PassDoesPart(f, order[1..], eps, tokens, t, live);
      } else {
        var todo := Todo(InBucket(f, live, b), eps[b].evicted);
        AffordableSum(tokens, |todo|, |Due(f, order[1..], eps, t, live)|);
        DueFrame(f, order[1..], eps, b, t, live);
        UnstarvedPassDropsAll(f, order[1..], eps - {b}, tokens - |todo| as real, t, live);
        PassDoesPart(f, order[1..], eps - {b}, tokens - |todo| as real, t, live);
      }
    }
  }

  /** A room outside the draining buckets is none of the drain's business. */
  predicate Drained(f: BucketFn, draining: set<int>, r: string) {
    f(r).Some? && f(r).value in draining
  }

  /** Ticks at least k * 1000 / rate milliseconds apart. Between ticks no room of a
      draining bucket becomes live; any other room may come and go. */
  predicate SpacedTicks(f: BucketFn, draining: set<int>, ticks: seq<(int, seq<string>)>, rate: real, k: nat, last: int) {
    ticks == []
    || (&& Spaced(rate, k, last, ticks[0].0)
        && (|ticks| > 1 ==> forall r :: r in ticks[1].1 && Drained(f, draining, r) ==> r in ticks[0].1)
        && SpacedTicks(f, draining, ticks[1..], rate, k, ticks[0].0))
  }

  function Ticked(f: BucketFn, c: Config, s: Sched, ticks: seq<(int, seq<string>)>): Sched
    decreases |ticks|
  {
    if ticks == [] then s else Ticked(f, c, Ran(f, s, c, ticks[0].0, ticks[0].1).0, ticks[1..])
  }

  /** One spaced tick removes `k` due rooms, or all there are. */
  lemma TickProgresses(f: BucketFn, c: Config, s: Sched, k: nat, t: int, live: seq<string>, t1: int, live1: seq<string>)
    requires s.Wf() && TokensInRange(s, c) && Paced(c, k)
    requires Spaced(c.rate, k, s.lastRun, t)
    requires forall b :: b in s.eps ==> s.eps[b].deadline <= t
    requires forall r :: r in live1 && Drained(f, s.eps.Keys, r) ==> r in live
    ensures var s1 := Ran(f, s, c, t, live).0;
            var due := Due(f, s.order, s.eps, t, live);
            && s1.Wf() && TokensInRange(s1, c) && s1.lastRun == t
            && (forall b :: b in s1.eps ==> b in s.eps && s1.eps[b].deadline == s.eps[b].deadline)
            && |Due(f, s1.order, s1.eps, t1, live1)| <= (if |due| > k then |due| - k else 0)
            && (|due| <= k ==> forall b :: b !in s1.eps)
  {
    var (s1, evicted) := Ran(f, s, c, t, live);
    RanDoes(f, s, c, t, live);
    StepSpends(f, c, s, OpTick(t, live));
    AccruedPays(s, c, t, k);
    PaysFor(Accrued(s, c, t), |Due(f, s.order, s.eps, t, live)|, k);
    DueShrinks(f, s, s1, evicted, t, live, t1, live1);
    if |Due(f, s.order, s.eps, t, live)| <= k {
      UnstarvedPassDropsAll(f, s.order, s.eps, Accrued(s, c, t), t, live);
      assert forall b :: b in s1.eps ==> b in s.order;
    }
  }

  lemma PaysFor(tokens: real, n: nat, k: nat)
    requires tokens >= k as real
    ensures Affordable(tokens, n) >= if n < k then n else k
  {
  }

  lemma DueShrinks(f: BucketFn, s: Sched, s1: Sched, evicted: seq<string>, t: int, live: seq<string>, t1: int, live1: seq<string>)
    requires s.Wf() && s1.Wf() && PassEffect(f, s.eps, t, live, Pass(s1.order, s1.eps, s1.tokens, evicted))
    requires forall b :: b in s.eps ==> s.eps[b].deadline <= t
    requires forall r :: r in live1 && Drained(f, s.eps.Keys, r) ==> r in live
    ensures |Due(f, s1.order, s1.eps, t1, live1)| + |evicted| <= |Due(f, s.order, s.eps, t, live)|
  {
    DueMembers(f, s.order, s.eps, t, live);
    DueMembers(f, s1.order, s1.eps, t1, live1);
    var due, left := Due(f, s.order, s.eps, t, live), Due(f, s1.order, s1.eps, t1, live1);
    forall r | r in evicted
      ensures r in due
    {
      var b := f(r).value;
      assert b in s.eps && b in s.order;
    }
    forall r | r in left
      ensures r in due && r !in evicted
    {
      var b := f(r).value;
      assert b in s1.eps && b in s.eps && b in s.order && Drained(f, s.eps.Keys, r);
    }
    Remaining(left, due, evicted);
  }

  /** `k` rooms for each of `n` ticks. */
  function Quota(k: nat, n: nat): (q: nat)
    ensures q == k * n
  {
    if n == 0 then 0 else k + Quota(k, n - 1)
  }

  lemma {:induction false} TicksFinish(f: BucketFn, c: Config, s: Sched, k: nat, draining: set<int>,
                                       ticks: seq<(int, seq<string>)>)
    requires s.Wf() && TokensInRange(s, c) && s.eps.Keys <= draining && Paced(c, k)
    requires ticks != [] && SpacedTicks(f, draining, ticks, c.rate, k, s.lastRun)
    requires forall b :: b in s.eps ==> s.eps[b].deadline <= ticks[0].0
    requires |Due(f, s.order, s.eps, ticks[0].0, ticks[0].1)| <= Quota(k, |ticks|)
    decreases |ticks|
    ensures forall b :: b !in Ticked(f, c, s, ticks).eps
  {
    var (t, live) := ticks[0];
    if |ticks| == 1 {
      TickProgresses(f, c, s, k, t, live, t, live);
    } else {
      TickProgresses(f, c, s, k, t, live, ticks[1].0, ticks[1].1);
      var s1 := Ran(f, s, c, t, live).0;
      assert forall b :: b in s1.eps.Keys ==> b in s.eps.Keys;
      TicksFinish(f, c, s1, k, draining, ticks[1..]);
    }
  }

  /** The drain keeps up with its rate. For every k >= 1 that is 1 or at most the
      rate, and ticks at least k * 1000 / rate milliseconds apart, R due rooms take at
      most R / k ticks, rounded up: then no episode is left. */
  lemma DrainFinishes(f: BucketFn, c: Config, s: Sched, k: nat, draining: set<int>,
                      ticks: seq<(int, seq<string>)>)
    requires s.Wf() && TokensInRange(s, c) && s.eps.Keys <= draining
    requires c.rate > 0.0 && k >= 1 && (k == 1 || k as real <= c.rate)
    requires ticks != [] && SpacedTicks(f, draining, ticks, c.rate, k, s.lastRun)
    requires forall b :: b in s.eps ==> s.eps[b].deadline <= ticks[0].0
    requires |Due(f, s.order, s.eps, ticks[0].0, ticks[0].1)| <= k * |ticks|
    ensures forall b :: b !in Ticked(f, c, s, ticks).eps
  {
    TicksFinish(f, c, s, k, draining, ticks);
  }

  /** When every episode is due, it does not matter at which time one looks. */
  lemma {:induction false} DueAtAnyTime(f: BucketFn, order: seq<int>, eps: map<int, Episode>, t0: int, t: int,
                                        live: seq<string>)
    requires t0 <= t && forall b :: b in eps ==> eps[b].deadline <= t0
    ensures Due(f, order, eps, t, live) == Due(f, order, eps, t0, live)
  {
    if order != [] {
      DueAtAnyTime(f, order[1..], eps, t0, t, live);
    }
  }

  /** Episodes ending, and rooms of draining buckets closing, leave less to do. */
  lemma DueNotRaised(f: BucketFn, s: Sched, s1: Sched, t: int, live: seq<string>, live1: seq<string>)
    requires s.Wf() && s1.Wf() && forall b :: b in s1.eps ==> b in s.eps && s1.eps[b] == s.eps[b]
    requires forall r :: r in live1 && Drained(f, s1.eps.Keys, r) ==> r in live
    ensures |Due(f, s1.order, s1.eps, t, live1)| <= |Due(f, s.order, s.eps, t, live)|
  {
    DueMembers(f, s.order, s.eps, t, live);
    DueMembers(f, s1.order, s1.eps, t, live1);
    var due, left := Due(f, s.order, s.eps, t, live), Due(f, s1.order, s1.eps, t, live1);
    forall r | r in left
      ensures r in due
    {
      var b := f(r).value;
      assert b in s1.eps && b in s.eps && b in s.order && Drained(f, s1.eps.Keys, r);
    }
    Remaining(left, due, []);
  }
}
