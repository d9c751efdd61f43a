/** Fixed-window rate limits: the room's own counters (src/room.js, rateLimited)
    and the host's per-key limiter with a bounded number of keys
    (host/server.js, makeLimiter). */
module Limits {
  import opened Sequences

  datatype Window = Window(start: int, count: nat)

  predicate Expired(w: Window, now: int, windowMs: int) {
    now - w.start > windowMs
  }

  /** The window after one more hit at `now`. */
  function Bumped(w: Window, now: int, windowMs: int): Window {
    if Expired(w, now, windowMs) then Window(now, 1) else Window(w.start, w.count + 1)
  }

  class FixedWindow {
    var start: int
    var count: nat

    ghost function State(): Window
      reads this
    {
      Window(start, count)
    }

    constructor ()
      ensures State() == Window(0, 0)
    {
      start, count := 0, 0;
    }

    method RateLimited(max: nat, windowMs: int, now: int) returns (limited: bool)
      modifies this
      ensures State() == Bumped(old(State()), now, windowMs)
      ensures limited <==> State().count > max
    {
      if now - start > windowMs {
        start := now;
        count := 0;
      }
      count := count + 1;
      limited := count > max;
    }
  }

  // -------------------------------------------- how much a window lets through

  predicate Sorted(hits: seq<int>) {
    |hits| <= 1 || (hits[0] <= hits[1] && Sorted(hits[1..]))
  }

  /** Of the hits, how many in [from, to] are let through. */
  function LetThrough(w: Window, hits: seq<int>, max: nat, windowMs: int, from: int, to: int): nat
    decreases |hits|
  {
    if hits == [] then 0
    else
      var w1 := Bumped(w, hits[0], windowMs);
      (if w1.count <= max && from <= hits[0] <= to then 1 else 0)
      + LetThrough(w1, hits[1..], max, windowMs, from, to)
  }

  /** A window begun inside the interval lasts to its end. */
  lemma {:induction false} OneWindowBound(w: Window, hits: seq<int>, max: nat, windowMs: int, from: int, to: int)
    requires Sorted(hits) && to <= from + windowMs && from <= w.start && (hits != [] ==> from <= hits[0])
    decreases |hits|
    ensures LetThrough(w, hits, max, windowMs, from, to) <= if w.count < max then max - w.count else 0
  {
    if hits != [] {
      if hits[0] > to {
        NoneAfter(w, hits, max, windowMs, from, to);
      } else {
        OneWindowBound(Bumped(w, hits[0], windowMs), hits[1..], max, windowMs, from, to);
      }
    }
  }

  lemma {:induction false} NoneAfter(w: Window, hits: seq<int>, max: nat, windowMs: int, from: int, to: int)
    requires Sorted(hits) && (hits != [] ==> hits[0] > to)
    decreases |hits|
    ensures LetThrough(w, hits, max, windowMs, from, to) == 0
  {
    if hits != [] {
      NoneAfter(Bumped(w, hits[0], windowMs), hits[1..], max, windowMs, from, to);
    }
  }

  /** Once the interval has begun, at most what is left of the current window
      and one more window. */
  lemma {:induction false} TwoWindowsFrom(w: Window, hits: seq<int>, max: nat, windowMs: int, from: int, to: int)
    requires Sorted(hits) && to <= from + windowMs && (hits != [] ==> from <= hits[0])
    decreases |hits|
    ensures LetThrough(w, hits, max, windowMs, from, to) <= max + if w.count < max then max - w.count else 0
  {
    if hits != [] {
      var w1 := Bumped(w, hits[0], windowMs);
      if hits[0] > to {
        NoneAfter(w, hits, max, windowMs, from, to);
      } else if Expired(w, hits[0], windowMs) {
        OneWindowBound(w1, hits[1..], max, windowMs, from, to);
      } else {
        TwoWindowsFrom(w1, hits[1..], max, windowMs, from, to);
      }
    }
  }

  /** Whatever came before, a closed interval no longer than the window lets
      through at most twice the limit. */
  lemma {:induction false} TwiceTheLimit(w: Window, hits: seq<int>, max: nat, windowMs: int, from: int, to: int)
    requires Sorted(hits) && to <= from + windowMs
    decreases |hits|
    ensures LetThrough(w, hits, max, windowMs, from, to) <= 2 * max
  {
    if hits != [] {
      if hits[0] < from {
        TwiceTheLimit(Bumped(w, hits[0], windowMs), hits[1..], max, windowMs, from, to);
      } else {
        TwoWindowsFrom(w, hits, max, windowMs, from, to);
      }
    }
  }

  // ----------------------------------------- calm callers are never limited

  /** How many hits came at `from` or later. */
  function Recent(hits: seq<int>, from: int): nat {
    if hits == [] then 0
    else Recent(hits[..|hits| - 1], from) + if hits[|hits| - 1] >= from then 1 else 0
  }

  function CountIn(hits: seq<int>, from: int, to: int): nat {
    if hits == [] then 0 else (if from <= hits[0] <= to then 1 else 0) + CountIn(hits[1..], from, to)
  }

  /** At each of `hits`, which come after `before`, at most `max` hits lie within the
      window's length, the hit itself included. */
  predicate Calm(before: seq<int>, hits: seq<int>, max: nat, windowMs: int)
    decreases |hits|
  {
    hits == []
    || (&& Recent(before + [hits[0]], hits[0] - windowMs) <= max
        && Calm(before + [hits[0]], hits[1..], max, windowMs))
  }

  lemma {:induction false} RecentSince(hits: seq<int>, from: int, later: int)
    requires from <= later
    ensures Recent(hits, later) <= Recent(hits, from)
  {
    if hits != [] {
      RecentSince(hits[..|hits| - 1], from, later);
    }
  }

  /** A window counts no hit from before it began. */
  predicate CountsOwn(w: Window, before: seq<int>) {
    w.count <= Recent(before, w.start)
  }

  lemma StillCountsOwn(w: Window, before: seq<int>, now: int, max: nat, windowMs: int)
    requires CountsOwn(w, before) && w.start <= now && Recent(before + [now], now - windowMs) <= max && windowMs >= 0
    ensures var w1 := Bumped(w, now, windowMs);
            w1.start <= now && CountsOwn(w1, before + [now]) && w1.count <= max
  {
    var w1, hits := Bumped(w, now, windowMs), before + [now];
    assert hits[..|hits| - 1] == before;
    RecentSince(hits, now - windowMs, w1.start);
  }

  /** If at most `max` hits ever lie within a window's length, every hit is let
      through. */
  lemma {:induction false} CalmHitsPass(w: Window, before: seq<int>, hits: seq<int>, max: nat, windowMs: int, from: int, to: int)
    requires CountsOwn(w, before) && Sorted(hits) && (hits != [] ==> w.start <= hits[0]) && windowMs >= 0
    requires Calm(before, hits, max, windowMs)
    ensures LetThrough(w, hits, max, windowMs, from, to) == CountIn(hits, from, to)
    decreases |hits|
  {
    if hits != [] {
      StillCountsOwn(w, before, hits[0], max, windowMs);
      CalmHitsPass(Bumped(w, hits[0], windowMs), before + [hits[0]], hits[1..], max, windowMs, from, to);
    }
  }

  // ------------------------------------------------- the per-key limiter

  /** The bucket of `key` after a hit, given the buckets before it. */
  function Struck(buckets: map<string, Window>, key: string, now: int, windowMs: int): Window {
    if key in buckets then Bumped(buckets[key], now, windowMs) else Window(now, 1)
  }

  /** The reference limiter: every key keeps its window for ever. */
  function Unbounded(buckets: map<string, Window>, key: string, now: int, windowMs: int): map<string, Window> {
    buckets[key := Struck(buckets, key, now, windowMs)]
  }

  function InWindow(buckets: map<string, Window>, now: int, windowMs: int): set<string> {
    set k | k in buckets && !Expired(buckets[k], now, windowMs)
  }

  /** The Map of buckets: its keys in insertion order, and their windows. */
  ghost predicate Matches(order: seq<string>, buckets: map<string, Window>) {
    Distinct(order) && forall k :: k in order <==> k in buckets
  }

  /** `small` is `full` without some keys. */
  ghost predicate Subset(small: map<string, Window>, full: map<string, Window>) {
    forall k :: k in small ==> k in full && small[k] == full[k]
  }

  lemma SizeOfMap(order: seq<string>, buckets: map<string, Window>)
    requires Matches(order, buckets)
    ensures |buckets| == |order|
  {
    DistinctSize(order);
    assert buckets.Keys == Elements(order);
  }

  lemma DropOne(order: seq<string>, buckets: map<string, Window>, k: string)
    requires Matches(order, buckets)
    ensures Matches(Without(order, [k]), buckets - {k})
  {
    WithoutKeepsDistinct(order, [k]);
  }

  class Limiter {
    const limit: nat
    const windowMs: int
    const maxKeys: nat
    var order: seq<string>
    var buckets: map<string, Window>

    ghost predicate Valid()
      reads this
    {
      Matches(order, buckets)
    }

    constructor (limit: nat, windowMs: int, maxKeys: nat)
      ensures Valid() && buckets == map[]
      ensures this.limit == limit && this.windowMs == windowMs && this.maxKeys == maxKeys
    {
      this.limit, this.windowMs, this.maxKeys := limit, windowMs, maxKeys;
      order, buckets := [], map[];
    }

    /** over(key): the answer depends on the bucket of the key alone; the map
        then holds at most maxKeys buckets, each one of the unbounded map's, and
        as long as the keys still in their window fit, only expired ones are
        missing. */
    method Over(key: string, now: int) returns (limited: bool)
      requires Valid()
      modifies this
      ensures Valid()
      ensures limited <==> Struck(old(buckets), key, now, windowMs).count > limit
      ensures Swept(buckets, Unbounded(old(buckets), key, now, windowMs), now, windowMs, maxKeys)
      ensures |buckets| <= maxKeys
    {
      var b := Struck(buckets, key, now, windowMs);
      if key !in buckets {
        AppendDistinct(order, key);
        order := order + [key];
      }
      buckets := buckets[key := b];
      SizeOfMap(order, buckets);
      if |order| > maxKeys {
        SweepExpired(now);
        SizeOfMap(order, buckets);
        EvictOldest();
      }
      SizeOfMap(order, buckets);
      limited := b.count > limit;
    }

    /** Sweep the expired buckets. */
    method SweepExpired(now: int)
      requires Valid()
      modifies this`order, this`buckets
      ensures Valid() && Subset(buckets, old(buckets))
      ensures buckets.Keys == InWindow(old(buckets), now, windowMs)
    {
      var rest := order;
      ghost var before := buckets;
      while rest != []
        invariant Valid() && Subset(buckets, before) && (forall k :: k in rest ==> k in before)
        invariant forall k :: k in before && !Expired(before[k], now, windowMs) ==> k in buckets
        invariant forall k :: k in buckets ==> k in rest || !Expired(before[k], now, windowMs)
        decreases |rest|
      {
        var k := rest[0];
        assert rest == [k] + rest[1..];
        if k in buckets && now - buckets[k].start > windowMs {
          DropOne(order, buckets, k);
          order := Without(order, [k]);
          buckets := buckets - {k};
        }
        rest := rest[1..];
      }
      assert buckets.Keys == InWindow(before, now, windowMs);
    }

    /** Evict oldest by insertion until the cap is met. */
    method EvictOldest()
      requires Valid()
      modifies this`order, this`buckets
      ensures Valid() && Subset(buckets, old(buckets))
      ensures |order| <= maxKeys
      ensures |old(order)| <= maxKeys ==> buckets == old(buckets)
    {
      ghost var before := buckets;
      while |order| > maxKeys
        invariant Valid() && Subset(buckets, before)
        invariant |old(order)| <= maxKeys ==> buckets == before && order == old(order)
        decreases |order|
      {
        var oldest := order[0];
        DropHead(order, buckets);
        order := order[1..];
        buckets := buckets - {oldest};
      }
    }
  }

  lemma DropHead(order: seq<string>, buckets: map<string, Window>)
    requires Matches(order, buckets) && order != []
    ensures Matches(order[1..], buckets - {order[0]})
  {
  }

  /** What a call may leave of the unbounded map. */
  ghost predicate Swept(small: map<string, Window>, full: map<string, Window>, now: int, windowMs: int, maxKeys: nat) {
    && Subset(small, full)
    && (|InWindow(full, now, windowMs)| <= maxKeys ==>
          forall k :: k in full && k !in small ==> Expired(full[k], now, windowMs))
  }

  // -------------------------------------------- refinement over whole runs

  datatype Call = Call(key: string, now: int)

  /** The bounded map stays related to the unbounded one: equal where it has the
      key, and missing only expired keys. */
  ghost predicate Related(small: map<string, Window>, full: map<string, Window>, now: int, windowMs: int) {
    Subset(small, full) && forall k :: k in full && k !in small ==> Expired(full[k], now, windowMs)
  }

  /** The answers of the reference limiter along a run. */
  function Answers(full: map<string, Window>, calls: seq<Call>, limit: nat, windowMs: int): seq<bool>
    decreases |calls|
  {
    if calls == [] then []
    else
      [Struck(full, calls[0].key, calls[0].now, windowMs).count > limit]
      + Answers(Unbounded(full, calls[0].key, calls[0].now, windowMs), calls[1..], limit, windowMs)
  }

  /** After every call, at most maxKeys keys are in their window; and the clock
      does not run backwards. */
  ghost predicate Fits(full: map<string, Window>, calls: seq<Call>, last: int, windowMs: int, maxKeys: nat)
    decreases |calls|
  {
    calls == []
    || (var full1 := Unbounded(full, calls[0].key, calls[0].now, windowMs);
        && last <= calls[0].now && |InWindow(full1, calls[0].now, windowMs)| <= maxKeys
        && Fits(full1, calls[1..], calls[0].now, windowMs, maxKeys))
  }

  lemma RelatedStep(small: map<string, Window>, small1: map<string, Window>, full: map<string, Window>,
                    c: Call, last: int, windowMs: int, maxKeys: nat)
    requires Related(small, full, last, windowMs) && last <= c.now
    requires Swept(small1, Unbounded(small, c.key, c.now, windowMs), c.now, windowMs, maxKeys)
    requires |InWindow(Unbounded(full, c.key, c.now, windowMs), c.now, windowMs)| <= maxKeys
    ensures Struck(small, c.key, c.now, windowMs) == Struck(full, c.key, c.now, windowMs)
    ensures Related(small1, Unbounded(full, c.key, c.now, windowMs), c.now, windowMs)
  {
    var s1, f1 := Unbounded(small, c.key, c.now, windowMs), Unbounded(full, c.key, c.now, windowMs);
    assert InWindow(s1, c.now, windowMs) <= InWindow(f1, c.now, windowMs);
    SubsetSize(InWindow(s1, c.now, windowMs), InWindow(f1, c.now, windowMs));
  }

  /** `maps` are the successive buckets of a limiter, as `Limiter.Over` leaves
      them. */
  ghost predicate BoundedRun(maps: seq<map<string, Window>>, calls: seq<Call>, windowMs: int, maxKeys: nat) {
    && |maps| == |calls| + 1
    && forall i :: 0 <= i < |calls| ==>
         Swept(maps[i + 1], Unbounded(maps[i], calls[i].key, calls[i].now, windowMs), calls[i].now, windowMs, maxKeys)
  }

  function BoundedAnswers(maps: seq<map<string, Window>>, calls: seq<Call>, limit: nat, windowMs: int): seq<bool>
    requires |maps| == |calls| + 1
    decreases |calls|
  {
    if calls == [] then []
    else
      [Struck(maps[0], calls[0].key, calls[0].now, windowMs).count > limit]
      + BoundedAnswers(maps[1..], calls[1..], limit, windowMs)
  }

  /** On every run on which the keys in their window fit, the bounded limiter
      answers as the unbounded one. */
  lemma {:induction false} BoundedRefinesUnbounded(
    maps: seq<map<string, Window>>, full: map<string, Window>, calls: seq<Call>,
    last: int, limit: nat, windowMs: int, maxKeys: nat)
    requires BoundedRun(maps, calls, windowMs, maxKeys) && Related(maps[0], full, last, windowMs)
    requires Fits(full, calls, last, windowMs, maxKeys)
    decreases |calls|
    ensures BoundedAnswers(maps, calls, limit, windowMs) == Answers(full, calls, limit, windowMs)
  {
    if calls != [] {
      var c := calls[0];
      RelatedStep(maps[0], maps[1], full, c, last, windowMs, maxKeys);
      assert forall i :: 0 <= i < |calls[1..]| ==> calls[1..][i] == calls[i + 1] && maps[1..][i + 1] == maps[i + 2];
      BoundedRefinesUnbounded(maps[1..], Unbounded(full, c.key, c.now, windowMs), calls[1..], c.now, limit, windowMs, maxKeys);
    }
  }

  // ------------------------------------------------------ twice, per key

  /** The times of one key's calls. */
  function HitsOf(calls: seq<Call>, key: string): seq<int> {
    if calls == [] then []
    else (if calls[0].key == key then [calls[0].now] else []) + HitsOf(calls[1..], key)
  }

  /** How many calls of one key in [from, to] were let through. */
  function Passes(answers: seq<bool>, calls: seq<Call>, key: string, from: int, to: int): nat
    requires |answers| == |calls|
    decreases |calls|
  {
    if calls == [] then 0
    else
      (if calls[0].key == key && !answers[0] && from <= calls[0].now <= to then 1 else 0)
      + Passes(answers[1..], calls[1..], key, from, to)
  }

  predicate CallsForward(calls: seq<Call>, last: int) {
    calls == [] || (last <= calls[0].now && CallsForward(calls[1..], calls[0].now))
  }

  lemma {:induction false} AnswerForEach(full: map<string, Window>, calls: seq<Call>, limit: nat, windowMs: int)
    ensures |Answers(full, calls, limit, windowMs)| == |calls|
    decreases |calls|
  {
    if calls != [] {
      AnswerForEach(Unbounded(full, calls[0].key, calls[0].now, windowMs), calls[1..], limit, windowMs);
    }
  }

  lemma {:induction false} HitsSorted(calls: seq<Call>, key: string, last: int)
    requires CallsForward(calls, last)
    ensures Sorted(HitsOf(calls, key)) && (HitsOf(calls, key) != [] ==> last <= HitsOf(calls, key)[0])
  {
    if calls != [] {
      var later := HitsOf(calls[1..], key);
      HitsSorted(calls[1..], key, calls[0].now);
      assert ([calls[0].now] + later)[1..] == later && [] + later == later;
    }
  }

  /** One key of the unbounded limiter is one window: `w`, or any expired one if
      the key is new. */
  lemma {:induction false} PassesAreLetThrough(
    full: map<string, Window>, calls: seq<Call>, key: string, w: Window, limit: nat, windowMs: int, from: int, to: int)
    requires key in full ==> w == full[key]
    requires key !in full && HitsOf(calls, key) != [] ==> Expired(w, HitsOf(calls, key)[0], windowMs)
    requires |Answers(full, calls, limit, windowMs)| == |calls|
    ensures Passes(Answers(full, calls, limit, windowMs), calls, key, from, to)
            == LetThrough(w, HitsOf(calls, key), limit, windowMs, from, to)
    decreases |calls|
  {
    if calls != [] {
      var c, later := calls[0], HitsOf(calls[1..], key);
      var full1 := Unbounded(full, c.key, c.now, windowMs);
      var rest := Answers(full1, calls[1..], limit, windowMs);
      assert Answers(full, calls, limit, windowMs)[1..] == rest;
      assert ([c.now] + later)[1..] == later && [] + later == later;
      if c.key == key {
        PassesAreLetThrough(full1, calls[1..], key, Bumped(w, c.now, windowMs), limit, windowMs, from, to);
      } else {
        PassesAreLetThrough(full1, calls[1..], key, w, limit, windowMs, from, to);
      }
    }
  }

  /** Whatever other keys do, a closed interval no longer than the window lets
      through at most twice the limit of one key's calls. */
  lemma TwiceTheLimitPerKey(
    full: map<string, Window>, calls: seq<Call>, key: string, last: int, limit: nat, windowMs: int, from: int, to: int)
    requires CallsForward(calls, last) && to <= from + windowMs
    ensures |Answers(full, calls, limit, windowMs)| == |calls|
    ensures Passes(Answers(full, calls, limit, windowMs), calls, key, from, to) <= 2 * limit
  {
    var hits := HitsOf(calls, key);
    var w := if key in full then full[key] else if hits == [] then Window(0, 0) else Window(hits[0] - windowMs - 1, 0);
    AnswerForEach(full, calls, limit, windowMs);
    HitsSorted(calls, key, last);
    PassesAreLetThrough(full, calls, key, w, limit, windowMs, from, to);
    TwiceTheLimit(w, hits, limit, windowMs, from, to);
  }

  lemma {:induction false} FitsForward(full: map<string, Window>, calls: seq<Call>, last: int, windowMs: int, maxKeys: nat)
    requires Fits(full, calls, last, windowMs, maxKeys)
    ensures CallsForward(calls, last)
    decreases |calls|
  {
    if calls != [] {
      FitsForward(Unbounded(full, calls[0].key, calls[0].now, windowMs), calls[1..], calls[0].now, windowMs, maxKeys);
    }
  }

  /** The same for the limiter with a bounded map, while the keys in their window fit. */
  lemma TwiceTheLimitBounded(
    maps: seq<map<string, Window>>, full: map<string, Window>, calls: seq<Call>, key: string,
    last: int, limit: nat, windowMs: int, maxKeys: nat, from: int, to: int)
    requires BoundedRun(maps, calls, windowMs, maxKeys) && Related(maps[0], full, last, windowMs)
    requires Fits(full, calls, last, windowMs, maxKeys) && to <= from + windowMs
    ensures |BoundedAnswers(maps, calls, limit, windowMs)| == |calls|
    ensures Passes(BoundedAnswers(maps, calls, limit, windowMs), calls, key, from, to) <= 2 * limit
  {
    BoundedRefinesUnbounded(maps, full, calls, last, limit, windowMs, maxKeys);
    AnswerForEach(full, calls, limit, windowMs);
    FitsForward(full, calls, last, windowMs, maxKeys);
    TwiceTheLimitPerKey(full, calls, key, last, limit, windowMs, from, to);
  }

  /** Whatever other keys do, a key that never makes more than the limit within a
      window's length is never refused. */
  lemma CalmKeyPasses(calls: seq<Call>, key: string, last: int, limit: nat, windowMs: int, from: int, to: int)
    requires CallsForward(calls, last) && Calm([], HitsOf(calls, key), limit, windowMs) && windowMs >= 0
    ensures |Answers(map[], calls, limit, windowMs)| == |calls|
    ensures Passes(Answers(map[], calls, limit, windowMs), calls, key, from, to) == CountIn(HitsOf(calls, key), from, to)
  {
    var hits := HitsOf(calls, key);
    var w := if hits == [] then Window(0, 0) else Window(hits[0] - windowMs - 1, 0);
    AnswerForEach(map[], calls, limit, windowMs);
    HitsSorted(calls, key, last);
    PassesAreLetThrough(map[], calls, key, w, limit, windowMs, from, to);
    CalmHitsPass(w, [], hits, limit, windowMs, from, to);
  }
}
