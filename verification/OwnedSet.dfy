/** Which buckets a host owns under a map, and the difference between two owned
    sets across a reload (src/sharding/ownedSet.js). */
module OwnedSets {
  import opened Wrappers
  import opened ShardMaps

  ghost predicate Owns(rs: seq<Range>, host: string, b: int) {
    exists i :: 0 <= i < |rs| && rs[i].host == host && rs[i].Covers(b)
  }

  /** The buckets lo, lo + 1, ..., hi - 1. */
  function Interval(lo: int, hi: int): (s: set<int>)
    ensures forall b :: b in s <==> lo <= b < hi
    decreases hi - lo
  {
    if lo >= hi then {} else Interval(lo, hi - 1) + {hi - 1}
  }

  /** The buckets of every range assigned to `host`. */
  function OwnedOf(rs: seq<Range>, host: string): (owned: set<int>)
    ensures forall b :: b in owned <==> Owns(rs, host, b)
  {
    if rs == [] then {}
    else
      var r := rs[|rs| - 1];
      var before := OwnedOf(rs[..|rs| - 1], host);
      var here := if r.host == host then Interval(r.low, r.high + 1) else {};
      assert forall b :: r.host == host && r.Covers(b) ==> Owns(rs, host, b);
      assert forall b :: Owns(rs[..|rs| - 1], host, b) ==> Owns(rs, host, b) by {
        assert forall i :: 0 <= i < |rs| - 1 ==> rs[..|rs| - 1][i] == rs[i];
      }
      assert forall b :: Owns(rs, host, b) ==> Owns(rs[..|rs| - 1], host, b) || b in here by {
        assert forall i :: 0 <= i < |rs| - 1 ==> rs[..|rs| - 1][i] == rs[i];
      }
      before + here
  }

  /** ownedBuckets: add every bucket of every matching range. */
  method OwnedBuckets(m: ShardMap, selfHost: string) returns (owned: set<int>)
    ensures owned == OwnedOf(m.ranges, selfHost)
  {
    owned := {};
    for i := 0 to |m.ranges|
      invariant owned == OwnedOf(m.ranges[..i], selfHost)
    {
      var r := m.ranges[i];
      assert m.ranges[..i + 1][..i] == m.ranges[..i];
      if r.host == selfHost {
        ghost var before := owned;
        var b := r.low;
        while b <= r.high
          invariant r.low <= b && (b <= r.high + 1 || b == r.low)
          invariant owned == before + Interval(r.low, b)
        {
          owned := owned + {b};
          b := b + 1;
        }
        assert owned == before + Interval(r.low, r.high + 1);
      }
    }
    assert m.ranges[..|m.ranges|] == m.ranges;
  }

  /** On an accepted map the owned set is exactly what the lookup says. */
  lemma OwnedIsLookup(m: ShardMap, host: string)
    requires Accepted(m)
    ensures OwnedOf(m.ranges, host)
            == set b | 0 <= b < EXPECTED_BUCKETS && HostForBucket(m, b) == Some(host)
  {
    var looked := set b | 0 <= b < EXPECTED_BUCKETS && HostForBucket(m, b) == Some(host);
    forall b
      ensures b in OwnedOf(m.ranges, host) <==> b in looked
    {
      if Owns(m.ranges, host, b) {
        var i :| 0 <= i < |m.ranges| && m.ranges[i].host == host && m.ranges[i].Covers(b);
        assert RangeOk(m.ranges[i]);
        HostIsTheCoveringRange(m, b, i);
      }
    }
  }

  /** The owned sets of the hosts partition the ring. */
  lemma OwnedSetsPartitionTheRing(m: ShardMap, b: int, g: string, h: string)
    requires Accepted(m)
    ensures g != h ==> OwnedOf(m.ranges, g) !! OwnedOf(m.ranges, h)
    ensures 0 <= b < EXPECTED_BUCKETS ==>
              HostForBucket(m, b).Some? && b in OwnedOf(m.ranges, HostForBucket(m, b).value)
    ensures b in OwnedOf(m.ranges, h) ==> 0 <= b < EXPECTED_BUCKETS
  {
    OwnedIsLookup(m, g);
    OwnedIsLookup(m, h);
    if 0 <= b < EXPECTED_BUCKETS {
      EveryBucketHasAHost(m, b);
      OwnedIsLookup(m, HostForBucket(m, b).value);
    }
  }

  datatype Diff = Diff(adopted: bool, acquired: set<int>, relinquished: set<int>)

  /** diffOwned: two loops over sets, in any order. */
  method DiffOwned(oldSet: set<int>, newSet: set<int>) returns (acquired: set<int>, relinquished: set<int>)
    ensures acquired !! oldSet && relinquished <= oldSet
    ensures newSet == oldSet + acquired - relinquished
    ensures acquired <= newSet && relinquished !! newSet
  {
    acquired, relinquished := {}, {};
    var todo := newSet;
    while todo != {}
      invariant todo <= newSet && acquired == newSet - todo - oldSet
      decreases todo
    {
      SomeMember(todo);
      var b :| b in todo;
      if b !in oldSet {
        acquired := acquired + {b};
      }
      todo := todo - {b};
    }
    todo := oldSet;
    while todo != {}
      invariant todo <= oldSet && relinquished == oldSet - todo - newSet
      decreases todo
    {
      SomeMember(todo);
      var b :| b in todo;
      if b !in newSet {
        relinquished := relinquished + {b};
      }
      todo := todo - {b};
    }
  }
}
