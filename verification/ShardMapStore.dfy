/** The map a host holds, and the poller that feeds it
    (src/sharding/shardMapStore.js, src/sharding/shardMapPoller.js). */
module ShardMapStores {
  import opened Wrappers
  import opened ShardMaps
  import opened OwnedSets

  datatype StoreState = StoreState(held: Option<ShardMap>, owned: set<int>) {
    function Version(): int {
      if held.Some? then held.value.version else -1
    }
  }

  const EMPTY := StoreState(None, {})

  const NO_CHANGE := Diff(false, {}, {})

  /** What adopting or ignoring a validated map does to the store. */
  function Applied(s: StoreState, selfHost: string, m: ShardMap): (StoreState, Diff) {
    if s.held.Some? && m.version <= s.held.value.version then (s, NO_CHANGE)
    else
      var owned := OwnedOf(m.ranges, selfHost);
      (StoreState(Some(m), owned), Diff(true, owned - s.owned, s.owned - owned))
  }

  class ShardMapStore {
    const selfHost: string
    var held: Option<ShardMap>
    var owned: set<int>

    ghost function State(): StoreState
      reads this
    {
      StoreState(held, owned)
    }

    constructor (selfHost: string)
      ensures State() == EMPTY && this.selfHost == selfHost
    {
      this.selfHost := selfHost;
      held := None;
      owned := {};
    }

    method ApplyFetched(m: ShardMap) returns (diff: Diff)
      modifies this
      ensures (State(), diff) == Applied(old(State()), selfHost, m)
    {
      if held.Some? && m.version <= held.value.version {
        return NO_CHANGE;
      }
      var newOwned := OwnedBuckets(m, selfHost);
      var acquired, relinquished := DiffOwned(owned, newOwned);
      assert acquired == newOwned - owned && relinquished == owned - newOwned;
      held := Some(m);
      owned := newOwned;
      return Diff(true, acquired, relinquished);
    }

    method ApplyFetchError()
      ensures State() == old(State())
    {
    }

    method OwnsBucket(b: int) returns (owns: bool)
      ensures owns <==> b in State().owned
    {
      owns := b in owned;
    }
  }

  // --------------------------------------------------------------- poller

  /** How one fetch ends: no response, a response that is not a map, a map
      (valid or not). */
  datatype FetchOutcome = FetchFailed | Malformed | Parsed(m: ShardMap)

  ghost predicate Good(o: FetchOutcome) {
    o.Parsed? && Accepted(o.m)
  }

  ghost function Polled(s: StoreState, selfHost: string, o: FetchOutcome): (StoreState, Diff) {
    if Good(o) then Applied(s, selfHost, o.m) else (s, NO_CHANGE)
  }

  class ShardMapPoller {
    const store: ShardMapStore

    constructor (store: ShardMapStore)
      ensures this.store == store
    {
      this.store := store;
    }

    /** fetchOnce: only a fetched, parsed and validated map reaches the store. */
    method FetchOnce(o: FetchOutcome) returns (ok: bool, diff: Diff)
      modifies store
      ensures ok <==> Good(o)
      ensures (store.State(), diff) == Polled(old(store.State()), store.selfHost, o)
    {
      if o.FetchFailed? || o.Malformed? {
        store.ApplyFetchError();
        return false, NO_CHANGE;
      }
      var err := Validate(o.m);
      if err.Some? {
        store.ApplyFetchError();
        return false, NO_CHANGE;
      }
      diff := store.ApplyFetched(o.m);
      ok := true;
    }
  }

  // ------------------------------------------------- runs of fetch outcomes

  ghost function After(outs: seq<FetchOutcome>, selfHost: string): StoreState {
    if outs == [] then EMPTY
    else Polled(After(outs[..|outs| - 1], selfHost), selfHost, outs[|outs| - 1]).0
  }

  ghost function Diffs(outs: seq<FetchOutcome>, selfHost: string): seq<Diff> {
    if outs == [] then []
    else
      Diffs(outs[..|outs| - 1], selfHost)
      + [Polled(After(outs[..|outs| - 1], selfHost), selfHost, outs[|outs| - 1]).1]
  }

  /** What a listener that starts from nothing reconstructs from the diffs. */
  function Replay(diffs: seq<Diff>): set<int> {
    if diffs == [] then {}
    else
      var d := diffs[|diffs| - 1];
      Replay(diffs[..|diffs| - 1]) + d.acquired - d.relinquished
  }

  /** A version names one map. */
  ghost predicate Consistent(outs: seq<FetchOutcome>) {
    forall i, j ::
      (&& 0 <= i < |outs| && 0 <= j < |outs| && Good(outs[i]) && Good(outs[j])
       && outs[i].m.version == outs[j].m.version) ==> outs[i].m == outs[j].m
  }

  /** `h` is the highest valid map among the outcomes, or nothing if there is none. */
  ghost predicate IsHighest(outs: seq<FetchOutcome>, h: Option<ShardMap>) {
    && (h.Some? ==> Parsed(h.value) in outs && Good(Parsed(h.value)))
    && (forall i :: 0 <= i < |outs| && Good(outs[i]) ==> h.Some? && outs[i].m.version <= h.value.version)
  }

  /** Last-known-good and monotone: whatever stale, invalid or failed fetches
      are interleaved, the store holds the highest valid version it was shown,
      and owns exactly what that map gives it. */
  lemma {:induction false} HoldsHighest(outs: seq<FetchOutcome>, selfHost: string)
    ensures IsHighest(outs, After(outs, selfHost).held)
    ensures After(outs, selfHost).owned
            == (if After(outs, selfHost).held.Some? then OwnedOf(After(outs, selfHost).held.value.ranges, selfHost) else {})
  {
    if outs != [] {
      var n := |outs| - 1;
      HoldsHighest(outs[..n], selfHost);
      assert outs == outs[..n] + [outs[n]];
      var h := After(outs, selfHost).held;
      forall i | 0 <= i < |outs| && Good(outs[i])
        ensures h.Some? && outs[i].m.version <= h.value.version
      {
        if i < n {
          assert outs[..n][i] == outs[i];
        }
      }
    }
  }

  /** The order in which fetches complete does not matter. */
  lemma CompletionOrderIrrelevant(xs: seq<FetchOutcome>, ys: seq<FetchOutcome>, selfHost: string)
    requires multiset(xs) == multiset(ys) && Consistent(xs)
    ensures After(xs, selfHost) == After(ys, selfHost)
  {
    HoldsHighest(xs, selfHost);
    HoldsHighest(ys, selfHost);
    var hx, hy := After(xs, selfHost).held, After(ys, selfHost).held;
    assert forall o :: o in xs <==> o in multiset(xs);
    assert forall o :: o in ys <==> o in multiset(ys);
    if hx.Some? {
      assert Parsed(hx.value) in ys;
    }
    if hy.Some? {
      assert Parsed(hy.value) in xs;
    }
  }

  lemma {:induction false} ReplayRebuildsOwned(outs: seq<FetchOutcome>, selfHost: string)
    ensures Replay(Diffs(outs, selfHost)) == After(outs, selfHost).owned
  {
    if outs != [] {
      var n := |outs| - 1;
      ReplayRebuildsOwned(outs[..n], selfHost);
      var ds := Diffs(outs, selfHost);
      assert ds[..|ds| - 1] == Diffs(outs[..n], selfHost);
    }
  }

  // ----------------------------------------------- agreement between hosts

  /** Two hosts that hold the same version never both admit a bucket. */
  lemma SameVersionNeverBothOwn(
    outs1: seq<FetchOutcome>, outs2: seq<FetchOutcome>, host1: string, host2: string, b: int)
    requires host1 != host2 && Consistent(outs1 + outs2)
    requires b in After(outs1, host1).owned && b in After(outs2, host2).owned
    ensures After(outs1, host1).Version() != After(outs2, host2).Version()
  {
    HoldsHighest(outs1, host1);
    HoldsHighest(outs2, host2);
    var m1, m2 := After(outs1, host1).held.value, After(outs2, host2).held.value;
    if m1.version == m2.version {
      var i :| 0 <= i < |outs1| && outs1[i] == Parsed(m1);
      var j :| 0 <= j < |outs2| && outs2[j] == Parsed(m2);
      assert (outs1 + outs2)[i] == Parsed(m1) && (outs1 + outs2)[|outs1| + j] == Parsed(m2);
      OwnedSetsPartitionTheRing(m1, b, host1, host2);
    }
  }

  /** When every host that `m` names holds `m`, every bucket is admitted by
      exactly one of them. */
  lemma ExactlyOneAdmits(m: ShardMap, hosts: map<string, StoreState>, b: int)
    requires Accepted(m) && 0 <= b < EXPECTED_BUCKETS
    requires forall i :: 0 <= i < |m.ranges| ==> m.ranges[i].host in hosts
    requires forall h :: h in hosts ==> hosts[h] == StoreState(Some(m), OwnedOf(m.ranges, h))
    ensures HostForBucket(m, b).Some? && HostForBucket(m, b).value in hosts
    ensures forall h :: h in hosts ==> (b in hosts[h].owned <==> h == HostForBucket(m, b).value)
  {
    EveryBucketHasAHost(m, b);
    forall h | h in hosts
      ensures b in hosts[h].owned <==> h == HostForBucket(m, b).value
    {
      OwnedIsLookup(m, h);
    }
  }
}
