/** The shard map: bucket ranges assigned to hosts (src/sharding/shardMap.js).

    Validation in the source sorts the ranges by their low end and walks them.
    The contract of `Validate` never mentions that walk: it says that a map is
    accepted exactly when every bucket of the ring lies in exactly one range,
    and which error is reported otherwise. */
module ShardMaps {
  import opened Wrappers

  const EXPECTED_BUCKETS: nat := 65536

  datatype Range = Range(low: int, high: int, host: string) {
    predicate Covers(b: int) {
      low <= b <= high
    }
  }

  datatype ShardMap = ShardMap(version: int, ranges: seq<Range>)

  datatype ValidationError =
    | NegativeVersion | EmptyRanges | EmptyHost | InvalidHost | InvalidRange | GapOrOverlap

  // ---------------------------------------------------------------- hosts

  /** The characters matched by \s in an ECMAScript regular expression. */
  predicate IsWhitespace(c: char) {
    || 9 <= c as int <= 13 || c as int == 0x20 || c as int == 0xA0 || c as int == 0x1680
    || 0x2000 <= c as int <= 0x200A || c as int == 0x2028 || c as int == 0x2029
    || c as int == 0x202F || c as int == 0x205F || c as int == 0x3000 || c as int == 0xFEFF
  }

  predicate IsBareAuthority(host: string) {
    && host != ""
    && (forall i :: 0 <= i < |host| ==> host[i] !in "/@?#" && !IsWhitespace(host[i]))
    && (forall i :: 0 <= i < |host| ==> !('A' <= host[i] <= 'Z'))
    && host[|host| - 1] != '.'
  }

  /** Up to the first character of `stops`. */
  function UpTo(s: string, stops: string): string {
    if s == "" || s[0] in stops then "" else [s[0]] + UpTo(s[1..], stops)
  }

  /** What follows the last '@'. */
  function AfterUser(s: string): string {
    if s == "" then "" else if '@' in s then AfterUser(s[1..]) else s
  }

  /** The host and port of a URL, given what follows its "https://". */
  function AuthorityOf(s: string): string {
    AfterUser(UpTo(s, "/?#"))
  }

  function Lower(s: string): string {
    seq(|s|, i requires 0 <= i < |s| => if 'A' <= s[i] <= 'Z' then s[i] - 'A' + 'a' else s[i])
  }

  lemma {:induction false} UpToKeeps(s: string, stops: string)
    ensures |UpTo(s, stops)| <= |s| && (|UpTo(s, stops)| == |s| ==> UpTo(s, stops) == s)
    ensures UpTo(s, stops) == s <==> forall i :: 0 <= i < |s| ==> s[i] !in stops
  {
    if s != "" {
      UpToKeeps(s[1..], stops);
      assert s == [s[0]] + s[1..];
      if s[0] !in stops {
        assert UpTo(s, stops)[1..] == UpTo(s[1..], stops);
        assert forall i :: 0 <= i < |s[1..]| ==> s[1..][i] == s[i + 1];
      }
    }
  }

  lemma {:induction false} AfterUserKeeps(s: string)
    ensures |AfterUser(s)| <= |s|
    ensures AfterUser(s) == s <==> '@' !in s
  {
    if s != "" {
      AfterUserKeeps(s[1..]);
    }
  }

  lemma LowerKeeps(s: string)
    ensures Lower(s) == s <==> forall i :: 0 <= i < |s| ==> !('A' <= s[i] <= 'Z')
  {
    if Lower(s) == s {
      forall i | 0 <= i < |s|
        ensures !('A' <= s[i] <= 'Z')
      {
        assert Lower(s)[i] == s[i];
      }
    }
  }

  const WHITE: set<int> := {0x9, 0xA, 0xB, 0xC, 0xD, 0x20, 0xA0, 0x1680, 0x2000, 0x2001, 0x2002, 0x2003, 0x2004, 0x2005,
                            0x2006, 0x2007, 0x2008, 0x2009, 0x200A, 0x2028, 0x2029, 0x202F, 0x205F, 0x3000, 0xFEFF}

  lemma WhiteSpace(c: char)
    ensures IsWhitespace(c) <==> c as int in WHITE
  {
  }

  lemma Delimiters(host: string)
    ensures (forall i :: 0 <= i < |host| ==> host[i] !in "/@?#") <==> AuthorityOf(host) == host
  {
    UpToKeeps(host, "/?#");
    AfterUserKeeps(UpTo(host, "/?#"));
    assert forall i :: 0 <= i < |host| ==> (host[i] !in "/@?#" <==> host[i] !in "/?#" && host[i] != '@');
  }

  /** A host is accepted exactly when it is a URL's authority as it stands: put behind
      "https://" it is all of the authority, it is in lower case, it does not end in a
      dot, and it has no white space. */
  lemma BareAuthorityExactly(host: string)
    ensures IsBareAuthority(host)
            <==> && host != "" && AuthorityOf(host) == host && Lower(host) == host && host[|host| - 1] != '.'
                 && forall i :: 0 <= i < |host| ==> host[i] as int !in WHITE
  {
    Delimiters(host);
    LowerKeeps(host);
    forall i | 0 <= i < |host|
      ensures IsWhitespace(host[i]) <==> host[i] as int in WHITE
    {
      WhiteSpace(host[i]);
    }
  }

  predicate RangeOk(r: Range) {
    IsBareAuthority(r.host) && 0 <= r.low <= r.high < EXPECTED_BUCKETS
  }

  /** What is wrong with one range; the tests come in this order. */
  function RangeError(r: Range): (e: Option<ValidationError>)
    ensures e.None? <==> RangeOk(r)
    ensures e == Some(EmptyHost) <==> r.host == ""
    ensures e == Some(InvalidRange) ==> IsBareAuthority(r.host) && !(0 <= r.low <= r.high < EXPECTED_BUCKETS)
  {
    if r.host == "" then Some(EmptyHost)
    else if !IsBareAuthority(r.host) then Some(InvalidHost)
    else if r.low > r.high || r.low < 0 || r.high >= EXPECTED_BUCKETS then Some(InvalidRange)
    else None
  }

  // ------------------------------------------------- pointwise partition

  ghost predicate CoveredOnce(rs: seq<Range>, b: int) {
    exists i :: 0 <= i < |rs| && rs[i].Covers(b) && forall j :: 0 <= j < |rs| && rs[j].Covers(b) ==> j == i
  }

  /** Every bucket of the ring lies in exactly one range. */
  ghost predicate Tiles(rs: seq<Range>) {
    forall b :: 0 <= b < EXPECTED_BUCKETS ==> CoveredOnce(rs, b)
  }

  ghost predicate AllOk(rs: seq<Range>) {
    forall i :: 0 <= i < |rs| ==> RangeOk(rs[i])
  }

  ghost predicate Accepted(m: ShardMap) {
    m.version >= 0 && AllOk(m.ranges) && Tiles(m.ranges)
  }

  /** How many ranges cover a bucket: a form of `CoveredOnce` that does not
      depend on the order of the ranges. */
  function Coverage(rs: seq<Range>, b: int): nat {
    if rs == [] then 0 else (if rs[0].Covers(b) then 1 else 0) + Coverage(rs[1..], b)
  }

  lemma {:induction false} CoverageAt(rs: seq<Range>, b: int, i: nat)
    requires i < |rs| && rs[i].Covers(b)
    ensures Coverage(rs, b) >= 1
  {
    if i > 0 {
      CoverageAt(rs[1..], b, i - 1);
    }
  }

  lemma {:induction false} CoverageWitness(rs: seq<Range>, b: int) returns (i: nat)
    requires Coverage(rs, b) >= 1
    ensures i < |rs| && rs[i].Covers(b)
    ensures Coverage(rs, b) == 1 ==> forall j :: 0 <= j < |rs| && rs[j].Covers(b) ==> j == i
  {
    if rs[0].Covers(b) {
      i := 0;
      forall j | 0 < j < |rs| && rs[j].Covers(b)
        ensures Coverage(rs, b) >= 2
      {
        CoverageAt(rs[1..], b, j - 1);
      }
    } else {
      var k := CoverageWitness(rs[1..], b);
      i := k + 1;
      assert forall j :: 0 < j < |rs| ==> rs[j] == rs[1..][j - 1];
    }
  }

  lemma {:induction false} CoverageOne(rs: seq<Range>, b: int)
    ensures Coverage(rs, b) == 1 <==> CoveredOnce(rs, b)
  {
    if Coverage(rs, b) == 1 {
      var i := CoverageWitness(rs, b);
    }
    if CoveredOnce(rs, b) {
      var i :| 0 <= i < |rs| && rs[i].Covers(b) && forall j :: 0 <= j < |rs| && rs[j].Covers(b) ==> j == i;
      if i == 0 {
        if Coverage(rs[1..], b) >= 1 {
          var k := CoverageWitness(rs[1..], b);
        }
      } else {
        assert !rs[0].Covers(b);
        assert rs[1..][i - 1].Covers(b);
        forall j | 0 <= j < |rs[1..]| && rs[1..][j].Covers(b)
          ensures j == i - 1
        {
          assert rs[j + 1].Covers(b);
        }
        assert CoveredOnce(rs[1..], b);
        CoverageOne(rs[1..], b);
      }
    }
  }

  // ------------------------------------------------------ sort and walk

  predicate AllFrom(low: int, rs: seq<Range>) {
    forall i :: 0 <= i < |rs| ==> low <= rs[i].low
  }

  predicate Sorted(rs: seq<Range>) {
    rs == [] || (AllFrom(rs[0].low, rs[1..]) && Sorted(rs[1..]))
  }

  function Insert(r: Range, rs: seq<Range>): seq<Range> {
    if rs == [] then [r]
    else if r.low <= rs[0].low then [r] + rs
    else [rs[0]] + Insert(r, rs[1..])
  }

  /** Array.prototype.sort by low end: stable, out of place. */
  function SortByLow(rs: seq<Range>): seq<Range> {
    if rs == [] then [] else Insert(rs[0], SortByLow(rs[1..]))
  }

  lemma {:induction false} InsertKeeps(r: Range, rs: seq<Range>)
    ensures multiset(Insert(r, rs)) == multiset(rs) + multiset{r}
  {
    if rs != [] && r.low > rs[0].low {
      InsertKeeps(r, rs[1..]);
      assert rs == [rs[0]] + rs[1..];
    }
  }

  lemma {:induction false} InsertSorts(r: Range, rs: seq<Range>)
    requires Sorted(rs)
    ensures Sorted(Insert(r, rs))
    ensures forall low :: low <= r.low && AllFrom(low, rs) ==> AllFrom(low, Insert(r, rs))
  {
    if rs != [] {
      if r.low <= rs[0].low {
        assert ([r] + rs)[1..] == rs;
      } else {
        InsertSorts(r, rs[1..]);
        var rest := Insert(r, rs[1..]);
        assert ([rs[0]] + rest)[1..] == rest;
        forall low | low <= r.low && AllFrom(low, rs)
          ensures AllFrom(low, Insert(r, rs))
        {
          assert AllFrom(low, rs[1..]);
        }
      }
    }
  }

  lemma {:induction false} SortSorts(rs: seq<Range>)
    ensures multiset(SortByLow(rs)) == multiset(rs)
    ensures Sorted(SortByLow(rs))
  {
    if rs != [] {
      assert rs == [rs[0]] + rs[1..];
      SortSorts(rs[1..]);
      InsertKeeps(rs[0], SortByLow(rs[1..]));
      InsertSorts(rs[0], SortByLow(rs[1..]));
    }
  }

  lemma {:induction false} CoverageOfMultiset(xs: seq<Range>, ys: seq<Range>, b: int)
    requires multiset(xs) == multiset(ys)
    ensures Coverage(xs, b) == Coverage(ys, b)
    decreases |xs|
  {
    if xs == [] {
      assert |multiset(xs)| == 0 && |multiset(ys)| == |ys|;
    } else {
      assert xs[0] in multiset(ys);
      var k :| 0 <= k < |ys| && ys[k] == xs[0];
      assert xs == [xs[0]] + xs[1..];
      assert ys == ys[..k] + [ys[k]] + ys[k + 1..];
      CoverageSplit(ys[..k], ys[k], ys[k + 1..], b);
      assert multiset(ys[..k] + ys[k + 1..]) == multiset(ys) - multiset{ys[k]};
      CoverageOfMultiset(xs[1..], ys[..k] + ys[k + 1..], b);
    }
  }

  lemma {:induction false} CoverageSplit(pre: seq<Range>, r: Range, post: seq<Range>, b: int)
    ensures Coverage(pre + [r] + post, b) == Coverage(pre + post, b) + (if r.Covers(b) then 1 else 0)
  {
    if pre == [] {
      assert pre + [r] + post == [r] + post && pre + post == post;
    } else {
      assert (pre + [r] + post)[1..] == pre[1..] + [r] + post;
      assert (pre + post)[1..] == pre[1..] + post;
      CoverageSplit(pre[1..], r, post, b);
    }
  }

  /** The walk accepts `rs` starting from `next`. */
  predicate Walks(rs: seq<Range>, next: int) {
    if rs == [] then next == EXPECTED_BUCKETS
    else rs[0].low == next && Walks(rs[1..], rs[0].high + 1)
  }

  ghost predicate CoversFrom(rs: seq<Range>, next: int) {
    forall b :: 0 <= b < EXPECTED_BUCKETS ==> Coverage(rs, b) == (if next <= b then 1 else 0)
  }

  lemma {:induction false} WalkCovers(rs: seq<Range>, next: int)
    requires AllOk(rs) && Walks(rs, next)
    ensures forall b :: Coverage(rs, b) == (if next <= b < EXPECTED_BUCKETS then 1 else 0)
    ensures next <= EXPECTED_BUCKETS
  {
    if rs != [] {
      assert forall i :: 0 <= i < |rs[1..]| ==> rs[1..][i] == rs[i + 1];
      WalkCovers(rs[1..], rs[0].high + 1);
    }
  }

  lemma {:induction false} CoversWalk(rs: seq<Range>, next: int)
    requires AllOk(rs) && Sorted(rs) && CoversFrom(rs, next) && 0 <= next <= EXPECTED_BUCKETS
    ensures Walks(rs, next)
  {
    if rs == [] {
      assert next < EXPECTED_BUCKETS ==> Coverage(rs, next) == 1;
    } else {
      assert RangeOk(rs[0]) && rs[0].Covers(rs[0].low);
      CoverageAt(rs, rs[0].low, 0);
      assert Coverage(rs, rs[0].low) == 1;
      if next < rs[0].low {
        assert Coverage(rs, next) == 1;
        var i := CoverageWitness(rs, next);
      }
      var r := rs[0];
      assert forall i :: 0 <= i < |rs[1..]| ==> rs[1..][i] == rs[i + 1];
      assert CoversFrom(rs[1..], r.high + 1) by {
        forall b | 0 <= b < EXPECTED_BUCKETS
          ensures Coverage(rs[1..], b) == (if r.high + 1 <= b then 1 else 0)
        {
          assert Coverage(rs, b) == (if r.Covers(b) then 1 else 0) + Coverage(rs[1..], b);
        }
      }
      CoversWalk(rs[1..], r.high + 1);
    }
  }

  /** Sort-and-walk is the pointwise partition. */
  lemma {:induction false} SortAndWalk(rs: seq<Range>)
    requires AllOk(rs)
    ensures Walks(SortByLow(rs), 0) <==> Tiles(rs)
  {
    var sorted := SortByLow(rs);
    SortSorts(rs);
    assert AllOk(sorted) by {
      forall i | 0 <= i < |sorted|
        ensures RangeOk(sorted[i])
      {
        assert sorted[i] in multiset(sorted);
        assert sorted[i] in multiset(rs);
      }
    }
    forall b
      ensures Coverage(sorted, b) == 1 <==> CoveredOnce(rs, b)
    {
      CoverageOfMultiset(sorted, rs, b);
      CoverageOne(rs, b);
    }
    if Walks(sorted, 0) {
      WalkCovers(sorted, 0);
    }
    if Tiles(rs) {
      CoversWalk(sorted, 0);
    }
  }

  // ----------------------------------------------------------- operations

  /** validateShardMap: the walk over the ranges, then sort and walk. */
  method Validate(m: ShardMap) returns (err: Option<ValidationError>)
    ensures err.None? <==> Accepted(m)
    ensures err == Some(NegativeVersion) <==> m.version < 0
    ensures err == Some(EmptyRanges) <==> m.version >= 0 && m.ranges == []
    ensures err == Some(GapOrOverlap) <==> m.version >= 0 && m.ranges != [] && AllOk(m.ranges) && !Tiles(m.ranges)
    ensures m.version >= 0 && m.ranges != [] && !AllOk(m.ranges) ==>
              exists i :: 0 <= i < |m.ranges| && err == RangeError(m.ranges[i]) && AllOk(m.ranges[..i])
  {
    if m.version < 0 {
      return Some(NegativeVersion);
    }
    if |m.ranges| == 0 {
      assert !CoveredOnce(m.ranges, 0);
      return Some(EmptyRanges);
    }
    for i := 0 to |m.ranges|
      invariant AllOk(m.ranges[..i])
    {
      var e := RangeError(m.ranges[i]);
      if e.Some? {
        assert !RangeOk(m.ranges[i]);
        return e;
      }
      assert m.ranges[..i + 1] == m.ranges[..i] + [m.ranges[i]];
    }
    assert m.ranges[..|m.ranges|] == m.ranges;
    SortAndWalk(m.ranges);
    var sorted := SortByLow(m.ranges);
    var expectedNext := 0;
    for i := 0 to |sorted|
      invariant Walks(sorted, 0) <==> Walks(sorted[i..], expectedNext)
    {
      assert sorted[i..][1..] == sorted[i + 1..];
      if sorted[i].low != expectedNext {
        return Some(GapOrOverlap);
      }
      expectedNext := sorted[i].high + 1;
    }
    if expectedNext != EXPECTED_BUCKETS {
      return Some(GapOrOverlap);
    }
    return None;
  }

  /** hostForBucket: the first range that covers the bucket. */
  function HostForBucket(m: ShardMap, bucket: int): (h: Option<string>)
    ensures h.Some? ==>
              0 <= bucket < EXPECTED_BUCKETS
              && exists i :: 0 <= i < |m.ranges| && m.ranges[i].Covers(bucket) && m.ranges[i].host == h.value
  {
    if bucket < 0 || bucket >= EXPECTED_BUCKETS then None else FirstHost(m.ranges, bucket)
  }

  function FirstHost(rs: seq<Range>, bucket: int): (h: Option<string>)
    ensures h.Some? ==> exists i :: 0 <= i < |rs| && rs[i].Covers(bucket) && rs[i].host == h.value
    ensures h.None? ==> forall i :: 0 <= i < |rs| ==> !rs[i].Covers(bucket)
  {
    if rs == [] then None
    else if rs[0].Covers(bucket) then Some(rs[0].host)
    else
      assert forall i :: 0 <= i < |rs[1..]| ==> rs[1..][i] == rs[i + 1];
      FirstHost(rs[1..], bucket)
  }

  /** On a tiled ring a bucket belongs to the host of the one range that
      covers it, and every bucket belongs to somebody. */
  lemma HostIsTheCoveringRange(m: ShardMap, bucket: int, i: nat)
    requires Tiles(m.ranges) && 0 <= bucket < EXPECTED_BUCKETS
    requires i < |m.ranges| && m.ranges[i].Covers(bucket)
    ensures HostForBucket(m, bucket) == Some(m.ranges[i].host)
  {
    assert CoveredOnce(m.ranges, bucket);
  }

  lemma EveryBucketHasAHost(m: ShardMap, bucket: int)
    requires Tiles(m.ranges) && 0 <= bucket < EXPECTED_BUCKETS
    ensures HostForBucket(m, bucket).Some?
  {
    assert CoveredOnce(m.ranges, bucket);
  }

  /** Reordering the ranges changes neither acceptance nor any owner. */
  lemma HostIgnoresRangeOrder(m: ShardMap, n: ShardMap, bucket: int)
    requires Accepted(m) && n.version == m.version && multiset(n.ranges) == multiset(m.ranges)
    ensures Accepted(n)
    ensures HostForBucket(m, bucket) == HostForBucket(n, bucket)
  {
    forall i | 0 <= i < |n.ranges|
      ensures RangeOk(n.ranges[i])
    {
      assert n.ranges[i] in multiset(n.ranges);
      assert n.ranges[i] in multiset(m.ranges);
    }
    forall b | 0 <= b < EXPECTED_BUCKETS
      ensures CoveredOnce(n.ranges, b)
    {
      assert CoveredOnce(m.ranges, b);
      CoverageOne(m.ranges, b);
      CoverageOne(n.ranges, b);
      CoverageOfMultiset(m.ranges, n.ranges, b);
    }
    if 0 <= bucket < EXPECTED_BUCKETS {
      EveryBucketHasAHost(m, bucket);
      var h := HostForBucket(m, bucket).value;
      var i :| 0 <= i < |m.ranges| && m.ranges[i].Covers(bucket) && m.ranges[i].host == h;
      assert m.ranges[i] in multiset(n.ranges);
      var j :| 0 <= j < |n.ranges| && n.ranges[j] == m.ranges[i];
      HostIsTheCoveringRange(n, bucket, j);
    }
  }
}
