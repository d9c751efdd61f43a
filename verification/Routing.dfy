/** Room names, the bucket in their last four digits, the ownership gate, and
    the monitor's construction of a room that a given host must admit
    (src/sharding/bucket.js, src/sharding/admission.js, monitor/src/monitor.js). */
module Routing {
  import opened Wrappers
  import opened ShardMaps
  import opened OwnedSets

  // ----------------------------------------------------- hexadecimal text

  predicate IsHexDigit(c: char) {
    '0' <= c <= '9' || 'a' <= c <= 'f'
  }

  function DigitValue(c: char): int
    requires IsHexDigit(c)
  {
    if c <= '9' then c as int - '0' as int else c as int - 'a' as int + 10
  }

  function DigitChar(n: int): (c: char)
    requires 0 <= n < 16
    ensures IsHexDigit(c) && DigitValue(c) == n
  {
    if n < 10 then (n + '0' as int) as char else (n - 10 + 'a' as int) as char
  }

  predicate AllHex(s: string) {
    forall i :: 0 <= i < |s| ==> IsHexDigit(s[i])
  }

  /** parseInt(s, 16) on a string of hex digits. */
  function ParseHex(s: string): (n: nat)
    requires AllHex(s)
  {
    if s == "" then 0 else 16 * ParseHex(s[..|s| - 1]) + DigitValue(s[|s| - 1])
  }

  /** n.toString(16). */
  function ToHex(n: nat): (s: string)
    ensures AllHex(s) && ParseHex(s) == n
  {
    if n < 16 then
      assert ParseHex([DigitChar(n)]) == 16 * ParseHex([]) + n by {
        assert [DigitChar(n)][..0] == [];
      }
      [DigitChar(n)]
    else
      var s := ToHex(n / 16) + [DigitChar(n % 16)];
      assert s[..|s| - 1] == ToHex(n / 16);
      s
  }

  /** s.padStart(width, "0"). */
  function PadStart(s: string, width: nat): string
    decreases width - |s|
  {
    if |s| >= width then s else PadStart("0" + s, width)
  }

  lemma {:induction false} LeadingZero(s: string)
    requires AllHex(s)
    ensures AllHex("0" + s) && ParseHex("0" + s) == ParseHex(s)
  {
    if s == "" {
      assert "0"[..0] == "";
    } else {
      LeadingZero(s[..|s| - 1]);
      assert ("0" + s)[..|s|] == "0" + s[..|s| - 1];
    }
  }

  lemma {:induction false} PaddingKeepsValue(s: string, width: nat)
    requires AllHex(s)
    ensures AllHex(PadStart(s, width)) && ParseHex(PadStart(s, width)) == ParseHex(s)
    ensures |PadStart(s, width)| == if |s| >= width then |s| else width
    decreases width - |s|
  {
    if |s| < width {
      LeadingZero(s);
      PaddingKeepsValue("0" + s, width);
    }
  }

  lemma {:induction false} ParseBound(s: string)
    requires AllHex(s) && |s| == 4
    ensures ParseHex(s) < EXPECTED_BUCKETS
  {
    assert s[..3][..2] == s[..2] && s[..2][..1] == s[..1] && s[..1][..0] == "";
    assert ParseHex(s[..1]) < 16;
    assert ParseHex(s[..2]) < 256;
    assert ParseHex(s[..3]) < 4096;
  }

  /** A number below 16^width needs at most `width` digits. */
  lemma {:induction false} HexWidth(n: nat)
    ensures n < 16 ==> |ToHex(n)| == 1
    ensures n < 256 ==> |ToHex(n)| <= 2
    ensures n < 4096 ==> |ToHex(n)| <= 3
    ensures n < 65536 ==> |ToHex(n)| <= 4
  {
    if 16 <= n {
      assert |ToHex(n)| == |ToHex(n / 16)| + 1;
      if 16 <= n / 16 {
        assert |ToHex(n / 16)| == |ToHex(n / 16 / 16)| + 1;
        if 16 <= n / 16 / 16 {
          assert |ToHex(n / 16 / 16)| == |ToHex(n / 16 / 16 / 16)| + 1;
        }
      }
    }
  }

  // ------------------------------------------------- room name and bucket

  predicate Canonical(name: string) {
    |name| == 64 && AllHex(name)
  }

  function BucketForRoomName(name: string): (b: Option<int>)
    ensures b.Some? <==> Canonical(name)
    ensures b.Some? ==> 0 <= b.value < EXPECTED_BUCKETS
    ensures b.Some? ==>
              b.value == 0x1000 * DigitValue(name[60]) + 0x100 * DigitValue(name[61])
                         + 0x10 * DigitValue(name[62]) + DigitValue(name[63])
  {
    if !Canonical(name) then None
    else
      ParseBound(name[60..]);
      ParseFour(name[60..]);
      Some(ParseHex(name[60..]))
  }

  lemma ParseFour(s: string)
    requires |s| == 4 && AllHex(s)
    ensures ParseHex(s)
            == 0x1000 * DigitValue(s[0]) + 0x100 * DigitValue(s[1]) + 0x10 * DigitValue(s[2]) + DigitValue(s[3])
  {
    assert s[..3][..2] == s[..2] && s[..2][..1] == s[..1] && s[..1][..0] == "";
    assert ParseHex(s[..1]) == DigitValue(s[0]);
    assert ParseHex(s[..2]) == 0x10 * DigitValue(s[0]) + DigitValue(s[1]);
  }

  lemma RoomNameRoundTrip(prefix60: string, bucket: nat)
    requires |prefix60| == 60 && AllHex(prefix60) && bucket < EXPECTED_BUCKETS
    ensures BucketForRoomName(prefix60 + PadStart(ToHex(bucket), 4)) == Some(bucket)
  {
    HexWidth(bucket);
    PaddingKeepsValue(ToHex(bucket), 4);
    assert (prefix60 + PadStart(ToHex(bucket), 4))[60..] == PadStart(ToHex(bucket), 4);
  }

  // ------------------------------------------------------------- the gate

  datatype Mode = Direct | Distributed

  datatype Decision = Admit | Reject(status: int, unroutable: bool)

  const REJECT_STATUS: int := 421

  /** ownershipDecision. */
  function OwnershipDecision(mode: Mode, roomName: string, owned: set<int>): (d: Decision)
    ensures d.Admit? <==>
            mode.Direct? || exists b :: b in owned && BucketForRoomName(roomName) == Some(b)
    ensures d.Reject? ==> d.status == 421 && (d.unroutable <==> !Canonical(roomName))
  {
    if mode.Direct? then Admit
    else
      match BucketForRoomName(roomName)
      case None => Reject(REJECT_STATUS, true)
      case Some(b) => if b in owned then Admit else Reject(REJECT_STATUS, false)
  }

  // -------------------------------------------- a room that a host owns

  function OwnRanges(rs: seq<Range>, host: string): seq<Range> {
    if rs == [] then []
    else if rs[0].host == host && rs[0].low <= rs[0].high then [rs[0]] + OwnRanges(rs[1..], host)
    else OwnRanges(rs[1..], host)
  }

  function Total(rs: seq<Range>): int {
    if rs == [] then 0 else rs[0].high - rs[0].low + 1 + Total(rs[1..])
  }

  ghost predicate NonEmptyRanges(rs: seq<Range>) {
    forall i :: 0 <= i < |rs| ==> rs[i].low <= rs[i].high
  }

  lemma {:induction false} OwnRangesAre(rs: seq<Range>, host: string)
    ensures NonEmptyRanges(OwnRanges(rs, host))
    ensures forall r :: r in OwnRanges(rs, host) <==> r in rs && r.host == host && r.low <= r.high
  {
    if rs != [] {
      var r0, later := rs[0], OwnRanges(rs[1..], host);
      OwnRangesAre(rs[1..], host);
      assert forall r :: r in rs <==> r == r0 || r in rs[1..];
      assert forall r :: r in [r0] + later <==> r == r0 || r in later;
    }
  }

  lemma {:induction false} OwnRangesCoverLess(rs: seq<Range>, host: string, b: int)
    ensures Coverage(OwnRanges(rs, host), b) <= Coverage(rs, b)
  {
    if rs != [] {
      var later := OwnRanges(rs[1..], host);
      assert ([rs[0]] + later)[1..] == later;
      OwnRangesCoverLess(rs[1..], host, b);
    }
  }

  lemma {:induction false} TotalNonNegative(rs: seq<Range>)
    requires NonEmptyRanges(rs)
    ensures Total(rs) >= |rs|
  {
    if rs != [] {
      assert forall i :: 0 <= i < |rs[1..]| ==> rs[1..][i] == rs[i + 1];
      TotalNonNegative(rs[1..]);
    }
  }

  /** The bucket reached by walking `idx` buckets into the ranges. */
  function BucketAt(rs: seq<Range>, idx: int): (b: int)
    requires NonEmptyRanges(rs) && 0 <= idx < Total(rs)
    ensures exists i :: 0 <= i < |rs| && rs[i].Covers(b)
  {
    assert forall i :: 0 <= i < |rs[1..]| ==> rs[1..][i] == rs[i + 1];
    var size := rs[0].high - rs[0].low + 1;
    if idx < size then
      assert rs[0].Covers(rs[0].low + idx);
      rs[0].low + idx
    else BucketAt(rs[1..], idx - size)
  }

  lemma {:induction false} WalkReaches(rs: seq<Range>, b: int) returns (idx: int)
    requires NonEmptyRanges(rs) && Coverage(rs, b) >= 1
    ensures 0 <= idx < Total(rs) && BucketAt(rs, idx) == b
  {
    assert forall i :: 0 <= i < |rs[1..]| ==> rs[1..][i] == rs[i + 1];
    TotalNonNegative(rs[1..]);
    if rs[0].Covers(b) {
      idx := b - rs[0].low;
    } else {
      var k := WalkReaches(rs[1..], b);
      idx := k + rs[0].high - rs[0].low + 1;
    }
  }

  lemma {:induction false} WalkInjective(rs: seq<Range>, i: int, j: int)
    requires NonEmptyRanges(rs) && forall b :: Coverage(rs, b) <= 1
    requires 0 <= i < j < Total(rs)
    ensures BucketAt(rs, i) != BucketAt(rs, j)
  {
    assert forall k :: 0 <= k < |rs[1..]| ==> rs[1..][k] == rs[k + 1];
    var size := rs[0].high - rs[0].low + 1;
    forall b
      ensures Coverage(rs[1..], b) <= 1
    {
      assert Coverage(rs, b) <= 1;
    }
    if i >= size {
      WalkInjective(rs[1..], i - size, j - size);
    } else if j >= size {
      var b := BucketAt(rs[1..], j - size);
      var k :| 0 <= k < |rs[1..]| && rs[1..][k].Covers(b);
      CoverageAt(rs[1..], b, k);
      assert Coverage(rs, b) <= 1;
    }
  }

  lemma OwnCoverageAtMostOne(m: ShardMap, host: string, b: int)
    requires Accepted(m)
    ensures Coverage(OwnRanges(m.ranges, host), b) <= 1
  {
    OwnRangesCoverLess(m.ranges, host, b);
    if 0 <= b < EXPECTED_BUCKETS {
      assert CoveredOnce(m.ranges, b);
      CoverageOne(m.ranges, b);
    } else if Coverage(m.ranges, b) >= 1 {
      var i := CoverageWitness(m.ranges, b);
    }
  }

  lemma WalkStaysOwned(m: ShardMap, host: string, idx: int)
    requires NonEmptyRanges(OwnRanges(m.ranges, host)) && 0 <= idx < Total(OwnRanges(m.ranges, host))
    ensures BucketAt(OwnRanges(m.ranges, host), idx) in OwnedOf(m.ranges, host)
  {
    var rs := OwnRanges(m.ranges, host);
    OwnRangesAre(m.ranges, host);
    var k :| 0 <= k < |rs| && rs[k].Covers(BucketAt(rs, idx));
    assert rs[k] in rs;
    assert Owns(m.ranges, host, BucketAt(rs, idx));
  }

  lemma WalkFinds(m: ShardMap, host: string, b: int) returns (idx: int)
    requires b in OwnedOf(m.ranges, host)
    ensures NonEmptyRanges(OwnRanges(m.ranges, host)) && 0 <= idx < Total(OwnRanges(m.ranges, host))
    ensures BucketAt(OwnRanges(m.ranges, host), idx) == b
  {
    var rs := OwnRanges(m.ranges, host);
    OwnRangesAre(m.ranges, host);
    var k :| 0 <= k < |m.ranges| && m.ranges[k].host == host && m.ranges[k].Covers(b);
    assert m.ranges[k] in rs;
    var j :| 0 <= j < |rs| && rs[j] == m.ranges[k];
    CoverageAt(rs, b, j);
    idx := WalkReaches(rs, b);
  }

  ghost predicate WalkEnumerates(rs: seq<Range>, owned: set<int>) {
    && NonEmptyRanges(rs)
    && (forall i :: 0 <= i < Total(rs) ==> BucketAt(rs, i) in owned)
    && (forall i, j :: 0 <= i < j < Total(rs) ==> BucketAt(rs, i) != BucketAt(rs, j))
    && (forall b :: b in owned ==> exists i :: 0 <= i < Total(rs) && BucketAt(rs, i) == b)
  }

  /** On an accepted map the walk is a bijection from [0, total) onto the
      buckets the host owns, and total is zero exactly for a host with none. */
  lemma WalkIsBijection(m: ShardMap, host: string)
    requires Accepted(m)
    ensures WalkEnumerates(OwnRanges(m.ranges, host), OwnedOf(m.ranges, host))
    ensures Total(OwnRanges(m.ranges, host)) >= 0
    ensures Total(OwnRanges(m.ranges, host)) == 0 <==> OwnedOf(m.ranges, host) == {}
  {
    var rs, owned := OwnRanges(m.ranges, host), OwnedOf(m.ranges, host);
    OwnRangesAre(m.ranges, host);
    TotalNonNegative(rs);
    forall i | 0 <= i < Total(rs)
      ensures BucketAt(rs, i) in owned
    {
      WalkStaysOwned(m, host, i);
    }
    forall i, j | 0 <= i < j < Total(rs)
      ensures BucketAt(rs, i) != BucketAt(rs, j)
    {
      forall b
        ensures Coverage(rs, b) <= 1
      {
        OwnCoverageAtMostOne(m, host, b);
      }
      WalkInjective(rs, i, j);
    }
    forall b | b in owned
      ensures exists i :: 0 <= i < Total(rs) && BucketAt(rs, i) == b
    {
      var i := WalkFinds(m, host, b);
    }
    if Total(rs) > 0 {
      WalkStaysOwned(m, host, 0);
    }
    SomeMember(owned);
  }

  /** The result of ownedRoomForHost: it throws on a bad prefix, and returns
      null for a host with no buckets. */
  datatype ProbeRoom = BadPrefix | NoBuckets | Room(name: string)

  function ClampIndex(randUnit: real, total: int): (idx: int)
    requires total > 0
    ensures 0 <= idx < total
  {
    var f := (randUnit * total as real).Floor;
    if f < 0 then 0 else if f >= total then total - 1 else f
  }

  /** n.toString(16), also for the negative bucket of a map nobody validated. */
  function HexText(n: int): string {
    if n < 0 then "-" + ToHex(-n) else ToHex(n)
  }

  lemma OwnsNothingExactly(m: ShardMap, host: string)
    ensures NonEmptyRanges(OwnRanges(m.ranges, host)) && Total(OwnRanges(m.ranges, host)) >= 0
    ensures Total(OwnRanges(m.ranges, host)) == 0 <==> OwnedOf(m.ranges, host) == {}
  {
    OwnRangesAre(m.ranges, host);
    TotalNonNegative(OwnRanges(m.ranges, host));
    if Total(OwnRanges(m.ranges, host)) > 0 {
      WalkStaysOwned(m, host, 0);
    }
    SomeMember(OwnedOf(m.ranges, host));
    if OwnedOf(m.ranges, host) != {} {
      var b :| b in OwnedOf(m.ranges, host);
      var i := WalkFinds(m, host, b);
    }
  }

  /** For any map, validated or not. */
  method OwnedRoomForHost(m: ShardMap, host: string, prefix60: string, randUnit: real) returns (room: ProbeRoom)
    ensures room.BadPrefix? <==> |prefix60| != 60 || !AllHex(prefix60)
    ensures room.NoBuckets? <==> !room.BadPrefix? && OwnedOf(m.ranges, host) == {}
    ensures room.Room? ==>
              var rs := OwnRanges(m.ranges, host);
              && NonEmptyRanges(rs) && Total(rs) > 0
              && var b := BucketAt(rs, ClampIndex(randUnit, Total(rs)));
              && b in OwnedOf(m.ranges, host) && room.name == prefix60 + PadStart(HexText(b), 4)
              && (Accepted(m) ==>
                    BucketForRoomName(room.name) == Some(b)
                    && OwnershipDecision(Distributed, room.name, OwnedOf(m.ranges, host)) == Admit)
  {
    if |prefix60| != 60 || !AllHex(prefix60) {
      return BadPrefix;
    }
    OwnsNothingExactly(m, host);
    var ranges := OwnRanges(m.ranges, host);
    var total := Total(ranges);
    if total == 0 {
      return NoBuckets;
    }
    var idx := ClampIndex(randUnit, total);
    WalkStaysOwned(m, host, idx);
    var bucket := WalkTo(ranges, idx);
    if Accepted(m) {
      WalkedRoomIsAdmitted(m, host, prefix60);
    }
    return Room(prefix60 + PadStart(HexText(bucket), 4));
  }

  /** Walk the ranges, taking each one's width off the index. */
  method WalkTo(ranges: seq<Range>, index: int) returns (bucket: int)
    requires NonEmptyRanges(ranges) && 0 <= index < Total(ranges)
    ensures bucket == BucketAt(ranges, index)
  {
    var i, idx := 0, index;
    while ranges[i].high - ranges[i].low + 1 <= idx
      invariant 0 <= i < |ranges| && NonEmptyRanges(ranges[i..])
      invariant 0 <= idx < Total(ranges[i..]) && BucketAt(ranges[i..], idx) == BucketAt(ranges, index)
      decreases |ranges| - i
    {
      assert ranges[i..][1..] == ranges[i + 1..];
      idx := idx - (ranges[i].high - ranges[i].low + 1);
      i := i + 1;
    }
    bucket := ranges[i].low + idx;
  }

  lemma WalkedRoomIsAdmitted(m: ShardMap, host: string, prefix60: string)
    requires Accepted(m) && |prefix60| == 60 && AllHex(prefix60)
    ensures forall b :: b in OwnedOf(m.ranges, host) ==>
              && 0 <= b
              && BucketForRoomName(prefix60 + PadStart(ToHex(b), 4)) == Some(b)
              && OwnershipDecision(Distributed, prefix60 + PadStart(ToHex(b), 4), OwnedOf(m.ranges, host)) == Admit
  {
    OwnedIsLookup(m, host);
    forall b | b in OwnedOf(m.ranges, host)
      ensures 0 <= b && BucketForRoomName(prefix60 + PadStart(ToHex(b), 4)) == Some(b)
    {
      RoomNameRoundTrip(prefix60, b);
    }
  }

  /** Every bucket of the host is probed for some choice of the random unit. */
  lemma EveryOwnedBucketIsProbed(m: ShardMap, host: string, b: int) returns (randUnit: real)
    requires b in OwnedOf(m.ranges, host)
    ensures 0.0 <= randUnit < 1.0
    ensures var rs := OwnRanges(m.ranges, host);
            NonEmptyRanges(rs) && Total(rs) > 0 && BucketAt(rs, ClampIndex(randUnit, Total(rs))) == b
  {
    var i := WalkFinds(m, host, b);
    var total := Total(OwnRanges(m.ranges, host));
    randUnit := i as real / total as real;
    FractionRecovers(i, total);
  }

  lemma FractionRecovers(i: int, total: int)
    requires 0 <= i < total
    ensures 0.0 <= i as real / total as real < 1.0
    ensures ClampIndex(i as real / total as real, total) == i
  {
  }
}
