/** Round trip, prefix freedom, and what decoding arbitrary bytes can yield
    (src/cbor.js). */
module CborProofs {
  import opened ByteArrays
  import opened Cbor

  // ---------------------------------------------------------------- heads

  lemma BigEndian1(a: byte)
    ensures BigEndian([a]) == a
  {
  }

  lemma BigEndian2(a: byte, b: byte)
    ensures BigEndian([a, b]) == a * 256 + b
  {
    assert [a, b][..1] == [a];
    BigEndian1(a);
  }

  lemma BigEndian4(a: byte, b: byte, c: byte, d: byte)
    ensures BigEndian([a, b, c, d]) == ((a * 256 + b) * 256 + c) * 256 + d
  {
    assert [a, b, c, d][..3] == [a, b, c] && [a, b, c][..2] == [a, b];
    BigEndian2(a, b);
  }

  lemma FourBytes(n: nat)
    requires n < TWO_32
    ensures n == ((n / 0x100_0000 % 256 * 256 + n / 0x1_0000 % 256) * 256 + n / 0x100 % 256) * 256 + n % 256
  {
  }

  /** A head decodes to what it was made from. */
  lemma HeadRoundTrip(major: nat, n: nat, rest: seq<byte>)
    requires major < 8 && n < TWO_32
    ensures var s := Head(major, n) + rest;
            s[0] / 32 == major && Length(s[1..], s[0] % 32) == Ok(n, rest)
  {
    var h := Head(major, n);
    var s := h + rest;
    assert s[1..] == h[1..] + rest;
    if n < 24 {
      assert h[1..] == [];
    } else if n < 0x100 {
      assert s[1..][..1] == [n] && s[1..][1..] == rest;
      BigEndian1(n);
    } else if n < 0x1_0000 {
      assert s[1..][..2] == [n / 0x100, n % 256] && s[1..][2..] == rest;
      BigEndian2(n / 0x100, n % 256);
    } else {
      var a, b, c, d := n / 0x100_0000 % 256, n / 0x1_0000 % 256, n / 0x100 % 256, n % 256;
      assert s[1..][..4] == [a, b, c, d] && s[1..][4..] == rest;
      BigEndian4(a, b, c, d);
      FourBytes(n);
    }
  }

  lemma {:induction false} BigEndianSplit(hi: seq<byte>, lo: seq<byte>)
    requires |lo| == 4
    ensures BigEndian(hi + lo) == BigEndian(hi) * TWO_32 + BigEndian(lo)
  {
    var a, b, c, d := lo[0], lo[1], lo[2], lo[3];
    assert lo == [a, b, c, d] && hi + lo == hi + [a] + [b] + [c] + [d];
    BigEndian4(a, b, c, d);
    BigEndianAppend(hi, a);
    BigEndianAppend(hi + [a], b);
    BigEndianAppend(hi + [a] + [b], c);
    BigEndianAppend(hi + [a] + [b] + [c], d);
  }

  /** The eight bytes after a head of minor 27 are one number, most significant byte
      first; from 2^53 on it is refused. */
  lemma EightByteLength(s: seq<byte>)
    requires |s| >= 8
    ensures Length(s, 27) == if BigEndian(s[..8]) < 0x20_0000_0000_0000 then Ok(BigEndian(s[..8]), s[8..]) else Err(UnsafeLength)
  {
    var hi, lo := s[..4], s[4..][..4];
    assert s[..8] == hi + lo && s[4..][4..] == s[8..];
    BigEndianSplit(hi, lo);
    assert lo == [lo[0], lo[1], lo[2], lo[3]];
    BigEndian4(lo[0], lo[1], lo[2], lo[3]);
  }

  // ------------------------------------------------------------ round trip

  lemma {:induction false} PutNew(es: seq<Entry>, e: Entry)
    requires !HasKey(es, e.key)
    ensures Put(es, e) == es + [e]
  {
    if es != [] {
      PutNew(es[1..], e);
      assert es == [es[0]] + es[1..];
    }
  }

  lemma {:induction false} HasKeyAppend(es: seq<Entry>, fs: seq<Entry>, key: seq<byte>)
    ensures HasKey(es + fs, key) <==> HasKey(es, key) || HasKey(fs, key)
  {
    if es == [] {
      assert es + fs == fs;
    } else {
      assert (es + fs)[1..] == es[1..] + fs;
      HasKeyAppend(es[1..], fs, key);
    }
  }

  lemma {:induction false} DistinctAppend(es: seq<Entry>, f: Entry, fs: seq<Entry>)
    requires DistinctKeys(es + [f] + fs)
    ensures !HasKey(es, f.key)
  {
    if es != [] {
      assert (es + [f] + fs)[1..] == es[1..] + [f] + fs;
      DistinctAppend(es[1..], f, fs);
      HasKeyAppend(es[1..] + [f], fs, es[0].key);
      HasKeyAppend(es[1..], [f], es[0].key);
      assert HasKey([f], f.key);
    }
  }

  lemma RunOf(b: seq<byte>, rest: seq<byte>)
    ensures Run(b + rest, |b|) == Ok(b, rest)
  {
  }

  /** Decoding an encoding gives the value back, and leaves what followed. */
  lemma {:induction false} ItemRoundTrip(v: Value, rest: seq<byte>)
    requires Encodable(v)
    ensures Item(Encode(v) + rest) == Ok(v, rest)
    decreases v, 0
  {
    match v
    case UInt(n) => UIntRoundTrip(n, rest);
    case Bytes(b) => BytesRoundTrip(b, rest);
    case Text(t) => TextRoundTrip(t, rest);
    case Array(items) =>
      var tail := EncodeItems(items) + rest;
      assert Encode(v) + rest == Head(4, |items|) + tail && [] + items == items;
      ItemsRoundTrip(items, [], rest);
      ArrayRoundTrip(Encode(v) + rest, items, tail, rest);
    case Map(entries) =>
      var tail := EncodeEntries(entries) + rest;
      assert Encode(v) + rest == Head(5, |entries|) + tail && [] + entries == entries;
      EntriesRoundTrip(entries, [], rest);
      MapRoundTrip(Encode(v) + rest, entries, tail, rest);
  }

  /** One level of Item, for the two recursive majors. */
  lemma ArrayItem(s: seq<byte>, n: nat, tail: seq<byte>, items: seq<Value>, rest: seq<byte>)
    requires s != [] && s[0] / 32 == 4 && Length(s[1..], s[0] % 32) == Ok(n, tail)
    requires Items(tail, n, []) == Ok(items, rest)
    ensures Item(s) == Ok(Array(items), rest)
  {
  }

  lemma MapItem(s: seq<byte>, n: nat, tail: seq<byte>, entries: seq<Entry>, rest: seq<byte>)
    requires s != [] && s[0] / 32 == 5 && Length(s[1..], s[0] % 32) == Ok(n, tail)
    requires Entries(tail, n, []) == Ok(entries, rest)
    ensures Item(s) == Ok(Map(entries), rest)
  {
  }

  lemma ArrayRoundTrip(s: seq<byte>, items: seq<Value>, tail: seq<byte>, rest: seq<byte>)
    requires |items| < TWO_32 && s == Head(4, |items|) + tail
    requires Items(tail, |items|, []) == Ok(items, rest)
    ensures Item(s) == Ok(Array(items), rest)
  {
    HeadRoundTrip(4, |items|, tail);
    ArrayItem(s, |items|, tail, items, rest);
  }

  lemma MapRoundTrip(s: seq<byte>, entries: seq<Entry>, tail: seq<byte>, rest: seq<byte>)
    requires |entries| < TWO_32 && s == Head(5, |entries|) + tail
    requires Entries(tail, |entries|, []) == Ok(entries, rest)
    ensures Item(s) == Ok(Map(entries), rest)
  {
    HeadRoundTrip(5, |entries|, tail);
    MapItem(s, |entries|, tail, entries, rest);
  }

  lemma UIntRoundTrip(n: nat, rest: seq<byte>)
    requires n < TWO_32
    ensures Item(Head(0, n) + rest) == Ok(UInt(n), rest)
  {
    HeadRoundTrip(0, n, rest);
  }

  lemma BytesRoundTrip(b: seq<byte>, rest: seq<byte>)
    requires |b| < TWO_32
    ensures Item(Head(2, |b|) + b + rest) == Ok(Bytes(b), rest)
  {
    assert Head(2, |b|) + b + rest == Head(2, |b|) + (b + rest);
    HeadRoundTrip(2, |b|, b + rest);
    RunOf(b, rest);
  }

  lemma TextRoundTrip(t: seq<byte>, rest: seq<byte>)
    requires |t| < TWO_32
    ensures Item(Head(3, |t|) + t + rest) == Ok(Text(t), rest)
  {
    assert Head(3, |t|) + t + rest == Head(3, |t|) + (t + rest);
    HeadRoundTrip(3, |t|, t + rest);
    RunOf(t, rest);
  }

  lemma {:induction false} ItemsRoundTrip(items: seq<Value>, done: seq<Value>, rest: seq<byte>)
    requires ShapedItems(items, MAX_HEAD) && ItemIntsUpTo(items, MAX_HEAD)
    ensures Items(EncodeItems(items) + rest, |items|, done) == Ok(done + items, rest)
    decreases items, 1
  {
    if items == [] {
      assert EncodeItems(items) + rest == rest && done + items == done;
    } else {
      assert EncodeItems(items) + rest == Encode(items[0]) + (EncodeItems(items[1..]) + rest);
      ItemRoundTrip(items[0], EncodeItems(items[1..]) + rest);
      ItemsRoundTrip(items[1..], done + [items[0]], rest);
      assert done + [items[0]] + items[1..] == done + items;
    }
  }

  lemma {:induction false} EntryRoundTrip(e: Entry, rest: seq<byte>)
    requires ShapedEntry(e, MAX_HEAD) && ValueIntsUpTo(e, MAX_HEAD)
    ensures KeyAndValue(EncodeEntry(e) + rest) == Ok(e, rest)
    decreases e, 1
  {
    assert EncodeEntry(e) + rest == Head(3, |e.key|) + e.key + (Encode(e.value) + rest);
    TextRoundTrip(e.key, Encode(e.value) + rest);
    ItemRoundTrip(e.value, rest);
  }

  lemma {:induction false} EntriesRoundTrip(es: seq<Entry>, done: seq<Entry>, rest: seq<byte>)
    requires ShapedEntries(es, MAX_HEAD) && EntryIntsUpTo(es, MAX_HEAD) && DistinctKeys(done + es)
    ensures Entries(EncodeEntries(es) + rest, |es|, done) == Ok(done + es, rest)
    decreases es, 1
  {
    if es == [] {
      assert EncodeEntries(es) + rest == rest && done + es == done;
    } else {
      var e, tail := es[0], EncodeEntries(es[1..]) + rest;
      assert EncodeEntries(es) + rest == EncodeEntry(e) + tail;
      EntryRoundTrip(e, tail);
      assert done + es == done + [e] + es[1..];
      DistinctAppend(done, e, es[1..]);
      PutNew(done, e);
      EntriesRoundTrip(es[1..], done + [e], rest);
    }
  }

  /** decode(encode(v)) == v for every nesting. */
  lemma DecodeEncode(v: Value)
    requires Encodable(v)
    ensures Decode(Encode(v)) == Ok(v, [])
  {
    ItemRoundTrip(v, []);
    assert Encode(v) + [] == Encode(v);
  }

  /** No encoding is a proper prefix of another. */
  lemma PrefixFree(v: Value, w: Value, rest: seq<byte>)
    requires Encodable(v) && Encodable(w) && Encode(v) + rest == Encode(w)
    ensures v == w && rest == []
  {
    ItemRoundTrip(v, rest);
    ItemRoundTrip(w, []);
    assert Encode(w) + [] == Encode(w);
  }

  // --------------------------------------------- decoding arbitrary bytes

  lemma {:induction false} BigEndianBound(s: seq<byte>)
    ensures |s| == 1 ==> BigEndian(s) < 0x100
    ensures |s| == 2 ==> BigEndian(s) < 0x1_0000
    ensures |s| == 4 ==> BigEndian(s) < TWO_32
  {
    if |s| == 1 {
      assert s == [s[0]];
      BigEndian1(s[0]);
    } else if |s| == 2 {
      assert s == [s[0], s[1]];
      BigEndian2(s[0], s[1]);
    } else if |s| == 4 {
      assert s == [s[0], s[1], s[2], s[3]];
      BigEndian4(s[0], s[1], s[2], s[3]);
    }
  }

  /** A head never announces more than 2^53 - 1, and is never shorter than the
      shortest head for what it announces. */
  lemma LengthBounds(s: seq<byte>, minor: int, major: nat)
    requires Length(s, minor).Ok? && major < 8
    ensures Length(s, minor).value <= MAX_SAFE
    ensures |Head(major, Length(s, minor).value)| <= 1 + |s| - |Length(s, minor).rest|
  {
    if minor == 24 {
      BigEndianBound(s[..1]);
    } else if minor == 25 {
      BigEndianBound(s[..2]);
    } else if minor == 26 {
      BigEndianBound(s[..4]);
    } else if minor == 27 {
      BigEndianBound(s[..4]);
      BigEndianBound(s[4..][..4]);
    }
  }

  /** The nodes of a value: one for itself, and for a map also one for each key. */
  function Nodes(v: Value): nat
    decreases v, 0
  {
    match v
    case Array(items) => 1 + NodesOf(items)
    case Map(entries) => 1 + NodesIn(entries)
    case _ => 1
  }

  function NodesOf(items: seq<Value>): nat
    decreases items, 1
  {
    if items == [] then 0 else Nodes(items[0]) + NodesOf(items[1..])
  }

  function NodesIn(es: seq<Entry>): nat
    decreases es, 1
  {
    if es == [] then 0 else NodesAt(es[0]) + NodesIn(es[1..])
  }

  function NodesAt(e: Entry): nat
    decreases e, 1
  {
    1 + Nodes(e.value)
  }

  lemma {:induction false} NodesOfAppend(items: seq<Value>, v: Value)
    ensures NodesOf(items + [v]) == NodesOf(items) + Nodes(v)
  {
    if items == [] {
      assert items + [v] == [v] && [v][1..] == [];
      assert NodesOf([v]) == Nodes(v) + NodesOf([v][1..]);
    } else {
      assert (items + [v])[1..] == items[1..] + [v];
      NodesOfAppend(items[1..], v);
    }
  }

  lemma {:induction false} NodesInPut(es: seq<Entry>, e: Entry)
    ensures NodesIn(Put(es, e)) <= NodesIn(es) + NodesAt(e)
  {
    if es == [] {
      assert [e][1..] == [];
    } else if es[0].key == e.key {
      assert ([e] + es[1..])[1..] == es[1..];
    } else {
      NodesInPut(es[1..], e);
      assert ([es[0]] + Put(es[1..], e))[1..] == Put(es[1..], e);
    }
  }

  /** Every node of the result was paid for by a byte of the input. */
  lemma {:induction false} NodesPaidFor(s: seq<byte>)
    requires Item(s).Ok?
    ensures Nodes(Item(s).value) <= |s| - |Item(s).rest|
    decreases |s|, 0
  {
    var n := Length(s[1..], s[0] % 32);
    if s[0] / 32 == 4 {
      ItemsPaidFor(n.rest, n.value, []);
    } else if s[0] / 32 == 5 {
      EntriesPaidFor(n.rest, n.value, []);
    }
  }

  lemma {:induction false} ItemsPaidFor(s: seq<byte>, count: nat, done: seq<Value>)
    requires Items(s, count, done).Ok?
    ensures NodesOf(Items(s, count, done).value) <= NodesOf(done) + |s| - |Items(s, count, done).rest|
    decreases |s|, 1
  {
    if count > 0 {
      var r := Item(s);
      NodesPaidFor(s);
      NodesOfAppend(done, r.value);
      ItemsPaidFor(r.rest, count - 1, done + [r.value]);
    }
  }

  lemma {:induction false} EntriesPaidFor(s: seq<byte>, count: nat, done: seq<Entry>)
    requires Entries(s, count, done).Ok?
    ensures NodesIn(Entries(s, count, done).value) <= NodesIn(done) + |s| - |Entries(s, count, done).rest|
    decreases |s|, 1
  {
    if count > 0 {
      var e := KeyAndValue(s);
      NodesPaidFor(Item(s).rest);
      NodesInPut(done, e.value);
      EntriesPaidFor(e.rest, count - 1, Put(done, e.value));
    }
  }

  lemma {:induction false} ItemsAppendKeeps(items: seq<Value>, v: Value, max: nat, limit: nat)
    ensures ItemIntsUpTo(items, max) && IntsUpTo(v, max) ==> ItemIntsUpTo(items + [v], max)
    ensures ShapedItems(items, limit) && Shaped(v, limit) ==> ShapedItems(items + [v], limit)
  {
    if items == [] {
      assert items + [v] == [v] && [v][1..] == [];
    } else {
      assert (items + [v])[1..] == items[1..] + [v];
      ItemsAppendKeeps(items[1..], v, max, limit);
    }
  }

  lemma {:induction false} PutKeeps(es: seq<Entry>, e: Entry, max: nat, limit: nat)
    requires DistinctKeys(es)
    ensures DistinctKeys(Put(es, e))
    ensures forall k :: HasKey(Put(es, e), k) <==> HasKey(es, k) || k == e.key
    ensures EntryIntsUpTo(es, max) && ValueIntsUpTo(e, max) ==> EntryIntsUpTo(Put(es, e), max)
    ensures ShapedEntries(es, limit) && ShapedEntry(e, limit) ==> ShapedEntries(Put(es, e), limit)
  {
    if es == [] {
      assert [e][1..] == [];
    } else if es[0].key == e.key {
      assert ([e] + es[1..])[1..] == es[1..];
    } else {
      PutKeeps(es[1..], e, max, limit);
      assert ([es[0]] + Put(es[1..], e))[1..] == Put(es[1..], e);
    }
  }

  /** No integer above 2^53 - 1 comes out at any depth, keys are distinct at every
      depth, and nothing is longer than the input. */
  lemma {:induction false} DecodedIsSafe(s: seq<byte>, limit: nat)
    requires Item(s).Ok? && |s| <= limit
    ensures IntsUpTo(Item(s).value, MAX_SAFE) && Shaped(Item(s).value, limit)
    decreases |s|, 0
  {
    var n := Length(s[1..], s[0] % 32);
    LengthBounds(s[1..], s[0] % 32, 0);
    if s[0] / 32 == 4 {
      DecodedItemsSafe(n.rest, n.value, [], limit);
    } else if s[0] / 32 == 5 {
      DecodedEntriesSafe(n.rest, n.value, [], limit);
    }
  }

  lemma {:induction false} DecodedItemsSafe(s: seq<byte>, count: nat, done: seq<Value>, limit: nat)
    requires Items(s, count, done).Ok? && |done| + |s| <= limit
    requires ItemIntsUpTo(done, MAX_SAFE) && ShapedItems(done, limit)
    ensures var r := Items(s, count, done).value;
            ItemIntsUpTo(r, MAX_SAFE) && ShapedItems(r, limit) && |r| <= limit
    decreases |s|, 1
  {
    if count > 0 {
      var r := Item(s);
      DecodedIsSafe(s, limit);
      ItemsAppendKeeps(done, r.value, MAX_SAFE, limit);
      DecodedItemsSafe(r.rest, count - 1, done + [r.value], limit);
    }
  }

  lemma {:induction false} DecodedEntriesSafe(s: seq<byte>, count: nat, done: seq<Entry>, limit: nat)
    requires Entries(s, count, done).Ok? && |done| + |s| <= limit
    requires EntryIntsUpTo(done, MAX_SAFE) && ShapedEntries(done, limit) && DistinctKeys(done)
    ensures var r := Entries(s, count, done).value;
            EntryIntsUpTo(r, MAX_SAFE) && ShapedEntries(r, limit) && DistinctKeys(r) && |r| <= limit
    decreases |s|, 1
  {
    if count > 0 {
      var e := KeyAndValue(s);
      DecodedIsSafe(s, limit);
      DecodedIsSafe(Item(s).rest, limit);
      PutKeeps(done, e.value, MAX_SAFE, limit);
      EncodePut(done, e.value);
      DecodedEntriesSafe(e.rest, count - 1, Put(done, e.value), limit);
    }
  }

  // ------------------------------------------- re-encoding is never longer

  lemma HeadMonotone(major: nat, m: nat, n: nat)
    requires major < 8 && m <= n
    ensures |Head(major, m)| <= |Head(major, n)|
  {
  }

  lemma {:induction false} EncodeItemsAppend(items: seq<Value>, v: Value)
    ensures EncodeItems(items + [v]) == EncodeItems(items) + Encode(v)
  {
    if items == [] {
      assert items + [v] == [v] && [v][1..] == [];
      assert EncodeItems([v]) == Encode(v) + EncodeItems([v][1..]);
    } else {
      assert (items + [v])[1..] == items[1..] + [v];
      EncodeItemsAppend(items[1..], v);
    }
  }

  lemma {:induction false} EncodePut(es: seq<Entry>, e: Entry)
    ensures |EncodeEntries(Put(es, e))| <= |EncodeEntries(es)| + |EncodeEntry(e)|
    ensures |Put(es, e)| <= |es| + 1
  {
    if es == [] {
      assert [e][1..] == [];
    } else if es[0].key == e.key {
      assert ([e] + es[1..])[1..] == es[1..];
    } else {
      EncodePut(es[1..], e);
      assert ([es[0]] + Put(es[1..], e))[1..] == Put(es[1..], e);
    }
  }

  /** Whatever bytes a value was decoded from, its encoding is no longer: heads
      are the shortest, and a repeated key is written once. */
  lemma {:induction false} ReEncodeItem(s: seq<byte>)
    requires Item(s).Ok?
    ensures |Encode(Item(s).value)| <= |s| - |Item(s).rest|
    decreases |s|, 0
  {
    var major, n := s[0] / 32, Length(s[1..], s[0] % 32);
    LengthBounds(s[1..], s[0] % 32, major);
    if major == 4 {
      ReEncodeItems(n.rest, n.value, []);
      assert Item(s).value == Array(Items(n.rest, n.value, []).value);
      HeadMonotone(4, |Items(n.rest, n.value, []).value|, n.value);
    } else if major == 5 {
      ReEncodeEntries(n.rest, n.value, []);
      assert Item(s).value == Map(Entries(n.rest, n.value, []).value);
      HeadMonotone(5, |Entries(n.rest, n.value, []).value|, n.value);
    }
  }

  lemma {:induction false} ReEncodeItems(s: seq<byte>, count: nat, done: seq<Value>)
    requires Items(s, count, done).Ok?
    ensures var r := Items(s, count, done);
            |EncodeItems(r.value)| <= |EncodeItems(done)| + |s| - |r.rest| && |r.value| == |done| + count
    decreases |s|, 1
  {
    if count > 0 {
      var r := Item(s);
      ReEncodeItem(s);
      EncodeItemsAppend(done, r.value);
      ReEncodeItems(r.rest, count - 1, done + [r.value]);
    }
  }

  lemma {:induction false} ReEncodeEntries(s: seq<byte>, count: nat, done: seq<Entry>)
    requires Entries(s, count, done).Ok?
    ensures var r := Entries(s, count, done);
            |EncodeEntries(r.value)| <= |EncodeEntries(done)| + |s| - |r.rest| && |r.value| <= |done| + count
    decreases |s|, 1
  {
    if count > 0 {
      var e := KeyAndValue(s);
      ReEncodeItem(s);
      ReEncodeItem(Item(s).rest);
      EncodePut(done, e.value);
      assert |EncodeEntry(e.value)| == |Encode(Item(s).value)| + |Encode(e.value.value)|;
      ReEncodeEntries(e.rest, count - 1, Put(done, e.value));
    }
  }

  /** Re-encoding decoded bytes never grows them and decodes to the same value. */
  lemma ReEncode(s: seq<byte>)
    requires Decode(s).Ok? && |s| < TWO_32 && IntsUpTo(Decode(s).value, MAX_HEAD)
    ensures |Encode(Decode(s).value)| <= |s|
    ensures Decode(Encode(Decode(s).value)) == Decode(s)
  {
    ReEncodeItem(s);
    DecodedIsSafe(s, MAX_HEAD);
    DecodeEncode(Decode(s).value);
  }

  /** Decoding accepts a value and re-encodes to the very same bytes exactly when
      those bytes are the encoding of an encodable value. */
  lemma CanonicalBytes(s: seq<byte>)
    requires |s| < TWO_32
    ensures (Decode(s).Ok? && IntsUpTo(Decode(s).value, MAX_HEAD) && Encode(Decode(s).value) == s)
            <==> exists v :: Encodable(v) && Encode(v) == s
  {
    if Decode(s).Ok? && IntsUpTo(Decode(s).value, MAX_HEAD) {
      DecodedIsSafe(s, MAX_HEAD);
    }
    forall v | Encodable(v) && Encode(v) == s
      ensures Decode(s) == Ok(v, [])
    {
      DecodeEncode(v);
    }
  }
}
