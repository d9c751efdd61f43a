/** The CBOR subset of src/cbor.js (RFC 8949, sections 3.1 and 4.1): unsigned
    integers, byte strings, text strings, arrays, and maps with text keys. Text
    is its UTF-8 bytes, and a map is its entries in order. This module says what
    decoding and encoding mean; module CborCodec holds the reader and writer. */
module Cbor {
  import opened ByteArrays

  datatype Value =
    | UInt(n: nat)
    | Bytes(bytes: seq<byte>)
    | Text(utf8: seq<byte>)
    | Array(items: seq<Value>)
    | Map(entries: seq<Entry>)

  datatype Entry = Entry(key: seq<byte>, value: Value)

  datatype Error =
    | UnexpectedEnd | PastEnd | UnsafeLength | BadLength | UnsupportedMajor | KeyNotText | TrailingBytes

  /** A value and what is left of the input, or the error that stopped it. */
  datatype Result<+T> = Ok(value: T, rest: seq<byte>) | Err(error: Error)

  const MAX_SAFE: nat := 0x1F_FFFF_FFFF_FFFF

  // ------------------------------------------------------------- decoding

  function BigEndian(s: seq<byte>): nat {
    if s == [] then 0 else BigEndian(s[..|s| - 1]) * 256 + s[|s| - 1]
  }

  lemma {:induction false} BigEndianAppend(s: seq<byte>, b: byte)
    ensures BigEndian(s + [b]) == BigEndian(s) * 256 + b
  {
  }

  function UintN(s: seq<byte>, n: nat): (r: Result<nat>)
    ensures r.Ok? ==> |r.rest| == |s| - n
  {
    if |s| < n then Err(UnexpectedEnd) else Ok(BigEndian(s[..n]), s[n..])
  }

  /** The argument of a head whose low five bits are `minor`. */
  function Length(s: seq<byte>, minor: int): (r: Result<nat>)
    ensures r.Ok? ==> |r.rest| <= |s|
  {
    if 0 <= minor < 24 then Ok(minor, s)
    else if minor == 24 then UintN(s, 1)
    else if minor == 25 then UintN(s, 2)
    else if minor == 26 then UintN(s, 4)
    else if minor == 27 then
      match UintN(s, 4)
      case Err(e) => Err(e)
      case Ok(hi, s1) =>
        match UintN(s1, 4)
        case Err(e) => Err(e)
        case Ok(lo, s2) => if hi > 0x1F_FFFF then Err(UnsafeLength) else Ok(hi * TWO_32 + lo, s2)
    else Err(BadLength)
  }

  function Run(s: seq<byte>, len: nat): (r: Result<seq<byte>>)
    ensures r.Ok? ==> |r.rest| == |s| - len && |r.value| == len
  {
    if len > |s| then Err(PastEnd) else Ok(s[..len], s[len..])
  }

  /** out[key] = value on an object: a key that is already there keeps its place. */
  function Put(es: seq<Entry>, e: Entry): seq<Entry> {
    if es == [] then [e]
    else if es[0].key == e.key then [e] + es[1..]
    else [es[0]] + Put(es[1..], e)
  }

  function Item(s: seq<byte>): (r: Result<Value>)
    ensures r.Ok? ==> |r.rest| < |s|
    decreases |s|, 0
  {
    if s == [] then Err(UnexpectedEnd)
    else
      var major, minor := s[0] / 32, s[0] % 32;
      if major !in {0, 2, 3, 4, 5} then Err(UnsupportedMajor)
      else
        match Length(s[1..], minor)
        case Err(e) => Err(e)
        case Ok(n, s1) =>
          if major == 0 then Ok(UInt(n), s1)
          else if major == 2 then
            match Run(s1, n)
            case Err(e) => Err(e)
            case Ok(b, s2) => Ok(Bytes(b), s2)
          else if major == 3 then
            match Run(s1, n)
            case Err(e) => Err(e)
            case Ok(b, s2) => Ok(Text(b), s2)
          else if major == 4 then
            match Items(s1, n, [])
            case Err(e) => Err(e)
            case Ok(items, s2) => Ok(Array(items), s2)
          else
            match Entries(s1, n, [])
            case Err(e) => Err(e)
            case Ok(entries, s2) => Ok(Map(entries), s2)
  }

  /** `count` more items after `done`. The count may be astronomical: what
      decreases is the input. */
  function Items(s: seq<byte>, count: nat, done: seq<Value>): (r: Result<seq<Value>>)
    ensures r.Ok? ==> |r.rest| <= |s|
    decreases |s|, 1
  {
    if count == 0 then Ok(done, s)
    else
      match Item(s)
      case Err(e) => Err(e)
      case Ok(v, s1) => Items(s1, count - 1, done + [v])
  }

  function Entries(s: seq<byte>, count: nat, done: seq<Entry>): (r: Result<seq<Entry>>)
    ensures r.Ok? ==> |r.rest| <= |s|
    decreases |s|, 2
  {
    if count == 0 then Ok(done, s)
    else
      match KeyAndValue(s)
      case Err(e) => Err(e)
      case Ok(e, s1) => Entries(s1, count - 1, Put(done, e))
  }

  function KeyAndValue(s: seq<byte>): (r: Result<Entry>)
    ensures r.Ok? ==> |r.rest| < |s|
    decreases |s|, 1
  {
    match Item(s)
    case Err(e) => Err(e)
    case Ok(k, s1) =>
      if !k.Text? then Err(KeyNotText)
      else
        match Item(s1)
        case Err(e) => Err(e)
        case Ok(v, s2) => Ok(Entry(k.utf8, v), s2)
  }

  function Decode(s: seq<byte>): Result<Value> {
    match Item(s)
    case Err(e) => Err(e)
    case Ok(v, rest) => if rest != [] then Err(TrailingBytes) else Ok(v, rest)
  }

  // ------------------------------------------------------------- encoding

  function Head(major: nat, n: nat): (h: seq<byte>)
    requires major < 8
    ensures |h| >= 1
  {
    if n < 24 then [major * 32 + n]
    else if n < 0x100 then [major * 32 + 24, n]
    else if n < 0x1_0000 then [major * 32 + 25, n / 0x100, n % 256]
    else [major * 32 + 26, n / 0x100_0000 % 256, n / 0x1_0000 % 256, n / 0x100 % 256, n % 256]
  }

  function Encode(v: Value): (out: seq<byte>)
    ensures |out| >= 1
    decreases v, 0
  {
    match v
    case UInt(n) => Head(0, n)
    case Bytes(b) => Head(2, |b|) + b
    case Text(t) => Head(3, |t|) + t
    case Array(items) => Head(4, |items|) + EncodeItems(items)
    case Map(entries) => Head(5, |entries|) + EncodeEntries(entries)
  }

  function EncodeItems(items: seq<Value>): seq<byte>
    decreases items, 1
  {
    if items == [] then [] else Encode(items[0]) + EncodeItems(items[1..])
  }

  function EncodeEntries(es: seq<Entry>): seq<byte>
    decreases es, 1
  {
    if es == [] then [] else EncodeEntry(es[0]) + EncodeEntries(es[1..])
  }

  function EncodeEntry(e: Entry): seq<byte>
    decreases e, 1
  {
    (Head(3, |e.key|) + e.key) + Encode(e.value)
  }

  predicate HasKey(es: seq<Entry>, key: seq<byte>) {
    es != [] && (es[0].key == key || HasKey(es[1..], key))
  }

  predicate DistinctKeys(es: seq<Entry>) {
    es == [] || (!HasKey(es[1..], es[0].key) && DistinctKeys(es[1..]))
  }

  /** Keys distinct at every depth, and no run, list or key longer than `limit`. */
  predicate Shaped(v: Value, limit: nat)
    decreases v, 0
  {
    match v
    case UInt(_) => true
    case Bytes(b) => |b| <= limit
    case Text(t) => |t| <= limit
    case Array(items) => |items| <= limit && ShapedItems(items, limit)
    case Map(entries) => |entries| <= limit && DistinctKeys(entries) && ShapedEntries(entries, limit)
  }

  predicate ShapedItems(items: seq<Value>, limit: nat)
    decreases items, 1
  {
    items == [] || (Shaped(items[0], limit) && ShapedItems(items[1..], limit))
  }

  predicate ShapedEntries(es: seq<Entry>, limit: nat)
    decreases es, 1
  {
    es == [] || (ShapedEntry(es[0], limit) && ShapedEntries(es[1..], limit))
  }

  predicate ShapedEntry(e: Entry, limit: nat)
    decreases e, 1
  {
    |e.key| <= limit && Shaped(e.value, limit)
  }

  /** No integer above `max`, at any depth. */
  predicate IntsUpTo(v: Value, max: nat)
    decreases v, 0
  {
    match v
    case UInt(n) => n <= max
    case Bytes(_) => true
    case Text(_) => true
    case Array(items) => ItemIntsUpTo(items, max)
    case Map(entries) => EntryIntsUpTo(entries, max)
  }

  predicate ItemIntsUpTo(items: seq<Value>, max: nat)
    decreases items, 1
  {
    items == [] || (IntsUpTo(items[0], max) && ItemIntsUpTo(items[1..], max))
  }

  predicate EntryIntsUpTo(es: seq<Entry>, max: nat)
    decreases es, 1
  {
    es == [] || (ValueIntsUpTo(es[0], max) && EntryIntsUpTo(es[1..], max))
  }

  predicate ValueIntsUpTo(e: Entry, max: nat)
    decreases e, 1
  {
    IntsUpTo(e.value, max)
  }

  /** What a five-byte head can announce. */
  const MAX_HEAD: nat := TWO_32 - 1

  /** What the encoder is for: integers and lengths below 2^32, distinct keys. */
  predicate Encodable(v: Value) {
    Shaped(v, MAX_HEAD) && IntsUpTo(v, MAX_HEAD)
  }
}
