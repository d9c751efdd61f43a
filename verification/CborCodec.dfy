/** The reader and the writer of src/cbor.js as they run: a position advancing
    over a view, and parts pushed and then copied into one buffer. */
module CborCodec {
  import opened ByteArrays
  import opened Cbor

  datatype Outcome<+T> = Success(value: T) | Failure(error: Error)

  /** `outcome`, with `left` still to read, is what `spec` says. */
  predicate Agrees<T(==)>(spec: Result<T>, outcome: Outcome<T>, left: seq<byte>) {
    match outcome
    case Success(v) => spec == Ok(v, left)
    case Failure(e) => spec == Err(e)
  }

  class Reader {
    const view: seq<byte>
    var pos: nat

    constructor (view: seq<byte>)
      ensures this.view == view && pos == 0
    {
      this.view := view;
      pos := 0;
    }

    ghost predicate Valid()
      reads this
    {
      pos <= |view|
    }

    ghost function Left(): seq<byte>
      reads this
      requires Valid()
    {
      view[pos..]
    }

    method ReadUint8() returns (r: Outcome<byte>)
      requires Valid()
      modifies this
      ensures Valid()
      ensures pos >= old(pos)
      ensures if old(Left()) == [] then r == Failure(UnexpectedEnd) && Left() == []
              else r == Success(old(Left())[0]) && Left() == old(Left())[1..]
    {
      if pos >= |view| {
        return Failure(UnexpectedEnd);
      }
      r := Success(view[pos]);
      pos := pos + 1;
    }

    method ReadUintN(n: nat) returns (r: Outcome<nat>)
      requires Valid()
      modifies this
      ensures Valid() && pos >= old(pos) && Agrees(UintN(old(Left()), n), r, Left())
    {
      var value: nat := 0;
      var i := 0;
      ghost var start := Left();
      while i < n
        invariant Valid() && i <= n && i <= |start| && pos >= old(pos)
        invariant Left() == start[i..] && value == BigEndian(start[..i])
      {
        var b := ReadUint8();
        if b.Failure? {
          return Failure(b.error);
        }
        assert start[..i + 1] == start[..i] + [b.value];
        BigEndianAppend(start[..i], b.value);
        value := value * 256 + b.value;
        i := i + 1;
      }
      r := Success(value);
    }

    method ReadLength(minor: nat) returns (r: Outcome<nat>)
      requires Valid() && minor < 32
      modifies this
      ensures Valid() && pos >= old(pos) && Agrees(Length(old(Left()), minor), r, Left())
    {
      if minor < 24 {
        return Success(minor);
      }
      if minor == 24 {
        ghost var start := Left();
        var b := ReadUint8();
        if b.Failure? {
          return Failure(b.error);
        }
        assert start[..1] == [] + [b.value];
        BigEndianAppend([], b.value);
        return Success(b.value);
      }
      if minor == 25 {
        r := ReadUintN(2);
        return;
      }
      if minor == 26 {
        r := ReadUintN(4);
        return;
      }
      if minor == 27 {
        var hi := ReadUintN(4);
        if hi.Failure? {
          return Failure(hi.error);
        }
        var lo := ReadUintN(4);
        if lo.Failure? {
          return Failure(lo.error);
        }
        if hi.value > 0x1F_FFFF {
          return Failure(UnsafeLength);
        }
        return Success(hi.value * 0x1_0000_0000 + lo.value);
      }
      r := Failure(BadLength);
    }

    method ReadBytes(len: nat) returns (r: Outcome<seq<byte>>)
      requires Valid()
      modifies this
      ensures Valid() && pos >= old(pos) && Agrees(Run(old(Left()), len), r, Left())
    {
      if pos + len > |view| {
        return Failure(PastEnd);
      }
      var slice := view[pos..pos + len];
      assert slice == Left()[..len];
      pos := pos + len;
      r := Success(slice);
    }

    /** One item, whatever the bytes: the position only moves forward, and what
        decreases is what is left of the view. */
    method ReadItem() returns (r: Outcome<Value>)
      requires Valid()
      modifies this
      ensures Valid() && Agrees(Item(old(Left())), r, Left())
      ensures pos >= old(pos)
      decreases |view| - pos, 0
    {
      var initial := ReadUint8();
      if initial.Failure? {
        return Failure(initial.error);
      }
      var major, minor := initial.value / 32, initial.value % 32;
      if major !in {0, 2, 3, 4, 5} {
        return Failure(UnsupportedMajor);
      }
      var n := ReadLength(minor);
      if n.Failure? {
        return Failure(n.error);
      }
      if major == 0 {
        return Success(UInt(n.value));
      }
      if major == 2 || major == 3 {
        var b := ReadBytes(n.value);
        if b.Failure? {
          return Failure(b.error);
        }
        return Success(if major == 2 then Bytes(b.value) else Text(b.value));
      }
      if major == 4 {
        var items := ReadArray(n.value);
        if items.Failure? {
          return Failure(items.error);
        }
        return Success(Array(items.value));
      }
      var entries := ReadMap(n.value);
      if entries.Failure? {
        return Failure(entries.error);
      }
      r := Success(Map(entries.value));
    }

    method ReadArray(count: nat) returns (r: Outcome<seq<Value>>)
      requires Valid()
      modifies this
      ensures Valid() && Agrees(Items(old(Left()), count, []), r, Left())
      ensures pos >= old(pos)
      decreases |view| - pos, 1
    {
      var out := [];
      var i := 0;
      while i < count
        invariant Valid() && i <= count && pos >= old(pos)
        invariant Items(Left(), count - i, out) == Items(old(Left()), count, [])
        decreases count - i
      {
        var item := ReadItem();
        if item.Failure? {
          return Failure(item.error);
        }
        out := out + [item.value];
        i := i + 1;
      }
      r := Success(out);
    }

    method ReadMap(count: nat) returns (r: Outcome<seq<Entry>>)
      requires Valid()
      modifies this
      ensures Valid() && Agrees(Entries(old(Left()), count, []), r, Left())
      ensures pos >= old(pos)
      decreases |view| - pos, 2
    {
      var out := [];
      var i := 0;
      while i < count
        invariant Valid() && i <= count && pos >= old(pos)
        invariant Entries(Left(), count - i, out) == Entries(old(Left()), count, [])
        decreases count - i
      {
        var e := ReadKeyAndValue();
        if e.Failure? {
          return Failure(e.error);
        }
        out := Put(out, e.value);
        i := i + 1;
      }
      r := Success(out);
    }

    method ReadKeyAndValue() returns (r: Outcome<Entry>)
      requires Valid()
      modifies this
      ensures Valid() && Agrees(KeyAndValue(old(Left())), r, Left())
      ensures pos >= old(pos)
      decreases |view| - pos, 1
    {
      var key := ReadItem();
      if key.Failure? {
        return Failure(key.error);
      }
      if !key.value.Text? {
        return Failure(KeyNotText);
      }
      var value := ReadItem();
      if value.Failure? {
        return Failure(value.error);
      }
      r := Success(Entry(key.value.utf8, value.value));
    }
  }

  method DecodeBytes(bytes: seq<byte>) returns (r: Outcome<Value>)
    ensures Agrees(Decode(bytes), r, [])
  {
    var reader := new Reader(bytes);
    assert bytes[0..] == bytes;
    r := reader.ReadItem();
    if r.Success? && reader.pos != |bytes| {
      r := Failure(TrailingBytes);
    }
  }

  // -------------------------------------------------------------- writing

  /** The parts end to end. */
  function Flat(parts: seq<seq<byte>>): seq<byte> {
    if parts == [] then [] else Flat(parts[..|parts| - 1]) + parts[|parts| - 1]
  }

  function TotalLength(parts: seq<seq<byte>>): nat {
    if parts == [] then 0 else TotalLength(parts[..|parts| - 1]) + |parts[|parts| - 1]|
  }

  lemma FlatPush(parts: seq<seq<byte>>, p: seq<byte>)
    ensures Flat(parts + [p]) == Flat(parts) + p
  {
  }

  lemma Regroup(a: seq<byte>, b: seq<byte>, c: seq<byte>)
    ensures a + b + c == a + (b + c)
  {
  }

  lemma ItemFirst(rest: seq<Value>)
    requires rest != []
    ensures EncodeItems(rest) == Encode(rest[0]) + EncodeItems(rest[1..])
  {
  }

  lemma EntryFirst(rest: seq<Entry>)
    requires rest != []
    ensures EncodeEntries(rest) == EncodeEntry(rest[0]) + EncodeEntries(rest[1..])
  {
  }

  class Writer {
    var parts: seq<seq<byte>>

    constructor ()
      ensures parts == []
    {
      parts := [];
    }

    method Push(p: seq<byte>)
      modifies this
      ensures parts == old(parts) + [p] && Flat(parts) == old(Flat(parts)) + p
    {
      FlatPush(parts, p);
      parts := parts + [p];
    }

    method WriteTypeAndLength(major: nat, length: nat)
      requires major < 8
      modifies this
      ensures Flat(parts) == old(Flat(parts)) + Head(major, length)
    {
      var head := major * 32;
      if length < 24 {
        Push([head + length]);
      } else if length < 0x100 {
        Push([head + 24, length]);
      } else if length < 0x1_0000 {
        Push([head + 25, length / 0x100, length % 256]);
      } else {
        Push([head + 26, length / 0x100_0000 % 256, length / 0x1_0000 % 256, length / 0x100 % 256, length % 256]);
      }
    }

    method WriteRun(major: nat, run: seq<byte>)
      requires major < 8
      modifies this
      ensures Flat(parts) == old(Flat(parts)) + (Head(major, |run|) + run)
    {
      WriteTypeAndLength(major, |run|);
      Push(run);
    }

    method WriteItem(value: Value)
      modifies this
      ensures Flat(parts) == old(Flat(parts)) + Encode(value)
      decreases value, 0
    {
      match value
      case UInt(n) => WriteTypeAndLength(0, n);
      case Bytes(b) => WriteRun(2, b);
      case Text(t) => WriteRun(3, t);
      case Array(items) => WriteArray(items);
      case Map(entries) => WriteMap(entries);
    }

    method WriteArray(items: seq<Value>)
      modifies this
      ensures Flat(parts) == old(Flat(parts)) + (Head(4, |items|) + EncodeItems(items))
      decreases items, 2
    {
      ghost var start, head := Flat(parts), Head(4, |items|);
      WriteTypeAndLength(4, |items|);
      WriteItems(items);
      Regroup(start, head, EncodeItems(items));
    }

    method WriteMap(entries: seq<Entry>)
      modifies this
      ensures Flat(parts) == old(Flat(parts)) + (Head(5, |entries|) + EncodeEntries(entries))
      decreases entries, 2
    {
      ghost var start, head := Flat(parts), Head(5, |entries|);
      WriteTypeAndLength(5, |entries|);
      WriteEntries(entries);
      Regroup(start, head, EncodeEntries(entries));
    }

    method WriteItems(items: seq<Value>)
      modifies this
      ensures Flat(parts) == old(Flat(parts)) + EncodeItems(items)
      decreases items, 1
    {
      var rest := items;
      while rest != []
        invariant forall v :: v in rest ==> v in items
        invariant Flat(parts) + EncodeItems(rest) == old(Flat(parts)) + EncodeItems(items)
        decreases |rest|
      {
        assert rest[0] in items;
        ItemFirst(rest);
        Regroup(Flat(parts), Encode(rest[0]), EncodeItems(rest[1..]));
        WriteItem(rest[0]);
        rest := rest[1..];
      }
    }

    method WriteEntry(e: Entry)
      modifies this
      ensures Flat(parts) == old(Flat(parts)) + EncodeEntry(e)
      decreases e, 1
    {
      ghost var start, key := Flat(parts), Head(3, |e.key|) + e.key;
      WriteRun(3, e.key);
      WriteItem(e.value);
      Regroup(start, key, Encode(e.value));
    }

    method WriteEntries(entries: seq<Entry>)
      modifies this
      ensures Flat(parts) == old(Flat(parts)) + EncodeEntries(entries)
      decreases entries, 1
    {
      var rest := entries;
      while rest != []
        invariant forall e :: e in rest ==> e in entries
        invariant Flat(parts) + EncodeEntries(rest) == old(Flat(parts)) + EncodeEntries(entries)
        decreases |rest|
      {
        var e := rest[0];
        assert e in entries;
        EntryFirst(rest);
        Regroup(Flat(parts), EncodeEntry(e), EncodeEntries(rest[1..]));
        WriteEntry(e);
        rest := rest[1..];
      }
    }
  }

  lemma FlatLength(parts: seq<seq<byte>>)
    ensures |Flat(parts)| == TotalLength(parts)
  {
  }

  lemma {:induction false} TotalGrows(parts: seq<seq<byte>>, k: nat)
    requires k <= |parts|
    ensures TotalLength(parts[..k]) <= TotalLength(parts)
  {
    if k == |parts| {
      assert parts[..k] == parts;
    } else {
      assert parts[..|parts| - 1][..k] == parts[..k];
      TotalGrows(parts[..|parts| - 1], k);
    }
  }

  method EncodeValue(value: Value) returns (out: array<byte>)
    ensures fresh(out) && out[..] == Encode(value)
  {
    var writer := new Writer();
    writer.WriteItem(value);
    var parts := writer.parts;
    var total := 0;
    for i := 0 to |parts|
      invariant total == TotalLength(parts[..i])
    {
      assert parts[..i + 1][..i] == parts[..i];
      total := total + |parts[i]|;
    }
    assert parts[..|parts|] == parts;
    FlatLength(parts);
    out := new byte[total];
    var off := 0;
    for i := 0 to |parts|
      invariant off == TotalLength(parts[..i]) <= total
      invariant fresh(out) && out.Length == total && out[..off] == Flat(parts[..i])
    {
      assert parts[..i + 1][..i] == parts[..i];
      TotalGrows(parts, i + 1);
      SetAt(out, off, parts[i]);
      off := off + |parts[i]|;
    }
    assert out[..total] == out[..];
  }
}
