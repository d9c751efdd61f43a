/** Bytes, and copying a run of them into a buffer (Uint8Array). */
module ByteArrays {
  type byte = x: int | 0 <= x < 256

  const TWO_32: nat := 0x1_0000_0000

  /** out.set(e, at). */
  method SetAt(out: array<byte>, at: nat, e: seq<byte>)
    requires at + |e| <= out.Length
    modifies out
    ensures out[..at + |e|] == old(out[..at]) + e
  {
    for i := 0 to |e|
      invariant out[..at] == old(out[..at])
      invariant out[at..at + i] == e[..i]
    {
      out[at + i] := e[i];
      assert out[at..at + i + 1] == out[at..at + i] + [e[i]];
    }
    assert out[..at + |e|] == out[..at] + out[at..at + |e|];
  }
}
