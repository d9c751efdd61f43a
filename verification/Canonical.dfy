/** The domain-separated encoding under every signature, and the transcripts
    built with it (src/room.js: canonicalEncode, joinTranscript,
    deleteTranscript). Text is the sequence of its UTF-8 bytes. */
module Canonical {
  import opened Wrappers
  import opened ByteArrays

  /** Four bytes, most significant first; a longer length would be cut to 32 bits. */
  function Length32(n: nat): seq<byte> {
    [n / 0x100_0000 % 256, n / 0x1_0000 % 256, n / 0x100 % 256, n % 256]
  }

  function Element(e: seq<byte>): seq<byte> {
    Length32(|e|) + e
  }

  /** len32(e0) || e0 || len32(e1) || e1 || ... */
  function Encoded(elems: seq<seq<byte>>): seq<byte> {
    if elems == [] then [] else Element(elems[0]) + Encoded(elems[1..])
  }

  ghost predicate Encodable(elems: seq<seq<byte>>) {
    forall i :: 0 <= i < |elems| ==> |elems[i]| < TWO_32
  }

  // ----------------------------------------------------------- reading it

  function FromBytes(a: int, b: int, c: int, d: int): int {
    ((a * 256 + b) * 256 + c) * 256 + d
  }

  /** The length in the first four bytes, most significant first. */
  function LengthAt(bytes: seq<byte>): nat
    requires |bytes| >= 4
  {
    FromBytes(bytes[0], bytes[1], bytes[2], bytes[3])
  }

  /** A reader of length-prefixed elements: every element in turn, up to the end;
      nothing for a cut-off prefix or element. */
  function Parsed(bytes: seq<byte>): Option<seq<seq<byte>>>
    decreases |bytes|
  {
    if bytes == [] then Some([])
    else if |bytes| < 4 || |bytes| < 4 + LengthAt(bytes) then None
    else
      var end := 4 + LengthAt(bytes);
      match Parsed(bytes[end..])
      case None => None
      case Some(rest) => Some([bytes[4..end]] + rest)
  }

  lemma LastByte(n: int, d: int)
    requires 0 <= d < 256
    ensures (n * 256 + d) / 256 == n && (n * 256 + d) % 256 == d
  {
  }

  lemma ByteByByte(n: nat)
    ensures n / 0x1_0000 == n / 256 / 256 && n / 0x100_0000 == n / 256 / 256 / 256
  {
  }

  lemma LengthRoundTrip(n: nat)
    requires n < TWO_32
    ensures LengthAt(Length32(n)) == n
  {
    var p, q := n / 256, n / 256 / 256;
    ByteByByte(n);
    assert p == q * 256 + p % 256 && n == p * 256 + n % 256;
    assert q == q / 256 * 256 + q % 256 && 0 <= q / 256 < 256;
    assert LengthAt(Length32(n)) == FromBytes(q / 256, q % 256, p % 256, n % 256);
  }

  lemma PrefixRoundTrip(a: byte, b: byte, c: byte, d: byte)
    ensures FromBytes(a, b, c, d) < TWO_32 && Length32(FromBytes(a, b, c, d)) == [a, b, c, d]
  {
    var p: int := a as int * 256 + b as int;
    var q: int := p * 256 + c as int;
    ByteByByte(FromBytes(a, b, c, d));
    LastByte(q, d);
    LastByte(p, c);
    LastByte(a, b);
  }

  /** Bytes whose first four are a length are an element of that length. */
  lemma ElementAt(bytes: seq<byte>)
    requires |bytes| >= 4 && |bytes| >= 4 + LengthAt(bytes)
    ensures var end := 4 + LengthAt(bytes);
            LengthAt(bytes) < TWO_32 && bytes == Element(bytes[4..end]) + bytes[end..]
  {
    var end := 4 + LengthAt(bytes);
    PrefixRoundTrip(bytes[0], bytes[1], bytes[2], bytes[3]);
    assert bytes[..4] == [bytes[0], bytes[1], bytes[2], bytes[3]];
    assert bytes == bytes[..4] + bytes[4..end] + bytes[end..];
  }

  lemma ParsedElement(e: seq<byte>, rest: seq<byte>)
    requires |e| < TWO_32 && Parsed(rest).Some?
    ensures Parsed(Element(e) + rest) == Some([e] + Parsed(rest).value)
  {
    var bytes := Element(e) + rest;
    LengthRoundTrip(|e|);
    assert bytes[..4] == Length32(|e|) && LengthAt(bytes) == LengthAt(bytes[..4]);
    assert bytes[4..4 + |e|] == e && bytes[4 + |e|..] == rest;
  }

  /** The reader gives back the elements, however many there are. */
  lemma {:induction false} ParsedEncoded(elems: seq<seq<byte>>)
    ensures Encodable(elems) ==> Parsed(Encoded(elems)) == Some(elems)
  {
    if elems != [] && Encodable(elems) {
      var e, rest := elems[0], Encoded(elems[1..]);
      assert forall i :: 0 <= i < |elems[1..]| ==> elems[1..][i] == elems[i + 1];
      ParsedEncoded(elems[1..]);
      ParsedElement(e, rest);
      assert [e] + elems[1..] == elems;
    }
  }

  /** What it reads is the one list with that encoding. */
  lemma {:induction false} EncodedParsed(bytes: seq<byte>)
    ensures var elems := Parsed(bytes);
            elems.Some? ==> Encodable(elems.value) && Encoded(elems.value) == bytes
    decreases |bytes|
  {
    if bytes != [] && Parsed(bytes).Some? {
      var end := 4 + LengthAt(bytes);
      var e, rest := bytes[4..end], Parsed(bytes[end..]).value;
      EncodedParsed(bytes[end..]);
      ElementAt(bytes);
      assert ([e] + rest)[1..] == rest;
    }
  }

  /** Distinct field lists have distinct encodings, for any number of fields. */
  lemma EncodingInjective(xs: seq<seq<byte>>, ys: seq<seq<byte>>)
    requires Encodable(xs) && Encodable(ys) && Encoded(xs) == Encoded(ys)
    ensures xs == ys
  {
    ParsedEncoded(xs);
    ParsedEncoded(ys);
  }

  function TotalLength(elems: seq<seq<byte>>): nat {
    if elems == [] then 0 else 4 + |elems[0]| + TotalLength(elems[1..])
  }

  lemma {:induction false} EncodedLength(elems: seq<seq<byte>>)
    ensures |Encoded(elems)| == TotalLength(elems)
  {
    if elems != [] {
      EncodedLength(elems[1..]);
    }
  }

  /** canonicalEncode: size the buffer, then fill it by index. */
  method CanonicalEncode(domain: seq<byte>, fields: seq<seq<byte>>) returns (out: array<byte>)
    ensures fresh(out) && out[..] == Encoded([domain] + fields)
    ensures Encodable([domain] + fields) ==> Parsed(out[..]) == Some([domain] + fields)
  {
    var elems := [domain] + fields;
    var total := 0;
    var rest := elems;
    while rest != []
      invariant total + TotalLength(rest) == TotalLength(elems)
      decreases |rest|
    {
      total := total + 4 + |rest[0]|;
      rest := rest[1..];
    }
    EncodedLength(elems);
    out := new byte[total](_ => 0);
    var o := 0;
    rest := elems;
    while rest != []
      invariant 0 <= o <= out.Length && o + TotalLength(rest) == total
      invariant out[..o] + Encoded(rest) == Encoded(elems)
      decreases |rest|
    {
      var e := rest[0];
      ghost var done := out[..o];
      WriteElement(out, o, e);
      assert done + (Element(e) + Encoded(rest[1..])) == done + Element(e) + Encoded(rest[1..]);
      o := o + 4 + |e|;
      rest := rest[1..];
    }
    assert out[..o] == out[..];
    ParsedEncoded(elems);
  }

  /** One length prefix and its bytes, at index `o`. */
  method WriteElement(out: array<byte>, o: nat, e: seq<byte>)
    requires o + 4 + |e| <= out.Length
    modifies out
    ensures out[..o + 4 + |e|] == old(out[..o]) + Element(e)
  {
    out[o] := |e| / 0x100_0000 % 256;
    out[o + 1] := |e| / 0x1_0000 % 256;
    out[o + 2] := |e| / 0x100 % 256;
    out[o + 3] := |e| % 256;
    assert out[..o + 4] == old(out[..o]) + Length32(|e|);
    SetAt(out, o + 4, e);
  }

  // ---------------------------------------------------------- transcripts

  datatype Role = Mac | Phone

  /** The bytes of an ASCII text. */
  function Ascii(s: string): seq<byte> {
    seq(|s|, i requires 0 <= i < |s| => s[i] as int % 256)
  }

  const JOIN_NAME: string := "iterm2-relay-join"
  const DELETE_NAME: string := "iterm2-relay-delete"
  const JOIN_DOMAIN: seq<byte> := Ascii(JOIN_NAME)
  const DELETE_DOMAIN: seq<byte> := Ascii(DELETE_NAME)

  const PROTOCOL_VERSION: byte := 1

  function RoleByte(role: Role): byte {
    if role.Mac? then 1 else 2
  }

  function JoinFields(role: Role, nonce: seq<byte>, room: seq<byte>, origin: seq<byte>): seq<seq<byte>> {
    [JOIN_DOMAIN, [PROTOCOL_VERSION], [RoleByte(role)], nonce, room, origin]
  }

  function DeleteFields(challenge: seq<byte>, room: seq<byte>, origin: seq<byte>): seq<seq<byte>> {
    [DELETE_DOMAIN, [PROTOCOL_VERSION], challenge, room, origin]
  }

  function JoinTranscript(role: Role, nonce: seq<byte>, room: seq<byte>, origin: seq<byte>): seq<byte> {
    Encoded(JoinFields(role, nonce, room, origin))
  }

  function DeleteTranscript(challenge: seq<byte>, room: seq<byte>, origin: seq<byte>): seq<byte> {
    Encoded(DeleteFields(challenge, room, origin))
  }

  /** The bytes of `text` are its character codes. */
  predicate Spells(bytes: seq<byte>, text: string) {
    |bytes| == |text| && forall i :: 0 <= i < |text| ==> bytes[i] == text[i] as int
  }

  lemma AsciiSpells(text: string)
    requires forall i :: 0 <= i < |text| ==> text[i] <= '~'
    ensures Spells(Ascii(text), text)
  {
    assert forall i :: 0 <= i < |text| ==> text[i] as int <= '~' as int < 256;
  }

  /** What a join signs, read back: domain, version 1, role (1 for a mac, 2 for a
      phone), nonce, room and origin. */
  lemma JoinTranscriptReads(role: Role, nonce: seq<byte>, room: seq<byte>, origin: seq<byte>)
    requires |nonce| < TWO_32 && |room| < TWO_32 && |origin| < TWO_32
    ensures var f := Parsed(JoinTranscript(role, nonce, room, origin));
            && f.Some? && |f.value| == 6 && Spells(f.value[0], "iterm2-relay-join")
            && f.value[1] == [1] && f.value[2] == [match role case Mac => 1 case Phone => 2]
            && f.value[3] == nonce && f.value[4] == room && f.value[5] == origin
  {
    AsciiSpells(JOIN_NAME);
    ParsedEncoded(JoinFields(role, nonce, room, origin));
  }

  /** What a deletion signs, read back. */
  lemma DeleteTranscriptReads(challenge: seq<byte>, room: seq<byte>, origin: seq<byte>)
    requires |challenge| < TWO_32 && |room| < TWO_32 && |origin| < TWO_32
    ensures var f := Parsed(DeleteTranscript(challenge, room, origin));
            && f.Some? && |f.value| == 5 && Spells(f.value[0], "iterm2-relay-delete")
            && f.value[1] == [1] && f.value[2] == challenge && f.value[3] == room && f.value[4] == origin
  {
    AsciiSpells(DELETE_NAME);
    ParsedEncoded(DeleteFields(challenge, room, origin));
  }

  /** A join transcript determines the role, the nonce, the room and the origin. */
  lemma JoinTranscriptDetermines(role1: Role, nonce1: seq<byte>, room1: seq<byte>, origin1: seq<byte>,
                                 role2: Role, nonce2: seq<byte>, room2: seq<byte>, origin2: seq<byte>)
    requires |nonce1| < TWO_32 && |room1| < TWO_32 && |origin1| < TWO_32
    requires |nonce2| < TWO_32 && |room2| < TWO_32 && |origin2| < TWO_32
    requires JoinTranscript(role1, nonce1, room1, origin1) == JoinTranscript(role2, nonce2, room2, origin2)
    ensures role1 == role2 && nonce1 == nonce2 && room1 == room2 && origin1 == origin2
  {
    var f, g := JoinFields(role1, nonce1, room1, origin1), JoinFields(role2, nonce2, room2, origin2);
    EncodingInjective(f, g);
    assert f[2] == g[2] && f[3] == g[3] && f[4] == g[4] && f[5] == g[5];
    assert [RoleByte(role1)][0] == [RoleByte(role2)][0];
  }

  lemma DeleteTranscriptDetermines(challenge1: seq<byte>, room1: seq<byte>, origin1: seq<byte>,
                                   challenge2: seq<byte>, room2: seq<byte>, origin2: seq<byte>)
    requires |challenge1| < TWO_32 && |room1| < TWO_32 && |origin1| < TWO_32
    requires |challenge2| < TWO_32 && |room2| < TWO_32 && |origin2| < TWO_32
    requires DeleteTranscript(challenge1, room1, origin1) == DeleteTranscript(challenge2, room2, origin2)
    ensures challenge1 == challenge2 && room1 == room2 && origin1 == origin2
  {
    var f, g := DeleteFields(challenge1, room1, origin1), DeleteFields(challenge2, room2, origin2);
    EncodingInjective(f, g);
    assert f[2] == g[2] && f[3] == g[3] && f[4] == g[4];
  }

  /** A signature over a join can never be replayed as a deletion. */
  lemma JoinIsNeverDelete(role: Role, nonce: seq<byte>, room1: seq<byte>, origin1: seq<byte>,
                          challenge: seq<byte>, room2: seq<byte>, origin2: seq<byte>)
    requires |nonce| < TWO_32 && |room1| < TWO_32 && |origin1| < TWO_32
    requires |challenge| < TWO_32 && |room2| < TWO_32 && |origin2| < TWO_32
    ensures JoinTranscript(role, nonce, room1, origin1) != DeleteTranscript(challenge, room2, origin2)
  {
    var f, g := JoinFields(role, nonce, room1, origin1), DeleteFields(challenge, room2, origin2);
    assert |f| == 6 && |g| == 5;
    if Encoded(f) == Encoded(g) {
      EncodingInjective(f, g);
    }
  }
}
