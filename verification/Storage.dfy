/** The rows of a room under their string keys (host/storage.js, RoomStorage),
    and why the key families room.js uses never meet: what module Rooms calls
    tickets, tokens, challenges and counters are four independent maps. */
module Storage {
  import opened Wrappers
  import Quotas
  import opened Rooms

  datatype Row =
    | TextRow(text: string)
    | NumberRow(number: int)
    | QuotaRow(quota: Quotas.Quota)
    | ChallengeRow(expiresAt: int)
    | TicketRow(ticket: Ticket)
    | TokenRow(token: Token)

  const TICKET := "ticket:"
  const REGTOKEN := "regtoken:"
  const CHALLENGE := "attestchallenge:"
  const COUNTER := "assertcounter:"

  const FAMILIES: seq<string> := [TICKET, REGTOKEN, CHALLENGE, COUNTER]
  const SINGLES: seq<string> := ["verifier", "registrantKeyId", "pairingCycles", "lastActivity", "quota"]

  /** The names under a prefix: exactly those whose key is the prefix and the name. */
  function Names(rows: map<string, Row>, prefix: string): (names: set<string>)
    ensures forall n :: n in names <==> prefix + n in rows
  {
    var names := set k | k in rows && prefix <= k :: k[|prefix|..];
    assert forall n {:trigger prefix + n} :: prefix + n in rows ==> n in names by {
      forall n {:trigger prefix + n} | prefix + n in rows
        ensures n in names
      {
        assert (prefix + n)[|prefix|..] == n;
      }
    }
    assert forall k :: k in rows && prefix <= k ==> prefix + k[|prefix|..] == k;
    names
  }

  /** list({ prefix }), with the prefix taken off the keys. */
  function Family(rows: map<string, Row>, prefix: string): map<string, Row> {
    map n | n in Names(rows, prefix) :: rows[prefix + n]
  }

  predicate Parted(p: string, q: string) {
    exists i :: 0 <= i < |p| && i < |q| && p[i] != q[i]
  }

  lemma PartedKeys(p: string, q: string, key: string)
    requires Parted(p, q) && p <= key
    ensures !(q <= key)
  {
  }

  /** Any two prefixes differ in a character both have. */
  lemma FamiliesPart(i: nat, j: nat)
    requires i < |FAMILIES| && j < |FAMILIES| && i != j
    ensures Parted(FAMILIES[i], FAMILIES[j])
  {
    assert FAMILIES[i][0] != FAMILIES[j][0] || FAMILIES[i][1] != FAMILIES[j][1];
  }

  lemma SinglesPart(i: nat, j: nat)
    requires i < |FAMILIES| && j < |SINGLES|
    ensures !(FAMILIES[i] <= SINGLES[j])
  {
    assert FAMILIES[i][0] != SINGLES[j][0] || FAMILIES[i][3] != SINGLES[j][3];
  }

  lemma PutOwn(rows: map<string, Row>, prefix: string, name: string, row: Row)
    ensures Family(rows[prefix + name := row], prefix) == Family(rows, prefix)[name := row]
  {
  }

  lemma DeleteOwn(rows: map<string, Row>, prefix: string, name: string)
    ensures Family(rows - {prefix + name}, prefix) == Family(rows, prefix) - {name}
  {
  }

  /** A put or a delete under one family's key is one in that family and in no other. */
  lemma FamiliesAreIndependent(rows: map<string, Row>, i: nat, name: string, row: Row)
    requires i < |FAMILIES|
    ensures Family(rows[FAMILIES[i] + name := row], FAMILIES[i]) == Family(rows, FAMILIES[i])[name := row]
    ensures Family(rows - {FAMILIES[i] + name}, FAMILIES[i]) == Family(rows, FAMILIES[i]) - {name}
    ensures forall j :: 0 <= j < |FAMILIES| && j != i ==>
              && Family(rows[FAMILIES[i] + name := row], FAMILIES[j]) == Family(rows, FAMILIES[j])
              && Family(rows - {FAMILIES[i] + name}, FAMILIES[j]) == Family(rows, FAMILIES[j])
  {
    PutOwn(rows, FAMILIES[i], name, row);
    DeleteOwn(rows, FAMILIES[i], name);
    forall j | 0 <= j < |FAMILIES| && j != i
      ensures Family(rows[FAMILIES[i] + name := row], FAMILIES[j]) == Family(rows, FAMILIES[j])
      ensures Family(rows - {FAMILIES[i] + name}, FAMILIES[j]) == Family(rows, FAMILIES[j])
    {
      FamiliesPart(i, j);
      PartedKeys(FAMILIES[i], FAMILIES[j], FAMILIES[i] + name);
      OutsideFamily(rows, FAMILIES[j], FAMILIES[i] + name, row);
    }
  }

  lemma OutsideFamily(rows: map<string, Row>, prefix: string, key: string, row: Row)
    requires !(prefix <= key)
    ensures Family(rows[key := row], prefix) == Family(rows, prefix)
    ensures Family(rows - {key}, prefix) == Family(rows, prefix)
  {
  }

  /** The other rows belong to no family. */
  lemma PutSingle(rows: map<string, Row>, s: nat, row: Row)
    requires s < |SINGLES|
    ensures forall j :: 0 <= j < |FAMILIES| ==> Family(rows[SINGLES[s] := row], FAMILIES[j]) == Family(rows, FAMILIES[j])
  {
    forall j | 0 <= j < |FAMILIES|
      ensures Family(rows[SINGLES[s] := row], FAMILIES[j]) == Family(rows, FAMILIES[j])
    {
      SinglesPart(j, s);
      OutsideFamily(rows, FAMILIES[j], SINGLES[s], row);
    }
  }

  // ------------------------------------------------- the rows as a store

  /** The rows by kind: the single ones, and the four families. */
  datatype Parts = Parts(singles: seq<Option<Row>>, families: seq<map<string, Row>>) {
    predicate Wf() {
      |singles| == |SINGLES| && |families| == |FAMILIES|
    }
  }

  function PartsOf(rows: map<string, Row>): (p: Parts)
    ensures p.Wf()
  {
    Parts(seq(|SINGLES|, s requires 0 <= s < |SINGLES| => Lookup(rows, SINGLES[s])),
          seq(|FAMILIES|, i requires 0 <= i < |FAMILIES| => Family(rows, FAMILIES[i])))
  }

  function TextIn(r: Option<Row>): Option<string> {
    if r.Some? && r.value.TextRow? then Some(r.value.text) else None
  }

  function NumberIn(r: Option<Row>): Option<int> {
    if r.Some? && r.value.NumberRow? then Some(r.value.number) else None
  }

  /** `(get(key)) || 0`, for a count. */
  function CountIn(r: Option<Row>): nat {
    if r.Some? && r.value.NumberRow? && r.value.number >= 0 then r.value.number else 0
  }

  function QuotaIn(r: Option<Row>): Option<Quotas.Quota> {
    if r.Some? && r.value.QuotaRow? then Some(r.value.quota) else None
  }

  function TicketsIn(m: map<string, Row>): map<string, Ticket> {
    map n | n in m && m[n].TicketRow? :: m[n].ticket
  }

  function TokensIn(m: map<string, Row>): map<string, Token> {
    map n | n in m && m[n].TokenRow? :: m[n].token
  }

  function ChallengesIn(m: map<string, Row>): map<string, int> {
    map n | n in m && m[n].ChallengeRow? :: m[n].expiresAt
  }

  function CountersIn(m: map<string, Row>): map<string, int> {
    map n | n in m && m[n].NumberRow? :: m[n].number
  }

  function StoreOfParts(p: Parts): Store
    requires p.Wf()
  {
    Store(TextIn(p.singles[0]), TextIn(p.singles[1]), CountIn(p.singles[2]), NumberIn(p.singles[3]), QuotaIn(p.singles[4]),
          TicketsIn(p.families[0]), TokensIn(p.families[1]), ChallengesIn(p.families[2]), CountersIn(p.families[3]))
  }

  /** What module Rooms calls the store, read off the string-keyed rows. */
  function StoreOf(rows: map<string, Row>): Store {
    StoreOfParts(PartsOf(rows))
  }

  lemma KeyIsNotSingle(i: nat, name: string, key: string)
    requires i < |FAMILIES| && key == FAMILIES[i] + name
    ensures key !in SINGLES
  {
    assert FAMILIES[i] <= key;
    forall s | 0 <= s < |SINGLES|
      ensures key != SINGLES[s]
    {
      SinglesPart(i, s);
    }
  }

  /** Rows that differ in one family only. */
  lemma OneFamily(rows: map<string, Row>, after: map<string, Row>, i: nat, key: string)
    requires i < |FAMILIES| && key !in SINGLES
    requires forall k :: k != key ==> (k in after <==> k in rows) && (k in rows ==> after[k] == rows[k])
    requires forall j :: 0 <= j < |FAMILIES| && j != i ==> Family(after, FAMILIES[j]) == Family(rows, FAMILIES[j])
    ensures PartsOf(after) == PartsOf(rows).(families := PartsOf(rows).families[i := Family(after, FAMILIES[i])])
  {
    var p, q := PartsOf(rows), PartsOf(after);
    forall s | 0 <= s < |SINGLES|
      ensures q.singles[s] == p.singles[s]
    {
      assert SINGLES[s] in SINGLES;
    }
    assert q.singles == p.singles;
    assert q.families == p.families[i := Family(after, FAMILIES[i])];
  }

  /** A put or a delete under a family's key is one in that part alone. */
  lemma FamilyPut(rows: map<string, Row>, i: nat, name: string, row: Row, key: string)
    requires i < |FAMILIES| && key == FAMILIES[i] + name
    ensures var p := PartsOf(rows);
            PartsOf(rows[key := row]) == p.(families := p.families[i := p.families[i][name := row]])
  {
    FamiliesAreIndependent(rows, i, name, row);
    KeyIsNotSingle(i, name, key);
    OneFamily(rows, rows[key := row], i, key);
  }

  lemma FamilyDelete(rows: map<string, Row>, i: nat, name: string, key: string)
    requires i < |FAMILIES| && key == FAMILIES[i] + name
    ensures var p := PartsOf(rows);
            PartsOf(rows - {key}) == p.(families := p.families[i := p.families[i] - {name}])
  {
    FamiliesAreIndependent(rows, i, name, TextRow(""));
    KeyIsNotSingle(i, name, key);
    OneFamily(rows, rows - {key}, i, key);
  }

  /** A put under a single key is one in that part alone. */
  lemma SinglePart(rows: map<string, Row>, s: nat, row: Row)
    requires s < |SINGLES|
    ensures var p := PartsOf(rows);
            PartsOf(rows[SINGLES[s] := row]) == p.(singles := p.singles[s := Some(row)])
  {
    PutSingle(rows, s, row);
    forall u | 0 <= u < |SINGLES| && u != s
      ensures SINGLES[u] != SINGLES[s]
    {
      assert SINGLES[u][0] != SINGLES[s][0];
    }
  }

  /** Replacing one part replaces one field. */
  lemma FieldOfPart(p: Parts, m: map<string, Row>, r: Option<Row>)
    requires p.Wf()
    ensures var s := StoreOfParts(p);
            && StoreOfParts(p.(families := p.families[0 := m])) == s.(tickets := TicketsIn(m))
            && StoreOfParts(p.(families := p.families[1 := m])) == s.(tokens := TokensIn(m))
            && StoreOfParts(p.(families := p.families[2 := m])) == s.(challenges := ChallengesIn(m))
            && StoreOfParts(p.(families := p.families[3 := m])) == s.(counters := CountersIn(m))
            && StoreOfParts(p.(singles := p.singles[0 := r])) == s.(verifier := TextIn(r))
            && StoreOfParts(p.(singles := p.singles[1 := r])) == s.(registrant := TextIn(r))
            && StoreOfParts(p.(singles := p.singles[2 := r])) == s.(cycles := CountIn(r))
            && StoreOfParts(p.(singles := p.singles[3 := r])) == s.(lastActivity := NumberIn(r))
            && StoreOfParts(p.(singles := p.singles[4 := r])) == s.(quota := QuotaIn(r))
  {
  }

  /** `after` is `before` with the field of family `i` read off `m`. */
  predicate FieldReplaced(before: Store, after: Store, i: nat, m: map<string, Row>) {
    && (i == 0 ==> after == before.(tickets := TicketsIn(m)))
    && (i == 1 ==> after == before.(tokens := TokensIn(m)))
    && (i == 2 ==> after == before.(challenges := ChallengesIn(m)))
    && (i == 3 ==> after == before.(counters := CountersIn(m)))
  }

  /** Each put and delete that src/room.js makes under a prefix changes that one
      field of the store. */
  lemma FamilyRows(rows: map<string, Row>, i: nat, name: string, row: Row, key: string)
    requires i < |FAMILIES| && key == FAMILIES[i] + name
    ensures FieldReplaced(StoreOf(rows), StoreOf(rows[key := row]), i, Family(rows, FAMILIES[i])[name := row])
    ensures FieldReplaced(StoreOf(rows), StoreOf(rows - {key}), i, Family(rows, FAMILIES[i]) - {name})
  {
    var p := PartsOf(rows);
    FamilyPut(rows, i, name, row, key);
    FieldOfPart(p, p.families[i][name := row], None);
    FamilyDelete(rows, i, name, key);
    FieldOfPart(p, p.families[i] - {name}, None);
  }

  /** Each put that it makes under a single key changes that one field. */
  lemma SingleRows(rows: map<string, Row>, s: nat, row: Row, key: string)
    requires s < |SINGLES| && key == SINGLES[s]
    ensures var before, after := StoreOf(rows), StoreOf(rows[key := row]);
            && (s == 0 ==> after == before.(verifier := TextIn(Some(row))))
            && (s == 1 ==> after == before.(registrant := TextIn(Some(row))))
            && (s == 2 ==> after == before.(cycles := CountIn(Some(row))))
            && (s == 3 ==> after == before.(lastActivity := NumberIn(Some(row))))
            && (s == 4 ==> after == before.(quota := QuotaIn(Some(row))))
  {
    SinglePart(rows, s, row);
    FieldOfPart(PartsOf(rows), map[], Some(row));
  }

  /** deleteAll() leaves the store of a new room. */
  lemma NoRowsShowEmpty()
    ensures StoreOf(map[]) == EMPTY
  {
    forall i | 0 <= i < |FAMILIES|
      ensures Family(map[], FAMILIES[i]) == map[]
    {
    }
  }

  class RoomStorage {
    var rows: map<string, Row>
    var alarm: Option<int>

    constructor ()
      ensures rows == map[] && alarm == None
    {
      rows, alarm := map[], None;
    }

    method Get(key: string) returns (row: Option<Row>)
      ensures row == if key in rows then Some(rows[key]) else None
    {
      row := if key in rows then Some(rows[key]) else None;
    }

    method Put(key: string, row: Row)
      modifies this`rows
      ensures rows == old(rows)[key := row]
    {
      rows := rows[key := row];
    }

    /** Reports whether there was a row: of two deletes, only one is told yes. */
    method Delete(key: string) returns (changed: bool)
      modifies this`rows
      ensures rows == old(rows) - {key} && changed == (key in old(rows))
    {
      changed := key in rows;
      rows := rows - {key};
    }

    /** Every row, but not the alarm. */
    method DeleteAll()
      modifies this`rows
      ensures rows == map[]
    {
      rows := map[];
    }

    method List(prefix: string) returns (out: map<string, Row>)
      ensures forall k :: k in out <==> k in rows && prefix <= k
      ensures forall k :: k in out ==> out[k] == rows[k]
    {
      out := map[];
      var keys := rows.Keys;
      while keys != {}
        invariant keys <= rows.Keys
        invariant forall k :: k in out <==> k in rows && k !in keys && prefix <= k
        invariant forall k :: k in out ==> out[k] == rows[k]
        decreases |keys|
      {
        var k :| k in keys;
        if prefix <= k {
          out := out[k := rows[k]];
        }
        keys := keys - {k};
      }
    }
  }
}
