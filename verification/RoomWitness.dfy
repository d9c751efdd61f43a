/** Two runs from a new room that break what the comments promise: a phone without
    its mac (host/runtime.js:271-274), and more phones than the cap with one mac
    parked all along (src/room.js:40-48). */
module RoomWitness {
  import opened Wrappers
  import opened Sequences
  import opened Canonical
  import opened RoomSockets
  import opened RoomSocketProofs
  import opened Limits
  import opened Rooms
  import opened RoomProofs
  import opened RoomCaps

  // ---------------------------------------------------- one socket's visit

  /** A well-formed hello, and a proof that is just as well-formed. */
  function HelloAs(role: Role, polite: bool): Json {
    Object(Some(1), Some(role), polite, None, None)
  }

  function Says(ws: int, role: Role, polite: bool, now: int, drawn: string): Event {
    Message(ws, Frame(9, HelloAs(role, polite)), now, drawn)
  }

  /** Connect, say hello, send a proof. */
  function Visit(ws: int, role: Role, polite: bool, now: int, drawn: string): seq<Event> {
    [Connect(ws, now), Says(ws, role, polite, now, drawn), Says(ws, role, polite, now, drawn)]
  }

  /** Every routable socket is admitted. */
  predicate AllIn(socks: Sockets) {
    forall s :: s in socks.live ==> s in socks.att && socks.att[s].Admitted?
  }

  function Greeted(socks: Sockets, ws: int, role: Role, polite: bool, now: int, drawn: string): Sockets {
    Sockets(socks.live + [ws], socks.closing, socks.att[ws := Challenged(role, drawn, polite, now)])
  }

  /** With room to spare, a connection is only added. */
  lemma JoinIsAdded(socks: Sockets, ws: int, now: int)
    requires Inv(socks) && ws !in socks.att && AllIn(socks)
    ensures Joined(socks, ws, now) == Sockets(socks.live + [ws], socks.closing, socks.att[ws := Hello(now)])
  {
    NewIsPending(socks, ws, now);
    SomeElement(PreAuth(socks));
    assert Excess(Added(socks, ws, now)) == [];
    WithoutNone(Added(socks, ws, now).live);
  }

  /** After its hello a socket is challenged, and nothing else has changed. */
  lemma Greets(r: Room, env: Env, ws: int, role: Role, polite: bool, now: int, drawn: string)
    requires Inv(r.socks) && AllIn(r.socks) && ws !in r.socks.att
    ensures var r1 := Step(r, env, Connect(ws, now));
            var r2 := Step(r1, env, Says(ws, role, polite, now, drawn));
            r2.socks == Greeted(r.socks, ws, role, polite, now, drawn) && r2.store == r.store && r2.mem == r.mem
  {
    JoinIsAdded(r.socks, ws, now);
    var r1 := Step(r, env, Connect(ws, now));
    Hellos(r1, env, ws, role, polite, now, drawn);
    Overwritten(r.socks.att, ws, Hello(now), Challenged(role, drawn, polite, now));
  }

  lemma Overwritten(att: map<int, Att>, ws: int, a: Att, b: Att)
    ensures att[ws := a][ws := b] == att[ws := b]
  {
  }

  lemma Hellos(r: Room, env: Env, ws: int, role: Role, polite: bool, now: int, drawn: string)
    requires ws in r.socks.att && r.socks.att[ws] == Hello(now)
    ensures var r1 := Step(r, env, Says(ws, role, polite, now, drawn));
            && r1.socks == r.socks.(att := r.socks.att[ws := Challenged(role, drawn, polite, now)])
            && r1.store == r.store && r1.mem == r.mem
  {
  }

  // ------------------------------------------------------- a room with a mac

  /** `mac` is parked in an un-established room, everybody is admitted, `c` cycles
      are charged, and at most `n` proofs were tried in the window of `now`. */
  ghost predicate Ready(r: Room, mac: int, c: nat, n: nat, now: int) {
    && Inv(r.socks) && AllIn(r.socks) && mac in r.socks.live && Holds(r.socks.att, mac, Mac)
    && !Established(r.store) && r.store.cycles == c
    && Bumped(r.mem.admission, now, ADMISSION_WINDOW_MS).count <= n + 1
  }

  /** A proof in open mode, on a socket that was just challenged. */
  lemma Proves(r: Room, env: Env, ws: int, role: Role, polite: bool, now: int, drawn: string)
    requires !env.attestRequired && !Established(r.store) && r.store.cycles < MAX_PAIRING_CYCLES
    requires Bumped(r.mem.admission, now, ADMISSION_WINDOW_MS).count <= MAX_ADMISSION_ATTEMPTS
    requires ws in r.socks.att && r.socks.att[ws] == Challenged(role, drawn, polite, now)
    requires role == Phone ==> HeldByOther(r.socks, Mac, ws) && !polite
    ensures var e := Says(ws, role, polite, now, drawn);
            var r1 := Step(r, env, e);
            && r1.socks == Judged(r.socks, ws, if polite && HeldByOther(r.socks, role, ws) then Drop else TakeSlot(role))
            && !Established(r1.store) && r1.store.cycles == (if role == Mac then 0 else r.store.cycles + 1)
            && r1.mem.admission == Bumped(r.mem.admission, now, ADMISSION_WINDOW_MS)
            && (role == Phone ==> PairsPhone(r, env, e) && !Parks(r, env, e))
            && (polite && HeldByOther(r.socks, role, ws) ==> !Parks(r, env, e) && !PairsPhone(r, env, e))
            && !Wipes(r, env, e)
  {
  }

  lemma PhoneSits(r: Room, r2: Room, r3: Room, env: Env, mac: int, c: nat, n: nat, ws: int, now: int, drawn: string)
    requires Ready(r, mac, c, n, now) && c < MAX_PAIRING_CYCLES && n < MAX_ADMISSION_ATTEMPTS && ws !in r.socks.att
    requires !env.attestRequired
    requires r2.socks == Greeted(r.socks, ws, Phone, false, now, drawn) && r2.store == r.store && r2.mem == r.mem
    requires r3 == Step(r2, env, Says(ws, Phone, false, now, drawn))
    ensures Ready(r3, mac, c + 1, n + 1, now) && r3.socks.att.Keys == r.socks.att.Keys + {ws}
    ensures ws in r3.socks.live && Holds(r3.socks.att, ws, Phone)
    ensures var e := Says(ws, Phone, false, now, drawn);
            PairsPhone(r2, env, e) && !Parks(r2, env, e) && !Wipes(r2, env, e)
  {
    GreetedInv(r.socks, ws, Phone, false, now, drawn);
    assert mac in r2.socks.live && Holds(r2.socks.att, mac, Mac) && mac != ws;
    assert HeldByOther(r2.socks, Mac, ws);
    Proves(r2, env, ws, Phone, false, now, drawn);
    TakeSlotKeepsInv(r2.socks, ws, Phone);
    SatIn(r.socks, r2.socks, ws, Phone, false, now, drawn);
  }

  lemma MacRefused(r: Room, r2: Room, r3: Room, env: Env, mac: int, c: nat, n: nat, ws: int, now: int, drawn: string)
    requires Ready(r, mac, c, n, now) && c < MAX_PAIRING_CYCLES && n < MAX_ADMISSION_ATTEMPTS && ws !in r.socks.att
    requires !env.attestRequired
    requires r2.socks == Greeted(r.socks, ws, Mac, true, now, drawn) && r2.store == r.store && r2.mem == r.mem
    requires r3 == Step(r2, env, Says(ws, Mac, true, now, drawn))
    ensures Ready(r3, mac, 0, n + 1, now) && r3.socks.att.Keys == r.socks.att.Keys + {ws}
    ensures var e := Says(ws, Mac, true, now, drawn);
            !PairsPhone(r2, env, e) && !Parks(r2, env, e) && !Wipes(r2, env, e)
  {
    GreetedInv(r.socks, ws, Mac, true, now, drawn);
    assert mac in r2.socks.live && Holds(r2.socks.att, mac, Mac) && mac != ws;
    assert HeldByOther(r2.socks, Mac, ws);
    Proves(r2, env, ws, Mac, true, now, drawn);
    CloseOneKeepsInv(r2.socks, ws);
  }

  lemma MacSits(r2: Room, r3: Room, env: Env, ws: int, now: int, drawn: string)
    requires !env.attestRequired
    requires r2.socks == Greeted(NEW_ROOM.socks, ws, Mac, false, now, drawn)
    requires r2.store == NEW_ROOM.store && r2.mem == NEW_ROOM.mem
    requires r3 == Step(r2, env, Says(ws, Mac, false, now, drawn))
    ensures Ready(r3, ws, 0, 1, now) && r3.socks.att.Keys == {ws}
  {
    GreetedInv(NEW_ROOM.socks, ws, Mac, false, now, drawn);
    Proves(r2, env, ws, Mac, false, now, drawn);
    TakeSlotKeepsInv(r2.socks, ws, Mac);
    SatIn(NEW_ROOM.socks, r2.socks, ws, Mac, false, now, drawn);
  }

  lemma GreetedInv(socks: Sockets, ws: int, role: Role, polite: bool, now: int, drawn: string)
    requires Inv(socks) && ws !in socks.att
    ensures Inv(Greeted(socks, ws, role, polite, now, drawn))
  {
    AppendDistinct(socks.live, ws);
  }

  /** Who is routable once a socket that was just challenged has its slot. */
  lemma SatIn(socks: Sockets, greeted: Sockets, ws: int, role: Role, polite: bool, now: int, drawn: string)
    requires AllIn(socks) && ws !in socks.att && greeted == Greeted(socks, ws, role, polite, now, drawn)
    ensures var sat := Judged(greeted, ws, TakeSlot(role));
            && AllIn(sat) && ws in sat.live && Holds(sat.att, ws, role)
            && sat.att.Keys == socks.att.Keys + {ws}
            && (forall s :: s in socks.live && Holds(socks.att, s, Other(role)) ==> s in sat.live && Holds(sat.att, s, Other(role)))
  {
  }

  // ------------------------------------------------------------ visits as runs

  lemma {:induction false} RanAppend(r: Room, env: Env, a: seq<Event>, b: seq<Event>)
    ensures Ran(r, env, a + b) == Ran(Ran(r, env, a), env, b)
    ensures LegalRun(r, env, a + b) <==> LegalRun(r, env, a) && LegalRun(Ran(r, env, a), env, b)
    ensures SamePark(r, env, a + b) <==> SamePark(r, env, a) && SamePark(Ran(r, env, a), env, b)
    ensures PhonesPaired(r, env, a + b) == PhonesPaired(r, env, a) + PhonesPaired(Ran(r, env, a), env, b)
    decreases |a|
  {
    if a == [] {
      assert a + b == b;
    } else {
      assert (a + b)[1..] == a[1..] + b;
      RanAppend(Step(r, env, a[0]), env, a[1..], b);
    }
  }

  lemma Alone(r: Room, env: Env, e: Event)
    requires Legal(r, e)
    ensures Ran(r, env, [e]) == Step(r, env, e) && LegalRun(r, env, [e])
    ensures !Parks(r, env, e) && !Wipes(r, env, e) ==> SamePark(r, env, [e])
    ensures PhonesPaired(r, env, [e]) == if PairsPhone(r, env, e) then 1 else 0
  {
    assert [e][1..] == [];
  }

  /** A connection and a hello neither pair, park nor wipe. */
  lemma QuietStart(r: Room, r1: Room, env: Env, ws: int, role: Role, polite: bool, now: int, drawn: string)
    requires r1 == Step(r, env, Connect(ws, now)) && ws in r1.socks.att && r1.socks.att[ws] == Hello(now)
    ensures var (e, f) := (Connect(ws, now), Says(ws, role, polite, now, drawn));
            && !PairsPhone(r, env, e) && !Parks(r, env, e) && !Wipes(r, env, e)
            && !PairsPhone(r1, env, f) && !Parks(r1, env, f) && !Wipes(r1, env, f)
  {
  }

  /** A stretch of a run from `r` to `r1`, with one mac parked and nothing wiped,
      in which `k` phones are paired. */
  ghost predicate Leg(r: Room, env: Env, es: seq<Event>, r1: Room, k: nat) {
    LegalRun(r, env, es) && SamePark(r, env, es) && Ran(r, env, es) == r1 && PhonesPaired(r, env, es) == k
  }

  lemma TwoLegs(r: Room, env: Env, a: seq<Event>, r1: Room, j: nat, b: seq<Event>, r2: Room, k: nat)
    requires Leg(r, env, a, r1, j) && Leg(r1, env, b, r2, k)
    ensures Leg(r, env, a + b, r2, j + k)
  {
    RanAppend(r, env, a, b);
  }

  lemma VisitRuns(r: Room, env: Env, ws: int, role: Role, polite: bool, now: int, drawn: string) returns (r2: Room, r3: Room)
    requires Inv(r.socks) && AllIn(r.socks) && ws !in r.socks.att
    ensures r2.socks == Greeted(r.socks, ws, role, polite, now, drawn) && r2.store == r.store && r2.mem == r.mem
    ensures r3 == Step(r2, env, Says(ws, role, polite, now, drawn))
    ensures var es := Visit(ws, role, polite, now, drawn);
            && Ran(r, env, es) == r3 && LegalRun(r, env, es)
            && (!Parks(r2, env, es[2]) && !Wipes(r2, env, es[2]) ==>
                  SamePark(r, env, es) && PhonesPaired(r, env, es) == if PairsPhone(r2, env, es[2]) then 1 else 0)
  {
    var es := Visit(ws, role, polite, now, drawn);
    var r1 := Step(r, env, es[0]);
    r2 := Step(r1, env, es[1]);
    r3 := Step(r2, env, es[2]);
    JoinIsAdded(r.socks, ws, now);
    Greets(r, env, ws, role, polite, now, drawn);
    QuietStart(r, r1, env, ws, role, polite, now, drawn);
    Alone(r, env, es[0]);
    Alone(r1, env, es[1]);
    Alone(r2, env, es[2]);
    assert es == [es[0]] + ([es[1]] + [es[2]]);
    RanAppend(r1, env, [es[1]], [es[2]]);
    RanAppend(r, env, [es[0]], [es[1]] + [es[2]]);
  }

  /** From a new room, a mac parks. */
  lemma MacVisits(env: Env, mac: int, now: int, drawn: string) returns (es: seq<Event>, r: Room)
    requires !env.attestRequired
    ensures LegalRun(NEW_ROOM, env, es) && Ran(NEW_ROOM, env, es) == r
    ensures Ready(r, mac, 0, 1, now) && r.socks.att.Keys == {mac}
  {
    var r2, r3 := VisitRuns(NEW_ROOM, env, mac, Mac, false, now, drawn);
    MacSits(r2, r3, env, mac, now, drawn);
    es, r := Visit(mac, Mac, false, now, drawn), r3;
  }

  lemma PhoneVisits(r: Room, env: Env, mac: int, c: nat, n: nat, ws: int, now: int, drawn: string)
    returns (es: seq<Event>, r1: Room)
    requires Ready(r, mac, c, n, now) && c < MAX_PAIRING_CYCLES && n < MAX_ADMISSION_ATTEMPTS && ws !in r.socks.att
    requires !env.attestRequired
    ensures Leg(r, env, es, r1, 1) && Ready(r1, mac, c + 1, n + 1, now) && r1.socks.att.Keys == r.socks.att.Keys + {ws}
    ensures ws in r1.socks.live && Holds(r1.socks.att, ws, Phone)
  {
    var r2, r3 := VisitRuns(r, env, ws, Phone, false, now, drawn);
    PhoneSits(r, r2, r3, env, mac, c, n, ws, now, drawn);
    es, r1 := Visit(ws, Phone, false, now, drawn), r3;
  }

  /** A second mac asks to yield, is refused, and resets the budget. */
  lemma PoliteMacVisits(r: Room, env: Env, mac: int, c: nat, n: nat, ws: int, now: int, drawn: string)
    returns (es: seq<Event>, r1: Room)
    requires Ready(r, mac, c, n, now) && c < MAX_PAIRING_CYCLES && n < MAX_ADMISSION_ATTEMPTS && ws !in r.socks.att
    requires !env.attestRequired
    ensures Leg(r, env, es, r1, 0) && Ready(r1, mac, 0, n + 1, now) && r1.socks.att.Keys == r.socks.att.Keys + {ws}
  {
    var r2, r3 := VisitRuns(r, env, ws, Mac, true, now, drawn);
    MacRefused(r, r2, r3, env, mac, c, n, ws, now, drawn);
    es, r1 := Visit(ws, Mac, true, now, drawn), r3;
  }

  // -------------------------------------------------- a phone without its mac

  /** Phone implies mac fails on a run from a new room, with any two sockets: a mac
      parks, a phone joins, and the mac's close frame is acknowledged. Until the
      mac's close event the phone is alone. */
  lemma PhoneOnlyHappens(env: Env, mac: int, phone: int, now: int, drawn: string) returns (es: seq<Event>)
    requires !env.attestRequired && mac != phone
    ensures LegalRun(NEW_ROOM, env, es) && !Paired(Ran(NEW_ROOM, env, es).socks)
  {
    var park, r := MacVisits(env, mac, now, drawn);
    var join, r1 := PhoneVisits(r, env, mac, 0, 1, phone, now, drawn);
    RanAppend(NEW_ROOM, env, park, join);
    MacLeaves(r1, env, mac, phone);
    es := park + join + [RemoteClose(mac)];
    EndsWith(NEW_ROOM, env, park + join, r1, RemoteClose(mac));
  }

  lemma EndsWith(r: Room, env: Env, es: seq<Event>, r1: Room, e: Event)
    requires LegalRun(r, env, es) && Ran(r, env, es) == r1 && Legal(r1, e)
    ensures LegalRun(r, env, es + [e]) && Ran(r, env, es + [e]) == Step(r1, env, e)
  {
    RanAppend(r, env, es, [e]);
    assert [e][1..] == [];
  }

  lemma MacLeaves(r: Room, env: Env, mac: int, phone: int)
    requires Inv(r.socks) && mac != phone && mac in r.socks.live && phone in r.socks.live
    requires Holds(r.socks.att, mac, Mac) && Holds(r.socks.att, phone, Phone)
    ensures !Paired(Step(r, env, RemoteClose(mac)).socks)
  {
    var s := Step(r, env, RemoteClose(mac)).socks;
    assert phone in s.live && Holds(s.att, phone, Phone);
    assert AtMostOne(r.socks, Mac);
    assert forall x :: x in s.live && Holds(s.att, x, Mac) ==> x == mac;
  }

  // ---------------------------------------------- more phones than the cap

  /** `k` phones, one after the other, on sockets `first`, `first + 1`, ... */
  lemma {:induction false} PhonesVisit(r: Room, env: Env, mac: int, c: nat, n: nat, first: int, k: nat, now: int,
                                       drawn: string) returns (es: seq<Event>, r1: Room)
    requires Ready(r, mac, c, n, now) && c + k <= MAX_PAIRING_CYCLES && n + k <= MAX_ADMISSION_ATTEMPTS
    requires !env.attestRequired && forall s :: s in r.socks.att.Keys ==> s < first
    ensures Leg(r, env, es, r1, k) && Ready(r1, mac, c + k, n + k, now)
    decreases k
  {
    if k == 0 {
      es, r1 := [], r;
    } else {
      var one, r2 := PhoneVisits(r, env, mac, c, n, first, now, drawn);
      var rest, r3 := PhonesVisit(r2, env, mac, c + 1, n + 1, first + 1, k - 1, now, drawn);
      TwoLegs(r, env, one, r2, 1, rest, r3, k - 1);
      es, r1 := one + rest, r3;
    }
  }

  /** The cap is not per park: on a run from a new room, with mac 0 parked once and
      for all and nothing wiped, one phone more than the cap is paired with it.
      After the first phone a second mac asks to yield and is refused. */
  lemma MoreThanTheCapPerPark(env: Env, now: int, drawn: string) returns (park: seq<Event>, es: seq<Event>)
    requires !env.attestRequired
    ensures LegalRun(NEW_ROOM, env, park) && Ready(Ran(NEW_ROOM, env, park), 0, 0, 1, now)
    ensures var r := Ran(NEW_ROOM, env, park);
            && LegalRun(r, env, es) && SamePark(r, env, es)
            && PhonesPaired(r, env, es) == 9
            && 0 in Ran(r, env, es).socks.live && Holds(Ran(r, env, es).socks.att, 0, Mac)
  {
    var r, r1: Room;
    park, r := MacVisits(env, 0, now, drawn);
    es, r1 := Grinds(r, env, now, drawn);
  }

  lemma Grinds(r: Room, env: Env, now: int, drawn: string) returns (es: seq<Event>, r3: Room)
    requires Ready(r, 0, 0, 1, now) && r.socks.att.Keys == {0}
    requires !env.attestRequired
    ensures Leg(r, env, es, r3, MAX_PAIRING_CYCLES + 1) && Ready(r3, 0, MAX_PAIRING_CYCLES, 3 + MAX_PAIRING_CYCLES, now)
  {
    var one, r1 := PhoneVisits(r, env, 0, 0, 1, 1, now, drawn);
    var more: seq<Event>;
    more, r3 := RefusedThenMore(r1, env, now, drawn);
    TwoLegs(r, env, one, r1, 1, more, r3, MAX_PAIRING_CYCLES);
    es := one + more;
  }

  lemma RefusedThenMore(r: Room, env: Env, now: int, drawn: string) returns (es: seq<Event>, r2: Room)
    requires Ready(r, 0, 1, 2, now) && r.socks.att.Keys == {0, 1}
    requires !env.attestRequired
    ensures Leg(r, env, es, r2, MAX_PAIRING_CYCLES) && Ready(r2, 0, MAX_PAIRING_CYCLES, 3 + MAX_PAIRING_CYCLES, now)
  {
    var refused, r1 := PoliteMacVisits(r, env, 0, 1, 2, 2, now, drawn);
    var rest: seq<Event>;
    rest, r2 := PhonesVisit(r1, env, 0, 0, 3, 3, MAX_PAIRING_CYCLES, now, drawn);
    TwoLegs(r, env, refused, r1, 0, rest, r2, MAX_PAIRING_CYCLES);
    es := refused + rest;
  }
}
