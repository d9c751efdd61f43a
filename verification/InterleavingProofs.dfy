/** The pairing budget when handlers interleave, and how the await-level model and
    the one-handler-at-a-time model fit together (src/room.js, handleProof and
    admit; host/storage.js:25-87). */
module InterleavingProofs {
  import opened Wrappers
  import opened Sequences
  import opened Canonical
  import opened RoomSockets
  import opened Limits
  import opened Rooms
  import opened Interleaving

  // ---------------------------------------------------- the pairing budget

  /** The handler read the budget and is about to charge it. */
  predicate ChargesNow(w: World, a: Action) {
    a.Resume? && PcOf(w, a.ws).Charging?
  }

  predicate ResetsNow(w: World, a: Action) {
    a.Resume? && PcOf(w, a.ws).Admitting? && PcOf(w, a.ws).role == Mac && !PcOf(w, a.ws).established
  }

  predicate Passes(w: World, a: Action) {
    ChargesNow(w, a) && PcOf(w, a.ws).cycles + 1 <= MAX_PAIRING_CYCLES
  }

  /** The count starts again: a mac's reset, a wipe, or the teardown of the cap. */
  predicate Restarts(w: World, a: Action) {
    a.Wipe? || ResetsNow(w, a) || (ChargesNow(w, a) && !Passes(w, a))
  }

  /** What every handler about to charge has read is still the count. */
  ghost predicate Current(w: World) {
    forall ws :: ws in w.pc && w.pc[ws].Charging? ==> w.pc[ws].cycles == w.cycles
  }

  /** Nothing but the pc of `ws` has changed. */
  ghost predicate OnlyPcOf(w: World, d: World, ws: int) {
    forall s :: s in d.pc && s != ws ==> s in w.pc && d.pc[s] == w.pc[s]
  }

  lemma SlotPc(w: World, ws: int, role: Role, nonDisplacing: bool, via: Option<string>)
    ensures OnlyPcOf(w, Slot(w, ws, role, nonDisplacing, via), ws)
  {
  }

  lemma ResumedPc(w: World, attestRequired: bool, ws: int, now: int, ok: bool)
    ensures OnlyPcOf(w, Resumed(w, attestRequired, ws, now, ok), ws)
  {
    match PcOf(w, ws)
    case Admitting(role, nonDisplacing, established, via) =>
      if established {
        SlotPc(w, ws, role, nonDisplacing, if role == Phone then via else None);
      }
    case BudgetReset(nonDisplacing) => SlotPc(w, ws, Mac, nonDisplacing, None);
    case Charged(nonDisplacing, via) => SlotPc(w, ws, Phone, nonDisplacing, via);
    case _ =>
  }

  lemma OthersKeepTheirPc(w: World, attestRequired: bool, a: Action)
    ensures var d := Do(w, attestRequired, a);
            if a.Resume? || a.Deliver? || a.Accept? then OnlyPcOf(w, d, a.ws) else d.pc == w.pc
  {
    if a.Resume? {
      ResumedPc(w, attestRequired, a.ws, a.now, a.ok);
    }
  }

  /** A charge writes what its handler read and one; nothing else but a restart
      writes the count. */
  lemma CountAfter(w: World, attestRequired: bool, a: Action)
    requires !Restarts(w, a)
    ensures Do(w, attestRequired, a).cycles == if ChargesNow(w, a) then PcOf(w, a.ws).cycles + 1 else w.cycles
  {
  }

  /** Whoever comes to the charge has just read the count. */
  lemma OwnChargeIsCurrent(w: World, attestRequired: bool, a: Action)
    requires a.Resume? || a.Deliver? || a.Accept?
    ensures var d := Do(w, attestRequired, a);
            PcOf(d, a.ws).Charging? && PcOf(d, a.ws) != PcOf(w, a.ws) ==> PcOf(d, a.ws).cycles == d.cycles
    ensures ChargesNow(w, a) ==> !PcOf(Do(w, attestRequired, a), a.ws).Charging?
  {
  }

  ghost predicate NoRestart(w: World, attestRequired: bool, actions: seq<Action>)
    decreases |actions|
  {
    actions == []
    || (!Restarts(w, actions[0]) && NoRestart(Do(w, attestRequired, actions[0]), attestRequired, actions[1..]))
  }

  ghost function Charges(w: World, attestRequired: bool, actions: seq<Action>): nat
    decreases |actions|
  {
    if actions == [] then 0
    else
      (if Passes(w, actions[0]) then 1 else 0)
      + Charges(Do(w, attestRequired, actions[0]), attestRequired, actions[1..])
  }

  /** The handlers that have read the count and are about to charge it. */
  function Readers(w: World): set<int> {
    set ws | ws in w.pc && w.pc[ws].Charging?
  }

  /** The handlers that some charge has overtaken: it passed after they read the
      count, and they are still to charge. */
  ghost function Overtaken(w: World, attestRequired: bool, a: Action, late: set<int>): set<int> {
    (if ChargesNow(w, a) then late + Readers(w) else late) * Readers(Do(w, attestRequired, a))
  }

  /** No charge passes between another handler's read and its own charge. */
  ghost predicate NoLateCharge(w: World, attestRequired: bool, actions: seq<Action>, late: set<int>)
    decreases |actions|
  {
    actions == []
    || (&& !(ChargesNow(w, actions[0]) && actions[0].ws in late)
        && NoLateCharge(Do(w, attestRequired, actions[0]), attestRequired, actions[1..], Overtaken(w, attestRequired, actions[0], late)))
  }

  /** In every state the count is `c` and the charges passed so far. */
  ghost predicate AlwaysCounted(w: World, attestRequired: bool, actions: seq<Action>, c: nat)
    decreases |actions|
  {
    && w.cycles == c
    && (actions == []
        || AlwaysCounted(Do(w, attestRequired, actions[0]), attestRequired, actions[1..],
                         c + if Passes(w, actions[0]) then 1 else 0))
  }

  /** The overtaken handlers are those whose read is behind the count. */
  ghost predicate Behind(w: World, late: set<int>) {
    && late <= Readers(w)
    && forall ws :: ws in w.pc && w.pc[ws].Charging? ==>
         if ws in late then w.pc[ws].cycles < w.cycles else w.pc[ws].cycles == w.cycles
  }

  lemma StepKeepsBehind(w: World, attestRequired: bool, a: Action, late: set<int>)
    requires Behind(w, late) && !Restarts(w, a) && !(ChargesNow(w, a) && a.ws in late)
    ensures Behind(Do(w, attestRequired, a), Overtaken(w, attestRequired, a, late))
  {
    OthersKeepTheirPc(w, attestRequired, a);
    CountAfter(w, attestRequired, a);
    if a.Resume? || a.Deliver? || a.Accept? {
      OwnChargeIsCurrent(w, attestRequired, a);
    }
  }

  lemma {:induction false} CountedExactly(w: World, attestRequired: bool, actions: seq<Action>, late: set<int>)
    requires Behind(w, late) && NoRestart(w, attestRequired, actions)
    ensures AlwaysCounted(w, attestRequired, actions, w.cycles) <==> NoLateCharge(w, attestRequired, actions, late)
    decreases |actions|
  {
    if actions != [] {
      var a := actions[0];
      CountAfter(w, attestRequired, a);
      if !(ChargesNow(w, a) && a.ws in late) {
        StepKeepsBehind(w, attestRequired, a, late);
        CountedExactly(Do(w, attestRequired, a), attestRequired, actions[1..], Overtaken(w, attestRequired, a, late));
      }
    }
  }

  lemma {:induction false} CountAtTheEnd(w: World, attestRequired: bool, actions: seq<Action>, c: nat)
    requires NoRestart(w, attestRequired, actions) && AlwaysCounted(w, attestRequired, actions, c) && c <= MAX_PAIRING_CYCLES
    ensures Ran(w, attestRequired, actions).cycles == c + Charges(w, attestRequired, actions) <= MAX_PAIRING_CYCLES
    decreases |actions|
  {
    if actions != [] {
      var a := actions[0];
      CountAfter(w, attestRequired, a);
      CountAtTheEnd(Do(w, attestRequired, a), attestRequired, actions[1..], c + if Passes(w, a) then 1 else 0);
    }
  }

  /** In every interleaving in which the count does not start again, the count is
      that of the charges passed, in every state, exactly when no charge passes
      between another handler's read and its own charge; and then at most eight pass. */
  lemma ChargesAreCounted(w: World, attestRequired: bool, actions: seq<Action>)
    requires Current(w) && w.cycles <= MAX_PAIRING_CYCLES && NoRestart(w, attestRequired, actions)
    ensures AlwaysCounted(w, attestRequired, actions, w.cycles) <==> NoLateCharge(w, attestRequired, actions, {})
    ensures NoLateCharge(w, attestRequired, actions, {}) ==>
              Ran(w, attestRequired, actions).cycles == w.cycles + Charges(w, attestRequired, actions) <= 8
  {
    CountedExactly(w, attestRequired, actions, {});
    if NoLateCharge(w, attestRequired, actions, {}) {
      CountAtTheEnd(w, attestRequired, actions, w.cycles);
    }
  }

  // ------------------------------------------------------- a charge is lost

  /** A stretch of a run of an open room in which the count does not start again
      and `k` charges pass. */
  ghost predicate Leg(w: World, actions: seq<Action>, w1: World, k: nat) {
    Ran(w, false, actions) == w1 && NoRestart(w, false, actions) && Charges(w, false, actions) == k
  }

  lemma {:induction false} RunsAppend(w: World, attestRequired: bool, a: seq<Action>, b: seq<Action>)
    ensures Ran(w, attestRequired, a + b) == Ran(Ran(w, attestRequired, a), attestRequired, b)
    ensures NoRestart(w, attestRequired, a + b)
            <==> NoRestart(w, attestRequired, a) && NoRestart(Ran(w, attestRequired, a), attestRequired, b)
    ensures Charges(w, attestRequired, a + b)
            == Charges(w, attestRequired, a) + Charges(Ran(w, attestRequired, a), attestRequired, b)
    decreases |a|
  {
    RanAppend(w, attestRequired, a, b);
    if a == [] {
      assert a + b == b;
    } else {
      assert (a + b)[1..] == a[1..] + b;
      RunsAppend(Do(w, attestRequired, a[0]), attestRequired, a[1..], b);
    }
  }

  lemma OneMore(w: World, actions: seq<Action>, w1: World, k: nat, a: Action, w2: World)
    requires Leg(w, actions, w1, k) && !Restarts(w1, a) && w2 == Do(w1, false, a)
    ensures Leg(w, actions + [a], w2, k + if Passes(w1, a) then 1 else 0)
  {
    RunsAppend(w, false, actions, [a]);
    assert [a][1..] == [];
  }

  lemma TwoLegs(w: World, a: seq<Action>, w1: World, j: nat, b: seq<Action>, w2: World, k: nat)
    requires Leg(w, a, w1, j) && Leg(w1, b, w2, k)
    ensures Leg(w, a + b, w2, j + k)
  {
    RunsAppend(w, false, a, b);
  }

  function HelloAs(role: Role): Json {
    Object(Some(1), Some(role), false, None, None)
  }

  /** A socket connects, says hello and sends its proof; the handler has asked for
      the verifier twice and is about to enter admit() proper. */
  lemma Enters(w: World, ws: int, role: Role, now: int, drawn: string) returns (actions: seq<Action>, w1: World)
    requires ws !in w.socks.att && w.verifier == None
    ensures Leg(w, actions, w1, 0)
    ensures w1.socks == Sockets(w.socks.live + [ws], w.socks.closing, w.socks.att[ws := Challenged(role, drawn, false, now)])
    ensures w1.pc == w.pc[ws := Admitting(role, false, false, None)]
    ensures w1.verifier == None && w1.cycles == w.cycles
  {
    var greet, w0 := Greets(w, ws, role, now, drawn);
    var hello, e := Deliver(ws, HelloAs(role), drawn, false), Resume(ws, now, true);
    var a3 := Do(w0, false, hello);
    assert a3.pc == w0.pc[ws := ReadVerifier(role, false, None, false)] && a3.socks == w0.socks;
    OneMore(w, greet, w0, 0, hello, a3);
    w1 := Do(a3, false, e);
    assert w1.pc == a3.pc[ws := Admitting(role, false, false, None)] && w1.socks == a3.socks;
    OneMore(w, greet + [hello], a3, 0, e, w1);
    actions := greet + [hello] + [e];
    PcOverwritten(w.pc, ws, Idle, ReadVerifier(role, false, None, false), Admitting(role, false, false, None));
  }

  lemma PcOverwritten(pc: map<int, Pc>, ws: int, a: Pc, b: Pc, c: Pc)
    ensures pc[ws := a][ws := b][ws := c] == pc[ws := c]
  {
  }

  lemma Greets(w: World, ws: int, role: Role, now: int, drawn: string) returns (actions: seq<Action>, w1: World)
    requires ws !in w.socks.att
    ensures Leg(w, actions, w1, 0)
    ensures w1.socks == Sockets(w.socks.live + [ws], w.socks.closing, w.socks.att[ws := Challenged(role, drawn, false, now)])
    ensures w1.pc == w.pc[ws := Idle] && w1.verifier == w.verifier && w1.cycles == w.cycles
  {
    var connect, hello := Accept(ws, now), Deliver(ws, HelloAs(role), drawn, false);
    var a1 := Do(w, false, connect);
    assert a1.socks == Added(w.socks, ws, now) && PcOf(a1, ws) == Idle;
    OneMore(w, [], w, 0, connect, a1);
    w1 := Do(a1, false, hello);
    assert w1.socks.att == a1.socks.att[ws := Challenged(role, drawn, false, now)] && w1.pc == a1.pc;
    OneMore(w, [] + [connect], a1, 0, hello, w1);
    actions := [] + [connect] + [hello];
  }

  /** A phone reads the count and waits. */
  lemma PhoneReads(w: World, mac: int, ws: int, now: int, drawn: string) returns (actions: seq<Action>, w1: World)
    requires ws !in w.socks.att && w.verifier == None && mac in w.socks.live && Holds(w.socks.att, mac, Mac)
    ensures Leg(w, actions, w1, 0)
    ensures w1.socks == Sockets(w.socks.live + [ws], w.socks.closing, w.socks.att[ws := Challenged(Phone, drawn, false, now)])
    ensures w1.pc == w.pc[ws := Charging(w.cycles, false, None)]
    ensures w1.verifier == None && w1.cycles == w.cycles
  {
    var es, w0 := Enters(w, ws, Phone, now, drawn);
    assert mac in w0.socks.live && mac != ws && Holds(w0.socks.att, mac, Mac);
    var e := Resume(ws, now, true);
    w1 := Do(w0, false, e);
    OneMore(w, es, w0, 0, e, w1);
    actions := es + [e];
  }

  /** The only socket there is takes its slot and closes nobody. */
  lemma AloneInSlot(ws: int, att: Att)
    requires att.Challenged?
    ensures [] + [ws] == [ws]
    ensures Judged(Sockets([ws], {}, map[][ws := att]), ws, TakeSlot(att.role))
            == Sockets([ws], {}, map[ws := Admitted(att.role, att.connectedAt)])
  {
    var socks := Sockets([ws], {}, map[][ws := att]);
    assert [ws][1..] == [];
    assert Filter([ws], Spares(socks.att, att.role, ws)) == [ws];
  }

  lemma MacParks(mac: int, now: int, drawn: string) returns (actions: seq<Action>, w: World)
    ensures Ran(START, false, actions) == w
    ensures w.socks == Sockets([mac], {}, map[mac := Admitted(Mac, now)]) && w.pc == map[mac := Idle]
    ensures w.verifier == None && w.cycles == 0
  {
    var es, w0 := Enters(START, mac, Mac, now, drawn);
    var e := Resume(mac, now, true);
    var w1 := Do(w0, false, e);
    assert w1.pc == w0.pc[mac := BudgetReset(false)] && w1.socks == w0.socks;
    w := Do(w1, false, e);
    AloneInSlot(mac, Challenged(Mac, drawn, false, now));
    actions := es + [e] + [e];
    RunsAppend(START, false, es + [e], [e]);
    RunsAppend(START, false, es, [e]);
    assert [e][1..] == [];
  }

  /** Two phones that read the same count charge it once between them, and both
      take the slot, one after the other. */
  lemma BothSit(w: World, a: int, b: int, c: nat, now: int) returns (actions: seq<Action>, w1: World)
    requires a != b && a in w.socks.att && b in w.socks.att && w.socks.att[a].Challenged? && w.socks.att[b].Challenged?
    requires a in w.pc && b in w.pc && w.pc[a] == w.pc[b] == Charging(c, false, None) && c < MAX_PAIRING_CYCLES
    ensures Leg(w, actions, w1, 2) && w1.cycles == c + 1
    ensures Holds(w1.socks.att, a, Phone) && Holds(w1.socks.att, b, Phone)
  {
    var ea, eb := Resume(a, now, true), Resume(b, now, true);
    var d1 := Do(w, false, ea);
    assert d1.pc == w.pc[a := Charged(false, None)] && d1.cycles == c + 1 && d1.socks == w.socks;
    OneMore(w, [], w, 0, ea, d1);
    var d2 := Do(d1, false, eb);
    assert d2.pc == d1.pc[b := Charged(false, None)] && d2.cycles == c + 1 && d2.socks == w.socks;
    OneMore(w, [] + [ea], d1, 1, eb, d2);
    var d3 := Do(d2, false, ea);
    assert PcOf(d3, b) == Charged(false, None) && Holds(d3.socks.att, a, Phone) && d3.cycles == c + 1;
    OneMore(w, [] + [ea] + [eb], d2, 2, ea, d3);
    w1 := Do(d3, false, eb);
    OneMore(w, [] + [ea] + [eb] + [ea], d3, 2, eb, w1);
    actions := [] + [ea] + [eb] + [ea] + [eb];
  }

  /** A charge is lost on a run from the start: a mac parks, and then, without the
      count starting again, two charges pass and two phones take the slot, yet the
      count is one. */
  lemma LostCharge(now: int, drawn: string) returns (park: seq<Action>, actions: seq<Action>)
    ensures var w := Ran(START, false, park);
            var w1 := Ran(w, false, actions);
            && w.cycles == 0 && Held(w.socks, Mac)
            && NoRestart(w, false, actions) && Charges(w, false, actions) == 2 && w1.cycles == 1
            && Holds(w1.socks.att, 1, Phone) && Holds(w1.socks.att, 2, Phone)
  {
    var w: World;
    park, w := MacParks(0, now, drawn);
    assert 0 in w.socks.live && Holds(w.socks.att, 0, Mac);
    var first, w1 := PhoneReads(w, 0, 1, now, drawn);
    assert 0 in w1.socks.live && Holds(w1.socks.att, 0, Mac);
    var second, w2 := PhoneReads(w1, 0, 2, now, drawn);
    var sit, w3 := BothSit(w2, 1, 2, 0, now);
    TwoLegs(w1, second, w2, 0, sit, w3, 2);
    TwoLegs(w, first, w1, 0, second + sit, w3, 2);
    actions := first + (second + sit);
  }

  // ------------------------------------- a handler that is not interrupted

  /** The handler of `ws` goes on `n` times, and nothing else happens. */
  ghost function Uninterrupted(w: World, attestRequired: bool, ws: int, now: int, ok: bool, n: nat): World
    decreases n
  {
    if n == 0 then w
    else Uninterrupted(Resumed(w, attestRequired, ws, now, ok), attestRequired, ws, now, ok, n - 1)
  }

  function Times(tickets: map<string, Ticket>): map<string, int> {
    map t | t in tickets :: tickets[t].expiresAt
  }

  /** The await-level world shows these sockets and these rows. */
  predicate Shows(w: World, socks: Sockets, store: Store) {
    && w.socks == socks && w.verifier == store.verifier && w.cycles == store.cycles
    && w.tickets == Times(store.tickets)
  }

  lemma {:induction false} IdleStays(w: World, attestRequired: bool, ws: int, now: int, ok: bool, n: nat)
    requires PcOf(w, ws).Idle?
    ensures Uninterrupted(w, attestRequired, ws, now, ok, n) == w
    decreases n
  {
    if n > 0 {
      IdleStays(w, attestRequired, ws, now, ok, n - 1);
    }
  }

  /** What the handler does when it is done: the outcome, shown by the world. */
  ghost predicate Ends(w: World, attestRequired: bool, ws: int, now: int, ok: bool, n: nat, socks: Sockets, o: Outcome) {
    var w1 := Uninterrupted(w, attestRequired, ws, now, ok, n);
    PcOf(w1, ws).Idle? && Shows(w1, Judged(socks, ws, o.verdict), o.store)
  }

  lemma SlotEnds(w: World, attestRequired: bool, ws: int, now: int, ok: bool, n: nat, att: Att, via: Option<string>,
                 store: Store, mem: Memory, key: Option<Attested>, token: string)
    requires n >= 1 && att.Challenged? && ws in w.socks.att && Shows(w, w.socks, store)
    ensures Ends(Slot(w, ws, att.role, att.nonDisplacing, via), attestRequired, ws, now, ok, n, w.socks,
                 Seat(w.socks, store, mem, ws, att, key, now, token))
  {
    var d := Slot(w, ws, att.role, att.nonDisplacing, via);
    if PcOf(d, ws).Finishing? {
      var d1 := Resumed(d, attestRequired, ws, now, ok);
      IdleStays(d1, attestRequired, ws, now, ok, n - 1);
    } else {
      IdleStays(d, attestRequired, ws, now, ok, n);
    }
  }

  lemma MacEnds(w: World, attestRequired: bool, ws: int, now: int, ok: bool, n: nat, att: Att, via: Option<string>,
                store: Store, mem: Memory, key: Option<Attested>, token: string)
    requires n >= 3 && att.Challenged? && att.role == Mac && ws in w.socks.att && Shows(w, w.socks, store)
    requires PcOf(w, ws) == Admitting(Mac, att.nonDisplacing, Established(store), via)
    ensures Ends(w, attestRequired, ws, now, ok, n, w.socks, Admit(w.socks, store, mem, ws, att, key, now, token))
  {
    var d := Resumed(w, attestRequired, ws, now, ok);
    if Established(store) {
      SlotEnds(w, attestRequired, ws, now, ok, n - 1, att, None, store, mem, key, token);
    } else {
      var s1 := store.(cycles := 0);
      assert Shows(d, w.socks, s1) && PcOf(d, ws) == BudgetReset(att.nonDisplacing);
      SlotEnds(d, attestRequired, ws, now, ok, n - 2, att, None, s1, mem, key, token);
    }
  }

  /** A phone that has read the budget. */
  lemma ChargeEnds(w: World, attestRequired: bool, ws: int, now: int, ok: bool, n: nat, att: Att, via: Option<string>,
                   store: Store, mem: Memory, key: Option<Attested>, token: string)
    requires n >= 3 && att.Challenged? && att.role == Phone && ws in w.socks.att && Shows(w, w.socks, store)
    requires PcOf(w, ws) == Charging(store.cycles, att.nonDisplacing, via)
    ensures Ends(w, attestRequired, ws, now, ok, n, w.socks,
                 if store.cycles + 1 > MAX_PAIRING_CYCLES then Outcome(CloseAll, EMPTY, mem)
                 else Seat(w.socks, store.(cycles := store.cycles + 1), mem, ws, att, key, now, token))
  {
    var d := Resumed(w, attestRequired, ws, now, ok);
    if store.cycles + 1 > MAX_PAIRING_CYCLES {
      CapEnds(d, attestRequired, ws, now, ok, n - 1, w.socks, mem);
    } else {
      var s1 := store.(cycles := store.cycles + 1);
      assert PcOf(d, ws) == Charged(att.nonDisplacing, via) && Shows(d, w.socks, s1);
      SlotEnds(d, attestRequired, ws, now, ok, n - 2, att, via, s1, mem, key, token);
    }
  }

  lemma CapEnds(w: World, attestRequired: bool, ws: int, now: int, ok: bool, n: nat, socks: Sockets, mem: Memory)
    requires n >= 1 && PcOf(w, ws).Finishing? && w.socks == socks.(live := [])
    requires w.verifier == None && w.cycles == 0 && w.tickets == map[]
    ensures Ends(w, attestRequired, ws, now, ok, n, socks, Outcome(CloseAll, EMPTY, mem))
  {
    var d := Resumed(w, attestRequired, ws, now, ok);
    IdleStays(d, attestRequired, ws, now, ok, n - 1);
    assert Times(EMPTY.tickets) == map[];
  }

  /** One stretch of the handler, and then the rest of it. */
  lemma EndsLater(w: World, d: World, attestRequired: bool, ws: int, now: int, ok: bool, n: nat, socks: Sockets, o: Outcome)
    requires n >= 1 && d == Resumed(w, attestRequired, ws, now, ok)
    requires Ends(d, attestRequired, ws, now, ok, n - 1, socks, o)
    ensures Ends(w, attestRequired, ws, now, ok, n, socks, o)
  {
  }

  lemma RejectEnds(w: World, attestRequired: bool, ws: int, now: int, ok: bool, n: nat, store: Store, mem: Memory)
    requires Shows(w, w.socks, store)
    ensures Ends(Reject(w, ws), attestRequired, ws, now, ok, n, w.socks, Outcome(Drop, store, mem))
  {
    IdleStays(Reject(w, ws), attestRequired, ws, now, ok, n);
  }

  lemma SignedPhoneEnds(w: World, attestRequired: bool, ws: int, now: int, ok: bool, n: nat, att: Att, via: Option<string>,
                  store: Store, mem: Memory, key: Option<Attested>, token: string)
    requires n >= 4 && att.Challenged? && att.role == Phone && ws in w.socks.att && Shows(w, w.socks, store)
    requires PcOf(w, ws) == Admitting(Phone, att.nonDisplacing, Established(store), via)
    requires HeldByOther(w.socks, Mac, ws) && Established(store)
    ensures Ends(w, attestRequired, ws, now, ok, n, w.socks, Admit(w.socks, store, mem, ws, att, key, now, token))
  {
    var d := Slot(w, ws, Phone, att.nonDisplacing, via);
    SlotEnds(w, attestRequired, ws, now, ok, n - 1, att, via, store, mem, key, token);
    EndsLater(w, d, attestRequired, ws, now, ok, n, w.socks, Seat(w.socks, store, mem, ws, att, key, now, token));
  }

  lemma PairingPhoneEnds(w: World, attestRequired: bool, ws: int, now: int, ok: bool, n: nat, att: Att, via: Option<string>,
                  store: Store, mem: Memory, key: Option<Attested>, token: string)
    requires n >= 4 && att.Challenged? && att.role == Phone && ws in w.socks.att && Shows(w, w.socks, store)
    requires PcOf(w, ws) == Admitting(Phone, att.nonDisplacing, Established(store), via)
    requires HeldByOther(w.socks, Mac, ws) && !Established(store)
    ensures Ends(w, attestRequired, ws, now, ok, n, w.socks, Admit(w.socks, store, mem, ws, att, key, now, token))
  {
    var d := At(w, ws, Charging(w.cycles, att.nonDisplacing, via));
    ChargeEnds(d, attestRequired, ws, now, ok, n - 1, att, via, store, mem, key, token);
    EndsLater(w, d, attestRequired, ws, now, ok, n, w.socks,
              if store.cycles + 1 > MAX_PAIRING_CYCLES then Outcome(CloseAll, EMPTY, mem)
              else Seat(w.socks, store.(cycles := store.cycles + 1), mem, ws, att, key, now, token));
  }

  lemma PhoneEnds(w: World, attestRequired: bool, ws: int, now: int, ok: bool, n: nat, att: Att, via: Option<string>,
                  store: Store, mem: Memory, key: Option<Attested>, token: string)
    requires n >= 4 && att.Challenged? && att.role == Phone && ws in w.socks.att && Shows(w, w.socks, store)
    requires PcOf(w, ws) == Admitting(Phone, att.nonDisplacing, Established(store), via)
    ensures Ends(w, attestRequired, ws, now, ok, n, w.socks, Admit(w.socks, store, mem, ws, att, key, now, token))
  {
    if !HeldByOther(w.socks, Mac, ws) {
      RejectEnds(w, attestRequired, ws, now, ok, n - 1, store, mem);
      EndsLater(w, Reject(w, ws), attestRequired, ws, now, ok, n, w.socks, Outcome(Drop, store, mem));
    } else if Established(store) {
      SignedPhoneEnds(w, attestRequired, ws, now, ok, n, att, via, store, mem, key, token);
    } else {
      PairingPhoneEnds(w, attestRequired, ws, now, ok, n, att, via, store, mem, key, token);
    }
  }

  lemma AdmitEnds(w: World, attestRequired: bool, ws: int, now: int, ok: bool, n: nat, att: Att, via: Option<string>,
                  store: Store, mem: Memory, key: Option<Attested>, token: string)
    requires n >= 4 && ws in w.socks.att && w.socks.att[ws] == att && att.Challenged? && Shows(w, w.socks, store)
    ensures Ends(StartAdmit(w, ws, att.role, via), attestRequired, ws, now, ok, n, w.socks,
                 Admit(w.socks, store, mem, ws, att, key, now, token))
  {
    var d := StartAdmit(w, ws, att.role, via);
    if att.role == Mac {
      MacEnds(d, attestRequired, ws, now, ok, n, att, via, store, mem, key, token);
    } else {
      PhoneEnds(d, attestRequired, ws, now, ok, n, att, via, store, mem, key, token);
    }
  }

  /** What the foreign call of a handler answers: whether the signature is good. */
  predicate Verdict(r: Room, env: Env, att: Att, json: Json)
    requires att.Challenged?
  {
    && Established(r.store) && json.Object? && json.sig.Some?
    && env.verify(json.sig.value, JoinTranscript(att.role, env.b64(att.nonce), env.room, env.origin),
                  r.store.verifier.value)
  }

  lemma SignedEnds(w: World, r: Room, m1: Memory, env: Env, ws: int, json: Json, now: int, token: string, n: nat)
    requires n >= 7 && Shows(w, r.socks, r.store) && Established(r.store) && json.Object?
    requires ws in r.socks.att && r.socks.att[ws].Challenged?
    requires PcOf(w, ws) == ReadVerifier(r.socks.att[ws].role, json.sig.Some?, json.ticket, true)
    ensures var att := r.socks.att[ws];
            var o := match CheckSigned(r.store, m1, env, att, json.sig, now)
                     case Refused(store, mem) => Outcome(Drop, store, mem)
                     case Cleared(store, mem, key) => Admit(r.socks, store, mem, ws, att, key, now, token);
            Ends(w, env.attestRequired, ws, now, Verdict(r, env, att, json), n, r.socks, o)
  {
    var att, ok := r.socks.att[ws], Verdict(r, env, r.socks.att[ws], json);
    var d := Resumed(w, env.attestRequired, ws, now, ok);
    if json.sig.None? {
      IdleStays(d, env.attestRequired, ws, now, ok, n - 1);
    } else {
      SignedVerdict(d, r, m1, env, ws, json, now, token, n - 1);
    }
  }

  lemma SignedVerdict(w: World, r: Room, m1: Memory, env: Env, ws: int, json: Json, now: int, token: string, n: nat)
    requires n >= 6 && Shows(w, r.socks, r.store) && Established(r.store) && json.Object? && json.sig.Some?
    requires ws in r.socks.att && r.socks.att[ws].Challenged?
    requires PcOf(w, ws) == Verifying(r.socks.att[ws].role, Verdict(r, env, r.socks.att[ws], json))
    ensures var att := r.socks.att[ws];
            var o := match CheckSigned(r.store, m1, env, att, json.sig, now)
                     case Refused(store, mem) => Outcome(Drop, store, mem)
                     case Cleared(store, mem, key) => Admit(r.socks, store, mem, ws, att, key, now, token);
            Ends(w, env.attestRequired, ws, now, Verdict(r, env, att, json), n, r.socks, o)
  {
    var att, ok := r.socks.att[ws], Verdict(r, env, r.socks.att[ws], json);
    var d := Resumed(w, env.attestRequired, ws, now, ok);
    if !ok {
      IdleStays(d, env.attestRequired, ws, now, ok, n - 1);
    } else {
      var s1 := r.store.(lastActivity := Some(now));
      assert PcOf(d, ws) == Bumping(att.role) && Shows(d, r.socks, s1);
      AdmitEnds(d, env.attestRequired, ws, now, ok, n - 2, att, None, s1, m1, None, token);
    }
  }

  lemma TicketEnds(w: World, r: Room, m1: Memory, env: Env, ws: int, json: Json, now: int, ok: bool, token: string, n: nat)
    requires n >= 7 && Shows(w, r.socks, r.store) && !Established(r.store) && env.attestRequired && json.Object?
    requires ws in r.socks.att && r.socks.att[ws].Challenged? && r.socks.att[ws].role == Phone
    requires PcOf(w, ws) == ReadVerifier(Phone, json.sig.Some?, json.ticket, false)
    ensures var att := r.socks.att[ws];
            var o := match CheckTicket(r.store, m1, json.ticket, now)
                     case Refused(store, mem) => Outcome(Drop, store, mem)
                     case Cleared(store, mem, key) => Admit(r.socks, store, mem, ws, att, key, now, token);
            Ends(w, true, ws, now, ok, n, r.socks, o)
  {
    var d := Resumed(w, true, ws, now, ok);
    if json.ticket.None? {
      IdleStays(d, true, ws, now, ok, n - 1);
    } else {
      DeleteEnds(d, r, m1, ws, json.ticket.value, now, ok, token, n - 1);
    }
  }

  /** The ticket was looked up; nobody else gets at it before the delete. */
  lemma DeleteEnds(w: World, r: Room, m1: Memory, ws: int, t: string, now: int, ok: bool, token: string, n: nat)
    requires n >= 6 && Shows(w, r.socks, r.store)
    requires ws in r.socks.att && r.socks.att[ws].Challenged? && r.socks.att[ws].role == Phone
    requires PcOf(w, ws) == ReadTicket(t, if t in w.tickets then Some(w.tickets[t]) else None)
    ensures var att := r.socks.att[ws];
            var o := match CheckTicket(r.store, m1, Some(t), now)
                     case Refused(store, mem) => Outcome(Drop, store, mem)
                     case Cleared(store, mem, key) => Admit(r.socks, store, mem, ws, att, key, now, token);
            Ends(w, true, ws, now, ok, n, r.socks, o)
  {
    var d := Resumed(w, true, ws, now, ok);
    if t !in w.tickets || w.tickets[t] < now {
      IdleStays(d, true, ws, now, ok, n - 1);
    } else {
      var s1 := r.store.(tickets := r.store.tickets - {t});
      assert PcOf(d, ws) == DeletedTicket(t, true);
      assert Times(s1.tickets) == Times(r.store.tickets) - {t};
      AdmitEnds(d, true, ws, now, ok, n - 2, r.socks.att[ws], Some(t), s1, m1, Some(r.store.tickets[t].key), token);
    }
  }

  /** A proof whose handler is not interrupted does to the sockets and to the rows
      of verifier, budget and tickets what the one-handler-at-a-time model says. */
  lemma UninterruptedProof(w: World, r: Room, env: Env, ws: int, json: Json, now: int, drawn: string)
    requires Shows(w, r.socks, r.store) && PcOf(w, ws).Idle?
    requires ws in r.socks.att && r.socks.att[ws].Challenged?
    ensures var att := r.socks.att[ws];
            var limited := Bumped(r.mem.admission, now, ADMISSION_WINDOW_MS).count > MAX_ADMISSION_ATTEMPTS;
            var w1 := Do(w, env.attestRequired, Deliver(ws, json, drawn, limited));
            Ends(w1, env.attestRequired, ws, now, Verdict(r, env, att, json), 8, r.socks,
                 OnProof(r, env, ws, att, json, now, drawn))
  {
    var att, ok := r.socks.att[ws], Verdict(r, env, r.socks.att[ws], json);
    var m1 := r.mem.(admission := Bumped(r.mem.admission, now, ADMISSION_WINDOW_MS));
    var limited := m1.admission.count > MAX_ADMISSION_ATTEMPTS;
    var w1 := Do(w, env.attestRequired, Deliver(ws, json, drawn, limited));
    if limited || json.NotJson? {
      IdleStays(w1, env.attestRequired, ws, now, ok, 8);
    } else if Established(r.store) {
      SignedEnds(w1, r, m1, env, ws, json, now, drawn, 8);
    } else if env.attestRequired && att.role == Phone {
      TicketEnds(w1, r, m1, env, ws, json, now, ok, drawn, 8);
    } else {
      assert Resumed(w1, env.attestRequired, ws, now, ok) == StartAdmit(w1, ws, att.role, None);
      AdmitEnds(w1, env.attestRequired, ws, now, ok, 7, att, None, r.store, m1, None, drawn);
    }
  }
}
