/** Admission with every await a point where anything else may run (src/room.js,
    handleProof and admit; host/runtime.js, _dispatch; host/storage.js). A storage
    call acts at once and yields afterwards, so a handler that resumes works with
    what it read before. The frames of one socket are handled one after another;
    everything else interleaves freely. */
module Interleaving {
  import opened Wrappers
  import opened Sequences
  import opened Canonical
  import opened RoomSockets
  import opened Rooms

  /** Where a socket's handler waits, and what it carries across the wait. `via`
      is the ticket whose consumption let the proof through. */
  datatype Pc =
    | Idle
    | ReadVerifier(role: Role, sig: bool, ticket: Option<string>, established: bool)
    | Verifying(role: Role, ok: bool)
    | Bumping(role: Role)
    | ReadTicket(name: string, expiresAt: Option<int>)
    | DeletedTicket(name: string, consumed: bool)
    | Admitting(role: Role, nonDisplacing: bool, established: bool, via: Option<string>)
    | BudgetReset(nonDisplacing: bool)
    | Charging(cycles: nat, nonDisplacing: bool, via: Option<string>)
    | Charged(nonDisplacing: bool, via: Option<string>)
    | Finishing

  /** `upgrading`: sockets that are accepted and whose log tag is still being hashed;
      the eviction comes after that. `issued`: tickets that ever existed. `redeemed`: those a delete removed for a
      proof. `admitted`: those whose proof took the slot, in order. */
  datatype World = World(
    socks: Sockets,
    pc: map<int, Pc>,
    upgrading: set<int>,
    verifier: Option<string>,
    cycles: nat,
    tickets: map<string, int>,
    issued: set<string>,
    redeemed: set<string>,
    admitted: seq<string>)

  datatype Action =
    | Deliver(ws: int, json: Json, drawn: string, limited: bool)  // a frame reaches an idle socket
    | Resume(ws: int, now: int, ok: bool)                         // its handler goes on after an await
    | Accept(ws: int, now: int)                                   // an upgrade, up to its await
    | Evict(ws: int)                                              // the rest of it
    | Vanish(ws: int)                                             // closed by anyone else, for any reason
    | SetVerifier(verifier: Option<string>)
    | Wipe                                                        // deletion or idle reap empties the rows
    | AddTicket(ticket: string, expiresAt: int)
    | RemoveTicket(ticket: string)

  function PcOf(w: World, ws: int): Pc {
    if ws in w.pc then w.pc[ws] else Idle
  }

  function At(w: World, ws: int, pc: Pc): World {
    w.(pc := w.pc[ws := pc])
  }

  /** reject(): the socket is closed and its handler is done. */
  function Reject(w: World, ws: int): World {
    At(w.(socks := CloseOne(w.socks, ws)), ws, Idle)
  }

  predicate IsEstablished(w: World) {
    w.verifier.Some? && w.verifier.value != ""
  }

  /** The first stretch of admit(): read the attachment, then the verifier. */
  function StartAdmit(w: World, ws: int, role: Role, via: Option<string>): World {
    var nonDisplacing := ws in w.socks.att && w.socks.att[ws].Challenged? && w.socks.att[ws].nonDisplacing;
    At(w, ws, Admitting(role, nonDisplacing, IsEstablished(w), via))
  }

  /** The await-free stretch of admit(): yield or displace, then hold the slot. */
  ghost function Slot(w: World, ws: int, role: Role, nonDisplacing: bool, via: Option<string>): World {
    if nonDisplacing && HeldByOther(w.socks, role, ws) then Reject(w, ws)
    else
      var admitted := if via.Some? then w.admitted + [via.value] else w.admitted;
      At(w.(socks := Judged(w.socks, ws, TakeSlot(role)), admitted := admitted), ws,
         if role == Phone then Finishing else Idle)
  }

  /** A phone, after the verifier was read: is a mac parked, is there budget? */
  ghost function AdmitPhone(w: World, ws: int, pc: Pc): World
    requires pc.Admitting?
  {
    if !HeldByOther(w.socks, Mac, ws) then Reject(w, ws)
    else if pc.established then Slot(w, ws, Phone, pc.nonDisplacing, pc.via)
    else At(w, ws, Charging(w.cycles, pc.nonDisplacing, pc.via))
  }

  ghost function AdmitMac(w: World, ws: int, pc: Pc): World
    requires pc.Admitting?
  {
    if pc.established then Slot(w, ws, Mac, pc.nonDisplacing, None)
    else At(w.(cycles := 0), ws, BudgetReset(pc.nonDisplacing))
  }

  /** The budget is charged with what was read, or the room is torn down. */
  function Charge(w: World, ws: int, pc: Pc): World
    requires pc.Charging?
  {
    if pc.cycles + 1 > MAX_PAIRING_CYCLES then
      At(w.(socks := w.socks.(live := []), verifier := None, cycles := 0, tickets := map[]), ws, Finishing)
    else At(w.(cycles := pc.cycles + 1), ws, Charged(pc.nonDisplacing, pc.via))
  }

  /** The verifier was read: go by signature, by ticket, or straight in. */
  function AfterVerifier(w: World, attestRequired: bool, ws: int, pc: Pc, ok: bool): World
    requires pc.ReadVerifier?
  {
    if pc.established then if pc.sig then At(w, ws, Verifying(pc.role, ok)) else Reject(w, ws)
    else if attestRequired && pc.role == Phone then
      if pc.ticket.None? then Reject(w, ws)
      else
        var t := pc.ticket.value;
        At(w, ws, ReadTicket(t, if t in w.tickets then Some(w.tickets[t]) else None))
    else StartAdmit(w, ws, pc.role, None)
  }

  /** The delete that decides: whether there was a row to remove. */
  function DeleteTicket(w: World, ws: int, pc: Pc, now: int): World
    requires pc.ReadTicket?
  {
    if pc.expiresAt.None? || pc.expiresAt.value < now then Reject(w, ws)
    else if pc.name in w.tickets then
      At(w.(tickets := w.tickets - {pc.name}, redeemed := w.redeemed + {pc.name}), ws,
         DeletedTicket(pc.name, true))
    else At(w, ws, DeletedTicket(pc.name, false))
  }

  ghost function Resumed(w: World, attestRequired: bool, ws: int, now: int, ok: bool): World {
    match PcOf(w, ws)
    case Idle => w
    case ReadVerifier(_, _, _, _) => AfterVerifier(w, attestRequired, ws, PcOf(w, ws), ok)
    case Verifying(role, good) => if good then At(w, ws, Bumping(role)) else Reject(w, ws)
    case Bumping(role) => StartAdmit(w, ws, role, None)
    case ReadTicket(_, _) => DeleteTicket(w, ws, PcOf(w, ws), now)
    case DeletedTicket(t, consumed) => if consumed then StartAdmit(w, ws, Phone, Some(t)) else Reject(w, ws)
    case Admitting(role, _, _, _) =>
      if role == Phone then AdmitPhone(w, ws, PcOf(w, ws)) else AdmitMac(w, ws, PcOf(w, ws))
    case BudgetReset(nonDisplacing) => Slot(w, ws, Mac, nonDisplacing, None)
    case Charging(_, _, _) => Charge(w, ws, PcOf(w, ws))
    case Charged(nonDisplacing, via) => Slot(w, ws, Phone, nonDisplacing, via)
    case Finishing => At(w, ws, Idle)
  }

  /** A frame on a socket whose handler is idle; a hello is answered at once. */
  function Delivered(w: World, ws: int, json: Json, drawn: string, limited: bool): World
    requires ws in w.socks.att
  {
    match w.socks.att[ws]
    case Hello(_) =>
      if json.NotJson? || json.v != Some(1) || json.role.None? then Reject(w, ws)
      else w.(socks := Judged(w.socks, ws, Challenge(json.role.value, drawn, json.nonDisplacing)))
    case Challenged(role, _, _, _) =>
      if limited || json.NotJson? then Reject(w, ws)
      else At(w, ws, ReadVerifier(role, json.sig.Some?, json.ticket, IsEstablished(w)))
    case Admitted(_, _) => w
  }

  ghost function Do(w: World, attestRequired: bool, a: Action): World {
    match a
    case Deliver(ws, json, drawn, limited) =>
      if ws in w.socks.att && PcOf(w, ws).Idle? then Delivered(w, ws, json, drawn, limited) else w
    case Resume(ws, now, ok) => Resumed(w, attestRequired, ws, now, ok)
    case Accept(ws, now) =>
      if ws in w.socks.att then w
      else At(w.(socks := Added(w.socks, ws, now), upgrading := w.upgrading + {ws}), ws, Idle)
    case Evict(ws) =>
      if ws in w.upgrading then w.(socks := Evicted(w.socks), upgrading := w.upgrading - {ws}) else w
    case Vanish(ws) => w.(socks := CloseOne(w.socks, ws))
    case SetVerifier(v) => w.(verifier := v)
    case Wipe => w.(verifier := None, cycles := 0, tickets := map[])
    case AddTicket(t, expiresAt) =>
      if t in w.issued then w else w.(tickets := w.tickets[t := expiresAt], issued := w.issued + {t})
    case RemoveTicket(t) => w.(tickets := w.tickets - {t})
  }

  // -------------------------------------------------------------- invariant

  /** The role a waiting handler will take, if it has not taken it yet. */
  function RoleOf(pc: Pc): Option<Role> {
    match pc
    case Idle => None
    case Finishing => None
    case ReadVerifier(role, _, _, _) => Some(role)
    case Verifying(role, _) => Some(role)
    case Bumping(role) => Some(role)
    case Admitting(role, _, _, _) => Some(role)
    case BudgetReset(_) => Some(Mac)
    case _ => Some(Phone)
  }

  /** The ticket a waiting handler was let through by. */
  function Via(pc: Pc): Option<string> {
    match pc
    case DeletedTicket(t, consumed) => if consumed then Some(t) else None
    case Admitting(_, _, _, via) => via
    case Charging(_, _, via) => via
    case Charged(_, via) => via
    case _ => None
  }

  /** A waiting handler's socket is still challenged, in the handler's role. */
  ghost predicate HandlersFit(w: World) {
    forall ws :: ws in w.pc && RoleOf(w.pc[ws]).Some? ==>
      ws in w.socks.att && w.socks.att[ws].Challenged? && w.socks.att[ws].role == RoleOf(w.pc[ws]).value
  }

  /** A redeemed ticket is gone for good and is carried by at most one handler. */
  ghost predicate TicketsFit(w: World) {
    && (forall t :: t in w.tickets ==> t in w.issued && t !in w.redeemed)
    && (forall t :: t in w.redeemed ==> t in w.issued)
    && (forall ws :: ws in w.pc && Via(w.pc[ws]).Some? ==>
          RoleOf(w.pc[ws]) == Some(Phone) && Via(w.pc[ws]).value in w.redeemed && Via(w.pc[ws]).value !in w.admitted)
    && (forall a, b :: a in w.pc && b in w.pc && Via(w.pc[a]).Some? && Via(w.pc[a]) == Via(w.pc[b]) ==> a == b)
    && (forall t :: t in w.admitted ==> t in w.redeemed)
    && Distinct(w.admitted)
  }

  ghost predicate Fits(w: World) {
    Inv(w.socks) && HandlersFit(w) && TicketsFit(w)
  }

  /** A socket's state moves one step forward, or not at all. */
  predicate Forward(before: Att, after: Att) {
    || after == before
    || (before.Hello? && after.Challenged? && after.connectedAt == before.connectedAt)
    || (before.Challenged? && after.Admitted? && after.role == before.role && after.connectedAt == before.connectedAt)
  }

  ghost predicate AllForward(a: Sockets, b: Sockets) {
    forall s :: s in a.att ==> s in b.att && Forward(a.att[s], b.att[s])
  }

  // ------------------------------------------------------------- one step each

  /** A handler moves on without touching the sockets or the tickets. */
  lemma AtFits(w: World, ws: int, pc: Pc)
    requires Fits(w)
    requires RoleOf(pc).Some? ==> ws in w.socks.att && w.socks.att[ws].Challenged? && w.socks.att[ws].role == RoleOf(pc).value
    requires Via(pc).Some? ==> Via(pc) == Via(PcOf(w, ws)) && RoleOf(pc) == Some(Phone)
    ensures Fits(At(w, ws, pc))
  {
  }

  lemma RejectFits(w: World, ws: int)
    requires Fits(w)
    ensures Fits(Reject(w, ws)) && AllForward(w.socks, Reject(w, ws).socks)
  {
    CloseOneKeepsInv(w.socks, ws);
    AtFits(w.(socks := CloseOne(w.socks, ws)), ws, Idle);
  }

  /** Displacing, then holding the slot, in one go. */
  lemma TakenFits(w: World, ws: int, role: Role, via: Option<string>, after: Pc)
    requires Fits(w) && RoleOf(PcOf(w, ws)) == Some(role) && via == Via(PcOf(w, ws)) && RoleOf(after).None?
    ensures var d := At(w.(socks := Judged(w.socks, ws, TakeSlot(role)),
                           admitted := if via.Some? then w.admitted + [via.value] else w.admitted), ws, after);
            Fits(d) && AllForward(w.socks, d.socks)
  {
    var d := At(w.(socks := Judged(w.socks, ws, TakeSlot(role)),
                   admitted := if via.Some? then w.admitted + [via.value] else w.admitted), ws, after);
    TakeSlotKeepsInv(w.socks, ws, role);
    if via.Some? {
      AppendDistinct(w.admitted, via.value);
    }
    assert HandlersFit(d);
    assert TicketsFit(d);
  }

  lemma SlotFits(w: World, ws: int, role: Role, nonDisplacing: bool, via: Option<string>)
    requires Fits(w) && RoleOf(PcOf(w, ws)) == Some(role) && via == Via(PcOf(w, ws))
    ensures Fits(Slot(w, ws, role, nonDisplacing, via)) && AllForward(w.socks, Slot(w, ws, role, nonDisplacing, via).socks)
  {
    if nonDisplacing && HeldByOther(w.socks, role, ws) {
      RejectFits(w, ws);
    } else {
      TakenFits(w, ws, role, via, if role == Phone then Finishing else Idle);
    }
  }

  lemma ChargeFits(w: World, ws: int)
    requires Fits(w) && PcOf(w, ws).Charging?
    ensures Fits(Charge(w, ws, PcOf(w, ws))) && AllForward(w.socks, Charge(w, ws, PcOf(w, ws)).socks)
  {
    var pc := PcOf(w, ws);
    if pc.cycles + 1 > MAX_PAIRING_CYCLES {
      var w1 := w.(socks := w.socks.(live := []), verifier := None, cycles := 0, tickets := map[]);
      assert Fits(w1);
      AtFits(w1, ws, Finishing);
    } else {
      AtFits(w.(cycles := pc.cycles + 1), ws, Charged(pc.nonDisplacing, pc.via));
    }
  }

  /** The compare-and-swap: only the handler whose delete removed the row goes on. */
  lemma DeleteTicketFits(w: World, ws: int, now: int)
    requires Fits(w) && PcOf(w, ws).ReadTicket?
    ensures Fits(DeleteTicket(w, ws, PcOf(w, ws), now))
    ensures AllForward(w.socks, DeleteTicket(w, ws, PcOf(w, ws), now).socks)
  {
    var pc := PcOf(w, ws);
    if pc.expiresAt.None? || pc.expiresAt.value < now {
      RejectFits(w, ws);
    } else if pc.name in w.tickets {
      assert forall a :: a in w.pc ==> Via(w.pc[a]) != Some(pc.name);
      assert HandlersFit(DeleteTicket(w, ws, pc, now));
      assert TicketsFit(DeleteTicket(w, ws, pc, now));
    } else {
      AtFits(w, ws, DeletedTicket(pc.name, false));
    }
  }

  lemma AfterVerifierFits(w: World, attestRequired: bool, ws: int, ok: bool)
    requires Fits(w) && PcOf(w, ws).ReadVerifier?
    ensures var d := AfterVerifier(w, attestRequired, ws, PcOf(w, ws), ok);
            Fits(d) && AllForward(w.socks, d.socks)
  {
    var d := AfterVerifier(w, attestRequired, ws, PcOf(w, ws), ok);
    RejectFits(w, ws);
    if d != Reject(w, ws) {
      AtFits(w, ws, PcOf(d, ws));
    }
  }

  lemma StartAdmitFits(w: World, ws: int, role: Role, via: Option<string>)
    requires Fits(w) && RoleOf(PcOf(w, ws)) == Some(role) && via == Via(PcOf(w, ws))
    ensures Fits(StartAdmit(w, ws, role, via)) && AllForward(w.socks, StartAdmit(w, ws, role, via).socks)
  {
  }

  lemma ResumedFits(w: World, attestRequired: bool, ws: int, now: int, ok: bool)
    requires Fits(w)
    ensures var d := Resumed(w, attestRequired, ws, now, ok);
            Fits(d) && AllForward(w.socks, d.socks)
  {
    match PcOf(w, ws)
    case Idle =>
    case ReadVerifier(_, _, _, _) => AfterVerifierFits(w, attestRequired, ws, ok);
    case Verifying(role, good) => if good { AtFits(w, ws, Bumping(role)); } else { RejectFits(w, ws); }
    case Bumping(role) => StartAdmitFits(w, ws, role, None);
    case ReadTicket(_, _) => DeleteTicketFits(w, ws, now);
    case DeletedTicket(t, consumed) => if consumed { StartAdmitFits(w, ws, Phone, Some(t)); } else { RejectFits(w, ws); }
    case Admitting(_, _, _, _) => AdmittingFits(w, ws);
    case BudgetReset(nonDisplacing) => SlotFits(w, ws, Mac, nonDisplacing, None);
    case Charging(_, _, _) => ChargeFits(w, ws);
    case Charged(nonDisplacing, via) => SlotFits(w, ws, Phone, nonDisplacing, via);
    case Finishing => AtFits(w, ws, Idle);
  }

  lemma AdmittingFits(w: World, ws: int)
    requires Fits(w) && PcOf(w, ws).Admitting?
    ensures var pc := PcOf(w, ws);
            var d := if pc.role == Phone then AdmitPhone(w, ws, pc) else AdmitMac(w, ws, pc);
            Fits(d) && AllForward(w.socks, d.socks)
  {
    var pc := PcOf(w, ws);
    if pc.role == Phone {
      RejectFits(w, ws);
      if pc.established {
        SlotFits(w, ws, Phone, pc.nonDisplacing, pc.via);
      } else {
        AtFits(w, ws, Charging(w.cycles, pc.nonDisplacing, pc.via));
      }
    } else if pc.established {
      SlotFits(w, ws, Mac, pc.nonDisplacing, None);
    } else {
      AtFits(w.(cycles := 0), ws, BudgetReset(pc.nonDisplacing));
    }
  }

  lemma ChallengeFits(w: World, ws: int, role: Role, drawn: string, nonDisplacing: bool)
    requires Fits(w) && ws in w.socks.att && w.socks.att[ws].Hello? && PcOf(w, ws).Idle?
    ensures var d := w.(socks := Judged(w.socks, ws, Challenge(role, drawn, nonDisplacing)));
            Fits(d) && AllForward(w.socks, d.socks)
  {
  }

  lemma DeliveredFits(w: World, ws: int, json: Json, drawn: string, limited: bool)
    requires Fits(w) && ws in w.socks.att && PcOf(w, ws).Idle?
    ensures var d := Delivered(w, ws, json, drawn, limited);
            Fits(d) && AllForward(w.socks, d.socks)
  {
    RejectFits(w, ws);
    match w.socks.att[ws]
    case Hello(_) =>
      if json.Object? && json.role.Some? {
        ChallengeFits(w, ws, json.role.value, drawn, json.nonDisplacing);
      }
    case Challenged(role, _, _, _) => AtFits(w, ws, ReadVerifier(role, json.Object? && json.sig.Some?,
                                                                if json.Object? then json.ticket else None, IsEstablished(w)));
    case Admitted(_, _) =>
  }

  lemma AcceptFits(w: World, ws: int, now: int)
    requires Fits(w) && ws !in w.socks.att
    ensures var d := At(w.(socks := Added(w.socks, ws, now), upgrading := w.upgrading + {ws}), ws, Idle);
            Fits(d) && AllForward(w.socks, d.socks)
  {
    AddedKeepsInv(w.socks, ws, now);
    var w1 := w.(socks := Added(w.socks, ws, now), upgrading := w.upgrading + {ws});
    assert HandlersFit(w1) && TicketsFit(w1);
    AtFits(w1, ws, Idle);
  }

  /** Whatever runs next, at whatever await: the invariant holds again, and every
      socket's state has moved one step forward or not at all. */
  lemma DoFits(w: World, attestRequired: bool, a: Action)
    requires Fits(w)
    ensures var d := Do(w, attestRequired, a);
            Fits(d) && AllForward(w.socks, d.socks)
  {
    match a
    case Deliver(ws, json, drawn, limited) =>
      if ws in w.socks.att && PcOf(w, ws).Idle? {
        DeliveredFits(w, ws, json, drawn, limited);
      }
    case Resume(ws, now, ok) => ResumedFits(w, attestRequired, ws, now, ok);
    case Accept(ws, now) =>
      if ws !in w.socks.att {
        AcceptFits(w, ws, now);
      }
    case Evict(ws) => EvictedKeepsInv(w.socks);
    case Vanish(ws) => CloseOneKeepsInv(w.socks, ws);
    case _ =>
  }

  const START := World(Sockets([], {}, map[]), map[], {}, None, 0, map[], {}, {}, [])

  ghost function Ran(w: World, attestRequired: bool, actions: seq<Action>): World
    decreases |actions|
  {
    if actions == [] then w else Ran(Do(w, attestRequired, actions[0]), attestRequired, actions[1..])
  }

  lemma {:induction false} RanAppend(w: World, attestRequired: bool, a: seq<Action>, b: seq<Action>)
    ensures Ran(w, attestRequired, a + b) == Ran(Ran(w, attestRequired, a), attestRequired, b)
    decreases |a|
  {
    if a == [] {
      assert a + b == b;
    } else {
      assert (a + b)[1..] == a[1..] + b;
      RanAppend(Do(w, attestRequired, a[0]), attestRequired, a[1..], b);
    }
  }

  lemma {:induction false} RunFits(w: World, attestRequired: bool, actions: seq<Action>)
    requires Fits(w)
    ensures Fits(Ran(w, attestRequired, actions))
    decreases |actions|
  {
    if actions != [] {
      DoFits(w, attestRequired, actions[0]);
      RunFits(Do(w, attestRequired, actions[0]), attestRequired, actions[1..]);
    }
  }

  function Rank(a: Att): nat {
    match a
    case Hello(_) => 0
    case Challenged(_, _, _, _) => 1
    case Admitted(_, _) => 2
  }

  /** `after` is `before` or a later state of the same socket. */
  predicate Later(before: Att, after: Att) {
    && Rank(before) <= Rank(after) && after.connectedAt == before.connectedAt
    && (before.Challenged? ==> after.role == before.role)
    && (before.Admitted? ==> after == before)
  }

  /** Over any stretch of any interleaving, a socket only goes from hello to
      challenged to admitted, and keeps the role it was challenged in. */
  lemma {:induction false} StatesOnlyAdvance(w: World, attestRequired: bool, actions: seq<Action>, s: int)
    requires Fits(w) && s in w.socks.att
    ensures s in Ran(w, attestRequired, actions).socks.att
    ensures Later(w.socks.att[s], Ran(w, attestRequired, actions).socks.att[s])
    decreases |actions|
  {
    if actions != [] {
      DoFits(w, attestRequired, actions[0]);
      StatesOnlyAdvance(Do(w, attestRequired, actions[0]), attestRequired, actions[1..], s);
    }
  }

  /** At every await of every interleaving: one routable holder per slot at most,
      and no ticket let two proofs into the slot. */
  lemma SlotsAndTickets(attestRequired: bool, actions: seq<Action>)
    ensures var w := Ran(START, attestRequired, actions);
            AtMostOne(w.socks, Mac) && AtMostOne(w.socks, Phone) && Distinct(w.admitted)
  {
    assert Fits(START);
    RunFits(START, attestRequired, actions);
  }

  // ------------------------------------------------------- the ticket swap

  /** Two handlers can both have read one live ticket; whichever deletes first,
      the other is turned away. */
  lemma SecondRedeemerLoses(w: World, a: int, b: int, now: int, later: int)
    requires Fits(w) && a != b && a in w.pc && b in w.pc
    requires w.pc[a].ReadTicket? && w.pc[b].ReadTicket? && w.pc[a].name == w.pc[b].name
    requires w.pc[a].expiresAt.Some? && w.pc[a].expiresAt.value >= now && w.pc[a].name in w.tickets
    ensures var w1 := Do(w, true, Resume(a, now, true));
            var w2 := Do(w1, true, Resume(b, later, true));
            var w3 := Do(w2, true, Resume(b, later, true));
            && PcOf(w2, a) == DeletedTicket(w.pc[a].name, true)
            && PcOf(w3, b) == Idle && b !in w3.socks.live
  {
  }
}
