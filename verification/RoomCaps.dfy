/** The pairing-cycle cap, and who survives a full waiting room (src/room.js,
    admit and evictExcessPreAuth). */
module RoomCaps {
  import opened Wrappers
  import opened Canonical
  import opened RoomSockets
  import opened RoomSocketProofs
  import opened Rooms
  import opened RoomProofs

  // -------------------------------------------------------------- vocabulary

  /** A phone is admitted in pairing mode. */
  ghost predicate PairsPhone(r: Room, env: Env, e: Event) {
    !Established(r.store) && e.Message? && MoveOf(r, env, e) == Judge(e.ws, TakeSlot(Phone))
  }

  /** A mac parks in pairing mode. */
  ghost predicate Parks(r: Room, env: Env, e: Event) {
    !Established(r.store) && e.Message? && MoveOf(r, env, e) == Judge(e.ws, TakeSlot(Mac))
  }

  /** A mac that asked to yield finds the slot held, and is refused. */
  ghost predicate YieldingMac(r: Room, env: Env, e: Event) {
    && !Established(r.store) && ReachesAs(r, env, e, Mac)
    && r.socks.att[e.ws].nonDisplacing && HeldByOther(r.socks, Mac, e.ws)
  }

  /** A phone asks for one cycle more than the cap. */
  ghost predicate OverCap(r: Room, env: Env, e: Event) {
    && !Established(r.store) && ReachesAs(r, env, e, Phone)
    && HeldByOther(r.socks, Mac, e.ws) && r.store.cycles >= MAX_PAIRING_CYCLES
  }

  /** A deletion signed for this room, over a challenge that is live. */
  predicate SignedDelete(r: Room, env: Env, e: Event) {
    && Established(r.store) && e.Delete? && e.challenge.Some? && e.signature.Some?
    && GoodChallenge(r.store, e.challenge.value, e.now)
    && env.verify(e.signature.value, DeleteTranscript(env.b64(e.challenge.value), env.room, env.origin),
                  r.store.verifier.value)
  }

  /** The rows are wiped: cap, deletion, or idle reap. */
  ghost predicate Wipes(r: Room, env: Env, e: Event) {
    OverCap(r, env, e) || SignedDelete(r, env, e) || (e.Alarm? && Reaps(r.store, env, e.now))
  }

  // -------------------------------------------------------------- the budget

  /** A message in pairing mode: what it does to the cycle count. */
  lemma MessageBudget(r: Room, env: Env, e: Event)
    requires e.Message? && r.store.cycles <= MAX_PAIRING_CYCLES
    ensures var after := StoreAfter(r, env, e).cycles;
            && after <= MAX_PAIRING_CYCLES
            && (Parks(r, env, e) || YieldingMac(r, env, e) ==> after == 0)
            && (!Parks(r, env, e) && !YieldingMac(r, env, e) && !OverCap(r, env, e) ==>
                  r.store.cycles + (if PairsPhone(r, env, e) then 1 else 0) <= after <= r.store.cycles + 1)
  {
    if e.ws in r.socks.att && r.socks.att[e.ws].Challenged? && e.frame.size <= MAX_CONTROL_BYTES {
      ProofBudget(r, env, e);
    }
  }

  lemma ProofBudget(r: Room, env: Env, e: Event)
    requires e.Message? && e.ws in r.socks.att && r.socks.att[e.ws].Challenged? && e.frame.size <= MAX_CONTROL_BYTES
    requires r.store.cycles <= MAX_PAIRING_CYCLES
    ensures var o := OnFrame(r, env, e.ws, e.frame, e.now, e.drawn);
            && o.store.cycles <= MAX_PAIRING_CYCLES
            && ((!Established(r.store) && o.verdict == TakeSlot(Mac)) || YieldingMac(r, env, e) ==> o.store.cycles == 0)
            && (!(!Established(r.store) && o.verdict == TakeSlot(Mac)) && !YieldingMac(r, env, e) && !OverCap(r, env, e)
                ==> r.store.cycles + (if !Established(r.store) && o.verdict == TakeSlot(Phone) then 1 else 0)
                    <= o.store.cycles <= r.store.cycles + 1)
  {
    var att := r.socks.att[e.ws];
    CheckKeepsBudget(r.store, r.mem, env, att, e.frame.json, e.now);
    var c := CheckProof(r.store, r.mem, env, att, e.frame.json, e.now);
    if c.Cleared? {
      assert Established(c.store) == Established(r.store);
      assert OnFrame(r, env, e.ws, e.frame, e.now, e.drawn)
             == Admit(r.socks, c.store, c.mem, e.ws, att, c.key, e.now, e.drawn);
    }
  }

  lemma OtherEventsKeepBudget(r: Room, env: Env, e: Event)
    requires !e.Message? && !Wipes(r, env, e)
    ensures StoreAfter(r, env, e).cycles == r.store.cycles
  {
  }

  lemma StepKeepsCap(r: Room, env: Env, e: Event)
    requires r.store.cycles <= MAX_PAIRING_CYCLES
    ensures StoreAfter(r, env, e).cycles <= MAX_PAIRING_CYCLES
  {
    if e.Message? {
      MessageBudget(r, env, e);
    } else if Wipes(r, env, e) {
      assert StoreAfter(r, env, e).cycles <= r.store.cycles;
    } else {
      OtherEventsKeepBudget(r, env, e);
    }
  }

  /** No mac parks, none is refused for yielding, and nothing is wiped. */
  ghost predicate SameBudget(r: Room, env: Env, events: seq<Event>)
    decreases |events|
  {
    events == []
    || (&& !Parks(r, env, events[0]) && !YieldingMac(r, env, events[0]) && !Wipes(r, env, events[0])
        && SameBudget(Step(r, env, events[0]), env, events[1..]))
  }

  ghost function PhonesPaired(r: Room, env: Env, events: seq<Event>): nat
    decreases |events|
  {
    if events == [] then 0
    else (if PairsPhone(r, env, events[0]) then 1 else 0) + PhonesPaired(Step(r, env, events[0]), env, events[1..])
  }

  /** Between parks, refusals of yielding macs and wipes, an un-established room
      admits at most eight phones, counting those the budget was charged before. */
  lemma {:induction false} AtMostEightCycles(r: Room, env: Env, events: seq<Event>)
    requires r.store.cycles <= MAX_PAIRING_CYCLES && SameBudget(r, env, events)
    ensures r.store.cycles + PhonesPaired(r, env, events) <= 8
    decreases |events|
  {
    if events != [] {
      var e := events[0];
      StepKeepsCap(r, env, e);
      if e.Message? {
        MessageBudget(r, env, e);
      } else {
        OtherEventsKeepBudget(r, env, e);
      }
      AtMostEightCycles(Step(r, env, e), env, events[1..]);
    }
  }

  /** One cycle too many leaves no socket and no row. */
  lemma OverCapKills(r: Room, env: Env, e: Event)
    requires OverCap(r, env, e)
    ensures Step(r, env, e).socks.live == [] && Step(r, env, e).store == EMPTY
  {
  }

  /** A mac in pairing mode parks or, if it asked to yield, is refused. */
  lemma MacParksOrYields(r: Room, env: Env, e: Event)
    ensures !Established(r.store) && ReachesAs(r, env, e, Mac) <==> Parks(r, env, e) || YieldingMac(r, env, e)
  {
    if e.Message? && e.ws in r.socks.att && r.socks.att[e.ws].Challenged? && e.frame.size <= MAX_CONTROL_BYTES {
      var att := r.socks.att[e.ws];
      CheckKeepsBudget(r.store, r.mem, env, att, e.frame.json, e.now);
    }
  }

  /** The cycle count starts again exactly when a mac's proof gets through to
      admit() in pairing mode, whether or not the mac then parks, or at a wipe. */
  lemma BudgetRestartsExactly(r: Room, env: Env, e: Event)
    requires 0 < r.store.cycles <= MAX_PAIRING_CYCLES
    ensures StoreAfter(r, env, e).cycles == 0
            <==> (!Established(r.store) && ReachesAs(r, env, e, Mac)) || Wipes(r, env, e)
  {
    MacParksOrYields(r, env, e);
    if e.Message? {
      MessageBudget(r, env, e);
      if OverCap(r, env, e) {
        OverCapKills(r, env, e);
      }
    } else if !Wipes(r, env, e) {
      OtherEventsKeepBudget(r, env, e);
    }
  }

  // ------------------------------------------------------ the cap, per park

  /** One mac keeps the slot it parked in, and nothing is wiped. */
  ghost predicate SamePark(r: Room, env: Env, events: seq<Event>)
    decreases |events|
  {
    events == []
    || (&& !Parks(r, env, events[0]) && !Wipes(r, env, events[0])
        && SamePark(Step(r, env, events[0]), env, events[1..]))
  }

  function More(p: nat, pairs: bool): nat {
    if pairs then p + 1 else p
  }

  /** In every state of the run the count covers the phones paired since the park,
      of which there were `p` before. */
  ghost predicate CountCovers(r: Room, env: Env, events: seq<Event>, p: nat)
    decreases |events|
  {
    && p <= r.store.cycles
    && (events == []
        || CountCovers(Step(r, env, events[0]), env, events[1..], More(p, PairsPhone(r, env, events[0]))))
  }

  /** No yielding mac is refused once a phone has been paired. */
  ghost predicate NoLateYield(r: Room, env: Env, events: seq<Event>, p: nat)
    decreases |events|
  {
    events == []
    || (&& !(p > 0 && YieldingMac(r, env, events[0]))
        && NoLateYield(Step(r, env, events[0]), env, events[1..], More(p, PairsPhone(r, env, events[0]))))
  }

  /** While one mac stays parked, the cap counts every phone paired with it exactly
      as long as no yielding mac is refused after one was. */
  lemma {:induction false} CapIsPerParkExactly(r: Room, env: Env, events: seq<Event>, p: nat)
    requires p <= r.store.cycles <= MAX_PAIRING_CYCLES && SamePark(r, env, events)
    ensures CountCovers(r, env, events, p) <==> NoLateYield(r, env, events, p)
    decreases |events|
  {
    if events != [] {
      var e := events[0];
      var r1 := Step(r, env, e);
      StepKeepsCap(r, env, e);
      if e.Message? {
        MessageBudget(r, env, e);
      } else {
        OtherEventsKeepBudget(r, env, e);
      }
      if !(p > 0 && YieldingMac(r, env, e)) {
        CapIsPerParkExactly(r1, env, events[1..], More(p, PairsPhone(r, env, e)));
      }
    }
  }

  // -------------------------------------------------- the newest connection

  /** The time an event carries, or the time of the last one that did. */
  function TimeOf(e: Event, last: int): int {
    match e
    case Connect(_, now) => now
    case Message(_, _, now, _) => now
    case AskChallenge(now, _) => now
    case Attest(_, _, now, _) => now
    case Register(_, _, _, _, now) => now
    case Delete(_, _, now) => now
    case Alarm(now) => now
    case _ => last
  }

  predicate ClockRuns(events: seq<Event>, last: int) {
    events == [] || (last <= TimeOf(events[0], last) && ClockRuns(events[1..], TimeOf(events[0], last)))
  }

  function LastTime(events: seq<Event>, last: int): int {
    if events == [] then last else LastTime(events[1..], TimeOf(events[0], last))
  }

  predicate ConnectedBefore(socks: Sockets, now: int) {
    forall s :: s in socks.att ==> socks.att[s].connectedAt <= now
  }

  lemma StepKeepsClock(r: Room, env: Env, e: Event, last: int)
    requires ConnectedBefore(r.socks, last) && last <= TimeOf(e, last)
    ensures ConnectedBefore(Step(r, env, e).socks, TimeOf(e, last))
  {
    MovedClock(r.socks, MoveOf(r, env, e), TimeOf(e, last));
  }

  lemma MovedClock(socks: Sockets, m: Move, now: int)
    requires ConnectedBefore(socks, now) && (m.Join? ==> m.now <= now)
    ensures ConnectedBefore(Moved(socks, m), now)
  {
  }

  /** On every run whose clock does not go back, the connection that just came in
      is not the one a full waiting room evicts. */
  lemma {:induction false} NewestSurvives(r: Room, env: Env, events: seq<Event>, last: int, ws: int, now: int)
    requires Inv(r.socks) && LegalRun(r, env, events) && ConnectedBefore(r.socks, last) && ClockRuns(events, last)
    requires ws !in Ran(r, env, events).socks.att && LastTime(events, last) <= now
    ensures ws in Step(Ran(r, env, events), env, Connect(ws, now)).socks.live
    decreases |events|
  {
    if events == [] {
      NewestStays(r.socks, ws, now);
    } else {
      StepKeepsInv(r, env, events[0]);
      StepKeepsClock(r, env, events[0], last);
      NewestSurvives(Step(r, env, events[0]), env, events[1..], TimeOf(events[0], last), ws, now);
    }
  }

  /** After the alarm, no un-admitted socket is past its deadline. */
  lemma AlarmEnforcesDeadline(r: Room, env: Env, now: int)
    ensures forall s :: s in Step(r, env, Alarm(now)).socks.live ==> !TimedOut(r.socks.att, s, now)
    ensures forall s :: s in r.socks.live && Holds(r.socks.att, s, Mac) && !Reaps(Pruned(r.store, now), env, now)
                        ==> s in Step(r, env, Alarm(now)).socks.live
  {
  }
}
