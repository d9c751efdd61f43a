/** Safety of a room over whole runs (src/room.js). */
module RoomProofs {
  import opened Canonical
  import opened RoomSockets
  import opened RoomSocketProofs
  import opened Limits
  import opened Rooms

  // ------------------------------------------------------------ the sockets

  lemma StepCanMove(r: Room, env: Env, e: Event)
    requires Legal(r, e)
    ensures CanMove(r.socks, MoveOf(r, env, e)) && DropsPending(r.socks, MoveOf(r, env, e))
  {
  }

  lemma StepKeepsInv(r: Room, env: Env, e: Event)
    requires Legal(r, e) && Inv(r.socks)
    ensures Inv(Step(r, env, e).socks)
  {
    StepCanMove(r, env, e);
    MoveKeepsInv(r.socks, MoveOf(r, env, e));
  }

  ghost predicate LegalRun(r: Room, env: Env, events: seq<Event>)
    decreases |events|
  {
    events == [] || (Legal(r, events[0]) && LegalRun(Step(r, env, events[0]), env, events[1..]))
  }

  ghost function Ran(r: Room, env: Env, events: seq<Event>): Room
    decreases |events|
  {
    if events == [] then r else Ran(Step(r, env, events[0]), env, events[1..])
  }

  /** On every run: each slot has at most one routable holder, at most four
      routable sockets are un-admitted, and at most six are routable. */
  lemma {:induction false} RoomIsBounded(r: Room, env: Env, events: seq<Event>)
    requires Inv(r.socks) && CapKept(r.socks) && LegalRun(r, env, events)
    ensures var r1 := Ran(r, env, events);
            && AtMostOne(r1.socks, Mac) && AtMostOne(r1.socks, Phone)
            && |PreAuth(r1.socks)| <= 4 && |r1.socks.live| <= 6
    decreases |events|
  {
    if events == [] {
      AtMostSix(r.socks);
    } else {
      StepCanMove(r, env, events[0]);
      StepKeepsInv(r, env, events[0]);
      MoveKeepsCap(r.socks, MoveOf(r, env, events[0]));
      RoomIsBounded(Step(r, env, events[0]), env, events[1..]);
    }
  }

  // ---------------------------------------------------------------- proofs

  /** A proof that the checks let through to admit(). */
  predicate Reaches(r: Room, env: Env, e: Event) {
    && e.Message? && e.ws in r.socks.att && r.socks.att[e.ws].Challenged?
    && e.frame.size <= MAX_CONTROL_BYTES
    && CheckProof(r.store, r.mem, env, r.socks.att[e.ws], e.frame.json, e.now).Cleared?
  }

  predicate ReachesAs(r: Room, env: Env, e: Event, role: Role) {
    Reaches(r, env, e) && r.socks.att[e.ws].role == role
  }

  lemma CheckKeepsBudget(store: Store, mem: Memory, env: Env, att: Att, json: Json, now: int)
    requires att.Challenged?
    ensures var c := CheckProof(store, mem, env, att, json, now);
            c.store.verifier == store.verifier && c.store.cycles == store.cycles
  {
  }

  // ------------------------------------------------------ phone implies mac

  /** A frame that closes its sender's peer: over its size cap, or one too many. */
  predicate FrameClosesPeer(r: Room, e: Event)
    requires e.Message? && e.ws in r.socks.att
  {
    || e.frame.size > CapOf(r.socks.att[e.ws])
    || Bumped(r.mem.frames, e.now, FRAME_WINDOW_MS).count > MAX_FRAMES_PER_WINDOW
  }

  /** The events that leave a phone without its mac: while a phone is routable,
      the mac's close frame is acknowledged; a phone that was already gone has its
      close event; a phone fails but is still routable; or a socket that is no longer
      routable sends a frame that closes the mac with it (as a phone) or a proof
      that displaces the mac (as a mac, unless it asked to yield). */
  ghost predicate OrphaningEvent(r: Room, env: Env, e: Event) {
    && Held(r.socks, Phone)
    && match e
       case RemoteClose(ws) => ws in r.socks.live && Holds(r.socks.att, ws, Mac)
       case CloseEvent(ws) => ws in r.socks.closing && Holds(r.socks.att, ws, Phone)
       case SocketError(ws) => Holds(r.socks.att, ws, Phone)
       case Message(ws, _, _, _) =>
         && ws in r.socks.att && ws !in r.socks.live
         && ((Holds(r.socks.att, ws, Phone) && FrameClosesPeer(r, e))
             || (ReachesAs(r, env, e, Mac) && !(r.socks.att[ws].nonDisplacing && HeldByOther(r.socks, Mac, ws))))
       case _ => false
  }

  lemma OrphaningProof(r: Room, env: Env, e: Event)
    requires e.Message? && e.ws in r.socks.att && r.socks.att[e.ws].Challenged? && e.frame.size <= MAX_CONTROL_BYTES
    ensures MoveOf(r, env, e) == Judge(e.ws, TakeSlot(Mac))
            <==> ReachesAs(r, env, e, Mac) && !(r.socks.att[e.ws].nonDisplacing && HeldByOther(r.socks, Mac, e.ws))
    ensures MoveOf(r, env, e) != Judge(e.ws, DropBoth)
  {
    CheckKeepsBudget(r.store, r.mem, env, r.socks.att[e.ws], e.frame.json, e.now);
  }

  /** The orphaning events are those whose move orphans a phone. */
  lemma OrphansExactly(r: Room, env: Env, e: Event)
    ensures OrphaningEvent(r, env, e) <==> Orphans(r.socks, MoveOf(r, env, e))
  {
    if e.Message? && e.ws in r.socks.att && r.socks.att[e.ws].Challenged? && e.frame.size <= MAX_CONTROL_BYTES {
      OrphaningProof(r, env, e);
    }
  }

  ghost predicate AlwaysPaired(r: Room, env: Env, events: seq<Event>)
    decreases |events|
  {
    Paired(r.socks) && (events == [] || AlwaysPaired(Step(r, env, events[0]), env, events[1..]))
  }

  ghost predicate NeverOrphans(r: Room, env: Env, events: seq<Event>)
    decreases |events|
  {
    events == []
    || (!OrphaningEvent(r, env, events[0]) && NeverOrphans(Step(r, env, events[0]), env, events[1..]))
  }

  /** On every run: a routable phone always has a routable mac, exactly when none
      of the events is an orphaning one. */
  lemma {:induction false} PhoneImpliesMac(r: Room, env: Env, events: seq<Event>)
    requires Inv(r.socks) && Paired(r.socks) && LegalRun(r, env, events)
    ensures AlwaysPaired(r, env, events) <==> NeverOrphans(r, env, events)
    decreases |events|
  {
    if events != [] {
      var e := events[0];
      var r1 := Step(r, env, e);
      StepCanMove(r, env, e);
      StepKeepsInv(r, env, e);
      PairedExactly(r.socks, MoveOf(r, env, e));
      OrphansExactly(r, env, e);
      if Paired(r1.socks) {
        PhoneImpliesMac(r1, env, events[1..]);
      }
    }
  }

  /** The sender is routable when the event comes, and a socket that goes away
      does so in one step. */
  predicate FromRoutable(r: Room, e: Event) {
    match e
    case Message(ws, _, _, _) => ws in r.socks.live
    case RemoteClose(_) => false
    case SocketError(ws) => !Holds(r.socks.att, ws, Phone)
    case CloseEvent(ws) => ws !in r.socks.closing
    case _ => true
  }

  ghost predicate RoutableRun(r: Room, env: Env, events: seq<Event>)
    decreases |events|
  {
    events == [] || (FromRoutable(r, events[0]) && RoutableRun(Step(r, env, events[0]), env, events[1..]))
  }

  /** If events come only from routable sockets, and a socket that goes away does
      so in one step, a routable phone has a routable mac on every run; a mac's
      transport error does no harm. */
  lemma {:induction false} RoutableIsPaired(r: Room, env: Env, events: seq<Event>)
    requires Inv(r.socks) && Paired(r.socks) && LegalRun(r, env, events) && RoutableRun(r, env, events)
    ensures AlwaysPaired(r, env, events)
    decreases |events|
  {
    if events != [] {
      var e := events[0];
      StepCanMove(r, env, e);
      StepKeepsInv(r, env, e);
      PairedExactly(r.socks, MoveOf(r, env, e));
      assert !Orphans(r.socks, MoveOf(r, env, e));
      RoutableIsPaired(Step(r, env, e), env, events[1..]);
    }
  }
}
