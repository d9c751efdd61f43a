/** What it takes to be admitted to a room and to un-establish it, and how often a
    room lets anyone try (src/room.js, handleProof, handleDelete, rateLimited). */
module RoomAuth {
  import opened Wrappers
  import opened Canonical
  import opened RoomSockets
  import opened Limits
  import opened Rooms
  import opened RoomProofs
  import opened RoomCaps

  // ------------------------------------------------------------- admission

  /** The credentials a proof must bring: a signature over this very join in an
      established room, a live ticket from a phone under attestation. */
  predicate Credentials(r: Room, env: Env, e: Event)
    requires e.Message? && e.ws in r.socks.att && r.socks.att[e.ws].Challenged?
  {
    var att, json := r.socks.att[e.ws], e.frame.json;
    && json.Object?
    && (Established(r.store) ==>
          json.sig.Some?
          && env.verify(json.sig.value, JoinTranscript(att.role, env.b64(att.nonce), env.room, env.origin),
                        r.store.verifier.value))
    && (!Established(r.store) && env.attestRequired && att.role == Phone ==>
          json.ticket.Some? && json.ticket.value in r.store.tickets
          && r.store.tickets[json.ticket.value].expiresAt >= e.now)
  }

  /** A socket is never admitted but by its own proof, with credentials, within the
      attempt limit; a phone only while a mac is parked and there is budget. Whoever
      held that slot goes, and nobody else: not the peer of the displaced holder. */
  lemma OnlyAuthorizedAdmission(r: Room, env: Env, e: Event, s: int)
    requires s in Step(r, env, e).socks.att && Step(r, env, e).socks.att[s].Admitted?
    requires s in r.socks.att ==> !r.socks.att[s].Admitted?
    ensures e.Message? && e.ws == s && s in r.socks.att && r.socks.att[s].Challenged?
    ensures Step(r, env, e).socks.att[s] == Admitted(r.socks.att[s].role, r.socks.att[s].connectedAt)
    ensures Credentials(r, env, e)
    ensures Bumped(r.mem.admission, e.now, ADMISSION_WINDOW_MS).count <= MAX_ADMISSION_ATTEMPTS
    ensures r.socks.att[s].role == Phone ==>
              HeldByOther(r.socks, Mac, s) && (Established(r.store) || r.store.cycles < MAX_PAIRING_CYCLES)
    ensures r.socks.att[s].nonDisplacing ==> !HeldByOther(r.socks, r.socks.att[s].role, s)
    ensures forall t :: t in Step(r, env, e).socks.live
                        <==> t in r.socks.live && (t == s || !Holds(r.socks.att, t, r.socks.att[s].role))
  {
    var m := MoveOf(r, env, e);
    AdmittedByTakeSlot(r.socks, m, s);
    assert e.Message? && e.ws == s;
    var att := r.socks.att[s];
    if att.Challenged? && e.frame.size <= MAX_CONTROL_BYTES {
      CheckKeepsBudget(r.store, r.mem, env, att, e.frame.json, e.now);
    }
  }

  /** A proof is admitted exactly when it has the credentials, is within the limits,
      has a mac and budget if it is a phone's, and does not have to yield. */
  lemma AdmittedExactly(r: Room, env: Env, e: Event)
    requires e.Message? && e.ws in r.socks.att && r.socks.att[e.ws].Challenged?
    ensures var att := r.socks.att[e.ws];
            Step(r, env, e).socks.att[e.ws].Admitted?
            <==> && e.frame.size <= MAX_CONTROL_BYTES && Credentials(r, env, e)
                 && Bumped(r.mem.admission, e.now, ADMISSION_WINDOW_MS).count <= MAX_ADMISSION_ATTEMPTS
                 && (att.role == Phone ==>
                       HeldByOther(r.socks, Mac, e.ws) && (Established(r.store) || r.store.cycles < MAX_PAIRING_CYCLES))
                 && !(att.nonDisplacing && HeldByOther(r.socks, att.role, e.ws))
  {
    CheckKeepsBudget(r.store, r.mem, env, r.socks.att[e.ws], e.frame.json, e.now);
    if e.frame.size <= MAX_CONTROL_BYTES {
      ClearedExactly(r, env, e);
    }
  }

  lemma ClearedExactly(r: Room, env: Env, e: Event)
    requires e.Message? && e.ws in r.socks.att && r.socks.att[e.ws].Challenged?
    ensures CheckProof(r.store, r.mem, env, r.socks.att[e.ws], e.frame.json, e.now).Cleared?
            <==> && Credentials(r, env, e)
                 && Bumped(r.mem.admission, e.now, ADMISSION_WINDOW_MS).count <= MAX_ADMISSION_ATTEMPTS
  {
  }

  lemma AdmittedByTakeSlot(socks: Sockets, m: Move, s: int)
    requires s in Moved(socks, m).att && Moved(socks, m).att[s].Admitted?
    requires s in socks.att ==> !socks.att[s].Admitted?
    ensures m.Judge? && m.ws == s && m.verdict.TakeSlot? && s in socks.att
  {
  }

  // ---------------------------------------------------------------- the end

  /** An established room is un-established only by a signature over the deletion
      of this room with a challenge that was live, or after its idle time. */
  lemma OnlyAuthorizedWipe(r: Room, env: Env, e: Event)
    requires Established(r.store) && !Established(Step(r, env, e).store) && env.idleTtlMs > 0
    ensures Step(r, env, e).store == EMPTY && Step(r, env, e).socks.live == []
    ensures e.Delete? || e.Alarm?
    ensures e.Delete? ==>
              && e.challenge.Some? && e.signature.Some? && GoodChallenge(r.store, e.challenge.value, e.now)
              && env.verify(e.signature.value, DeleteTranscript(env.b64(e.challenge.value), env.room, env.origin),
                            r.store.verifier.value)
    ensures e.Alarm? ==> r.store.lastActivity.Some? && e.now >= r.store.lastActivity.value + env.idleTtlMs
  {
    if e.Message? {
      EstablishedThroughMessage(r, env, e);
    }
  }

  lemma EstablishedThroughMessage(r: Room, env: Env, e: Event)
    requires Established(r.store) && e.Message?
    ensures Established(Step(r, env, e).store)
  {
    if e.ws in r.socks.att && r.socks.att[e.ws].Challenged? {
      CheckKeepsBudget(r.store, r.mem, env, r.socks.att[e.ws], e.frame.json, e.now);
    }
  }

  // ------------------------------------------------------- how often one may try

  /** A frame that reaches one of the two rate windows: a spliced frame of an
      admitted socket, or a proof of a challenged one. */
  predicate Tries(r: Room, e: Event, spliced: bool) {
    && e.Message? && e.ws in r.socks.att
    && e.frame.size <= CapOf(r.socks.att[e.ws])
    && if spliced then r.socks.att[e.ws].Admitted? else r.socks.att[e.ws].Challenged?
  }

  function WindowOf(r: Room, spliced: bool): Window {
    if spliced then r.mem.frames else r.mem.admission
  }

  function LimitOf(spliced: bool): nat {
    if spliced then MAX_FRAMES_PER_WINDOW else MAX_ADMISSION_ATTEMPTS
  }

  function LengthOf(spliced: bool): int {
    if spliced then FRAME_WINDOW_MS else ADMISSION_WINDOW_MS
  }

  lemma StepWindow(r: Room, env: Env, e: Event, spliced: bool)
    requires !e.Restarted?
    ensures WindowOf(Step(r, env, e), spliced)
            == if Tries(r, e, spliced) then Bumped(WindowOf(r, spliced), e.now, LengthOf(spliced)) else WindowOf(r, spliced)
  {
    if e.Message? && e.ws in r.socks.att {
      FrameWindows(r, env, e, spliced);
    }
  }

  lemma FrameWindows(r: Room, env: Env, e: Event, spliced: bool)
    requires e.Message? && e.ws in r.socks.att
    ensures var m := OnFrame(r, env, e.ws, e.frame, e.now, e.drawn).mem;
            (if spliced then m.frames else m.admission)
            == if Tries(r, e, spliced) then Bumped(WindowOf(r, spliced), e.now, LengthOf(spliced)) else WindowOf(r, spliced)
  {
  }

  ghost function TryTimes(r: Room, env: Env, events: seq<Event>, spliced: bool): seq<int>
    decreases |events|
  {
    if events == [] then []
    else
      (if Tries(r, events[0], spliced) then [events[0].now] else [])
      + TryTimes(Step(r, env, events[0]), env, events[1..], spliced)
  }

  /** Tries the limiter lets through, within an interval. */
  ghost function LetPass(r: Room, env: Env, events: seq<Event>, spliced: bool, from: int, to: int): nat
    decreases |events|
  {
    if events == [] then 0
    else
      var e := events[0];
      (if Tries(r, e, spliced) && Bumped(WindowOf(r, spliced), e.now, LengthOf(spliced)).count <= LimitOf(spliced)
          && from <= e.now <= to then 1 else 0)
      + LetPass(Step(r, env, e), env, events[1..], spliced, from, to)
  }

  predicate NeverRestarted(events: seq<Event>) {
    forall e :: e in events ==> !e.Restarted?
  }

  lemma {:induction false} PassIsLetThrough(r: Room, env: Env, events: seq<Event>, spliced: bool, from: int, to: int)
    requires NeverRestarted(events)
    ensures LetPass(r, env, events, spliced, from, to)
            == LetThrough(WindowOf(r, spliced), TryTimes(r, env, events, spliced), LimitOf(spliced), LengthOf(spliced), from, to)
    decreases |events|
  {
    if events != [] {
      var e, rest := events[0], events[1..];
      assert e in events;
      StepWindow(r, env, e, spliced);
      PassIsLetThrough(Step(r, env, e), env, rest, spliced, from, to);
      var later := TryTimes(Step(r, env, e), env, rest, spliced);
      if Tries(r, e, spliced) {
        assert ([e.now] + later)[1..] == later;
      } else {
        assert [] + later == later;
      }
    }
  }

  lemma {:induction false} TimesSorted(r: Room, env: Env, events: seq<Event>, spliced: bool, last: int)
    requires ClockRuns(events, last)
    ensures var ts := TryTimes(r, env, events, spliced);
            Sorted(ts) && (ts != [] ==> last <= ts[0])
    decreases |events|
  {
    if events != [] {
      var e := events[0];
      var r1 := Step(r, env, e);
      TimesSorted(r1, env, events[1..], spliced, TimeOf(e, last));
      OneEarlier(last, TimeOf(e, last), TryTimes(r1, env, events[1..], spliced));
    }
  }

  lemma OneEarlier(last: int, t: int, ts: seq<int>)
    requires last <= t && Sorted(ts) && (ts != [] ==> t <= ts[0])
    ensures Sorted([t] + ts) && ([t] + ts)[0] == t && [] + ts == ts
  {
    assert ([t] + ts)[1..] == ts;
  }

  /** On every run of a room that was just loaded: as long as no ten seconds see more
      than forty proofs, none is refused for its rate, and likewise five hundred
      frames a second. */
  lemma CalmTriesPass(r: Room, env: Env, events: seq<Event>, spliced: bool, from: int, to: int)
    requires r.mem == NEW_MEMORY && NeverRestarted(events) && ClockRuns(events, 0)
    requires Calm([], TryTimes(r, env, events, spliced), if spliced then 500 else 40, if spliced then 1000 else 10 * 1000)
    ensures LetPass(r, env, events, spliced, from, to) == CountIn(TryTimes(r, env, events, spliced), from, to)
  {
    PassIsLetThrough(r, env, events, spliced, from, to);
    TimesSorted(r, env, events, spliced, 0);
    CalmHitsPass(WindowOf(r, spliced), [], TryTimes(r, env, events, spliced), LimitOf(spliced), LengthOf(spliced), from, to);
  }

  /** On every run of a live room, any ten seconds see at most eighty proofs
      checked, and any second at most a thousand frames spliced. */
  lemma TriesAreBounded(r: Room, env: Env, events: seq<Event>, spliced: bool, last: int, from: int, to: int)
    requires NeverRestarted(events) && ClockRuns(events, last) && to <= from + if spliced then 1000 else 10 * 1000
    ensures LetPass(r, env, events, spliced, from, to) <= if spliced then 1000 else 80
  {
    PassIsLetThrough(r, env, events, spliced, from, to);
    TimesSorted(r, env, events, spliced, last);
    TwiceTheLimit(WindowOf(r, spliced), TryTimes(r, env, events, spliced), LimitOf(spliced), LengthOf(spliced), from, to);
  }
}
