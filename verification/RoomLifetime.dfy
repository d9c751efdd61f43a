/** How long an established room lives (src/room.js: bumpActivity, alarm): a room in
    use is kept, an idle one is reaped. */
module RoomLifetimes {
  import opened Wrappers
  import opened Canonical
  import opened RoomSockets
  import opened Limits
  import opened Rooms
  import opened RoomProofs
  import opened RoomCaps

  // --------------------------------------------------------------- activity

  /** A join signed with the room's key, on a socket that was challenged, within the
      limits. */
  predicate SignsIn(r: Room, env: Env, e: Event) {
    && Established(r.store) && e.Message? && e.ws in r.socks.att && r.socks.att[e.ws].Challenged?
    && e.frame.size <= MAX_CONTROL_BYTES && e.frame.json.Object? && e.frame.json.sig.Some?
    && Bumped(r.mem.admission, e.now, ADMISSION_WINDOW_MS).count <= MAX_ADMISSION_ATTEMPTS
    && env.verify(e.frame.json.sig.value,
                  JoinTranscript(r.socks.att[e.ws].role, env.b64(r.socks.att[e.ws].nonce), env.room, env.origin),
                  r.store.verifier.value)
  }

  /** A verifier is registered. */
  predicate Registers(r: Room, env: Env, e: Event) {
    && e.Register? && e.verifier.Some? && e.verifier.value != ""
    && OnRegister(r.store, env, e.token, e.verifier, e.challenge, e.assertion, e.now).reply.status == 200
  }

  predicate Activity(r: Room, env: Env, e: Event) {
    SignsIn(r, env, e) || Registers(r, env, e)
  }

  /** Established, and last active at `t`. */
  predicate ActiveAt(store: Store, t: int) {
    Established(store) && store.lastActivity == Some(t)
  }

  lemma SignInCounts(r: Room, env: Env, e: Event)
    requires SignsIn(r, env, e)
    ensures ActiveAt(Step(r, env, e).store, e.now)
  {
    var att := r.socks.att[e.ws];
    var c := CheckProof(r.store, r.mem, env, att, e.frame.json, e.now);
    assert c.Cleared? && ActiveAt(c.store, e.now);
    assert OnFrame(r, env, e.ws, e.frame, e.now, e.drawn)
           == Admit(r.socks, c.store, c.mem, e.ws, att, c.key, e.now, e.drawn);
  }

  lemma RegisterCounts(r: Room, env: Env, e: Event)
    requires Registers(r, env, e)
    ensures ActiveAt(Step(r, env, e).store, e.now)
  {
  }

  lemma ActivityCounts(r: Room, env: Env, e: Event)
    requires Activity(r, env, e)
    ensures ActiveAt(Step(r, env, e).store, TimeOf(e, 0))
  {
    if SignsIn(r, env, e) {
      SignInCounts(r, env, e);
    } else {
      RegisterCounts(r, env, e);
    }
  }

  lemma OtherMessages(r: Room, env: Env, e: Event)
    requires Established(r.store) && e.Message? && !SignsIn(r, env, e)
    ensures Step(r, env, e).store.verifier == r.store.verifier
    ensures Step(r, env, e).store.lastActivity == r.store.lastActivity
  {
    if e.ws in r.socks.att && r.socks.att[e.ws].Challenged? && e.frame.size <= MAX_CONTROL_BYTES {
      assert !CheckProof(r.store, r.mem, env, r.socks.att[e.ws], e.frame.json, e.now).Cleared?;
    }
  }

  /** Before its idle time is over, whatever comes but activity and a signed deletion. */
  lemma OtherEventsKeep(r: Room, env: Env, e: Event, t: int)
    requires ActiveAt(r.store, t) && !Activity(r, env, e) && !SignedDelete(r, env, e)
    requires e.Alarm? ==> e.now < t + env.idleTtlMs
    ensures ActiveAt(Step(r, env, e).store, t)
  {
    if e.Message? {
      OtherMessages(r, env, e);
    }
  }

  // ------------------------------------------------------- kept while in use

  ghost predicate NeverDeleted(r: Room, env: Env, events: seq<Event>)
    decreases |events|
  {
    events == [] || (!SignedDelete(r, env, events[0]) && NeverDeleted(Step(r, env, events[0]), env, events[1..]))
  }

  lemma {:induction false} LaterTimes(events: seq<Event>, last: int)
    requires ClockRuns(events, last)
    ensures last <= LastTime(events, last)
  {
    if events != [] {
      LaterTimes(events[1..], TimeOf(events[0], last));
    }
  }

  lemma {:induction false} StaysActive(r: Room, env: Env, events: seq<Event>, t: int, last: int)
    requires ActiveAt(r.store, t) && t <= last && ClockRuns(events, last) && NeverDeleted(r, env, events)
    requires LastTime(events, last) < t + env.idleTtlMs
    ensures Established(Ran(r, env, events).store)
    decreases |events|
  {
    if events != [] {
      var e := events[0];
      LaterTimes(events[1..], TimeOf(e, last));
      if SignsIn(r, env, e) {
        SignInCounts(r, env, e);
        StaysActive(Step(r, env, e), env, events[1..], e.now, e.now);
      } else {
        OtherEventsKeep(r, env, e, t);
        StaysActive(Step(r, env, e), env, events[1..], t, TimeOf(e, last));
      }
    }
  }

  /** A room in use is never reaped: after a signed join or a registration, on every
      run whose clock does not go back, the room is established in every state that
      is less than the idle time later, unless it is deleted by signature. */
  lemma RoomInUseIsKept(r: Room, env: Env, e: Event, events: seq<Event>)
    requires Activity(r, env, e) && ClockRuns(events, TimeOf(e, 0)) && NeverDeleted(Step(r, env, e), env, events)
    requires LastTime(events, TimeOf(e, 0)) < TimeOf(e, 0) + env.idleTtlMs
    ensures Established(Ran(Step(r, env, e), env, events).store)
  {
    ActivityCounts(r, env, e);
    StaysActive(Step(r, env, e), env, events, TimeOf(e, 0), TimeOf(e, 0));
  }

  // -------------------------------------------------------- reaped when idle

  /** No activity, no signed deletion, and no alarm at `until` or later. */
  ghost predicate Idle(r: Room, env: Env, events: seq<Event>, until: int)
    decreases |events|
  {
    events == []
    || (&& !Activity(r, env, events[0]) && !SignedDelete(r, env, events[0])
        && (events[0].Alarm? ==> events[0].now < until)
        && Idle(Step(r, env, events[0]), env, events[1..], until))
  }

  lemma {:induction false} StaysIdle(r: Room, env: Env, events: seq<Event>, t: int)
    requires ActiveAt(r.store, t) && Idle(r, env, events, t + env.idleTtlMs)
    ensures ActiveAt(Ran(r, env, events).store, t)
    decreases |events|
  {
    if events != [] {
      OtherEventsKeep(r, env, events[0], t);
      StaysIdle(Step(r, env, events[0]), env, events[1..], t);
    }
  }

  lemma AlarmReaps(r: Room, env: Env, now: int, t: int)
    requires ActiveAt(r.store, t)
    ensures var after := Step(r, env, Alarm(now));
            if now >= t + env.idleTtlMs then after.socks.live == [] && after.store == EMPTY else Established(after.store)
  {
  }

  /** After the last activity, the first alarm at the idle deadline or later
      leaves no socket and no row, whatever came in between; one before it does not
      un-establish the room. */
  lemma IdleRoomIsReaped(r: Room, env: Env, e: Event, events: seq<Event>, now: int)
    requires Activity(r, env, e) && Idle(Step(r, env, e), env, events, TimeOf(e, 0) + env.idleTtlMs)
    ensures var after := Step(Ran(Step(r, env, e), env, events), env, Alarm(now));
            if now >= TimeOf(e, 0) + env.idleTtlMs then after.socks.live == [] && after.store == EMPTY
            else Established(after.store)
  {
    ActivityCounts(r, env, e);
    StaysIdle(Step(r, env, e), env, events, TimeOf(e, 0));
    AlarmReaps(Ran(Step(r, env, e), env, events), env, now, TimeOf(e, 0));
  }

  /** A room that has no timestamp starts its idle time at the alarm. */
  lemma AlarmStartsIdleTime(r: Room, env: Env, now: int)
    requires Established(r.store) && r.store.lastActivity == None && env.idleTtlMs > 0
    ensures ActiveAt(Step(r, env, Alarm(now)).store, now)
  {
  }
}
