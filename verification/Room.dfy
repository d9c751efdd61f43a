/** The room: admission, the splice, registration and deletion, one handler to
    completion at a time (src/room.js). Cryptography is given as functions, and
    the random string a handler draws comes with its event. */
module Rooms {
  import opened Wrappers
  import opened ByteArrays
  import opened Canonical
  import opened RoomSockets
  import opened Quotas
  import opened Limits

  // ------------------------------------------------------------------ state

  datatype Attested = Attested(keyId: string, publicKey: string)

  datatype Ticket = Ticket(expiresAt: int, key: Attested)

  datatype Token = Token(expiresAt: int, key: Option<Attested>)

  /** The rows of a room. A row that is missing is None, an empty map, or, for the
      cycle count, 0 (the code reads it with a default of 0). */
  datatype Store = Store(
    verifier: Option<string>,
    registrant: Option<string>,
    cycles: nat,
    lastActivity: Option<int>,
    quota: Option<Quota>,
    tickets: map<string, Ticket>,
    tokens: map<string, Token>,
    challenges: map<string, int>,
    counters: map<string, int>)

  const EMPTY := Store(None, None, 0, None, None, map[], map[], map[], map[])

  /** What only the object in memory holds. */
  datatype Memory = Memory(admission: Window, frames: Window, quota: Option<Quota>, flushed: nat)

  const NEW_MEMORY := Memory(Window(0, 0), Window(0, 0), None, 0)

  datatype Room = Room(socks: Sockets, store: Store, mem: Memory)

  const NEW_ROOM := Room(Sockets([], {}, map[]), EMPTY, NEW_MEMORY)

  /** Settings, and the foreign calls: base64, Ed25519 over a transcript, and the
      two App Attest checks over a challenge. */
  datatype Env = Env(
    attestRequired: bool,
    quotaLimit: int,
    idleTtlMs: int,
    room: seq<byte>,
    origin: seq<byte>,
    b64: string -> seq<byte>,
    verify: (string, seq<byte>, string) -> bool,
    attest: (string, string) -> Option<Attested>,
    assertion: (string, string, string) -> Option<int>)

  /** An empty verifier counts as none. */
  predicate Established(store: Store) {
    store.verifier.Some? && store.verifier.value != ""
  }

  function MeterOf(store: Store, mem: Memory): Meter {
    Meter(mem.quota, mem.flushed, store.quota)
  }

  // ----------------------------------------------------------------- inputs

  /** A text frame parsed as JSON, as far as the handlers look at it. */
  datatype Json =
    | NotJson
    | Object(v: Option<int>, role: Option<Role>, nonDisplacing: bool, sig: Option<string>, ticket: Option<string>)

  datatype Frame = Frame(size: nat, json: Json)

  datatype Event =
    | Connect(ws: int, now: int)
    | Message(ws: int, frame: Frame, now: int, drawn: string)
    | RemoteClose(ws: int)
    | CloseEvent(ws: int)
    | SocketError(ws: int)
    | AskChallenge(now: int, drawn: string)
    | Attest(challenge: Option<string>, obj: Option<string>, now: int, drawn: string)
    | Register(token: Option<string>, verifier: Option<string>, challenge: Option<string>,
               assertion: Option<string>, now: int)
    | Delete(challenge: Option<string>, signature: Option<string>, now: int)
    | Alarm(now: int)
    | DrainEvict
    | Restarted

  const MAX_FRAME_BYTES: nat := 256 * 1024
  const MAX_CONTROL_BYTES: nat := 8 * 1024
  const FRAME_WINDOW_MS := 1000
  const MAX_FRAMES_PER_WINDOW: nat := 500
  const ADMISSION_WINDOW_MS := 10 * 1000
  const MAX_ADMISSION_ATTEMPTS: nat := 40
  const MAX_PAIRING_CYCLES: nat := 8
  const REG_TOKEN_TTL_MS := 5 * 60 * 1000
  const ATTEST_CHALLENGE_TTL_MS := 5 * 60 * 1000
  const TICKET_TTL_MS := 5 * 60 * 1000
  const MAX_OUTSTANDING_CHALLENGES: nat := 16

  // -------------------------------------------------------------- admission

  /** A frame's effect: what becomes of the sockets, the rows and the memory. */
  datatype Outcome = Outcome(verdict: Verdict, store: Store, mem: Memory)

  /** Whether a proof may go on to take a slot, and with which attested key. */
  datatype Checked = Refused(store: Store, mem: Memory) | Cleared(store: Store, mem: Memory, key: Option<Attested>)

  function CheckSigned(store: Store, mem: Memory, env: Env, att: Att, sig: Option<string>, now: int): Checked
    requires att.Challenged? && Established(store)
  {
    if sig.None? then Refused(store, mem)
    else
      var transcript := JoinTranscript(att.role, env.b64(att.nonce), env.room, env.origin);
      if !env.verify(sig.value, transcript, store.verifier.value) then Refused(store, mem)
      else Cleared(store.(lastActivity := Some(now)), mem, None)
  }

  function CheckTicket(store: Store, mem: Memory, ticket: Option<string>, now: int): Checked {
    if ticket.None? || ticket.value !in store.tickets || store.tickets[ticket.value].expiresAt < now then
      Refused(store, mem)
    else
      Cleared(store.(tickets := store.tickets - {ticket.value}), mem, Some(store.tickets[ticket.value].key))
  }

  function CheckProof(store: Store, mem: Memory, env: Env, att: Att, json: Json, now: int): Checked
    requires att.Challenged?
  {
    var m1 := mem.(admission := Bumped(mem.admission, now, ADMISSION_WINDOW_MS));
    if m1.admission.count > MAX_ADMISSION_ATTEMPTS || json.NotJson? then Refused(store, m1)
    else if Established(store) then CheckSigned(store, m1, env, att, json.sig, now)
    else if env.attestRequired && att.role == Phone then CheckTicket(store, m1, json.ticket, now)
    else Cleared(store, m1, None)
  }

  /** Displace whoever holds the slot, or yield to them if the join asked to. A
      phone gets a registration token that carries its attested key. */
  ghost function Seat(socks: Sockets, store: Store, mem: Memory, ws: int, att: Att, key: Option<Attested>,
                      now: int, token: string): Outcome
    requires att.Challenged?
  {
    if att.nonDisplacing && HeldByOther(socks, att.role, ws) then Outcome(Drop, store, mem)
    else if att.role == Mac then Outcome(TakeSlot(Mac), store, mem)
    else
      Outcome(TakeSlot(Phone), store.(tokens := store.tokens[token := Token(now + REG_TOKEN_TTL_MS, key)]), mem)
  }

  /** Take the slot, unless the mac is away, the cycle budget is spent, or the
      join yields to whoever holds the slot. */
  ghost function Admit(socks: Sockets, store: Store, mem: Memory, ws: int, att: Att, key: Option<Attested>,
                       now: int, token: string): Outcome
    requires att.Challenged?
  {
    if att.role == Mac then
      Seat(socks, if Established(store) then store else store.(cycles := 0), mem, ws, att, key, now, token)
    else if !HeldByOther(socks, Mac, ws) then Outcome(Drop, store, mem)
    else if Established(store) then Seat(socks, store, mem, ws, att, key, now, token)
    else if store.cycles + 1 > MAX_PAIRING_CYCLES then Outcome(CloseAll, EMPTY, mem)
    else Seat(socks, store.(cycles := store.cycles + 1), mem, ws, att, key, now, token)
  }

  ghost function OnProof(r: Room, env: Env, ws: int, att: Att, json: Json, now: int, token: string): Outcome
    requires att.Challenged?
  {
    match CheckProof(r.store, r.mem, env, att, json, now)
    case Refused(store, mem) => Outcome(Drop, store, mem)
    case Cleared(store, mem, key) => Admit(r.socks, store, mem, ws, att, key, now, token)
  }

  function OnHello(r: Room, json: Json, nonce: string): Outcome {
    if json.NotJson? || json.v != Some(1) || json.role.None? then Outcome(Drop, r.store, r.mem)
    else Outcome(Challenge(json.role.value, nonce, json.nonDisplacing), r.store, r.mem)
  }

  function OnSplice(r: Room, env: Env, size: nat, now: int): Outcome {
    var m1 := r.mem.(frames := Bumped(r.mem.frames, now, FRAME_WINDOW_MS));
    if m1.frames.count > MAX_FRAMES_PER_WINDOW then Outcome(DropBoth, r.store, m1)
    else
      var q := Charged(MeterOf(r.store, m1), now, size, env.quotaLimit);
      Outcome(if Over(q, env.quotaLimit) then CloseAll else Pass,
              r.store.(quota := q.stored), m1.(quota := q.inMemory, flushed := q.flushed))
  }

  function CapOf(att: Att): nat {
    if att.Admitted? then MAX_FRAME_BYTES else MAX_CONTROL_BYTES
  }

  ghost function OnFrame(r: Room, env: Env, ws: int, f: Frame, now: int, drawn: string): Outcome
    requires ws in r.socks.att
  {
    var att := r.socks.att[ws];
    if f.size > CapOf(att) then Outcome(DropBoth, r.store, r.mem)
    else
      match att
      case Hello(_) => OnHello(r, f.json, drawn)
      case Challenged(_, _, _, _) => OnProof(r, env, ws, att, f.json, now, drawn)
      case Admitted(_, _) => OnSplice(r, env, f.size, now)
  }

  // -------------------------------------------------------------- http calls

  datatype Reply = Reply(status: int, issued: Option<string>)

  /** The rows after a call, and the answer. */
  datatype Answer = Answer(store: Store, reply: Reply)

  function LiveChallenges(challenges: map<string, int>, now: int): map<string, int> {
    map c | c in challenges && !(challenges[c] < now) :: challenges[c]
  }

  function OnAskChallenge(store: Store, now: int, drawn: string): Answer {
    var left := LiveChallenges(store.challenges, now);
    if |left| >= MAX_OUTSTANDING_CHALLENGES then Answer(store.(challenges := left), Reply(429, None))
    else Answer(store.(challenges := left[drawn := now + ATTEST_CHALLENGE_TTL_MS]), Reply(200, Some(drawn)))
  }

  predicate GoodChallenge(store: Store, challenge: string, now: int) {
    challenge in store.challenges && !(store.challenges[challenge] < now)
  }

  function Used(store: Store, challenge: string): Store {
    store.(challenges := store.challenges - {challenge})
  }

  function OnAttest(store: Store, env: Env, challenge: Option<string>, obj: Option<string>, now: int,
                    drawn: string): Answer
  {
    if !env.attestRequired || challenge.None? || obj.None? then Answer(store, Reply(400, None))
    else if !GoodChallenge(store, challenge.value, now) then Answer(store, Reply(403, None))
    else
      var s1 := Used(store, challenge.value);
      match env.attest(obj.value, challenge.value)
      case None => Answer(s1, Reply(403, None))
      case Some(key) =>
        Answer(s1.(tickets := s1.tickets[drawn := Ticket(now + TICKET_TTL_MS, key)]), Reply(200, Some(drawn)))
  }

  function Registered(store: Store, token: string, verifier: string, now: int): Store {
    store.(tokens := store.tokens - {token}, verifier := Some(verifier), lastActivity := Some(now))
  }

  /** The assertion that attestation asks of a registration, given its token's key. */
  function OnAssertion(store: Store, env: Env, key: Attested, token: string, verifier: string, challenge: Option<string>,
                       assertion: Option<string>, now: int): Answer
  {
    if key.keyId == "" || key.publicKey == "" || challenge.None? || assertion.None? then Answer(store, Reply(403, None))
    else if !GoodChallenge(store, challenge.value, now) then Answer(store, Reply(403, None))
    else
      var s1 := Used(store, challenge.value);
      match env.assertion(assertion.value, challenge.value, key.publicKey)
      case None => Answer(s1, Reply(403, None))
      case Some(counter) =>
        if key.keyId in s1.counters && counter <= s1.counters[key.keyId] then Answer(s1, Reply(403, None))
        else
          var s2 := s1.(counters := s1.counters[key.keyId := counter], registrant := Some(key.keyId));
          Answer(Registered(s2, token, verifier, now), Reply(200, None))
  }

  function OnRegister(store: Store, env: Env, token: Option<string>, verifier: Option<string>,
                      challenge: Option<string>, assertion: Option<string>, now: int): Answer
  {
    if verifier.None? then Answer(store, Reply(400, None))
    else if Established(store) || token.None? then Answer(store, Reply(403, None))
    else if token.value !in store.tokens || store.tokens[token.value].expiresAt < now then Answer(store, Reply(403, None))
    else if !env.attestRequired then Answer(Registered(store, token.value, verifier.value, now), Reply(200, None))
    else
      match store.tokens[token.value].key
      case None => Answer(store, Reply(403, None))
      case Some(key) => OnAssertion(store, env, key, token.value, verifier.value, challenge, assertion, now)
  }

  /** An authorized deletion leaves no row. */
  function OnDelete(store: Store, env: Env, challenge: Option<string>, signature: Option<string>, now: int): Answer {
    if !Established(store) || challenge.None? || signature.None? then Answer(store, Reply(403, None))
    else if !GoodChallenge(store, challenge.value, now) then Answer(store, Reply(403, None))
    else
      var transcript := DeleteTranscript(env.b64(challenge.value), env.room, env.origin);
      if env.verify(signature.value, transcript, store.verifier.value) then Answer(EMPTY, Reply(200, None))
      else Answer(Used(store, challenge.value), Reply(403, None))
  }

  // ------------------------------------------------------------------ alarm

  function Pruned(store: Store, now: int): Store {
    store.(tickets := map t | t in store.tickets && !(store.tickets[t].expiresAt < now) :: store.tickets[t],
           tokens := map t | t in store.tokens && !(store.tokens[t].expiresAt < now) :: store.tokens[t],
           challenges := LiveChallenges(store.challenges, now))
  }

  /** A missing timestamp starts the idle window now. */
  function LastActivity(store: Store, now: int): int {
    if store.lastActivity.Some? then store.lastActivity.value else now
  }

  predicate Reaps(store: Store, env: Env, now: int) {
    Established(store) && now >= LastActivity(store, now) + env.idleTtlMs
  }

  function OnAlarm(store: Store, env: Env, now: int): Store {
    var s1 := Pruned(store, now);
    if !Established(s1) then s1
    else if Reaps(s1, env, now) then EMPTY
    else s1.(lastActivity := Some(LastActivity(s1, now)))
  }

  // ------------------------------------------------------------------- steps

  ghost function MoveOf(r: Room, env: Env, e: Event): Move {
    match e
    case Connect(ws, now) => Join(ws, now)
    case Message(ws, f, now, drawn) =>
      if ws in r.socks.att then Judge(ws, OnFrame(r, env, ws, f, now, drawn).verdict) else Still
    case RemoteClose(ws) => CloseFrame(ws)
    case CloseEvent(ws) => Closed(ws)
    case SocketError(ws) => Failed(ws)
    case Delete(c, sig, now) => if OnDelete(r.store, env, c, sig, now).reply.status == 200 then Clear else Still
    case Alarm(now) => if Reaps(Pruned(r.store, now), env, now) then Clear else Sweep(now)
    case DrainEvict => Clear
    case Restarted => Restart
    case _ => Still
  }

  ghost function StoreAfter(r: Room, env: Env, e: Event): Store {
    match e
    case Message(ws, f, now, drawn) =>
      if ws in r.socks.att then OnFrame(r, env, ws, f, now, drawn).store else r.store
    case AskChallenge(now, drawn) => OnAskChallenge(r.store, now, drawn).store
    case Attest(c, o, now, drawn) => OnAttest(r.store, env, c, o, now, drawn).store
    case Register(t, v, c, a, now) => OnRegister(r.store, env, t, v, c, a, now).store
    case Delete(c, sig, now) => OnDelete(r.store, env, c, sig, now).store
    case Alarm(now) => OnAlarm(r.store, env, now)
    case _ => r.store
  }

  ghost function MemAfter(r: Room, env: Env, e: Event): Memory {
    match e
    case Message(ws, f, now, drawn) => if ws in r.socks.att then OnFrame(r, env, ws, f, now, drawn).mem else r.mem
    case Restarted => NEW_MEMORY
    case _ => r.mem
  }

  ghost function Step(r: Room, env: Env, e: Event): Room {
    Room(Moved(r.socks, MoveOf(r, env, e)), StoreAfter(r, env, e), MemAfter(r, env, e))
  }

  /** A socket connects once. */
  predicate Legal(r: Room, e: Event) {
    e.Connect? ==> e.ws !in r.socks.att
  }
}
