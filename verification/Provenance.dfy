/** Where a stored verifier came from, under attestation: a log of what the room
    issued, accepted and consumed since its rows were last wiped (src/room.js,
    handleAttestChallenge, handleAttest, handleProof, admit, handleRegister). */
module Provenance {
  import opened Wrappers
  import opened Canonical
  import opened RoomSockets
  import opened Rooms
  import opened RoomProofs
  import opened RoomCaps

  /** One thing that happened in the life of a room. */
  datatype Entry =
    | Issued(challenge: string)
    | Proved(challenge: string, obj: string, key: Attested, ticket: string)  // attestation verified
    | Spent(challenge: string)                                             // consumed, nothing came of it
    | Redeemed(ticket: string, key: Attested)
    | Minted(token: string, ticket: string, key: Attested)
    | MintedPlain(token: string)
    | Pinned(token: string, challenge: string, assertion: string, counter: int, key: Attested, verifier: string)

  type Log = seq<Entry>

  // ------------------------------------------------------------- vocabulary

  predicate Uses(x: Entry, c: string) {
    (x.Proved? || x.Spent? || x.Pinned?) && x.challenge == c
  }

  ghost predicate UsedIn(log: Log, c: string) {
    exists x :: x in log && Uses(x, c)
  }

  ghost predicate ProvedIn(log: Log, ticket: string, key: Attested) {
    exists x :: x in log && x.Proved? && x.ticket == ticket && x.key == key
  }

  ghost predicate TicketIn(log: Log, ticket: string) {
    exists x :: x in log && x.Proved? && x.ticket == ticket
  }

  ghost predicate RedeemedIn(log: Log, ticket: string) {
    exists x :: x in log && x.Redeemed? && x.ticket == ticket
  }

  ghost predicate MintedIn(log: Log, token: string, key: Attested) {
    exists x :: x in log && x.Minted? && x.token == token && x.key == key
  }

  ghost predicate TokenIn(log: Log, token: string) {
    exists x :: x in log && (x.Minted? || x.MintedPlain?) && x.token == token
  }

  ghost predicate PinnedIn(log: Log, token: string) {
    exists x :: x in log && x.Pinned? && x.token == token
  }

  /** A verifier that counts was registered. */
  ghost predicate SealedIn(log: Log) {
    exists x :: x in log && x.Pinned? && x.verifier != ""
  }

  /** What must have happened before an entry. */
  ghost predicate Justified(log: Log, x: Entry, env: Env) {
    match x
    case Issued(c) => Issued(c) !in log
    case Proved(c, obj, key, t) =>
      Issued(c) in log && !UsedIn(log, c) && env.attest(obj, c) == Some(key) && !TicketIn(log, t)
    case Spent(c) => Issued(c) in log && !UsedIn(log, c)
    case Redeemed(t, key) => ProvedIn(log, t, key) && !RedeemedIn(log, t)
    case Minted(token, t, key) => log != [] && log[|log| - 1] == Redeemed(t, key) && !TokenIn(log, token)
    case MintedPlain(token) => !TokenIn(log, token)
    case Pinned(token, c, a, n, key, v) =>
      && MintedIn(log, token, key) && !PinnedIn(log, token)
      && Issued(c) in log && !UsedIn(log, c) && env.assertion(a, c, key.publicKey) == Some(n)
      && !SealedIn(log)
      && forall x :: x in log && x.Pinned? && x.key.keyId == key.keyId ==> x.counter < n
  }

  ghost predicate Sound(log: Log, env: Env) {
    log == [] || (Sound(log[..|log| - 1], env) && Justified(log[..|log| - 1], log[|log| - 1], env))
  }

  lemma Extend(log: Log, x: Entry, env: Env)
    requires Sound(log, env) && Justified(log, x, env)
    ensures Sound(log + [x], env)
  {
  }

  // ------------------------------------------------------ the rows and the log

  ghost predicate ChallengesLogged(challenges: map<string, int>, log: Log) {
    forall c :: c in challenges ==> Issued(c) in log && !UsedIn(log, c)
  }

  ghost predicate TicketsLogged(tickets: map<string, Ticket>, log: Log) {
    forall t :: t in tickets ==> ProvedIn(log, t, tickets[t].key) && !RedeemedIn(log, t)
  }

  ghost predicate TokensLogged(tokens: map<string, Token>, log: Log) {
    forall t :: t in tokens ==>
      !PinnedIn(log, t) && (tokens[t].key.Some? ==> MintedIn(log, t, tokens[t].key.value))
  }

  ghost predicate PinnedAs(log: Log, verifier: string, keyId: string) {
    exists x :: x in log && x.Pinned? && x.verifier == verifier && x.key.keyId == keyId
  }

  ghost predicate VerifierLogged(store: Store, log: Log) {
    if Established(store) then
      store.registrant.Some? && PinnedAs(log, store.verifier.value, store.registrant.value)
    else !SealedIn(log)
  }

  ghost predicate CountersLogged(counters: map<string, int>, log: Log) {
    forall x :: x in log && x.Pinned? ==> x.key.keyId in counters && x.counter <= counters[x.key.keyId]
  }

  ghost predicate Logged(store: Store, log: Log) {
    && ChallengesLogged(store.challenges, log)
    && TicketsLogged(store.tickets, log)
    && TokensLogged(store.tokens, log)
    && VerifierLogged(store, log)
    && CountersLogged(store.counters, log)
  }

  // -------------------------------------------------------------- the record

  function AttestEntries(store: Store, env: Env, c: Option<string>, o: Option<string>, now: int, drawn: string): Log {
    if !env.attestRequired || c.None? || o.None? || !GoodChallenge(store, c.value, now) then []
    else
      match env.attest(o.value, c.value)
      case None => [Spent(c.value)]
      case Some(key) => [Proved(c.value, o.value, key, drawn)]
  }

  function AssertionEntries(store: Store, env: Env, key: Attested, token: string, verifier: string, c: Option<string>,
                            a: Option<string>, now: int): Log
  {
    if key.keyId == "" || key.publicKey == "" || c.None? || a.None? || !GoodChallenge(store, c.value, now) then []
    else
      match env.assertion(a.value, c.value, key.publicKey)
      case None => [Spent(c.value)]
      case Some(n) =>
        if key.keyId in store.counters && n <= store.counters[key.keyId] then [Spent(c.value)]
        else [Pinned(token, c.value, a.value, n, key, verifier)]
  }

  function RegisterEntries(store: Store, env: Env, t: Option<string>, v: Option<string>, c: Option<string>,
                           a: Option<string>, now: int): Log
  {
    if v.None? || Established(store) || t.None? || t.value !in store.tokens || store.tokens[t.value].expiresAt < now
       || store.tokens[t.value].key.None?
    then []
    else AssertionEntries(store, env, store.tokens[t.value].key.value, t.value, v.value, c, a, now)
  }

  function DeleteEntries(store: Store, c: Option<string>, s: Option<string>, now: int): Log {
    if !Established(store) || c.None? || s.None? || !GoodChallenge(store, c.value, now) then [] else [Spent(c.value)]
  }

  ghost function ProofEntries(r: Room, env: Env, e: Event): Log
    requires Reaches(r, env, e)
  {
    var att := r.socks.att[e.ws];
    var spent := !Established(r.store) && env.attestRequired && att.role == Phone;
    var admitted := MoveOf(r, env, e) == Judge(e.ws, TakeSlot(Phone));
    if spent && e.frame.json.Object? && e.frame.json.ticket.Some? && e.frame.json.ticket.value in r.store.tickets then
      var t := e.frame.json.ticket.value;
      var key := r.store.tickets[t].key;
      [Redeemed(t, key)] + if admitted then [Minted(e.drawn, t, key)] else []
    else if admitted then [MintedPlain(e.drawn)]
    else []
  }

  /** What an event adds to the log. */
  ghost function Entries(r: Room, env: Env, e: Event): Log
    requires env.attestRequired
  {
    match e
    case AskChallenge(now, drawn) =>
      if OnAskChallenge(r.store, now, drawn).reply.status == 200 then [Issued(drawn)] else []
    case Attest(c, o, now, drawn) => AttestEntries(r.store, env, c, o, now, drawn)
    case Register(t, v, c, a, now) => RegisterEntries(r.store, env, t, v, c, a, now)
    case Delete(c, s, now) => DeleteEntries(r.store, c, s, now)
    case Message(_, _, _, _) => if Reaches(r, env, e) then ProofEntries(r, env, e) else []
    case _ => []
  }

  /** The log of the current life: wiping the rows ends it. */
  ghost function LogAfter(r: Room, env: Env, e: Event, log: Log): Log
    requires env.attestRequired
  {
    if Wipes(r, env, e) then [] else log + Entries(r, env, e)
  }

  /** The string an event draws has not been drawn before in this life. */
  ghost predicate Fresh(log: Log, e: Event) {
    (e.AskChallenge? || e.Attest? || e.Message?) ==>
      Issued(e.drawn) !in log && !TicketIn(log, e.drawn) && !TokenIn(log, e.drawn)
  }

  // --------------------------------------------- what a sound log rules out

  lemma {:induction false} UsedMeansIssued(log: Log, c: string, env: Env)
    requires Sound(log, env)
    ensures UsedIn(log, c) ==> Issued(c) in log
  {
    if UsedIn(log, c) {
      var front, last := log[..|log| - 1], log[|log| - 1];
      assert forall x :: x in log <==> x in front || x == last;
      if !(Uses(last, c)) {
        assert UsedIn(front, c);
        UsedMeansIssued(front, c, env);
      }
    }
  }

  lemma {:induction false} RedeemedMeansProved(log: Log, t: string, env: Env)
    requires Sound(log, env)
    ensures RedeemedIn(log, t) ==> TicketIn(log, t)
  {
    if RedeemedIn(log, t) {
      var front, last := log[..|log| - 1], log[|log| - 1];
      assert forall x :: x in log <==> x in front || x == last;
      if !(last.Redeemed? && last.ticket == t) {
        assert RedeemedIn(front, t);
        RedeemedMeansProved(front, t, env);
      }
    }
  }

  lemma {:induction false} PinnedMeansMinted(log: Log, token: string, env: Env)
    requires Sound(log, env)
    ensures PinnedIn(log, token) ==> TokenIn(log, token)
  {
    if PinnedIn(log, token) {
      var front, last := log[..|log| - 1], log[|log| - 1];
      assert forall x :: x in log <==> x in front || x == last;
      if !(last.Pinned? && last.token == token) {
        assert PinnedIn(front, token);
        PinnedMeansMinted(front, token, env);
      }
    }
  }

  // ------------------------------------------------------------ one entry more

  lemma LogIssued(store: Store, log: Log, c: string, expiry: int, env: Env)
    requires Sound(log, env) && Logged(store, log) && Issued(c) !in log
    ensures Sound(log + [Issued(c)], env)
    ensures Logged(store.(challenges := store.challenges[c := expiry]), log + [Issued(c)])
  {
    Extend(log, Issued(c), env);
    UsedMeansIssued(log, c, env);
  }

  lemma LogSpent(store: Store, log: Log, c: string, env: Env)
    requires Sound(log, env) && Logged(store, log) && c in store.challenges
    ensures Sound(log + [Spent(c)], env) && Logged(Used(store, c), log + [Spent(c)])
  {
  }

  lemma LogProved(store: Store, log: Log, c: string, obj: string, key: Attested, t: string, expiry: int, env: Env)
    requires Sound(log, env) && Logged(store, log) && c in store.challenges
    requires env.attest(obj, c) == Some(key) && !TicketIn(log, t)
    ensures var log1, s1 := log + [Proved(c, obj, key, t)], Used(store, c);
            Sound(log1, env) && Logged(s1.(tickets := s1.tickets[t := Ticket(expiry, key)]), log1)
  {
    var x := Proved(c, obj, key, t);
    Extend(log, x, env);
    RedeemedMeansProved(log, t, env);
    assert x in log + [x];
  }

  lemma LogRedeemed(store: Store, log: Log, t: string, env: Env)
    requires Sound(log, env) && Logged(store, log) && t in store.tickets
    ensures var log1 := log + [Redeemed(t, store.tickets[t].key)];
            Sound(log1, env) && Logged(store.(tickets := store.tickets - {t}), log1)
  {
  }

  /** A minted token takes nothing back. */
  lemma MintKeepsRows(store: Store, log: Log, x: Entry)
    requires Logged(store, log) && (x.Minted? || x.MintedPlain?)
    ensures Logged(store, log + [x])
  {
  }

  lemma NewToken(store: Store, log: Log, token: string, t: Token)
    requires Logged(store, log) && !PinnedIn(log, token) && (t.key.Some? ==> MintedIn(log, token, t.key.value))
    ensures Logged(store.(tokens := store.tokens[token := t]), log)
  {
  }

  lemma LogMintedPlain(store: Store, log: Log, x: Entry, expiry: int, env: Env)
    requires Sound(log, env) && Logged(store, log) && x.MintedPlain? && !TokenIn(log, x.token)
    ensures Sound(log + [x], env)
    ensures Logged(store.(tokens := store.tokens[x.token := Token(expiry, None)]), log + [x])
  {
    Extend(log, x, env);
    PinnedMeansMinted(log, x.token, env);
    MintKeepsRows(store, log, x);
    NewToken(store, log + [x], x.token, Token(expiry, None));
  }

  lemma LogMinted(store: Store, log: Log, x: Entry, expiry: int, env: Env)
    requires Sound(log, env) && Logged(store, log) && x.Minted? && !TokenIn(log, x.token)
    requires log != [] && log[|log| - 1] == Redeemed(x.ticket, x.key)
    ensures Sound(log + [x], env)
    ensures Logged(store.(tokens := store.tokens[x.token := Token(expiry, Some(x.key))]), log + [x])
  {
    Extend(log, x, env);
    PinnedMeansMinted(log, x.token, env);
    MintKeepsRows(store, log, x);
    assert x in log + [x];
    NewToken(store, log + [x], x.token, Token(expiry, Some(x.key)));
  }

  lemma LogPinned(store: Store, log: Log, x: Entry, now: int, env: Env)
    requires Sound(log, env) && Logged(store, log) && !Established(store)
    requires x.Pinned? && x.token in store.tokens && store.tokens[x.token].key == Some(x.key)
    requires x.challenge in store.challenges
    requires env.assertion(x.assertion, x.challenge, x.key.publicKey) == Some(x.counter)
    requires x.key.keyId in store.counters ==> store.counters[x.key.keyId] < x.counter
    ensures var s1 := Used(store, x.challenge);
            var s2 := s1.(counters := s1.counters[x.key.keyId := x.counter], registrant := Some(x.key.keyId));
            Sound(log + [x], env) && Logged(Registered(s2, x.token, x.verifier, now), log + [x])
  {
    Extend(log, x, env);
    assert x in log + [x];
  }

  lemma PrunedLogged(store: Store, log: Log, now: int)
    requires Logged(store, log)
    ensures Logged(Pruned(store, now), log)
  {
  }

  // --------------------------------------------------------------- one event

  /** The log justifies itself and accounts for the rows. */
  ghost predicate Accounted(store: Store, log: Log, env: Env) {
    Sound(log, env) && Logged(store, log)
  }

  lemma AskKeeps(store: Store, log: Log, env: Env, now: int, drawn: string)
    requires Accounted(store, log, env) && Issued(drawn) !in log
    ensures var a := OnAskChallenge(store, now, drawn);
            Accounted(a.store, log + (if a.reply.status == 200 then [Issued(drawn)] else []), env)
  {
    var left := store.(challenges := LiveChallenges(store.challenges, now));
    assert Logged(left, log);
    LogIssued(left, log, drawn, now + ATTEST_CHALLENGE_TTL_MS, env);
    assert log + [] == log;
  }

  lemma AttestKeeps(store: Store, log: Log, env: Env, c: Option<string>, o: Option<string>, now: int, drawn: string)
    requires Accounted(store, log, env) && !TicketIn(log, drawn)
    ensures Accounted(OnAttest(store, env, c, o, now, drawn).store, log + AttestEntries(store, env, c, o, now, drawn), env)
  {
    assert log + [] == log;
    if env.attestRequired && c.Some? && o.Some? && GoodChallenge(store, c.value, now) {
      match env.attest(o.value, c.value)
      case None => LogSpent(store, log, c.value, env);
      case Some(key) => LogProved(store, log, c.value, o.value, key, drawn, now + TICKET_TTL_MS, env);
    }
  }

  lemma AssertionKeeps(store: Store, log: Log, env: Env, key: Attested, token: string, verifier: string,
                       c: Option<string>, a: Option<string>, now: int)
    requires Accounted(store, log, env) && !Established(store)
    requires token in store.tokens && store.tokens[token].key == Some(key)
    ensures Accounted(OnAssertion(store, env, key, token, verifier, c, a, now).store,
                      log + AssertionEntries(store, env, key, token, verifier, c, a, now), env)
  {
    assert log + [] == log;
    if key.keyId != "" && key.publicKey != "" && c.Some? && a.Some? && GoodChallenge(store, c.value, now) {
      match env.assertion(a.value, c.value, key.publicKey)
      case None => LogSpent(store, log, c.value, env);
      case Some(n) =>
        if key.keyId in store.counters && n <= store.counters[key.keyId] {
          LogSpent(store, log, c.value, env);
        } else {
          LogPinned(store, log, Pinned(token, c.value, a.value, n, key, verifier), now, env);
        }
    }
  }

  lemma RegisterKeeps(store: Store, log: Log, env: Env, t: Option<string>, v: Option<string>, c: Option<string>,
                      a: Option<string>, now: int)
    requires Accounted(store, log, env) && env.attestRequired
    ensures Accounted(OnRegister(store, env, t, v, c, a, now).store,
                      log + RegisterEntries(store, env, t, v, c, a, now), env)
  {
    assert log + [] == log;
    if v.Some? && !Established(store) && t.Some? && t.value in store.tokens && store.tokens[t.value].expiresAt >= now
       && store.tokens[t.value].key.Some?
    {
      AssertionKeeps(store, log, env, store.tokens[t.value].key.value, t.value, v.value, c, a, now);
    }
  }

  lemma DeleteKeeps(store: Store, log: Log, env: Env, c: Option<string>, s: Option<string>, now: int)
    requires Accounted(store, log, env) && OnDelete(store, env, c, s, now).reply.status != 200
    ensures Accounted(OnDelete(store, env, c, s, now).store, log + DeleteEntries(store, c, s, now), env)
  {
    assert log + [] == log;
    if Established(store) && c.Some? && s.Some? && GoodChallenge(store, c.value, now) {
      LogSpent(store, log, c.value, env);
    }
  }

  /** The rows the log speaks of are the same. */
  predicate SameRows(a: Store, b: Store) {
    && a.challenges == b.challenges && a.tickets == b.tickets && a.tokens == b.tokens
    && a.verifier == b.verifier && a.registrant == b.registrant && a.counters == b.counters
  }

  lemma OtherRows(a: Store, b: Store, log: Log, env: Env)
    requires Accounted(a, log, env) && SameRows(a, b)
    ensures Accounted(b, log, env)
  {
  }

  lemma EmptyLogged(env: Env)
    ensures Accounted(EMPTY, [], env)
  {
  }

  function WithToken(store: Store, token: string, t: Token): Store {
    store.(tokens := store.tokens[token := t])
  }

  predicate AdmissionRows(store: Store, o: Outcome, token: string, t: Token) {
    if o.verdict == TakeSlot(Phone) then SameRows(o.store, WithToken(store, token, t))
    else o.verdict.CloseAll? || SameRows(o.store, store)
  }

  lemma SeatRows(socks: Sockets, store: Store, s1: Store, mem: Memory, ws: int, att: Att, key: Option<Attested>,
                 now: int, token: string)
    requires att.Challenged? && SameRows(s1, store)
    ensures AdmissionRows(store, Seat(socks, s1, mem, ws, att, key, now, token), token,
                          Token(now + REG_TOKEN_TTL_MS, key))
  {
  }

  /** Of the rows the log speaks of, admission touches only the new token. */
  lemma AdmitRows(socks: Sockets, store: Store, mem: Memory, ws: int, att: Att, key: Option<Attested>, now: int,
                  token: string)
    requires att.Challenged?
    ensures AdmissionRows(store, Admit(socks, store, mem, ws, att, key, now, token), token,
                          Token(now + REG_TOKEN_TTL_MS, key))
  {
    SeatRows(socks, store, store, mem, ws, att, key, now, token);
    SeatRows(socks, store, store.(cycles := 0), mem, ws, att, key, now, token);
    SeatRows(socks, store, store.(cycles := store.cycles + 1), mem, ws, att, key, now, token);
  }

  /** The entry of a token minted with `key`. */
  ghost predicate MintEntry(log: Log, x: Entry, token: string, key: Option<Attested>) {
    match key
    case None => x == MintedPlain(token)
    case Some(k) =>
      x.Minted? && x.token == token && x.key == k && log != [] && log[|log| - 1] == Redeemed(x.ticket, k)
  }

  lemma MintKeeps(store: Store, log: Log, token: string, t: Token, x: Entry, env: Env)
    requires Accounted(store, log, env) && !TokenIn(log, token) && MintEntry(log, x, token, t.key)
    ensures Accounted(WithToken(store, token, t), log + [x], env)
  {
    if t.key.None? {
      LogMintedPlain(store, log, x, t.expiresAt, env);
    } else {
      LogMinted(store, log, x, t.expiresAt, env);
    }
  }

  lemma AdmitKeeps(store: Store, after: Store, log: Log, minted: bool, token: string, t: Token, x: Entry, env: Env)
    requires Accounted(store, log, env) && !TokenIn(log, token) && MintEntry(log, x, token, t.key)
    requires SameRows(after, if minted then WithToken(store, token, t) else store)
    ensures Accounted(after, if minted then log + [x] else log, env)
  {
    if minted {
      MintKeeps(store, log, token, t, x, env);
      OtherRows(WithToken(store, token, t), after, log + [x], env);
    } else {
      OtherRows(store, after, log, env);
    }
  }

  /** The ticket a cleared proof spends, if it spends one. */
  predicate SpendsTicket(r: Room, env: Env, e: Event)
    requires Reaches(r, env, e)
  {
    !Established(r.store) && env.attestRequired && r.socks.att[e.ws].role == Phone
  }

  lemma ReachesOutcome(r: Room, env: Env, e: Event)
    requires Reaches(r, env, e)
    ensures var att := r.socks.att[e.ws];
            var c := CheckProof(r.store, r.mem, env, att, e.frame.json, e.now);
            var o := Admit(r.socks, c.store, c.mem, e.ws, att, c.key, e.now, e.drawn);
            && MoveOf(r, env, e) == Judge(e.ws, o.verdict) && StoreAfter(r, env, e) == o.store
            && (o.verdict.CloseAll? ==> OverCap(r, env, e))
  {
  }

  lemma TicketProofKeeps(r: Room, env: Env, e: Event, log: Log)
    requires Accounted(r.store, log, env) && Fresh(log, e) && !Wipes(r, env, e)
    requires Reaches(r, env, e) && SpendsTicket(r, env, e)
    ensures Accounted(StoreAfter(r, env, e), log + ProofEntries(r, env, e), env)
  {
    var att := r.socks.att[e.ws];
    var c := CheckProof(r.store, r.mem, env, att, e.frame.json, e.now);
    var t := e.frame.json.ticket.value;
    var key := r.store.tickets[t].key;
    assert c.key == Some(key) && c.store == r.store.(tickets := r.store.tickets - {t});
    var log1, x := log + [Redeemed(t, key)], Minted(e.drawn, t, key);
    LogRedeemed(r.store, log, t, env);
    assert !TokenIn(log1, e.drawn);
    AdmitRows(r.socks, c.store, c.mem, e.ws, att, c.key, e.now, e.drawn);
    ReachesOutcome(r, env, e);
    AdmitKeeps(c.store, StoreAfter(r, env, e), log1, MoveOf(r, env, e) == Judge(e.ws, TakeSlot(Phone)), e.drawn,
               Token(e.now + REG_TOKEN_TTL_MS, c.key), x, env);
    assert log1 + [x] == log + ([Redeemed(t, key)] + [x]);
    assert log1 == log + ([Redeemed(t, key)] + []);
  }

  lemma PlainProofKeeps(r: Room, env: Env, e: Event, log: Log)
    requires Accounted(r.store, log, env) && Fresh(log, e) && !Wipes(r, env, e)
    requires Reaches(r, env, e) && !SpendsTicket(r, env, e)
    ensures Accounted(StoreAfter(r, env, e), log + ProofEntries(r, env, e), env)
  {
    var att := r.socks.att[e.ws];
    var c := CheckProof(r.store, r.mem, env, att, e.frame.json, e.now);
    assert c.key == None;
    OtherRows(r.store, c.store, log, env);
    AdmitRows(r.socks, c.store, c.mem, e.ws, att, c.key, e.now, e.drawn);
    ReachesOutcome(r, env, e);
    AdmitKeeps(c.store, StoreAfter(r, env, e), log, MoveOf(r, env, e) == Judge(e.ws, TakeSlot(Phone)), e.drawn,
               Token(e.now + REG_TOKEN_TTL_MS, c.key), MintedPlain(e.drawn), env);
    assert log + [] == log;
  }

  lemma OtherMessage(r: Room, env: Env, e: Event)
    requires e.Message? && !Reaches(r, env, e)
    ensures StoreAfter(r, env, e) == r.store.(quota := StoreAfter(r, env, e).quota)
  {
  }

  lemma MessageKeeps(r: Room, env: Env, e: Event, log: Log)
    requires e.Message? && Accounted(r.store, log, env) && Fresh(log, e) && !Wipes(r, env, e)
    ensures Accounted(StoreAfter(r, env, e), log + (if Reaches(r, env, e) then ProofEntries(r, env, e) else []), env)
  {
    assert log + [] == log;
    if !Reaches(r, env, e) {
      OtherMessage(r, env, e);
      OtherRows(r.store, StoreAfter(r, env, e), log, env);
    } else if SpendsTicket(r, env, e) {
      TicketProofKeeps(r, env, e, log);
    } else {
      PlainProofKeeps(r, env, e, log);
    }
  }

  lemma AlarmKeeps(store: Store, log: Log, env: Env, now: int)
    requires Accounted(store, log, env) && !Reaps(store, env, now)
    ensures Accounted(OnAlarm(store, env, now), log, env)
  {
    PrunedLogged(store, log, now);
    OtherRows(Pruned(store, now), OnAlarm(store, env, now), log, env);
  }

  /** One event later, the log still justifies itself and accounts for the rows. */
  lemma StepKeeps(r: Room, env: Env, e: Event, log: Log)
    requires env.attestRequired && Accounted(r.store, log, env) && Fresh(log, e)
    ensures Accounted(StoreAfter(r, env, e), LogAfter(r, env, e, log), env)
  {
    assert log + [] == log;
    if Wipes(r, env, e) {
      WipedStore(r, env, e);
    } else {
      match e
      case AskChallenge(now, drawn) => AskKeeps(r.store, log, env, now, drawn);
      case Attest(c, o, now, drawn) => AttestKeeps(r.store, log, env, c, o, now, drawn);
      case Register(t, v, c, a, now) => RegisterKeeps(r.store, log, env, t, v, c, a, now);
      case Delete(c, s, now) => DeleteKeeps(r.store, log, env, c, s, now);
      case Alarm(now) =>
        AlarmKeeps(r.store, log, env, now);
      case Message(_, _, _, _) =>
        MessageKeeps(r, env, e, log);
      case _ =>
    }
  }

  lemma WipedStore(r: Room, env: Env, e: Event)
    requires Wipes(r, env, e)
    ensures StoreAfter(r, env, e) == EMPTY
  {
  }

  // ----------------------------------------------------------- what it proves

  lemma {:induction false} JustifiedAt(log: Log, m: nat, env: Env)
    requires Sound(log, env) && m < |log|
    ensures Justified(log[..m], log[m], env)
  {
    var n := |log| - 1;
    if m < n {
      JustifiedAt(log[..n], m, env);
      assert log[..n][..m] == log[..m];
    }
  }

  lemma IndexOf(log: Log, n: nat, x: Entry) returns (k: nat)
    requires n <= |log| && x in log[..n]
    ensures k < n && log[k] == x
  {
    k :| 0 <= k < n && log[..n][k] == x;
  }

  /** Behind every token that carries a key. */
  lemma TokenProvenance(log: Log, env: Env, m: nat, token: string, key: Attested) returns (h: nat, i: nat, j: nat)
    requires Sound(log, env) && m <= |log| && MintedIn(log[..m], token, key)
    ensures h < i < j && j + 1 < m
    ensures log[i].Proved? && log[i].key == key && log[h] == Issued(log[i].challenge)
    ensures env.attest(log[i].obj, log[i].challenge) == Some(key)
    ensures log[j] == Redeemed(log[i].ticket, key) && log[j + 1] == Minted(token, log[i].ticket, key)
  {
    var y :| y in log[..m] && y.Minted? && y.token == token && y.key == key;
    var k := IndexOf(log, m, y);
    JustifiedAt(log, k, env);
    j := k - 1;
    assert log[..k][j] == log[j];
    JustifiedAt(log, j, env);
    var z :| z in log[..j] && z.Proved? && z.ticket == y.ticket && z.key == key;
    i := IndexOf(log, j, z);
    JustifiedAt(log, i, env);
    h := IndexOf(log, i, Issued(z.challenge));
  }

  /** Behind every verifier in force: a challenge issued here (h), an attestation
      of K over it that minted a ticket (i), the redemption of that ticket (j), the
      registration token minted there and then, carrying K (j + 1), another
      challenge issued here (g), and a registration (m) with that token and an
      assertion under K over that challenge; and K is the pinned registrant. */
  lemma VerifierProvenance(store: Store, log: Log, env: Env) returns (h: nat, g: nat, i: nat, j: nat, m: nat)
    requires Accounted(store, log, env) && Established(store)
    ensures h < i < j && j + 1 < m < |log| && g < m
    ensures log[m].Pinned? && log[m].verifier == store.verifier.value
    ensures store.registrant == Some(log[m].key.keyId)
    ensures log[i].Proved? && log[i].key == log[m].key && log[h] == Issued(log[i].challenge)
    ensures env.attest(log[i].obj, log[i].challenge) == Some(log[m].key)
    ensures log[j] == Redeemed(log[i].ticket, log[m].key)
    ensures log[j + 1] == Minted(log[m].token, log[i].ticket, log[m].key)
    ensures log[g] == Issued(log[m].challenge) && log[m].challenge != log[i].challenge
    ensures env.assertion(log[m].assertion, log[m].challenge, log[m].key.publicKey) == Some(log[m].counter)
  {
    var x :| x in log && x.Pinned? && x.verifier == store.verifier.value && x.key.keyId == store.registrant.value;
    assert log[..|log|] == log;
    m := IndexOf(log, |log|, x);
    JustifiedAt(log, m, env);
    g := IndexOf(log, m, Issued(x.challenge));
    h, i, j := TokenProvenance(log, env, m, x.token, x.key);
    assert log[i] in log[..m];
  }

  /** A challenge is consumed once, a ticket redeemed once, a token used once. */
  lemma ConsumedOnce(log: Log, env: Env, i: nat, j: nat)
    requires Sound(log, env) && i < j < |log|
    ensures forall c :: !(Uses(log[i], c) && Uses(log[j], c))
    ensures log[i].Redeemed? && log[j].Redeemed? ==> log[i].ticket != log[j].ticket
    ensures log[i].Pinned? && log[j].Pinned? ==> log[i].token != log[j].token
    ensures log[i].Pinned? && log[j].Pinned? && log[i].key.keyId == log[j].key.keyId ==> log[i].counter < log[j].counter
  {
  }

  /** Until the rows are wiped, a verifier in force never changes. */
  lemma VerifierIsKept(r: Room, env: Env, e: Event)
    requires Established(r.store) && !Wipes(r, env, e)
    ensures StoreAfter(r, env, e).verifier == r.store.verifier
  {
    if e.Message? {
      if Reaches(r, env, e) {
        ReachesOutcome(r, env, e);
      } else {
        OtherMessage(r, env, e);
      }
    }
  }

  // --------------------------------------------------------------- whole runs

  ghost function LogOf(r: Room, env: Env, events: seq<Event>, log: Log): Log
    requires env.attestRequired
    decreases |events|
  {
    if events == [] then log
    else LogOf(Step(r, env, events[0]), env, events[1..], LogAfter(r, env, events[0], log))
  }

  ghost predicate FreshRun(r: Room, env: Env, events: seq<Event>, log: Log)
    requires env.attestRequired
    decreases |events|
  {
    events == []
    || (Fresh(log, events[0])
        && FreshRun(Step(r, env, events[0]), env, events[1..], LogAfter(r, env, events[0], log)))
  }

  lemma {:induction false} RunKeeps(r: Room, env: Env, events: seq<Event>, log: Log)
    requires env.attestRequired && Accounted(r.store, log, env) && FreshRun(r, env, events, log)
    ensures Accounted(Ran(r, env, events).store, LogOf(r, env, events, log), env)
    decreases |events|
  {
    if events != [] {
      StepKeeps(r, env, events[0], log);
      RunKeeps(Step(r, env, events[0]), env, events[1..], LogAfter(r, env, events[0], log));
    }
  }

  /** From a new room, on every run: the log of the current life is sound, so each
      secret in it is consumed at most once, and it accounts for every row; a
      verifier in force is in it. */
  lemma EveryRunIsAccounted(env: Env, events: seq<Event>)
    requires env.attestRequired && FreshRun(NEW_ROOM, env, events, [])
    ensures Accounted(Ran(NEW_ROOM, env, events).store, LogOf(NEW_ROOM, env, events, []), env)
  {
    EmptyLogged(env);
    RunKeeps(NEW_ROOM, env, events, []);
  }

  ghost predicate NeverWiped(r: Room, env: Env, events: seq<Event>)
    decreases |events|
  {
    events == [] || (!Wipes(r, env, events[0]) && NeverWiped(Step(r, env, events[0]), env, events[1..]))
  }

  /** With or without attestation, nothing but a wipe replaces a verifier. */
  lemma {:induction false} VerifierIsFinal(r: Room, env: Env, events: seq<Event>)
    requires Established(r.store) && NeverWiped(r, env, events)
    ensures Ran(r, env, events).store.verifier == r.store.verifier
    decreases |events|
  {
    if events != [] {
      VerifierIsKept(r, env, events[0]);
      VerifierIsFinal(Step(r, env, events[0]), env, events[1..]);
    }
  }
}
