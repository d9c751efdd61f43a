/** Registration with every await a point where anything else may run (src/room.js,
    handleRegister; host/storage.js). A storage call acts at once and yields
    afterwards; what a delete found is not looked at. */
module Registrations {
  import opened Wrappers
  import opened Rooms

  /** What a register call asks for, once its fields are known to be there. */
  datatype Claim = Claim(token: string, verifier: string)

  /** Where a call waits, and what it carries across the wait. */
  datatype Pc =
    | ReadVerifier(token: Option<string>, verifier: string, challenge: Option<string>, assertion: Option<string>,
                   established: bool)
    | ReadToken(claim: Claim, challenge: Option<string>, assertion: Option<string>, row: Option<Token>)
    | ReadChallenge(claim: Claim, key: Attested, nonce: string, proof: string, expiresAt: Option<int>)
    | UsedChallenge(claim: Claim, key: Attested, nonce: string, proof: string)
    | ReadCounter(claim: Claim, key: Attested, counter: int, last: Option<int>)
    | PutCounter(claim: Claim, key: Attested)
    | PutRegistrant(claim: Claim)
    | DeletedToken(claim: Claim)
    | PutVerifier
    | Done(status: int)

  /** A random name: of a token, or of a challenge. */
  datatype Secret = TokenName(name: string) | ChallengeName(name: string)

  /** The rows, the calls that have come in, and the names drawn so far. */
  datatype World = World(store: Store, pc: map<int, Pc>, issued: set<Secret>)

  datatype Action =
    | Begin(h: int, token: Option<string>, verifier: Option<string>, challenge: Option<string>, assertion: Option<string>)
    | Resume(h: int, now: int)                   // a call goes on after an await
    | AddToken(name: string, row: Token)         // a phone was admitted
    | AddChallenge(name: string, expiresAt: int)
    | RemoveToken(name: string)                  // pruned
    | RemoveChallenge(name: string)              // pruned, or used by another endpoint
    | Wipe                                       // deletion, cap or idle reap

  function At(w: World, h: int, pc: Pc): World {
    w.(pc := w.pc[h := pc])
  }

  function Put(w: World, store: Store, h: int, pc: Pc): World {
    At(w.(store := store), h, pc)
  }

  /** The verifier was read: is there one, and is there a token? */
  function AfterVerifier(w: World, h: int, pc: Pc): World
    requires pc.ReadVerifier?
  {
    if pc.established || pc.token.None? then At(w, h, Done(403))
    else
      var t := pc.token.value;
      At(w, h, ReadToken(Claim(t, pc.verifier), pc.challenge, pc.assertion, Lookup(w.store.tokens, t)))
  }

  predicate Alive(row: Option<Token>, now: int) {
    row.Some? && !(row.value.expiresAt < now)
  }

  predicate Fresh(expiresAt: Option<int>, now: int) {
    expiresAt.Some? && !(expiresAt.value < now)
  }

  function WithoutToken(w: World, h: int, claim: Claim): World {
    Put(w, w.store.(tokens := w.store.tokens - {claim.token}), h, DeletedToken(claim))
  }

  function AfterToken(w: World, env: Env, h: int, pc: Pc, now: int): World
    requires pc.ReadToken?
  {
    if !Alive(pc.row, now) then At(w, h, Done(403))
    else if !env.attestRequired then WithoutToken(w, h, pc.claim)
    else
      match pc.row.value.key
      case None => At(w, h, Done(403))
      case Some(key) =>
        if key.keyId == "" || key.publicKey == "" || pc.challenge.None? || pc.assertion.None? then At(w, h, Done(403))
        else
          var c := pc.challenge.value;
          At(w, h, ReadChallenge(pc.claim, key, c, pc.assertion.value, Lookup(w.store.challenges, c)))
  }

  function AfterChallenge(w: World, h: int, pc: Pc, now: int): World
    requires pc.ReadChallenge?
  {
    if !Fresh(pc.expiresAt, now) then At(w, h, Done(403))
    else Put(w, Used(w.store, pc.nonce), h, UsedChallenge(pc.claim, pc.key, pc.nonce, pc.proof))
  }

  /** The digest and the check of the assertion are awaited; neither touches a row. */
  function AfterAssertion(w: World, env: Env, h: int, pc: Pc): World
    requires pc.UsedChallenge?
  {
    match env.assertion(pc.proof, pc.nonce, pc.key.publicKey)
    case None => At(w, h, Done(403))
    case Some(counter) => At(w, h, ReadCounter(pc.claim, pc.key, counter, Lookup(w.store.counters, pc.key.keyId)))
  }

  /** The assertion's counter is above the one that was read. */
  predicate Rises(pc: Pc)
    requires pc.ReadCounter?
  {
    pc.last.None? || pc.counter > pc.last.value
  }

  function AfterCounter(w: World, h: int, pc: Pc): World
    requires pc.ReadCounter?
  {
    if !Rises(pc) then At(w, h, Done(403))
    else Put(w, w.store.(counters := w.store.counters[pc.key.keyId := pc.counter]), h, PutCounter(pc.claim, pc.key))
  }

  function Resumed(w: World, env: Env, h: int, now: int): World
    requires h in w.pc
  {
    var pc := w.pc[h];
    match pc
    case ReadVerifier(_, _, _, _, _) => AfterVerifier(w, h, pc)
    case ReadToken(_, _, _, _) => AfterToken(w, env, h, pc, now)
    case ReadChallenge(_, _, _, _, _) => AfterChallenge(w, h, pc, now)
    case UsedChallenge(_, _, _, _) => AfterAssertion(w, env, h, pc)
    case ReadCounter(_, _, _, _) => AfterCounter(w, h, pc)
    case PutCounter(claim, key) => Put(w, w.store.(registrant := Some(key.keyId)), h, PutRegistrant(claim))
    case PutRegistrant(claim) => WithoutToken(w, h, claim)
    case DeletedToken(claim) => Put(w, w.store.(verifier := Some(claim.verifier)), h, PutVerifier)
    case PutVerifier => Put(w, w.store.(lastActivity := Some(now)), h, Done(200))
    case Done(_) => w
  }

  /** A call comes in; its body is looked at before the first await. */
  function Begun(w: World, a: Action): World
    requires a.Begin?
  {
    if a.verifier.None? then At(w, a.h, Done(400))
    else At(w, a.h, ReadVerifier(a.token, a.verifier.value, a.challenge, a.assertion, Established(w.store)))
  }

  function Do(w: World, env: Env, a: Action): World {
    match a
    case Begin(h, _, _, _, _) => if h in w.pc then w else Begun(w, a)
    case Resume(h, now) => if h in w.pc then Resumed(w, env, h, now) else w
    case AddToken(t, token) =>
      if TokenName(t) in w.issued then w
      else World(w.store.(tokens := w.store.tokens[t := token]), w.pc, w.issued + {TokenName(t)})
    case AddChallenge(c, expiresAt) =>
      if ChallengeName(c) in w.issued then w
      else World(w.store.(challenges := w.store.challenges[c := expiresAt]), w.pc, w.issued + {ChallengeName(c)})
    case RemoveToken(t) => w.(store := w.store.(tokens := w.store.tokens - {t}))
    case RemoveChallenge(c) => w.(store := Used(w.store, c))
    case Wipe => w.(store := EMPTY)
  }

  function Ran(w: World, env: Env, actions: seq<Action>): World
    decreases |actions|
  {
    if actions == [] then w else Ran(Do(w, env, actions[0]), env, actions[1..])
  }

  // --------------------------------------- a call that is not interrupted

  /** The call goes on `n` times, and nothing else happens. */
  function Uninterrupted(w: World, env: Env, h: int, now: int, n: nat): World
    requires h in w.pc
    decreases n
  {
    if n == 0 then w else Uninterrupted(Resumed(w, env, h, now), env, h, now, n - 1)
  }

  /** The call is answered, and leaves these rows. */
  predicate Answers(w: World, env: Env, h: int, now: int, n: nat, answer: Answer)
    requires h in w.pc
  {
    var w1 := Uninterrupted(w, env, h, now, n);
    w1.store == answer.store && w1.pc == w.pc[h := Done(answer.reply.status)]
  }

  lemma {:induction false} DoneStays(w: World, env: Env, h: int, now: int, n: nat)
    requires h in w.pc && w.pc[h].Done?
    ensures Uninterrupted(w, env, h, now, n) == w && w.pc[h := w.pc[h]] == w.pc
    decreases n
  {
    if n > 0 {
      DoneStays(w, env, h, now, n - 1);
    }
  }

  /** One stretch of the call, and then the rest of it. */
  lemma AnswersLater(w: World, env: Env, h: int, now: int, n: nat, answer: Answer)
    requires h in w.pc && n >= 1 && Answers(Resumed(w, env, h, now), env, h, now, n - 1, answer)
    ensures Answers(w, env, h, now, n, answer)
  {
    var w1 := Resumed(w, env, h, now);
    assert w1.pc[h := Done(answer.reply.status)] == w.pc[h := Done(answer.reply.status)];
  }

  /** From the delete of the token on. */
  lemma TokenSpent(w: World, env: Env, h: int, claim: Claim, now: int, n: nat)
    requires h in w.pc && n >= 2 && w.pc[h] == DeletedToken(claim)
    ensures Answers(w, env, h, now, n,
                    Answer(w.store.(verifier := Some(claim.verifier), lastActivity := Some(now)), Reply(200, None)))
  {
    var w2 := Resumed(Resumed(w, env, h, now), env, h, now);
    DoneStays(w2, env, h, now, n - 2);
  }

  /** From the read of the counter on. */
  lemma CounterRead(w: World, env: Env, h: int, now: int, n: nat)
    requires h in w.pc && n >= 5 && w.pc[h].ReadCounter? && w.pc[h].last == Lookup(w.store.counters, w.pc[h].key.keyId)
    ensures var pc, key, s := w.pc[h], w.pc[h].key, w.store;
            Answers(w, env, h, now, n,
                    if key.keyId in s.counters && pc.counter <= s.counters[key.keyId] then Answer(s, Reply(403, None))
                    else
                      Answer(Registered(s.(counters := s.counters[key.keyId := pc.counter], registrant := Some(key.keyId)),
                                        pc.claim.token, pc.claim.verifier, now), Reply(200, None)))
  {
    var pc := w.pc[h];
    var w1 := Resumed(w, env, h, now);
    if !Rises(pc) {
      DoneStays(w1, env, h, now, n - 1);
    } else {
      var w2 := Resumed(w1, env, h, now);
      var w3 := Resumed(w2, env, h, now);
      assert w3.pc[h] == DeletedToken(pc.claim);
      TokenSpent(w3, env, h, pc.claim, now, n - 3);
      var s3 := w3.store.(verifier := Some(pc.claim.verifier), lastActivity := Some(now));
      AnswersLater(w2, env, h, now, n - 2, Answer(s3, Reply(200, None)));
      AnswersLater(w1, env, h, now, n - 1, Answer(s3, Reply(200, None)));
      AnswersLater(w, env, h, now, n, Answer(s3, Reply(200, None)));
    }
  }

  /** From the read of the challenge on. */
  lemma ChallengeRead(w: World, env: Env, h: int, now: int, n: nat)
    requires h in w.pc && n >= 7 && w.pc[h].ReadChallenge? && w.pc[h].key.keyId != "" && w.pc[h].key.publicKey != ""
    requires w.pc[h].expiresAt == Lookup(w.store.challenges, w.pc[h].nonce)
    ensures var pc := w.pc[h];
            Answers(w, env, h, now, n,
                    OnAssertion(w.store, env, pc.key, pc.claim.token, pc.claim.verifier, Some(pc.nonce), Some(pc.proof), now))
  {
    var pc := w.pc[h];
    var w1 := Resumed(w, env, h, now);
    if !Fresh(pc.expiresAt, now) {
      DoneStays(w1, env, h, now, n - 1);
    } else {
      var w2 := Resumed(w1, env, h, now);
      if w2.pc[h].Done? {
        DoneStays(w2, env, h, now, n - 2);
      } else {
        CounterRead(w2, env, h, now, n - 2);
        var answer := OnAssertion(w.store, env, pc.key, pc.claim.token, pc.claim.verifier, Some(pc.nonce), Some(pc.proof), now);
        AnswersLater(w1, env, h, now, n - 1, answer);
        AnswersLater(w, env, h, now, n, answer);
      }
    }
  }

  /** From the read of the token on. */
  lemma TokenRead(w: World, env: Env, h: int, now: int, n: nat)
    requires h in w.pc && n >= 8 && w.pc[h].ReadToken? && !Established(w.store)
    requires w.pc[h].row == Lookup(w.store.tokens, w.pc[h].claim.token)
    ensures var pc := w.pc[h];
            Answers(w, env, h, now, n,
                    OnRegister(w.store, env, Some(pc.claim.token), Some(pc.claim.verifier), pc.challenge, pc.assertion, now))
  {
    var pc := w.pc[h];
    var w1 := Resumed(w, env, h, now);
    if w1.pc[h].Done? {
      DoneStays(w1, env, h, now, n - 1);
    } else if !env.attestRequired {
      TokenSpent(w1, env, h, pc.claim, now, n - 1);
      AnswersLater(w, env, h, now, n, Answer(Registered(w.store, pc.claim.token, pc.claim.verifier, now), Reply(200, None)));
    } else {
      var key, nonce, proof := pc.row.value.key.value, pc.challenge.value, pc.assertion.value;
      ChallengeRead(w1, env, h, now, n - 1);
      var answer := OnAssertion(w.store, env, key, pc.claim.token, pc.claim.verifier, Some(nonce), Some(proof), now);
      assert w1.store == w.store && Some(nonce) == pc.challenge && Some(proof) == pc.assertion;
      assert answer == OnRegister(w.store, env, Some(pc.claim.token), Some(pc.claim.verifier), pc.challenge, pc.assertion, now);
      AnswersLater(w, env, h, now, n, answer);
    }
  }

  /** A register call that nothing interrupts does what the one-handler model says. */
  lemma UninterruptedRegister(w: World, env: Env, a: Action, now: int)
    requires a.Begin? && a.h !in w.pc
    ensures var w1 := Do(w, env, a);
            Answers(w1, env, a.h, now, 9,
                    OnRegister(w.store, env, a.token, a.verifier, a.challenge, a.assertion, now))
  {
    var w1 := Do(w, env, a);
    if a.verifier.None? {
      DoneStays(w1, env, a.h, now, 9);
    } else {
      var w2 := Resumed(w1, env, a.h, now);
      if w2.pc[a.h].Done? {
        DoneStays(w2, env, a.h, now, 8);
      } else {
        TokenRead(w2, env, a.h, now, 8);
        AnswersLater(w1, env, a.h, now, 9,
                     OnRegister(w.store, env, a.token, a.verifier, a.challenge, a.assertion, now));
      }
    }
  }
}
