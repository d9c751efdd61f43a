/** The http calls of a room: exactly when each succeeds, and that what it hands out
    is honoured for as long as it promises (src/room.js: handleAttestChallenge,
    handleAttest, handleRegister, handleDelete). */
module RoomCalls {
  import opened Wrappers
  import opened Canonical
  import opened RoomSockets
  import opened Rooms
  import opened RoomProofs

  /** The challenges that have not expired. */
  function Unexpired(store: Store, now: int): set<string> {
    set c | c in store.challenges && store.challenges[c] >= now
  }

  /** A challenge is handed out while fewer than sixteen are unexpired, and is good for
      five minutes; expired ones are dropped in any case, and no other row changes. */
  lemma ChallengeIsHonoured(store: Store, now: int, drawn: string, later: int)
    ensures var a := OnAskChallenge(store, now, drawn);
            && (if |Unexpired(store, now)| < 16 then a.reply == Reply(200, Some(drawn)) else a.reply == Reply(429, None))
            && a.store == store.(challenges := a.store.challenges)
            && (forall c :: c in a.store.challenges && a.reply.issued != Some(c) <==> c in Unexpired(store, now) && a.reply.issued != Some(c))
            && (a.reply.issued.Some? ==> (GoodChallenge(a.store, a.reply.issued.value, later) <==> later <= now + 5 * 60 * 1000))
  {
    assert LiveChallenges(store.challenges, now).Keys == Unexpired(store, now);
    SizeOfKeys(LiveChallenges(store.challenges, now));
  }

  lemma SizeOfKeys(m: map<string, int>)
    ensures |m| == |m.Keys|
  {
  }

  predicate UsableChallenge(store: Store, challenge: Option<string>, now: int) {
    challenge.Some? && challenge.value in store.challenges && store.challenges[challenge.value] >= now
  }

  /** An attestation succeeds exactly when attestation is required and the object holds
      up over an unexpired challenge, which is used up either way. Its ticket then lets a phone's proof through
      for five minutes, with the attested key. */
  lemma TicketIsHonoured(store: Store, mem: Memory, env: Env, challenge: Option<string>, obj: Option<string>, now: int,
                         drawn: string, later: int)
    ensures var a := OnAttest(store, env, challenge, obj, now, drawn);
            && (a.reply.status == 200
                <==> && env.attestRequired && obj.Some? && UsableChallenge(store, challenge, now)
                     && env.attest(obj.value, challenge.value).Some?)
            && (a.reply.status == 200 ==>
                  && a.reply.issued == Some(drawn)
                  && (CheckTicket(a.store, mem, a.reply.issued, later).Cleared? <==> later <= now + 5 * 60 * 1000)
                  && (later <= now + 5 * 60 * 1000 ==>
                        CheckTicket(a.store, mem, a.reply.issued, later).key == env.attest(obj.value, challenge.value)))
            && (a.reply.status != 200 ==> a.reply.issued == None && a.store == store.(challenges := a.store.challenges))
            && a.store.challenges == if env.attestRequired && obj.Some? && UsableChallenge(store, challenge, now)
                                     then store.challenges - {challenge.value} else store.challenges
  {
  }

  /** The attested key a registration must show again, with a rising counter. */
  predicate Asserted(store: Store, env: Env, key: Option<Attested>, challenge: Option<string>, assertion: Option<string>, now: int) {
    && key.Some? && key.value.keyId != "" && key.value.publicKey != ""
    && assertion.Some? && UsableChallenge(store, challenge, now)
    && var counter := env.assertion(assertion.value, challenge.value, key.value.publicKey);
       counter.Some? && (key.value.keyId in store.counters ==> store.counters[key.value.keyId] < counter.value)
  }

  /** A registration succeeds exactly when the room has no verifier, the token is
      unexpired, and under attestation its key is asserted anew. It then leaves the
      verifier, the time and, under attestation, the key as the room's; and the token
      is gone. */
  lemma RegisterExactly(store: Store, env: Env, token: Option<string>, verifier: Option<string>, challenge: Option<string>,
                        assertion: Option<string>, now: int)
    ensures var a := OnRegister(store, env, token, verifier, challenge, assertion, now);
            && (a.reply.status == 200
                <==> && verifier.Some? && !(store.verifier.Some? && store.verifier.value != "")
                     && token.Some? && token.value in store.tokens && store.tokens[token.value].expiresAt >= now
                     && (env.attestRequired ==> Asserted(store, env, store.tokens[token.value].key, challenge, assertion, now)))
            && (a.reply.status == 200 ==>
                  && a.store.verifier == verifier && a.store.lastActivity == Some(now)
                  && a.store.tokens == store.tokens - {token.value}
                  && (env.attestRequired ==>
                        var key := store.tokens[token.value].key.value;
                        a.store.registrant == Some(key.keyId) && key.keyId in a.store.counters
                        && Some(a.store.counters[key.keyId]) == env.assertion(assertion.value, challenge.value, key.publicKey)))
            && (a.reply.status != 200 ==> a.store == store.(challenges := a.store.challenges))
            && (a.reply.status == 200 && env.attestRequired ==> a.store.challenges == store.challenges - {challenge.value})
  {
  }

  /** The token of a phone that was just admitted registers a verifier for five
      minutes in a room that asks for no attestation. */
  lemma TokenIsHonoured(r: Room, env: Env, e: Event, verifier: string, later: int)
    requires e.Message? && MoveOf(r, env, e) == Judge(e.ws, TakeSlot(Phone)) && !Established(r.store) && !env.attestRequired
    ensures OnRegister(Step(r, env, e).store, env, Some(e.drawn), Some(verifier), None, None, later).reply.status == 200
            <==> later <= e.now + 5 * 60 * 1000
  {
    CheckKeepsBudget(r.store, r.mem, env, r.socks.att[e.ws], e.frame.json, e.now);
  }

  /** A deletion succeeds exactly with a signature over it by the room's key and an
      unexpired challenge; a challenge that is presented unexpired is used up. */
  lemma DeleteExactly(store: Store, env: Env, challenge: Option<string>, signature: Option<string>, now: int)
    ensures var a := OnDelete(store, env, challenge, signature, now);
            && (a.reply.status == 200
                <==> && store.verifier.Some? && store.verifier.value != "" && signature.Some?
                     && UsableChallenge(store, challenge, now)
                     && env.verify(signature.value, DeleteTranscript(env.b64(challenge.value), env.room, env.origin),
                                   store.verifier.value))
            && (a.reply.status == 200 ==> a.store == EMPTY)
            && (a.reply.status != 200 ==>
                  a.store == if Established(store) && signature.Some? && UsableChallenge(store, challenge, now)
                             then store.(challenges := store.challenges - {challenge.value}) else store)
  {
  }
}
