/** Two interleaved register calls with one token that both succeed: the token is
    used twice, and the second call puts its verifier over the first one's
    (src/room.js, handleRegister, across its awaits). */
module RegistrationWitness {
  import opened Wrappers
  import opened Rooms
  import opened Registrations
  import opened RegistrationProofs

  const START := World(EMPTY, map[], {})

  ghost function UsedBy(w: World, env: Env, actions: seq<Action>, used: set<Secret>): set<Secret>
    decreases |actions|
  {
    if actions == [] then used
    else UsedBy(Do(w, env, actions[0]), env, actions[1..], NowUsed(used, Spent(w, env, actions[0])))
  }

  lemma {:induction false} Append(w: World, env: Env, a: seq<Action>, b: seq<Action>, used: set<Secret>)
    ensures var w1, used1 := Ran(w, env, a), UsedBy(w, env, a, used);
            && Ran(w, env, a + b) == Ran(w1, env, b) && UsedBy(w, env, a + b, used) == UsedBy(w1, env, b, used1)
            && (UsedOnce(w, env, a + b, used) <==> UsedOnce(w, env, a, used) && UsedOnce(w1, env, b, used1))
            && (PutOnce(w, env, a + b) <==> PutOnce(w, env, a) && PutOnce(w1, env, b))
    decreases |a|
  {
    if a == [] {
      assert a + b == b;
    } else {
      assert (a + b)[1..] == a[1..] + b;
      Append(Do(w, env, a[0]), env, a[1..], b, NowUsed(used, Spent(w, env, a[0])));
    }
  }

  lemma {:induction false} UsedGrows(w: World, env: Env, actions: seq<Action>, used: set<Secret>)
    ensures used <= UsedBy(w, env, actions, used)
    decreases |actions|
  {
    if actions != [] {
      UsedGrows(Do(w, env, actions[0]), env, actions[1..], NowUsed(used, Spent(w, env, actions[0])));
    }
  }

  function Resumes(h: int, now: int, n: nat): seq<Action> {
    if n == 0 then [] else [Resume(h, now)] + Resumes(h, now, n - 1)
  }

  lemma {:induction false} ResumesRun(w: World, env: Env, h: int, now: int, n: nat)
    requires h in w.pc
    ensures Ran(w, env, Resumes(h, now, n)) == Uninterrupted(w, env, h, now, n)
    decreases n
  {
    if n > 0 {
      assert Resumes(h, now, n)[1..] == Resumes(h, now, n - 1);
      ResumesRun(Resumed(w, env, h, now), env, h, now, n - 1);
    }
  }

  lemma OneAction(w: World, env: Env, a: Action, used: set<Secret>)
    ensures Ran(w, env, [a]) == Do(w, env, a) && UsedBy(w, env, [a], used) == NowUsed(used, Spent(w, env, a))
    ensures UsedOnce(w, env, [a], used) <==> Spent(w, env, a).None? || Spent(w, env, a).value !in used
    ensures PutOnce(w, env, [a]) <==> !(PutsVerifier(w, a) && Established(w.store))
  {
    assert [a][1..] == [];
  }

  /** What is presented, and how the checks answer: an attested key, one token, and
      for each call a challenge, an assertion over it and a rising counter. */
  datatype Retry = Retry(key: Attested, token: string, expiresAt: int, c1: string, c2: string, p1: string, p2: string,
                         v1: string, v2: string, n1: int, n2: int)

  predicate Good(env: Env, x: Retry, now: int) {
    && env.attestRequired && x.key.keyId != "" && x.key.publicKey != "" && now <= x.expiresAt
    && x.c1 != x.c2 && x.v1 != "" && x.n1 < x.n2
    && env.assertion(x.p1, x.c1, x.key.publicKey) == Some(x.n1)
    && env.assertion(x.p2, x.c2, x.key.publicKey) == Some(x.n2)
  }

  /** A call comes in, and goes on until it has used its challenge. */
  lemma Enters(w: World, env: Env, h: int, claim: Claim, key: Attested, nonce: string, proof: string, expiresAt: int, now: int)
    returns (actions: seq<Action>)
    requires h !in w.pc && !Established(w.store) && env.attestRequired && key.keyId != "" && key.publicKey != ""
    requires Lookup(w.store.tokens, claim.token) == Some(Token(expiresAt, Some(key))) && now <= expiresAt
    requires Lookup(w.store.challenges, nonce) == Some(expiresAt)
    ensures Ran(w, env, actions) == Put(w, Used(w.store, nonce), h, UsedChallenge(claim, key, nonce, proof))
  {
    var begin := Begin(h, Some(claim.token), Some(claim.verifier), Some(nonce), Some(proof));
    actions := [begin] + Resumes(h, now, 3);
    OneAction(w, env, begin, {});
    Append(w, env, [begin], Resumes(h, now, 3), {});
    var w1 := Do(w, env, begin);
    ResumesRun(w1, env, h, now, 3);
    var w2 := Resumed(w1, env, h, now);
    var w3 := Resumed(w2, env, h, now);
    assert w3.pc[h] == ReadChallenge(claim, key, nonce, proof, Some(expiresAt));
    var w4 := Resumed(w3, env, h, now);
    assert Uninterrupted(w3, env, h, now, 1) == w4;
    assert Uninterrupted(w2, env, h, now, 2) == w4;
    assert w4.pc == w.pc[h := w4.pc[h]];
  }

  /** From there until it is about to delete its token. */
  lemma Counts(w: World, env: Env, h: int, claim: Claim, key: Attested, nonce: string, proof: string, n: int, now: int)
    requires h in w.pc && w.pc[h] == UsedChallenge(claim, key, nonce, proof)
    requires env.assertion(proof, nonce, key.publicKey) == Some(n)
    requires key.keyId in w.store.counters ==> w.store.counters[key.keyId] < n
    ensures Ran(w, env, Resumes(h, now, 3))
            == Put(w, w.store.(counters := w.store.counters[key.keyId := n], registrant := Some(key.keyId)), h,
                   PutRegistrant(claim))
  {
    ResumesRun(w, env, h, now, 3);
    var w1 := Resumed(w, env, h, now);
    var w2 := Resumed(w1, env, h, now);
    var w3 := Resumed(w2, env, h, now);
    assert Uninterrupted(w2, env, h, now, 1) == w3;
    assert Uninterrupted(w1, env, h, now, 2) == w3;
    assert w3.pc == w.pc[h := w3.pc[h]];
  }

  /** The token goes, the verifier is put, and the call is answered. */
  lemma Finishes(w: World, env: Env, h: int, claim: Claim, now: int)
    requires h in w.pc && w.pc[h] == PutRegistrant(claim)
    ensures var w1 := Ran(w, env, Resumes(h, now, 3));
            && w1.pc == w.pc[h := Done(200)] && w1.store == Registered(w.store, claim.token, claim.verifier, now)
    ensures forall used :: UsedOnce(w, env, Resumes(h, now, 3), used) ==> TokenName(claim.token) !in used
    ensures forall used :: TokenName(claim.token) in UsedBy(w, env, Resumes(h, now, 3), used)
    ensures PutOnce(w, env, Resumes(h, now, 3)) ==> !Established(w.store)
  {
    ResumesRun(w, env, h, now, 3);
    var w1 := Resumed(w, env, h, now);
    var w2 := Resumed(w1, env, h, now);
    var w3 := Resumed(w2, env, h, now);
    assert Uninterrupted(w2, env, h, now, 1) == w3;
    assert Uninterrupted(w1, env, h, now, 2) == w3;
    assert w3.pc == w.pc[h := w3.pc[h]];
    assert Resumes(h, now, 3)[1..] == Resumes(h, now, 2) && Resumes(h, now, 2)[1..] == Resumes(h, now, 1);
    assert PutOnce(w, env, Resumes(h, now, 3)) ==> PutOnce(w1, env, Resumes(h, now, 2));
    assert w1.store.verifier == w.store.verifier && PutsVerifier(w1, Resumes(h, now, 2)[0]);
    forall used
      ensures TokenName(claim.token) in UsedBy(w, env, Resumes(h, now, 3), used)
    {
      UsedGrows(w1, env, Resumes(h, now, 2), used + {TokenName(claim.token)});
    }
  }

  /** On a run from the start two calls present one token, each with a challenge of
      its own, and both wait for their assertion check at once. Both are answered
      200: the token is used twice, and the second verifier is put over the first. */
  lemma TwoCallsOneToken(env: Env, x: Retry, now: int) returns (actions: seq<Action>)
    requires Good(env, x, now)
    ensures !UsedOnce(START, env, actions, {}) && !PutOnce(START, env, actions)
    ensures var w := Ran(START, env, actions);
            && w.pc == map[1 := Done(200), 2 := Done(200)] && w.store.verifier == Some(x.v2)
  {
    var setup, w0 := Issued(env, x);
    var first, second := Claim(x.token, x.v1), Claim(x.token, x.v2);
    var a1 := Enters(w0, env, 1, first, x.key, x.c1, x.p1, x.expiresAt, now);
    var w1 := Ran(w0, env, a1);
    var a2 := Enters(w1, env, 2, second, x.key, x.c2, x.p2, x.expiresAt, now);
    var w2 := Ran(w1, env, a2);
    Counts(w2, env, 1, first, x.key, x.c1, x.p1, x.n1, now);
    var w3 := Ran(w2, env, Resumes(1, now, 3));
    Counts(w3, env, 2, second, x.key, x.c2, x.p2, x.n2, now);
    var w4 := Ran(w3, env, Resumes(2, now, 3));
    var before := setup + a1 + a2 + Resumes(1, now, 3) + Resumes(2, now, 3);
    Append(START, env, setup, a1, {});
    Append(START, env, setup + a1, a2, {});
    Append(START, env, setup + a1 + a2, Resumes(1, now, 3), {});
    Append(START, env, setup + a1 + a2 + Resumes(1, now, 3), Resumes(2, now, 3), {});
    assert Ran(START, env, before) == w4;
    BothFinish(w4, env, first, second, now, before);
    actions := before + (Resumes(1, now, 3) + Resumes(2, now, 3));
  }

  lemma Issued(env: Env, x: Retry) returns (setup: seq<Action>, w: World)
    requires x.c1 != x.c2
    ensures Ran(START, env, setup) == w && w.pc == map[]
    ensures w.store == EMPTY.(tokens := map[x.token := Token(x.expiresAt, Some(x.key))],
                              challenges := map[x.c1 := x.expiresAt, x.c2 := x.expiresAt])
  {
    setup := [AddToken(x.token, Token(x.expiresAt, Some(x.key))), AddChallenge(x.c1, x.expiresAt), AddChallenge(x.c2, x.expiresAt)];
    w := Do(Do(Do(START, env, setup[0]), env, setup[1]), env, setup[2]);
    assert setup[1..] == [setup[1], setup[2]] && setup[1..][1..] == [setup[2]] && [setup[2]][1..] == [];
    assert Ran(Do(Do(START, env, setup[0]), env, setup[1]), env, [setup[2]]) == w;
    assert Ran(Do(START, env, setup[0]), env, setup[1..]) == w;
  }

  /** Two calls that are about to delete one token. */
  lemma BothFinish(w: World, env: Env, first: Claim, second: Claim, now: int, before: seq<Action>)
    requires Ran(START, env, before) == w && w.pc.Keys == {1, 2} && first.token == second.token && first.verifier != ""
    requires w.pc[1] == PutRegistrant(first) && w.pc[2] == PutRegistrant(second)
    ensures var actions := before + (Resumes(1, now, 3) + Resumes(2, now, 3));
            && !UsedOnce(START, env, actions, {}) && !PutOnce(START, env, actions)
            && Ran(START, env, actions).pc == map[1 := Done(200), 2 := Done(200)]
            && Ran(START, env, actions).store.verifier == Some(second.verifier)
  {
    var one, two := Resumes(1, now, 3), Resumes(2, now, 3);
    var w1 := Ran(w, env, one);
    Finishes(w, env, 1, first, now);
    Finishes(w1, env, 2, second, now);
    var used := UsedBy(START, env, before, {});
    Append(w, env, one, two, used);
    Append(START, env, before, one + two, {});
  }
}
