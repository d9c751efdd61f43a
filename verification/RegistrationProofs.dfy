/** What interleaved register calls keep of single use, of the verifier that is set
    once, and of the counter that only rises, and exactly when (src/room.js,
    handleRegister; host/storage.js:25-87). */
module RegistrationProofs {
  import opened Wrappers
  import opened Rooms
  import opened Registrations

  predicate GoesOn(w: World, a: Action) {
    a.Resume? && a.h in w.pc
  }

  // ------------------------------------------------------------- single use

  /** The token and the challenge whose rows a call has read, and is yet to delete. */
  function Reads(pc: Pc): set<Secret> {
    match pc
    case ReadToken(claim, _, _, row) => if row.Some? then {TokenName(claim.token)} else {}
    case ReadChallenge(claim, _, nonce, _, expiresAt) =>
      if expiresAt.Some? then {TokenName(claim.token), ChallengeName(nonce)} else {TokenName(claim.token)}
    case UsedChallenge(claim, _, _, _) => {TokenName(claim.token)}
    case ReadCounter(claim, _, _, _) => {TokenName(claim.token)}
    case PutCounter(claim, _) => {TokenName(claim.token)}
    case PutRegistrant(claim) => {TokenName(claim.token)}
    case _ => {}
  }

  /** What a call uses up in this step. */
  function Spent(w: World, env: Env, a: Action): Option<Secret> {
    if !GoesOn(w, a) then None
    else
      match w.pc[a.h]
      case ReadToken(claim, _, _, row) =>
        if Alive(row, a.now) && !env.attestRequired then Some(TokenName(claim.token)) else None
      case ReadChallenge(_, _, nonce, _, expiresAt) =>
        if Fresh(expiresAt, a.now) then Some(ChallengeName(nonce)) else None
      case PutRegistrant(claim) => Some(TokenName(claim.token))
      case _ => None
  }

  predicate Present(w: World, s: Secret) {
    match s
    case TokenName(t) => t in w.store.tokens
    case ChallengeName(c) => c in w.store.challenges
  }

  /** A call that read a secret's row which another call has used since. */
  datatype Late = Late(h: int, secret: Secret)

  function Overtaken(w: World, env: Env, a: Action, late: set<Late>): set<Late> {
    var d := Do(w, env, a);
    var spent := Spent(w, env, a);
    set h, s | h in d.pc && s in Reads(d.pc[h]) && (Late(h, s) in late || (spent == Some(s) && h in w.pc && s in Reads(w.pc[h]))) :: Late(h, s)
  }

  /** No secret is used a second time; `used` were used before. */
  ghost predicate UsedOnce(w: World, env: Env, actions: seq<Action>, used: set<Secret>)
    decreases |actions|
  {
    actions == []
    || match Spent(w, env, actions[0])
       case None => UsedOnce(Do(w, env, actions[0]), env, actions[1..], used)
       case Some(s) => s !in used && UsedOnce(Do(w, env, actions[0]), env, actions[1..], used + {s})
  }

  /** No call uses a secret that another one has used since this one read its row. */
  ghost predicate NeverLate(w: World, env: Env, actions: seq<Action>, late: set<Late>)
    decreases |actions|
  {
    actions == []
    || (&& (var s := Spent(w, env, actions[0]); s.Some? ==> Late(actions[0].h, s.value) !in late)
        && NeverLate(Do(w, env, actions[0]), env, actions[1..], Overtaken(w, env, actions[0], late)))
  }

  /** A secret with a row was drawn and not used, and a call is late for exactly
      those it read that are used by now. */
  ghost predicate Tracked(w: World, used: set<Secret>, late: set<Late>) {
    && (forall s :: Present(w, s) ==> s in w.issued && s !in used)
    && (forall s :: s in used ==> s in w.issued)
    && (forall h, s :: h in w.pc && s in Reads(w.pc[h]) ==> s in w.issued && (Late(h, s) in late <==> s in used))
    && (forall l :: l in late ==> l.h in w.pc && l.secret in Reads(w.pc[l.h]))
  }

  function NowUsed(used: set<Secret>, spent: Option<Secret>): set<Secret> {
    if spent.Some? then used + {spent.value} else used
  }

  lemma RowsAfter(w: World, env: Env, a: Action, s: Secret)
    requires Present(Do(w, env, a), s)
    ensures Present(w, s) || (s !in w.issued && s in Do(w, env, a).issued)
    ensures Spent(w, env, a) != Some(s)
  {
  }

  /** A call only goes on to read what has a row, and forgets what it has used. */
  lemma ReadsAfter(w: World, env: Env, a: Action, h: int, s: Secret)
    requires h in Do(w, env, a).pc && s in Reads(Do(w, env, a).pc[h])
    ensures (h in w.pc && s in Reads(w.pc[h])) || Present(w, s)
    ensures GoesOn(w, a) && a.h == h ==> Spent(w, env, a) != Some(s)
  {
  }

  lemma SpentWasRead(w: World, env: Env, a: Action)
    ensures Spent(w, env, a).Some? ==> a.h in w.pc && Spent(w, env, a).value in Reads(w.pc[a.h])
  {
  }

  lemma StepKeepsTracked(w: World, env: Env, a: Action, used: set<Secret>, late: set<Late>)
    requires Tracked(w, used, late)
    ensures Tracked(Do(w, env, a), NowUsed(used, Spent(w, env, a)), Overtaken(w, env, a, late))
  {
    var d, spent := Do(w, env, a), Spent(w, env, a);
    var used1, late1 := NowUsed(used, spent), Overtaken(w, env, a, late);
    SpentWasRead(w, env, a);
    assert w.issued <= d.issued;
    forall s | Present(d, s)
      ensures s in d.issued && s !in used1
    {
      RowsAfter(w, env, a, s);
    }
    forall h, s | h in d.pc && s in Reads(d.pc[h])
      ensures s in d.issued && (Late(h, s) in late1 <==> s in used1)
    {
      ReadsAfter(w, env, a, h, s);
    }
  }

  lemma {:induction false} UsedOnceExactly(w: World, env: Env, actions: seq<Action>, used: set<Secret>, late: set<Late>)
    requires Tracked(w, used, late)
    ensures UsedOnce(w, env, actions, used) <==> NeverLate(w, env, actions, late)
    decreases |actions|
  {
    if actions != [] {
      var a, spent := actions[0], Spent(w, env, actions[0]);
      SpentWasRead(w, env, a);
      StepKeepsTracked(w, env, a, used, late);
      UsedOnceExactly(Do(w, env, a), env, actions[1..], NowUsed(used, spent), Overtaken(w, env, a, late));
    }
  }

  /** Every name with a row was drawn, and no call is under way. */
  ghost predicate Quiet(w: World) {
    w.pc == map[] && forall s :: Present(w, s) ==> s in w.issued
  }

  /** In every interleaving of register calls, no token and no challenge is used
      twice, exactly when no call uses one that another call has used since this one
      read its row. */
  lemma SecretsAreUsedOnce(w: World, env: Env, actions: seq<Action>)
    requires Quiet(w)
    ensures UsedOnce(w, env, actions, {}) <==> NeverLate(w, env, actions, {})
  {
    UsedOnceExactly(w, env, actions, {}, {});
  }

  /** No two calls have read the row of one secret, and are yet to delete it. */
  predicate Unshared(w: World) {
    forall g, h, s :: g in w.pc && h in w.pc && s in Reads(w.pc[g]) && s in Reads(w.pc[h]) ==> g == h
  }

  predicate AlwaysUnshared(w: World, env: Env, actions: seq<Action>)
    decreases |actions|
  {
    Unshared(w) && (actions == [] || AlwaysUnshared(Do(w, env, actions[0]), env, actions[1..]))
  }

  lemma {:induction false} UnsharedIsNeverLate(w: World, env: Env, actions: seq<Action>)
    requires AlwaysUnshared(w, env, actions)
    ensures NeverLate(w, env, actions, {})
    decreases |actions|
  {
    if actions != [] {
      var a := actions[0];
      var d, late := Do(w, env, a), Overtaken(w, env, a, {});
      SpentWasRead(w, env, a);
      forall h, s | h in d.pc && s in Reads(d.pc[h])
        ensures Late(h, s) !in late
      {
        ReadsAfter(w, env, a, h, s);
      }
      assert late == {};
      UnsharedIsNeverLate(d, env, actions[1..]);
    }
  }

  /** A secret that only one call at a time presents is used once. */
  lemma OneActorUsesOnce(w: World, env: Env, actions: seq<Action>)
    requires Quiet(w) && AlwaysUnshared(w, env, actions)
    ensures UsedOnce(w, env, actions, {})
  {
    UnsharedIsNeverLate(w, env, actions);
    SecretsAreUsedOnce(w, env, actions);
  }

  // ------------------------------------------------------- the verifier, once

  /** The calls that found no verifier and may still put one. */
  predicate Open(pc: Pc) {
    match pc
    case ReadVerifier(_, _, _, _, established) => !established
    case PutVerifier => false
    case Done(_) => false
    case _ => true
  }

  predicate PutsVerifier(w: World, a: Action) {
    GoesOn(w, a) && w.pc[a.h].DeletedToken?
  }

  /** The calls since whose look at the verifier another call has put one. */
  function Outrun(w: World, env: Env, a: Action, late: set<int>): set<int> {
    var d := Do(w, env, a);
    if a.Wipe? then {}
    else
      set h | h in d.pc && Open(d.pc[h]) && (h in late || (PutsVerifier(w, a) && h in w.pc && Established(d.store)))
  }

  /** No verifier is put over one that is there. */
  predicate PutOnce(w: World, env: Env, actions: seq<Action>)
    decreases |actions|
  {
    actions == []
    || (!(PutsVerifier(w, actions[0]) && Established(w.store)) && PutOnce(Do(w, env, actions[0]), env, actions[1..]))
  }

  /** No call puts a verifier when another one has since this one found none. */
  predicate NeverOutrun(w: World, env: Env, actions: seq<Action>, late: set<int>)
    decreases |actions|
  {
    actions == []
    || (&& !(PutsVerifier(w, actions[0]) && actions[0].h in late)
        && NeverOutrun(Do(w, env, actions[0]), env, actions[1..], Outrun(w, env, actions[0], late)))
  }

  /** If there is a verifier, it was put after every open call found none. */
  predicate Following(w: World, late: set<int>) {
    forall h :: h in w.pc && Open(w.pc[h]) ==> (h in late <==> Established(w.store))
  }

  lemma VerifierAfter(w: World, env: Env, a: Action)
    ensures var d := Do(w, env, a);
            if PutsVerifier(w, a) then d.store.verifier == Some(w.pc[a.h].claim.verifier)
            else d.store.verifier == if a.Wipe? then None else w.store.verifier
  {
  }

  lemma OpenAfter(w: World, env: Env, a: Action)
    ensures var d := Do(w, env, a);
            forall h :: h in d.pc && Open(d.pc[h]) ==>
              (h in w.pc && Open(w.pc[h])) || (a.Begin? && !Established(d.store))
  {
  }

  lemma StepKeepsFollowing(w: World, env: Env, a: Action, late: set<int>)
    requires Following(w, late) && !(PutsVerifier(w, a) && Established(w.store)) && late <= w.pc.Keys
    ensures Following(Do(w, env, a), Outrun(w, env, a, late)) && Outrun(w, env, a, late) <= Do(w, env, a).pc.Keys
  {
    VerifierAfter(w, env, a);
    OpenAfter(w, env, a);
  }

  lemma {:induction false} PutOnceExactly(w: World, env: Env, actions: seq<Action>, late: set<int>)
    requires Following(w, late) && late <= w.pc.Keys
    ensures PutOnce(w, env, actions) <==> NeverOutrun(w, env, actions, late)
    decreases |actions|
  {
    if actions != [] {
      var a := actions[0];
      if !(PutsVerifier(w, a) && Established(w.store)) {
        StepKeepsFollowing(w, env, a, late);
        PutOnceExactly(Do(w, env, a), env, actions[1..], Outrun(w, env, a, late));
      }
    }
  }

  /** In every interleaving of register calls, a verifier is never put over another,
      exactly when no call puts one after another call has, since this one found none. */
  lemma VerifierIsPutOnce(w: World, env: Env, actions: seq<Action>)
    requires w.pc == map[]
    ensures PutOnce(w, env, actions) <==> NeverOutrun(w, env, actions, {})
  {
    PutOnceExactly(w, env, actions, {});
  }

  // -------------------------------------------------------- rising counters

  predicate PutsCounter(w: World, a: Action) {
    GoesOn(w, a) && w.pc[a.h].ReadCounter? && Rises(w.pc[a.h])
  }

  predicate Above(counters: map<string, int>, pc: Pc)
    requires pc.ReadCounter?
  {
    pc.key.keyId in counters ==> pc.counter > counters[pc.key.keyId]
  }

  /** Every counter that is put is above the one that is there. */
  predicate AlwaysRises(w: World, env: Env, actions: seq<Action>)
    decreases |actions|
  {
    actions == []
    || (&& (PutsCounter(w, actions[0]) ==> Above(w.store.counters, w.pc[actions[0].h]))
        && AlwaysRises(Do(w, env, actions[0]), env, actions[1..]))
  }

  /** The calls since whose read another call has put a counter not below theirs. */
  function Overtopped(w: World, env: Env, a: Action, late: set<int>): set<int> {
    var d := Do(w, env, a);
    if a.Wipe? then {}
    else
      set h | h in d.pc && h in w.pc && d.pc[h].ReadCounter? && w.pc[h] == d.pc[h]
              && (h in late || (&& PutsCounter(w, a) && w.pc[a.h].key.keyId == d.pc[h].key.keyId
                                && d.pc[h].counter <= w.pc[a.h].counter))
  }

  /** No call puts a counter when another has put one that is not below it, since
      this one read the last. */
  predicate NeverOvertopped(w: World, env: Env, actions: seq<Action>, late: set<int>)
    decreases |actions|
  {
    actions == []
    || (&& !(PutsCounter(w, actions[0]) && actions[0].h in late)
        && NeverOvertopped(Do(w, env, actions[0]), env, actions[1..], Overtopped(w, env, actions[0], late)))
  }

  predicate Topped(w: World, late: set<int>) {
    forall h :: h in w.pc && w.pc[h].ReadCounter? && Rises(w.pc[h]) ==>
      (h in late <==> !Above(w.store.counters, w.pc[h]))
  }

  lemma CountersAfter(w: World, env: Env, a: Action)
    ensures var d := Do(w, env, a);
            d.store.counters
            == if PutsCounter(w, a) then w.store.counters[w.pc[a.h].key.keyId := w.pc[a.h].counter]
               else if a.Wipe? then map[] else w.store.counters
  {
  }

  lemma CounterReaderAfter(w: World, env: Env, a: Action, h: int)
    requires h in Do(w, env, a).pc && Do(w, env, a).pc[h].ReadCounter?
    ensures var d := Do(w, env, a);
            if GoesOn(w, a) && a.h == h then
              d.pc[h] != w.pc[h] && d.store == w.store && d.pc[h].last == Lookup(w.store.counters, d.pc[h].key.keyId)
            else h in w.pc && w.pc[h] == d.pc[h]
  {
  }

  lemma StepKeepsTopped(w: World, env: Env, a: Action, late: set<int>)
    requires Topped(w, late) && (PutsCounter(w, a) ==> Above(w.store.counters, w.pc[a.h]))
    ensures Topped(Do(w, env, a), Overtopped(w, env, a, late))
  {
    CountersAfter(w, env, a);
    var d, late1 := Do(w, env, a), Overtopped(w, env, a, late);
    forall h | h in d.pc && d.pc[h].ReadCounter? && Rises(d.pc[h])
      ensures h in late1 <==> !Above(d.store.counters, d.pc[h])
    {
      CounterReaderAfter(w, env, a, h);
    }
  }

  lemma {:induction false} RisesExactly(w: World, env: Env, actions: seq<Action>, late: set<int>)
    requires Topped(w, late)
    ensures AlwaysRises(w, env, actions) <==> NeverOvertopped(w, env, actions, late)
    decreases |actions|
  {
    if actions != [] {
      var a := actions[0];
      if PutsCounter(w, a) ==> Above(w.store.counters, w.pc[a.h]) {
        StepKeepsTopped(w, env, a, late);
        RisesExactly(Do(w, env, a), env, actions[1..], Overtopped(w, env, a, late));
      }
    }
  }

  /** In every interleaving of register calls, a counter only rises, exactly when no
      call puts one that another call has reached since this one read the last. */
  lemma CountersOnlyRise(w: World, env: Env, actions: seq<Action>)
    requires w.pc == map[]
    ensures AlwaysRises(w, env, actions) <==> NeverOvertopped(w, env, actions, {})
  {
    RisesExactly(w, env, actions, {});
  }
}
