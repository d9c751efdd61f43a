/** How many un-admitted sockets wait in a room when an upgrade evicts the excess
    only after an await (src/room.js:289-300 and evictExcessPreAuth). */
module WaitingRooms {
  import opened Wrappers
  import opened Canonical
  import opened RoomSockets
  import opened RoomSocketProofs
  import opened Rooms
  import opened Interleaving

  // -------------------------------------------------------- the upper bound

  /** Each upgrade that has not come to its eviction may exceed the cap by one. */
  ghost predicate PendingFits(w: World) {
    && |PreAuth(w.socks)| <= MAX_PREAUTH_SOCKETS + |w.upgrading|
    && forall ws :: ws in w.upgrading ==> ws in w.socks.att
  }

  lemma DoPendingFits(w: World, attestRequired: bool, a: Action)
    requires Fits(w) && PendingFits(w)
    ensures PendingFits(Do(w, attestRequired, a))
  {
    var d := Do(w, attestRequired, a);
    DoFits(w, attestRequired, a);
    if a.Accept? {
      NewIsPendingToo(w, attestRequired, a);
    } else if a.Evict? {
      EvictionCapsPreAuth(w.socks);
    } else {
      OthersAddNone(w, attestRequired, a);
      FewerPending(w.socks, d.socks);
    }
  }

  lemma NewIsPendingToo(w: World, attestRequired: bool, a: Action)
    requires Fits(w) && PendingFits(w) && a.Accept?
    ensures PendingFits(Do(w, attestRequired, a))
  {
    if a.ws !in w.socks.att {
      NewIsPending(w.socks, a.ws, a.now);
      assert a.ws !in w.upgrading;
    }
  }

  lemma OthersAddNone(w: World, attestRequired: bool, a: Action)
    requires Fits(w) && !a.Accept? && !a.Evict?
    ensures var d := Do(w, attestRequired, a);
            && d.upgrading == w.upgrading
            && forall s :: s in PreAuth(d.socks) ==> s in PreAuth(w.socks)
  {
    var d := Do(w, attestRequired, a);
    DoFits(w, attestRequired, a);
    LiveShrinks(w, attestRequired, a);
    forall s | s in PreAuth(d.socks)
      ensures s in PreAuth(w.socks)
    {
      assert s in d.socks.live && s in w.socks.live && s in w.socks.att;
      assert Forward(w.socks.att[s], d.socks.att[s]);
    }
  }

  ghost predicate Shrinks(w: World, d: World) {
    d.upgrading == w.upgrading && forall s :: s in d.socks.live ==> s in w.socks.live
  }

  lemma SlotShrinks(w: World, ws: int, role: Role, nonDisplacing: bool, via: Option<string>)
    ensures Shrinks(w, Slot(w, ws, role, nonDisplacing, via))
  {
  }

  lemma ResumedShrinks(w: World, attestRequired: bool, ws: int, now: int, ok: bool)
    ensures Shrinks(w, Resumed(w, attestRequired, ws, now, ok))
  {
    match PcOf(w, ws)
    case Admitting(role, nonDisplacing, established, via) =>
      if established {
        SlotShrinks(w, ws, role, nonDisplacing, if role == Phone then via else None);
      }
    case BudgetReset(nonDisplacing) => SlotShrinks(w, ws, Mac, nonDisplacing, None);
    case Charged(nonDisplacing, via) => SlotShrinks(w, ws, Phone, nonDisplacing, via);
    case _ =>
  }

  lemma LiveShrinks(w: World, attestRequired: bool, a: Action)
    requires !a.Accept? && !a.Evict?
    ensures Shrinks(w, Do(w, attestRequired, a))
  {
    if a.Resume? {
      ResumedShrinks(w, attestRequired, a.ws, a.now, a.ok);
    }
  }

  /** At every await of every interleaving: at most four un-admitted sockets are
      routable, and one more for each upgrade that is still to evict. */
  lemma {:induction false} WaitingRoomIsBounded(w: World, attestRequired: bool, actions: seq<Action>)
    requires Fits(w) && PendingFits(w)
    ensures PendingFits(Ran(w, attestRequired, actions))
    decreases |actions|
  {
    if actions != [] {
      DoFits(w, attestRequired, actions[0]);
      DoPendingFits(w, attestRequired, actions[0]);
      WaitingRoomIsBounded(Do(w, attestRequired, actions[0]), attestRequired, actions[1..]);
    }
  }

  // ------------------------------------------------------ when the cap holds

  /** A new socket is accepted while four un-admitted ones are routable. */
  ghost predicate Overfills(w: World, a: Action) {
    a.Accept? && a.ws !in w.socks.att && |PreAuth(w.socks)| >= MAX_PREAUTH_SOCKETS
  }

  ghost predicate NeverOverfills(w: World, attestRequired: bool, actions: seq<Action>)
    decreases |actions|
  {
    actions == []
    || (!Overfills(w, actions[0]) && NeverOverfills(Do(w, attestRequired, actions[0]), attestRequired, actions[1..]))
  }

  ghost predicate CapAlwaysKept(w: World, attestRequired: bool, actions: seq<Action>)
    decreases |actions|
  {
    && CapKept(w.socks)
    && (actions == [] || CapAlwaysKept(Do(w, attestRequired, actions[0]), attestRequired, actions[1..]))
  }

  lemma StepKeepsCapExactly(w: World, attestRequired: bool, a: Action)
    requires Fits(w) && CapKept(w.socks)
    ensures CapKept(Do(w, attestRequired, a).socks) <==> !Overfills(w, a)
  {
    DoFits(w, attestRequired, a);
    if a.Accept? {
      if a.ws !in w.socks.att {
        NewIsPending(w.socks, a.ws, a.now);
      }
    } else if a.Evict? {
      EvictionCapsPreAuth(w.socks);
    } else {
      OthersAddNone(w, attestRequired, a);
      FewerPending(w.socks, Do(w, attestRequired, a).socks);
    }
  }

  /** In every state of an interleaving at most four un-admitted sockets are routable,
      exactly when no socket is accepted while there are four. */
  lemma {:induction false} CapKeptExactly(w: World, attestRequired: bool, actions: seq<Action>)
    requires Fits(w) && CapKept(w.socks)
    ensures CapAlwaysKept(w, attestRequired, actions) <==> NeverOverfills(w, attestRequired, actions)
    decreases |actions|
  {
    if actions != [] {
      DoFits(w, attestRequired, actions[0]);
      StepKeepsCapExactly(w, attestRequired, actions[0]);
      if !Overfills(w, actions[0]) {
        CapKeptExactly(Do(w, attestRequired, actions[0]), attestRequired, actions[1..]);
      }
    }
  }

  // ------------------------------------------------- the bound is reached

  /** `n` sockets wait, of which `k` are still to evict; all have numbers below `next`. */
  ghost predicate Waiting(w: World, n: nat, k: nat, next: int) {
    && Fits(w) && |PreAuth(w.socks)| == n && |w.upgrading| == k
    && (forall s :: s in w.socks.att ==> s < next) && (forall s :: s in w.upgrading ==> s < next)
  }

  lemma OneAccepted(w: World, attestRequired: bool, n: nat, k: nat, next: int, now: int)
    requires Waiting(w, n, k, next)
    ensures Waiting(Do(w, attestRequired, Accept(next, now)), n + 1, k + 1, next + 1)
  {
    DoFits(w, attestRequired, Accept(next, now));
    NewIsPending(w.socks, next, now);
  }

  lemma OneEvicted(w: World, attestRequired: bool, n: nat, k: nat, next: int)
    requires Waiting(w, n, k + 1, next) && n <= MAX_PREAUTH_SOCKETS && next - 1 in w.upgrading
    ensures Waiting(Do(w, attestRequired, Evict(next - 1)), n, k, next)
  {
    DoFits(w, attestRequired, Evict(next - 1));
    EvictionCapsPreAuth(w.socks);
  }

  /** `n` whole upgrades of a room with space for them. */
  lemma {:induction false} Upgrades(w: World, attestRequired: bool, m: nat, next: int, n: nat, now: int)
    returns (actions: seq<Action>)
    requires Waiting(w, m, 0, next) && m + n <= MAX_PREAUTH_SOCKETS
    ensures Waiting(Ran(w, attestRequired, actions), m + n, 0, next + n)
    decreases n
  {
    if n == 0 {
      actions := [];
    } else {
      var pair := [Accept(next, now), Evict(next)];
      OneAccepted(w, attestRequired, m, 0, next, now);
      var w1 := Do(w, attestRequired, pair[0]);
      OneEvicted(w1, attestRequired, m + 1, 0, next + 1);
      var w2 := Do(w1, attestRequired, pair[1]);
      assert pair[1..] == [pair[1]] && [pair[1]][1..] == [];
      assert Ran(w1, attestRequired, [pair[1]]) == w2;
      assert Ran(w, attestRequired, pair) == w2;
      var rest := Upgrades(w2, attestRequired, m + 1, next + 1, n - 1, now);
      RanAppend(w, attestRequired, pair, rest);
      actions := pair + rest;
    }
  }

  /** `k` upgrades that are all accepted before any of them evicts. */
  lemma {:induction false} Accepts(w: World, attestRequired: bool, n: nat, j: nat, next: int, k: nat, now: int)
    returns (actions: seq<Action>)
    requires Waiting(w, n, j, next)
    ensures Waiting(Ran(w, attestRequired, actions), n + k, j + k, next + k)
    decreases k
  {
    if k == 0 {
      actions := [];
    } else {
      OneAccepted(w, attestRequired, n, j, next, now);
      var first := Accept(next, now);
      var rest := Accepts(Do(w, attestRequired, first), attestRequired, n + 1, j + 1, next + 1, k - 1, now);
      actions := [first] + rest;
      assert actions[1..] == rest;
    }
  }

  /** The bound is tight: for every `k` there is a run from the start after which `k`
      upgrades are still to evict and four and `k` un-admitted sockets are routable. */
  lemma BoundIsReached(attestRequired: bool, k: nat, now: int) returns (actions: seq<Action>)
    ensures var w := Ran(START, attestRequired, actions);
            |w.upgrading| == k && |PreAuth(w.socks)| == MAX_PREAUTH_SOCKETS + k
  {
    assert Waiting(START, 0, 0, 0);
    var four := Upgrades(START, attestRequired, 0, 0, MAX_PREAUTH_SOCKETS, now);
    var w := Ran(START, attestRequired, four);
    var more := Accepts(w, attestRequired, MAX_PREAUTH_SOCKETS, 0, MAX_PREAUTH_SOCKETS, k, now);
    RanAppend(START, attestRequired, four, more);
    actions := four + more;
  }
}
