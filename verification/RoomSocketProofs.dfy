/** What the sockets of a room keep: when a phone can be routed to without a mac,
    and how many sockets a room can have (src/room.js, host/runtime.js). */
module RoomSocketProofs {
  import opened Sequences
  import opened Canonical
  import opened RoomSockets

  // ------------------------------------------------------ phone implies mac

  /** What the phone_only gauge of host/runtime.js watches for. */
  ghost predicate Paired(socks: Sockets) {
    Held(socks, Phone) ==> Held(socks, Mac)
  }

  /** The moves that leave a phone without its mac: the mac's close frame is
      acknowledged before its close event, a phone that was already gone takes the
      mac with it while another phone is there, a phone fails but is still
      routable, or a frame of a socket that is no longer routable closes or
      displaces the mac. */
  ghost predicate Orphans(socks: Sockets, m: Move) {
    && Held(socks, Phone)
    && match m
       case CloseFrame(ws) => ws in socks.live && Holds(socks.att, ws, Mac)
       case Closed(ws) => ws in socks.closing && Holds(socks.att, ws, Phone)
       case Failed(ws) => Holds(socks.att, ws, Phone)
       case Judge(ws, v) =>
         ws !in socks.live && ((v == DropBoth && Holds(socks.att, ws, Phone)) || v == TakeSlot(Mac))
       case _ => false
  }

  lemma SameHeld(a: Sockets, b: Sockets, role: Role)
    requires forall s :: s in b.live && Holds(b.att, s, role) <==> s in a.live && Holds(a.att, s, role)
    ensures Held(a, role) == Held(b, role)
  {
  }

  lemma CloseFramePaired(socks: Sockets, ws: int)
    requires Inv(socks) && Paired(socks)
    ensures Paired(Moved(socks, CloseFrame(ws))) <==> !Orphans(socks, CloseFrame(ws))
  {
  }

  lemma FailedPaired(socks: Sockets, ws: int)
    requires Inv(socks) && Paired(socks)
    ensures Paired(Moved(socks, Failed(ws))) <==> !Orphans(socks, Failed(ws))
  {
  }

  lemma ClosedPaired(socks: Sockets, ws: int)
    requires Inv(socks) && Paired(socks)
    ensures Paired(Moved(socks, Closed(ws))) <==> !Orphans(socks, Closed(ws))
  {
  }

  lemma DropBothPaired(socks: Sockets, ws: int)
    requires Inv(socks) && Paired(socks)
    ensures Paired(Judged(socks, ws, DropBoth)) <==> !Orphans(socks, Judge(ws, DropBoth))
  {
  }

  lemma TakeSlotPaired(socks: Sockets, ws: int, role: Role)
    requires Inv(socks) && Paired(socks) && CanGet(socks, ws, TakeSlot(role))
    ensures Paired(Judged(socks, ws, TakeSlot(role))) <==> !Orphans(socks, Judge(ws, TakeSlot(role)))
  {
  }

  lemma ChallengePaired(socks: Sockets, ws: int, v: Verdict)
    requires Inv(socks) && v.Challenge? && CanGet(socks, ws, v)
    ensures Paired(Judged(socks, ws, v)) <==> Paired(socks)
  {
  }

  lemma DropPaired(socks: Sockets, ws: int)
    requires Inv(socks) && Paired(socks) && ws in socks.att && !socks.att[ws].Admitted?
    ensures Paired(Judged(socks, ws, Drop))
  {
  }

  lemma JoinPaired(socks: Sockets, ws: int, now: int)
    requires Inv(socks) && Paired(socks) && ws !in socks.att
    ensures Paired(Joined(socks, ws, now))
  {
    ExcessIsPending(Added(socks, ws, now));
    SameHeld(socks, Joined(socks, ws, now), Mac);
    SameHeld(socks, Joined(socks, ws, now), Phone);
  }

  lemma SweepPaired(socks: Sockets, now: int)
    requires Inv(socks) && Paired(socks)
    ensures Paired(Moved(socks, Sweep(now)))
  {
  }

  /** Only a socket that is not admitted gets dropped alone. */
  ghost predicate DropsPending(socks: Sockets, m: Move) {
    m.Judge? && m.verdict.Drop? ==> m.ws in socks.att && !socks.att[m.ws].Admitted?
  }

  /** A phone keeps its mac through a move exactly when the move does not orphan it. */
  lemma PairedExactly(socks: Sockets, m: Move)
    requires Inv(socks) && Paired(socks) && CanMove(socks, m) && DropsPending(socks, m)
    ensures Paired(Moved(socks, m)) <==> !Orphans(socks, m)
  {
    match m
    case Join(ws, now) => JoinPaired(socks, ws, now);
    case CloseFrame(ws) => CloseFramePaired(socks, ws);
    case Closed(ws) => ClosedPaired(socks, ws);
    case Failed(ws) => FailedPaired(socks, ws);
    case Sweep(now) => SweepPaired(socks, now);
    case Judge(ws, v) =>
      match v {
        case Drop => DropPaired(socks, ws);
        case DropBoth => DropBothPaired(socks, ws);
        case Challenge(_, _, _) => ChallengePaired(socks, ws, v);
        case TakeSlot(role) => TakeSlotPaired(socks, ws, role);
        case _ =>
      }
    case _ =>
  }

  /** The gap a remote close opens is closed by its close event: afterwards the
      side opposite the one that went away is gone too. */
  lemma CloseEventHeals(socks: Sockets, ws: int)
    requires Inv(socks) && (ws in socks.live || ws in socks.closing) && socks.att[ws].Admitted?
    ensures !Held(Moved(socks, Closed(ws)), Other(socks.att[ws].role))
    ensures socks.att[ws].role == Mac ==> Paired(Moved(socks, Closed(ws)))
  {
  }

  // -------------------------------------------------------- how many sockets

  lemma {:induction false} InsertElements(s: seq<int>, x: int, age: int -> int)
    ensures forall y :: y in InsertByAge(s, x, age) <==> y in s || y == x
    ensures Distinct(s) && x !in s ==> Distinct(InsertByAge(s, x, age))
  {
    if s != [] {
      var n := |s| - 1;
      assert s == s[..n] + [s[n]];
      if age(s[n]) <= age(x) {
        if Distinct(s) && x !in s {
          AppendDistinct(s, x);
        }
      } else {
        InsertElements(s[..n], x, age);
        if Distinct(s) && x !in s {
          PrefixDistinct(s, n);
          LastIsNew(s);
          AppendDistinct(InsertByAge(s[..n], x, age), s[n]);
        }
      }
    }
  }

  lemma {:induction false} LastIsNew(s: seq<int>)
    requires Distinct(s) && s != []
    ensures s[|s| - 1] !in s[..|s| - 1]
  {
    if |s| > 1 {
      LastIsNew(s[1..]);
      assert s[..|s| - 1] == [s[0]] + s[1..][..|s| - 2];
      assert s[|s| - 1] == s[1..][|s| - 2];
    }
  }

  lemma {:induction false} ByAgeElements(s: seq<int>, age: int -> int)
    ensures forall y :: y in ByAge(s, age) <==> y in s
    ensures Distinct(s) ==> Distinct(ByAge(s, age))
  {
    if s != [] {
      var n := |s| - 1;
      assert s == s[..n] + [s[n]];
      ByAgeElements(s[..n], age);
      InsertElements(ByAge(s[..n], age), s[n], age);
      if Distinct(s) {
        PrefixDistinct(s, n);
        LastIsNew(s);
      }
    }
  }

  /** Sorted: the last is the youngest. */
  lemma {:induction false} LastIsYoungest(s: seq<int>, x: int, age: int -> int)
    requires forall y :: y in s ==> age(y) <= age(x)
    ensures ByAge(s + [x], age) == ByAge(s, age) + [x]
  {
    assert (s + [x])[..|s|] == s;
    ByAgeElements(s, age);
    if s != [] {
      var o := ByAge(s, age);
      assert o[|o| - 1] in o;
    }
  }

  lemma ExcessIsPending(socks: Sockets)
    ensures forall s :: s in Excess(socks) ==> s in PreAuth(socks)
  {
    ByAgeElements(PreAuth(socks), AgeOf(socks.att));
  }

  lemma WithoutPreAuth(socks: Sockets, gone: seq<int>)
    ensures forall s :: s in PreAuth(socks.(live := Without(socks.live, gone))) <==> s in PreAuth(socks) && s !in gone
  {
  }

  lemma PreAuthDistinct(socks: Sockets)
    requires Distinct(socks.live)
    ensures Distinct(PreAuth(socks))
  {
    FilterKeepsDistinct(socks.live, Pending(socks.att));
  }

  /** An eviction leaves exactly four un-admitted sockets, or all if there were fewer. */
  lemma EvictionCapsPreAuth(socks: Sockets)
    requires Distinct(socks.live)
    ensures |PreAuth(Evicted(socks))|
            == if |PreAuth(socks)| < 4 then |PreAuth(socks)| else 4
  {
    var p, q, gone := PreAuth(socks), PreAuth(Evicted(socks)), Excess(socks);
    WithoutKeepsDistinct(socks.live, gone);
    PreAuthDistinct(socks);
    PreAuthDistinct(Evicted(socks));
    WithoutPreAuth(socks, gone);
    ExcessIsDistinct(socks);
    ExcessIsPending(socks);
    assert forall s :: s in p ==> s in q || s in gone;
    assert forall s :: s in gone ==> s in p;
    DifferenceSize(p, gone, q);
  }

  /** After a connection at most four un-admitted sockets are left: all there
      were and the new one, or exactly four. */
  lemma JoinCapsPreAuth(socks: Sockets, ws: int, now: int)
    requires Inv(socks) && ws !in socks.att
    ensures |PreAuth(Joined(socks, ws, now))|
            == if |PreAuth(socks)| < 4 then |PreAuth(socks)| + 1 else 4
  {
    AppendDistinct(socks.live, ws);
    NewIsPending(socks, ws, now);
    EvictionCapsPreAuth(Added(socks, ws, now));
  }

  lemma ExcessIsDistinct(socks: Sockets)
    requires Distinct(socks.live)
    ensures Distinct(Excess(socks))
  {
    PreAuthDistinct(socks);
    ByAgeElements(PreAuth(socks), AgeOf(socks.att));
    var order := ByAge(PreAuth(socks), AgeOf(socks.att));
    if |order| > MAX_PREAUTH_SOCKETS {
      PrefixDistinct(order, |order| - MAX_PREAUTH_SOCKETS);
    }
  }

  lemma NewIsPending(socks: Sockets, ws: int, now: int)
    requires Inv(socks) && ws !in socks.att
    ensures PreAuth(Added(socks, ws, now)) == PreAuth(socks) + [ws]
  {
    var s1 := Added(socks, ws, now);
    FilterAppend(socks.live, ws, Pending(s1.att));
    PendingSame(socks.live, socks.att, s1.att);
  }

  lemma {:induction false} FilterAppend(s: seq<int>, x: int, f: int -> bool)
    ensures Filter(s + [x], f) == Filter(s, f) + if f(x) then [x] else []
  {
    if s == [] {
      assert s + [x] == [x] && [x][1..] == [];
    } else {
      assert (s + [x])[1..] == s[1..] + [x];
      FilterAppend(s[1..], x, f);
    }
  }

  lemma {:induction false} PendingSame(s: seq<int>, a: map<int, Att>, b: map<int, Att>)
    requires forall x :: x in s ==> x in a && x in b && a[x] == b[x]
    ensures Filter(s, Pending(a)) == Filter(s, Pending(b))
  {
    if s != [] {
      var x := s[0];
      assert s == [x] + s[1..] && x in s;
      assert x in a && x in b && a[x] == b[x];
      assert Pending(a)(x) == Pending(b)(x);
      PendingSame(s[1..], a, b);
    }
  }

  /** An eviction never takes the socket that was accepted last, if the clock has
      not gone back. */
  lemma LastAcceptedStays(socks: Sockets, before: seq<int>, ws: int)
    requires socks.live == before + [ws] && Distinct(socks.live) && Pending(socks.att)(ws)
    requires forall s :: s in socks.live ==> s in socks.att && socks.att[s].connectedAt <= socks.att[ws].connectedAt
    ensures ws in Evicted(socks).live
  {
    var p := Filter(before, Pending(socks.att));
    FilterAppend(before, ws, Pending(socks.att));
    LastIsYoungest(p, ws, AgeOf(socks.att));
    ByAgeElements(p, AgeOf(socks.att));
    var order := ByAge(p + [ws], AgeOf(socks.att));
    assert order[..|p|] == ByAge(p, AgeOf(socks.att));
    LastIsNew(socks.live);
    assert before == socks.live[..|socks.live| - 1];
    assert forall s :: s in Excess(socks) ==> s in order[..|p|];
  }

  lemma NewestStays(socks: Sockets, ws: int, now: int)
    requires Inv(socks) && ws !in socks.att
    requires forall s :: s in socks.live ==> socks.att[s].connectedAt <= now
    ensures ws in Joined(socks, ws, now).live
  {
    AppendDistinct(socks.live, ws);
    LastAcceptedStays(Added(socks, ws, now), socks.live, ws);
  }

  ghost predicate CapKept(socks: Sockets) {
    |PreAuth(socks)| <= MAX_PREAUTH_SOCKETS
  }

  lemma FewerPending(a: Sockets, b: Sockets)
    requires Distinct(a.live) && Distinct(b.live)
    requires forall s :: s in PreAuth(b) ==> s in PreAuth(a)
    ensures |PreAuth(b)| <= |PreAuth(a)|
  {
    PreAuthDistinct(a);
    PreAuthDistinct(b);
    DistinctSize(PreAuth(a));
    DistinctSize(PreAuth(b));
    var small, large := Elements(PreAuth(b)), Elements(PreAuth(a));
    assert forall s :: s in small ==> s in PreAuth(b) && s in large;
    SubsetSize(small, large);
  }

  lemma MoveKeepsCap(socks: Sockets, m: Move)
    requires Inv(socks) && CapKept(socks) && CanMove(socks, m)
    ensures CapKept(Moved(socks, m))
  {
    MoveKeepsInv(socks, m);
    if m.Join? {
      JoinCapsPreAuth(socks, m.ws, m.now);
    } else {
      MoveAddsNoPending(socks, m);
      FewerPending(socks, Moved(socks, m));
    }
  }

  lemma MoveAddsNoPending(socks: Sockets, m: Move)
    requires Inv(socks) && !m.Join? && CanMove(socks, m)
    ensures forall s :: s in PreAuth(Moved(socks, m)) ==> s in PreAuth(socks)
  {
  }

  function Holding(att: map<int, Att>, role: Role): int -> bool {
    s => Holds(att, s, role)
  }

  lemma TwoDiffer(h: seq<int>)
    requires Distinct(h)
    ensures |h| > 1 ==> h[0] in h && h[1] in h && h[0] != h[1]
  {
  }

  lemma {:induction false} FewHolders(socks: Sockets, role: Role)
    requires Inv(socks)
    ensures |Filter(socks.live, Holding(socks.att, role))| <= 1
  {
    var h := Filter(socks.live, Holding(socks.att, role));
    FilterKeepsDistinct(socks.live, Holding(socks.att, role));
    assert AtMostOne(socks, role);
    TwoDiffer(h);
  }

  /** At most four pending sockets, a mac and a phone. */
  lemma AtMostSix(socks: Sockets)
    requires Inv(socks) && CapKept(socks)
    ensures |socks.live| <= 6
  {
    var macs := Filter(socks.live, Holding(socks.att, Mac));
    var phones := Filter(socks.live, Holding(socks.att, Phone));
    FewHolders(socks, Mac);
    FewHolders(socks, Phone);
    PreAuthDistinct(socks);
    FilterKeepsDistinct(socks.live, Holding(socks.att, Mac));
    FilterKeepsDistinct(socks.live, Holding(socks.att, Phone));
    ConcatDistinct(macs, phones);
    DifferenceSize(socks.live, macs + phones, PreAuth(socks));
  }
}
