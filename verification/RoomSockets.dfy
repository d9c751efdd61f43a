/** The sockets of one room: which are routed to, what state each is in, and how
    every event moves them (src/room.js with host/runtime.js, acceptWebSocket). */
module RoomSockets {
  import opened Sequences
  import opened Canonical

  /** What a socket's attachment says. */
  datatype Att =
    | Hello(connectedAt: int)
    | Challenged(role: Role, nonce: string, nonDisplacing: bool, connectedAt: int)
    | Admitted(role: Role, connectedAt: int)

  /** `live`: the routable sockets, in the order they were accepted. `closing`:
      sockets that left it because their peer sent a close frame, and whose close
      event is still to come. `att`: every socket's attachment, routable or not. */
  datatype Sockets = Sockets(live: seq<int>, closing: set<int>, att: map<int, Att>)

  const MAX_PREAUTH_SOCKETS: nat := 4
  const PREAUTH_DEADLINE_MS := 15 * 1000

  function Other(role: Role): Role {
    if role == Mac then Phone else Mac
  }

  predicate Holds(att: map<int, Att>, s: int, role: Role) {
    s in att && att[s].Admitted? && att[s].role == role
  }

  /** Some routable socket holds the slot. */
  ghost predicate Held(socks: Sockets, role: Role) {
    exists s :: s in socks.live && Holds(socks.att, s, role)
  }

  ghost predicate HeldByOther(socks: Sockets, role: Role, ws: int) {
    exists s :: s in socks.live && s != ws && Holds(socks.att, s, role)
  }

  function Spares(att: map<int, Att>, role: Role, ws: int): int -> bool {
    s => s == ws || !Holds(att, s, role)
  }

  /** Every routable holder of the slot is closed, except `ws`. */
  function CloseRole(socks: Sockets, role: Role, ws: int): Sockets {
    socks.(live := Filter(socks.live, Spares(socks.att, role, ws)))
  }

  function CloseOne(socks: Sockets, ws: int): Sockets {
    socks.(live := Without(socks.live, [ws]))
  }

  function ClosePeerOf(socks: Sockets, ws: int): Sockets {
    if ws in socks.att && socks.att[ws].Admitted? then CloseRole(socks, Other(socks.att[ws].role), ws) else socks
  }

  // ---------------------------------------------------- a frame's verdict

  /** What a frame does to the sockets. */
  datatype Verdict =
    | Drop                                                            // this socket is closed
    | DropBoth                                                        // it and its peer are
    | CloseAll                                                        // every socket is
    | Challenge(role: Role, nonce: string, nonDisplacing: bool)       // hello -> challenged
    | TakeSlot(role: Role)                                            // challenged -> admitted
    | Pass

  function Judged(socks: Sockets, ws: int, v: Verdict): Sockets {
    match v
    case Drop => CloseOne(socks, ws)
    case DropBoth => CloseOne(ClosePeerOf(socks, ws), ws)
    case CloseAll => socks.(live := [])
    case Challenge(role, nonce, nd) =>
      if ws in socks.att then
        socks.(att := socks.att[ws := Challenged(role, nonce, nd, socks.att[ws].connectedAt)])
      else socks
    case TakeSlot(role) =>
      if ws in socks.att then
        CloseRole(socks, role, ws).(att := socks.att[ws := Admitted(role, socks.att[ws].connectedAt)])
      else socks
    case Pass => socks
  }

  /** The verdicts a frame on `ws` can get. */
  ghost predicate CanGet(socks: Sockets, ws: int, v: Verdict) {
    match v
    case Challenge(_, _, _) => ws in socks.att && socks.att[ws].Hello?
    case TakeSlot(role) =>
      && ws in socks.att && socks.att[ws].Challenged? && socks.att[ws].role == role
      && (role == Phone ==> HeldByOther(socks, Mac, ws))
    case _ => true
  }

  // ------------------------------------------------------- a new connection

  function Pending(att: map<int, Att>): int -> bool {
    s => s in att && !att[s].Admitted?
  }

  function PreAuth(socks: Sockets): seq<int> {
    Filter(socks.live, Pending(socks.att))
  }

  function AgeOf(att: map<int, Att>): int -> int {
    s => if s in att then att[s].connectedAt else 0
  }

  /** Stable: among equals, the one that came first stays first. */
  function InsertByAge(s: seq<int>, x: int, age: int -> int): (out: seq<int>)
    ensures |out| == |s| + 1
  {
    if s == [] then [x]
    else
      var last := s[|s| - 1];
      if age(last) <= age(x) then s + [x] else InsertByAge(s[..|s| - 1], x, age) + [last]
  }

  function ByAge(s: seq<int>, age: int -> int): (out: seq<int>)
    ensures |out| == |s|
  {
    if s == [] then [] else InsertByAge(ByAge(s[..|s| - 1], age), s[|s| - 1], age)
  }

  /** The oldest pending sockets over the cap. */
  function Excess(socks: Sockets): seq<int> {
    var order := ByAge(PreAuth(socks), AgeOf(socks.att));
    if |order| <= MAX_PREAUTH_SOCKETS then [] else order[..|order| - MAX_PREAUTH_SOCKETS]
  }

  function Added(socks: Sockets, ws: int, now: int): Sockets {
    socks.(live := socks.live + [ws], att := socks.att[ws := Hello(now)])
  }

  function Evicted(socks: Sockets): Sockets {
    socks.(live := Without(socks.live, Excess(socks)))
  }

  /** A connection, and the eviction it ends in. */
  function Joined(socks: Sockets, ws: int, now: int): Sockets {
    Evicted(Added(socks, ws, now))
  }

  /** Un-admitted past the deadline; a connect time of 0 is never past it. */
  predicate TimedOut(att: map<int, Att>, s: int, now: int) {
    s in att && !att[s].Admitted? && att[s].connectedAt != 0 && now - att[s].connectedAt > PREAUTH_DEADLINE_MS
  }

  function InTime(att: map<int, Att>, now: int): int -> bool {
    s => !TimedOut(att, s, now)
  }

  // ------------------------------------------------------------- the moves

  datatype Move =
    | Join(ws: int, now: int)
    | Judge(ws: int, verdict: Verdict)
    | CloseFrame(ws: int)   // the peer's close frame is acknowledged
    | Closed(ws: int)       // the close event of a remote or abrupt close
    | Failed(ws: int)       // a transport error
    | Sweep(now: int)       // the alarm's deadline sweep
    | Clear                 // teardown, drain eviction
    | Restart               // the process, and every socket with it, is gone
    | Still

  function Moved(socks: Sockets, m: Move): Sockets {
    match m
    case Join(ws, now) => Joined(socks, ws, now)
    case Judge(ws, v) => Judged(socks, ws, v)
    case CloseFrame(ws) =>
      if ws in socks.live then CloseOne(socks, ws).(closing := socks.closing + {ws}) else socks
    case Closed(ws) =>
      if ws in socks.live || ws in socks.closing then
        ClosePeerOf(CloseOne(socks, ws).(closing := socks.closing - {ws}), ws)
      else socks
    case Failed(ws) => ClosePeerOf(socks, ws)
    case Sweep(now) => socks.(live := Filter(socks.live, InTime(socks.att, now)))
    case Clear => socks.(live := [])
    case Restart => Sockets([], {}, map[])
    case Still => socks
  }

  ghost predicate CanMove(socks: Sockets, m: Move) {
    match m
    case Join(ws, _) => ws !in socks.att
    case Judge(ws, v) => ws in socks.att && CanGet(socks, ws, v)
    case _ => true
  }

  // --------------------------------------------------------- what they keep

  ghost predicate AtMostOne(socks: Sockets, role: Role) {
    forall s, t :: s in socks.live && t in socks.live && Holds(socks.att, s, role) && Holds(socks.att, t, role)
                   ==> s == t
  }

  ghost predicate Inv(socks: Sockets) {
    && Distinct(socks.live)
    && (forall s :: s in socks.live ==> s in socks.att && s !in socks.closing)
    && (forall s :: s in socks.closing ==> s in socks.att)
    && AtMostOne(socks, Mac) && AtMostOne(socks, Phone)
  }

  lemma FewerKeepsInv(socks: Sockets, fewer: seq<int>)
    requires Inv(socks) && Distinct(fewer) && forall s :: s in fewer ==> s in socks.live
    ensures Inv(socks.(live := fewer))
  {
  }

  lemma CloseOneKeepsInv(socks: Sockets, ws: int)
    requires Inv(socks)
    ensures Inv(CloseOne(socks, ws))
  {
    WithoutKeepsDistinct(socks.live, [ws]);
    FewerKeepsInv(socks, Without(socks.live, [ws]));
  }

  lemma CloseRoleKeepsInv(socks: Sockets, role: Role, ws: int)
    requires Inv(socks)
    ensures Inv(CloseRole(socks, role, ws))
  {
    FilterKeepsDistinct(socks.live, Spares(socks.att, role, ws));
    FewerKeepsInv(socks, Filter(socks.live, Spares(socks.att, role, ws)));
  }

  lemma ClosePeerKeepsInv(socks: Sockets, ws: int)
    requires Inv(socks)
    ensures Inv(ClosePeerOf(socks, ws))
  {
    if ws in socks.att && socks.att[ws].Admitted? {
      CloseRoleKeepsInv(socks, Other(socks.att[ws].role), ws);
    }
  }

  lemma TakeSlotKeepsInv(socks: Sockets, ws: int, role: Role)
    requires Inv(socks) && ws in socks.att && socks.att[ws].Challenged?
    ensures Inv(Judged(socks, ws, TakeSlot(role)))
  {
    CloseRoleKeepsInv(socks, role, ws);
    var s1 := CloseRole(socks, role, ws);
    var s2 := Judged(socks, ws, TakeSlot(role));
    assert forall s, r :: s != ws ==> Holds(s2.att, s, r) == Holds(s1.att, s, r);
    assert forall s :: s in s2.live && s != ws ==> !Holds(s1.att, s, role);
    assert AtMostOne(s2, role);
    assert AtMostOne(s2, Other(role));
  }

  lemma JudgedKeepsInv(socks: Sockets, ws: int, v: Verdict)
    requires Inv(socks) && CanGet(socks, ws, v)
    ensures Inv(Judged(socks, ws, v))
  {
    match v
    case Drop => CloseOneKeepsInv(socks, ws);
    case DropBoth =>
      ClosePeerKeepsInv(socks, ws);
      CloseOneKeepsInv(ClosePeerOf(socks, ws), ws);
    case TakeSlot(role) => TakeSlotKeepsInv(socks, ws, role);
    case _ =>
  }

  lemma AddedKeepsInv(socks: Sockets, ws: int, now: int)
    requires Inv(socks) && ws !in socks.att
    ensures Inv(Added(socks, ws, now))
  {
    AppendDistinct(socks.live, ws);
  }

  lemma EvictedKeepsInv(socks: Sockets)
    requires Inv(socks)
    ensures Inv(Evicted(socks))
  {
    WithoutKeepsDistinct(socks.live, Excess(socks));
    FewerKeepsInv(socks, Evicted(socks).live);
  }

  lemma JoinKeepsInv(socks: Sockets, ws: int, now: int)
    requires Inv(socks) && ws !in socks.att
    ensures Inv(Joined(socks, ws, now))
  {
    AddedKeepsInv(socks, ws, now);
    EvictedKeepsInv(Added(socks, ws, now));
  }

  lemma ClosedKeepsInv(socks: Sockets, ws: int)
    requires Inv(socks)
    ensures Inv(Moved(socks, Closed(ws)))
  {
    CloseOneKeepsInv(socks, ws);
    ClosePeerKeepsInv(CloseOne(socks, ws).(closing := socks.closing - {ws}), ws);
  }

  lemma SweepKeepsInv(socks: Sockets, now: int)
    requires Inv(socks)
    ensures Inv(Moved(socks, Sweep(now)))
  {
    FilterKeepsDistinct(socks.live, InTime(socks.att, now));
    FewerKeepsInv(socks, Filter(socks.live, InTime(socks.att, now)));
  }

  lemma MoveKeepsInv(socks: Sockets, m: Move)
    requires Inv(socks) && CanMove(socks, m)
    ensures Inv(Moved(socks, m))
  {
    match m
    case Join(ws, now) => JoinKeepsInv(socks, ws, now);
    case Judge(ws, v) => JudgedKeepsInv(socks, ws, v);
    case CloseFrame(ws) => CloseOneKeepsInv(socks, ws);
    case Closed(ws) => ClosedKeepsInv(socks, ws);
    case Failed(ws) => ClosePeerKeepsInv(socks, ws);
    case Sweep(now) => SweepKeepsInv(socks, now);
    case _ =>
  }
}
