/** What becomes of each socket at every frame, close, error, connection and alarm,
    told by what can be seen of the event and of the sockets when it comes
    (src/room.js: webSocketMessage, handleHello, webSocketClose, webSocketError,
    closePeerOf, evictExcessPreAuth, alarm). */
module RoomFrames {
  import opened Wrappers
  import opened Canonical
  import opened RoomSockets
  import opened RoomSocketProofs
  import opened Limits
  import opened Rooms
  import opened RoomProofs
  import opened RoomCaps
  import opened RoomAuth

  predicate SentBy(r: Room, e: Event) {
    e.Message? && e.ws in r.socks.att
  }

  /** Only `ws` leaves the routable sockets. */
  ghost predicate OnlyGoes(before: Sockets, after: Sockets, ws: int) {
    after.att == before.att && forall s :: s in after.live <==> s in before.live && s != ws
  }

  /** Whoever holds the slot opposite `ws` leaves, and `ws` itself if it `goes`. */
  ghost predicate PeerGoes(before: Sockets, after: Sockets, ws: int, goes: bool)
    requires ws in before.att
  {
    && after.att == before.att
    && forall s :: s in after.live <==>
         && s in before.live && !(goes && s == ws)
         && !(s != ws && before.att[ws].Admitted? && s in before.att && before.att[s].Admitted?
              && before.att[s].role != before.att[ws].role)
  }

  /** A good hello is answered with a challenge in the role it asks for, any other
      first frame closes its socket; neither touches the rows or the limits. */
  lemma HelloExactly(r: Room, env: Env, e: Event)
    requires SentBy(r, e) && r.socks.att[e.ws].Hello?
    ensures var good := e.frame.size <= 8 * 1024 && e.frame.json.Object? && e.frame.json.v == Some(1) && e.frame.json.role.Some?;
            var r1 := Step(r, env, e);
            && r1.store == r.store && r1.mem == r.mem
            && if good then
                 && r1.socks.live == r.socks.live
                 && r1.socks.att == r.socks.att[e.ws := Challenged(e.frame.json.role.value, e.drawn, e.frame.json.nonDisplacing,
                                                                   r.socks.att[e.ws].connectedAt)]
               else OnlyGoes(r.socks, r1.socks, e.ws)
  {
  }

  /** A proof that is not admitted closes its socket and no other, unless it is one
      pairing cycle too many. */
  lemma RefusedProofGoes(r: Room, env: Env, e: Event)
    requires SentBy(r, e) && r.socks.att[e.ws].Challenged? && !Step(r, env, e).socks.att[e.ws].Admitted?
    ensures OverCap(r, env, e) || OnlyGoes(r.socks, Step(r, env, e).socks, e.ws)
  {
    CheckKeepsBudget(r.store, r.mem, env, r.socks.att[e.ws], e.frame.json, e.now);
  }

  /** A ticket that lets a proof through is used up by it, whatever becomes of the
      proof after that. */
  lemma TicketGoes(r: Room, env: Env, e: Event)
    requires SentBy(r, e) && r.socks.att[e.ws].Challenged? && r.socks.att[e.ws].role == Phone
    requires !Established(r.store) && env.attestRequired && e.frame.size <= 8 * 1024 && Credentials(r, env, e)
    requires Bumped(r.mem.admission, e.now, 10 * 1000).count <= 40
    ensures e.frame.json.ticket.value !in Step(r, env, e).store.tickets
  {
    CheckKeepsBudget(r.store, r.mem, env, r.socks.att[e.ws], e.frame.json, e.now);
  }

  /** A spliced frame over its size or over the frame rate closes both sides. Any
      other is metered: it changes no socket, or closes all. */
  lemma SplicedFrame(r: Room, env: Env, e: Event)
    requires SentBy(r, e) && r.socks.att[e.ws].Admitted?
    ensures var after := Step(r, env, e).socks;
            if e.frame.size > 256 * 1024 || Bumped(r.mem.frames, e.now, 1000).count > 500 then
              PeerGoes(r.socks, after, e.ws, true)
            else after == r.socks || after == r.socks.(live := [])
  {
  }

  /** An acknowledged close frame takes its socket alone. */
  lemma CloseFrameTakesOne(r: Room, env: Env, ws: int)
    requires Inv(r.socks)
    ensures OnlyGoes(r.socks, Step(r, env, RemoteClose(ws)).socks, ws)
  {
  }

  /** The close event takes the other side; one for a socket that the relay has
      closed is silent. */
  lemma CloseEventTakesPeer(r: Room, env: Env, ws: int)
    requires Inv(r.socks) && ws in r.socks.att
    ensures var after := Step(r, env, CloseEvent(ws)).socks;
            if ws in r.socks.live || ws in r.socks.closing then PeerGoes(r.socks, after, ws, true) else after == r.socks
  {
    if ws in r.socks.live || ws in r.socks.closing {
      ClosedTakesPeer(r.socks, ws);
    }
  }

  lemma ClosedTakesPeer(socks: Sockets, ws: int)
    requires Inv(socks) && (ws in socks.live || ws in socks.closing)
    ensures PeerGoes(socks, Moved(socks, Closed(ws)), ws, true)
  {
  }

  /** A transport error takes the other side, and leaves its own socket routable. */
  lemma ErrorTakesPeer(r: Room, env: Env, ws: int)
    requires Inv(r.socks) && ws in r.socks.att
    ensures PeerGoes(r.socks, Step(r, env, SocketError(ws)).socks, ws, false)
  {
  }

  // ------------------------------------------------------------ connections

  predicate ByAgeSorted(s: seq<int>, age: int -> int) {
    forall i, j :: 0 <= i < j < |s| ==> age(s[i]) <= age(s[j])
  }

  lemma {:induction false} InsertSorts(s: seq<int>, x: int, age: int -> int)
    requires ByAgeSorted(s, age)
    ensures ByAgeSorted(InsertByAge(s, x, age), age)
  {
    if s != [] && age(s[|s| - 1]) > age(x) {
      var front, last := s[..|s| - 1], s[|s| - 1];
      InsertSorts(front, x, age);
      InsertElements(front, x, age);
      AppendSorted(InsertByAge(front, x, age), last, age);
    }
  }

  lemma AppendSorted(s: seq<int>, last: int, age: int -> int)
    requires ByAgeSorted(s, age) && forall y :: y in s ==> age(y) <= age(last)
    ensures ByAgeSorted(s + [last], age)
  {
    var out := s + [last];
    forall i, j | 0 <= i < j < |out|
      ensures age(out[i]) <= age(out[j])
    {
      assert out[i] == s[i] && s[i] in s;
    }
  }

  lemma {:induction false} ByAgeSorts(s: seq<int>, age: int -> int)
    ensures ByAgeSorted(ByAge(s, age), age)
  {
    if s != [] {
      ByAgeSorts(s[..|s| - 1], age);
      InsertSorts(ByAge(s[..|s| - 1], age), s[|s| - 1], age);
    }
  }

  /** A connection adds its socket, in the hello state; whoever it evicts was waiting
      at least as long as every socket that goes on waiting. */
  lemma OldestAreEvicted(r: Room, env: Env, ws: int, now: int, x: int, y: int)
    requires Inv(r.socks) && ws !in r.socks.att
    ensures var after := Step(r, env, Connect(ws, now)).socks;
            && after.att == r.socks.att[ws := Hello(now)]
            && (forall s :: s in after.live ==> s in r.socks.live || s == ws)
            && ((x in r.socks.live || x == ws) && x !in after.live && y in after.live && !after.att[y].Admitted? ==>
                  !after.att[x].Admitted? && after.att[x].connectedAt <= after.att[y].connectedAt)
  {
    var added := Added(r.socks, ws, now);
    var p, age := PreAuth(added), AgeOf(added.att);
    var order := ByAge(p, age);
    ByAgeElements(p, age);
    ByAgeSorts(p, age);
    ExcessIsPending(added);
    var after := Joined(r.socks, ws, now);
    if x in Excess(added) && y in after.live && !after.att[y].Admitted? {
      OlderThanTheRest(order, |order| - MAX_PREAUTH_SOCKETS, age, x, y);
    }
  }

  lemma OlderThanTheRest(order: seq<int>, n: int, age: int -> int, x: int, y: int)
    requires ByAgeSorted(order, age) && 0 <= n <= |order| && x in order[..n] && y in order && y !in order[..n]
    ensures age(x) <= age(y)
  {
    var i :| 0 <= i < n && order[..n][i] == x;
    assert order == order[..n] + order[n..];
    var j :| 0 <= j < |order| - n && order[n..][j] == y;
    assert order[i] == x && order[n + j] == y;
  }

  // ------------------------------------------------------------------ alarm

  /** An alarm that does not reap the room closes exactly the sockets that have been
      un-admitted for more than 15 seconds, and drops exactly the expired tickets,
      tokens and challenges. */
  lemma AlarmExactly(r: Room, env: Env, now: int)
    requires Inv(r.socks) && !Reaps(r.store, env, now)
    ensures var r1 := Step(r, env, Alarm(now));
            && r1.socks.att == r.socks.att
            && (forall s :: s in r1.socks.live <==>
                  && s in r.socks.live
                  && (r.socks.att[s].Admitted? || r.socks.att[s].connectedAt == 0
                      || now - r.socks.att[s].connectedAt <= 15 * 1000))
            && (forall t :: t in r1.store.tickets <==> t in r.store.tickets && r.store.tickets[t].expiresAt >= now)
            && (forall t :: t in r1.store.tokens <==> t in r.store.tokens && r.store.tokens[t].expiresAt >= now)
            && (forall c :: c in r1.store.challenges <==> c in r.store.challenges && r.store.challenges[c] >= now)
            && (forall t :: t in r1.store.tickets ==> r1.store.tickets[t] == r.store.tickets[t])
            && (forall t :: t in r1.store.tokens ==> r1.store.tokens[t] == r.store.tokens[t])
            && (forall c :: c in r1.store.challenges ==> r1.store.challenges[c] == r.store.challenges[c])
  {
  }
}
