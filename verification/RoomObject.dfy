/** The room as it runs: fields, loops over the socket set, rows put and deleted
    one by one (src/room.js; host/runtime.js, acceptWebSocket and closeRoom).
    Every method is tied to the function of module Rooms that says what it does. */
module RoomObjects {
  import opened Wrappers
  import opened Sequences
  import opened Canonical
  import opened Limits
  import opened RoomSockets
  import Quotas
  import opened Rooms

  // ------------------------------------------------------- closing in a loop

  lemma {:induction false} CloseFiltered(s: seq<int>, x: int, f: int -> bool)
    requires !f(x)
    ensures Filter(Without(s, [x]), f) == Filter(s, f)
  {
    if s != [] {
      CloseFiltered(s[1..], x, f);
      if s[0] != x {
        assert Without(s, [x])[1..] == Without(s[1..], [x]);
      }
    }
  }

  lemma {:induction false} WithoutStep(s: seq<int>, x: int, xs: seq<int>)
    ensures Without(Without(s, [x]), xs) == Without(s, [x] + xs)
  {
    if s != [] {
      WithoutStep(s[1..], x, xs);
      if s[0] != x {
        assert Without(s, [x])[1..] == Without(s[1..], [x]);
      }
    }
  }

  /** What an outcome makes of a room. */
  function Applied(before: Room, ws: int, o: Outcome): Room {
    Room(Judged(before.socks, ws, o.verdict), o.store, o.mem)
  }

  /** Of the challenges before, those in `keys` are still to be looked at. */
  ghost predicate Partway(before: map<string, int>, after: map<string, int>, keys: set<string>, now: int) {
    && keys <= after.Keys
    && (forall c :: c in after ==> c in before && after[c] == before[c] && (c in keys || after[c] >= now))
    && (forall c :: c in before && before[c] >= now ==> c in after)
  }

  lemma PartwayStep(before: map<string, int>, after: map<string, int>, keys: set<string>, c: string, now: int)
    requires Partway(before, after, keys, now) && c in keys
    ensures var after1 := if after[c] < now then after - {c} else after;
            && Partway(before, after1, keys - {c}, now)
            && |after1.Keys - (keys - {c})| == |after.Keys - keys| + if after[c] < now then 0 else 1
  {
  }

  lemma PartwayDone(before: map<string, int>, after: map<string, int>, now: int)
    requires Partway(before, after, {}, now)
    ensures after == LiveChallenges(before, now) && |after.Keys - {}| == |after|
  {
  }

  /** Where a frame of `ws` goes: to a routable holder of the other slot, if any. */
  ghost predicate GoesTo(socks: Sockets, ws: int, role: Role, to: Option<int>) {
    match to
    case None => !HeldByOther(socks, Other(role), ws)
    case Some(peer) => peer in socks.live && peer != ws && Holds(socks.att, peer, Other(role))
  }

  class RoomObject {
    const env: Env
    var sockets: seq<int>
    var closing: set<int>
    var att: map<int, Att>
    var store: Store
    const admissionWindow: FixedWindow
    const frameWindow: FixedWindow
    var quota: Option<Quotas.Quota>
    var quotaFlushedBytes: nat

    ghost predicate Valid() {
      admissionWindow != frameWindow
    }

    ghost function Socks(): Sockets
      reads this
    {
      Sockets(sockets, closing, att)
    }

    ghost function Mem(): Memory
      reads this, admissionWindow, frameWindow
    {
      Memory(admissionWindow.State(), frameWindow.State(), quota, quotaFlushedBytes)
    }

    ghost function State(): Room
      reads this, admissionWindow, frameWindow
    {
      Room(Socks(), store, Mem())
    }

    constructor (env: Env)
      ensures State() == NEW_ROOM && this.env == env
      ensures Valid() && fresh(admissionWindow) && fresh(frameWindow)
    {
      this.env := env;
      sockets, closing, att := [], {}, map[];
      store := EMPTY;
      var admissions := new FixedWindow();
      var frames := new FixedWindow();
      admissionWindow, frameWindow := admissions, frames;
      quota, quotaFlushedBytes := None, 0;
    }

    // --------------------------------------------------------- the socket set

    method CloseSocket(ws: int)
      modifies this`sockets
      ensures Socks() == CloseOne(old(Socks()), ws)
    {
      sockets := Without(sockets, [ws]);
    }

    method SomeoneHolds(role: Role, ws: int) returns (held: bool)
      ensures held == HeldByOther(Socks(), role, ws)
    {
      var rest := sockets;
      while rest != []
        invariant forall s :: s in rest ==> s in sockets
        invariant forall s :: s in sockets && s != ws && Holds(att, s, role) ==> s in rest
        decreases |rest|
      {
        var s := rest[0];
        if s != ws && Holds(att, s, role) {
          assert s in rest;
          return true;
        }
        assert rest == [s] + rest[1..];
        rest := rest[1..];
      }
      held := false;
    }

    /** Close every other routable holder of the slot. */
    method CloseHolders(role: Role, ws: int)
      modifies this`sockets
      ensures Socks() == CloseRole(old(Socks()), role, ws)
    {
      ghost var spares := Spares(att, role, ws);
      var rest := sockets;
      while rest != []
        invariant Filter(sockets, spares) == Filter(old(sockets), spares)
        invariant forall s :: s in sockets ==> s in rest || spares(s)
        decreases |rest|
      {
        var peer := rest[0];
        assert rest == [peer] + rest[1..];
        if peer != ws && Holds(att, peer, role) {
          CloseFiltered(sockets, peer, spares);
          CloseSocket(peer);
        }
        rest := rest[1..];
      }
      FilterAll(sockets, spares);
    }

    method ClosePeers(ws: int)
      modifies this`sockets
      ensures Socks() == ClosePeerOf(old(Socks()), ws)
    {
      if ws in att && att[ws].Admitted? {
        CloseHolders(Other(att[ws].role), ws);
      }
    }

    method CloseEverySocket()
      modifies this`sockets
      ensures Socks() == old(Socks()).(live := [])
    {
      var rest := sockets;
      while rest != []
        invariant forall s :: s in sockets ==> s in rest
        decreases |rest|
      {
        assert rest == [rest[0]] + rest[1..];
        CloseSocket(rest[0]);
        rest := rest[1..];
      }
      SomeElement(sockets);
    }

    method TeardownRoom()
      modifies this`sockets, this`store
      ensures Socks() == old(Socks()).(live := []) && store == EMPTY
    {
      CloseEverySocket();
      store := EMPTY;
    }

    // ----------------------------------------------------------- connections

    /** The un-admitted sockets, oldest first. */
    method PendingByAge() returns (order: seq<int>)
      ensures order == ByAge(PreAuth(Socks()), AgeOf(att))
    {
      var preAuth: seq<int> := [];
      var rest := sockets;
      while rest != []
        invariant preAuth + Filter(rest, Pending(att)) == PreAuth(Socks())
        decreases |rest|
      {
        if rest[0] in att && !att[rest[0]].Admitted? {
          preAuth := preAuth + [rest[0]];
        }
        rest := rest[1..];
      }
      assert preAuth + [] == preAuth;
      order := ByAge(preAuth, AgeOf(att));
    }

    method EvictExcessPreAuth()
      modifies this`sockets
      ensures Socks() == old(Socks()).(live := Without(old(sockets), Excess(old(Socks()))))
    {
      var order := PendingByAge();
      ghost var excess := if |order| <= MAX_PREAUTH_SOCKETS then [] else order[..|order| - MAX_PREAUTH_SOCKETS];
      assert excess == Excess(Socks());
      var i := 0;
      while i < |order| - MAX_PREAUTH_SOCKETS
        invariant 0 <= i <= |excess|
        invariant Without(sockets, excess[i..]) == Without(old(sockets), excess)
        decreases |order| - MAX_PREAUTH_SOCKETS - i
      {
        assert excess[i..] == [excess[i]] + excess[i + 1..];
        WithoutStep(sockets, order[i], excess[i + 1..]);
        CloseSocket(order[i]);
        i := i + 1;
      }
      assert excess[i..] == [];
      WithoutNone(sockets);
    }

    method HandleUpgrade(ws: int, now: int)
      modifies this`sockets, this`att
      ensures State() == Step(old(State()), env, Connect(ws, now))
    {
      sockets := sockets + [ws];
      att := att[ws := Hello(now)];
      EvictExcessPreAuth();
    }

    /** The transport acknowledges the peer's close frame. */
    method AcknowledgeClose(ws: int)
      modifies this`sockets, this`closing
      ensures State() == Step(old(State()), env, RemoteClose(ws))
    {
      if ws in sockets {
        CloseSocket(ws);
        closing := closing + {ws};
      }
    }

    /** The transport's close event; a socket the relay closed itself is silent. */
    method WebSocketClose(ws: int)
      modifies this`sockets, this`closing
      ensures State() == Step(old(State()), env, CloseEvent(ws))
    {
      if ws in sockets || ws in closing {
        CloseSocket(ws);
        closing := closing - {ws};
        ClosePeers(ws);
      }
    }

    method WebSocketError(ws: int)
      modifies this`sockets
      ensures State() == Step(old(State()), env, SocketError(ws))
    {
      ClosePeers(ws);
    }

    /** The drain closes a room whole. */
    method CloseRoom()
      modifies this`sockets
      ensures State() == Step(old(State()), env, DrainEvict)
    {
      CloseEverySocket();
    }

    // ---------------------------------------------------------------- limits

    ghost function Meter(): Quotas.Meter
      reads this, admissionWindow, frameWindow
    {
      MeterOf(store, Mem())
    }

    method OverQuota(size: nat, now: int) returns (over: bool)
      modifies this`quota, this`quotaFlushedBytes, this`store, this`sockets
      ensures Meter() == Quotas.Charged(old(Meter()), now, size, env.quotaLimit)
      ensures over <==> Quotas.Over(Meter(), env.quotaLimit)
      ensures store == old(store).(quota := store.quota)
      ensures Socks() == if over then old(Socks()).(live := []) else old(Socks())
    {
      if quota.None? {
        quota := Some(if store.quota.Some? then store.quota.value else Quotas.Quota(now, 0));
        quotaFlushedBytes := quota.value.bytes;
      }
      if now - quota.value.dayStart >= Quotas.QUOTA_WINDOW_MS {
        quota := Some(Quotas.Quota(now, 0));
        quotaFlushedBytes := 0;
        store := store.(quota := quota);
      }
      quota := Some(quota.value.(bytes := quota.value.bytes + size));
      if quota.value.bytes > env.quotaLimit {
        store := store.(quota := quota);
        CloseEverySocket();
        return true;
      }
      if quota.value.bytes - quotaFlushedBytes >= Quotas.QUOTA_FLUSH_BYTES {
        quotaFlushedBytes := quota.value.bytes;
        store := store.(quota := quota);
      }
      over := false;
    }

    // -------------------------------------------------------------- messages

    method HandleHello(ws: int, json: Json, drawn: string)
      requires ws in att
      modifies this`sockets, this`att
      ensures State() == Applied(old(State()), ws, OnHello(old(State()), json, drawn))
    {
      if json.NotJson? || json.v != Some(1) || json.role.None? {
        CloseSocket(ws);
        return;
      }
      att := att[ws := Challenged(json.role.value, drawn, json.nonDisplacing, att[ws].connectedAt)];
    }

    method HandleProof(ws: int, json: Json, now: int, drawn: string)
      requires ws in att && att[ws].Challenged? && Valid()
      modifies this, admissionWindow
      ensures State() == Applied(old(State()), ws, OnProof(old(State()), env, ws, old(att)[ws], json, now, drawn))
    {
      var mine := att[ws];
      ghost var before := State();
      var limited := admissionWindow.RateLimited(MAX_ADMISSION_ATTEMPTS, ADMISSION_WINDOW_MS, now);
      if limited || json.NotJson? {
        CloseSocket(ws);
        return;
      }
      if Established(store) {
        if json.sig.None? {
          CloseSocket(ws);
          return;
        }
        var transcript := JoinTranscript(mine.role, env.b64(mine.nonce), env.room, env.origin);
        if !env.verify(json.sig.value, transcript, store.verifier.value) {
          CloseSocket(ws);
          return;
        }
        store := store.(lastActivity := Some(now));
        Admit(ws, None, now, drawn);
        return;
      }
      if env.attestRequired && mine.role == Phone {
        if json.ticket.None? || json.ticket.value !in store.tickets || store.tickets[json.ticket.value].expiresAt < now {
          CloseSocket(ws);
          return;
        }
        var key := store.tickets[json.ticket.value].key;
        store := store.(tickets := store.tickets - {json.ticket.value});
        Admit(ws, Some(key), now, drawn);
        return;
      }
      Admit(ws, None, now, drawn);
    }

    method Admit(ws: int, key: Option<Attested>, now: int, token: string)
      requires ws in att && att[ws].Challenged?
      modifies this`sockets, this`att, this`store
      ensures State() == Applied(old(State()), ws,
                                 Rooms.Admit(old(Socks()), old(store), Mem(), ws, old(att)[ws], key, now, token))
    {
      var mine := att[ws];
      var established := Established(store);
      if !established && mine.role == Mac {
        store := store.(cycles := 0);
      }
      if mine.role == Phone {
        var macParked := SomeoneHolds(Mac, ws);
        if !macParked {
          CloseSocket(ws);
          return;
        }
        if !established {
          if store.cycles + 1 > MAX_PAIRING_CYCLES {
            TeardownRoom();
            return;
          }
          store := store.(cycles := store.cycles + 1);
        }
      }
      TakeOrYield(ws, key, now, token);
    }

    /** The await-free end of admit(). */
    method TakeOrYield(ws: int, key: Option<Attested>, now: int, token: string)
      requires ws in att && att[ws].Challenged?
      modifies this`sockets, this`att, this`store
      ensures State() == Applied(old(State()), ws,
                                 Seat(old(Socks()), old(store), Mem(), ws, old(att)[ws], key, now, token))
    {
      var mine := att[ws];
      if mine.nonDisplacing {
        var occupied := SomeoneHolds(mine.role, ws);
        if occupied {
          CloseSocket(ws);
          return;
        }
      }
      CloseHolders(mine.role, ws);
      att := att[ws := Admitted(mine.role, mine.connectedAt)];
      if mine.role == Phone {
        store := store.(tokens := store.tokens[token := Token(now + REG_TOKEN_TTL_MS, key)]);
      }
    }

    method Forward(ws: int) returns (to: Option<int>)
      requires ws in att && att[ws].Admitted?
      ensures GoesTo(Socks(), ws, att[ws].role, to)
    {
      var other := Other(att[ws].role);
      var rest := sockets;
      while rest != []
        invariant forall s :: s in rest ==> s in sockets
        invariant forall s :: s in sockets && s != ws && Holds(att, s, other) ==> s in rest
        decreases |rest|
      {
        var peer := rest[0];
        assert peer in rest && rest == [peer] + rest[1..];
        if peer != ws && Holds(att, peer, other) {
          return Some(peer);
        }
        rest := rest[1..];
      }
      to := None;
    }

    method HandleSplice(ws: int, size: nat, now: int) returns (to: Option<int>)
      requires ws in att && att[ws].Admitted? && Valid()
      modifies this, frameWindow
      ensures State() == Applied(old(State()), ws, OnSplice(old(State()), env, size, now))
      ensures OnSplice(old(State()), env, size, now).verdict.Pass? ==> GoesTo(Socks(), ws, att[ws].role, to)
      ensures !OnSplice(old(State()), env, size, now).verdict.Pass? ==> to.None?
    {
      to := None;
      var limited := frameWindow.RateLimited(MAX_FRAMES_PER_WINDOW, FRAME_WINDOW_MS, now);
      if limited {
        ClosePeers(ws);
        CloseSocket(ws);
        return;
      }
      var over := OverQuota(size, now);
      if over {
        return;
      }
      to := Forward(ws);
    }

    /** One frame. Whatever is forwarded goes to the holder of the other slot. */
    method WebSocketMessage(ws: int, f: Frame, now: int, drawn: string) returns (to: Option<int>)
      requires ws in att && Valid()
      modifies this, admissionWindow, frameWindow
      ensures State() == Step(old(State()), env, Message(ws, f, now, drawn))
      ensures to.Some? ==> Holds(att, ws, Mac) || Holds(att, ws, Phone)
      ensures MoveOf(old(State()), env, Message(ws, f, now, drawn)) == Judge(ws, Pass)
              ==> att[ws].Admitted? && GoesTo(Socks(), ws, att[ws].role, to)
    {
      to := None;
      if f.size > CapOf(att[ws]) {
        ClosePeers(ws);
        CloseSocket(ws);
        return;
      }
      match att[ws]
      case Hello(_) => HandleHello(ws, f.json, drawn);
      case Challenged(_, _, _, _) => HandleProof(ws, f.json, now, drawn);
      case Admitted(_, _) => to := HandleSplice(ws, f.size, now);
    }

    // ------------------------------------------------------------ http calls

    /** Expired challenges go; the rest are counted. */
    method PruneChallenges(now: int) returns (live: nat)
      modifies this`store
      ensures store == old(store).(challenges := LiveChallenges(old(store.challenges), now))
      ensures live == |store.challenges|
    {
      ghost var before := store.challenges;
      var keys := store.challenges.Keys;
      live := 0;
      while keys != {}
        invariant store == old(store).(challenges := store.challenges)
        invariant Partway(before, store.challenges, keys, now)
        invariant live == |store.challenges.Keys - keys|
        decreases |keys|
      {
        var c :| c in keys;
        PartwayStep(before, store.challenges, keys, c, now);
        if store.challenges[c] < now {
          store := store.(challenges := store.challenges - {c});
        } else {
          live := live + 1;
        }
        keys := keys - {c};
      }
      PartwayDone(before, store.challenges, now);
    }

    method HandleAttestChallenge(now: int, drawn: string) returns (reply: Reply)
      modifies this`store
      ensures Answer(store, reply) == OnAskChallenge(old(store), now, drawn)
    {
      var live := PruneChallenges(now);
      if live >= MAX_OUTSTANDING_CHALLENGES {
        return Reply(429, None);
      }
      store := store.(challenges := store.challenges[drawn := now + ATTEST_CHALLENGE_TTL_MS]);
      reply := Reply(200, Some(drawn));
    }

    /** Look a challenge up and, if it is live, consume it. */
    method TakeChallenge(challenge: string, now: int) returns (good: bool)
      modifies this`store
      ensures good == GoodChallenge(old(store), challenge, now)
      ensures store == if good then Used(old(store), challenge) else old(store)
    {
      if challenge !in store.challenges || store.challenges[challenge] < now {
        return false;
      }
      store := store.(challenges := store.challenges - {challenge});
      good := true;
    }

    method HandleAttest(challenge: Option<string>, obj: Option<string>, now: int, drawn: string) returns (reply: Reply)
      modifies this`store
      ensures Answer(store, reply) == OnAttest(old(store), env, challenge, obj, now, drawn)
    {
      if !env.attestRequired || challenge.None? || obj.None? {
        return Reply(400, None);
      }
      var good := TakeChallenge(challenge.value, now);
      if !good {
        return Reply(403, None);
      }
      var attested := env.attest(obj.value, challenge.value);
      if attested.None? {
        return Reply(403, None);
      }
      store := store.(tickets := store.tickets[drawn := Ticket(now + TICKET_TTL_MS, attested.value)]);
      reply := Reply(200, Some(drawn));
    }

    method CheckAssertion(key: Attested, challenge: Option<string>, assertion: Option<string>, now: int)
      returns (ok: bool)
      modifies this`store
      ensures forall token, verifier {:trigger OnAssertion(old(store), env, key, token, verifier, challenge, assertion, now)} ::
                Answer(if ok then Registered(store, token, verifier, now) else store, Reply(if ok then 200 else 403, None))
                == OnAssertion(old(store), env, key, token, verifier, challenge, assertion, now)
    {
      if key.keyId == "" || key.publicKey == "" || challenge.None? || assertion.None? {
        return false;
      }
      var good := TakeChallenge(challenge.value, now);
      if !good {
        return false;
      }
      var asserted := env.assertion(assertion.value, challenge.value, key.publicKey);
      if asserted.None? {
        return false;
      }
      if key.keyId in store.counters && asserted.value <= store.counters[key.keyId] {
        return false;
      }
      store := store.(counters := store.counters[key.keyId := asserted.value]);
      store := store.(registrant := Some(key.keyId));
      ok := true;
    }

    method HandleRegister(token: Option<string>, verifier: Option<string>, challenge: Option<string>,
                          assertion: Option<string>, now: int) returns (reply: Reply)
      modifies this`store
      ensures Answer(store, reply) == OnRegister(old(store), env, token, verifier, challenge, assertion, now)
    {
      if verifier.None? {
        return Reply(400, None);
      }
      if Established(store) || token.None? {
        return Reply(403, None);
      }
      if token.value !in store.tokens || store.tokens[token.value].expiresAt < now {
        return Reply(403, None);
      }
      if env.attestRequired {
        var key := store.tokens[token.value].key;
        if key.None? {
          return Reply(403, None);
        }
        ghost var o := OnAssertion(store, env, key.value, token.value, verifier.value, challenge, assertion, now);
        var ok := CheckAssertion(key.value, challenge, assertion, now);
        assert o == Answer(if ok then Registered(store, token.value, verifier.value, now) else store,
                           Reply(if ok then 200 else 403, None));
        if !ok {
          return Reply(403, None);
        }
      }
      store := store.(tokens := store.tokens - {token.value});
      store := store.(verifier := verifier);
      store := store.(lastActivity := Some(now));
      reply := Reply(200, None);
    }

    method HandleDelete(challenge: Option<string>, signature: Option<string>, now: int) returns (reply: Reply)
      modifies this`store, this`sockets
      ensures State() == Step(old(State()), env, Delete(challenge, signature, now))
      ensures reply == OnDelete(old(store), env, challenge, signature, now).reply
    {
      if !Established(store) || challenge.None? || signature.None? {
        return Reply(403, None);
      }
      var verifier := store.verifier.value;
      var good := TakeChallenge(challenge.value, now);
      if !good {
        return Reply(403, None);
      }
      var transcript := DeleteTranscript(env.b64(challenge.value), env.room, env.origin);
      if !env.verify(signature.value, transcript, verifier) {
        return Reply(403, None);
      }
      TeardownRoom();
      reply := Reply(200, None);
    }

    // ----------------------------------------------------------------- alarm

    method PruneTickets(now: int)
      modifies this`store
      ensures store == old(store).(tickets := Pruned(old(store), now).tickets)
    {
      var keys := store.tickets.Keys;
      while keys != {}
        invariant keys <= store.tickets.Keys <= old(store.tickets.Keys)
        invariant store == old(store).(tickets := store.tickets)
        invariant forall t :: t in old(store.tickets) && (t in keys || old(store.tickets)[t].expiresAt >= now) ==> t in store.tickets
        invariant forall t :: t in store.tickets && t !in keys ==> store.tickets[t].expiresAt >= now
        invariant forall t :: t in store.tickets ==> store.tickets[t] == old(store.tickets)[t]
        decreases |keys|
      {
        var t :| t in keys;
        if store.tickets[t].expiresAt < now {
          store := store.(tickets := store.tickets - {t});
        }
        keys := keys - {t};
      }
      assert store.tickets == Pruned(old(store), now).tickets;
    }

    method PruneTokens(now: int)
      modifies this`store
      ensures store == old(store).(tokens := Pruned(old(store), now).tokens)
    {
      var keys := store.tokens.Keys;
      while keys != {}
        invariant keys <= store.tokens.Keys <= old(store.tokens.Keys)
        invariant store == old(store).(tokens := store.tokens)
        invariant forall t :: t in old(store.tokens) && (t in keys || old(store.tokens)[t].expiresAt >= now) ==> t in store.tokens
        invariant forall t :: t in store.tokens && t !in keys ==> store.tokens[t].expiresAt >= now
        invariant forall t :: t in store.tokens ==> store.tokens[t] == old(store.tokens)[t]
        decreases |keys|
      {
        var t :| t in keys;
        if store.tokens[t].expiresAt < now {
          store := store.(tokens := store.tokens - {t});
        }
        keys := keys - {t};
      }
      assert store.tokens == Pruned(old(store), now).tokens;
    }

    method CloseLoiterers(now: int)
      modifies this`sockets
      ensures Socks() == Moved(old(Socks()), Sweep(now))
    {
      ghost var inTime := InTime(att, now);
      var rest := sockets;
      while rest != []
        invariant Filter(sockets, inTime) == Filter(old(sockets), inTime)
        invariant forall s :: s in sockets ==> s in rest || inTime(s)
        decreases |rest|
      {
        var ws := rest[0];
        assert rest == [ws] + rest[1..];
        if TimedOut(att, ws, now) {
          CloseFiltered(sockets, ws, inTime);
          CloseSocket(ws);
        }
        rest := rest[1..];
      }
      FilterAll(sockets, inTime);
    }

    method OnAlarmFired(now: int)
      modifies this`sockets, this`store
      ensures State() == Step(old(State()), env, Alarm(now))
    {
      CloseLoiterers(now);
      PruneExpired(now);
      ReapIfIdle(now);
    }

    method PruneExpired(now: int)
      modifies this`store
      ensures store == Pruned(old(store), now)
    {
      PruneTickets(now);
      PruneTokens(now);
      var live := PruneChallenges(now);
    }

    method ReapIfIdle(now: int)
      modifies this`sockets, this`store
      ensures if Reaps(old(store), env, now) then Socks() == old(Socks()).(live := []) && store == EMPTY
              else Socks() == old(Socks())
                   && store == if Established(old(store)) then old(store).(lastActivity := Some(LastActivity(old(store), now)))
                               else old(store)
    {
      if Established(store) {
        var last := if store.lastActivity.Some? then store.lastActivity.value else now;
        store := store.(lastActivity := Some(last));
        if now >= last + env.idleTtlMs {
          TeardownRoom();
        }
      }
    }
  }
}
