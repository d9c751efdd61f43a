/** The daily byte quota of a room: counted in memory, written to storage only
    now and then, lost from memory when the room is reloaded (src/room.js,
    overQuota). */
module Quotas {
  import opened Wrappers

  const QUOTA_WINDOW_MS := 24 * 60 * 60 * 1000
  const QUOTA_FLUSH_BYTES := 4 * 1024 * 1024

  datatype Quota = Quota(dayStart: int, bytes: nat)

  /** The count in memory, the value last flushed, and the stored row. */
  datatype Meter = Meter(inMemory: Option<Quota>, flushed: nat, stored: Option<Quota>)

  /** The count, read from storage on the first frame after a (re)load. */
  function Loaded(m: Meter, now: int): Meter {
    if m.inMemory.Some? then m
    else
      var q := if m.stored.Some? then m.stored.value else Quota(now, 0);
      Meter(Some(q), q.bytes, m.stored)
  }

  predicate Rolls(m: Meter, now: int) {
    var m1 := Loaded(m, now);
    now - m1.inMemory.value.dayStart >= QUOTA_WINDOW_MS
  }

  function Rolled(m: Meter, now: int): Meter {
    if Rolls(m, now) then Meter(Some(Quota(now, 0)), 0, Some(Quota(now, 0))) else Loaded(m, now)
  }

  /** A frame of `size` bytes against a count that is loaded and of today. */
  function Added(m: Meter, size: nat, limit: int): Meter
    requires m.inMemory.Some?
  {
    var q := m.inMemory.value.(bytes := m.inMemory.value.bytes + size);
    if q.bytes > limit then Meter(Some(q), m.flushed, Some(q))
    else if q.bytes - m.flushed >= QUOTA_FLUSH_BYTES then Meter(Some(q), q.bytes, Some(q))
    else Meter(Some(q), m.flushed, m.stored)
  }

  function Charged(m: Meter, now: int, size: nat, limit: int): (out: Meter)
    ensures out.inMemory.Some?
  {
    Added(Rolled(m, now), size, limit)
  }

  predicate Over(m: Meter, limit: int) {
    m.inMemory.Some? && m.inMemory.value.bytes > limit
  }

  // -------------------------------------------------------------- the bound

  /** What happens to the meter of a room: a frame arrives, the room is dropped
      from memory and later loaded again, or its stored state is wiped. */
  datatype Event = Frame(now: int, size: nat) | Reload | Teardown

  function Step(m: Meter, e: Event, limit: int): Meter {
    match e
    case Frame(now, size) => Charged(m, now, size, limit)
    case Reload => Meter(None, 0, m.stored)
    case Teardown => m.(stored := None)
  }

  /** The size of the frame, if it is handed on. */
  function Forwarded(m: Meter, e: Event, limit: int): nat {
    if e.Frame? && !Over(Charged(m, e.now, e.size, limit), limit) then e.size else 0
  }

  function TotalForwarded(m: Meter, events: seq<Event>, limit: int): nat
    decreases |events|
  {
    if events == [] then 0
    else Forwarded(m, events[0], limit) + TotalForwarded(Step(m, events[0], limit), events[1..], limit)
  }

  /** Whether the count starts again: the window rolls, or the room is wiped. */
  predicate Restarts(m: Meter, e: Event) {
    e.Teardown? || (e.Frame? && Rolls(m, e.now))
  }

  /** A negative limit lets nothing through. */
  function Cap(limit: int): nat {
    if limit < 0 then 0 else limit
  }

  /** One more limit for every restart, one more flush interval for every reload. */
  function Allowance(m: Meter, events: seq<Event>, limit: int): nat
    decreases |events|
  {
    if events == [] then 0
    else
      (if Restarts(m, events[0]) then Cap(limit) else if events[0].Reload? then QUOTA_FLUSH_BYTES else 0)
      + Allowance(Step(m, events[0], limit), events[1..], limit)
  }

  /** The count in memory is ahead of the last flush by less than one flush
      interval, unless it is over the limit. */
  predicate Sound(m: Meter, limit: int) {
    m.inMemory.Some? ==>
      var q := m.inMemory.value;
      m.flushed <= q.bytes && (q.bytes <= limit ==> q.bytes - m.flushed < QUOTA_FLUSH_BYTES)
  }

  function Persisted(m: Meter): nat {
    if m.stored.Some? then m.stored.value.bytes else 0
  }

  /** `sum` bytes forwarded since the count last started, over `r` reloads; of
      the count in memory, `base` bytes are older than that. */
  predicate Accounted(m: Meter, limit: int, sum: nat, r: nat, base: nat) {
    && sum <= Cap(limit) + r * QUOTA_FLUSH_BYTES
    && match m.inMemory
       case None => base == 0 && sum <= Persisted(m) + r * QUOTA_FLUSH_BYTES
       case Some(q) =>
         && sum <= q.bytes - base + r * QUOTA_FLUSH_BYTES
         && sum <= Persisted(m) + (r + 1) * QUOTA_FLUSH_BYTES
         && m.flushed <= Persisted(m) + base
  }

  lemma StepKeepsSound(m: Meter, e: Event, limit: int)
    requires Sound(m, limit)
    ensures Sound(Step(m, e, limit), limit)
  {
  }

  lemma FrameKeepsAccount(m: Meter, now: int, size: nat, limit: int, sum: nat, r: nat, base: nat)
    requires Sound(m, limit) && Accounted(m, limit, sum, r, base) && !Rolls(m, now)
    ensures var e := Frame(now, size);
            Accounted(Step(m, e, limit), limit, sum + Forwarded(m, e, limit), r, base)
  {
  }

  lemma RollStartsAccount(m: Meter, now: int, size: nat, limit: int)
    requires Rolls(m, now)
    ensures var e := Frame(now, size);
            Accounted(Step(m, e, limit), limit, Forwarded(m, e, limit), 0, 0)
  {
  }

  lemma {:induction false} AccountedBound(m: Meter, events: seq<Event>, limit: int, sum: nat, r: nat, base: nat)
    requires Sound(m, limit) && Accounted(m, limit, sum, r, base)
    ensures sum + TotalForwarded(m, events, limit)
            <= Cap(limit) + r * QUOTA_FLUSH_BYTES + Allowance(m, events, limit)
    decreases |events|
  {
    if events != [] {
      var e := events[0];
      var m1 := Step(m, e, limit);
      StepKeepsSound(m, e, limit);
      match e
      case Frame(now, size) =>
        if Rolls(m, now) {
          RollStartsAccount(m, now, size, limit);
          AccountedBound(m1, events[1..], limit, Forwarded(m, e, limit), 0, 0);
        } else {
          FrameKeepsAccount(m, now, size, limit, sum, r, base);
          AccountedBound(m1, events[1..], limit, sum + Forwarded(m, e, limit), r, base);
        }
      case Reload =>
        AccountedBound(m1, events[1..], limit, sum, r + 1, 0);
      case Teardown =>
        AccountedBound(m1, events[1..], limit, 0, 0, if m.inMemory.Some? then m.inMemory.value.bytes else 0);
    }
  }

  /** Over any run, what is forwarded is at most the limit, once more for every
      restart of the count, plus one flush interval for every reload. */
  lemma QuotaBound(m: Meter, events: seq<Event>, limit: int)
    requires Sound(m, limit)
    ensures TotalForwarded(m, events, limit) <= Cap(limit) + Allowance(m, events, limit)
  {
    AccountedBound(m, events, limit, 0, 0, if m.inMemory.Some? then m.inMemory.value.bytes else 0);
  }

  predicate NoRestart(m: Meter, events: seq<Event>, limit: int)
    decreases |events|
  {
    events == [] || (!Restarts(m, events[0]) && NoRestart(Step(m, events[0], limit), events[1..], limit))
  }

  function Reloads(events: seq<Event>): nat {
    if events == [] then 0 else (if events[0].Reload? then 1 else 0) + Reloads(events[1..])
  }

  /** Between restarts: the limit, plus a flush interval for each reload. */
  lemma {:induction false} PeriodBound(m: Meter, events: seq<Event>, limit: int)
    requires Sound(m, limit) && NoRestart(m, events, limit)
    ensures TotalForwarded(m, events, limit) <= Cap(limit) + Reloads(events) * QUOTA_FLUSH_BYTES
  {
    QuotaBound(m, events, limit);
    PeriodAllowance(m, events, limit);
  }

  lemma {:induction false} PeriodAllowance(m: Meter, events: seq<Event>, limit: int)
    requires NoRestart(m, events, limit)
    ensures Allowance(m, events, limit) == Reloads(events) * QUOTA_FLUSH_BYTES
    decreases |events|
  {
    if events != [] {
      PeriodAllowance(Step(m, events[0], limit), events[1..], limit);
    }
  }

  // -------------------------------------------------- how often a day begins

  function After(m: Meter, events: seq<Event>, limit: int): Meter
    decreases |events|
  {
    if events == [] then m else After(Step(m, events[0], limit), events[1..], limit)
  }

  /** The clock does not run backwards, and every frame is in [from, to]. */
  predicate Clocked(events: seq<Event>, last: int, from: int, to: int) {
    events == []
    || (if events[0].Frame? then last <= events[0].now && from <= events[0].now <= to && Clocked(events[1..], events[0].now, from, to)
        else Clocked(events[1..], last, from, to))
  }

  /** The day in memory and the day in storage began at `day` or later. */
  predicate Since(m: Meter, day: int) {
    && (m.inMemory.Some? ==> m.inMemory.value.dayStart >= day)
    && (m.stored.Some? ==> m.stored.value.dayStart >= day)
  }

  lemma StepSince(m: Meter, e: Event, limit: int, day: int)
    requires Since(m, day) && (e.Frame? ==> e.now >= day)
    ensures Since(Step(m, e, limit), day)
    ensures e.Frame? && Rolls(m, e.now) ==>
              e.now - day >= 24 * 60 * 60 * 1000 && Since(Step(m, e, limit), e.now)
  {
  }

  lemma RollSince(m: Meter, now: int, size: nat, limit: int)
    requires Rolls(m, now)
    ensures Since(Step(m, Frame(now, size), limit), now)
  {
  }

  lemma {:induction false} RunSince(m: Meter, events: seq<Event>, limit: int, day: int, from: int, to: int)
    requires Since(m, day) && Clocked(events, day, from, to)
    ensures Since(After(m, events, limit), day)
    decreases |events|
  {
    if events != [] {
      StepSince(m, events[0], limit, day);
      LaterStart(events[1..], day, if events[0].Frame? then events[0].now else day, from, to);
      RunSince(Step(m, events[0], limit), events[1..], limit, day, from, to);
    }
  }

  lemma {:induction false} LaterStart(events: seq<Event>, day: int, last: int, from: int, to: int)
    requires day <= last && Clocked(events, last, from, to)
    ensures Clocked(events, day, from, to)
  {
    if events != [] && !events[0].Frame? {
      LaterStart(events[1..], day, last, from, to);
    }
  }

  /** Between two frames on which the count starts a new day, whatever else comes,
      reloads and wipes included, there are at least 24 hours. */
  lemma RollsADayApart(m: Meter, t1: int, size: nat, between: seq<Event>, t2: int, limit: int, from: int, to: int)
    requires Rolls(m, t1) && Clocked(between, t1, from, to)
    requires t1 <= t2 && Rolls(After(Step(m, Frame(t1, size), limit), between, limit), t2)
    ensures t2 - t1 >= 24 * 60 * 60 * 1000
  {
    var m1 := Step(m, Frame(t1, size), limit);
    RollSince(m, t1, size, limit);
    RunSince(m1, between, limit, t1, from, to);
    StepSince(After(m1, between, limit), Frame(t2, 0), limit, t1);
  }

  /** A frame that comes 24 hours after the day began starts the count again with
      itself, whatever was counted before. */
  lemma NewDayStartsAgain(m: Meter, now: int, size: nat, limit: int)
    requires m.inMemory.Some? && now - m.inMemory.value.dayStart >= 24 * 60 * 60 * 1000
    ensures var m1 := Step(m, Frame(now, size), limit);
            && m1.inMemory == Some(Quota(now, size))
            && (size <= limit ==> Forwarded(m, Frame(now, size), limit) == size)
  {
  }

  function RollsIn(m: Meter, events: seq<Event>, limit: int): nat
    decreases |events|
  {
    if events == [] then 0
    else
      (if events[0].Frame? && Rolls(m, events[0].now) then 1 else 0) + RollsIn(Step(m, events[0], limit), events[1..], limit)
  }

  function Wipes(events: seq<Event>): nat {
    if events == [] then 0 else (if events[0].Teardown? then 1 else 0) + Wipes(events[1..])
  }

  lemma DaysAdd(day: int, now: int, to: int, n: nat)
    requires now - day >= 24 * 60 * 60 * 1000 && n <= (to - now) / (24 * 60 * 60 * 1000) && now <= to
    ensures n + 1 <= (to - day) / (24 * 60 * 60 * 1000)
  {
  }

  /** With a day that began at `day`: one roll for each day since, at most. */
  lemma {:induction false} RollsSince(m: Meter, events: seq<Event>, limit: int, day: int, last: int, from: int, to: int)
    requires Since(m, day) && day <= last <= to && Clocked(events, last, from, to)
    ensures RollsIn(m, events, limit) <= (to - day) / (24 * 60 * 60 * 1000)
    decreases |events|
  {
    if events != [] {
      var e := events[0];
      var m1 := Step(m, e, limit);
      StepSince(m, e, limit, day);
      if e.Frame? && Rolls(m, e.now) {
        RollsSince(m1, events[1..], limit, e.now, e.now, from, to);
        DaysAdd(day, e.now, to, RollsIn(m1, events[1..], limit));
      } else {
        RollsSince(m1, events[1..], limit, day, if e.Frame? then e.now else last, from, to);
      }
    }
  }

  /** However the meter stands at first: one roll, and one more for each day. */
  lemma {:induction false} RollsAreFew(m: Meter, events: seq<Event>, limit: int, last: int, from: int, to: int)
    requires from <= to && Clocked(events, last, from, to)
    ensures RollsIn(m, events, limit) <= 1 + (to - from) / (24 * 60 * 60 * 1000)
    decreases |events|
  {
    if events != [] {
      var e := events[0];
      var m1 := Step(m, e, limit);
      if e.Frame? && Rolls(m, e.now) {
        RollSince(m, e.now, e.size, limit);
        RollsSince(m1, events[1..], limit, e.now, e.now, from, to);
        assert (to - e.now) / (24 * 60 * 60 * 1000) <= (to - from) / (24 * 60 * 60 * 1000);
      } else {
        RollsAreFew(m1, events[1..], limit, if e.Frame? then e.now else last, from, to);
      }
    }
  }

  lemma {:induction false} AllowanceIs(m: Meter, events: seq<Event>, limit: int)
    ensures Allowance(m, events, limit)
            == Cap(limit) * (RollsIn(m, events, limit) + Wipes(events)) + Reloads(events) * QUOTA_FLUSH_BYTES
    decreases |events|
  {
    if events != [] {
      AllowanceIs(Step(m, events[0], limit), events[1..], limit);
      OneMore(Cap(limit), RollsIn(Step(m, events[0], limit), events[1..], limit) + Wipes(events[1..]));
    }
  }

  lemma OneMore(c: nat, n: nat)
    ensures c * (1 + n) == c + c * n
  {
  }

  /** The daily quota. In any stretch of a clocked run whose frames lie in [from, to],
      from any state of the meter, the bytes handed on are at most the limit once for
      each day begun and once more, once for each wipe, and a flush interval for
      each reload. */
  lemma DailyBound(m: Meter, events: seq<Event>, limit: int, last: int, from: int, to: int)
    requires Sound(m, limit) && from <= to && Clocked(events, last, from, to)
    ensures TotalForwarded(m, events, limit)
            <= (if limit < 0 then 0 else limit) * (2 + (to - from) / (24 * 60 * 60 * 1000) + Wipes(events))
               + Reloads(events) * (4 * 1024 * 1024)
  {
    var n, days := RollsIn(m, events, limit) + Wipes(events), 1 + (to - from) / (24 * 60 * 60 * 1000);
    QuotaBound(m, events, limit);
    AllowanceIs(m, events, limit);
    RollsAreFew(m, events, limit, last, from, to);
    OneMore(Cap(limit), n);
    AtMost(Cap(limit), 1 + n, 1 + days + Wipes(events));
  }

  lemma AtMost(c: nat, a: nat, b: nat)
    requires a <= b
    ensures c * a <= c * b
  {
  }

  // ------------------------------------------------- the bound is reached

  const NEW_METER := Meter(None, 0, None)

  lemma {:induction false} Append(m: Meter, a: seq<Event>, b: seq<Event>, limit: int)
    ensures var m1 := After(m, a, limit);
            && After(m, a + b, limit) == After(m1, b, limit)
            && TotalForwarded(m, a + b, limit) == TotalForwarded(m, a, limit) + TotalForwarded(m1, b, limit)
            && (NoRestart(m, a + b, limit) <==> NoRestart(m, a, limit) && NoRestart(m1, b, limit))
    ensures Reloads(a + b) == Reloads(a) + Reloads(b)
    decreases |a|
  {
    if a == [] {
      assert a + b == b;
    } else {
      assert (a + b)[1..] == a[1..] + b;
      Append(Step(m, a[0], limit), a[1..], b, limit);
    }
  }

  /** Frames of one day. */
  predicate Burst(frames: seq<Event>, day: int) {
    forall i :: 0 <= i < |frames| ==> frames[i].Frame? && day <= frames[i].now < day + QUOTA_WINDOW_MS
  }

  function Bytes(frames: seq<Event>): nat {
    if frames == [] then 0 else (if frames[0].Frame? then frames[0].size else 0) + Bytes(frames[1..])
  }

  /** The count of that day is `b`: in memory, or 0 with nothing stored. */
  predicate Counts(m: Meter, day: int, b: nat) {
    match m.inMemory
    case None => b == 0 && m.stored == None
    case Some(q) => q.bytes == b && q.dayStart >= day
  }

  predicate Unflushed(m: Meter) {
    m.stored == None && (m.inMemory.Some? ==> m.flushed == 0)
  }

  /** Frames within the limit are all forwarded, and if they stay below a flush
      interval, none of them is written down. */
  lemma {:induction false} BurstPasses(m: Meter, frames: seq<Event>, limit: int, day: int, b: nat)
    requires Counts(m, day, b) && Burst(frames, day) && b + Bytes(frames) <= limit
    ensures TotalForwarded(m, frames, limit) == Bytes(frames) && NoRestart(m, frames, limit) && Reloads(frames) == 0
    ensures Unflushed(m) && b + Bytes(frames) < QUOTA_FLUSH_BYTES ==> Unflushed(After(m, frames, limit))
    decreases |frames|
  {
    if frames != [] {
      var e := frames[0];
      assert e.Frame? && day <= e.now < day + QUOTA_WINDOW_MS && e.size <= Bytes(frames);
      var m1 := Step(m, e, limit);
      assert !Rolls(m, e.now);
      assert Counts(m1, day, b + e.size);
      BurstPasses(m1, frames[1..], limit, day, b + e.size);
    }
  }

  /** Each round of frames ends in a reload; `last` does not. */
  function WithReloads(rounds: seq<seq<Event>>, last: seq<Event>): seq<Event> {
    if rounds == [] then last else rounds[0] + ([Reload] + WithReloads(rounds[1..], last))
  }

  function TotalBytes(rounds: seq<seq<Event>>): nat {
    if rounds == [] then 0 else Bytes(rounds[0]) + TotalBytes(rounds[1..])
  }

  /** A reload forgets whatever was not flushed: any rounds of one day, each within
      the limit and below a flush interval, and then frames up to the limit, are
      forwarded in full. */
  lemma {:induction false} ReloadForgets(rounds: seq<seq<Event>>, last: seq<Event>, limit: int, day: int)
    requires forall i :: 0 <= i < |rounds| ==>
               Burst(rounds[i], day) && Bytes(rounds[i]) <= limit && Bytes(rounds[i]) < QUOTA_FLUSH_BYTES
    requires Burst(last, day) && Bytes(last) <= limit
    ensures var events := WithReloads(rounds, last);
            && NoRestart(NEW_METER, events, limit) && Reloads(events) == |rounds|
            && TotalForwarded(NEW_METER, events, limit) == TotalBytes(rounds) + Bytes(last)
    decreases |rounds|
  {
    if rounds == [] {
      BurstPasses(NEW_METER, last, limit, day, 0);
    } else {
      var first, rest := rounds[0], WithReloads(rounds[1..], last);
      BurstPasses(NEW_METER, first, limit, day, 0);
      var m1 := After(NEW_METER, first, limit);
      assert Step(m1, Reload, limit) == NEW_METER;
      assert ([Reload] + rest)[1..] == rest;
      ReloadForgets(rounds[1..], last, limit, day);
      Append(NEW_METER, first, [Reload] + rest, limit);
    }
  }

  function OneByteFrames(n: nat, now: int): (frames: seq<Event>)
    ensures Burst(frames, now)
  {
    if n == 0 then [] else [Frame(now, 1)] + OneByteFrames(n - 1, now)
  }

  lemma {:induction false} OneByteEach(n: nat, now: int)
    ensures Bytes(OneByteFrames(n, now)) == n
  {
    if n > 0 {
      OneByteEach(n - 1, now);
      assert OneByteFrames(n, now)[1..] == OneByteFrames(n - 1, now);
    }
  }

  /** What one reload lets through again: a flush interval less a byte, or the limit
      if that is smaller. */
  function Slack(limit: nat): nat {
    if limit < QUOTA_FLUSH_BYTES then limit else QUOTA_FLUSH_BYTES - 1
  }

  lemma {:induction false} TotalOfSame(round: seq<Event>, k: nat)
    ensures TotalBytes(seq(k, _ => round)) == k * Bytes(round)
  {
    if k > 0 {
      assert seq(k, _ => round)[1..] == seq(k - 1, _ => round);
      TotalOfSame(round, k - 1);
      assert k * Bytes(round) == Bytes(round) + (k - 1) * Bytes(round);
    }
  }

  /** For every limit and every number of reloads there is a run of one-byte frames
      that is forwarded up to the limit, and the slack once more for every reload. */
  lemma SlackIsReached(limit: nat, k: nat, now: int) returns (events: seq<Event>)
    ensures NoRestart(NEW_METER, events, limit) && Reloads(events) == k
    ensures TotalForwarded(NEW_METER, events, limit) == limit + k * Slack(limit)
  {
    var round, last := OneByteFrames(Slack(limit), now), OneByteFrames(limit, now);
    OneByteEach(Slack(limit), now);
    OneByteEach(limit, now);
    var rounds := seq(k, _ => round);
    TotalOfSame(round, k);
    ReloadForgets(rounds, last, limit, now);
    events := WithReloads(rounds, last);
  }
}
