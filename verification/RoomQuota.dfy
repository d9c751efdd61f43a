/** The daily quota over whole runs of a room (src/room.js, overQuota as
    webSocketMessage calls it). */
module RoomQuota {
  import opened Wrappers
  import opened RoomSockets
  import opened Limits
  import Quotas
  import opened Rooms
  import opened RoomProofs
  import opened RoomCaps

  /** A frame of an admitted socket that gets as far as the meter. */
  predicate Metered(r: Room, e: Event) {
    && e.Message? && e.ws in r.socks.att && r.socks.att[e.ws].Admitted?
    && e.frame.size <= MAX_FRAME_BYTES
    && Bumped(r.mem.frames, e.now, FRAME_WINDOW_MS).count <= MAX_FRAMES_PER_WINDOW
  }

  /** What an event is to the meter, if anything. */
  ghost function MeterEvent(r: Room, env: Env, e: Event): Option<Quotas.Event> {
    if Metered(r, e) then Some(Quotas.Frame(e.now, e.frame.size))
    else if Wipes(r, env, e) then Some(Quotas.Teardown)
    else if e.Restarted? then Some(Quotas.Reload)
    else None
  }

  /** The bytes this event hands to forward(). */
  ghost function Spliced(r: Room, env: Env, e: Event): nat {
    if Metered(r, e) && MoveOf(r, env, e) == Judge(e.ws, Pass) then e.frame.size else 0
  }

  ghost function TotalSpliced(r: Room, env: Env, events: seq<Event>): nat
    decreases |events|
  {
    if events == [] then 0 else Spliced(r, env, events[0]) + TotalSpliced(Step(r, env, events[0]), env, events[1..])
  }

  ghost function MeterEvents(r: Room, env: Env, events: seq<Event>): seq<Quotas.Event>
    decreases |events|
  {
    if events == [] then []
    else
      var rest := MeterEvents(Step(r, env, events[0]), env, events[1..]);
      match MeterEvent(r, env, events[0])
      case None => rest
      case Some(q) => [q] + rest
  }

  ghost function Meter(r: Room): Quotas.Meter {
    MeterOf(r.store, r.mem)
  }

  /** Nothing but these events touches the meter. */
  lemma StepMeter(r: Room, env: Env, e: Event)
    ensures Meter(Step(r, env, e))
            == match MeterEvent(r, env, e)
               case None => Meter(r)
               case Some(q) => Quotas.Step(Meter(r), q, env.quotaLimit)
    ensures Spliced(r, env, e)
            == match MeterEvent(r, env, e)
               case None => 0
               case Some(q) => Quotas.Forwarded(Meter(r), q, env.quotaLimit)
  {
    if Metered(r, e) {
      SpliceMeter(r, env, e);
    } else if Wipes(r, env, e) {
      WipeMeter(r, env, e);
    } else if e.Message? && e.ws in r.socks.att && r.socks.att[e.ws].Challenged? && e.frame.size <= MAX_CONTROL_BYTES {
      ProofMeter(r, env, e);
    }
  }

  lemma SpliceMeter(r: Room, env: Env, e: Event)
    requires Metered(r, e)
    ensures Meter(Step(r, env, e)) == Quotas.Charged(Meter(r), e.now, e.frame.size, env.quotaLimit)
    ensures MoveOf(r, env, e) == Judge(e.ws, Pass)
            <==> !Quotas.Over(Quotas.Charged(Meter(r), e.now, e.frame.size, env.quotaLimit), env.quotaLimit)
  {
  }

  lemma WipeMeter(r: Room, env: Env, e: Event)
    requires Wipes(r, env, e)
    ensures Meter(Step(r, env, e)) == Meter(r).(stored := None)
  {
  }

  lemma ProofMeter(r: Room, env: Env, e: Event)
    requires e.Message? && e.ws in r.socks.att && r.socks.att[e.ws].Challenged? && e.frame.size <= MAX_CONTROL_BYTES
    requires !OverCap(r, env, e)
    ensures Meter(Step(r, env, e)) == Meter(r)
  {
    var att := r.socks.att[e.ws];
    var c := CheckProof(r.store, r.mem, env, att, e.frame.json, e.now);
    assert MeterOf(c.store, c.mem) == Meter(r);
    if c.Cleared? {
      CheckKeepsBudget(r.store, r.mem, env, att, e.frame.json, e.now);
      assert Established(c.store) == Established(r.store);
      var o := Admit(r.socks, c.store, c.mem, e.ws, att, c.key, e.now, e.drawn);
      assert OnFrame(r, env, e.ws, e.frame, e.now, e.drawn) == o;
      assert o.mem == c.mem && o.store.quota == c.store.quota;
    }
  }

  lemma {:induction false} TotalIsMetered(r: Room, env: Env, events: seq<Event>)
    ensures TotalSpliced(r, env, events)
            == Quotas.TotalForwarded(Meter(r), MeterEvents(r, env, events), env.quotaLimit)
    decreases |events|
  {
    if events != [] {
      StepMeter(r, env, events[0]);
      TotalIsMetered(Step(r, env, events[0]), env, events[1..]);
      var rest := MeterEvents(Step(r, env, events[0]), env, events[1..]);
      if MeterEvent(r, env, events[0]).Some? {
        assert MeterEvents(r, env, events)[1..] == rest;
      }
    }
  }

  /** On every run of a room, the bytes spliced are at most the limit, once more
      for every window roll and wipe, plus one flush interval for every reload. */
  lemma SplicedBytesAreBounded(r: Room, env: Env, events: seq<Event>)
    requires Quotas.Sound(Meter(r), env.quotaLimit)
    ensures TotalSpliced(r, env, events)
            <= Quotas.Cap(env.quotaLimit) + Quotas.Allowance(Meter(r), MeterEvents(r, env, events), env.quotaLimit)
  {
    TotalIsMetered(r, env, events);
    Quotas.QuotaBound(Meter(r), MeterEvents(r, env, events), env.quotaLimit);
  }

  /** An event that starts the count again: a frame on which the day rolls, or a wipe. */
  ghost predicate StartsAgain(r: Room, env: Env, e: Event) {
    if Metered(r, e) then Quotas.Rolls(Meter(r), e.now) else Wipes(r, env, e)
  }

  ghost predicate OnePeriod(r: Room, env: Env, events: seq<Event>)
    decreases |events|
  {
    events == [] || (!StartsAgain(r, env, events[0]) && OnePeriod(Step(r, env, events[0]), env, events[1..]))
  }

  function RestartsIn(events: seq<Event>): nat {
    if events == [] then 0 else (if events[0].Restarted? then 1 else 0) + RestartsIn(events[1..])
  }

  lemma {:induction false} PeriodIsMetered(r: Room, env: Env, events: seq<Event>)
    requires OnePeriod(r, env, events)
    ensures Quotas.NoRestart(Meter(r), MeterEvents(r, env, events), env.quotaLimit)
    ensures Quotas.Reloads(MeterEvents(r, env, events)) == RestartsIn(events)
    decreases |events|
  {
    if events != [] {
      StepMeter(r, env, events[0]);
      PeriodIsMetered(Step(r, env, events[0]), env, events[1..]);
      var rest := MeterEvents(Step(r, env, events[0]), env, events[1..]);
      if MeterEvent(r, env, events[0]).Some? {
        assert MeterEvents(r, env, events)[1..] == rest;
      }
    }
  }

  /** Between rolls and wipes a room splices at most the limit, and one flush
      interval more for each restart. */
  lemma PeriodIsBounded(r: Room, env: Env, events: seq<Event>)
    requires Quotas.Sound(Meter(r), env.quotaLimit) && OnePeriod(r, env, events)
    ensures TotalSpliced(r, env, events)
            <= Quotas.Cap(env.quotaLimit) + RestartsIn(events) * Quotas.QUOTA_FLUSH_BYTES
  {
    TotalIsMetered(r, env, events);
    PeriodIsMetered(r, env, events);
    Quotas.PeriodBound(Meter(r), MeterEvents(r, env, events), env.quotaLimit);
  }

  // ------------------------------------------------------------ day by day

  /** The clock does not run backwards, and every message is in [from, to]. */
  predicate MessagesIn(events: seq<Event>, last: int, from: int, to: int) {
    events == []
    || (if events[0].Message? then
          last <= events[0].now && from <= events[0].now <= to && MessagesIn(events[1..], events[0].now, from, to)
        else MessagesIn(events[1..], last, from, to))
  }

  ghost function WipesIn(r: Room, env: Env, events: seq<Event>): nat
    decreases |events|
  {
    if events == [] then 0
    else (if Wipes(r, env, events[0]) then 1 else 0) + WipesIn(Step(r, env, events[0]), env, events[1..])
  }

  lemma {:induction false} RunIsMetered(r: Room, env: Env, events: seq<Event>, last: int, from: int, to: int)
    requires MessagesIn(events, last, from, to)
    ensures var qs := MeterEvents(r, env, events);
            && Quotas.Clocked(qs, last, from, to) && Quotas.Reloads(qs) == RestartsIn(events)
            && Quotas.Wipes(qs) == WipesIn(r, env, events)
    decreases |events|
  {
    if events != [] {
      var e := events[0];
      var r1, last1 := Step(r, env, e), if e.Message? then e.now else last;
      RunIsMetered(r1, env, events[1..], last1, from, to);
      var rest := MeterEvents(r1, env, events[1..]);
      Quotas.LaterStart(rest, last, last1, from, to);
      if MeterEvent(r, env, e).Some? {
        assert MeterEvents(r, env, events)[1..] == rest;
      }
    }
  }

  /** In any stretch of a run whose messages lie in [from, to], from any state of the
      room, it splices at most the limit once for each day begun and once more, once
      for each wipe, and a flush interval for each restart. */
  lemma SplicedPerDay(r: Room, env: Env, events: seq<Event>, last: int, from: int, to: int)
    requires Quotas.Sound(Meter(r), env.quotaLimit) && from <= to && MessagesIn(events, last, from, to)
    ensures TotalSpliced(r, env, events)
            <= (if env.quotaLimit < 0 then 0 else env.quotaLimit)
               * (2 + (to - from) / (24 * 60 * 60 * 1000) + WipesIn(r, env, events))
               + RestartsIn(events) * (4 * 1024 * 1024)
  {
    TotalIsMetered(r, env, events);
    RunIsMetered(r, env, events, last, from, to);
    Quotas.DailyBound(Meter(r), MeterEvents(r, env, events), env.quotaLimit, last, from, to);
  }

  /** A metered frame is handed on, or every socket of the room is closed. */
  lemma OverQuotaClosesAll(r: Room, env: Env, e: Event)
    requires Metered(r, e)
    ensures MoveOf(r, env, e) == Judge(e.ws, Pass) || Step(r, env, e).socks.live == []
  {
  }
}
