/** How long an accepted event can wait for a trigger, when ticks are on time and attempts succeed at
    once. Times are whole milliseconds. */
module Cadence {
  import opened Wrappers
  import opened Scheduler

  datatype Event = Accept(at: int, count: nat) | TickNow

  /** oldest is when the longest-waiting pending event was accepted; longest is the longest wait of
      any event consumed so far. */
  datatype State = State(now: int, nextTick: int, core: Core, oldest: Option<int>, longest: int)

  function DefaultTick(timeInterval: nat): nat
  {
    if timeInterval / 4 < 1000 then 1000 else timeInterval / 4
  }

  /** The timer is started at start, on a scheduler made no later. */
  function Initial(made: int, start: int, tick: nat): State
    requires made <= start
  {
    State(start, start + tick, Core(0, made, [], None), None, 0)
  }

  /** Runs the one attempt a trigger queued, at the same instant. */
  function Settle(c: Core, at: int): Core
    requires c.running.None?
  {
    if c.queue == [] then c else Finished(Started(c), true, Some(at))
  }

  predicate Enabled(s: State, e: Event)
  {
    e.Accept? ==> s.now <= e.at <= s.nextTick
  }

  /** The state after a step at time at has produced core. */
  function Arrive(s: State, at: int, accepted: nat, core: Core): State
    requires core.running.None?
  {
    var oldest := if s.oldest.None? && accepted > 0 then Some(at) else s.oldest;
    if core.queue != [] then
      s.(now := at, core := Settle(core, at), oldest := None,
         longest := if oldest.Some? && s.longest < at - oldest.value then at - oldest.value else s.longest)
    else s.(now := at, core := core, oldest := oldest)
  }

  function Next(cfg: Config, tick: nat, s: State, e: Event): State
    requires Enabled(s, e) && s.core.running.None?
  {
    match e
    case Accept(at, count) => Arrive(s, at, count, Recorded(cfg, s.core, count, Some(at)))
    case TickNow =>
      var at := s.nextTick;
      Arrive(s, at, 0, Ticked(cfg, s.core, Some(at), Some(at))).(nextTick := at + tick)
  }

  /** Events out of time order are skipped. */
  function Run(cfg: Config, tick: nat, made: int, start: int, events: seq<Event>): (s: State)
    requires made <= start
    ensures s.core.running.None?
  {
    if events == [] then Initial(made, start, tick)
    else
      var s := Run(cfg, tick, made, start, events[..|events| - 1]);
      var e := events[|events| - 1];
      if Enabled(s, e) then Next(cfg, tick, s, e) else s
  }

  ghost predicate Timely(cfg: Config, tick: nat, s: State)
  {
    && s.core.running.None? && s.core.queue == []
    && s.core.lastAt <= s.now && s.nextTick - tick <= s.now <= s.nextTick
    && (s.core.pending > 0 <==> s.oldest.Some?)
    && s.longest <= cfg.timeInterval + tick - 1
    && (s.oldest.Some? ==>
          && s.core.lastAt <= s.oldest.value
          && (s.nextTick - tick <= s.oldest.value || s.nextTick - tick - s.core.lastAt < cfg.timeInterval))
  }

  lemma NextKeepsTimely(cfg: Config, tick: nat, s: State, e: Event)
    requires ValidConfig(cfg) && tick > 0 && Timely(cfg, tick, s) && Enabled(s, e)
    ensures Timely(cfg, tick, Next(cfg, tick, s, e))
  {
  }

  /** The cadence bound: in every run, consumed events have waited, and pending events have so far
      waited, less than one interval and one tick. */
  lemma {:induction false} WaitsAreBounded(cfg: Config, tick: nat, made: int, start: int, events: seq<Event>)
    requires ValidConfig(cfg) && tick > 0 && made <= start
    ensures var s := Run(cfg, tick, made, start, events);
      && Timely(cfg, tick, s)
      && s.longest <= cfg.timeInterval + tick - 1
      && (s.oldest.Some? ==> s.now - s.oldest.value <= cfg.timeInterval + tick - 1)
  {
    hide Next;
    if events != [] {
      var before := events[..|events| - 1];
      WaitsAreBounded(cfg, tick, made, start, before);
      var s := Run(cfg, tick, made, start, before);
      if Enabled(s, events[|events| - 1]) {
        NextKeepsTimely(cfg, tick, s, events[|events| - 1]);
      }
    }
  }

  // ---------------------------------------------------------------- the bound is reached

  function Ticks(n: nat): seq<Event>
  {
    if n == 0 then [] else Ticks(n - 1) + [TickNow]
  }

  lemma RunOne(cfg: Config, tick: nat, made: int, start: int, events: seq<Event>, e: Event)
    requires made <= start
    ensures var s := Run(cfg, tick, made, start, events);
      Run(cfg, tick, made, start, events + [e]) == if Enabled(s, e) then Next(cfg, tick, s, e) else s
  {
    assert (events + [e])[..|events|] == events;
  }

  /** Ticks of an idle scheduler, or of one whose events are too young, only let time pass. */
  lemma {:induction false} QuietTicks(cfg: Config, tick: nat, made: int, start: int, events: seq<Event>, n: nat)
    requires made <= start && ValidConfig(cfg) && tick > 0 && Timely(cfg, tick, Run(cfg, tick, made, start, events))
    requires var s := Run(cfg, tick, made, start, events);
      s.core.pending > 0 && n > 0 ==> s.nextTick + (n - 1) * tick - s.core.lastAt < cfg.timeInterval
    ensures var s, t := Run(cfg, tick, made, start, events), Run(cfg, tick, made, start, events + Ticks(n));
      && t.core == s.core && t.oldest == s.oldest && t.longest == s.longest
      && t.nextTick == s.nextTick + n * tick
      && t.now == if n == 0 then s.now else t.nextTick - tick
  {
    hide Run, Timely;
    if n == 0 {
      assert events + Ticks(0) == events;
    } else {
      Product(n, tick);
      QuietTicks(cfg, tick, made, start, events, n - 1);
      var t := Run(cfg, tick, made, start, events + Ticks(n - 1));
      RunOne(cfg, tick, made, start, events + Ticks(n - 1), TickNow);
      assert events + Ticks(n) == events + Ticks(n - 1) + [TickNow];
      QuietTick(cfg, tick, t, Run(cfg, tick, made, start, events));
    }
  }

  lemma QuietTick(cfg: Config, tick: nat, t: State, s: State)
    requires ValidConfig(cfg) && Timely(cfg, tick, s) && t.core == s.core && t.oldest == s.oldest
    requires s.core.pending > 0 ==> t.nextTick - s.core.lastAt < cfg.timeInterval
    ensures Next(cfg, tick, t, TickNow) == t.(now := t.nextTick, nextTick := t.nextTick + tick)
  {
  }

  lemma Product(n: nat, tick: nat)
    requires n > 0
    ensures n * tick == (n - 1) * tick + tick
  {
  }

  /** How many ticks fit below a moment, and the moment one interval less a millisecond before a
      later tick. */
  function Before(offset: nat, tick: nat): nat
    requires tick > 0
  {
    offset / tick
  }

  lemma Fits(offset: nat, tick: nat)
    requires tick > 0
    ensures Before(offset, tick) * tick <= offset < Before(offset, tick) * tick + tick
  {
  }

  lemma {:induction false} Apart(j: nat, k: nat, tick: nat)
    ensures j < k ==> j * tick + tick <= k * tick
    decreases k
  {
    if j < k {
      Product(k, tick);
      Apart(j, k - 1, tick);
    }
  }

  /** The trigger at L = T * tick - (T - 1), an event right after it, and ticks until it is seen. */
  function LateRun(cfg: Config, tick: nat): seq<Event>
    requires ValidConfig(cfg) && tick > 0
  {
    var T := cfg.timeInterval;
    var L := LateTrigger(T, tick);
    var j := Before(L, tick);
    Ticks(j) + [Accept(L, cfg.eventInterval)] + [Accept(L, 1)] + Ticks(LateTicks(T, tick)) + [TickNow]
  }

  function LateTrigger(T: nat, tick: nat): nat
    requires T > 0 && tick > 0
  {
    LateBounds(T, tick);
    T * tick - (T - 1)
  }

  function LateTicks(T: nat, tick: nat): nat
    requires T > 0 && tick > 0
  {
    LateOrder(T, tick);
    T - Before(LateTrigger(T, tick), tick)
  }

  lemma LateBounds(T: nat, tick: nat)
    requires T > 0 && tick > 0
    ensures T * tick - (T - 1) > 0
  {
    assert T * tick == T + T * (tick - 1);
  }

  lemma LateOrder(T: nat, tick: nat)
    requires T > 0 && tick > 0
    ensures Before(LateTrigger(T, tick), tick) <= T
  {
    Fits(LateTrigger(T, tick), tick);
    Apart(T, Before(LateTrigger(T, tick), tick), tick);
  }

  /** No smaller bound holds: this run makes an event wait exactly that long. */
  lemma WaitBoundIsReached(cfg: Config, tick: nat)
    requires ValidConfig(cfg) && tick > 0 && cfg.eventInterval > 1
    ensures Run(cfg, tick, 0, 0, LateRun(cfg, tick)).longest == cfg.timeInterval + tick - 1
  {
    hide Run, Next, Ticks, Timely;
    var T := cfg.timeInterval;
    var L := LateTrigger(T, tick);
    var j, m := Before(L, tick), LateTicks(T, tick);
    Fits(L, tick);
    var idle := Ticks(j);
    IdleRun(cfg, tick, j);
    var fired := idle + [Accept(L, cfg.eventInterval)];
    RunOne(cfg, tick, 0, 0, idle, Accept(L, cfg.eventInterval));
    FireAt(cfg, tick, Run(cfg, tick, 0, 0, idle), L);
    var waiting := fired + [Accept(L, 1)];
    RunOne(cfg, tick, 0, 0, fired, Accept(L, 1));
    WaitAt(cfg, tick, Run(cfg, tick, 0, 0, fired), L);
    WaitsAreBounded(cfg, tick, 0, 0, waiting);
    LateTickTimes(T, tick);
    QuietTicks(cfg, tick, 0, 0, waiting, m);
    RunOne(cfg, tick, 0, 0, waiting + Ticks(m), TickNow);
    LastTick(cfg, tick, Run(cfg, tick, 0, 0, waiting + Ticks(m)), L);
  }

  lemma IdleRun(cfg: Config, tick: nat, j: nat)
    requires ValidConfig(cfg) && tick > 0
    ensures var s := Run(cfg, tick, 0, 0, Ticks(j));
      && s.core == Core(0, 0, [], None) && s.oldest.None? && s.longest == 0
      && s.nextTick == tick + j * tick && s.now == j * tick
  {
    assert Run(cfg, tick, 0, 0, []) == Initial(0, 0, tick);
    QuietTicks(cfg, tick, 0, 0, [], j);
    assert [] + Ticks(j) == Ticks(j);
  }

  lemma FireAt(cfg: Config, tick: nat, s: State, at: int)
    requires ValidConfig(cfg) && s.core == Core(0, 0, [], None) && s.oldest.None? && s.longest == 0
    requires s.now <= at <= s.nextTick
    ensures Next(cfg, tick, s, Accept(at, cfg.eventInterval)) == s.(now := at, core := Core(0, at, [], None))
  {
  }

  lemma WaitAt(cfg: Config, tick: nat, s: State, at: int)
    requires cfg.eventInterval > 1 && s.core == Core(0, at, [], None) && s.oldest.None?
    requires s.now == at <= s.nextTick
    ensures Next(cfg, tick, s, Accept(at, 1)) == s.(core := Core(1, at, [], None), oldest := Some(at))
  {
  }

  lemma LastTick(cfg: Config, tick: nat, s: State, at: int)
    requires ValidConfig(cfg) && tick > 0 && s.core == Core(1, at, [], None) && s.oldest == Some(at) && s.longest == 0
    requires s.nextTick == at + cfg.timeInterval - 1 + tick
    ensures Next(cfg, tick, s, TickNow).longest == cfg.timeInterval + tick - 1
  {
  }

  lemma LateTickTimes(T: nat, tick: nat)
    requires T > 0 && tick > 0
    ensures var L := LateTrigger(T, tick);
      var j, m := Before(L, tick), LateTicks(T, tick);
      && tick + j * tick + m * tick == L + T - 1 + tick
      && (m > 0 ==> tick + j * tick + (m - 1) * tick == L + T - 1)
  {
    var L := LateTrigger(T, tick);
    var j, m := Before(L, tick), LateTicks(T, tick);
    assert (j + m) * tick == j * tick + m * tick;
    if m > 0 {
      Product(m, tick);
    }
  }

  /** When every event reaches the interval, none waits. */
  ghost predicate NoneWaits(s: State)
  {
    s.core.running.None? && s.core.queue == [] && s.core.pending == 0 && s.oldest.None? && s.longest == 0
  }

  lemma NextWaitsForNone(cfg: Config, tick: nat, s: State, e: Event)
    requires ValidConfig(cfg) && cfg.eventInterval == 1 && NoneWaits(s) && Enabled(s, e)
    ensures NoneWaits(Next(cfg, tick, s, e))
  {
  }

  lemma {:induction false} SingleEventsNeverWait(cfg: Config, tick: nat, made: int, start: int, events: seq<Event>)
    requires ValidConfig(cfg) && cfg.eventInterval == 1 && made <= start
    ensures NoneWaits(Run(cfg, tick, made, start, events))
  {
    hide Next;
    if events != [] {
      var before := events[..|events| - 1];
      SingleEventsNeverWait(cfg, tick, made, start, before);
      var s := Run(cfg, tick, made, start, before);
      if Enabled(s, events[|events| - 1]) {
        NextWaitsForNone(cfg, tick, s, events[|events| - 1]);
      }
    }
  }

  /** With the default tick, waits stay within five quarters of the interval in every run if and only if
      every event triggers at once or the interval is at least 3996 milliseconds. */
  lemma DefaultCadence(cfg: Config)
    requires ValidConfig(cfg)
    ensures (forall made: int, start: int, events: seq<Event> | made <= start ::
               4 * Run(cfg, DefaultTick(cfg.timeInterval), made, start, events).longest <= 5 * cfg.timeInterval)
       <==> cfg.eventInterval == 1 || cfg.timeInterval >= 3996
  {
    hide Run, LateRun;
    var tick := DefaultTick(cfg.timeInterval);
    if cfg.eventInterval == 1 || cfg.timeInterval >= 3996 {
      forall made: int, start: int, events: seq<Event> | made <= start
        ensures 4 * Run(cfg, tick, made, start, events).longest <= 5 * cfg.timeInterval
      {
        if cfg.eventInterval == 1 {
          SingleEventsNeverWait(cfg, tick, made, start, events);
        } else {
          WaitsAreBounded(cfg, tick, made, start, events);
        }
      }
    } else {
      WaitBoundIsReached(cfg, tick);
    }
  }
}
