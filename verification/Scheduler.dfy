/** The checkpoint scheduler: a counter of accepted events, a time stamp, and a chain on which
    attempts run one after another. A clock reading is None when it does not parse. */
module Scheduler {
  import opened Wrappers
  import Checkpoints

  type Reason = Checkpoints.Reason

  /** The events one trigger reserved for its attempt. */
  datatype Window = Window(consumed: nat, reason: Reason)

  datatype Config = Config(eventInterval: nat, timeInterval: nat)

  predicate ValidConfig(c: Config)
  {
    c.eventInterval > 0 && c.timeInterval > 0
  }

  /** queue holds the triggered attempts that have not started; at most one is running. */
  datatype Core = Core(pending: nat, lastAt: int, queue: seq<Window>, running: Option<Window>)

  type Clock = Option<int>

  /** A trigger empties the counter before it reads the clock, so an unreadable clock loses them. */
  function Triggered(c: Core, reason: Reason, now: Clock): Core
  {
    if now.None? then c.(pending := 0)
    else c.(pending := 0, lastAt := now.value, queue := c.queue + [Window(c.pending, reason)])
  }

  function Recorded(cfg: Config, c: Core, count: int, now: Clock): Core
  {
    if count < 0 then c
    else
      var counted := c.(pending := c.pending + count);
      if counted.pending >= cfg.eventInterval then Triggered(counted, Checkpoints.EventInterval, now) else counted
  }

  predicate TickFires(cfg: Config, c: Core, now: Clock)
  {
    c.pending > 0 && now.Some? && now.value - c.lastAt >= cfg.timeInterval
  }

  /** The first reading decides whether to fire, the second stamps the trigger. */
  function Ticked(cfg: Config, c: Core, now: Clock, stamp: Clock): Core
  {
    if TickFires(cfg, c, now) then Triggered(c, Checkpoints.TimeInterval, stamp) else c
  }

  predicate CanStart(c: Core)
  {
    c.running.None? && c.queue != []
  }

  function Started(c: Core): Core
    requires CanStart(c)
  {
    c.(running := Some(c.queue[0]), queue := c.queue[1..])
  }

  /** A failed attempt, or a completion whose clock does not read, puts the events back. */
  function Finished(c: Core, ok: bool, now: Clock): Core
    requires c.running.Some?
  {
    if ok && now.Some? then c.(running := None, lastAt := now.value)
    else c.(running := None, pending := c.pending + c.running.value.consumed)
  }

  // ---------------------------------------------------------------- the class

  class CheckpointScheduler {
    const config: Config
    var eventsSinceCheckpoint: nat
    var lastCheckpointAtMs: int
    var chain: seq<Window>
    var running: Option<Window>
    var handle: bool

    ghost function View(): Core
      reads this
    {
      Core(eventsSinceCheckpoint, lastCheckpointAtMs, chain, running)
    }

    constructor (config: Config, now: int)
      ensures this.config == config && View() == Core(0, now, [], None) && !handle
    {
      this.config := config;
      eventsSinceCheckpoint, lastCheckpointAtMs := 0, now;
      chain, running, handle := [], None, false;
    }

    /** thrown tells whether an exception reaches the caller. */
    method RecordAcceptedEvents(count: int, now: Clock) returns (thrown: bool)
      modifies this
      ensures View() == Recorded(config, old(View()), count, now) && handle == old(handle)
      ensures count < 0 ==> View() == old(View())
      ensures 0 <= count && old(eventsSinceCheckpoint) + count < config.eventInterval ==>
                View() == old(View()).(pending := old(eventsSinceCheckpoint) + count)
      ensures 0 <= count && config.eventInterval <= old(eventsSinceCheckpoint) + count ==>
                && eventsSinceCheckpoint == 0 && running == old(running)
                && (now.None? ==> chain == old(chain) && lastCheckpointAtMs == old(lastCheckpointAtMs))
                && (now.Some? ==>
                      && lastCheckpointAtMs == now.value
                      && chain == old(chain) + [Window(old(eventsSinceCheckpoint) + count, Checkpoints.EventInterval)])
      ensures thrown <==> count < 0 || (old(eventsSinceCheckpoint) + count >= config.eventInterval && now.None?)
    {
      if count < 0 {
        return true;
      }
      eventsSinceCheckpoint := eventsSinceCheckpoint + count;
      if eventsSinceCheckpoint >= config.eventInterval {
        thrown := Trigger(Checkpoints.EventInterval, now);
      } else {
        thrown := false;
      }
    }

    method Tick(now: Clock, stamp: Clock) returns (thrown: bool)
      modifies this
      ensures View() == Ticked(config, old(View()), now, stamp) && handle == old(handle)
      ensures (old(eventsSinceCheckpoint) == 0 || now.None?
               || now.value - old(lastCheckpointAtMs) < config.timeInterval) ==> View() == old(View())
      ensures old(eventsSinceCheckpoint) > 0 && now.Some?
              && config.timeInterval <= now.value - old(lastCheckpointAtMs) ==>
                && eventsSinceCheckpoint == 0 && running == old(running)
                && (stamp.None? ==> chain == old(chain) && lastCheckpointAtMs == old(lastCheckpointAtMs))
                && (stamp.Some? ==>
                      && lastCheckpointAtMs == stamp.value
                      && chain == old(chain) + [Window(old(eventsSinceCheckpoint), Checkpoints.TimeInterval)])
      ensures thrown <==> old(eventsSinceCheckpoint) > 0
                          && (now.None? || (TickFires(config, old(View()), now) && stamp.None?))
    {
      if eventsSinceCheckpoint == 0 {
        return false;
      }
      if now.None? {
        return true;
      }
      if now.value - lastCheckpointAtMs < config.timeInterval {
        return false;
      }
      thrown := Trigger(Checkpoints.TimeInterval, stamp);
    }

    method Trigger(reason: Reason, now: Clock) returns (thrown: bool)
      modifies this
      ensures View() == Triggered(old(View()), reason, now) && handle == old(handle)
      ensures thrown <==> now.None?
    {
      var consumed := eventsSinceCheckpoint;
      eventsSinceCheckpoint := 0;
      if now.None? {
        return true;
      }
      lastCheckpointAtMs := now.value;
      chain := chain + [Window(consumed, reason)];
      return false;
    }

    /** The chain hands over to the next attempt. */
    method StartAttempt()
      requires CanStart(View())
      modifies this
      ensures View() == Started(old(View())) && handle == old(handle)
      ensures running == Some(old(chain[0])) && chain == old(chain[1..])
      ensures eventsSinceCheckpoint == old(eventsSinceCheckpoint) && lastCheckpointAtMs == old(lastCheckpointAtMs)
    {
      running := Some(chain[0]);
      chain := chain[1..];
    }

    /** Completion of the running attempt. Observers are called last, and whether they throw makes
        no difference: onCheckpoint only after a success, onError after any failure of its own. */
    method FinishAttempt(ok: bool, now: Clock, onCheckpointThrows: bool)
      returns (observed: bool, reported: bool)
      requires running.Some?
      modifies this
      ensures View() == Finished(old(View()), ok, now) && handle == old(handle)
      ensures running.None? && chain == old(chain)
      ensures ok && now.Some? ==>
                lastCheckpointAtMs == now.value && eventsSinceCheckpoint == old(eventsSinceCheckpoint)
      ensures !ok || now.None? ==>
                && lastCheckpointAtMs == old(lastCheckpointAtMs)
                && eventsSinceCheckpoint == old(eventsSinceCheckpoint) + old(running).value.consumed
      ensures observed <==> ok && now.Some?
      ensures reported <==> !observed || onCheckpointThrows
    {
      var consumed := running.value.consumed;
      running := None;
      observed, reported := false, false;
      if ok && now.Some? {
        lastCheckpointAtMs := now.value;
      } else {
        eventsSinceCheckpoint := eventsSinceCheckpoint + consumed;
        reported := true;
        return;
      }
      observed := true;
      if onCheckpointThrows {
        reported := true;
      }
    }

    method Start()
      modifies this`handle
      ensures handle
    {
      if handle {
        return;
      }
      handle := true;
    }

    method Stop()
      modifies this`handle
      ensures !handle
    {
      if !handle {
        return;
      }
      handle := false;
    }
  }

  // ---------------------------------------------------------------- runs

  datatype Step =
    | Record(count: nat, now: Clock)
    | Tick(now: Clock, stamp: Clock)
    | Start
    | Finish(ok: bool, now: Clock)

  /** What has happened so far. */
  datatype History = History(
    core: Core, recorded: nat, succeeded: nat, lost: nat, triggered: seq<Window>, started: seq<Window>)

  function Begin(now: int): History
  {
    History(Core(0, now, [], None), 0, 0, 0, [], [])
  }

  predicate Enabled(h: History, step: Step)
  {
    match step
    case Record(_, _) => true
    case Tick(_, _) => true
    case Start => CanStart(h.core)
    case Finish(_, _) => h.core.running.Some?
  }

  /** The bookkeeping around a core that may just have triggered. */
  function AfterTrigger(h: History, before: nat, core: Core): History
    requires |h.core.queue| <= |core.queue|
  {
    h.(core := core,
       triggered := h.triggered + core.queue[|h.core.queue|..],
       lost := h.lost + if core.pending < before && |core.queue| == |h.core.queue| then before - core.pending else 0)
  }

  function Next(cfg: Config, h: History, step: Step): History
    requires Enabled(h, step)
  {
    match step
    case Record(count, now) =>
      AfterTrigger(h.(recorded := h.recorded + count), h.core.pending + count, Recorded(cfg, h.core, count, now))
    case Tick(now, stamp) => AfterTrigger(h, h.core.pending, Ticked(cfg, h.core, now, stamp))
    case Start => h.(core := Started(h.core), started := h.started + [h.core.queue[0]])
    case Finish(ok, now) =>
      h.(core := Finished(h.core, ok, now),
         succeeded := h.succeeded + if ok && now.Some? then h.core.running.value.consumed else 0)
  }

  /** Steps that are not enabled are skipped. */
  function Run(cfg: Config, now: int, steps: seq<Step>): History
  {
    if steps == [] then Begin(now)
    else
      var h := Run(cfg, now, steps[..|steps| - 1]);
      if Enabled(h, steps[|steps| - 1]) then Next(cfg, h, steps[|steps| - 1]) else h
  }

  function Total(windows: seq<Window>): nat
  {
    if windows == [] then 0 else Total(windows[..|windows| - 1]) + windows[|windows| - 1].consumed
  }

  function InFlight(c: Core): nat
  {
    Total(c.queue) + if c.running.Some? then c.running.value.consumed else 0
  }

  ghost predicate Sound(h: History)
  {
    // every recorded event is in exactly one place
    && h.recorded == h.core.pending + InFlight(h.core) + h.succeeded + h.lost
    // attempts start in trigger order, one at a time
    && h.started + h.core.queue == h.triggered
    && (h.core.running.Some? ==> h.started != [] && h.started[|h.started| - 1] == h.core.running.value)
  }

  lemma TotalOfOne(windows: seq<Window>, w: Window)
    ensures Total(windows + [w]) == Total(windows) + w.consumed
  {
    assert (windows + [w])[..|windows|] == windows;
  }

  lemma {:induction false} TotalOfRest(windows: seq<Window>)
    requires windows != []
    ensures Total(windows) == windows[0].consumed + Total(windows[1..])
  {
    var n := |windows| - 1;
    if n > 0 {
      TotalOfRest(windows[..n]);
      assert windows[1..][..n - 1] == windows[..n][1..];
    } else {
      assert windows[..n] == [] && windows[1..] == [];
    }
  }

  lemma NextKeepsSound(cfg: Config, h: History, step: Step)
    requires Sound(h) && Enabled(h, step)
    ensures Sound(Next(cfg, h, step))
  {
    hide Total;
    match step
    case Record(count, now) =>
      TotalOfOne(h.core.queue, Window(h.core.pending + count, Checkpoints.EventInterval));
    case Tick(now, stamp) =>
      TotalOfOne(h.core.queue, Window(h.core.pending, Checkpoints.TimeInterval));
    case Start =>
      TotalOfRest(h.core.queue);
      assert h.started + [h.core.queue[0]] + h.core.queue[1..] == h.started + h.core.queue;
    case Finish(ok, now) =>
  }

  /** Conservation and order hold after every step of every run, whatever attempts fail, whatever
      observers throw and whatever the clock reads. */
  lemma {:induction false} RunIsSound(cfg: Config, now: int, steps: seq<Step>)
    ensures Sound(Run(cfg, now, steps))
  {
    hide Sound, Next;
    if steps == [] {
      BeginIsSound(now);
    } else {
      RunIsSound(cfg, now, steps[..|steps| - 1]);
      var h := Run(cfg, now, steps[..|steps| - 1]);
      if Enabled(h, steps[|steps| - 1]) {
        NextKeepsSound(cfg, h, steps[|steps| - 1]);
      }
    }
  }

  lemma BeginIsSound(now: int)
    ensures Sound(Begin(now))
  {
  }

  // ---------------------------------------------------------------- the time stamp

  /** The reading a step leaves as the time stamp: that of a trigger it fires, or of a success it completes. */
  function Stamped(cfg: Config, h: History, step: Step): Clock
    requires Enabled(h, step)
  {
    match step
    case Record(_, now) => if |h.triggered| < |Next(cfg, h, step).triggered| then now else None
    case Tick(_, stamp) => if |h.triggered| < |Next(cfg, h, step).triggered| then stamp else None
    case Start => None
    case Finish(ok, now) => if ok then now else None
  }

  /** The latest such reading of a run, or the time the scheduler was made. */
  function LatestStamp(cfg: Config, now: int, steps: seq<Step>): int
  {
    if steps == [] then now
    else
      var n := |steps| - 1;
      var h := Run(cfg, now, steps[..n]);
      if Enabled(h, steps[n]) && Stamped(cfg, h, steps[n]).Some? then Stamped(cfg, h, steps[n]).value
      else LatestStamp(cfg, now, steps[..n])
  }

  lemma NextStamps(cfg: Config, h: History, step: Step)
    requires Enabled(h, step)
    ensures Next(cfg, h, step).core.lastAt
         == if Stamped(cfg, h, step).Some? then Stamped(cfg, h, step).value else h.core.lastAt
  {
  }

  /** In every run, time is counted from the latest trigger or the latest completed success, whichever
      came last. */
  lemma {:induction false} StampIsLatest(cfg: Config, now: int, steps: seq<Step>)
    ensures Run(cfg, now, steps).core.lastAt == LatestStamp(cfg, now, steps)
  {
    hide Next, Stamped;
    if steps != [] {
      var n := |steps| - 1;
      StampIsLatest(cfg, now, steps[..n]);
      if Enabled(Run(cfg, now, steps[..n]), steps[n]) {
        NextStamps(cfg, Run(cfg, now, steps[..n]), steps[n]);
      }
    }
  }

  /** So a tick triggers exactly when events wait and a whole interval has passed since then. */
  lemma TicksAreSpaced(cfg: Config, now: int, steps: seq<Step>, at: int, stamp: int)
    ensures var h := Run(cfg, now, steps);
      var after := Run(cfg, now, steps + [Tick(Some(at), Some(stamp))]);
      after.triggered == h.triggered
        + if h.core.pending > 0 && at - LatestStamp(cfg, now, steps) >= cfg.timeInterval
          then [Window(h.core.pending, Checkpoints.TimeInterval)] else []
  {
    assert (steps + [Tick(Some(at), Some(stamp))])[..|steps|] == steps;
    StampIsLatest(cfg, now, steps);
    hide LatestStamp;
    var h := Run(cfg, now, steps);
    assert h.triggered + [] == h.triggered;
  }

  predicate ClockReads(step: Step)
  {
    match step
    case Record(_, now) => now.Some?
    case Tick(now, stamp) => now.Some? && stamp.Some?
    case Start => true
    case Finish(_, now) => now.Some?
  }

  /** While the clock reads, nothing is lost: every recorded event is pending, queued, running or
      succeeded. */
  lemma Conservation(cfg: Config, now: int, steps: seq<Step>)
    requires forall i | 0 <= i < |steps| :: ClockReads(steps[i])
    ensures var h := Run(cfg, now, steps);
      h.lost == 0 && h.recorded == h.core.pending + InFlight(h.core) + h.succeeded
  {
    RunIsSound(cfg, now, steps);
    hide Sound;
    NothingLost(cfg, now, steps);
    SoundCounts(Run(cfg, now, steps));
  }

  lemma SoundCounts(h: History)
    requires Sound(h)
    ensures h.recorded == h.core.pending + InFlight(h.core) + h.succeeded + h.lost
  {
  }

  lemma {:induction false} NothingLost(cfg: Config, now: int, steps: seq<Step>)
    requires forall i | 0 <= i < |steps| :: ClockReads(steps[i])
    ensures Run(cfg, now, steps).lost == 0
  {
    if steps != [] {
      NothingLost(cfg, now, steps[..|steps| - 1]);
    }
  }

  /** A trigger that the step is about to fire meets a clock that does not read. */
  predicate FiresBlind(cfg: Config, c: Core, step: Step)
  {
    match step
    case Record(count, now) => c.pending + count >= cfg.eventInterval && now.None?
    case Tick(now, stamp) => TickFires(cfg, c, now) && stamp.None?
    case _ => false
  }

  /** No step of the run fires a trigger on a reading that does not parse. */
  predicate NeverBlind(cfg: Config, now: int, steps: seq<Step>)
  {
    forall i | 0 <= i < |steps| :: !FiresBlind(cfg, Run(cfg, now, steps[..i]).core, steps[i])
  }

  lemma NextLoses(cfg: Config, h: History, step: Step)
    requires ValidConfig(cfg) && Enabled(h, step)
    ensures if FiresBlind(cfg, h.core, step) then h.lost < Next(cfg, h, step).lost
            else h.lost == Next(cfg, h, step).lost
  {
  }

  lemma NeverBlindSplits(cfg: Config, now: int, steps: seq<Step>)
    requires steps != []
    ensures var n := |steps| - 1;
      NeverBlind(cfg, now, steps)
      <==> NeverBlind(cfg, now, steps[..n]) && !FiresBlind(cfg, Run(cfg, now, steps[..n]).core, steps[n])
  {
    hide Run, FiresBlind;
    var n := |steps| - 1;
    assert forall i | 0 <= i < n :: steps[..n][..i] == steps[..i];
  }

  lemma BlindIsEnabled(cfg: Config, h: History, step: Step)
    ensures FiresBlind(cfg, h.core, step) ==> Enabled(h, step)
  {
  }

  lemma {:induction false} LostIffBlind(cfg: Config, now: int, steps: seq<Step>)
    requires ValidConfig(cfg)
    ensures Run(cfg, now, steps).lost == 0 <==> NeverBlind(cfg, now, steps)
  {
    if steps != [] {
      hide Next, NeverBlind, FiresBlind;
      var n := |steps| - 1;
      LostIffBlind(cfg, now, steps[..n]);
      NeverBlindSplits(cfg, now, steps);
      BlindIsEnabled(cfg, Run(cfg, now, steps[..n]), steps[n]);
      var h := Run(cfg, now, steps[..n]);
      if Enabled(h, steps[n]) {
        NextLoses(cfg, h, steps[n]);
      }
    }
  }

  /** The clock is the only leak: the account of recorded events balances exactly when no trigger of
      the run fired on a reading that did not parse. */
  lemma LossIsExact(cfg: Config, now: int, steps: seq<Step>)
    requires ValidConfig(cfg)
    ensures var h := Run(cfg, now, steps);
      h.recorded == h.core.pending + InFlight(h.core) + h.succeeded <==> NeverBlind(cfg, now, steps)
  {
    hide Sound, Run, NeverBlind;
    RunIsSound(cfg, now, steps);
    SoundCounts(Run(cfg, now, steps));
    LostIffBlind(cfg, now, steps);
  }

  /** One unreadable clock at the interval, and the events of the window are gone. */
  lemma UnreadableClockLosesEvents(cfg: Config, now: int)
    requires ValidConfig(cfg)
    ensures Run(cfg, now, [Record(cfg.eventInterval, None)]).lost == cfg.eventInterval
  {
    var step := Record(cfg.eventInterval, None);
    assert [step][..0] == [];
    assert Run(cfg, now, []) == Begin(now);
  }
}
