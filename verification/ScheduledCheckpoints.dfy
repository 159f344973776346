/** The scheduler driving the checkpoint service over one append-only store. An attempt reads the store
    at one moment and writes its manifest at a later one; events arrive in between. */
module ScheduledCheckpoints {
  import opened Wrappers
  import opened Merkle
  import opened Checkpoints
  import CheckpointLedger
  import Scheduler

  type Ledger = CheckpointLedger.Ledger

  /** snapshot is the store as the running attempt read it. */
  datatype System = System(h: Scheduler.History, ledger: Ledger, snapshot: Option<EventTable>)

  /** An attempt can be cut short before its manifest is stored, or after, when only the answer is lost. */
  datatype Fault = NoFault | BeforeInsert | AfterInsert

  datatype Event =
    | Append(stream: Stream, entryHash: Digest)
    | Report(count: nat, now: Scheduler.Clock)
    | Tick(now: Scheduler.Clock, stamp: Scheduler.Clock)
    | Start
    | Read
    | Finish(fault: Fault, createdAt: int, now: Scheduler.Clock)

  function Begin(now: int): System
  {
    System(Scheduler.Begin(now), CheckpointLedger.EMPTY_LEDGER, None)
  }

  /** How many events a store holds. */
  function Size(table: EventTable): nat
  {
    |table[BabyALedger]| + |table[BabyBLedger]| + |table[Channel]| + |table[Affect]| + |table[Audit]|
    + |table[Turns]| + |table[Intervention]|
  }

  /** How many events a manifest commits: the sum of its tree sizes. */
  function TreeSizes(m: Manifest): nat
  {
    ReferenceFor(m, BabyALedger).treeSize + ReferenceFor(m, BabyBLedger).treeSize
    + ReferenceFor(m, Channel).treeSize + ReferenceFor(m, Affect).treeSize + ReferenceFor(m, Audit).treeSize
    + ReferenceFor(m, Turns).treeSize + ReferenceFor(m, Intervention).treeSize
  }

  /** The events the last stored checkpoint commits. */
  function Committed(history: seq<Commit>): nat
  {
    if history == [] then 0 else TreeSizes(history[|history| - 1].manifest)
  }

  /** Only stored events are reported as accepted. */
  predicate Enabled(y: System, e: Event)
  {
    match e
    case Append(_, _) => true
    case Report(count, _) => y.h.recorded + count <= Size(y.ledger.table)
    case Tick(_, _) => true
    case Start => Scheduler.CanStart(y.h.core)
    case Read => y.h.core.running.Some? && y.snapshot.None?
    case Finish(fault, _, _) => y.h.core.running.Some? && (fault.BeforeInsert? || y.snapshot.Some?)
  }

  /** The attempt's answer over the store as it was read. */
  function Outcome(metadata: RunMetadata, y: System, createdAt: int): Result<Creation, Error>
    requires y.snapshot.Some? && y.h.core.running.Some?
  {
    Attempt(Some(metadata), Last(y.ledger.history), y.snapshot.value, y.h.core.running.value.reason, createdAt)
  }

  function Stored(metadata: RunMetadata, y: System, createdAt: int): seq<Commit>
    requires y.snapshot.Some? && y.h.core.running.Some?
  {
    var answer := Outcome(metadata, y, createdAt);
    if answer.Ok? && answer.value.created then
      y.ledger.history + [Commit(answer.value.manifest, y.snapshot.value)]
    else y.ledger.history
  }

  function Next(cfg: Scheduler.Config, metadata: RunMetadata, y: System, e: Event): System
    requires Enabled(y, e)
  {
    match e
    case Append(stream, entryHash) =>
      y.(ledger := CheckpointLedger.Apply(metadata, y.ledger, CheckpointLedger.Append(stream, entryHash)))
    case Report(count, now) => y.(h := Scheduler.Next(cfg, y.h, Scheduler.Record(count, now)))
    case Tick(now, stamp) => y.(h := Scheduler.Next(cfg, y.h, Scheduler.Tick(now, stamp)))
    case Start => y.(h := Scheduler.Next(cfg, y.h, Scheduler.Start), snapshot := None)
    case Read => y.(snapshot := Some(y.ledger.table))
    case Finish(fault, createdAt, now) =>
      if fault.BeforeInsert? then y.(h := Scheduler.Next(cfg, y.h, Scheduler.Finish(false, now)), snapshot := None)
      else
        var ok := fault.NoFault? && Outcome(metadata, y, createdAt).Ok?;
        y.(h := Scheduler.Next(cfg, y.h, Scheduler.Finish(ok, now)),
           ledger := y.ledger.(history := Stored(metadata, y, createdAt)), snapshot := None)
  }

  /** Events that are not enabled are skipped. */
  function Run(cfg: Scheduler.Config, metadata: RunMetadata, now: int, events: seq<Event>): System
  {
    if events == [] then Begin(now)
    else
      var y := Run(cfg, metadata, now, events[..|events| - 1]);
      if Enabled(y, events[|events| - 1]) then Next(cfg, metadata, y, events[|events| - 1]) else y
  }

  // ---------------------------------------------------------------- sizes

  lemma CoversSize(a: EventTable, b: EventTable)
    requires Covers(a, b)
    ensures Size(a) <= Size(b)
  {
  }

  /** A manifest that commits a store commits all its events. */
  lemma CommitsSize(m: Manifest, table: EventTable)
    requires forall s: Stream :: ReferenceFor(m, s).treeSize == |table[s]|
    ensures TreeSizes(m) == Size(table)
  {
    hide ReferenceFor;
  }

  lemma TreeOfSize(events: seq<StoredEvent>)
    ensures TreeOf(events).treeSize == |events|
  {
  }

  /** After an attempt that answers, the last checkpoint commits every event of the store as it was read,
      whether a manifest was written or none was needed. */
  lemma AnswerCommitsAll(history: seq<Commit>, q: Request)
    requires q.metadata.Some? && q.metadata.value.promptBundleHash.Some?
    requires Answer(history, q).Ok?
    ensures TreeSizes(Answer(history, q).value.manifest) == Size(q.table)
    ensures !Answer(history, q).value.created ==>
              history != [] && Answer(history, q).value.manifest == history[|history| - 1].manifest
  {
    hide ReferenceFor, PrefixesUnchanged, AllContiguous, Build, TreeOf, TreeSizes;
    var m := Answer(history, q).value.manifest;
    forall s: Stream
      ensures ReferenceFor(m, s).treeSize == |q.table[s]|
    {
      EveryStreamIsCheckpointed(s);
      TreeOfSize(q.table[s]);
      if Answer(history, q).value.created {
        BuiltManifestCommitsStore(Last(history), q.table, q.metadata.value, q.reason, q.now, s);
      }
    }
    CommitsSize(m, q.table);
  }

  // ---------------------------------------------------------------- the invariant

  /** No recorded event is uncommitted and forgotten. */
  predicate Accounted(y: System)
  {
    && y.h.recorded <= Size(y.ledger.table)
    && y.h.recorded <= Committed(y.ledger.history) + y.h.core.pending + Scheduler.InFlight(y.h.core) + y.h.lost
    && (y.snapshot.Some? ==>
          y.h.recorded <= Size(y.snapshot.value) + y.h.core.pending + Scheduler.Total(y.h.core.queue) + y.h.lost)
  }

  /** The snapshot is the store at an earlier moment, and no checkpoint was stored since. */
  ghost predicate SnapshotOk(y: System)
  {
    y.snapshot.Some? ==>
      && CheckpointLedger.Sound(y.ledger.(table := y.snapshot.value))
      && Covers(y.snapshot.value, y.ledger.table)
  }

  ghost predicate Inv(y: System)
  {
    Scheduler.Sound(y.h) && CheckpointLedger.Sound(y.ledger) && SnapshotOk(y) && Accounted(y)
  }

  lemma BeginInv(now: int)
    ensures Inv(Begin(now))
  {
    CheckpointLedger.EmptyIsSound();
    Scheduler.BeginIsSound(now);
    hide CheckpointLedger.Sound, Scheduler.Sound;
  }

  lemma SoundIsContiguous(l: Ledger)
    requires CheckpointLedger.Sound(l)
    ensures AllContiguous(l.table)
  {
    hide AllContiguous;
  }

  lemma AppendInv(cfg: Scheduler.Config, metadata: RunMetadata, y: System, s: Stream, entryHash: Digest)
    requires Inv(y)
    ensures Inv(Next(cfg, metadata, y, Append(s, entryHash)))
  {
    hide CheckpointLedger.Sound, Scheduler.Sound, Size;
    var event := StoredEvent(|y.ledger.table[s]| + 1, entryHash);
    var after := y.ledger.table[s := y.ledger.table[s] + [event]];
    CheckpointLedger.AppendKeepsSound(metadata, y.ledger, s, entryHash);
    CheckpointLedger.AppendCovers(y.ledger.table, s, event);
    CoversSize(y.ledger.table, after);
    if y.snapshot.Some? {
      CoversTrans(y.snapshot.value, y.ledger.table, after);
    }
  }

  lemma CoversTrans(a: EventTable, b: EventTable, c: EventTable)
    requires Covers(a, b) && Covers(b, c)
    ensures Covers(a, c)
  {
  }

  lemma ReadInv(cfg: Scheduler.Config, metadata: RunMetadata, y: System)
    requires Inv(y) && Enabled(y, Read)
    ensures Inv(Next(cfg, metadata, y, Read))
  {
    hide CheckpointLedger.Sound, Scheduler.Sound, Size;
    assert y.ledger.(table := y.ledger.table) == y.ledger;
    assert Covers(y.ledger.table, y.ledger.table);
  }

  /** What a step of the scheduler itself does to the account. */
  lemma CountedStep(cfg: Scheduler.Config, h: Scheduler.History, step: Scheduler.Step)
    requires Scheduler.Enabled(h, step) && (step.Record? || step.Tick? || step.Start?)
    ensures var n := Scheduler.Next(cfg, h, step);
      var added := if step.Record? then step.count else 0;
      && n.recorded == h.recorded + added
      && n.core.pending + Scheduler.InFlight(n.core) + n.lost
         == h.core.pending + Scheduler.InFlight(h.core) + h.lost + added
      && (!step.Start? ==> n.core.running == h.core.running)
  {
    hide Scheduler.Total;
    match step
    case Record(count, now) =>
      Scheduler.TotalOfOne(h.core.queue, Scheduler.Window(h.core.pending + count, EventInterval));
    case Tick(now, stamp) =>
      Scheduler.TotalOfOne(h.core.queue, Scheduler.Window(h.core.pending, TimeInterval));
    case Start =>
      Scheduler.TotalOfRest(h.core.queue);
  }

  lemma SchedulerInv(cfg: Scheduler.Config, metadata: RunMetadata, y: System, e: Event)
    requires Inv(y) && Enabled(y, e) && (e.Report? || e.Tick? || e.Start?)
    ensures Inv(Next(cfg, metadata, y, e))
  {
    hide CheckpointLedger.Sound, Scheduler.Sound, Size, Scheduler.Next, Scheduler.Total, Committed;
    var step := match e
      case Report(count, now) => Scheduler.Record(count, now)
      case Tick(now, stamp) => Scheduler.Tick(now, stamp)
      case _ => Scheduler.Start;
    Scheduler.NextKeepsSound(cfg, y.h, step);
    CountedStep(cfg, y.h, step);
  }

  /** An attempt without a fault succeeds, and then everything it read is committed. */
  lemma AttemptCommits(metadata: RunMetadata, y: System, createdAt: int)
    requires Inv(y) && metadata.promptBundleHash.Some? && y.snapshot.Some? && y.h.core.running.Some?
    ensures Outcome(metadata, y, createdAt).Ok?
    ensures Committed(Stored(metadata, y, createdAt)) == Size(y.snapshot.value)
    ensures CheckpointLedger.Sound(y.ledger.(history := Stored(metadata, y, createdAt)))
  {
    hide CheckpointLedger.Sound, Scheduler.Sound, Size, Attempt, TreeSizes, Covers, AllContiguous;
    var reason := y.h.core.running.value.reason;
    var was := y.ledger.(table := y.snapshot.value);
    CheckpointLedger.AttemptSucceeds(metadata, was, reason, createdAt);
    AnswerCommitsAll(y.ledger.history, Request(Some(metadata), y.snapshot.value, reason, createdAt));
    CheckpointLedger.CheckpointKeepsSound(metadata, was, reason, createdAt);
    var written := y.ledger.(table := y.snapshot.value, history := Stored(metadata, y, createdAt));
    assert CheckpointLedger.Apply(metadata, was, CheckpointLedger.Checkpoint(reason, createdAt)) == written;
    SoundIsContiguous(y.ledger);
    CheckpointLedger.LaterStoreIsSound(written, y.ledger.table);
    assert written.(table := y.ledger.table) == y.ledger.(history := Stored(metadata, y, createdAt));
  }

  lemma FinishInv(cfg: Scheduler.Config, metadata: RunMetadata, y: System, e: Event)
    requires Inv(y) && Enabled(y, e) && e.Finish? && metadata.promptBundleHash.Some?
    ensures Inv(Next(cfg, metadata, y, e))
  {
    hide CheckpointLedger.Sound, Scheduler.Sound, Size, Scheduler.Total, Outcome, Stored, Committed;
    if e.fault.BeforeInsert? {
      Scheduler.NextKeepsSound(cfg, y.h, Scheduler.Finish(false, e.now));
    } else {
      AttemptCommits(metadata, y, e.createdAt);
      Scheduler.NextKeepsSound(cfg, y.h, Scheduler.Finish(e.fault.NoFault?, e.now));
    }
  }

  lemma {:induction false} RunInv(cfg: Scheduler.Config, metadata: RunMetadata, now: int, events: seq<Event>)
    requires metadata.promptBundleHash.Some?
    ensures Inv(Run(cfg, metadata, now, events))
  {
    hide Inv, Next;
    if events == [] {
      BeginInv(now);
    } else {
      var e := events[|events| - 1];
      RunInv(cfg, metadata, now, events[..|events| - 1]);
      var y := Run(cfg, metadata, now, events[..|events| - 1]);
      if Enabled(y, e) {
        match e
        case Append(s, entryHash) => AppendInv(cfg, metadata, y, s, entryHash);
        case Read => ReadInv(cfg, metadata, y);
        case Finish(_, _, _) => FinishInv(cfg, metadata, y, e);
        case _ => SchedulerInv(cfg, metadata, y, e);
      }
    }
  }

  /** Over every run of appends, reports, ticks and attempts that may fail at any point, recorded events the
      last checkpoint does not commit are pending, queued or running; what the clock makes a trigger lose is
      the only addition. */
  lemma UncommittedIsCounted(cfg: Scheduler.Config, metadata: RunMetadata, now: int, events: seq<Event>)
    requires metadata.promptBundleHash.Some?
    ensures var y := Run(cfg, metadata, now, events);
      && y.h.recorded - Committed(y.ledger.history)
         <= y.h.core.pending + Scheduler.InFlight(y.h.core) + y.h.lost
      && (y.snapshot.Some? && y.h.core.running.Some? ==> forall createdAt: int ::
            && Outcome(metadata, y, createdAt).Ok?
            && Committed(Stored(metadata, y, createdAt)) == Size(y.snapshot.value))
  {
    hide Run, Outcome, Stored, Committed, Size, Scheduler.InFlight;
    RunInv(cfg, metadata, now, events);
    var y := Run(cfg, metadata, now, events);
    if y.snapshot.Some? && y.h.core.running.Some? {
      forall createdAt: int
        ensures Outcome(metadata, y, createdAt).Ok?
        ensures Committed(Stored(metadata, y, createdAt)) == Size(y.snapshot.value)
      {
        AttemptCommits(metadata, y, createdAt);
      }
    }
  }

  // ---------------------------------------------------------------- events are committed

  lemma RunSnoc(cfg: Scheduler.Config, metadata: RunMetadata, now: int, events: seq<Event>, e: Event)
    ensures var y := Run(cfg, metadata, now, events);
      Run(cfg, metadata, now, events + [e]) == if Enabled(y, e) then Next(cfg, metadata, y, e) else y
  {
    assert (events + [e])[..|events|] == events;
  }

  /** The state once one event is stored and reported, where every event triggers. */
  lemma OneReported(cfg: Scheduler.Config, metadata: RunMetadata, now: int, stream: Stream, entryHash: Digest)
    requires cfg.eventInterval == 1
    ensures var y := Run(cfg, metadata, now, [Append(stream, entryHash), Report(1, Some(now))]);
      && y.h.recorded == 1 && y.h.succeeded == 0 && y.h.core.pending == 0 && y.h.core.running.None?
      && y.h.core.queue == [Scheduler.Window(1, Checkpoints.EventInterval)]
      && y.ledger.history == [] && Size(y.ledger.table) == 1
  {
    hide Run, CheckpointLedger.Run;
    RunNone(cfg, metadata, now);
    RunSnoc(cfg, metadata, now, [], Append(stream, entryHash));
    RunSnoc(cfg, metadata, now, [Append(stream, entryHash)], Report(1, Some(now)));
    assert [] + [Append(stream, entryHash)] == [Append(stream, entryHash)];
    assert [Append(stream, entryHash)] + [Report(1, Some(now))] == [Append(stream, entryHash), Report(1, Some(now))];
  }

  lemma RunNone(cfg: Scheduler.Config, metadata: RunMetadata, now: int)
    ensures Run(cfg, metadata, now, []) == Begin(now)
  {
  }

  /** An attempt starts and reads the store. */
  lemma StartAndRead(cfg: Scheduler.Config, metadata: RunMetadata, y: System)
    requires Enabled(y, Start)
    ensures var n := Next(cfg, metadata, y, Start);
      && Enabled(n, Read)
      && var r := Next(cfg, metadata, n, Read);
         && r.snapshot == Some(y.ledger.table) && r.ledger == y.ledger
         && r.h.core.running == Some(y.h.core.queue[0]) && r.h.core.pending == y.h.core.pending
         && r.h.recorded == y.h.recorded && r.h.succeeded == y.h.succeeded
  {
  }

  /** Its success counts its window and stores what the attempt made. */
  lemma FinishStores(cfg: Scheduler.Config, metadata: RunMetadata, y: System, at: int)
    requires y.snapshot.Some? && y.h.core.running.Some? && Outcome(metadata, y, at).Ok?
    ensures Enabled(y, Finish(NoFault, at, Some(at)))
    ensures var n := Next(cfg, metadata, y, Finish(NoFault, at, Some(at)));
      && n.ledger.history == Stored(metadata, y, at) && n.h.recorded == y.h.recorded
      && n.h.core.pending == y.h.core.pending
      && n.h.succeeded == y.h.succeeded + y.h.core.running.value.consumed
  {
    hide Outcome, Stored;
  }

  /** A run of five events that commits the one event it reports. */
  lemma ReportedEventIsCommitted(cfg: Scheduler.Config, metadata: RunMetadata, now: int, stream: Stream,
                                 entryHash: Digest)
    requires cfg.eventInterval == 1 && metadata.promptBundleHash.Some?
    ensures var y := Run(cfg, metadata, now, [Append(stream, entryHash), Report(1, Some(now))] + [Start] + [Read]
                                             + [Finish(NoFault, now, Some(now))]);
      y.h.recorded == 1 && Committed(y.ledger.history) == 1 && y.h.core.pending == 0 && y.h.succeeded == 1
  {
    hide *;
    var first := [Append(stream, entryHash), Report(1, Some(now))];
    OneReported(cfg, metadata, now, stream, entryHash);
    var y := Run(cfg, metadata, now, first);
    CanStartOne(y);
    StartAndRead(cfg, metadata, y);
    RunSnoc(cfg, metadata, now, first, Start);
    RunSnoc(cfg, metadata, now, first + [Start], Read);
    var z := Run(cfg, metadata, now, first + [Start] + [Read]);
    RunInv(cfg, metadata, now, first + [Start] + [Read]);
    AttemptCommits(metadata, z, now);
    FinishStores(cfg, metadata, z, now);
    RunSnoc(cfg, metadata, now, first + [Start] + [Read], Finish(NoFault, now, Some(now)));
  }

  lemma CanStartOne(y: System)
    requires y.h.core.running.None? && y.h.core.queue != []
    ensures Enabled(y, Start)
  {
  }
}
