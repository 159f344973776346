/** Checkpoint manifests over the event streams of one run: what a manifest commits, when the next
    one may be built, and what a successful attempt says about a store that may have been
    rewritten in the meantime. */
module Checkpoints {
  import opened Wrappers
  import opened Merkle

  datatype Stream = BabyALedger | BabyBLedger | Channel | Affect | Audit | Turns | Intervention

  /** Every stream has its own tree name, so the stream itself serves as the name. */
  const CHECKPOINT_STREAMS: seq<Stream> :=
    [BabyALedger, BabyBLedger, Channel, Affect, Audit, Turns, Intervention]

  predicate IsMandatory(s: Stream)
  {
    s == BabyALedger || s == BabyBLedger || s == Channel
  }

  datatype StoredEvent = StoredEvent(sequence: nat, entryHash: Digest)

  type EventTable = m: map<Stream, seq<StoredEvent>> | forall s: Stream :: s in m
    witness map s: Stream | true :: []

  datatype TreeReference = TreeReference(treeSize: nat, merkleRoot: Digest, lastEntryHash: Digest)

  const GENESIS_HASH := Opaque(0)
  const EMPTY_TREE_REFERENCE := TreeReference(0, EmptyRoot, GENESIS_HASH)

  datatype Reason = EventInterval | TimeInterval | Lifecycle(name: string)

  /** The hash of a manifest is the term that was hashed. */
  datatype CheckpointHash = NoCheckpoint | HashOf(manifest: Manifest)

  datatype Manifest = Manifest(
    checkpointSequence: nat,
    previousCheckpointHash: CheckpointHash,
    babyA: TreeReference,
    babyB: TreeReference,
    channel: TreeReference,
    auxiliaryTrees: map<Stream, TreeReference>,
    runConfigurationHash: Digest,
    promptBundleHash: Digest,
    createdAt: int,
    reason: Reason)

  /** promptBundleHash is None when the stored field is not a SHA-256 hash. */
  datatype RunMetadata = RunMetadata(configurationHash: Digest, promptBundleHash: Option<Digest>)

  datatype Error = UnknownRun | Integrity | InvalidRequest | NotFound | ProofRange

  datatype Creation = Creation(created: bool, manifest: Manifest, reason: Reason)

  // ---------------------------------------------------------------- trees

  predicate Contiguous(events: seq<StoredEvent>)
  {
    forall i | 0 <= i < |events| :: events[i].sequence == i + 1
  }

  predicate AllContiguous(table: EventTable)
  {
    forall s <- CHECKPOINT_STREAMS :: Contiguous(table[s])
  }

  function LeafHashes(events: seq<StoredEvent>): (leaves: seq<Digest>)
    ensures |leaves| == |events|
    ensures forall i | 0 <= i < |leaves| :: leaves[i] == Leaf(events[i].sequence, events[i].entryHash)
  {
    seq(|events|, i requires 0 <= i < |events| => Leaf(events[i].sequence, events[i].entryHash))
  }

  function TreeOf(events: seq<StoredEvent>): TreeReference
  {
    TreeReference(|events|, Root(LeafHashes(events)),
                  if events == [] then GENESIS_HASH else events[|events| - 1].entryHash)
  }

  function ReferenceFor(m: Manifest, s: Stream): TreeReference
  {
    match s
    case BabyALedger => m.babyA
    case BabyBLedger => m.babyB
    case Channel => m.channel
    case _ => if s in m.auxiliaryTrees then m.auxiliaryTrees[s] else EMPTY_TREE_REFERENCE
  }

  /** Only non-empty auxiliary streams appear. */
  function AuxiliaryTrees(table: EventTable): map<Stream, TreeReference>
  {
    map s: Stream | s in CHECKPOINT_STREAMS && !IsMandatory(s) && table[s] != [] :: TreeOf(table[s])
  }

  function Build(previous: Option<Manifest>, table: EventTable, metadata: RunMetadata, reason: Reason, now: int)
    : Manifest
    requires metadata.promptBundleHash.Some?
  {
    Manifest(
      if previous.Some? then previous.value.checkpointSequence + 1 else 0,
      if previous.Some? then HashOf(previous.value) else NoCheckpoint,
      TreeOf(table[BabyALedger]), TreeOf(table[BabyBLedger]), TreeOf(table[Channel]),
      AuxiliaryTrees(table), metadata.configurationHash, metadata.promptBundleHash.value, now, reason)
  }

  /** The committed prefix of one stream is still in the store, by size and by root. */
  predicate PrefixUnchanged(committed: TreeReference, events: seq<StoredEvent>)
  {
    && committed.treeSize <= |events|
    && (committed.treeSize == 0 || Root(LeafHashes(events)[..committed.treeSize]) == committed.merkleRoot)
  }

  predicate PrefixesUnchanged(previous: Manifest, table: EventTable)
  {
    forall s <- CHECKPOINT_STREAMS :: PrefixUnchanged(ReferenceFor(previous, s), table[s])
  }

  predicate HasGrown(previous: Manifest, table: EventTable)
  {
    exists s <- CHECKPOINT_STREAMS :: |table[s]| != ReferenceFor(previous, s).treeSize
  }

  /** The trees a manifest declares are exactly those of the store. */
  predicate TreesMatch(m: Manifest, table: EventTable)
  {
    && m.auxiliaryTrees.Keys == AuxiliaryTrees(table).Keys
    && forall s <- CHECKPOINT_STREAMS :: ReferenceFor(m, s) == TreeOf(table[s])
  }

  /** One attempt, as a function of everything it reads. */
  function Attempt(metadata: Option<RunMetadata>, previous: Option<Manifest>, table: EventTable,
                   reason: Reason, now: int): Result<Creation, Error>
  {
    if metadata.None? then Err(UnknownRun)
    else if !AllContiguous(table) then Err(Integrity)
    else if previous.Some? && !PrefixesUnchanged(previous.value, table) then Err(Integrity)
    else if previous.Some? && !reason.Lifecycle? && !HasGrown(previous.value, table) then
      Ok(Creation(false, previous.value, reason))
    else if metadata.value.promptBundleHash.None? then Err(InvalidRequest)
    else Ok(Creation(true, Build(previous, table, metadata.value, reason, now), reason))
  }

  lemma EveryStreamIsCheckpointed(s: Stream)
    ensures s in CHECKPOINT_STREAMS
  {
    match s {
      case BabyALedger => assert CHECKPOINT_STREAMS[0] == s;
      case BabyBLedger => assert CHECKPOINT_STREAMS[1] == s;
      case Channel => assert CHECKPOINT_STREAMS[2] == s;
      case Affect => assert CHECKPOINT_STREAMS[3] == s;
      case Audit => assert CHECKPOINT_STREAMS[4] == s;
      case Turns => assert CHECKPOINT_STREAMS[5] == s;
      case Intervention => assert CHECKPOINT_STREAMS[6] == s;
    }
  }

  /** A manifest built from a store commits the tree of every stream, empty ones included. */
  lemma BuiltManifestCommitsStore(previous: Option<Manifest>, table: EventTable, metadata: RunMetadata,
                                  reason: Reason, now: int, s: Stream)
    requires metadata.promptBundleHash.Some?
    ensures ReferenceFor(Build(previous, table, metadata, reason, now), s) == TreeOf(table[s])
  {
    hide Build;
    BuiltTrees(previous, table, metadata, reason, now);
    if !IsMandatory(s) {
      AuxiliaryIsTree(table, s);
    }
  }

  /** What a manifest has to say of the run and of one stream's events. */
  predicate Records(m: Manifest, previous: Option<Manifest>, table: EventTable, metadata: RunMetadata,
                    reason: Reason, now: int)
  {
    && m.checkpointSequence == (if previous.None? then 0 else previous.value.checkpointSequence + 1)
    && m.previousCheckpointHash == (if previous.None? then NoCheckpoint else HashOf(previous.value))
    && m.runConfigurationHash == metadata.configurationHash && metadata.promptBundleHash == Some(m.promptBundleHash)
    && m.createdAt == now && m.reason == reason
    && (forall s: Stream :: RecordsStream(ReferenceFor(m, s), table[s]))
    && (forall s: Stream :: s in m.auxiliaryTrees <==> !IsMandatory(s) && table[s] != [])
  }

  predicate RecordsStream(r: TreeReference, events: seq<StoredEvent>)
  {
    && r.treeSize == |events| && r.merkleRoot == Root(LeafHashes(events))
    && r.lastEntryHash == (if |events| == 0 then GENESIS_HASH else events[|events| - 1].entryHash)
  }

  lemma TreeRecords(events: seq<StoredEvent>)
    ensures RecordsStream(TreeOf(events), events)
  {
    hide Root;
  }

  /** A manifest that is built says exactly what it has to. */
  lemma BuiltManifestRecords(previous: Option<Manifest>, table: EventTable, metadata: RunMetadata,
                             reason: Reason, now: int)
    requires metadata.promptBundleHash.Some?
    ensures Records(Build(previous, table, metadata, reason, now), previous, table, metadata, reason, now)
  {
    hide TreeOf, ReferenceFor, RecordsStream, IsMandatory;
    var m := Build(previous, table, metadata, reason, now);
    forall s: Stream
      ensures RecordsStream(ReferenceFor(m, s), table[s])
      ensures s in m.auxiliaryTrees <==> !IsMandatory(s) && table[s] != []
    {
      EveryStreamIsCheckpointed(s);
      BuiltManifestCommitsStore(previous, table, metadata, reason, now, s);
      TreeRecords(table[s]);
    }
  }

  lemma BuiltTrees(previous: Option<Manifest>, table: EventTable, metadata: RunMetadata, reason: Reason, now: int)
    requires metadata.promptBundleHash.Some?
    ensures var m := Build(previous, table, metadata, reason, now);
      && m.babyA == TreeOf(table[BabyALedger]) && m.babyB == TreeOf(table[BabyBLedger])
      && m.channel == TreeOf(table[Channel]) && m.auxiliaryTrees == AuxiliaryTrees(table)
  {
    hide TreeOf, AuxiliaryTrees;
  }

  /** An omitted auxiliary stream is an empty one. */
  lemma AuxiliaryIsTree(table: EventTable, s: Stream)
    requires !IsMandatory(s)
    ensures TreeOf(table[s]) == if s in AuxiliaryTrees(table) then AuxiliaryTrees(table)[s] else EMPTY_TREE_REFERENCE
  {
    EveryStreamIsCheckpointed(s);
    if table[s] == [] {
      assert LeafHashes(table[s]) == [];
    }
  }

  // ---------------------------------------------------------------- tamper evidence

  lemma LeavesDetermineEvents(a: seq<StoredEvent>, b: seq<StoredEvent>)
    requires |a| <= |b| && LeafHashes(a) == LeafHashes(b)[..|a|]
    ensures a <= b
  {
    forall i | 0 <= i < |a|
      ensures a[i] == b[i]
    {
      assert LeafHashes(a)[i] == LeafHashes(b)[i];
    }
  }

  lemma PrefixLeaves(a: seq<StoredEvent>, b: seq<StoredEvent>)
    requires a <= b
    ensures LeafHashes(b)[..|a|] == LeafHashes(a)
  {
  }

  /** The size-and-root check is exact: it passes if and only if the events that were committed
      are still the first events of the stream. */
  lemma PrefixCheckIsExact(committed: seq<StoredEvent>, now: seq<StoredEvent>)
    ensures PrefixUnchanged(TreeOf(committed), now) <==> committed <= now
  {
    if PrefixUnchanged(TreeOf(committed), now) && committed != [] {
      RootInjective(LeafHashes(now)[..|committed|], LeafHashes(committed));
      LeavesDetermineEvents(committed, now);
    }
    if committed <= now {
      PrefixLeaves(committed, now);
    }
  }

  /** A stored checkpoint together with the event table it was built from. */
  datatype Commit = Commit(manifest: Manifest, table: EventTable)

  function Last(history: seq<Commit>): Option<Manifest>
  {
    if history == [] then None else Some(history[|history| - 1].manifest)
  }

  /** What one attempt reads: the event table may be anything at all at each attempt. */
  datatype Request = Request(metadata: Option<RunMetadata>, table: EventTable, reason: Reason, now: int)

  function Answer(history: seq<Commit>, q: Request): Result<Creation, Error>
  {
    Attempt(q.metadata, Last(history), q.table, q.reason, q.now)
  }

  /** The checkpoints a series of attempts leaves behind. */
  function Attempts(requests: seq<Request>): seq<Commit>
  {
    if requests == [] then []
    else
      var history := Attempts(requests[..|requests| - 1]);
      var q := requests[|requests| - 1];
      var answer := Answer(history, q);
      if answer.Ok? && answer.value.created then history + [Commit(answer.value.manifest, q.table)] else history
  }

  predicate Covers(earlier: EventTable, later: EventTable)
  {
    forall s: Stream :: earlier[s] <= later[s]
  }

  lemma SuccessCoversLast(commit: Commit, q: Request)
    requires forall s: Stream :: ReferenceFor(commit.manifest, s) == TreeOf(commit.table[s])
    requires Attempt(q.metadata, Some(commit.manifest), q.table, q.reason, q.now).Ok?
    ensures Covers(commit.table, q.table)
  {
    forall s: Stream
      ensures commit.table[s] <= q.table[s]
    {
      EveryStreamIsCheckpointed(s);
      PrefixCheckIsExact(commit.table[s], q.table[s]);
    }
  }

  /** Every manifest commits its own table, and every table covers the ones before it. */
  ghost predicate Chained(h: seq<Commit>)
  {
    && (forall i, s: Stream | 0 <= i < |h| :: ReferenceFor(h[i].manifest, s) == TreeOf(h[i].table[s]))
    && (forall i, j | 0 <= i <= j < |h| :: Covers(h[i].table, h[j].table))
  }

  lemma ChainExtends(h: seq<Commit>, q: Request)
    requires Chained(h) && Answer(h, q).Ok?
    ensures forall i | 0 <= i < |h| :: Covers(h[i].table, q.table)
    ensures Answer(h, q).value.created ==> Chained(h + [Commit(Answer(h, q).value.manifest, q.table)])
  {
    hide TreeOf, ReferenceFor, Build;
    if h != [] {
      SuccessCoversLast(h[|h| - 1], q);
    }
    if Answer(h, q).value.created {
      forall s: Stream
        ensures ReferenceFor(Answer(h, q).value.manifest, s) == TreeOf(q.table[s])
      {
        BuiltManifestCommitsStore(Last(h), q.table, q.metadata.value, q.reason, q.now, s);
      }
    }
  }

  /** Whatever happened to the store between attempts, every checkpoint's table is covered by
      every later checkpoint's table. */
  lemma {:induction false} ChainCovers(requests: seq<Request>)
    ensures Chained(Attempts(requests))
  {
    hide Chained, Attempt;
    if requests == [] {
      ChainedEmpty();
    } else {
      var before, q := requests[..|requests| - 1], requests[|requests| - 1];
      ChainCovers(before);
      if Answer(Attempts(before), q).Ok? {
        ChainExtends(Attempts(before), q);
      }
    }
  }

  lemma ChainedEmpty()
    ensures Chained([])
  {
  }

  /** Tamper evidence. After any attempts against any stores, if one more attempt succeeds then
      every event that any earlier checkpoint committed is still in place, in every stream. */
  lemma TamperEvidence(requests: seq<Request>, q: Request)
    requires Answer(Attempts(requests), q).Ok?
    ensures forall i | 0 <= i < |Attempts(requests)| :: Covers(Attempts(requests)[i].table, q.table)
  {
    ChainCovers(requests);
    ChainExtends(Attempts(requests), q);
  }

  /** A committed event that is gone or changed makes an attempt fail. */
  lemma UncoveredFails(commit: Commit, q: Request, s: Stream)
    requires q.metadata.Some? && ReferenceFor(commit.manifest, s) == TreeOf(commit.table[s])
    requires !(commit.table[s] <= q.table[s])
    ensures Attempt(q.metadata, Some(commit.manifest), q.table, q.reason, q.now) == Err(Integrity)
  {
    hide PrefixUnchanged, TreeOf, ReferenceFor, AllContiguous, HasGrown, Build;
    EveryStreamIsCheckpointed(s);
    PrefixCheckIsExact(commit.table[s], q.table[s]);
  }

  /** And a rewrite of anything the last checkpoint committed makes every later attempt fail,
      whatever its reason, as an integrity error. */
  lemma RewriteBlocksCheckpoints(requests: seq<Request>, q: Request)
    requires Attempts(requests) != [] && q.metadata.Some?
    requires !Covers(Attempts(requests)[|Attempts(requests)| - 1].table, q.table)
    ensures Answer(Attempts(requests), q) == Err(Integrity)
  {
    hide Attempts, Attempt, ReferenceFor, TreeOf;
    ChainCovers(requests);
    var h := Attempts(requests);
    var s: Stream :| !(h[|h| - 1].table[s] <= q.table[s]);
    UncoveredFails(h[|h| - 1], q, s);
  }
}
