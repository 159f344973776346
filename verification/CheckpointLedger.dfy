/** Checkpointing an append-only store: every run of appends and attempts, and the proofs that can
    be asked of the store afterwards. */
module CheckpointLedger {
  import opened Wrappers
  import opened Merkle
  import opened MerkleProofs
  import opened MerkleConsistency
  import opened Checkpoints

  datatype Op = Append(stream: Stream, entryHash: Digest) | Checkpoint(reason: Reason, now: int)

  datatype Ledger = Ledger(table: EventTable, history: seq<Commit>)

  const EMPTY_LEDGER := Ledger(map s: Stream | true :: [], [])

  function Apply(metadata: RunMetadata, l: Ledger, op: Op): Ledger
  {
    match op
    case Append(s, entryHash) =>
      l.(table := l.table[s := l.table[s] + [StoredEvent(|l.table[s]| + 1, entryHash)]])
    case Checkpoint(reason, now) =>
      var answer := Attempt(Some(metadata), Last(l.history), l.table, reason, now);
      if answer.Ok? && answer.value.created then
        l.(history := l.history + [Commit(answer.value.manifest, l.table)])
      else l
  }

  function Run(metadata: RunMetadata, ops: seq<Op>): Ledger
  {
    if ops == [] then EMPTY_LEDGER
    else Apply(metadata, Run(metadata, ops[..|ops| - 1]), ops[|ops| - 1])
  }

  /** Numbered from zero and linked by hash. */
  predicate Linked(history: seq<Commit>)
  {
    forall i | 0 <= i < |history| :: LinkedAt(history[..i], history[i].manifest)
  }

  predicate LinkedAt(before: seq<Commit>, m: Manifest)
  {
    && m.checkpointSequence == |before|
    && m.previousCheckpointHash == if before == [] then NoCheckpoint else HashOf(before[|before| - 1].manifest)
  }

  predicate Grew(before: EventTable, after: EventTable)
  {
    exists s <- CHECKPOINT_STREAMS :: |before[s]| < |after[s]|
  }

  /** A checkpoint written for an interval has a stream that strictly grew since the previous one. */
  predicate IntervalsGrew(history: seq<Commit>)
  {
    forall i | 0 < i < |history| && !history[i].manifest.reason.Lifecycle? ::
      Grew(history[i - 1].table, history[i].table)
  }

  ghost predicate CoveredBy(history: seq<Commit>, table: EventTable)
  {
    forall i | 0 <= i < |history| :: Covers(history[i].table, table)
  }

  ghost predicate Sound(l: Ledger)
  {
    && AllContiguous(l.table)
    && Chained(l.history)
    && CoveredBy(l.history, l.table)
    && Linked(l.history)
    && IntervalsGrew(l.history)
  }

  /** On a sound ledger no attempt fails, and an interval attempt is skipped exactly when no
      stream has grown. */
  lemma AttemptSucceeds(metadata: RunMetadata, l: Ledger, reason: Reason, now: int)
    requires Sound(l) && metadata.promptBundleHash.Some?
    ensures var answer := Attempt(Some(metadata), Last(l.history), l.table, reason, now);
      && answer.Ok?
      && (answer.value.created <==>
            l.history == [] || reason.Lifecycle?
            || Grew(l.history[|l.history| - 1].table, l.table))
  {
    hide TreeOf, ReferenceFor, Build, Root, PrefixUnchanged, Linked, IntervalsGrew;
    if l.history != [] {
      var last := l.history[|l.history| - 1];
      assert Covers(last.table, l.table);
      forall s: Stream
        ensures PrefixUnchanged(ReferenceFor(last.manifest, s), l.table[s])
        ensures ReferenceFor(last.manifest, s).treeSize == |last.table[s]| <= |l.table[s]|
      {
        assert ReferenceFor(last.manifest, s) == TreeOf(last.table[s]);
        PrefixCheckIsExact(last.table[s], l.table[s]);
        TreeOfSize(last.table[s]);
      }
      hide Chained, CoveredBy, Covers;
    }
  }

  lemma TreeOfSize(events: seq<StoredEvent>)
    ensures TreeOf(events).treeSize == |events|
  {
  }

  lemma AppendKeepsContiguous(events: seq<StoredEvent>, entryHash: Digest)
    requires Contiguous(events)
    ensures Contiguous(events + [StoredEvent(|events| + 1, entryHash)])
  {
  }

  lemma AppendKeepsSound(metadata: RunMetadata, l: Ledger, s: Stream, entryHash: Digest)
    requires Sound(l)
    ensures Sound(Apply(metadata, l, Append(s, entryHash)))
  {
    hide Sound, Attempt, Covers, AllContiguous;
    var event := StoredEvent(|l.table[s]| + 1, entryHash);
    var after := l.table[s := l.table[s] + [event]];
    AppendCovers(l.table, s, event);
    AppendKeepsAllContiguous(l, s, entryHash);
    LaterStoreIsSound(l, after);
  }

  lemma AppendKeepsAllContiguous(l: Ledger, s: Stream, entryHash: Digest)
    requires Sound(l)
    ensures AllContiguous(l.table[s := l.table[s] + [StoredEvent(|l.table[s]| + 1, entryHash)]])
  {
    hide Chained, CoveredBy, Linked, IntervalsGrew, Contiguous;
    AppendKeepsContiguous(l.table[s], entryHash);
  }

  /** A ledger that is sound over an earlier store is sound over a later one. */
  lemma LaterStoreIsSound(l: Ledger, table: EventTable)
    requires Sound(l) && Covers(l.table, table) && AllContiguous(table)
    ensures Sound(l.(table := table))
  {
    hide Chained, Linked, IntervalsGrew, CoveredBy, AllContiguous, Covers;
    CoveredStill(l.history, l.table, table);
  }

  lemma AppendCovers(table: EventTable, s: Stream, event: StoredEvent)
    ensures Covers(table, table[s := table[s] + [event]])
  {
  }

  lemma CoveredStill(h: seq<Commit>, table: EventTable, after: EventTable)
    requires CoveredBy(h, table) && Covers(table, after)
    ensures CoveredBy(h, after)
  {
    forall i | 0 <= i < |h|
      ensures Covers(h[i].table, after)
    {
      assert Covers(h[i].table, table);
    }
  }

  lemma CommitExtends(h: seq<Commit>, commit: Commit)
    requires Linked(h) && IntervalsGrew(h) && CoveredBy(h, commit.table)
    requires LinkedAt(h, commit.manifest)
    requires h != [] && !commit.manifest.reason.Lifecycle? ==>
               Grew(h[|h| - 1].table, commit.table)
    ensures Linked(h + [commit]) && IntervalsGrew(h + [commit]) && CoveredBy(h + [commit], commit.table)
  {
    assert Covers(commit.table, commit.table);
    hide Grew, Covers, LinkedAt, Linked;
    LinkedExtends(h, commit);
  }

  lemma LinkedExtends(h: seq<Commit>, commit: Commit)
    requires Linked(h) && LinkedAt(h, commit.manifest)
    ensures Linked(h + [commit])
  {
    hide LinkedAt;
    var g := h + [commit];
    forall i | 0 <= i < |g|
      ensures LinkedAt(g[..i], g[i].manifest)
    {
      assert g[..i] == h[..i];
      if i == |h| {
        assert h[..i] == h;
      }
    }
  }

  lemma CheckpointKeepsSound(metadata: RunMetadata, l: Ledger, reason: Reason, now: int)
    requires Sound(l) && metadata.promptBundleHash.Some?
    ensures Sound(Apply(metadata, l, Checkpoint(reason, now)))
  {
    hide Chained, TreeOf, ReferenceFor, Root, Linked, IntervalsGrew, CoveredBy, AllContiguous, Grew, Covers,
         PrefixesUnchanged, HasGrown;
    AttemptSucceeds(metadata, l, reason, now);
    var q := Request(Some(metadata), l.table, reason, now);
    if Answer(l.history, q).value.created {
      ChainExtends(l.history, q);
      LastIsNumbered(l.history);
      CommitExtends(l.history, Commit(Answer(l.history, q).value.manifest, l.table));
    }
  }

  lemma LastIsNumbered(h: seq<Commit>)
    requires Linked(h)
    ensures h != [] ==> h[|h| - 1].manifest.checkpointSequence == |h| - 1
  {
    if h != [] {
      assert LinkedAt(h[..|h| - 1], h[|h| - 1].manifest);
    }
  }

  /** Every run of appends and checkpoint attempts on an append-only store. */
  lemma {:induction false} RunIsSound(metadata: RunMetadata, ops: seq<Op>)
    requires metadata.promptBundleHash.Some?
    ensures Sound(Run(metadata, ops))
  {
    hide Sound, Apply;
    if ops == [] {
      EmptyIsSound();
    } else {
      var before := Run(metadata, ops[..|ops| - 1]);
      RunIsSound(metadata, ops[..|ops| - 1]);
      match ops[|ops| - 1]
      case Append(s, entryHash) => AppendKeepsSound(metadata, before, s, entryHash);
      case Checkpoint(reason, now) => CheckpointKeepsSound(metadata, before, reason, now);
    }
  }

  lemma EmptyIsSound()
    ensures Sound(EMPTY_LEDGER)
  {
  }

  // ---------------------------------------------------------------- proofs

  function Manifests(history: seq<Commit>): (ms: seq<Manifest>)
    ensures |ms| == |history|
    ensures forall i | 0 <= i < |ms| :: ms[i] == history[i].manifest
  {
    seq(|history|, i requires 0 <= i < |history| => history[i].manifest)
  }

  function FindManifest(checkpoints: seq<Manifest>, number: int): Option<Manifest>
  {
    if checkpoints == [] then None
    else if checkpoints[0].checkpointSequence == number then Some(checkpoints[0])
    else FindManifest(checkpoints[1..], number)
  }

  /** Reading sequences 1..size; fails when the store does not hold exactly that many. */
  function InRange(events: seq<StoredEvent>, size: nat): seq<StoredEvent>
  {
    if events == [] then []
    else if 1 <= events[0].sequence <= size then [events[0]] + InRange(events[1..], size)
    else InRange(events[1..], size)
  }

  /** Reading a range keeps the events with those sequences, as often as they are stored, and no other. */
  lemma {:induction false} InRangeKeeps(events: seq<StoredEvent>, size: nat, e: StoredEvent)
    ensures multiset(InRange(events, size))[e] == if 1 <= e.sequence <= size then multiset(events)[e] else 0
  {
    if events != [] {
      InRangeKeeps(events[1..], size, e);
      assert events == [events[0]] + events[1..];
    }
  }

  function CommittedPrefix(events: seq<StoredEvent>, size: nat): Result<seq<StoredEvent>, Error>
  {
    if size == 0 then Ok([])
    else if |InRange(events, size)| != size then Err(Integrity)
    else Ok(InRange(events, size))
  }

  datatype InclusionRecord = InclusionRecord(
    treeSize: nat, leafIndex: nat, sequence: nat, entryHash: Digest, leafHash: Digest,
    path: seq<Digest>, root: Digest)

  datatype ConsistencyRecord = ConsistencyRecord(
    fromSize: nat, toSize: nat, fromRoot: Digest, toRoot: Digest, path: seq<Digest>)

  function InclusionFrom(reference: TreeReference, stored: seq<StoredEvent>, sequence: int)
    : Result<InclusionRecord, Error>
  {
    if sequence < 1 || sequence > reference.treeSize then Err(ProofRange)
    else
      var events := CommittedPrefix(stored, reference.treeSize);
      if events.Err? then Err(events.error)
      else if |events.value| < sequence || !Contiguous(events.value) then Err(Integrity)
      else
        var leaves := LeafHashes(events.value);
        var entryHash := events.value[sequence - 1].entryHash;
        if Root(leaves) != reference.merkleRoot then Err(Integrity)
        else Ok(InclusionRecord(|leaves|, sequence - 1, sequence, entryHash, Leaf(sequence, entryHash),
                                AuditPath(leaves, sequence - 1), Root(leaves)))
  }

  function InclusionAnswer(checkpoints: seq<Manifest>, table: EventTable, s: Stream, sequence: int, number: int)
    : Result<InclusionRecord, Error>
  {
    var found := FindManifest(checkpoints, number);
    if found.None? then Err(NotFound) else InclusionFrom(ReferenceFor(found.value, s), table[s], sequence)
  }

  function ConsistencyFrom(earlier: TreeReference, later: TreeReference, stored: seq<StoredEvent>)
    : Result<ConsistencyRecord, Error>
  {
    if earlier.treeSize > later.treeSize then Err(Integrity)
    else
      var events := CommittedPrefix(stored, later.treeSize);
      if events.Err? then Err(events.error)
      else if |events.value| < earlier.treeSize || !Contiguous(events.value) then Err(Integrity)
      else
        var leaves := LeafHashes(events.value);
        var fromRoot, toRoot := Root(leaves[..earlier.treeSize]), Root(leaves);
        if fromRoot != earlier.merkleRoot || toRoot != later.merkleRoot then Err(Integrity)
        else Ok(ConsistencyRecord(earlier.treeSize, |leaves|, fromRoot, toRoot,
                                  ConsistencyPath(leaves, earlier.treeSize)))
  }

  function ConsistencyAnswer(checkpoints: seq<Manifest>, table: EventTable, s: Stream, from: int, to: int)
    : Result<ConsistencyRecord, Error>
  {
    if from > to then Err(ProofRange)
    else
      var a, b := FindManifest(checkpoints, from), FindManifest(checkpoints, to);
      if a.None? || b.None? then Err(NotFound)
      else ConsistencyFrom(ReferenceFor(a.value, s), ReferenceFor(b.value, s), table[s])
  }

  /** Every checkpoint still describes a prefix of its stream in the store, and sizes never fall. */
  ghost predicate Healthy(checkpoints: seq<Manifest>, table: EventTable)
  {
    && (forall i | 0 <= i < |checkpoints| :: checkpoints[i].checkpointSequence == i)
    && AllContiguous(table)
    && (forall i, s: Stream | 0 <= i < |checkpoints| :: Describes(ReferenceFor(checkpoints[i], s), table[s]))
    && (forall i, j, s: Stream | 0 <= i <= j < |checkpoints| ::
          ReferenceFor(checkpoints[i], s).treeSize <= ReferenceFor(checkpoints[j], s).treeSize)
  }

  predicate Describes(reference: TreeReference, events: seq<StoredEvent>)
  {
    reference.treeSize <= |events| && reference == TreeOf(events[..reference.treeSize])
  }

  lemma SoundIsHealthy(l: Ledger)
    requires Sound(l)
    ensures Healthy(Manifests(l.history), l.table)
  {
    hide TreeOf, ReferenceFor, Root, Describes, Covers;
    var ms := Manifests(l.history);
    forall i | 0 <= i < |ms|
      ensures ms[i].checkpointSequence == i
    {
      assert LinkedAt(l.history[..i], l.history[i].manifest);
    }
    forall i, s: Stream | 0 <= i < |ms|
      ensures Describes(ReferenceFor(ms[i], s), l.table[s])
    {
      CommitDescribes(l, i, s);
    }
    forall i, j, s: Stream | 0 <= i <= j < |ms|
      ensures ReferenceFor(ms[i], s).treeSize <= ReferenceFor(ms[j], s).treeSize
    {
      CommitsGrow(l, i, j, s);
    }
  }

  /** Every manifest still describes a prefix of the store. */
  lemma CommitDescribes(l: Ledger, i: nat, s: Stream)
    requires Sound(l) && i < |l.history|
    ensures Describes(ReferenceFor(l.history[i].manifest, s), l.table[s])
  {
    hide TreeOf, ReferenceFor, Root, Linked, IntervalsGrew, AllContiguous;
    assert Covers(l.history[i].table, l.table);
    TreeOfSize(l.history[i].table[s]);
    assert l.table[s][..|l.history[i].table[s]|] == l.history[i].table[s];
  }

  lemma CommitsGrow(l: Ledger, i: nat, j: nat, s: Stream)
    requires Sound(l) && i <= j < |l.history|
    ensures ReferenceFor(l.history[i].manifest, s).treeSize <= ReferenceFor(l.history[j].manifest, s).treeSize
  {
    hide TreeOf, ReferenceFor, Root, Linked, IntervalsGrew, AllContiguous;
    assert Covers(l.history[i].table, l.history[j].table);
    TreeOfSize(l.history[i].table[s]);
    TreeOfSize(l.history[j].table[s]);
  }

  lemma {:induction false} FindByNumber(checkpoints: seq<Manifest>, base: nat, number: int)
    requires forall i | 0 <= i < |checkpoints| :: checkpoints[i].checkpointSequence == base + i
    ensures FindManifest(checkpoints, number)
         == if base <= number < base + |checkpoints| then Some(checkpoints[number - base]) else None
  {
    if checkpoints != [] {
      FindByNumber(checkpoints[1..], base + 1, number);
    }
  }

  lemma {:induction false} InRangeOfContiguous(events: seq<StoredEvent>, skipped: nat, size: nat)
    requires forall i | 0 <= i < |events| :: events[i].sequence == skipped + i + 1
    ensures InRange(events, size)
         == if size <= skipped then [] else if size - skipped <= |events| then events[..size - skipped] else events
  {
    if events != [] {
      InRangeOfContiguous(events[1..], skipped + 1, size);
      if skipped < size <= skipped + |events| {
        assert events[..size - skipped] == [events[0]] + events[1..][..size - skipped - 1];
      }
    }
  }

  lemma PrefixOfDescribed(reference: TreeReference, events: seq<StoredEvent>)
    requires Contiguous(events) && Describes(reference, events)
    ensures CommittedPrefix(events, reference.treeSize) == Ok(events[..reference.treeSize])
    ensures Root(LeafHashes(events[..reference.treeSize])) == reference.merkleRoot
  {
    hide Root;
    InRangeOfContiguous(events, 0, reference.treeSize);
  }

  lemma InclusionFromDescribed(reference: TreeReference, stored: seq<StoredEvent>, sequence: int)
    requires Contiguous(stored) && Describes(reference, stored) && 1 <= sequence <= reference.treeSize
    ensures InclusionFrom(reference, stored, sequence)
         == (var leaves := LeafHashes(stored[..reference.treeSize]);
             Ok(InclusionRecord(reference.treeSize, sequence - 1, sequence, stored[sequence - 1].entryHash,
                                leaves[sequence - 1], AuditPath(leaves, sequence - 1), reference.merkleRoot)))
  {
    hide Root, AuditPath, CommittedPrefix, TreeOf;
    PrefixOfDescribed(reference, stored);
  }

  /** An inclusion proof can be had for exactly the sequences a checkpoint committed, and the
      independent verifier accepts it against the committed root. */
  lemma InclusionProofsExist(checkpoints: seq<Manifest>, table: EventTable, s: Stream, sequence: int, number: int)
    requires Healthy(checkpoints, table)
    ensures var answer := InclusionAnswer(checkpoints, table, s, sequence, number);
      && (answer.Ok? <==>
            0 <= number < |checkpoints| && 1 <= sequence <= ReferenceFor(checkpoints[number], s).treeSize)
      && (answer.Ok? && |table[s]| <= MAX_TREE_SIZE ==>
            && answer.value.leafHash == Leaf(sequence, table[s][sequence - 1].entryHash)
            && InclusionAccepted(answer.value.leafHash, sequence - 1, ReferenceFor(checkpoints[number], s).treeSize,
                                 answer.value.path, ReferenceFor(checkpoints[number], s).merkleRoot))
  {
    hide *;
    InclusionAnswerIs(checkpoints, table, s, sequence, number);
    if 0 <= number < |checkpoints| {
      HealthyAt(checkpoints, table, s, number, number);
      InclusionFromIsVerified(ReferenceFor(checkpoints[number], s), table[s], sequence);
    }
  }

  lemma InclusionAnswerIs(checkpoints: seq<Manifest>, table: EventTable, s: Stream, sequence: int, number: int)
    requires Healthy(checkpoints, table)
    ensures InclusionAnswer(checkpoints, table, s, sequence, number)
         == if 0 <= number < |checkpoints|
            then InclusionFrom(ReferenceFor(checkpoints[number], s), table[s], sequence)
            else Err(NotFound)
  {
    hide Healthy, ReferenceFor, InclusionFrom, FindManifest;
    FindHealthy(checkpoints, table, number);
  }

  lemma InclusionFromIsVerified(reference: TreeReference, stored: seq<StoredEvent>, sequence: int)
    requires Contiguous(stored) && Describes(reference, stored)
    ensures var answer := InclusionFrom(reference, stored, sequence);
      && (answer.Ok? <==> 1 <= sequence <= reference.treeSize)
      && (answer.Ok? && |stored| <= MAX_TREE_SIZE ==>
            && answer.value.leafHash == Leaf(sequence, stored[sequence - 1].entryHash)
            && InclusionAccepted(answer.value.leafHash, sequence - 1, reference.treeSize,
                                 answer.value.path, reference.merkleRoot))
  {
    hide Root, AuditPath, InclusionAccepted, CommittedPrefix;
    if 1 <= sequence <= reference.treeSize {
      InclusionFromDescribed(reference, stored, sequence);
      var leaves := LeafHashes(stored[..reference.treeSize]);
      if |stored| <= MAX_TREE_SIZE {
        InclusionVerifierIsExact(leaves, leaves[sequence - 1], sequence - 1, AuditPath(leaves, sequence - 1));
      }
    }
  }

  lemma PrefixOfPrefix(earlier: TreeReference, later: TreeReference, events: seq<StoredEvent>)
    requires Contiguous(events) && Describes(earlier, events) && Describes(later, events)
    requires earlier.treeSize <= later.treeSize
    ensures Root(LeafHashes(events[..later.treeSize])[..earlier.treeSize]) == earlier.merkleRoot
  {
    hide Root;
    PrefixOfDescribed(earlier, events);
    assert LeafHashes(events[..later.treeSize])[..earlier.treeSize] == LeafHashes(events[..earlier.treeSize]);
  }

  lemma ConsistencyFromIsVerified(earlier: TreeReference, later: TreeReference, stored: seq<StoredEvent>)
    requires Contiguous(stored) && Describes(earlier, stored) && Describes(later, stored)
    requires earlier.treeSize <= later.treeSize
    ensures var answer := ConsistencyFrom(earlier, later, stored);
      && answer.Ok?
      && (|stored| <= MAX_TREE_SIZE ==>
            ConsistencyAccepted(earlier.treeSize, later.treeSize, earlier.merkleRoot, later.merkleRoot,
                                answer.value.path))
  {
    hide Root, ConsistencyPath, ConsistencyAccepted, CommittedPrefix, TreeOf;
    PrefixOfDescribed(later, stored);
    PrefixOfPrefix(earlier, later, stored);
    var leaves := LeafHashes(stored[..later.treeSize]);
    if |stored| <= MAX_TREE_SIZE {
      ConsistencyVerifierIsExact(leaves, earlier.treeSize, earlier.merkleRoot,
                                 ConsistencyPath(leaves, earlier.treeSize));
    }
  }

  lemma HealthyAt(checkpoints: seq<Manifest>, table: EventTable, s: Stream, i: nat, j: nat)
    requires Healthy(checkpoints, table) && i <= j < |checkpoints|
    ensures Contiguous(table[s])
    ensures Describes(ReferenceFor(checkpoints[i], s), table[s])
    ensures Describes(ReferenceFor(checkpoints[j], s), table[s])
    ensures ReferenceFor(checkpoints[i], s).treeSize <= ReferenceFor(checkpoints[j], s).treeSize
  {
    EveryStreamIsCheckpointed(s);
  }

  lemma FindHealthy(checkpoints: seq<Manifest>, table: EventTable, number: int)
    requires Healthy(checkpoints, table)
    ensures FindManifest(checkpoints, number).Some? <==> 0 <= number < |checkpoints|
    ensures 0 <= number < |checkpoints| ==> FindManifest(checkpoints, number).value == checkpoints[number]
  {
    hide FindManifest, Describes, ReferenceFor, AllContiguous;
    FindByNumber(checkpoints, 0, number);
  }

  /** A consistency proof can be had for exactly the ordered pairs of stored checkpoints, and the
      independent verifier accepts it against the two committed roots. */
  lemma ConsistencyProofsExist(checkpoints: seq<Manifest>, table: EventTable, s: Stream, from: int, to: int)
    requires Healthy(checkpoints, table)
    ensures var answer := ConsistencyAnswer(checkpoints, table, s, from, to);
      && (answer.Ok? <==> 0 <= from <= to < |checkpoints|)
      && (answer.Ok? && |table[s]| <= MAX_TREE_SIZE ==>
            ConsistencyAccepted(
              ReferenceFor(checkpoints[from], s).treeSize, ReferenceFor(checkpoints[to], s).treeSize,
              ReferenceFor(checkpoints[from], s).merkleRoot, ReferenceFor(checkpoints[to], s).merkleRoot,
              answer.value.path))
  {
    hide Healthy, Contiguous, Describes, ReferenceFor, ConsistencyAccepted, ConsistencyFrom, FindManifest;
    FindHealthy(checkpoints, table, from);
    FindHealthy(checkpoints, table, to);
    if 0 <= from <= to < |checkpoints| {
      HealthyAt(checkpoints, table, s, from, to);
      ConsistencyFromIsVerified(ReferenceFor(checkpoints[from], s), ReferenceFor(checkpoints[to], s), table[s]);
    }
  }

  // ---------------------------------------------------------------- proofs over rewritten stores

  ghost predicate Numbered(h: seq<Commit>)
  {
    forall i | 0 <= i < |h| :: h[i].manifest.checkpointSequence == i && AllContiguous(h[i].table)
  }

  lemma NumberedNext(h: seq<Commit>, q: Request)
    requires Numbered(h) && Answer(h, q).Ok? && Answer(h, q).value.created
    ensures Numbered(h + [Commit(Answer(h, q).value.manifest, q.table)])
  {
    hide AllContiguous, PrefixesUnchanged, HasGrown, TreeOf, AuxiliaryTrees;
  }

  lemma {:induction false} AttemptsAreNumbered(requests: seq<Request>)
    ensures Numbered(Attempts(requests))
  {
    hide Numbered, Attempt;
    if requests == [] {
      NoneNumbered();
    } else {
      var before, q := requests[..|requests| - 1], requests[|requests| - 1];
      AttemptsAreNumbered(before);
      if Answer(Attempts(before), q).Ok? && Answer(Attempts(before), q).value.created {
        NumberedNext(Attempts(before), q);
      }
    }
  }

  lemma NoneNumbered()
    ensures Numbered([])
  {
  }

  /** What the attempts committed to checkpoint number i, and where to find it. */
  lemma CommittedAt(requests: seq<Request>, s: Stream, number: int)
    ensures var h := Attempts(requests);
      && (FindManifest(Manifests(h), number).Some? <==> 0 <= number < |h|)
      && (0 <= number < |h| ==>
            && FindManifest(Manifests(h), number).value == h[number].manifest
            && ReferenceFor(h[number].manifest, s) == TreeOf(h[number].table[s])
            && Contiguous(h[number].table[s]))
  {
    hide FindManifest, TreeOf, ReferenceFor, Contiguous, Attempts;
    var h := Attempts(requests);
    AttemptsAreNumbered(requests);
    ChainCovers(requests);
    FindByNumber(Manifests(h), 0, number);
    EveryStreamIsCheckpointed(s);
  }

  lemma InRangeFits(events: seq<StoredEvent>, size: nat)
    ensures CommittedPrefix(events, size).Ok? <==> |InRange(events, size)| == size
    ensures CommittedPrefix(events, size).Ok? ==> CommittedPrefix(events, size).value == InRange(events, size)
    ensures CommittedPrefix(events, size).Err? ==> CommittedPrefix(events, size).error == Integrity
  {
    if size == 0 {
      NothingInRange(events);
    }
  }

  lemma {:induction false} NothingInRange(events: seq<StoredEvent>)
    ensures InRange(events, 0) == []
  {
    if events != [] {
      NothingInRange(events[1..]);
    }
  }

  /** A root of the committed size that matches is the root of the committed events. */
  lemma RootNamesEvents(events: seq<StoredEvent>, committed: seq<StoredEvent>)
    requires |events| == |committed|
    ensures Root(LeafHashes(events)) == Root(LeafHashes(committed)) <==> events == committed
  {
    hide Root;
    if Root(LeafHashes(events)) == Root(LeafHashes(committed)) {
      RootInjective(LeafHashes(events), LeafHashes(committed));
      assert LeafHashes(committed)[..|events|] == LeafHashes(committed);
      LeavesDetermineEvents(events, committed);
    }
  }

  /** The size of a tree and its root. */
  lemma TreeOfIs(events: seq<StoredEvent>)
    ensures TreeOf(events).treeSize == |events| && TreeOf(events).merkleRoot == Root(LeafHashes(events))
  {
  }

  lemma InclusionFromCommitted(committed: seq<StoredEvent>, stored: seq<StoredEvent>, sequence: int)
    requires Contiguous(committed)
    ensures var answer := InclusionFrom(TreeOf(committed), stored, sequence);
      && (answer.Ok? <==> 1 <= sequence <= |committed| && InRange(stored, |committed|) == committed)
      && (answer.Ok? ==> answer.value == InclusionRecord(
            |committed|, sequence - 1, sequence, committed[sequence - 1].entryHash,
            Leaf(sequence, committed[sequence - 1].entryHash),
            AuditPath(LeafHashes(committed), sequence - 1), Root(LeafHashes(committed))))
      && (answer.Err? ==> answer.error == if 1 <= sequence <= |committed| then Integrity else ProofRange)
  {
    hide Root, AuditPath, InRange, CommittedPrefix, TreeOf;
    TreeOfIs(committed);
    InRangeFits(stored, |committed|);
    if |InRange(stored, |committed|)| == |committed| {
      RootNamesEvents(InRange(stored, |committed|), committed);
    }
  }

  lemma ConsistencyFromCommitted(earlier: seq<StoredEvent>, later: seq<StoredEvent>, stored: seq<StoredEvent>)
    requires earlier <= later && Contiguous(later)
    ensures var answer := ConsistencyFrom(TreeOf(earlier), TreeOf(later), stored);
      && (answer.Ok? <==> InRange(stored, |later|) == later)
      && (answer.Ok? ==> answer.value == ConsistencyRecord(
            |earlier|, |later|, Root(LeafHashes(earlier)), Root(LeafHashes(later)),
            ConsistencyPath(LeafHashes(later), |earlier|)))
      && (answer.Err? ==> answer.error == Integrity)
  {
    hide Root, ConsistencyPath, InRange, CommittedPrefix, TreeOf;
    TreeOfIs(earlier);
    TreeOfIs(later);
    PrefixLeaves(earlier, later);
    InRangeFits(stored, |later|);
    if |InRange(stored, |later|)| == |later| {
      RootNamesEvents(InRange(stored, |later|), later);
    }
  }

  /** Over any store, rewritten at will since the checkpoints were made, an inclusion proof is answered
      exactly when the store still serves the committed events, and then it is the proof of what was
      committed; a store that serves anything else is an integrity error. */
  lemma InclusionNamesCommitted(requests: seq<Request>, table: EventTable, s: Stream, sequence: int, number: int)
    requires 0 <= number < |Attempts(requests)|
    ensures var committed := Attempts(requests)[number].table[s];
      var answer := InclusionAnswer(Manifests(Attempts(requests)), table, s, sequence, number);
      && (answer.Ok? <==> 1 <= sequence <= |committed| && InRange(table[s], |committed|) == committed)
      && (answer.Ok? ==> answer.value == InclusionRecord(
            |committed|, sequence - 1, sequence, committed[sequence - 1].entryHash,
            Leaf(sequence, committed[sequence - 1].entryHash),
            AuditPath(LeafHashes(committed), sequence - 1), Root(LeafHashes(committed))))
      && (answer.Err? ==> answer.error == if 1 <= sequence <= |committed| then Integrity else ProofRange)
  {
    hide Attempts, FindManifest, ReferenceFor, TreeOf, InclusionFrom, Contiguous, Root, AuditPath, InRange;
    CommittedAt(requests, s, number);
    InclusionFromCommitted(Attempts(requests)[number].table[s], table[s], sequence);
  }

  /** The same for consistency: the proof between two checkpoints is answered exactly when the store still
      serves what the later one committed, and it is the proof between what the two committed. */
  lemma ConsistencyNamesCommitted(requests: seq<Request>, table: EventTable, s: Stream, from: int, to: int)
    requires 0 <= from <= to < |Attempts(requests)|
    ensures var h := Attempts(requests);
      var earlier, later := h[from].table[s], h[to].table[s];
      var answer := ConsistencyAnswer(Manifests(h), table, s, from, to);
      && earlier <= later
      && (answer.Ok? <==> InRange(table[s], |later|) == later)
      && (answer.Ok? ==> answer.value == ConsistencyRecord(
            |earlier|, |later|, Root(LeafHashes(earlier)), Root(LeafHashes(later)),
            ConsistencyPath(LeafHashes(later), |earlier|)))
      && (answer.Err? ==> answer.error == Integrity)
  {
    hide Attempts, FindManifest, ReferenceFor, TreeOf, ConsistencyFrom, Contiguous, Root, ConsistencyPath, InRange;
    CommittedAt(requests, s, from);
    CommittedAt(requests, s, to);
    CoveredAt(requests, s, from, to);
    ConsistencyFromCommitted(Attempts(requests)[from].table[s], Attempts(requests)[to].table[s], table[s]);
  }

  /** Checkpoints that were never made are not found, and a backwards pair is out of range before that. */
  lemma UnknownCheckpointsAreRefused(requests: seq<Request>, table: EventTable, s: Stream, sequence: int,
                                     from: int, to: int)
    requires !(0 <= from < |Attempts(requests)| && 0 <= to < |Attempts(requests)|)
    ensures !(0 <= from < |Attempts(requests)|) ==>
              InclusionAnswer(Manifests(Attempts(requests)), table, s, sequence, from) == Err(NotFound)
    ensures ConsistencyAnswer(Manifests(Attempts(requests)), table, s, from, to)
         == Err(if from > to then ProofRange else NotFound)
  {
    hide Attempts, FindManifest, ReferenceFor, InclusionFrom, ConsistencyFrom, Contiguous;
    CommittedAt(requests, s, from);
    CommittedAt(requests, s, to);
  }

  lemma CoveredAt(requests: seq<Request>, s: Stream, i: nat, j: nat)
    requires i <= j < |Attempts(requests)|
    ensures Attempts(requests)[i].table[s] <= Attempts(requests)[j].table[s]
  {
    hide Attempts, ReferenceFor, TreeOf;
    ChainCovers(requests);
    var h := Attempts(requests);
    assert Covers(h[i].table, h[j].table);
  }
}
