/** The checkpoint service over a store: attempts that append manifests, the proofs it answers, and
    the proof files it writes into a bundle. */
module CheckpointService {
  import opened Wrappers
  import opened Merkle
  import opened Checkpoints
  import opened CheckpointLedger
  import opened ProofFiles

  class EvidenceStore {
    var metadata: Option<RunMetadata>
    var events: EventTable
    var checkpoints: seq<Manifest>

    constructor (metadata: Option<RunMetadata>, events: EventTable, checkpoints: seq<Manifest>)
      ensures this.metadata == metadata && this.events == events && this.checkpoints == checkpoints
    {
      this.metadata, this.events, this.checkpoints := metadata, events, checkpoints;
    }

    function Previous(): Option<Manifest>
      reads this
    {
      if checkpoints == [] then None else Some(checkpoints[|checkpoints| - 1])
    }
  }

  // ---------------------------------------------------------------- tree checks

  method AssertContiguousPrefix(events: seq<StoredEvent>) returns (ok: bool)
    ensures ok == Contiguous(events)
  {
    for index := 0 to |events|
      invariant forall i | 0 <= i < index :: events[i].sequence == i + 1
    {
      if events[index].sequence != index + 1 {
        return false;
      }
    }
    return true;
  }

  method AssertSnapshots(table: EventTable) returns (ok: bool)
    ensures ok == AllContiguous(table)
  {
    for k := 0 to |CHECKPOINT_STREAMS|
      invariant forall s <- CHECKPOINT_STREAMS[..k] :: Contiguous(table[s])
    {
      var here := AssertContiguousPrefix(table[CHECKPOINT_STREAMS[k]]);
      if !here {
        return false;
      }
    }
    return true;
  }

  method AssertPrefixUnchanged(previous: Manifest, table: EventTable) returns (ok: bool)
    ensures ok == PrefixesUnchanged(previous, table)
  {
    for k := 0 to |CHECKPOINT_STREAMS|
      invariant forall s <- CHECKPOINT_STREAMS[..k] :: PrefixUnchanged(ReferenceFor(previous, s), table[s])
    {
      var s := CHECKPOINT_STREAMS[k];
      var committed := ReferenceFor(previous, s);
      if committed.treeSize > |table[s]| {
        return false;
      }
      if committed.treeSize == 0 {
        continue;
      }
      if Root(LeafHashes(table[s])[..committed.treeSize]) != committed.merkleRoot {
        return false;
      }
    }
    return true;
  }

  method AuxiliaryTreesFrom(table: EventTable) returns (auxiliary: map<Stream, TreeReference>)
    ensures auxiliary == AuxiliaryTrees(table)
  {
    hide TreeOf, IsMandatory;
    auxiliary := map[];
    for k := 0 to |CHECKPOINT_STREAMS|
      invariant forall s :: s in auxiliary <==> s in CHECKPOINT_STREAMS[..k] && !IsMandatory(s) && table[s] != []
      invariant forall s <- auxiliary :: auxiliary[s] == TreeOf(table[s])
    {
      var s := CHECKPOINT_STREAMS[k];
      if !IsMandatory(s) && table[s] != [] {
        auxiliary := auxiliary[s := TreeOf(table[s])];
      }
    }
  }

  method AssertManifestTrees(m: Manifest, table: EventTable) returns (ok: bool)
    ensures ok == TreesMatch(m, table)
    ensures ok <==> && (forall s: Stream :: RecordsStream(ReferenceFor(m, s), table[s]))
                    && (forall s: Stream :: s in m.auxiliaryTrees <==> !IsMandatory(s) && table[s] != [])
  {
    hide TreeOf, ReferenceFor, RecordsStream;
    AuditIsExact(m, table);
    var expected := AuxiliaryTreesFrom(table);
    if m.auxiliaryTrees.Keys != expected.Keys {
      return false;
    }
    for k := 0 to |CHECKPOINT_STREAMS|
      invariant forall s <- CHECKPOINT_STREAMS[..k] :: ReferenceFor(m, s) == TreeOf(table[s])
    {
      var s := CHECKPOINT_STREAMS[k];
      if ReferenceFor(m, s) != TreeOf(table[s]) {
        return false;
      }
    }
    return true;
  }

  /** The audit compares every stream's size, root and last entry hash, and which streams are listed. */
  lemma AuditIsExact(m: Manifest, table: EventTable)
    ensures TreesMatch(m, table)
       <==> && (forall s: Stream :: RecordsStream(ReferenceFor(m, s), table[s]))
            && (forall s: Stream :: s in m.auxiliaryTrees <==> !IsMandatory(s) && table[s] != [])
  {
    hide TreeOf, ReferenceFor, RecordsStream, IsMandatory;
    forall s: Stream
      ensures s in CHECKPOINT_STREAMS
      ensures ReferenceFor(m, s) == TreeOf(table[s]) <==> RecordsStream(ReferenceFor(m, s), table[s])
    {
      EveryStreamIsCheckpointed(s);
      RecordedIsTree(ReferenceFor(m, s), table[s]);
    }
    hide CHECKPOINT_STREAMS;
    assert forall s: Stream :: s in AuxiliaryTrees(table) <==> !IsMandatory(s) && table[s] != [];
  }

  lemma RecordedIsTree(r: TreeReference, events: seq<StoredEvent>)
    ensures r == TreeOf(events) <==> RecordsStream(r, events)
  {
    hide Root, LeafHashes;
  }

  lemma BuiltManifestPassesAudit(previous: Option<Manifest>, table: EventTable, metadata: RunMetadata,
                                 reason: Reason, now: int)
    requires metadata.promptBundleHash.Some?
    ensures TreesMatch(Build(previous, table, metadata, reason, now), table)
  {
    hide TreeOf, ReferenceFor;
    forall s <- CHECKPOINT_STREAMS
      ensures ReferenceFor(Build(previous, table, metadata, reason, now), s) == TreeOf(table[s])
    {
      BuiltManifestCommitsStore(previous, table, metadata, reason, now, s);
    }
  }

  /** The streams are numbered without gaps and still start with what was committed. */
  predicate Intact(previous: Option<Manifest>, table: EventTable)
  {
    AllContiguous(table) && (previous.Some? ==> PrefixesUnchanged(previous.value, table))
  }

  lemma NotGrown(previous: Manifest, table: EventTable)
    ensures !HasGrown(previous, table) ==> forall s: Stream :: |table[s]| == ReferenceFor(previous, s).treeSize
  {
    hide ReferenceFor;
    forall s: Stream
      ensures s in CHECKPOINT_STREAMS
    {
      EveryStreamIsCheckpointed(s);
    }
  }

  lemma BuiltIs(previous: Option<Manifest>, table: EventTable, metadata: RunMetadata, reason: Reason, now: int)
    requires metadata.promptBundleHash.Some?
    ensures Build(previous, table, metadata, reason, now) == Manifest(
      if previous.Some? then previous.value.checkpointSequence + 1 else 0,
      if previous.Some? then HashOf(previous.value) else NoCheckpoint,
      TreeOf(table[BabyALedger]), TreeOf(table[BabyBLedger]), TreeOf(table[Channel]),
      AuxiliaryTrees(table), metadata.configurationHash, metadata.promptBundleHash.value, now, reason)
  {
    hide TreeOf, AuxiliaryTrees;
  }

  // ---------------------------------------------------------------- service

  class EvidenceCheckpointService {
    const evidence: EvidenceStore

    constructor (evidence: EvidenceStore)
      ensures this.evidence == evidence
    {
      this.evidence := evidence;
    }

    method CreateCheckpointIfChanged(reason: Reason, now: int) returns (r: Result<Creation, Error>)
      modifies evidence`checkpoints
      ensures r == Attempt(evidence.metadata, old(evidence.Previous()), evidence.events, reason, now)
      ensures evidence.checkpoints
           == old(evidence.checkpoints) + if r.Ok? && r.value.created then [r.value.manifest] else []
      ensures r == Err(UnknownRun) <==> evidence.metadata.None?
      ensures r == Err(Integrity)
              <==> evidence.metadata.Some? && !Intact(old(evidence.Previous()), evidence.events)
      ensures r == Err(InvalidRequest)
              <==> && evidence.metadata.Some? && Intact(old(evidence.Previous()), evidence.events)
                   && (old(evidence.Previous()).Some? && !reason.Lifecycle? ==>
                         HasGrown(old(evidence.Previous()).value, evidence.events))
                   && evidence.metadata.value.promptBundleHash.None?
      ensures r.Ok? ==> r.value.reason == reason
      ensures r.Ok? && r.value.created ==>
                Records(r.value.manifest, old(evidence.Previous()), evidence.events, evidence.metadata.value,
                        reason, now)
      ensures r.Ok? && !r.value.created ==>
                && old(evidence.Previous()) == Some(r.value.manifest) && !reason.Lifecycle?
                && forall s: Stream :: |evidence.events[s]| == ReferenceFor(r.value.manifest, s).treeSize
    {
      hide Records, ReferenceFor, HasGrown, Build;
      hide TreesMatch, PrefixesUnchanged, AllContiguous, TreeOf, AuxiliaryTrees;
      if evidence.metadata.None? {
        return Err(UnknownRun);
      }
      var metadata := evidence.metadata.value;
      var previous := evidence.Previous();
      var table := evidence.events;
      var contiguous := AssertSnapshots(table);
      if !contiguous {
        return Err(Integrity);
      }
      if previous.Some? {
        var intact := AssertPrefixUnchanged(previous.value, table);
        if !intact {
          return Err(Integrity);
        }
        NotGrown(previous.value, table);
        if !reason.Lifecycle? && !HasGrown(previous.value, table) {
          return Ok(Creation(false, previous.value, reason));
        }
      }
      if metadata.promptBundleHash.None? {
        return Err(InvalidRequest);
      }
      var auxiliary := AuxiliaryTreesFrom(table);
      var manifest := Manifest(
        if previous.Some? then previous.value.checkpointSequence + 1 else 0,
        if previous.Some? then HashOf(previous.value) else NoCheckpoint,
        TreeOf(table[BabyALedger]), TreeOf(table[BabyBLedger]), TreeOf(table[Channel]),
        auxiliary, metadata.configurationHash, metadata.promptBundleHash.value, now, reason);
      var audited := AssertManifestTrees(manifest, table);
      BuiltIs(previous, table, metadata, reason, now);
      BuiltManifestPassesAudit(previous, table, metadata, reason, now);
      BuiltManifestRecords(previous, table, metadata, reason, now);
      if !audited {
        return Err(Integrity);
      }
      evidence.checkpoints := evidence.checkpoints + [manifest];
      return Ok(Creation(true, manifest, reason));
    }

    /** The first size events of a stream, in sequence order. */
    method Prefix(s: Stream, size: nat) returns (r: Result<seq<StoredEvent>, Error>)
      ensures r == CommittedPrefix(evidence.events[s], size)
    {
      if size == 0 {
        return Ok([]);
      }
      var events := InRange(evidence.events[s], size);
      if |events| != size {
        return Err(Integrity);
      }
      return Ok(events);
    }

    method InclusionProof(s: Stream, sequence: int, number: int) returns (r: Result<InclusionRecord, Error>)
      ensures r == InclusionAnswer(evidence.checkpoints, evidence.events, s, sequence, number)
    {
      hide AuditPath, Root, ReferenceFor, FindManifest, CommittedPrefix;
      var manifest := FindManifest(evidence.checkpoints, number);
      if manifest.None? {
        return Err(NotFound);
      }
      var reference := ReferenceFor(manifest.value, s);
      if sequence < 1 || sequence > reference.treeSize {
        return Err(ProofRange);
      }
      var events := Prefix(s, reference.treeSize);
      if events.Err? {
        return Err(events.error);
      }
      if |events.value| < sequence {
        return Err(Integrity);
      }
      var contiguous := AssertContiguousPrefix(events.value);
      if !contiguous {
        return Err(Integrity);
      }
      var leaves := LeafHashes(events.value);
      var target := events.value[sequence - 1];
      var record := InclusionRecord(|leaves|, sequence - 1, sequence, target.entryHash,
                                    Leaf(sequence, target.entryHash), AuditPath(leaves, sequence - 1), Root(leaves));
      if record.root != reference.merkleRoot {
        return Err(Integrity);
      }
      return Ok(record);
    }

    method ConsistencyProof(s: Stream, from: int, to: int) returns (r: Result<ConsistencyRecord, Error>)
      ensures r == ConsistencyAnswer(evidence.checkpoints, evidence.events, s, from, to)
    {
      hide ConsistencyPath, Root, ReferenceFor, FindManifest, CommittedPrefix;
      if from > to {
        return Err(ProofRange);
      }
      var fromManifest := FindManifest(evidence.checkpoints, from);
      var toManifest := FindManifest(evidence.checkpoints, to);
      if fromManifest.None? || toManifest.None? {
        return Err(NotFound);
      }
      var earlier, later := ReferenceFor(fromManifest.value, s), ReferenceFor(toManifest.value, s);
      if earlier.treeSize > later.treeSize {
        return Err(Integrity);
      }
      var events := Prefix(s, later.treeSize);
      if events.Err? {
        return Err(events.error);
      }
      var contiguous := AssertContiguousPrefix(events.value);
      if |events.value| < earlier.treeSize || !contiguous {
        return Err(Integrity);
      }
      var leaves := LeafHashes(events.value);
      var record := ConsistencyRecord(earlier.treeSize, |leaves|, Root(leaves[..earlier.treeSize]), Root(leaves),
                                      ConsistencyPath(leaves, earlier.treeSize));
      if record.fromRoot != earlier.merkleRoot || record.toRoot != later.merkleRoot {
        return Err(Integrity);
      }
      return Ok(record);
    }

    /** The inclusion files of one stream at one checkpoint. */
    method WriteInclusionsAt(max: nat, s: Stream, i: nat, start: Disk)
      returns (disk: Disk, written: nat, error: Option<Error>)
      requires max >= 2 && i < |evidence.checkpoints| && Genuine(start, evidence.checkpoints, evidence.events)
      ensures Genuine(disk, evidence.checkpoints, evidence.events)
      ensures error.None? ==>
                forall p :: p in disk <==> p in start || InclusionOwed([evidence.checkpoints[i]], max, s, p)
      ensures error.None? ==> written == |InclusionSequences(ReferenceFor(evidence.checkpoints[i], s).treeSize, max)|
      ensures error.None? && (forall p <- start :: !InclusionOwed([evidence.checkpoints[i]], max, s, p)) ==>
                Gained(start, disk, written, 0)
      ensures Healthy(evidence.checkpoints, evidence.events) ==> error.None?
    {
      hide InclusionAnswer, ReferenceFor, ConsistencyAnswer, Healthy, Genuine, InclusionSequences, Gained, Selected,
           InclusionOwed;
      disk, written, error := start, 0, None;
      var manifest := evidence.checkpoints[i];
      var size := ReferenceFor(manifest, s).treeSize;
      var sequences := InclusionSequences(size, max);
      SequencesAreSelected(size, max);
      GainedNothing(start);
      for k := 0 to |sequences|
        invariant Genuine(disk, evidence.checkpoints, evidence.events)
        invariant forall p :: p in disk <==> p in start || NamedIn(s, manifest.checkpointSequence, sequences[..k], p)
        invariant (forall p <- start :: !NamedIn(s, manifest.checkpointSequence, sequences, p)) ==>
                    Gained(start, disk, k, 0)
        invariant written == k
      {
        ghost var before := disk;
        var record := InclusionProof(s, sequences[k], manifest.checkpointSequence);
        SelectedSequencesAreProvable(evidence.checkpoints, evidence.events, s, i, max, sequences[k]);
        if record.Err? {
          return disk, written, Some(record.error);
        }
        var name := InclusionFileName(s, sequences[k], manifest.checkpointSequence);
        GenuineInclusion(disk, evidence.checkpoints, evidence.events, s, sequences[k], manifest.checkpointSequence);
        disk := disk[name := InclusionFile(record.value)];
        NamedByOneMore(s, manifest.checkpointSequence, sequences, k);
        if name !in before {
          NewName(before, name, InclusionFile(record.value));
          if Gained(start, before, k, 0) {
            GainedMore(start, before, disk, k, 0, 1, 0);
          }
        }
        written := written + 1;
      }
      assert sequences[..|sequences|] == sequences;
      forall p
        ensures NamedIn(s, manifest.checkpointSequence, sequences, p) <==> InclusionOwed([manifest], max, s, p)
      {
        NamedIsOwed(manifest, max, s, p);
      }
    }

    method WriteInclusions(max: nat, s: Stream, start: Disk)
      returns (disk: Disk, written: nat, error: Option<Error>)
      requires max >= 2 && Genuine(start, evidence.checkpoints, evidence.events)
      ensures Genuine(disk, evidence.checkpoints, evidence.events)
      ensures error.None? ==> forall p :: p in disk <==> p in start || InclusionOwed(evidence.checkpoints, max, s, p)
      ensures error.None? ==> written == InclusionCount(evidence.checkpoints, max, s)
      ensures Healthy(evidence.checkpoints, evidence.events) ==> error.None?
      ensures error.None? && Healthy(evidence.checkpoints, evidence.events) && (forall p <- start :: p.stream != s) ==>
                Gained(start, disk, written, 0)
    {
      hide ReferenceFor, Healthy, Genuine, InclusionSequences, InclusionOwed, Gained;
      disk, written, error := start, 0, None;
      var checkpoints := evidence.checkpoints;
      NobodyOwes(max, s);
      GainedNothing(start);
      for i := 0 to |checkpoints|
        invariant Genuine(disk, checkpoints, evidence.events)
        invariant forall p :: p in disk <==> p in start || InclusionOwed(checkpoints[..i], max, s, p)
        invariant error.None? && written == InclusionCount(checkpoints[..i], max, s)
        invariant Healthy(checkpoints, evidence.events) && (forall p <- start :: p.stream != s) ==>
                    Gained(start, disk, written, 0)
      {
        ghost var before, sofar := disk, written;
        assert checkpoints[..i + 1] == checkpoints[..i] + [checkpoints[i]];
        var here;
        disk, here, error := WriteInclusionsAt(max, s, i, disk);
        written := written + here;
        if error.Some? {
          return;
        }
        forall p
          ensures InclusionOwed(checkpoints[..i + 1], max, s, p)
             <==> InclusionOwed(checkpoints[..i], max, s, p) || InclusionOwed([checkpoints[i]], max, s, p)
        {
          OwedByOneMore(checkpoints[..i], checkpoints[i], max, s, p);
        }
        if Healthy(checkpoints, evidence.events) && (forall p <- start :: p.stream != s) {
          forall p <- before
            ensures !InclusionOwed([checkpoints[i]], max, s, p)
          {
            OwedApart(checkpoints, evidence.events, max, s, i, p);
          }
          GainedMore(start, before, disk, sofar, 0, here, 0);
        }
        CountOneMore(checkpoints, max, s, i);
      }
      assert checkpoints[..|checkpoints|] == checkpoints;
    }

    method WriteConsistencies(s: Stream, pairs: seq<(nat, nat)>, start: Disk)
      returns (disk: Disk, written: nat, error: Option<Error>)
      requires evidence.checkpoints != [] && pairs == Pairs(evidence.checkpoints)
      requires Genuine(start, evidence.checkpoints, evidence.events)
      ensures Genuine(disk, evidence.checkpoints, evidence.events)
      ensures error.None? ==>
                forall p :: p in disk <==> p in start || ConsistencyOwed(evidence.checkpoints, pairs, s, p)
      ensures error.None? ==> written == ConsistencyCount(evidence.checkpoints, s, pairs)
      ensures Healthy(evidence.checkpoints, evidence.events) ==> error.None?
      ensures error.None? && Healthy(evidence.checkpoints, evidence.events)
              && (forall p <- start :: p.stream == s ==> p.InclusionFileName?) ==>
                Gained(start, disk, 0, written)
    {
      hide InclusionAnswer, ReferenceFor, ConsistencyAnswer, Healthy, Pairs, FindManifest, Genuine, Gained,
           ConsistencyOwed, TreeGrew;
      disk, written, error := start, 0, None;
      var checkpoints := evidence.checkpoints;
      NothingPaired(checkpoints, s);
      GainedNothing(start);
      for k := 0 to |pairs|
        invariant Genuine(disk, checkpoints, evidence.events)
        invariant forall p :: p in disk <==> p in start || ConsistencyOwed(checkpoints, pairs[..k], s, p)
        invariant written == ConsistencyCount(checkpoints, s, pairs[..k])
        invariant Healthy(checkpoints, evidence.events)
                  && (forall p <- start :: p.stream == s ==> p.InclusionFileName?) ==>
                    Gained(start, disk, 0, written)
      {
        ghost var before, sofar := disk, written;
        assert pairs[..k + 1] == pairs[..k] + [pairs[k]];
        var (from, to) := pairs[k];
        PairsAreProvable(checkpoints, evidence.events, s, k);
        PairOneMore(checkpoints, s, pairs, k);
        var fromManifest, toManifest := FindManifest(checkpoints, from), FindManifest(checkpoints, to);
        if fromManifest.None? || toManifest.None? {
          return disk, written, Some(NotFound);
        }
        GrewIs(checkpoints, s, from, to);
        if ReferenceFor(toManifest.value, s).treeSize == ReferenceFor(fromManifest.value, s).treeSize {
          continue;
        }
        var record := ConsistencyProof(s, from, to);
        if record.Err? {
          return disk, written, Some(record.error);
        }
        GenuineConsistency(disk, checkpoints, evidence.events, s, from, to);
        var name := ConsistencyFileName(s, from, to);
        disk := disk[name := ConsistencyFile(record.value)];
        written := written + 1;
        if Healthy(checkpoints, evidence.events) && (forall p <- start :: p.stream == s ==> p.InclusionFileName?) {
          PairApart(checkpoints, evidence.events, s, k);
          NewName(before, name, ConsistencyFile(record.value));
          GainedMore(start, before, disk, 0, sofar, 0, 1);
        }
      }
      assert pairs[..|pairs|] == pairs;
    }

    /** The inclusion and the consistency files of one stream. */
    method WriteStream(max: nat, s: Stream, pairs: seq<(nat, nat)>, start: Disk)
      returns (disk: Disk, r: Result<Counts, Error>)
      requires max >= 2 && evidence.checkpoints != [] && pairs == Pairs(evidence.checkpoints)
      requires Genuine(start, evidence.checkpoints, evidence.events)
      ensures Genuine(disk, evidence.checkpoints, evidence.events)
      ensures r.Ok? ==> forall p :: p in disk <==> p in start || StreamOwed(evidence.checkpoints, max, s, p)
      ensures r.Ok? ==> r.value == Counts(InclusionCount(evidence.checkpoints, max, s),
                                          ConsistencyCount(evidence.checkpoints, s, pairs))
      ensures Healthy(evidence.checkpoints, evidence.events) ==> r.Ok?
      ensures r.Ok? && Healthy(evidence.checkpoints, evidence.events) && (forall p <- start :: p.stream != s) ==>
                Gained(start, disk, r.value.inclusionFiles, r.value.consistencyFiles)
    {
      hide Genuine, InclusionCount, ConsistencyCount, Healthy, Pairs, Gained;
      var inclusionFiles, consistencyFiles, error;
      disk, inclusionFiles, error := WriteInclusions(max, s, start);
      if error.Some? {
        return disk, Err(error.value);
      }
      ghost var before := disk;
      disk, consistencyFiles, error := WriteConsistencies(s, pairs, disk);
      if error.Some? {
        return disk, Err(error.value);
      }
      r := Ok(Counts(inclusionFiles, consistencyFiles));
      if Healthy(evidence.checkpoints, evidence.events) && (forall p <- start :: p.stream != s) {
        GainedMore(start, before, disk, inclusionFiles, 0, 0, consistencyFiles);
      }
    }

    /** Writes the proof files of a bundle. On a healthy store with a checkpoint it always completes. Then
        the disk holds a stream's inclusion proofs of every sequence of each small tree and of the first and
        last of each larger one, its consistency proofs between neighbouring checkpoints and between the ends
        of three or more wherever the tree grew, and nothing else; and the answer says how many there are. */
    method WriteProofFiles(maxInclusionPerTree: int) returns (disk: Disk, r: Result<Counts, Error>)
      ensures Genuine(disk, evidence.checkpoints, evidence.events)
      ensures r.Ok? ==> maxInclusionPerTree >= 2 && evidence.checkpoints != []
      ensures r.Ok? ==> Complete(disk, evidence.checkpoints, maxInclusionPerTree)
      ensures r.Ok? ==> r.value == TotalCounts(evidence.checkpoints, maxInclusionPerTree, CHECKPOINT_STREAMS)
      ensures maxInclusionPerTree < 2 ==> r == Err(InvalidRequest)
      ensures maxInclusionPerTree >= 2 && evidence.checkpoints == [] ==> r == Err(NotFound)
      ensures Healthy(evidence.checkpoints, evidence.events) ==>
                (r.Ok? <==> maxInclusionPerTree >= 2 && evidence.checkpoints != [])
      ensures Healthy(evidence.checkpoints, evidence.events) && r.Ok? ==>
                r.value == Counts(|InclusionNames(disk)|, |ConsistencyNames(disk)|)
      ensures Healthy(evidence.checkpoints, evidence.events) && r.Ok? ==>
                CompleteByNumber(disk, evidence.checkpoints, maxInclusionPerTree)
    {
      hide Genuine, Healthy, Pairs, StreamOwed, TotalCounts, InclusionCount, ConsistencyCount, Gained, TreeGrew,
           ReferenceFor, Complete, CompleteByNumber, InclusionNames, ConsistencyNames, CHECKPOINT_STREAMS;
      disk := map[];
      NothingWritten(evidence.checkpoints, evidence.events, maxInclusionPerTree);
      if maxInclusionPerTree < 2 {
        return disk, Err(InvalidRequest);
      }
      var checkpoints := evidence.checkpoints;
      if checkpoints == [] {
        return disk, Err(NotFound);
      }
      var inclusionFiles: nat, consistencyFiles: nat := 0, 0;
      var pairs := Pairs(checkpoints);
      var streams := CHECKPOINT_STREAMS;
      assert streams[..0] == [];
      for k := 0 to |streams|
        invariant Genuine(disk, checkpoints, evidence.events)
        invariant Written(disk, checkpoints, maxInclusionPerTree, streams[..k])
        invariant Counts(inclusionFiles, consistencyFiles)
               == TotalCounts(checkpoints, maxInclusionPerTree, streams[..k])
        invariant Healthy(checkpoints, evidence.events) ==> Gained(map[], disk, inclusionFiles, consistencyFiles)
      {
        ghost var before, i, j := disk, inclusionFiles, consistencyFiles;
        var written;
        disk, written := WriteStream(maxInclusionPerTree, streams[k], pairs, disk);
        if written.Err? {
          return disk, Err(written.error);
        }
        inclusionFiles := inclusionFiles + written.value.inclusionFiles;
        consistencyFiles := consistencyFiles + written.value.consistencyFiles;
        AnotherStream(checkpoints, maxInclusionPerTree, streams, k);
        StreamsApart(k);
        if Healthy(checkpoints, evidence.events) {
          GainedMore(map[], before, disk, i, j, written.value.inclusionFiles, written.value.consistencyFiles);
        }
      }
      assert streams[..|streams|] == streams;
      r := Ok(Counts(inclusionFiles, consistencyFiles));
      WrittenIsComplete(disk, checkpoints, maxInclusionPerTree);
      if Healthy(checkpoints, evidence.events) {
        WrittenByNumber(disk, checkpoints, evidence.events, maxInclusionPerTree);
        GainedFromNothing(disk, inclusionFiles, consistencyFiles);
      }
    }
  }

  /** After any run of appends and checkpoint attempts on an append-only store. */
  lemma RunsLeaveHealthyStores(metadata: RunMetadata, ops: seq<Op>)
    requires metadata.promptBundleHash.Some?
    ensures Healthy(Manifests(Run(metadata, ops).history), Run(metadata, ops).table)
  {
    RunIsSound(metadata, ops);
    SoundIsHealthy(Run(metadata, ops));
  }
}
