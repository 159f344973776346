/** Which proofs a bundle is owed, under which names, and how many they are. */
module ProofFiles {
  import opened Wrappers
  import opened Merkle
  import opened Checkpoints
  import opened CheckpointLedger

  datatype ProofPath =
    | InclusionFileName(stream: Stream, sequence: nat, at: nat)
    | ConsistencyFileName(stream: Stream, from: nat, to: nat)

  datatype ProofFile = InclusionFile(inclusion: InclusionRecord) | ConsistencyFile(consistency: ConsistencyRecord)

  type Disk = map<ProofPath, ProofFile>

  datatype Counts = Counts(inclusionFiles: nat, consistencyFiles: nat)

  // ---------------------------------------------------------------- selection

  function InclusionSequences(treeSize: nat, maxPerTree: nat): seq<nat>
  {
    if treeSize == 0 then []
    else if treeSize <= maxPerTree then seq(treeSize, i => i + 1)
    else [1, treeSize]
  }

  /** Consecutive checkpoints, then the first and the last when there are three or more. */
  function Pairs(checkpoints: seq<Manifest>): seq<(nat, nat)>
    requires checkpoints != []
  {
    var n := |checkpoints|;
    seq(n - 1, i requires 0 <= i < n - 1 =>
      (checkpoints[i].checkpointSequence, checkpoints[i + 1].checkpointSequence))
    + if n > 2 then [(0, checkpoints[n - 1].checkpointSequence)] else []
  }

  predicate TreeGrew(checkpoints: seq<Manifest>, s: Stream, pair: (nat, nat))
  {
    var a, b := FindManifest(checkpoints, pair.0), FindManifest(checkpoints, pair.1);
    a.Some? && b.Some? && ReferenceFor(a.value, s).treeSize != ReferenceFor(b.value, s).treeSize
  }

  /** A small tree is owed a proof of every event, a larger one of the first and the last. */
  predicate Selected(treeSize: nat, max: nat, q: nat)
  {
    1 <= q <= treeSize && (treeSize <= max || q == 1 || q == treeSize)
  }

  /** The selected sequences are exactly those, once each. */
  lemma SequencesAreSelected(treeSize: nat, max: nat)
    requires max >= 2
    ensures forall q :: q in InclusionSequences(treeSize, max) <==> Selected(treeSize, max, q)
    ensures var qs := InclusionSequences(treeSize, max); forall i, j | 0 <= i < j < |qs| :: qs[i] != qs[j]
  {
    var qs := InclusionSequences(treeSize, max);
    forall q | Selected(treeSize, max, q)
      ensures q in qs
    {
      if treeSize <= max {
        assert qs[q - 1] == q;
      } else {
        assert qs[0] == 1 && qs[1] == treeSize;
      }
    }
  }

  /** The selected pairs are the neighbours, and the two ends of three or more. */
  lemma PairsAreNeighbours(checkpoints: seq<Manifest>, from: nat, to: nat)
    requires checkpoints != []
    ensures (from, to) in Pairs(checkpoints)
       <==> (exists i: nat :: Neighbours(checkpoints, i, from, to)) || Ends(checkpoints, from, to)
  {
    var pairs := Pairs(checkpoints);
    if (from, to) in pairs {
      var k :| 0 <= k < |pairs| && pairs[k] == (from, to);
      if k < |checkpoints| - 1 {
        assert Neighbours(checkpoints, k, from, to);
      }
    }
    if i: nat :| Neighbours(checkpoints, i, from, to) {
      assert pairs[i] == (from, to);
    }
    if Ends(checkpoints, from, to) {
      assert pairs[|checkpoints| - 1] == (from, to);
    }
  }

  predicate Neighbours(checkpoints: seq<Manifest>, i: nat, from: nat, to: nat)
  {
    && i + 1 < |checkpoints|
    && checkpoints[i].checkpointSequence == from && checkpoints[i + 1].checkpointSequence == to
  }

  predicate Ends(checkpoints: seq<Manifest>, from: nat, to: nat)
  {
    |checkpoints| > 2 && from == 0 && to == checkpoints[|checkpoints| - 1].checkpointSequence
  }

  // ---------------------------------------------------------------- names

  /** The name of an inclusion proof some checkpoint owes the stream. */
  predicate InclusionOwed(checkpoints: seq<Manifest>, max: nat, s: Stream, p: ProofPath)
  {
    && p.InclusionFileName? && p.stream == s
    && exists m <- checkpoints :: m.checkpointSequence == p.at
                                  && Selected(ReferenceFor(m, s).treeSize, max, p.sequence)
  }

  /** The name of the consistency proof of one of the pairs in which the stream's tree grew. */
  predicate ConsistencyOwed(checkpoints: seq<Manifest>, pairs: seq<(nat, nat)>, s: Stream, p: ProofPath)
  {
    p.ConsistencyFileName? && p.stream == s && (p.from, p.to) in pairs && TreeGrew(checkpoints, s, (p.from, p.to))
  }

  predicate StreamOwed(checkpoints: seq<Manifest>, max: nat, s: Stream, p: ProofPath)
    requires checkpoints != []
  {
    InclusionOwed(checkpoints, max, s, p) || ConsistencyOwed(checkpoints, Pairs(checkpoints), s, p)
  }

  lemma OwedByOneMore(checkpoints: seq<Manifest>, m: Manifest, max: nat, s: Stream, p: ProofPath)
    ensures InclusionOwed(checkpoints + [m], max, s, p)
       <==> InclusionOwed(checkpoints, max, s, p) || InclusionOwed([m], max, s, p)
  {
    hide Selected, ReferenceFor;
    assert forall x :: x in checkpoints + [m] <==> x in checkpoints || x in [m];
  }

  lemma PairedByOneMore(checkpoints: seq<Manifest>, pairs: seq<(nat, nat)>, pair: (nat, nat), s: Stream, p: ProofPath)
    ensures ConsistencyOwed(checkpoints, pairs + [pair], s, p)
       <==> ConsistencyOwed(checkpoints, pairs, s, p)
            || (p == ConsistencyFileName(s, pair.0, pair.1) && TreeGrew(checkpoints, s, pair))
  {
    hide TreeGrew;
  }

  lemma NobodyOwes(max: nat, s: Stream)
    ensures forall p :: !InclusionOwed([], max, s, p)
  {
  }

  lemma NothingPaired(checkpoints: seq<Manifest>, s: Stream)
    ensures forall p :: !ConsistencyOwed(checkpoints, [], s, p)
  {
  }

  lemma OwedNamesStream(checkpoints: seq<Manifest>, max: nat, s: Stream, p: ProofPath)
    requires checkpoints != []
    ensures StreamOwed(checkpoints, max, s, p) ==> p.stream == s
  {
    hide Selected, TreeGrew, Pairs, ReferenceFor;
  }

  /** The names of some sequences of one stream at one checkpoint. */
  predicate NamedIn(s: Stream, at: nat, qs: seq<nat>, p: ProofPath)
  {
    p.InclusionFileName? && p.stream == s && p.at == at && p.sequence in qs
  }

  lemma NamedByOneMore(s: Stream, at: nat, qs: seq<nat>, k: nat)
    requires k < |qs| && forall i, j | 0 <= i < j < |qs| :: qs[i] != qs[j]
    ensures forall p :: NamedIn(s, at, qs[..k + 1], p)
                   <==> NamedIn(s, at, qs[..k], p) || p == InclusionFileName(s, qs[k], at)
    ensures NamedIn(s, at, qs, InclusionFileName(s, qs[k], at))
    ensures !NamedIn(s, at, qs[..k], InclusionFileName(s, qs[k], at))
  {
    assert qs[..k + 1] == qs[..k] + [qs[k]];
    forall p
      ensures NamedIn(s, at, qs[..k + 1], p) <==> NamedIn(s, at, qs[..k], p) || p == InclusionFileName(s, qs[k], at)
    {
      if p.InclusionFileName? {
        assert p == InclusionFileName(p.stream, p.sequence, p.at);
      }
    }
  }

  lemma NamedIsOwed(m: Manifest, max: nat, s: Stream, p: ProofPath)
    requires max >= 2
    ensures NamedIn(s, m.checkpointSequence, InclusionSequences(ReferenceFor(m, s).treeSize, max), p)
       <==> InclusionOwed([m], max, s, p)
  {
    SequencesAreSelected(ReferenceFor(m, s).treeSize, max);
    hide InclusionSequences, Selected, ReferenceFor;
    assert m in [m];
  }

  // ---------------------------------------------------------------- counts

  /** How many inclusion files the stream is owed, and how many consistency files. */
  function InclusionCount(checkpoints: seq<Manifest>, max: nat, s: Stream): nat
  {
    if checkpoints == [] then 0
    else
      var n := |checkpoints| - 1;
      InclusionCount(checkpoints[..n], max, s) + |InclusionSequences(ReferenceFor(checkpoints[n], s).treeSize, max)|
  }

  function ConsistencyCount(checkpoints: seq<Manifest>, s: Stream, pairs: seq<(nat, nat)>): nat
  {
    if pairs == [] then 0
    else
      var n := |pairs| - 1;
      ConsistencyCount(checkpoints, s, pairs[..n]) + if TreeGrew(checkpoints, s, pairs[n]) then 1 else 0
  }

  function TotalCounts(checkpoints: seq<Manifest>, max: nat, streams: seq<Stream>): Counts
    requires checkpoints != []
  {
    if streams == [] then Counts(0, 0)
    else
      var n := |streams| - 1;
      var before := TotalCounts(checkpoints, max, streams[..n]);
      Counts(before.inclusionFiles + InclusionCount(checkpoints, max, streams[n]),
             before.consistencyFiles + ConsistencyCount(checkpoints, streams[n], Pairs(checkpoints)))
  }

  lemma CountOneMore(checkpoints: seq<Manifest>, max: nat, s: Stream, i: nat)
    requires i < |checkpoints|
    ensures InclusionCount(checkpoints[..i + 1], max, s)
         == InclusionCount(checkpoints[..i], max, s)
            + |InclusionSequences(ReferenceFor(checkpoints[i], s).treeSize, max)|
  {
    hide ReferenceFor, InclusionSequences;
    assert checkpoints[..i + 1][..i] == checkpoints[..i];
  }

  lemma PairOneMore(checkpoints: seq<Manifest>, s: Stream, pairs: seq<(nat, nat)>, k: nat)
    requires k < |pairs|
    ensures ConsistencyCount(checkpoints, s, pairs[..k + 1])
         == ConsistencyCount(checkpoints, s, pairs[..k]) + if TreeGrew(checkpoints, s, pairs[k]) then 1 else 0
    ensures forall p :: ConsistencyOwed(checkpoints, pairs[..k + 1], s, p)
                   <==> ConsistencyOwed(checkpoints, pairs[..k], s, p)
                        || (p == ConsistencyFileName(s, pairs[k].0, pairs[k].1) && TreeGrew(checkpoints, s, pairs[k]))
  {
    hide TreeGrew;
    assert pairs[..k + 1][..k] == pairs[..k];
    assert pairs[..k + 1] == pairs[..k] + [pairs[k]];
    forall p
      ensures ConsistencyOwed(checkpoints, pairs[..k + 1], s, p)
         <==> ConsistencyOwed(checkpoints, pairs[..k], s, p)
              || (p == ConsistencyFileName(s, pairs[k].0, pairs[k].1) && TreeGrew(checkpoints, s, pairs[k]))
    {
      PairedByOneMore(checkpoints, pairs[..k], pairs[k], s, p);
    }
  }

  lemma GrewIs(checkpoints: seq<Manifest>, s: Stream, from: nat, to: nat)
    requires FindManifest(checkpoints, from).Some? && FindManifest(checkpoints, to).Some?
    ensures TreeGrew(checkpoints, s, (from, to))
       <==> ReferenceFor(FindManifest(checkpoints, from).value, s).treeSize
            != ReferenceFor(FindManifest(checkpoints, to).value, s).treeSize
  {
    hide ReferenceFor, FindManifest;
  }

  lemma AnotherStream(checkpoints: seq<Manifest>, max: nat, streams: seq<Stream>, k: nat)
    requires checkpoints != [] && k < |streams|
    ensures var total := TotalCounts(checkpoints, max, streams[..k]);
      TotalCounts(checkpoints, max, streams[..k + 1])
      == Counts(total.inclusionFiles + InclusionCount(checkpoints, max, streams[k]),
                total.consistencyFiles + ConsistencyCount(checkpoints, streams[k], Pairs(checkpoints)))
    ensures forall s :: s in streams[..k + 1] <==> s in streams[..k] || s == streams[k]
    ensures forall p :: StreamOwed(checkpoints, max, streams[k], p) ==> p.stream == streams[k]
  {
    hide Pairs, InclusionCount, ConsistencyCount, StreamOwed;
    assert streams[..k + 1][..k] == streams[..k];
    assert streams[..k + 1] == streams[..k] + [streams[k]];
    forall p
      ensures StreamOwed(checkpoints, max, streams[k], p) ==> p.stream == streams[k]
    {
      OwedNamesStream(checkpoints, max, streams[k], p);
    }
  }

  lemma StreamsApart(k: nat)
    requires k < |CHECKPOINT_STREAMS|
    ensures CHECKPOINT_STREAMS[k] !in CHECKPOINT_STREAMS[..k]
  {
  }

  function InclusionNames(disk: Disk): set<ProofPath>
  {
    set p | p in disk && p.InclusionFileName?
  }

  function ConsistencyNames(disk: Disk): set<ProofPath>
  {
    set p | p in disk && p.ConsistencyFileName?
  }

  /** The files that came with the writing of one part of a bundle, while that part has no file yet. */
  ghost predicate Gained(start: Disk, disk: Disk, inclusions: nat, consistencies: nat)
  {
    && |InclusionNames(disk)| == |InclusionNames(start)| + inclusions
    && |ConsistencyNames(disk)| == |ConsistencyNames(start)| + consistencies
  }

  lemma NewName(disk: Disk, p: ProofPath, file: ProofFile)
    requires p !in disk
    ensures Gained(disk, disk[p := file], if p.InclusionFileName? then 1 else 0, if p.InclusionFileName? then 0 else 1)
  {
    var after := disk[p := file];
    if p.InclusionFileName? {
      assert InclusionNames(after) == InclusionNames(disk) + {p};
      assert ConsistencyNames(after) == ConsistencyNames(disk);
    } else {
      assert ConsistencyNames(after) == ConsistencyNames(disk) + {p};
      assert InclusionNames(after) == InclusionNames(disk);
    }
  }

  lemma GainedMore(a: Disk, b: Disk, c: Disk, i: nat, j: nat, k: nat, l: nat)
    requires Gained(a, b, i, j) && Gained(b, c, k, l)
    ensures Gained(a, c, i + k, j + l)
  {
    hide InclusionNames, ConsistencyNames;
  }

  lemma GainedNothing(a: Disk)
    ensures Gained(a, a, 0, 0)
  {
  }

  // ---------------------------------------------------------------- contents

  /** The disk holds, per checkpoint and stream, the inclusion proof of every sequence of a small tree and
      of the first and last of a larger one; per stream, the consistency proofs between neighbours, and
      between the ends of three or more, wherever the tree grew; and nothing else. */
  ghost predicate Complete(disk: Disk, checkpoints: seq<Manifest>, max: int)
    requires checkpoints != []
  {
    && (forall s: Stream, q: nat, at: nat :: (InclusionFileName(s, q, at) in disk
          <==> exists m <- checkpoints ::
                 && m.checkpointSequence == at && 1 <= q <= ReferenceFor(m, s).treeSize
                 && (ReferenceFor(m, s).treeSize <= max || q == 1 || q == ReferenceFor(m, s).treeSize)))
    && (forall s: Stream, from: nat, to: nat :: (ConsistencyFileName(s, from, to) in disk
          <==> && TreeGrew(checkpoints, s, (from, to))
               && ((exists i: nat :: Neighbours(checkpoints, i, from, to)) || Ends(checkpoints, from, to))))
  }

  /** The same where checkpoints are numbered by their place and trees only grow. */
  ghost predicate CompleteByNumber(disk: Disk, checkpoints: seq<Manifest>, max: int)
  {
    && (forall s: Stream, q: nat, i: nat | i < |checkpoints| :: (InclusionFileName(s, q, i) in disk
          <==> && 1 <= q <= ReferenceFor(checkpoints[i], s).treeSize
               && (ReferenceFor(checkpoints[i], s).treeSize <= max
                   || q == 1 || q == ReferenceFor(checkpoints[i], s).treeSize)))
    && (forall s: Stream, from: nat, to: nat :: (ConsistencyFileName(s, from, to) in disk
          <==> && from < to < |checkpoints| && (to == from + 1 || (from == 0 && to == |checkpoints| - 1))
               && ReferenceFor(checkpoints[from], s).treeSize < ReferenceFor(checkpoints[to], s).treeSize))
  }

  /** What was written, stream by stream. */
  ghost predicate Written(disk: Disk, checkpoints: seq<Manifest>, max: nat, streams: seq<Stream>)
    requires checkpoints != []
  {
    forall p :: p in disk <==> p.stream in streams && StreamOwed(checkpoints, max, p.stream, p)
  }

  lemma WrittenIsComplete(disk: Disk, checkpoints: seq<Manifest>, max: nat)
    requires checkpoints != [] && Written(disk, checkpoints, max, CHECKPOINT_STREAMS)
    ensures Complete(disk, checkpoints, max)
  {
    hide ReferenceFor, Pairs, TreeGrew, Neighbours, Ends, FindManifest;
    forall s: Stream, q: nat, at: nat
      ensures InclusionFileName(s, q, at) in disk
         <==> InclusionOwed(checkpoints, max, s, InclusionFileName(s, q, at))
    {
      EveryStreamIsCheckpointed(s);
    }
    forall s: Stream, from: nat, to: nat
      ensures ConsistencyFileName(s, from, to) in disk
         <==> && TreeGrew(checkpoints, s, (from, to))
              && ((exists i: nat :: Neighbours(checkpoints, i, from, to)) || Ends(checkpoints, from, to))
    {
      EveryStreamIsCheckpointed(s);
      PairsAreNeighbours(checkpoints, from, to);
    }
  }

  lemma WrittenByNumber(disk: Disk, checkpoints: seq<Manifest>, table: EventTable, max: nat)
    requires checkpoints != [] && Written(disk, checkpoints, max, CHECKPOINT_STREAMS) && Healthy(checkpoints, table)
    ensures CompleteByNumber(disk, checkpoints, max)
  {
    hide ReferenceFor, Pairs, Healthy, InclusionOwed, ConsistencyOwed;
    forall s: Stream, q: nat, i: nat | i < |checkpoints|
      ensures InclusionFileName(s, q, i) in disk <==> Selected(ReferenceFor(checkpoints[i], s).treeSize, max, q)
    {
      EveryStreamIsCheckpointed(s);
      OwedKinds(checkpoints, max, s, InclusionFileName(s, q, i));
      HealthyInclusions(checkpoints, table, max, s, q, i);
    }
    forall s: Stream, from: nat, to: nat
      ensures ConsistencyFileName(s, from, to) in disk
         <==> && from < to < |checkpoints| && (to == from + 1 || (from == 0 && to == |checkpoints| - 1))
              && ReferenceFor(checkpoints[from], s).treeSize < ReferenceFor(checkpoints[to], s).treeSize
    {
      EveryStreamIsCheckpointed(s);
      OwedKinds(checkpoints, max, s, ConsistencyFileName(s, from, to));
      HealthyConsistencies(checkpoints, table, s, from, to);
    }
  }

  lemma OwedKinds(checkpoints: seq<Manifest>, max: nat, s: Stream, p: ProofPath)
    requires checkpoints != []
    ensures InclusionOwed(checkpoints, max, s, p) ==> p.InclusionFileName?
    ensures ConsistencyOwed(checkpoints, Pairs(checkpoints), s, p) ==> p.ConsistencyFileName?
  {
  }

  lemma NothingWritten(checkpoints: seq<Manifest>, table: EventTable, max: int)
    ensures Genuine(map[], checkpoints, table) && Gained(map[], map[], 0, 0)
    ensures max >= 0 && checkpoints != [] ==>
              TotalCounts(checkpoints, max, []) == Counts(0, 0) && Written(map[], checkpoints, max, [])
  {
  }

  lemma GainedFromNothing(disk: Disk, i: nat, j: nat)
    requires Gained(map[], disk, i, j)
    ensures |InclusionNames(disk)| == i && |ConsistencyNames(disk)| == j
  {
    assert InclusionNames(map[]) == {} && ConsistencyNames(map[]) == {};
  }

  /** Every file on disk is the service's own answer for the request its name spells. */
  ghost predicate Genuine(disk: Disk, checkpoints: seq<Manifest>, table: EventTable)
  {
    forall p <- disk ::
      match p
      case InclusionFileName(s, q, at) =>
        var answer := InclusionAnswer(checkpoints, table, s, q, at);
        answer.Ok? && disk[p] == InclusionFile(answer.value)
      case ConsistencyFileName(s, from, to) =>
        var answer := ConsistencyAnswer(checkpoints, table, s, from, to);
        answer.Ok? && disk[p] == ConsistencyFile(answer.value)
  }

  lemma GenuineInclusion(disk: Disk, checkpoints: seq<Manifest>, table: EventTable, s: Stream, q: nat, at: nat)
    requires Genuine(disk, checkpoints, table) && InclusionAnswer(checkpoints, table, s, q, at).Ok?
    ensures Genuine(disk[InclusionFileName(s, q, at) :=
                           InclusionFile(InclusionAnswer(checkpoints, table, s, q, at).value)], checkpoints, table)
  {
    hide InclusionAnswer, ConsistencyAnswer;
  }

  lemma GenuineConsistency(disk: Disk, checkpoints: seq<Manifest>, table: EventTable, s: Stream, from: nat, to: nat)
    requires Genuine(disk, checkpoints, table) && ConsistencyAnswer(checkpoints, table, s, from, to).Ok?
    ensures Genuine(disk[ConsistencyFileName(s, from, to) :=
                           ConsistencyFile(ConsistencyAnswer(checkpoints, table, s, from, to).value)],
                    checkpoints, table)
  {
    hide InclusionAnswer, ConsistencyAnswer;
  }

  // ---------------------------------------------------------------- healthy stores

  lemma SelectedSequencesAreProvable(checkpoints: seq<Manifest>, table: EventTable, s: Stream, i: nat, max: nat, q: nat)
    requires i < |checkpoints| && q in InclusionSequences(ReferenceFor(checkpoints[i], s).treeSize, max)
    ensures Healthy(checkpoints, table) ==>
              InclusionAnswer(checkpoints, table, s, q, checkpoints[i].checkpointSequence).Ok?
  {
    hide InclusionAnswer, ReferenceFor, Describes, Contiguous, InclusionAccepted;
    if Healthy(checkpoints, table) {
      InclusionProofsExist(checkpoints, table, s, q, i);
    }
  }

  lemma PairsAreProvable(checkpoints: seq<Manifest>, table: EventTable, s: Stream, k: nat)
    requires checkpoints != [] && k < |Pairs(checkpoints)|
    ensures var p := Pairs(checkpoints)[k];
      Healthy(checkpoints, table) ==>
        && ConsistencyAnswer(checkpoints, table, s, p.0, p.1).Ok?
        && FindManifest(checkpoints, p.0).Some? && FindManifest(checkpoints, p.1).Some?
  {
    hide ConsistencyAnswer, ReferenceFor, Describes, Contiguous, ConsistencyAccepted, FindManifest;
    if Healthy(checkpoints, table) {
      var p := Pairs(checkpoints)[k];
      FindHealthy(checkpoints, table, p.0);
      FindHealthy(checkpoints, table, p.1);
      ConsistencyProofsExist(checkpoints, table, s, p.0, p.1);
    }
  }

  /** Checkpoints of a healthy store are numbered by their place, so no name is spelled twice. */
  lemma HealthyNumbers(checkpoints: seq<Manifest>, table: EventTable, i: nat)
    requires Healthy(checkpoints, table) && i < |checkpoints|
    ensures checkpoints[i].checkpointSequence == i
  {
    hide Describes, ReferenceFor, AllContiguous;
  }

  lemma HealthyPairsDiffer(checkpoints: seq<Manifest>, table: EventTable, i: nat, j: nat)
    requires Healthy(checkpoints, table) && checkpoints != [] && i < j < |Pairs(checkpoints)|
    ensures Pairs(checkpoints)[i] != Pairs(checkpoints)[j]
  {
    hide Describes, ReferenceFor, AllContiguous;
    var n := |checkpoints|;
    HealthyNumbers(checkpoints, table, i);
    assert Pairs(checkpoints)[i].0 == i && Pairs(checkpoints)[i].1 == i + 1;
    if j < n - 1 {
      HealthyNumbers(checkpoints, table, j);
      assert Pairs(checkpoints)[j].0 == j;
    } else {
      HealthyNumbers(checkpoints, table, n - 1);
      assert Pairs(checkpoints)[j] == (0, n - 1);
    }
  }

  /** The names owed by one checkpoint are not owed by an earlier one. */
  lemma OwedApart(checkpoints: seq<Manifest>, table: EventTable, max: nat, s: Stream, i: nat, p: ProofPath)
    requires Healthy(checkpoints, table) && i < |checkpoints|
    ensures InclusionOwed([checkpoints[i]], max, s, p) ==> p.stream == s && !InclusionOwed(checkpoints[..i], max, s, p)
  {
    hide *;
    HealthyNumbers(checkpoints, table, i);
    OwedHere([checkpoints[i]], max, s, p);
    OwedHere(checkpoints[..i], max, s, p);
    NoneNumbered(checkpoints, table, i);
  }

  lemma OwedHere(checkpoints: seq<Manifest>, max: nat, s: Stream, p: ProofPath)
    ensures InclusionOwed(checkpoints, max, s, p) ==>
              p.InclusionFileName? && p.stream == s && exists m <- checkpoints :: m.checkpointSequence == p.at
  {
    hide Selected, ReferenceFor;
  }

  lemma NoneNumbered(checkpoints: seq<Manifest>, table: EventTable, i: nat)
    requires Healthy(checkpoints, table) && i < |checkpoints|
    ensures forall m <- checkpoints[..i] :: m.checkpointSequence != i
  {
    hide Healthy;
    forall m <- checkpoints[..i]
      ensures m.checkpointSequence != i
    {
      var k :| 0 <= k < i && checkpoints[k] == m;
      HealthyNumbers(checkpoints, table, k);
    }
  }

  lemma PairApart(checkpoints: seq<Manifest>, table: EventTable, s: Stream, k: nat)
    requires Healthy(checkpoints, table) && checkpoints != [] && k < |Pairs(checkpoints)|
    ensures var pair := Pairs(checkpoints)[k];
      !ConsistencyOwed(checkpoints, Pairs(checkpoints)[..k], s, ConsistencyFileName(s, pair.0, pair.1))
  {
    hide TreeGrew, Healthy, Pairs;
    var pairs := Pairs(checkpoints);
    forall j | 0 <= j < k
      ensures pairs[j] != pairs[k]
    {
      HealthyPairsDiffer(checkpoints, table, j, k);
    }
  }

  /** On a healthy store a stream has, for each checkpoint, the inclusion proofs of that tree. */
  lemma HealthyInclusions(checkpoints: seq<Manifest>, table: EventTable, max: nat, s: Stream, q: nat, i: nat)
    requires Healthy(checkpoints, table) && i < |checkpoints|
    ensures InclusionOwed(checkpoints, max, s, InclusionFileName(s, q, i))
       <==> Selected(ReferenceFor(checkpoints[i], s).treeSize, max, q)
  {
    HealthyNumbers(checkpoints, table, i);
    hide Selected, ReferenceFor;
    forall m <- checkpoints | m.checkpointSequence == i
      ensures m == checkpoints[i]
    {
      var k :| 0 <= k < |checkpoints| && checkpoints[k] == m;
      HealthyNumbers(checkpoints, table, k);
    }
    hide Healthy;
  }

  /** And for each pair of neighbours, and for the two ends of three or more, a consistency proof if the
      tree grew in between. */
  lemma HealthyConsistencies(checkpoints: seq<Manifest>, table: EventTable, s: Stream, from: nat, to: nat)
    requires Healthy(checkpoints, table) && checkpoints != []
    ensures ConsistencyOwed(checkpoints, Pairs(checkpoints), s, ConsistencyFileName(s, from, to))
       <==> && from < to < |checkpoints| && (to == from + 1 || (from == 0 && to == |checkpoints| - 1))
            && ReferenceFor(checkpoints[from], s).treeSize < ReferenceFor(checkpoints[to], s).treeSize
  {
    hide Pairs, FindManifest, Describes, ReferenceFor, AllContiguous;
    FindHealthy(checkpoints, table, from);
    FindHealthy(checkpoints, table, to);
    PairsAreNeighbours(checkpoints, from, to);
    HealthyNumbers(checkpoints, table, |checkpoints| - 1);
    if from < |checkpoints| && to < |checkpoints| {
      HealthyNumbers(checkpoints, table, from);
      HealthyNumbers(checkpoints, table, to);
      assert to == from + 1 ==> Neighbours(checkpoints, from, from, to);
    }
  }
}
