/** Prefix consistency between two sizes of one tree: the proof the tree produces is the only one
    the verifier accepts, and it is accepted only with the root of the actual prefix. */
module MerkleConsistency {
  import opened Wrappers
  import opened Merkle
  import opened MerkleProofs

  /** The width of the node the stripped index names. */
  function StripWidth(f: nat, w: nat): nat
  {
    if f % 2 == 1 then StripWidth(f / 2, 2 * w) else w
  }

  /** Stripping the ones of fromSize - 1 finds the last perfect subtree of the smaller tree:
      it ends exactly at fromSize and its index is even. */
  lemma {:induction false} StripFacts(size: nat, f: nat, sn: nat, w: nat)
    requires f <= sn && LastNode(size, sn, w)
    ensures StripOnes(f) <= StripWith(f, sn) && StripOnes(f) % 2 == 0
    ensures LastNode(size, StripWith(f, sn), StripWidth(f, w))
    ensures Start(StripOnes(f), StripWidth(f, w)) + StripWidth(f, w) == Start(f, w) + w
  {
    if f % 2 == 1 {
      LastNodeHalves(size, sn, w);
      Halve(f, w);
      StripFacts(size, f / 2, sn / 2, 2 * w);
    }
  }

  /** Any node ending at m strips to the same subtree. */
  lemma {:induction false} StripUnique(size: nat, m: nat, g: nat, sn: nat, w: nat)
    requires 0 < m <= size && IsPow2(w) && g <= sn
    requires LastNode(size, sn, w) && Start(g, w) + w == m
    ensures StripOnes(m - 1) == StripOnes(g)
    ensures StripWith(m - 1, size - 1) == StripWith(g, sn)
    ensures StripWidth(m - 1, 1) == StripWidth(g, w)
    decreases w, 0
  {
    hide *;
    LastNodeWidth(size, sn, w);
    if w == 1 {
      EndsUnit(size, m, g, sn);
    } else {
      WidthHalves(w);
      StripUniqueBelow(size, m, g, sn, w / 2);
    }
  }

  lemma EndsUnit(size: nat, m: nat, g: nat, sn: nat)
    requires LastNode(size, sn, 1) && Start(g, 1) + 1 == m
    ensures g == m - 1 && sn == size - 1
  {
    StartUnit(g);
    StartUnit(sn);
  }

  lemma {:induction false} StripUniqueBelow(size: nat, m: nat, g: nat, sn: nat, w: nat)
    requires 0 < m <= size && IsPow2(w) && g <= sn
    requires LastNode(size, sn, 2 * w) && Start(g, 2 * w) + 2 * w == m
    ensures StripOnes(m - 1) == StripOnes(g)
    ensures StripWith(m - 1, size - 1) == StripWith(g, sn)
    ensures StripWidth(m - 1, 1) == StripWidth(g, 2 * w)
    decreases w, 1
  {
    hide *;
    var below := LastNodeBelow(size, sn, w);
    ChildStarts(g, w);
    ChildInside(size, g, below, w);
    StripUnique(size, m, 2 * g + 1, below, w);
    StripOdd(g, below, w);
  }

  lemma StripOdd(g: nat, below: nat, w: nat)
    ensures StripOnes(2 * g + 1) == StripOnes(g) && StripWith(2 * g + 1, below) == StripWith(g, below / 2)
    ensures StripWidth(2 * g + 1, w) == StripWidth(g, 2 * w)
  {
    hide *;
    StripOnesOdd(2 * g + 1, g);
    StripWithOdd(2 * g + 1, g, below);
    StripWidthOdd(2 * g + 1, g, w);
  }

  lemma StripOnesOdd(f: nat, g: nat)
    requires f == 2 * g + 1
    ensures StripOnes(f) == StripOnes(g)
  {
    assert f / 2 == g && f % 2 == 1;
  }

  lemma StripWithOdd(f: nat, g: nat, s: nat)
    requires f == 2 * g + 1
    ensures StripWith(f, s) == StripWith(g, s / 2)
  {
    assert f / 2 == g && f % 2 == 1;
  }

  lemma StripWidthOdd(f: nat, g: nat, w: nat)
    requires f == 2 * g + 1
    ensures StripWidth(f, w) == StripWidth(g, 2 * w)
  {
    assert f / 2 == g && f % 2 == 1;
  }

  lemma ChildInside(size: nat, f: nat, sn: nat, w: nat)
    requires LastNode(size, sn, w) && IsPow2(w) && Start(2 * f + 1, w) + w <= size
    ensures 2 * f + 1 <= sn
  {
    if sn < 2 * f + 1 {
      Mono(sn, 2 * f + 1, w);
    }
  }

  lemma {:induction false} PowerStripsToZero(m: nat)
    requires m > 0
    ensures IsPow2(m) <==> StripOnes(m - 1) == 0
  {
    if m % 2 == 0 {
      assert (m - 1) / 2 == m / 2 - 1;
      PowerStripsToZero(m / 2);
    }
  }

  /** The first element of a proof: the last perfect subtree of the smaller tree, left out when
      that subtree is the whole smaller tree. */
  function Seed(leaves: seq<Digest>, f: nat, w: nat): seq<Digest>
    requires Start(f, w) <= |leaves|
  {
    if f == 0 then [] else [NodeAt(leaves, Start(f, w), w)]
  }

  /** The proof the verifier's walk expects. */
  function ExpectedProof(leaves: seq<Digest>, fromSize: nat): seq<Digest>
    requires 0 < fromSize <= |leaves|
  {
    StartUnit(|leaves| - 1);
    StartUnit(fromSize - 1);
    StripFacts(|leaves|, fromSize - 1, |leaves| - 1, 1);
    var f, sn, w := StripOnes(fromSize - 1), StripWith(fromSize - 1, |leaves| - 1), StripWidth(fromSize - 1, 1);
    Seed(leaves, f, w) + LevelPath(leaves, f, sn, w)
  }

  lemma SubProofSplits(leaves: seq<Digest>, lo: nat, w: nat, hi: nat, m: nat, complete: bool)
    requires IsPow2(w) && lo + w < hi && hi == Cut(|leaves|, lo + 2 * w)
    requires lo < m < hi
    ensures SubProof(m - lo, leaves[lo..hi], complete)
         == if m <= lo + w
            then SubProof(m - lo, leaves[lo..lo + w], complete) + [NodeAt(leaves, lo + w, w)]
            else SubProof(m - lo - w, leaves[lo + w..hi], false) + [NodeAt(leaves, lo, w)]
  {
    hide Root;
    var range := leaves[lo..hi];
    SplitPointIsLargest(|range|, w);
    assert range[..w] == leaves[lo..lo + w];
    assert range[w..] == leaves[lo + w..hi];
  }

  lemma SubProofWhole(leaves: seq<Digest>, lo: nat, w: nat, complete: bool)
    requires 0 < w && lo + w <= |leaves|
    ensures SubProof(w, leaves[lo..lo + w], complete) == if complete then [] else [NodeAt(leaves, lo, w)]
  {
    hide Root;
  }

  /** SUBPROOF inside node f, followed by the siblings above the node. */
  function SubProofThrough(leaves: seq<Digest>, m: nat, f: nat, sn: nat, w: nat): seq<Digest>
    requires f <= sn && LastNode(|leaves|, sn, w)
    requires Start(f, w) < m <= Cut(|leaves|, Start(f, w) + w)
  {
    SubProof(m - Start(f, w), leaves[Start(f, w)..Cut(|leaves|, Start(f, w) + w)], Start(f, w) == 0)
    + LevelPath(leaves, f, sn, w)
  }

  lemma SubProofThroughOnlyChild(leaves: seq<Digest>, m: nat, f: nat, sn: nat, below: nat, w: nat)
    requires f <= sn && IsPow2(w) && LastNode(|leaves|, sn, 2 * w) && LastNode(|leaves|, below, w) && below / 2 == sn
    requires Start(f, 2 * w) < m < Cut(|leaves|, Start(f, 2 * w) + 2 * w) && Start(f, 2 * w) + w >= |leaves|
    ensures below == 2 * f && Start(2 * f, w) < m < Cut(|leaves|, Start(2 * f, w) + w)
    ensures SubProofThrough(leaves, m, f, sn, 2 * w) == SubProofThrough(leaves, m, 2 * f, below, w)
  {
    hide Root, NodeAt, LevelPath, SubProof, Start, IsPow2;
    ChildStarts(f, w);
    OnlyChild(|leaves|, f, below, w);
    SiblingNone(leaves, 2 * f, w);
  }

  lemma SubProofThroughLeft(leaves: seq<Digest>, m: nat, f: nat, sn: nat, below: nat, w: nat)
    requires f <= sn && IsPow2(w) && LastNode(|leaves|, sn, 2 * w) && LastNode(|leaves|, below, w) && below / 2 == sn
    requires Start(f, 2 * w) < m <= Start(f, 2 * w) + w < |leaves|
    ensures 2 * f + 1 <= below && Start(2 * f, w) < m <= Cut(|leaves|, Start(2 * f, w) + w)
    ensures m < Cut(|leaves|, Start(f, 2 * w) + 2 * w)
    ensures SubProofThrough(leaves, m, f, sn, 2 * w) == SubProofThrough(leaves, m, 2 * f, below, w)
  {
    hide Root, NodeAt, LevelPath, SubProof, Start, IsPow2;
    var lo := Start(f, 2 * w);
    ChildStarts(f, w);
    BothChildren(|leaves|, f, below, w);
    SubProofSplits(leaves, lo, w, Cut(|leaves|, lo + 2 * w), m, lo == 0);
    SiblingRight(leaves, 2 * f, below, w);
  }

  lemma SubProofThroughRight(leaves: seq<Digest>, m: nat, f: nat, sn: nat, below: nat, w: nat)
    requires f <= sn && IsPow2(w) && LastNode(|leaves|, sn, 2 * w) && LastNode(|leaves|, below, w) && below / 2 == sn
    requires Start(f, 2 * w) + w < m < Cut(|leaves|, Start(f, 2 * w) + 2 * w)
    ensures 2 * f + 1 <= below && Start(2 * f + 1, w) < m < Cut(|leaves|, Start(2 * f + 1, w) + w)
    ensures SubProofThrough(leaves, m, f, sn, 2 * w) == SubProofThrough(leaves, m, 2 * f + 1, below, w)
  {
    hide Root, NodeAt, LevelPath, SubProof, Start, IsPow2;
    var lo := Start(f, 2 * w);
    ChildStarts(f, w);
    BothChildren(|leaves|, f, below, w);
    SubProofSplits(leaves, lo, w, Cut(|leaves|, lo + 2 * w), m, lo == 0);
    SiblingLeft(leaves, 2 * f + 1, below, w);
  }

  /** A proof whose earlier size ends a node is that node, unless it is the whole earlier tree. */
  lemma SubProofThroughNode(leaves: seq<Digest>, m: nat, f: nat, sn: nat, w: nat)
    requires f <= sn && f % 2 == 0 && LastNode(|leaves|, sn, w) && Start(f, w) + w == m <= |leaves|
    ensures ExpectedProof(leaves, m) == SubProofThrough(leaves, m, f, sn, w)
  {
    hide Root, NodeAt, LevelPath, SubProof, Start, ExpectedProof, IsPow2;
    ExpectedAtNode(leaves, m, f, sn, w);
    SubProofWhole(leaves, Start(f, w), w, Start(f, w) == 0);
  }

  /** SUBPROOF inside a node, followed by the siblings above the node, is the expected proof. */
  lemma {:induction false} SubProofByLevels(leaves: seq<Digest>, m: nat, f: nat, sn: nat, w: nat)
    requires f <= sn && LastNode(|leaves|, sn, w)
    requires Start(f, w) < m < Cut(|leaves|, Start(f, w) + w)
    ensures ExpectedProof(leaves, m) == SubProofThrough(leaves, m, f, sn, w)
    decreases w, 0
  {
    LastNodeWidth(|leaves|, sn, w);
    assert w > 1;
    hide Root, NodeAt, LevelPath, SubProof, Start, ExpectedProof, IsPow2, SubProofThrough, Cut, LastNode;
    WidthHalves(w);
    SubProofBelow(leaves, m, f, sn, w / 2);
  }

  lemma {:induction false} SubProofBelow(leaves: seq<Digest>, m: nat, f: nat, sn: nat, w: nat)
    requires f <= sn && IsPow2(w) && LastNode(|leaves|, sn, 2 * w)
    requires Start(f, 2 * w) < m < Cut(|leaves|, Start(f, 2 * w) + 2 * w)
    ensures ExpectedProof(leaves, m) == SubProofThrough(leaves, m, f, sn, 2 * w)
    decreases w, 2
  {
    CutInside(|leaves|, Start(f, 2 * w) + 2 * w);
    hide *;
    var below := LastNodeBelow(|leaves|, sn, w);
    if Start(f, 2 * w) + w >= |leaves| {
      SubProofBelowOnlyChild(leaves, m, f, sn, below, w);
    } else if m <= Start(f, 2 * w) + w {
      SubProofBelowLeft(leaves, m, f, sn, below, w);
    } else {
      SubProofBelowRight(leaves, m, f, sn, below, w);
    }
  }

  lemma {:induction false} SubProofBelowOnlyChild(leaves: seq<Digest>, m: nat, f: nat, sn: nat, below: nat, w: nat)
    requires f <= sn && IsPow2(w) && LastNode(|leaves|, sn, 2 * w) && LastNode(|leaves|, below, w) && below / 2 == sn
    requires Start(f, 2 * w) < m < Cut(|leaves|, Start(f, 2 * w) + 2 * w) && Start(f, 2 * w) + w >= |leaves|
    ensures ExpectedProof(leaves, m) == SubProofThrough(leaves, m, f, sn, 2 * w)
    decreases w, 1
  {
    hide *;
    SubProofThroughOnlyChild(leaves, m, f, sn, below, w);
    SubProofByLevels(leaves, m, 2 * f, below, w);
  }

  lemma {:induction false} SubProofBelowRight(leaves: seq<Digest>, m: nat, f: nat, sn: nat, below: nat, w: nat)
    requires f <= sn && IsPow2(w) && LastNode(|leaves|, sn, 2 * w) && LastNode(|leaves|, below, w) && below / 2 == sn
    requires Start(f, 2 * w) + w < m < Cut(|leaves|, Start(f, 2 * w) + 2 * w)
    ensures ExpectedProof(leaves, m) == SubProofThrough(leaves, m, f, sn, 2 * w)
    decreases w, 1
  {
    hide *;
    SubProofThroughRight(leaves, m, f, sn, below, w);
    SubProofByLevels(leaves, m, 2 * f + 1, below, w);
  }

  lemma {:induction false} SubProofBelowLeft(leaves: seq<Digest>, m: nat, f: nat, sn: nat, below: nat, w: nat)
    requires f <= sn && IsPow2(w) && LastNode(|leaves|, sn, 2 * w) && LastNode(|leaves|, below, w) && below / 2 == sn
    requires Start(f, 2 * w) < m <= Start(f, 2 * w) + w < |leaves| && m < Cut(|leaves|, Start(f, 2 * w) + 2 * w)
    ensures ExpectedProof(leaves, m) == SubProofThrough(leaves, m, f, sn, 2 * w)
    decreases w, 1
  {
    hide *;
    CutOfInside(|leaves|, Start(f, 2 * w) + w);
    ChildStarts(f, w);
    SubProofThroughLeft(leaves, m, f, sn, below, w);
    if m == Start(2 * f, w) + w {
      SubProofThroughNode(leaves, m, 2 * f, below, w);
    } else {
      SubProofByLevels(leaves, m, 2 * f, below, w);
    }
  }

  lemma CutInside(n: nat, hi: nat)
    ensures Cut(n, hi) <= n
  {
  }

  lemma CutOfInside(n: nat, hi: nat)
    ensures hi <= n ==> Cut(n, hi) == hi
  {
  }

  lemma ExpectedAtNode(leaves: seq<Digest>, m: nat, g: nat, sn: nat, w: nat)
    requires 0 < m <= |leaves| && g <= sn && g % 2 == 0
    requires LastNode(|leaves|, sn, w) && Start(g, w) + w == m
    ensures ExpectedProof(leaves, m)
         == (if Start(g, w) == 0 then [] else [NodeAt(leaves, Start(g, w), w)]) + LevelPath(leaves, g, sn, w)
  {
    hide Root, NodeAt, LevelPath;
    StripUnique(|leaves|, m, g, sn, w);
    if g > 0 {
      Mono(1, g, w);
    }
  }

  lemma ConsistencyPathIsExpected(leaves: seq<Digest>, fromSize: nat)
    requires 0 < fromSize < |leaves|
    ensures ConsistencyPath(leaves, fromSize) == ExpectedProof(leaves, fromSize)
  {
    hide Root, SubProof, ExpectedProof;
    var w := 2 * Pow2(FloorLog2(|leaves|));
    FloorLog2Bounds(|leaves|);
    LevelPathTop(leaves, w);
    SubProofByLevels(leaves, fromSize, 0, 0, w);
    assert leaves[0..|leaves|] == leaves;
  }

  /** The verifier of consistency proofs, against the root of a tree it cannot see: it accepts an
      earlier root and a path exactly when the root is that of the first fromSize leaves and the
      path is the tree's own proof. */
  lemma ConsistencyVerifierIsExact(leaves: seq<Digest>, fromSize: nat, fromRoot: Digest, path: seq<Digest>)
    requires fromSize <= |leaves| <= MAX_TREE_SIZE
    ensures ConsistencyAccepted(fromSize, |leaves|, fromRoot, Root(leaves), path)
       <==> fromRoot == Root(leaves[..fromSize]) && path == ConsistencyPath(leaves, fromSize)
  {
    if fromSize == |leaves| {
      assert leaves[..fromSize] == leaves;
    } else if fromSize > 0 {
      ConsistencyExactInside(leaves, fromSize, fromRoot, path);
    }
  }

  /** Where the verifier's two walks start: the last perfect subtree of the smaller tree. */
  lemma StartOfWalks(leaves: seq<Digest>, fromSize: nat) returns (w: nat)
    requires 0 < fromSize < |leaves|
    ensures var f, sn := StripOnes(fromSize - 1), StripWith(fromSize - 1, |leaves| - 1);
      && f <= sn && LastNode(|leaves|, sn, w) && Start(f, w) + w == fromSize
      && (IsPow2(fromSize) <==> f == 0)
      && ConsistencyPath(leaves, fromSize) == Seed(leaves, f, w) + LevelPath(leaves, f, sn, w)
  {
    hide Root, NodeAt, LevelPath, ConsistencyPath;
    StartUnit(|leaves| - 1);
    StartUnit(fromSize - 1);
    StripFacts(|leaves|, fromSize - 1, |leaves| - 1, 1);
    w := StripWidth(fromSize - 1, 1);
    PowerStripsToZero(fromSize);
    ConsistencyPathIsExpected(leaves, fromSize);
  }

  /** Both walks arrive exactly when they start from that subtree with its siblings. */
  lemma WalksArrive(leaves: seq<Digest>, fromSize: nat, f: nat, sn: nat, w: nat, fromRoot: Digest,
                    head: Digest, rest: seq<Digest>)
    requires 0 < fromSize <= |leaves| && f <= sn && LastNode(|leaves|, sn, w) && Start(f, w) + w == fromSize
    ensures Walk(f, sn, head, rest) == Some(Root(leaves)) && FromWalk(f, sn, head, rest) == fromRoot
       <==> head == NodeAt(leaves, Start(f, w), w) && rest == LevelPath(leaves, f, sn, w)
            && fromRoot == Root(leaves[..fromSize])
  {
    hide Root, NodeAt, LevelPath, Walk, FromWalk;
    NodeAtOfPrefix(leaves, fromSize, Start(f, w), w);
    WalkReachesRoot(leaves, f, sn, w, head, rest);
    FromWalkReachesFromRoot(leaves, fromSize, f, sn, w);
  }

  /** The tree's own proof is never longer than the verifier allows. */
  lemma OwnPathFits(leaves: seq<Digest>, fromSize: nat, f: nat, sn: nat, w: nat)
    requires 0 < fromSize < |leaves| && sn == StripWith(fromSize - 1, |leaves| - 1)
    requires f <= sn && LastNode(|leaves|, sn, w)
    ensures |LevelPath(leaves, f, sn, w)| + 1 <= MaxPathLength(|leaves|)
  {
    hide LevelPath, BitLength, StripWith, LastNode;
    LevelPathLength(leaves, f, sn, w);
    StripShorter(fromSize - 1, |leaves| - 1);
  }

  lemma ConsistencyExactInside(leaves: seq<Digest>, fromSize: nat, fromRoot: Digest, path: seq<Digest>)
    requires 0 < fromSize < |leaves| <= MAX_TREE_SIZE
    ensures ConsistencyAccepted(fromSize, |leaves|, fromRoot, Root(leaves), path)
       <==> fromRoot == Root(leaves[..fromSize]) && path == ConsistencyPath(leaves, fromSize)
  {
    hide Root, NodeAt, LevelPath, Walk, FromWalk, ConsistencyPath, MaxPathLength, LastNode, IsPow2, StripWith,
         StripOnes;
    var f, sn := StripOnes(fromSize - 1), StripWith(fromSize - 1, |leaves| - 1);
    var w := StartOfWalks(leaves, fromSize);
    OwnPathFits(leaves, fromSize, f, sn, w);
    if f == 0 {
      assert ([fromRoot] + path)[1..] == path;
      SharedSeedIsRoot(leaves, fromSize, w);
      WalksArrive(leaves, fromSize, f, sn, w, fromRoot, fromRoot, path);
      assert [] + LevelPath(leaves, f, sn, w) == LevelPath(leaves, f, sn, w);
    } else if path != [] {
      assert path == [path[0]] + path[1..];
      WalksArrive(leaves, fromSize, f, sn, w, fromRoot, path[0], path[1..]);
    }
  }

  lemma SharedSeedIsRoot(leaves: seq<Digest>, fromSize: nat, w: nat)
    requires fromSize <= |leaves| && Start(0, w) + w == fromSize
    ensures NodeAt(leaves, 0, w) == Root(leaves[..fromSize])
  {
    hide Root;
    assert leaves[0..fromSize] == leaves[..fromSize];
  }

  lemma {:induction false} StripShorter(f: nat, s: nat)
    ensures BitLength(StripWith(f, s)) <= BitLength(s)
  {
    if f % 2 == 1 {
      StripShorter(f / 2, s / 2);
    }
  }
}
