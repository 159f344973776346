/** The verifiers of the Merkle module accept exactly what the tree's own proofs say. The proofs
    view a tree level by level: at width w (a power of two) the node with index f covers the
    leaves [f*w, (f+1)*w), cut off at the end of the tree. */
module MerkleProofs {
  import opened Wrappers
  import opened Merkle

  function Cut(bound: nat, end: nat): nat
  {
    if end < bound then end else bound
  }

  /** The hash of the tree node that starts at leaf lo and is w leaves wide. */
  function NodeAt(leaves: seq<Digest>, lo: nat, w: nat): Digest
    requires lo <= |leaves|
  {
    Root(leaves[lo..Cut(|leaves|, lo + w)])
  }

  lemma NodeWhole(leaves: seq<Digest>, w: nat)
    requires |leaves| <= w
    ensures NodeAt(leaves, 0, w) == Root(leaves)
  {
    hide Root;
    assert leaves[0..|leaves|] == leaves;
  }

  lemma NodeSame(leaves: seq<Digest>, lo: nat, v: nat, w: nat)
    requires lo <= |leaves| <= lo + v && |leaves| <= lo + w
    ensures NodeAt(leaves, lo, v) == NodeAt(leaves, lo, w)
  {
  }

  /** The first leaf of node f at width w; f * w, by repeated addition. */
  function Start(f: nat, w: nat): nat
  {
    if f == 0 then 0 else Start(f - 1, w) + w
  }

  /** sn is the index of the last node at width w. */
  predicate LastNode(size: nat, sn: nat, w: nat)
  {
    IsPow2(w) && Start(sn, w) < size <= Start(sn, w) + w
  }

  lemma {:induction false} Halve(f: nat, w: nat)
    ensures f % 2 == 0 ==> Start(f / 2, 2 * w) == Start(f, w)
    ensures f % 2 == 1 ==> Start(f / 2, 2 * w) == Start(f, w) - w
  {
    if f > 1 {
      assert f / 2 == (f - 2) / 2 + 1;
      Halve(f - 2, w);
    }
  }

  lemma {:induction false} Mono(f: nat, s: nat, w: nat)
    requires f <= s
    ensures Start(f, w) <= Start(s, w)
    ensures f < s ==> Start(f, w) + w <= Start(s, w)
  {
    if f < s {
      Mono(f, s - 1, w);
    }
  }

  lemma StartOne(w: nat)
    ensures Start(1, w) == w
  {
    assert Start(1, w) == Start(0, w) + w;
  }

  lemma LastNodeHalves(size: nat, sn: nat, w: nat)
    requires LastNode(size, sn, w)
    ensures LastNode(size, sn / 2, 2 * w)
  {
    Halve(sn, w);
  }

  lemma RangeSplits(leaves: seq<Digest>, lo: nat, w: nat, hi: nat)
    requires IsPow2(w) && lo + w < hi <= |leaves| && hi <= lo + 2 * w
    ensures Root(leaves[lo..hi]) == Node(Root(leaves[lo..lo + w]), Root(leaves[lo + w..hi]))
  {
    var range := leaves[lo..hi];
    SplitPointIsLargest(|range|, w);
    assert range[..w] == leaves[lo..lo + w];
    assert range[w..] == leaves[lo + w..hi];
  }

  /** A node wider than w with both halves present hashes the two halves. */
  lemma NodeSplits(leaves: seq<Digest>, lo: nat, w: nat)
    requires IsPow2(w) && lo + w < |leaves|
    ensures NodeAt(leaves, lo, 2 * w) == Node(NodeAt(leaves, lo, w), NodeAt(leaves, lo + w, w))
  {
    hide Root;
    RangeSplits(leaves, lo, w, Cut(|leaves|, lo + 2 * w));
  }

  /** What the node with index f contributes to the path: a left sibling, a right sibling, or
      nothing when it is an even last node. */
  function SiblingOf(leaves: seq<Digest>, f: nat, sn: nat, w: nat): seq<Digest>
    requires f <= sn && LastNode(|leaves|, sn, w)
  {
    Mono(f, sn, w);
    if f % 2 == 1 then
      Mono(1, f, w);
      [NodeAt(leaves, Start(f, w) - w, w)]
    else if f == sn then []
    else [NodeAt(leaves, Start(f, w) + w, w)]
  }

  /** The siblings met on the way up from the node with index f at width w. */
  function LevelPath(leaves: seq<Digest>, f: nat, sn: nat, w: nat): seq<Digest>
    requires f <= sn && LastNode(|leaves|, sn, w)
    decreases sn
  {
    if sn == 0 then []
    else
      LastNodeHalves(|leaves|, sn, w);
      SiblingOf(leaves, f, sn, w) + LevelPath(leaves, f / 2, sn / 2, 2 * w)
  }

  lemma LevelPathTop(leaves: seq<Digest>, w: nat)
    requires LastNode(|leaves|, 0, w)
    ensures Start(0, w) == 0 && |leaves| <= w && LevelPath(leaves, 0, 0, w) == []
  {
  }

  lemma LevelPathStep(leaves: seq<Digest>, f: nat, sn: nat, w: nat)
    requires 0 < sn && f <= sn && LastNode(|leaves|, sn, w)
    ensures LastNode(|leaves|, sn / 2, 2 * w)
    ensures LevelPath(leaves, f, sn, w)
         == SiblingOf(leaves, f, sn, w) + LevelPath(leaves, f / 2, sn / 2, 2 * w)
  {
    hide Root, NodeAt, SiblingOf, Start, IsPow2;
    LastNodeHalves(|leaves|, sn, w);
  }

  lemma SiblingOfRight(leaves: seq<Digest>, f: nat, sn: nat, w: nat)
    requires LastNode(|leaves|, sn, w) && f % 2 == 0 && f < sn
    ensures Start(f, w) + w <= |leaves|
    ensures SiblingOf(leaves, f, sn, w) == [NodeAt(leaves, Start(f, w) + w, w)]
  {
    hide Root, NodeAt, Start, IsPow2;
    Mono(f, sn, w);
  }

  lemma SiblingRight(leaves: seq<Digest>, f: nat, sn: nat, w: nat)
    requires LastNode(|leaves|, sn, w) && f % 2 == 0 && f < sn
    ensures LastNode(|leaves|, sn / 2, 2 * w) && Start(f, w) + w <= |leaves|
    ensures LevelPath(leaves, f, sn, w)
         == [NodeAt(leaves, Start(f, w) + w, w)] + LevelPath(leaves, f / 2, sn / 2, 2 * w)
  {
    hide Root, NodeAt, LevelPath, Start, IsPow2, LastNode, SiblingOf;
    LevelPathStep(leaves, f, sn, w);
    SiblingOfRight(leaves, f, sn, w);
  }

  lemma SiblingLeft(leaves: seq<Digest>, f: nat, sn: nat, w: nat)
    requires LastNode(|leaves|, sn, w) && f % 2 == 1 && f <= sn
    ensures LastNode(|leaves|, sn / 2, 2 * w) && w <= Start(f, w) <= |leaves|
    ensures LevelPath(leaves, f, sn, w)
         == [NodeAt(leaves, Start(f, w) - w, w)] + LevelPath(leaves, f / 2, sn / 2, 2 * w)
  {
    hide Root, NodeAt, LevelPath, Start, IsPow2;
    LevelPathStep(leaves, f, sn, w);
    Mono(f, sn, w);
    Mono(1, f, w);
    StartOne(w);
  }

  /** An even last node has no sibling: its parent is the same range of leaves. */
  lemma SiblingNone(leaves: seq<Digest>, f: nat, w: nat)
    requires LastNode(|leaves|, f, w) && f % 2 == 0
    ensures LastNode(|leaves|, f / 2, 2 * w) && Start(f / 2, 2 * w) == Start(f, w) < |leaves|
    ensures LevelPath(leaves, f, f, w) == LevelPath(leaves, f / 2, f / 2, 2 * w)
    ensures NodeAt(leaves, Start(f, w), w) == NodeAt(leaves, Start(f, w), 2 * w)
  {
    hide Root, IsPow2;
    LastNodeHalves(|leaves|, f, w);
    Halve(f, w);
    if f > 0 {
      hide LevelPath, Start;
      LevelPathStep(leaves, f, f, w);
    }
  }

  /** The width at which an even last node becomes an odd one. */
  function OddWidth(f: nat, w: nat): nat
    requires f > 0
  {
    if f % 2 == 1 then w else OddWidth(f / 2, 2 * w)
  }

  lemma {:induction false} SkipEven(leaves: seq<Digest>, f: nat, w: nat)
    requires f > 0 && LastNode(|leaves|, f, w)
    ensures Start(OddPart(f), OddWidth(f, w)) == Start(f, w)
    ensures LastNode(|leaves|, OddPart(f), OddWidth(f, w))
    ensures LevelPath(leaves, f, f, w) == LevelPath(leaves, OddPart(f), OddPart(f), OddWidth(f, w))
  {
    hide Root, NodeAt, LevelPath, Start;
    if f % 2 == 0 {
      SiblingNone(leaves, f, w);
      SkipEven(leaves, f / 2, 2 * w);
    }
  }

  /** The node above an odd node hashes its left sibling and the node itself. */
  lemma ClimbOdd(leaves: seq<Digest>, f: nat, sn: nat, w: nat)
    requires f % 2 == 1 && f <= sn && LastNode(|leaves|, sn, w)
    ensures w <= Start(f, w) < |leaves| && LastNode(|leaves|, sn / 2, 2 * w)
    ensures Start(f / 2, 2 * w) == Start(f, w) - w
    ensures NodeAt(leaves, Start(f, w) - w, 2 * w)
         == Node(NodeAt(leaves, Start(f, w) - w, w), NodeAt(leaves, Start(f, w), w))
  {
    hide Root, NodeAt, LevelPath;
    Halve(f, w);
    Mono(f, sn, w);
    Mono(1, f, w);
    LastNodeHalves(|leaves|, sn, w);
    NodeSplits(leaves, Start(f, w) - w, w);
  }

  /** The node above an even node that has a right sibling. */
  lemma ClimbEven(leaves: seq<Digest>, f: nat, sn: nat, w: nat)
    requires f % 2 == 0 && f < sn && LastNode(|leaves|, sn, w)
    ensures Start(f, w) + w < |leaves| && LastNode(|leaves|, sn / 2, 2 * w)
    ensures Start(f / 2, 2 * w) == Start(f, w)
    ensures NodeAt(leaves, Start(f, w), 2 * w)
         == Node(NodeAt(leaves, Start(f, w), w), NodeAt(leaves, Start(f, w) + w, w))
  {
    hide Root, NodeAt, LevelPath;
    Halve(f, w);
    Mono(f, sn, w);
    LastNodeHalves(|leaves|, sn, w);
    NodeSplits(leaves, Start(f, w), w);
  }

  /** The walk ends at the root exactly when it starts at the node's own hash and is given that
      node's siblings: the path is unique, and no other hash reaches the root. */
  lemma {:induction false} WalkReachesRoot(leaves: seq<Digest>, f: nat, sn: nat, w: nat, computed: Digest,
                                           path: seq<Digest>)
    requires f <= sn && LastNode(|leaves|, sn, w)
    ensures Start(f, w) < |leaves|
    ensures Walk(f, sn, computed, path) == Some(Root(leaves))
       <==> computed == NodeAt(leaves, Start(f, w), w) && path == LevelPath(leaves, f, sn, w)
    decreases sn
  {
    hide Root, NodeAt, LevelPath, Start;
    if sn == 0 {
      LevelPathTop(leaves, w);
      NodeWhole(leaves, w);
    } else if f == sn && f % 2 == 0 {
      SkipEven(leaves, f, w);
      var g, v := OddPart(f), OddWidth(f, w);
      SiblingLeft(leaves, g, g, v);
      ClimbOdd(leaves, g, g, v);
      NodeSame(leaves, Start(f, w), w, v);
      if path != [] {
        WalkReachesRoot(leaves, g / 2, g / 2, 2 * v, Node(path[0], computed), path[1..]);
        assert path == [path[0]] + path[1..];
      }
    } else if f % 2 == 1 {
      SiblingLeft(leaves, f, sn, w);
      ClimbOdd(leaves, f, sn, w);
      if path != [] {
        WalkReachesRoot(leaves, f / 2, sn / 2, 2 * w, Node(path[0], computed), path[1..]);
        assert path == [path[0]] + path[1..];
      }
    } else {
      SiblingRight(leaves, f, sn, w);
      ClimbEven(leaves, f, sn, w);
      if path != [] {
        WalkReachesRoot(leaves, f / 2, sn / 2, 2 * w, Node(computed, path[0]), path[1..]);
        assert path == [path[0]] + path[1..];
      }
    }
  }

  // ---------------------------------------------------------------- inclusion

  lemma {:induction false} StartUnit(f: nat)
    ensures Start(f, 1) == f
  {
    if f > 0 {
      StartUnit(f - 1);
    }
  }

  /** The last node one level down. */
  lemma LastNodeBelow(size: nat, sn: nat, w: nat) returns (below: nat)
    requires IsPow2(w) && LastNode(size, sn, 2 * w)
    ensures below / 2 == sn && LastNode(size, below, w)
  {
    Halve(2 * sn, w);
    below := if Start(2 * sn, w) + w < size then 2 * sn + 1 else 2 * sn;
    assert Start(2 * sn + 1, w) == Start(2 * sn, w) + w;
  }

  lemma LastNodeUnique(size: nat, s: nat, t: nat, w: nat)
    requires LastNode(size, s, w) && LastNode(size, t, w)
    ensures s == t
  {
    if s < t {
      Mono(s, t, w);
    } else if t < s {
      Mono(t, s, w);
    }
  }

  /** The audit path of a leaf inside node f, followed by the siblings above the node. */
  function PathThrough(leaves: seq<Digest>, index: nat, f: nat, sn: nat, w: nat): seq<Digest>
    requires f <= sn && LastNode(|leaves|, sn, w)
    requires Start(f, w) <= index < Cut(|leaves|, Start(f, w) + w)
  {
    AuditPath(leaves[Start(f, w)..Cut(|leaves|, Start(f, w) + w)], index - Start(f, w)) + LevelPath(leaves, f, sn, w)
  }

  lemma ThroughOnlyChild(leaves: seq<Digest>, index: nat, f: nat, sn: nat, below: nat, w: nat)
    requires f <= sn && IsPow2(w) && LastNode(|leaves|, sn, 2 * w) && LastNode(|leaves|, below, w) && below / 2 == sn
    requires Start(f, 2 * w) <= index < Cut(|leaves|, Start(f, 2 * w) + 2 * w)
    requires Start(f, 2 * w) + w >= |leaves|
    ensures below == 2 * f && Start(2 * f, w) <= index < Cut(|leaves|, Start(2 * f, w) + w)
    ensures PathThrough(leaves, index, f, sn, 2 * w) == PathThrough(leaves, index, 2 * f, below, w)
  {
    hide Root, NodeAt, LevelPath, AuditPath, Start, IsPow2;
    ChildStarts(f, w);
    OnlyChild(|leaves|, f, below, w);
    SiblingNone(leaves, 2 * f, w);
  }

  lemma ThroughEitherChild(leaves: seq<Digest>, index: nat, f: nat, sn: nat, below: nat, w: nat)
    requires f <= sn && IsPow2(w) && LastNode(|leaves|, sn, 2 * w) && LastNode(|leaves|, below, w) && below / 2 == sn
    requires Start(f, 2 * w) <= index < Cut(|leaves|, Start(f, 2 * w) + 2 * w)
    requires Start(f, 2 * w) + w < |leaves|
    ensures var child := if index < Start(f, 2 * w) + w then 2 * f else 2 * f + 1;
      && child <= below && Start(child, w) <= index < Cut(|leaves|, Start(child, w) + w)
      && PathThrough(leaves, index, f, sn, 2 * w) == PathThrough(leaves, index, child, below, w)
  {
    hide Root, NodeAt, LevelPath, AuditPath, Start, IsPow2;
    var lo := Start(f, 2 * w);
    ChildStarts(f, w);
    BothChildren(|leaves|, f, below, w);
    AuditPathSplits(leaves, lo, w, Cut(|leaves|, lo + 2 * w), index);
    if index < lo + w {
      SiblingRight(leaves, 2 * f, below, w);
    } else {
      SiblingLeft(leaves, 2 * f + 1, below, w);
    }
  }

  /** The audit path of a leaf is the path inside a node followed by the siblings above it. */
  lemma {:induction false} AuditPathByLevels(leaves: seq<Digest>, index: nat, f: nat, sn: nat, w: nat)
    requires f <= sn && LastNode(|leaves|, sn, w) && LastNode(|leaves|, |leaves| - 1, 1)
    requires Start(f, w) <= index < Cut(|leaves|, Start(f, w) + w)
    ensures LevelPath(leaves, index, |leaves| - 1, 1) == PathThrough(leaves, index, f, sn, w)
    decreases w, 0
  {
    hide Root, NodeAt, LevelPath, AuditPath, Start, IsPow2, PathThrough, Cut, LastNode;
    if w == 1 {
      ThroughLeaf(leaves, index, f, sn);
    } else {
      LastNodeWidth(|leaves|, sn, w);
      WidthHalves(w);
      AuditPathBelow(leaves, index, f, sn, w / 2);
    }
  }

  lemma LastNodeWidth(size: nat, sn: nat, w: nat)
    requires LastNode(size, sn, w)
    ensures IsPow2(w) && w > 0
  {
  }

  lemma ThroughLeaf(leaves: seq<Digest>, index: nat, f: nat, sn: nat)
    requires f <= sn && LastNode(|leaves|, sn, 1) && LastNode(|leaves|, |leaves| - 1, 1)
    requires Start(f, 1) <= index < Cut(|leaves|, Start(f, 1) + 1)
    ensures LevelPath(leaves, index, |leaves| - 1, 1) == PathThrough(leaves, index, f, sn, 1)
  {
    hide Root, NodeAt, LevelPath, AuditPath, Start;
    StartUnit(f);
    LastNodeUnique(|leaves|, sn, |leaves| - 1, 1);
    AuditPathOfLeaf(leaves[f..f + 1]);
  }

  lemma {:induction false} AuditPathBelow(leaves: seq<Digest>, index: nat, f: nat, sn: nat, w: nat)
    requires f <= sn && LastNode(|leaves|, sn, 2 * w) && LastNode(|leaves|, |leaves| - 1, 1) && IsPow2(w)
    requires Start(f, 2 * w) <= index < Cut(|leaves|, Start(f, 2 * w) + 2 * w)
    ensures LevelPath(leaves, index, |leaves| - 1, 1) == PathThrough(leaves, index, f, sn, 2 * w)
    decreases w, 1
  {
    hide Root, NodeAt, LevelPath, AuditPath, Start, IsPow2, PathThrough, Cut, LastNode;
    var below := LastNodeBelow(|leaves|, sn, w);
    if Start(f, 2 * w) + w >= |leaves| {
      ThroughOnlyChild(leaves, index, f, sn, below, w);
      AuditPathByLevels(leaves, index, 2 * f, below, w);
    } else {
      ThroughEitherChild(leaves, index, f, sn, below, w);
      AuditPathByLevels(leaves, index, if index < Start(f, 2 * w) + w then 2 * f else 2 * f + 1, below, w);
    }
  }

  lemma WidthHalves(w: nat)
    requires IsPow2(w) && w > 1
    ensures IsPow2(w / 2) && w == 2 * (w / 2)
  {
  }

  lemma AuditPathOfLeaf(leaves: seq<Digest>)
    requires |leaves| == 1
    ensures AuditPath(leaves, 0) == []
  {
  }

  lemma ChildStarts(f: nat, w: nat)
    ensures Start(2 * f, w) == Start(f, 2 * w) && Start(2 * f + 1, w) == Start(f, 2 * w) + w
  {
    Halve(2 * f, w);
  }

  lemma OnlyChild(size: nat, f: nat, sn: nat, w: nat)
    requires LastNode(size, sn, w) && 2 * f <= sn && Start(2 * f, w) + w >= size
    ensures sn == 2 * f
  {
    Mono(2 * f, sn, w);
  }

  lemma BothChildren(size: nat, f: nat, sn: nat, w: nat)
    requires LastNode(size, sn, w) && Start(2 * f, w) + w < size
    ensures 2 * f + 1 <= sn
  {
    if sn <= 2 * f {
      Mono(sn, 2 * f, w);
    }
  }

  lemma AuditPathSplits(leaves: seq<Digest>, lo: nat, w: nat, hi: nat, index: nat)
    requires IsPow2(w) && lo + w < hi && hi == Cut(|leaves|, lo + 2 * w)
    requires lo <= index < hi
    ensures AuditPath(leaves[lo..hi], index - lo)
         == if index < lo + w
            then AuditPath(leaves[lo..lo + w], index - lo) + [NodeAt(leaves, lo + w, w)]
            else AuditPath(leaves[lo + w..hi], index - lo - w) + [NodeAt(leaves, lo, w)]
  {
    hide Root;
    var range := leaves[lo..hi];
    assert NodeAt(leaves, lo + w, w) == Root(leaves[lo + w..hi]) && NodeAt(leaves, lo, w) == Root(leaves[lo..lo + w]);
    hide NodeAt, Cut;
    AuditPathUnfolds(range, w, index - lo);
    assert range[..w] == leaves[lo..lo + w];
    assert range[w..] == leaves[lo + w..hi];
  }

  lemma AuditPathUnfolds(leaves: seq<Digest>, k: nat, index: nat)
    requires IsPow2(k) && k < |leaves| <= 2 * k && index < |leaves|
    ensures AuditPath(leaves, index)
         == if index < k then AuditPath(leaves[..k], index) + [Root(leaves[k..])]
            else AuditPath(leaves[k..], index - k) + [Root(leaves[..k])]
  {
    hide Root;
    SplitPointIsLargest(|leaves|, k);
  }

  lemma AuditPathIsLevelPath(leaves: seq<Digest>, index: nat)
    requires index < |leaves|
    ensures LastNode(|leaves|, |leaves| - 1, 1)
    ensures AuditPath(leaves, index) == LevelPath(leaves, index, |leaves| - 1, 1)
  {
    hide Root;
    StartUnit(|leaves| - 1);
    var w := 2 * Pow2(FloorLog2(|leaves|));
    FloorLog2Bounds(|leaves|);
    AuditPathByLevels(leaves, index, 0, 0, w);
    assert leaves[0..|leaves|] == leaves;
  }

  lemma {:induction false} LevelPathLength(leaves: seq<Digest>, f: nat, sn: nat, w: nat)
    requires f <= sn && LastNode(|leaves|, sn, w)
    ensures |LevelPath(leaves, f, sn, w)| <= BitLength(sn)
    decreases sn
  {
    hide Root, NodeAt;
    if sn > 0 {
      LastNodeHalves(|leaves|, sn, w);
      LevelPathLength(leaves, f / 2, sn / 2, 2 * w);
    }
  }

  lemma RootOfLeaf(leaf: Digest)
    ensures Root([leaf]) == leaf
  {
  }

  /** The verifier of inclusion proofs, against the root of a tree it cannot see: it accepts a
      leaf hash, an index and a path exactly when the leaf is the one at that index and the path
      is the tree's own audit path. */
  lemma InclusionVerifierIsExact(leaves: seq<Digest>, leafHash: Digest, index: nat, path: seq<Digest>)
    requires |leaves| <= MAX_TREE_SIZE && index < |leaves|
    ensures InclusionAccepted(leafHash, index, |leaves|, path, Root(leaves))
       <==> leafHash == leaves[index] && path == AuditPath(leaves, index)
  {
    hide Root, LevelPath, AuditPath, Walk;
    AuditPathIsLevelPath(leaves, index);
    StartUnit(index);
    assert leaves[index..index + 1] == [leaves[index]];
    assert NodeAt(leaves, index, 1) == Root([leaves[index]]);
    RootOfLeaf(leaves[index]);
    WalkReachesRoot(leaves, index, |leaves| - 1, 1, leafHash, path);
    LevelPathLength(leaves, index, |leaves| - 1, 1);
  }

  // ---------------------------------------------------------------- consistency

  /** Along a tree's own path, the second hash of the consistency walk reaches the root of the
      smaller tree. */
  lemma {:induction false} FromWalkReachesFromRoot(leaves: seq<Digest>, fromSize: nat, f: nat, sn: nat, w: nat)
    requires fromSize <= |leaves| && f <= sn
    requires LastNode(|leaves|, sn, w) && LastNode(fromSize, f, w)
    ensures FromWalk(f, sn, NodeAt(leaves[..fromSize], Start(f, w), w), LevelPath(leaves, f, sn, w))
         == Root(leaves[..fromSize])
    decreases sn
  {
    hide Root, NodeAt, LevelPath;
    var early := leaves[..fromSize];
    if sn == 0 {
      assert early[0..|early|] == early;
      NodeWhole(early, w);
    } else if f % 2 == 1 {
      FromClimbOdd(leaves, fromSize, f, sn, w);
      FromWalkReachesFromRoot(leaves, fromSize, f / 2, sn / 2, 2 * w);
    } else if f == sn {
      SkipEven(leaves, f, w);
      SkipEven(early, f, w);
      var g, v := OddPart(f), OddWidth(f, w);
      FromClimbOdd(leaves, fromSize, g, g, v);
      FromWalkReachesFromRoot(leaves, fromSize, g / 2, g / 2, 2 * v);
      NodeSame(early, Start(f, w), w, v);
    } else {
      SiblingRight(leaves, f, sn, w);
      LastNodeHalves(fromSize, f, w);
      Halve(f, w);
      NodeSame(early, Start(f, w), w, 2 * w);
      FromWalkReachesFromRoot(leaves, fromSize, f / 2, sn / 2, 2 * w);
    }
  }

  /** The last node of the smaller tree and its parent share their left sibling with the larger. */
  lemma FromClimbOdd(leaves: seq<Digest>, fromSize: nat, f: nat, sn: nat, w: nat)
    requires fromSize <= |leaves| && f % 2 == 1 && f <= sn
    requires LastNode(|leaves|, sn, w) && LastNode(fromSize, f, w)
    ensures LastNode(|leaves|, sn / 2, 2 * w) && LastNode(fromSize, f / 2, 2 * w)
    ensures w <= Start(f, w) && LevelPath(leaves, f, sn, w)
         == [NodeAt(leaves, Start(f, w) - w, w)] + LevelPath(leaves, f / 2, sn / 2, 2 * w)
    ensures NodeAt(leaves[..fromSize], Start(f / 2, 2 * w), 2 * w)
         == Node(NodeAt(leaves, Start(f, w) - w, w), NodeAt(leaves[..fromSize], Start(f, w), w))
  {
    hide *;
    SiblingLeft(leaves, f, sn, w);
    FromClimbNode(leaves, fromSize, f, w);
  }

  lemma FromClimbNode(leaves: seq<Digest>, fromSize: nat, f: nat, w: nat)
    requires fromSize <= |leaves| && f % 2 == 1 && LastNode(fromSize, f, w)
    ensures LastNode(fromSize, f / 2, 2 * w) && w <= Start(f, w) < fromSize
    ensures Start(f / 2, 2 * w) == Start(f, w) - w
    ensures NodeAt(leaves[..fromSize], Start(f, w) - w, 2 * w)
         == Node(NodeAt(leaves, Start(f, w) - w, w), NodeAt(leaves[..fromSize], Start(f, w), w))
  {
    hide *;
    ClimbOdd(leaves[..fromSize], f, f, w);
    NodeAtOfPrefix(leaves, fromSize, Start(f, w) - w, w);
  }

  /** A node inside the smaller tree is the same node of the larger one. */
  lemma NodeAtOfPrefix(leaves: seq<Digest>, fromSize: nat, lo: nat, w: nat)
    requires lo + w <= fromSize <= |leaves|
    ensures NodeAt(leaves[..fromSize], lo, w) == NodeAt(leaves, lo, w)
  {
    hide Root;
    assert leaves[..fromSize][lo..lo + w] == leaves[lo..lo + w];
  }
}
