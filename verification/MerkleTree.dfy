/** The executable half: the append-only tree with its memo table of subtree roots, and the two
    verifiers as the loops they are. */
module MerkleTree {
  import opened Wrappers
  import opened Merkle
  import opened MerkleProofs

  function Reversed(path: seq<Digest>): seq<Digest>
  {
    if path == [] then [] else Reversed(path[1..]) + [path[0]]
  }

  lemma {:induction false} ReversedPush(path: seq<Digest>, d: Digest)
    ensures Reversed(path + [d]) == [d] + Reversed(path)
  {
    if path != [] {
      assert (path + [d])[1..] == path[1..] + [d];
      ReversedPush(path[1..], d);
    }
  }

  lemma AuditPathStep(leaves: seq<Digest>, start: nat, k: nat, end: nat, index: nat)
    requires IsPow2(k) && start + k < end <= start + 2 * k && end <= |leaves| && index < end - start
    ensures AuditPath(leaves[start..end], index)
         == if index < k then AuditPath(leaves[start..start + k], index) + [Root(leaves[start + k..end])]
            else AuditPath(leaves[start + k..end], index - k) + [Root(leaves[start..start + k])]
  {
    hide Root, SplitPoint, IsPow2, AuditPath;
    var range := leaves[start..end];
    SplitPointIsLargest(|range|, k);
    AuditPathUnfolds(range, index);
    assert range[..k] == leaves[start..start + k];
    assert range[k..] == leaves[start + k..end];
  }

  lemma AuditPathUnfolds(range: seq<Digest>, index: nat)
    requires |range| > 1 && index < |range|
    ensures var k := SplitPoint(|range|);
      && 0 < k < |range|
      && AuditPath(range, index)
         == if index < k then AuditPath(range[..k], index) + [Root(range[k..])]
            else AuditPath(range[k..], index - k) + [Root(range[..k])]
  {
    FloorLog2Bounds(|range| - 1);
    hide Root, FloorLog2, Pow2;
  }

  lemma SubProofUnfolds(range: seq<Digest>, m: nat, complete: bool)
    requires 0 < m < |range|
    ensures var k := SplitPoint(|range|);
      && 0 < k < |range|
      && SubProof(m, range, complete)
         == if m <= k then SubProof(m, range[..k], complete) + [Root(range[k..])]
            else SubProof(m - k, range[k..], false) + [Root(range[..k])]
  {
    FloorLog2Bounds(|range| - 1);
    hide Root, FloorLog2, Pow2;
  }

  lemma SubProofStep(leaves: seq<Digest>, start: nat, k: nat, end: nat, m: nat, complete: bool)
    requires IsPow2(k) && start + k < end <= start + 2 * k && end <= |leaves| && 0 < m < end - start
    ensures SubProof(m, leaves[start..end], complete)
         == if m <= k then SubProof(m, leaves[start..start + k], complete) + [Root(leaves[start + k..end])]
            else SubProof(m - k, leaves[start + k..end], false) + [Root(leaves[start..start + k])]
  {
    hide Root, SplitPoint, IsPow2, SubProof;
    var range := leaves[start..end];
    SplitPointIsLargest(|range|, k);
    SubProofUnfolds(range, m, complete);
    assert range[..k] == leaves[start..start + k];
    assert range[k..] == leaves[start + k..end];
  }

  lemma SubProofEnd(leaves: seq<Digest>, complete: bool)
    requires leaves != []
    ensures SubProof(|leaves|, leaves, complete) == if complete then [] else [Root(leaves)]
  {
    hide Root;
  }

  class Tree {
    var leaves: seq<Digest>
    var cache: map<(nat, nat), Digest>

    /** Every memoized range still lies inside the leaves and still has the memoized root. */
    ghost predicate Valid()
      reads this
    {
      forall r <- cache :: r.0 <= r.1 <= |leaves| && cache[r] == Root(leaves[r.0..r.1])
    }

    constructor (leafHashes: seq<Digest>)
      ensures Valid() && leaves == leafHashes
    {
      leaves := leafHashes;
      cache := map[];
    }

    /** Appending keeps every memoized subtree root true of the longer tree. */
    method Append(leafHash: Digest) returns (index: nat)
      requires Valid()
      modifies this`leaves
      ensures Valid() && leaves == old(leaves) + [leafHash] && index == |old(leaves)|
    {
      hide Root;
      ghost var before := leaves;
      leaves := leaves + [leafHash];
      index := |leaves| - 1;
      forall r | r in cache
        ensures r.0 <= r.1 <= |leaves| && cache[r] == Root(leaves[r.0..r.1])
      {
        assert leaves[r.0..r.1] == before[r.0..r.1];
      }
    }

    method RangeRoot(start: nat, end: nat) returns (root: Digest)
      requires Valid() && start <= end <= |leaves|
      modifies this`cache
      ensures Valid() && root == Root(leaves[start..end])
      decreases end - start
    {
      if end - start == 0 {
        return EmptyRoot;
      }
      if end - start == 1 {
        return leaves[start];
      }
      if (start, end) in cache {
        return cache[(start, end)];
      }
      SplitPointIsLargest(end - start, 1);
      var k := SplitPoint(end - start);
      var left := RangeRoot(start, start + k);
      var right := RangeRoot(start + k, end);
      root := Node(left, right);
      assert root == Root(leaves[start..end]) by {
        SplitPointIsLargest(end - start, k);
        RangeSplits(leaves, start, k, end);
      }
      Memoize(start, end, root);
    }

    method Memoize(start: nat, end: nat, root: Digest)
      requires Valid() && start <= end <= |leaves| && root == Root(leaves[start..end])
      modifies this`cache
      ensures Valid() && cache == old(cache)[(start, end) := root]
    {
      hide Root;
      cache := cache[(start, end) := root];
    }

    /** The root an earlier, smaller tree had; None where the source throws. */
    method RootAt(size: int) returns (root: Option<Digest>)
      requires Valid()
      modifies this`cache
      ensures Valid()
      ensures root == if 0 <= size <= |leaves| then Some(Root(leaves[..size])) else None
    {
      if size < 0 || size > |leaves| {
        return None;
      }
      var r := RangeRoot(0, size);
      assert leaves[0..size] == leaves[..size];
      return Some(r);
    }

    /** Collects the siblings from the root down and reverses them. */
    method InclusionProof(leafIndex: int) returns (proof: Option<seq<Digest>>)
      requires Valid()
      modifies this`cache
      ensures Valid()
      ensures proof == if 0 <= leafIndex < |leaves| then Some(AuditPath(leaves, leafIndex)) else None
    {
      hide Root, AuditPath, SplitPoint, IsPow2;
      if leafIndex < 0 || leafIndex >= |leaves| {
        return None;
      }
      var path: seq<Digest> := [];
      var start, end, index := 0, |leaves|, leafIndex;
      assert leaves[0..|leaves|] == leaves;
      while end - start > 1
        invariant Valid() && 0 <= start < end <= |leaves| && 0 <= index < end - start
        invariant AuditPath(leaves, leafIndex) == AuditPath(leaves[start..end], index) + Reversed(path)
        decreases end - start
      {
        var k := SplitPoint(end - start);
        SplitPointIsLargest(end - start, k);
        AuditPathStep(leaves, start, k, end, index);
        if index < k {
          var sibling := RangeRoot(start + k, end);
          ReversedPush(path, sibling);
          path := path + [sibling];
          end := start + k;
        } else {
          var sibling := RangeRoot(start, start + k);
          ReversedPush(path, sibling);
          path := path + [sibling];
          index := index - k;
          start := start + k;
        }
      }
      AuditPathOfLeaf(leaves[start..end]);
      assert [] + Reversed(path) == Reversed(path);
      return Some(Reversed(path));
    }

    method SubProofInto(start: nat, end: nat, m: nat, complete: bool, out: seq<Digest>) returns (proof: seq<Digest>)
      requires Valid() && 0 < m <= end - start && start <= end <= |leaves|
      modifies this`cache
      ensures Valid() && proof == out + SubProof(m, leaves[start..end], complete)
      decreases end - start
    {
      hide Root, SubProof, SplitPoint, IsPow2;
      if m == end - start {
        SubProofEnd(leaves[start..end], complete);
        if complete {
          return out;
        }
        var root := RangeRoot(start, end);
        return out + [root];
      }
      var k := SplitPoint(end - start);
      SplitPointIsLargest(end - start, k);
      SubProofStep(leaves, start, k, end, m, complete);
      if m <= k {
        proof := SubProofInto(start, start + k, m, complete, out);
        var root := RangeRoot(start + k, end);
        proof := proof + [root];
      } else {
        proof := SubProofInto(start + k, end, m - k, false, out);
        var root := RangeRoot(start, start + k);
        proof := proof + [root];
      }
    }

    method ConsistencyProof(fromSize: int) returns (proof: Option<seq<Digest>>)
      requires Valid()
      modifies this`cache
      ensures Valid()
      ensures proof == if 0 <= fromSize <= |leaves| then Some(ConsistencyPath(leaves, fromSize)) else None
    {
      if fromSize < 0 || fromSize > |leaves| {
        return None;
      }
      if fromSize == 0 || fromSize == |leaves| {
        return Some([]);
      }
      var path := SubProofInto(0, |leaves|, fromSize, true, []);
      assert leaves[0..|leaves|] == leaves;
      assert path == SubProof(fromSize, leaves, true);
      return Some(path);
    }
  }

  // ---------------------------------------------------------------- verifiers

  /** Halve both indices of an even last node until they are odd. */
  method SkipRightEdge(f: nat) returns (g: nat)
    requires f > 0 && f % 2 == 0
    ensures g == OddPart(f)
  {
    g := f / 2;
    while g % 2 == 0 && g != 0
      invariant 0 < g && OddPart(g) == OddPart(f)
    {
      g := g / 2;
    }
  }

  method VerifyInclusion(leafHash: Digest, leafIndex: int, treeSize: int, path: seq<Digest>, root: Digest)
    returns (ok: bool)
    ensures ok == InclusionAccepted(leafHash, leafIndex, treeSize, path, root)
  {
    if !(0 <= leafIndex <= MAX_TREE_SIZE && 0 <= treeSize <= MAX_TREE_SIZE) || leafIndex >= treeSize {
      return false;
    }
    if |path| > MaxPathLength(treeSize) {
      return false;
    }
    var fn, sn, computed := leafIndex, treeSize - 1, leafHash;
    for i := 0 to |path|
      invariant 0 <= fn <= sn
      invariant Walk(fn, sn, computed, path[i..]) == Walk(leafIndex, treeSize - 1, leafHash, path)
    {
      assert path[i..][0] == path[i] && path[i..][1..] == path[i + 1..];
      if sn == 0 {
        return false;
      }
      if fn % 2 == 1 || fn == sn {
        computed := Node(path[i], computed);
        if fn % 2 == 0 {
          fn := SkipRightEdge(fn);
          sn := fn;
        }
      } else {
        computed := Node(computed, path[i]);
      }
      fn, sn := fn / 2, sn / 2;
    }
    return sn == 0 && computed == root;
  }

  method VerifyConsistency(fromSize: int, toSize: int, fromRoot: Digest, toRoot: Digest, path: seq<Digest>)
    returns (ok: bool)
    ensures ok == ConsistencyAccepted(fromSize, toSize, fromRoot, toRoot, path)
  {
    if !(0 <= fromSize <= MAX_TREE_SIZE && 0 <= toSize <= MAX_TREE_SIZE) || fromSize > toSize {
      return false;
    }
    if fromSize == toSize {
      return path == [] && fromRoot == toRoot;
    }
    if fromSize == 0 {
      return path == [] && fromRoot == EmptyRoot;
    }
    if |path| > MaxPathLength(toSize) {
      return false;
    }
    var proof := if IsPow2(fromSize) then [fromRoot] + path else path;
    if proof == [] {
      return false;
    }
    var fn, sn := fromSize - 1, toSize - 1;
    while fn % 2 == 1
      invariant 0 <= fn <= sn
      invariant StripOnes(fn) == StripOnes(fromSize - 1)
      invariant StripWith(fn, sn) == StripWith(fromSize - 1, toSize - 1)
      decreases fn
    {
      fn, sn := fn / 2, sn / 2;
    }
    ghost var fn0, sn0 := fn, sn;
    var fr, sr := proof[0], proof[0];
    var rest := proof[1..];
    for i := 0 to |rest|
      invariant 0 <= fn <= sn
      invariant Walk(fn, sn, sr, rest[i..]) == Walk(fn0, sn0, proof[0], rest)
      invariant FromWalk(fn, sn, fr, rest[i..]) == FromWalk(fn0, sn0, proof[0], rest)
    {
      assert rest[i..][0] == rest[i] && rest[i..][1..] == rest[i + 1..];
      if sn == 0 {
        return false;
      }
      if fn % 2 == 1 || fn == sn {
        fr, sr := Node(rest[i], fr), Node(rest[i], sr);
        if fn % 2 == 0 {
          fn := SkipRightEdge(fn);
          sn := fn;
        }
      } else {
        sr := Node(sr, rest[i]);
      }
      fn, sn := fn / 2, sn / 2;
    }
    return sn == 0 && fr == fromRoot && sr == toRoot;
  }
}
