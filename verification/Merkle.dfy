/** RFC 6962 Merkle trees over ordered leaf hashes: the tree hash of section 2.1, the audit
    path of section 2.1.1, the consistency proof of section 2.1.2, and the two verifiers that
    see only sizes, roots and a path.

    SHA-256 with its domain prefixes is modelled symbolically: a digest is the term that was
    hashed, so the constructors are injective and the three domains are disjoint. */
module Merkle {
  import opened Wrappers

  datatype Digest =
    | EmptyRoot
    | Leaf(sequence: nat, entryHash: Digest)
    | Node(left: Digest, right: Digest)
    | Opaque(id: nat)

  // ---------------------------------------------------------------- powers of two

  predicate IsPow2(w: nat)
  {
    w == 1 || (w > 1 && w % 2 == 0 && IsPow2(w / 2))
  }

  /** floor(log2(m)), which the source computes as 31 - clz32(m). */
  function FloorLog2(m: nat): nat
    requires m > 0
  {
    if m == 1 then 0 else 1 + FloorLog2(m / 2)
  }

  function Pow2(e: nat): (w: nat)
    ensures w > 0 && IsPow2(w)
  {
    if e == 0 then 1 else 2 * Pow2(e - 1)
  }

  function BitLength(m: nat): nat
  {
    if m == 0 then 0 else 1 + BitLength(m / 2)
  }

  /** Largest power of two strictly below the size. */
  function SplitPoint(size: nat): nat
    requires size > 1
  {
    Pow2(FloorLog2(size - 1))
  }

  lemma {:induction false} FloorLog2Bounds(m: nat)
    requires m > 0
    ensures Pow2(FloorLog2(m)) <= m < 2 * Pow2(FloorLog2(m))
  {
    if m > 1 {
      FloorLog2Bounds(m / 2);
    }
  }

  lemma {:induction false} Pow2Gap(v: nat, w: nat)
    requires IsPow2(v) && IsPow2(w) && v < w
    ensures 2 * v <= w
  {
    if v > 1 {
      Pow2Gap(v / 2, w / 2);
    }
  }

  lemma {:induction false} SplitPointIsLargest(size: nat, w: nat)
    requires size > 1
    ensures SplitPoint(size) < size <= 2 * SplitPoint(size)
    ensures IsPow2(w) && w < size <= 2 * w <==> w == SplitPoint(size)
  {
    FloorLog2Bounds(size - 1);
    var k := SplitPoint(size);
    if IsPow2(w) && w < size <= 2 * w {
      if w < k {
        Pow2Gap(w, k);
      } else if k < w {
        Pow2Gap(k, w);
      }
    }
  }

  // ---------------------------------------------------------------- tree hash and proofs

  /** MTH(D[n]) of section 2.1. */
  function Root(leaves: seq<Digest>): Digest
    decreases |leaves|
  {
    if |leaves| == 0 then EmptyRoot
    else if |leaves| == 1 then leaves[0]
    else
      SplitPointIsLargest(|leaves|, 1);
      var k := SplitPoint(|leaves|);
      Node(Root(leaves[..k]), Root(leaves[k..]))
  }

  /** PATH(m, D[n]) of section 2.1.1, leaf sibling first. */
  function AuditPath(leaves: seq<Digest>, index: nat): seq<Digest>
    requires index < |leaves|
    decreases |leaves|
  {
    if |leaves| == 1 then []
    else
      SplitPointIsLargest(|leaves|, 1);
      var k := SplitPoint(|leaves|);
      if index < k then AuditPath(leaves[..k], index) + [Root(leaves[k..])]
      else AuditPath(leaves[k..], index - k) + [Root(leaves[..k])]
  }

  /** SUBPROOF(m, D[n], b) of section 2.1.2. */
  function SubProof(m: nat, leaves: seq<Digest>, complete: bool): seq<Digest>
    requires 0 < m <= |leaves|
    decreases |leaves|
  {
    if m == |leaves| then (if complete then [] else [Root(leaves)])
    else
      SplitPointIsLargest(|leaves|, 1);
      var k := SplitPoint(|leaves|);
      if m <= k then SubProof(m, leaves[..k], complete) + [Root(leaves[k..])]
      else SubProof(m - k, leaves[k..], false) + [Root(leaves[..k])]
  }

  /** PROOF(m, D[n]); empty for the two degenerate sizes. */
  function ConsistencyPath(leaves: seq<Digest>, fromSize: nat): seq<Digest>
    requires fromSize <= |leaves|
  {
    if fromSize == 0 || fromSize == |leaves| then [] else SubProof(fromSize, leaves, true)
  }

  // ---------------------------------------------------------------- root injectivity

  /** Two equally long leaf lists with one root are the same list. */
  lemma {:induction false} RootInjective(a: seq<Digest>, b: seq<Digest>)
    requires |a| == |b| && Root(a) == Root(b)
    ensures a == b
    decreases |a|
  {
    if |a| > 1 {
      SplitPointIsLargest(|a|, 1);
      var k := SplitPoint(|a|);
      RootInjective(a[..k], b[..k]);
      RootInjective(a[k..], b[k..]);
      assert a == a[..k] + a[k..] && b == b[..k] + b[k..];
    }
  }

  // ---------------------------------------------------------------- verifiers

  /** Sizes the 32-bit shifts of the verifier can represent. */
  const MAX_TREE_SIZE: nat := 0xFFFF_FFFF

  function MaxPathLength(size: nat): nat
    requires size > 0
  {
    BitLength(size - 1) + 1
  }

  /** What halving until the low bit is set leaves of a positive number. */
  function OddPart(f: nat): (g: nat)
    requires f > 0
    ensures 0 < g <= f && g % 2 == 1
  {
    if f % 2 == 1 then f else OddPart(f / 2)
  }

  /** The walk both verifiers make up the tree: the hash it reaches, or None if the path is too
      short or too long. */
  function Walk(fn: nat, sn: nat, computed: Digest, path: seq<Digest>): Option<Digest>
    requires fn <= sn
    decreases |path|
  {
    if path == [] then (if sn == 0 then Some(computed) else None)
    else if sn == 0 then None
    else if fn == sn && fn % 2 == 0 then
      Walk(OddPart(fn) / 2, OddPart(fn) / 2, Node(path[0], computed), path[1..])
    else if fn % 2 == 1 then
      Walk(fn / 2, sn / 2, Node(path[0], computed), path[1..])
    else
      Walk(fn / 2, sn / 2, Node(computed, path[0]), path[1..])
  }

  /** The smaller tree's hash along the same walk. */
  function FromWalk(fn: nat, sn: nat, computed: Digest, path: seq<Digest>): Digest
    requires fn <= sn
    decreases |path|
  {
    if path == [] || sn == 0 then computed
    else if fn == sn && fn % 2 == 0 then
      FromWalk(OddPart(fn) / 2, OddPart(fn) / 2, Node(path[0], computed), path[1..])
    else if fn % 2 == 1 then
      FromWalk(fn / 2, sn / 2, Node(path[0], computed), path[1..])
    else
      FromWalk(fn / 2, sn / 2, computed, path[1..])
  }

  predicate InclusionAccepted(leafHash: Digest, leafIndex: int, treeSize: int, path: seq<Digest>, root: Digest)
  {
    && 0 <= leafIndex < treeSize <= MAX_TREE_SIZE
    && |path| <= MaxPathLength(treeSize)
    && Walk(leafIndex, treeSize - 1, leafHash, path) == Some(root)
  }

  /** Halve while the low bit is set. */
  function StripOnes(f: nat): nat
  {
    if f % 2 == 1 then StripOnes(f / 2) else f
  }

  /** The second index, shifted as often as StripOnes shifts the first. */
  function StripWith(f: nat, s: nat): nat
  {
    if f % 2 == 1 then StripWith(f / 2, s / 2) else s
  }

  lemma {:induction false} StripOrder(f: nat, s: nat)
    requires f <= s
    ensures StripOnes(f) <= StripWith(f, s)
  {
    if f % 2 == 1 {
      StripOrder(f / 2, s / 2);
    }
  }

  predicate ConsistencyAccepted(fromSize: int, toSize: int, fromRoot: Digest, toRoot: Digest, path: seq<Digest>)
  {
    && 0 <= fromSize <= toSize <= MAX_TREE_SIZE
    && if fromSize == toSize then path == [] && fromRoot == toRoot
       else if fromSize == 0 then path == [] && fromRoot == EmptyRoot
       else
         && |path| <= MaxPathLength(toSize)
         && var proof := if IsPow2(fromSize) then [fromRoot] + path else path;
            && proof != []
            && (StripOrder(fromSize - 1, toSize - 1);
                var fn, sn := StripOnes(fromSize - 1), StripWith(fromSize - 1, toSize - 1);
                && Walk(fn, sn, proof[0], proof[1..]) == Some(toRoot)
                && FromWalk(fn, sn, proof[0], proof[1..]) == fromRoot)
  }
}
