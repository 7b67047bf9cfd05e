/** The hash is an arbitrary function on lists of field elements. */
module Hashing {

  type Hash = seq<int> -> int

  ghost predicate Injective(h: Hash) {
    forall a, b :: h(a) == h(b) ==> a == b
  }

  /** A concrete collision: two different inputs with one hash. */
  ghost predicate Collision(h: Hash, a: seq<int>, b: seq<int>) {
    a != b && h(a) == h(b)
  }
}

/** The reference: the plain recursive hash of the padded leaf sequence, and Merkle paths in it. */
module MerkleSpec {
  import opened Hashing

  function Pow2(n: nat): (p: nat)
    ensures p >= 1
  {
    if n == 0 then 1 else 2 * Pow2(n - 1)
  }

  function PaddedLeaf(zero: int, leaves: seq<int>, index: nat): int {
    if index < |leaves| then leaves[index] else zero
  }

  /** The node at a level of the infinite tree over `leaves` padded with `zero`. */
  function Node(h: Hash, zero: int, leaves: seq<int>, level: nat, index: nat): int
    decreases level
  {
    if level == 0 then PaddedLeaf(zero, leaves, index)
    else h([Node(h, zero, leaves, level - 1, 2 * index), Node(h, zero, leaves, level - 1, 2 * index + 1)])
  }

  function Padded(zero: int, leaves: seq<int>, from: nat, count: nat): (s: seq<int>)
    ensures |s| == count
  {
    seq(count, i requires 0 <= i => PaddedLeaf(zero, leaves, from + i))
  }

  /** Hash a sequence of 2^level values by halves, with no tree at all. */
  function HalvesHash(h: Hash, level: nat, s: seq<int>): int
    requires |s| == Pow2(level)
  {
    if level == 0 then s[0]
    else
      var m := Pow2(level - 1);
      h([HalvesHash(h, level - 1, s[..m]), HalvesHash(h, level - 1, s[m..])])
  }

  lemma PaddedHalves(zero: int, leaves: seq<int>, from: nat, m: nat)
    ensures Padded(zero, leaves, from, 2 * m)[..m] == Padded(zero, leaves, from, m)
    ensures Padded(zero, leaves, from, 2 * m)[m..] == Padded(zero, leaves, from + m, m)
  {
  }

  lemma HalvesOffsets(index: nat, m: nat)
    ensures index * (2 * m) == (2 * index) * m && (2 * index + 1) * m == (2 * index) * m + m
  {
  }

  /** Node `index` of a level is the hash by halves of the 2^level padded leaves below it. */
  lemma {:induction false} NodeIsHalvesHash(h: Hash, zero: int, leaves: seq<int>, level: nat, index: nat, from: nat)
    requires from == index * Pow2(level)
    ensures Node(h, zero, leaves, level, index) == HalvesHash(h, level, Padded(zero, leaves, from, Pow2(level)))
  {
    if level > 0 {
      var m := Pow2(level - 1);
      HalvesOffsets(index, m);
      PaddedHalves(zero, leaves, from, m);
      NodeIsHalvesHash(h, zero, leaves, level - 1, 2 * index, from);
      NodeIsHalvesHash(h, zero, leaves, level - 1, 2 * index + 1, from + m);
    }
  }

  /** The ancestor of a leaf `level` levels up: halve the index `level` times. */
  function Ancestor(index: nat, level: nat): nat {
    if level == 0 then index else Ancestor(index, level - 1) / 2
  }

  lemma {:induction false} AncestorOfHalf(index: nat, level: nat)
    ensures Ancestor(index / 2, level) == Ancestor(index, level + 1)
  {
    if level > 0 {
      AncestorOfHalf(index, level - 1);
    }
  }

  lemma {:induction false} AncestorIsZero(index: nat, level: nat)
    ensures Ancestor(index, level) == 0 <==> index < Pow2(level)
  {
    if level > 0 {
      AncestorOfHalf(index, level - 1);
      AncestorIsZero(index / 2, level - 1);
    }
  }

  function Sibling(index: nat): nat {
    if index % 2 == 1 then index - 1 else index + 1
  }

  /** The ordered pair of children hashed one level up from `current` at `index`. */
  function ChildPair(current: int, index: nat, sibling: int): seq<int> {
    if index % 2 == 1 then [sibling, current] else [current, sibling]
  }

  /** The root a path leads to. */
  function FoldPath(h: Hash, current: int, index: nat, path: seq<int>): int
    decreases |path|
  {
    if path == [] then current
    else FoldPath(h, h(ChildPair(current, index, path[0])), index / 2, path[1..])
  }

  /** The path of siblings of leaf `index` from `level` up to `level + count`. */
  function SiblingPath(h: Hash, zero: int, leaves: seq<int>, level: nat, index: nat, count: nat): (path: seq<int>)
    ensures |path| == count
    decreases count
  {
    if count == 0 then []
    else [Node(h, zero, leaves, level, Sibling(index))] + SiblingPath(h, zero, leaves, level + 1, index / 2, count - 1)
  }

  /** The children of the parent of `index`, written with the node and its sibling. */
  lemma ParentOfPair(h: Hash, zero: int, leaves: seq<int>, level: nat, index: nat)
    ensures Node(h, zero, leaves, level + 1, index / 2)
         == h(ChildPair(Node(h, zero, leaves, level, index), index, Node(h, zero, leaves, level, Sibling(index))))
  {
    assert index == 2 * (index / 2) + index % 2;
  }

  /** Appending a leaf changes only the nodes on its own path to the root. */
  lemma {:induction false} AppendOffPath(h: Hash, zero: int, leaves: seq<int>, leaf: int, level: nat, index: nat)
    requires index != Ancestor(|leaves|, level)
    ensures Node(h, zero, leaves + [leaf], level, index) == Node(h, zero, leaves, level, index)
  {
    if level > 0 {
      AppendOffPath(h, zero, leaves, leaf, level - 1, 2 * index);
      AppendOffPath(h, zero, leaves, leaf, level - 1, 2 * index + 1);
    }
  }

  /** The default at each level of the tree with no leaves. */
  function ZeroAt(h: Hash, zero: int, level: nat): int {
    if level == 0 then zero
    else
      var below := ZeroAt(h, zero, level - 1);
      h([below, below])
  }

  lemma {:induction false} NodeOfNoLeaves(h: Hash, zero: int, level: nat, index: nat)
    ensures Node(h, zero, [], level, index) == ZeroAt(h, zero, level)
  {
    if level > 0 {
      NodeOfNoLeaves(h, zero, level - 1, 2 * index);
      NodeOfNoLeaves(h, zero, level - 1, 2 * index + 1);
    }
  }

  lemma NextSibling(h: Hash, zero: int, leaves: seq<int>, level: nat, index: nat, count: nat, before: seq<int>)
    requires count > 0
    ensures before + SiblingPath(h, zero, leaves, level, index, count)
         == (before + [Node(h, zero, leaves, level, Sibling(index))]) + SiblingPath(h, zero, leaves, level + 1, index / 2, count - 1)
  {
  }

  lemma FoldFirst(h: Hash, current: int, index: nat, sibling: int, rest: seq<int>)
    ensures FoldPath(h, current, index, [sibling] + rest) == FoldPath(h, h(ChildPair(current, index, sibling)), index / 2, rest)
  {
    assert ([sibling] + rest)[1..] == rest;
  }

  /** Completeness: the sibling path of a node leads to its ancestor. */
  lemma {:induction false} SiblingPathFolds(h: Hash, zero: int, leaves: seq<int>, level: nat, index: nat, count: nat)
    ensures FoldPath(h, Node(h, zero, leaves, level, index), index, SiblingPath(h, zero, leaves, level, index, count))
         == Node(h, zero, leaves, level + count, Ancestor(index, count))
    decreases count
  {
    if count > 0 {
      var up, half, n := level + 1, index / 2, count - 1;
      var sibling, rest := Node(h, zero, leaves, level, Sibling(index)), SiblingPath(h, zero, leaves, up, half, n);
      FoldFirst(h, Node(h, zero, leaves, level, index), index, sibling, rest);
      ParentOfPair(h, zero, leaves, level, index);
      SiblingPathFolds(h, zero, leaves, up, half, n);
      AncestorOfHalf(index, n);
      assert SiblingPath(h, zero, leaves, level, index, count) == [sibling] + rest;
      assert up + n == level + count;
    }
  }

  /** The pair a claimed path hashes `k` levels above its start. */
  function ClaimedPair(h: Hash, current: int, index: nat, path: seq<int>, k: nat): seq<int>
    requires k < |path|
    decreases k
  {
    if k == 0 then ChildPair(current, index, path[0])
    else ClaimedPair(h, h(ChildPair(current, index, path[0])), index / 2, path[1..], k - 1)
  }

  /** The pair the tree itself hashes at the same place. */
  function HonestPair(h: Hash, zero: int, leaves: seq<int>, level: nat, index: nat, k: nat): seq<int>
    decreases k
  {
    if k == 0 then ChildPair(Node(h, zero, leaves, level, index), index, Node(h, zero, leaves, level, Sibling(index)))
    else HonestPair(h, zero, leaves, level + 1, index / 2, k - 1)
  }

  /** Some level of the claimed path and the tree together form a collision of the hash. */
  ghost predicate PathCollides(h: Hash, zero: int, leaves: seq<int>, level: nat, current: int, index: nat, path: seq<int>) {
    exists k: nat | k < |path| ::
      Collision(h, ClaimedPair(h, current, index, path, k), HonestPair(h, zero, leaves, level, index, k))
  }

  /** Binding: a path that leads to the tree's node carries the tree's own value and siblings,
      unless it exhibits a hash collision at one of its levels. */
  lemma {:induction false} PathBinds(h: Hash, zero: int, leaves: seq<int>, level: nat, current: int, index: nat, path: seq<int>)
    requires FoldPath(h, current, index, path) == Node(h, zero, leaves, level + |path|, Ancestor(index, |path|))
    ensures (current == Node(h, zero, leaves, level, index) && path == SiblingPath(h, zero, leaves, level, index, |path|))
         || PathCollides(h, zero, leaves, level, current, index, path)
    decreases |path|
  {
    if path != [] {
      var next := h(ChildPair(current, index, path[0]));
      AncestorOfHalf(index, |path| - 1);
      PathBinds(h, zero, leaves, level + 1, next, index / 2, path[1..]);
      if PathCollides(h, zero, leaves, level + 1, next, index / 2, path[1..]) {
        var k: nat :| k < |path[1..]| && Collision(h, ClaimedPair(h, next, index / 2, path[1..], k),
                                                    HonestPair(h, zero, leaves, level + 1, index / 2, k));
        assert ClaimedPair(h, current, index, path, k + 1) == ClaimedPair(h, next, index / 2, path[1..], k);
        assert HonestPair(h, zero, leaves, level, index, k + 1) == HonestPair(h, zero, leaves, level + 1, index / 2, k);
      } else {
        ParentOfPair(h, zero, leaves, level, index);
        var claimed := ClaimedPair(h, current, index, path, 0);
        var honest := HonestPair(h, zero, leaves, level, index, 0);
        assert h(claimed) == h(honest);
        if claimed == honest {
          assert claimed[index % 2] == honest[index % 2] && claimed[1 - index % 2] == honest[1 - index % 2];
          assert path == [path[0]] + path[1..];
        } else {
          assert Collision(h, claimed, honest);
        }
      }
    }
  }

  /** What the proof returned for leaf `index` folds to. Within the tree's 2^depth leaves that is
      the root; beyond them it is the top node of another subtree. */
  lemma ProofOfLeafFolds(h: Hash, zero: int, leaves: seq<int>, depth: nat, index: nat)
    requires index < |leaves|
    ensures var folded := FoldPath(h, leaves[index], index, SiblingPath(h, zero, leaves, 0, index, depth));
            && folded == Node(h, zero, leaves, depth, Ancestor(index, depth))
            && (index < Pow2(depth) ==> folded == Node(h, zero, leaves, depth, 0))
  {
    SiblingPathFolds(h, zero, leaves, 0, index, depth);
    AncestorIsZero(index, depth);
  }

  /** A path of n siblings does not see index bits above the lowest n. */
  lemma {:induction false} FoldPathIsPeriodic(h: Hash, current: int, index: nat, path: seq<int>, k: nat)
    ensures FoldPath(h, current, index + k * Pow2(|path|), path) == FoldPath(h, current, index, path)
    decreases |path|
  {
    if path != [] {
      var m := k * Pow2(|path| - 1);
      assert k * Pow2(|path|) == 2 * m;
      assert (index + 2 * m) / 2 == index / 2 + m && (index + 2 * m) % 2 == index % 2;
      FoldPathIsPeriodic(h, h(ChildPair(current, index, path[0])), index / 2, path[1..], k);
    }
  }

  /** Binding for an index inside the tree: the padded leaf and the tree's own path, or a collision. */
  lemma AcceptedProofBindsInside(h: Hash, zero: int, leaves: seq<int>, leaf: int, index: nat, path: seq<int>)
    requires FoldPath(h, leaf, index, path) == Node(h, zero, leaves, |path|, 0)
    requires index < Pow2(|path|)
    ensures || (leaf == PaddedLeaf(zero, leaves, index) && path == SiblingPath(h, zero, leaves, 0, index, |path|))
            || PathCollides(h, zero, leaves, 0, leaf, index, path)
  {
    AncestorIsZero(index, |path|);
    PathBinds(h, zero, leaves, 0, leaf, index, path);
  }

  lemma DivisionSplits(x: nat, size: nat)
    requires size > 0
    ensures x % size < size && x == x % size + (x / size) * size
  {
  }

  /** Binding of accepted proofs: whatever the claimed index, the leaf is the padded leaf at that
      index modulo 2^depth and the path is the tree's own, or the proof exhibits a collision. */
  lemma AcceptedProofBinds(h: Hash, zero: int, leaves: seq<int>, leaf: int, index: nat, path: seq<int>)
    requires FoldPath(h, leaf, index, path) == Node(h, zero, leaves, |path|, 0)
    ensures var slot := index % Pow2(|path|);
            || (leaf == PaddedLeaf(zero, leaves, slot) && path == SiblingPath(h, zero, leaves, 0, slot, |path|))
            || PathCollides(h, zero, leaves, 0, leaf, slot, path)
  {
    var size := Pow2(|path|);
    var slot, k := index % size, index / size;
    DivisionSplits(index, size);
    FoldPathIsPeriodic(h, leaf, slot, path, k);
    AcceptedProofBindsInside(h, zero, leaves, leaf, slot, path);
  }

  /** With an injective hash and an index inside the tree, exactly the leaf at that index. */
  lemma AcceptedProofCarriesLeaf(h: Hash, zero: int, leaves: seq<int>, leaf: int, index: nat, path: seq<int>)
    requires Injective(h) && index < Pow2(|path|)
    ensures FoldPath(h, leaf, index, path) == Node(h, zero, leaves, |path|, 0)
       <==> leaf == PaddedLeaf(zero, leaves, index) && path == SiblingPath(h, zero, leaves, 0, index, |path|)
  {
    if FoldPath(h, leaf, index, path) == Node(h, zero, leaves, |path|, 0) {
      AcceptedProofBindsInside(h, zero, leaves, leaf, index, path);
    }
    SiblingPathFolds(h, zero, leaves, 0, index, |path|);
    AncestorIsZero(index, |path|);
  }

  /** The root fixes every padded leaf it covers. */
  lemma RootDeterminesLeaves(h: Hash, zero: int, a: seq<int>, b: seq<int>, depth: nat, index: nat)
    requires Injective(h) && index < Pow2(depth)
    requires Node(h, zero, a, depth, 0) == Node(h, zero, b, depth, 0)
    ensures PaddedLeaf(zero, a, index) == PaddedLeaf(zero, b, index)
  {
    var path := SiblingPath(h, zero, a, 0, index, depth);
    SiblingPathFolds(h, zero, a, 0, index, depth);
    AncestorIsZero(index, depth);
    AcceptedProofCarriesLeaf(h, zero, b, PaddedLeaf(zero, a, index), index, path);
  }

  /** Appending a leaf leaves the root alone exactly when the tree's 2^depth leaves are taken or the
      leaf equals the padding: a tree filled past 2^depth no longer commits to its new leaves. */
  lemma RootIgnoresLeafIff(h: Hash, zero: int, leaves: seq<int>, leaf: int, depth: nat)
    requires Injective(h)
    ensures Node(h, zero, leaves + [leaf], depth, 0) == Node(h, zero, leaves, depth, 0)
       <==> |leaves| >= Pow2(depth) || leaf == zero
  {
    if |leaves| >= Pow2(depth) {
      AncestorIsZero(|leaves|, depth);
      AppendOffPath(h, zero, leaves, leaf, depth, 0);
    } else if leaf == zero {
      PaddingChangesNothing(h, zero, leaves, depth, 0);
    } else if Node(h, zero, leaves + [leaf], depth, 0) == Node(h, zero, leaves, depth, 0) {
      RootDeterminesLeaves(h, zero, leaves + [leaf], leaves, depth, |leaves|);
    }
  }

  lemma {:induction false} PaddingChangesNothing(h: Hash, zero: int, leaves: seq<int>, level: nat, index: nat)
    ensures Node(h, zero, leaves + [zero], level, index) == Node(h, zero, leaves, level, index)
  {
    if level > 0 {
      PaddingChangesNothing(h, zero, leaves, level - 1, 2 * index);
      PaddingChangesNothing(h, zero, leaves, level - 1, 2 * index + 1);
    }
  }
}

/** The sparse tree itself: touched nodes in a map, zero defaults, one path updated per insert. */
module MerkleTrees {
  import opened Wrappers
  import opened Hashing
  import opened MerkleSpec
  import Positional

  const TREE_DEPTH: nat := 16
  const TREE_SIZE: nat := 65536

  datatype MerkleProof = MerkleProof(leaf: int, leafIndex: nat, pathElements: seq<int>, root: int)

  datatype TreeError = TreeFull | LeafNotFound(index: nat) | LeafTooWide | BadNumber

  /** Serialized state. Leaves and root are 0x-prefixed 32-byte hex strings. */
  datatype TreeExport = TreeExport(depth: nat, nextLeafIndex: nat, leaves: seq<string>, root: string)

  type NodeMap = map<(nat, nat), int>

  function Lookup(tree: NodeMap, zeros: seq<int>, level: nat, index: nat): int
    requires level < |zeros|
  {
    if (level, index) in tree then tree[(level, index)] else zeros[level]
  }

  /** Every node read on the levels lo..hi agrees with the plain recursive hash. */
  ghost predicate Matches(h: Hash, zero: int, leaves: seq<int>, tree: NodeMap, zeros: seq<int>, lo: nat, hi: int)
    requires hi < |zeros|
  {
    forall level: nat, index: nat {:trigger Lookup(tree, zeros, level, index)} | lo <= level <= hi ::
      Lookup(tree, zeros, level, index) == Node(h, zero, leaves, level, index)
  }

  /** Setting one path node moves its level from the old leaf sequence to the new one. */
  lemma PathStep(h: Hash, zero: int, before: seq<int>, leaf: int, tree: NodeMap, zeros: seq<int>, level: nat, value: int)
    requires level < |zeros|
    requires Matches(h, zero, before + [leaf], tree, zeros, 0, level - 1)
    requires Matches(h, zero, before, tree, zeros, level, |zeros| - 1)
    requires value == Node(h, zero, before + [leaf], level, Ancestor(|before|, level))
    ensures var tree' := tree[(level, Ancestor(|before|, level)) := value];
            && Matches(h, zero, before + [leaf], tree', zeros, 0, level)
            && Matches(h, zero, before, tree', zeros, level + 1, |zeros| - 1)
  {
    var tree' := tree[(level, Ancestor(|before|, level)) := value];
    forall l: nat, i: nat | l <= level
      ensures Lookup(tree', zeros, l, i) == Node(h, zero, before + [leaf], l, i)
    {
      if l < level {
        assert Lookup(tree', zeros, l, i) == Lookup(tree, zeros, l, i);
      } else if i != Ancestor(|before|, level) {
        assert Lookup(tree', zeros, l, i) == Lookup(tree, zeros, l, i);
        AppendOffPath(h, zero, before, leaf, l, i);
      }
    }
    forall l: nat, i: nat | level < l < |zeros|
      ensures Lookup(tree', zeros, l, i) == Node(h, zero, before, l, i)
    {
      assert Lookup(tree', zeros, l, i) == Lookup(tree, zeros, l, i);
    }
  }

  /** One round of the loop in `Insert`: hash the current node with its sibling and store the parent. */
  lemma ClimbStep(h: Hash, zero: int, before: seq<int>, leaf: int, tree: NodeMap, zeros: seq<int>, level: nat,
                  index: nat, current: int)
    requires level + 1 < |zeros| && index == Ancestor(|before|, level)
    requires current == Node(h, zero, before + [leaf], level, index)
    requires Matches(h, zero, before + [leaf], tree, zeros, 0, level)
    requires Matches(h, zero, before, tree, zeros, level + 1, |zeros| - 1)
    ensures var parent := h(ChildPair(current, index, Lookup(tree, zeros, level, Sibling(index))));
            var tree' := tree[(level + 1, index / 2) := parent];
            && parent == Node(h, zero, before + [leaf], level + 1, index / 2)
            && Matches(h, zero, before + [leaf], tree', zeros, 0, level + 1)
            && Matches(h, zero, before, tree', zeros, level + 2, |zeros| - 1)
  {
    ParentOfPair(h, zero, before + [leaf], level, index);
    PathStep(h, zero, before, leaf, tree, zeros, level + 1,
             h(ChildPair(current, index, Lookup(tree, zeros, level, Sibling(index)))));
  }

  class MerkleTree {
    const h: Hash
    const zeroValue: int
    const depth: nat
    var zeros: seq<int>
    var tree: map<(nat, nat), int>
    var leaves: seq<int>
    var nextLeafIndex: nat

    constructor (h: Hash, zeroValue: int, depth: nat)
      ensures Valid() && leaves == []
      ensures this.h == h && this.zeroValue == zeroValue && this.depth == depth
    {
      this.h, this.zeroValue, this.depth := h, zeroValue, depth;
      zeros, tree, leaves, nextLeafIndex := [], map[], [], 0;
      new;
      ComputeZeros();
      forall level: nat, index: nat | level <= depth
        ensures Lookup(tree, zeros, level, index) == Node(h, zeroValue, leaves, level, index)
      {
        NodeOfNoLeaves(h, zeroValue, level, index);
      }
    }

    /** Every node read agrees with the plain recursive hash of the leaves inserted so far. */
    ghost predicate Valid()
      reads this
    {
      && |zeros| == depth + 1
      && nextLeafIndex == |leaves| <= TREE_SIZE
      && Matches(h, zeroValue, leaves, tree, zeros, 0, depth)
    }

    method ComputeZeros()
      modifies this`zeros
      ensures |zeros| == depth + 1
      ensures forall level: nat | level <= depth :: zeros[level] == ZeroAt(h, zeroValue, level)
    {
      zeros := [zeroValue];
      for i := 1 to depth + 1
        invariant |zeros| == i
        invariant forall level: nat | level < i :: zeros[level] == ZeroAt(h, zeroValue, level)
      {
        zeros := zeros + [h([zeros[i - 1], zeros[i - 1]])];
      }
    }

    function Root(): (root: int)
      requires |zeros| == depth + 1
      reads this
      ensures Valid() ==> root == Node(h, zeroValue, leaves, depth, 0)
    {
      GetNode(depth, 0)
    }

    function GetNode(level: nat, index: nat): (node: int)
      requires level < |zeros|
      reads this
      ensures Valid() ==> node == Node(h, zeroValue, leaves, level, index)
    {
      Lookup(tree, zeros, level, index)
    }

    method SetNode(level: nat, index: nat, value: int)
      modifies this`tree
      ensures tree == old(tree)[(level, index) := value]
    {
      tree := tree[(level, index) := value];
    }

    method Insert(leaf: int) returns (r: Result<nat, TreeError>)
      requires Valid()
      modifies this`tree, this`leaves, this`nextLeafIndex
      ensures Valid()
      ensures old(nextLeafIndex) >= TREE_SIZE ==>
                r == Failure(TreeFull) && leaves == old(leaves) && tree == old(tree)
      ensures old(nextLeafIndex) < TREE_SIZE ==>
                r == Success(old(nextLeafIndex)) && leaves == old(leaves) + [leaf]
    {
      var index := nextLeafIndex;
      if index >= TREE_SIZE {
        return Failure(TreeFull);
      }
      ghost var before := leaves;
      leaves := leaves + [leaf];
      PathStep(h, zeroValue, before, leaf, tree, zeros, 0, leaf);
      SetNode(0, index, leaf);
      UpdatePathToRoot(before, index, leaf);
      nextLeafIndex := nextLeafIndex + 1;
      return Success(index);
    }

    /** The loop of `Insert`: rehash the ancestors of the new leaf, level by level. */
    method UpdatePathToRoot(ghost before: seq<int>, index: nat, leaf: int)
      requires |zeros| == depth + 1 && index == |before|
      requires Matches(h, zeroValue, before + [leaf], tree, zeros, 0, 0)
      requires Matches(h, zeroValue, before, tree, zeros, 1, depth)
      modifies this`tree
      ensures Matches(h, zeroValue, before + [leaf], tree, zeros, 0, depth)
    {
      var currentIndex := index;
      var currentHash := leaf;
      assert Lookup(tree, zeros, 0, index) == leaf;
      for level := 0 to depth
        invariant currentIndex == Ancestor(index, level)
        invariant currentHash == Node(h, zeroValue, before + [leaf], level, currentIndex)
        invariant Matches(h, zeroValue, before + [leaf], tree, zeros, 0, level)
        invariant Matches(h, zeroValue, before, tree, zeros, level + 1, depth)
      {
        var isRight := currentIndex % 2 == 1;
        var siblingIndex := if isRight then currentIndex - 1 else currentIndex + 1;
        var sibling := GetNode(level, siblingIndex);
        var left := if isRight then sibling else currentHash;
        var right := if isRight then currentHash else sibling;
        ClimbStep(h, zeroValue, before, leaf, tree, zeros, level, currentIndex, currentHash);
        currentHash := h([left, right]);
        currentIndex := currentIndex / 2;
        SetNode(level + 1, currentIndex, currentHash);
      }
    }

    /** Repeated insertion. A full tree stops the batch and keeps the leaves inserted before it. */
    method InsertBatch(batch: seq<int>) returns (r: Result<seq<nat>, TreeError>)
      requires Valid()
      modifies this`tree, this`leaves, this`nextLeafIndex
      ensures Valid()
      ensures r.Success? <==> |old(leaves)| + |batch| <= TREE_SIZE
      ensures r.Success? ==> leaves == old(leaves) + batch
      ensures r.Success? ==> r.value == seq(|batch|, i requires 0 <= i => |old(leaves)| + i)
      ensures r.Failure? ==> r.error == TreeFull && leaves == old(leaves) + batch[..TREE_SIZE - |old(leaves)|]
    {
      var indices: seq<nat> := [];
      for i := 0 to |batch|
        invariant Valid()
        invariant leaves == old(leaves) + batch[..i]
        invariant indices == seq(i, j requires 0 <= j => |old(leaves)| + j)
      {
        var index := Insert(batch[i]);
        if index.Failure? {
          return Failure(index.error);
        }
        indices := indices + [index.value];
      }
      assert batch[..|batch|] == batch;
      return Success(indices);
    }

    method GetProof(leafIndex: nat) returns (r: Result<MerkleProof, TreeError>)
      requires Valid()
      ensures leafIndex >= |leaves| ==> r == Failure(LeafNotFound(leafIndex))
      ensures leafIndex < |leaves| ==>
                r == Success(MerkleProof(leaves[leafIndex], leafIndex,
                                         SiblingPath(h, zeroValue, leaves, 0, leafIndex, depth),
                                         Node(h, zeroValue, leaves, depth, 0)))
    {
      if leafIndex >= nextLeafIndex {
        return Failure(LeafNotFound(leafIndex));
      }
      var pathElements: seq<int> := [];
      var currentIndex := leafIndex;
      for level := 0 to depth
        invariant pathElements + SiblingPath(h, zeroValue, leaves, level, currentIndex, depth - level)
               == SiblingPath(h, zeroValue, leaves, 0, leafIndex, depth)
      {
        var isRight := currentIndex % 2 == 1;
        var siblingIndex := if isRight then currentIndex - 1 else currentIndex + 1;
        var sibling := GetNode(level, siblingIndex);
        NextSibling(h, zeroValue, leaves, level, currentIndex, depth - level, pathElements);
        pathElements := pathElements + [sibling];
        currentIndex := currentIndex / 2;
      }
      assert pathElements + [] == pathElements;
      return Success(MerkleProof(leaves[leafIndex], leafIndex, pathElements, Root()));
    }

    static method VerifyProof(h: Hash, proof: MerkleProof) returns (ok: bool)
      ensures ok <==> FoldPath(h, proof.leaf, proof.leafIndex, proof.pathElements) == proof.root
    {
      var currentHash := proof.leaf;
      var currentIndex := proof.leafIndex;
      var path := proof.pathElements;
      for level := 0 to |path|
        invariant FoldPath(h, currentHash, currentIndex, path[level..])
               == FoldPath(h, proof.leaf, proof.leafIndex, path)
      {
        var isRight := currentIndex % 2 == 1;
        var sibling := path[level];
        var left := if isRight then sibling else currentHash;
        var right := if isRight then currentHash else sibling;
        assert path[level..][1..] == path[level + 1..];
        currentHash := h([left, right]);
        currentIndex := currentIndex / 2;
      }
      return currentHash == proof.root;
    }

    function GetLeaf(index: nat): Option<int>
      reads this
    {
      if index < |leaves| then Some(leaves[index]) else None
    }

    /** Serialization fails exactly when a leaf or the root is no 32-byte value. */
    method Export() returns (r: Result<TreeExport, TreeError>)
      requires Valid()
      ensures r.Success? <==> (forall i | 0 <= i < |leaves| :: Fits(leaves[i])) && Fits(Root())
      ensures r.Success? ==> r.value == TreeExport(depth, |leaves|, HexAll(leaves), Hex(Root()))
      ensures r.Failure? ==> r.error == LeafTooWide
    {
      if (exists i | 0 <= i < |leaves| :: !Fits(leaves[i])) || !Fits(Root()) {
        return Failure(LeafTooWide);
      }
      return Success(TreeExport(depth, nextLeafIndex, HexAll(leaves), Hex(Root())));
    }

    /** Rebuild a tree from its leaves. The stored count and root are not looked at. */
    static method Import(h: Hash, zeroValue: int, data: TreeExport) returns (r: Result<MerkleTree, TreeError>)
      ensures r.Success? <==> Values(data.leaves).Some? && |data.leaves| <= TREE_SIZE
      ensures r.Success? ==> fresh(r.value) && r.value.Valid()
      ensures r.Success? ==> r.value.h == h && r.value.zeroValue == zeroValue && r.value.depth == data.depth
      ensures r.Success? ==> Values(data.leaves) == Some(r.value.leaves)
    {
      var t := new MerkleTree(h, zeroValue, data.depth);
      for i := 0 to |data.leaves|
        invariant fresh(t) && t.Valid() && Values(data.leaves[..i]) == Some(t.leaves)
      {
        ValuesSnoc(data.leaves, i);
        var value := Positional.ParseBigInt(data.leaves[i]);
        if value.None? {
          ValuesOfPrefix(data.leaves, i + 1);
          return Failure(BadNumber);
        }
        var inserted := t.Insert(value.value);
        if inserted.Failure? {
          return Failure(inserted.error);
        }
      }
      assert data.leaves[..|data.leaves|] == data.leaves;
      return Success(t);
    }
  }

  predicate Fits(x: int) {
    0 <= x < Positional.Pow(16, 64)
  }

  function Hex(x: int): string
    requires Fits(x)
  {
    Positional.HexString(64, x)
  }

  function HexAll(xs: seq<int>): (r: seq<string>)
    requires forall i | 0 <= i < |xs| :: Fits(xs[i])
    ensures |r| == |xs|
  {
    seq(|xs|, i requires 0 <= i < |xs| => Hex(xs[i]))
  }

  /** The numbers a list of texts stands for, if every one is well formed. */
  function Values(s: seq<string>): (r: Option<seq<int>>)
    ensures r.Some? ==> |r.value| == |s|
  {
    if s == [] then Some([])
    else
      var front := Values(s[..|s| - 1]);
      var last := Positional.ParseBigInt(s[|s| - 1]);
      if front.Some? && last.Some? then Some(front.value + [last.value]) else None
  }

  lemma ValuesSnoc(s: seq<string>, i: nat)
    requires i < |s|
    ensures Values(s[..i + 1]).Some? <==> Values(s[..i]).Some? && Positional.ParseBigInt(s[i]).Some?
    ensures Values(s[..i + 1]).Some? ==> Values(s[..i + 1]).value == Values(s[..i]).value + [Positional.ParseBigInt(s[i]).value]
  {
    assert s[..i + 1][..i] == s[..i];
  }

  lemma {:induction false} ValuesOfPrefix(s: seq<string>, i: nat)
    requires i <= |s| && Values(s[..i]).None?
    ensures Values(s).None?
    decreases |s| - i
  {
    if i < |s| {
      ValuesSnoc(s, i);
      ValuesOfPrefix(s, i + 1);
    } else {
      assert s[..i] == s;
    }
  }

  lemma ValuesOfLast(s: seq<string>, n: nat)
    requires |s| == n + 1 && Values(s[..n]).Some? && Positional.ParseBigInt(s[n]).Some?
    ensures Values(s) == Some(Values(s[..n]).value + [Positional.ParseBigInt(s[n]).value])
  {
  }

  lemma FrontAndLast(xs: seq<int>)
    requires xs != []
    ensures xs[..|xs| - 1] + [xs[|xs| - 1]] == xs
  {
  }

  lemma HexReads(x: int)
    requires Fits(x)
    ensures Positional.ParseBigInt(Hex(x)) == Some(x)
  {
    Positional.HexRoundTrip(64, x);
  }

  lemma HexAllSnoc(xs: seq<int>)
    requires xs != [] && forall i | 0 <= i < |xs| :: Fits(xs[i])
    ensures HexAll(xs)[..|xs| - 1] == HexAll(xs[..|xs| - 1]) && HexAll(xs)[|xs| - 1] == Hex(xs[|xs| - 1])
  {
  }

  lemma {:induction false} ValuesOfHexAll(xs: seq<int>)
    requires forall i | 0 <= i < |xs| :: Fits(xs[i])
    ensures Values(HexAll(xs)) == Some(xs)
  {
    if xs != [] {
      var texts := HexAll(xs);
      ValuesOfHexAll(xs[..|xs| - 1]);
      HexAllSnoc(xs);
      HexReads(xs[|xs| - 1]);
      ValuesOfLast(texts, |xs| - 1);
      FrontAndLast(xs);
    }
  }

  /** A tree is determined by its leaves: two valid trees over the same leaves read alike. */
  lemma SameLeavesSameNodes(a: MerkleTree, b: MerkleTree, level: nat, index: nat)
    requires a.Valid() && b.Valid()
    requires a.h == b.h && a.zeroValue == b.zeroValue && a.depth == b.depth && a.leaves == b.leaves
    requires level <= a.depth
    ensures a.GetNode(level, index) == b.GetNode(level, index) && a.Root() == b.Root()
  {
  }

  /** Serializing and importing a tree gives back the same leaves, root and node reads. */
  method ExportThenImport(t: MerkleTree) returns (copy: MerkleTree)
    requires t.Valid() && (forall i | 0 <= i < |t.leaves| :: Fits(t.leaves[i])) && Fits(t.Root())
    ensures fresh(copy) && copy.Valid() && copy.leaves == t.leaves && copy.Root() == t.Root()
    ensures copy.depth == t.depth
    ensures forall level: nat, index: nat | level <= t.depth :: copy.GetNode(level, index) == t.GetNode(level, index)
  {
    var data := t.Export();
    ValuesOfHexAll(t.leaves);
    var imported := MerkleTree.Import(t.h, t.zeroValue, data.value);
    copy := imported.value;
    forall level: nat, index: nat | level <= t.depth
      ensures copy.GetNode(level, index) == t.GetNode(level, index)
    {
      SameLeavesSameNodes(copy, t, level, index);
    }
  }

  /** The capacity check guards 2^depth leaves exactly when the depth is at least the default 16. */
  lemma CapacityCheckCoversDepth(depth: nat)
    ensures TREE_SIZE <= Pow2(depth) <==> depth >= TREE_DEPTH
  {
    if depth < TREE_DEPTH {
      Pow2Monotone(depth, TREE_DEPTH);
    } else if depth > TREE_DEPTH {
      Pow2Monotone(TREE_DEPTH, depth);
    }
    assert Pow2(TREE_DEPTH) == TREE_SIZE by {
      assert Pow2(8) == 256;
      assert Pow2(12) == 4096;
    }
  }

  lemma {:induction false} Pow2Monotone(m: nat, n: nat)
    requires m < n
    ensures Pow2(m) < Pow2(n)
    decreases n
  {
    if m < n - 1 {
      Pow2Monotone(m, n - 1);
    }
  }
}
