/**
 The zero-padded Merkle tree of a list of leaves, and the roots recomputed from
 authentication paths by the circuit and by the client.
 */
module Merkle {
  import opened Arith
  import opened Notes

  // What the tree holds at `index`.
  function LeafAt(leaves: seq<nat>, index: nat): nat {
    if index < |leaves| then leaves[index] else 0
  }

  // The reference definition: the node at `position` of `level`, absent leaves being zero.
  function Node(c: Crypto, leaves: seq<nat>, level: nat, position: nat): nat
    decreases level
  {
    if level == 0 then LeafAt(leaves, position) else Poseidon(c, Children(c, leaves, level, position))
  }

  function Children(c: Crypto, leaves: seq<nat>, level: nat, position: nat): (pair: seq<nat>)
    requires level > 0
    ensures |pair| == 2
    decreases level, 0
  {
    [Node(c, leaves, level - 1, 2 * position), Node(c, leaves, level - 1, 2 * position + 1)]
  }

  function Root(c: Crypto, depth: nat, leaves: seq<nat>): nat {
    Node(c, leaves, depth, 0)
  }

  // The root of an empty subtree, as the hasher tabulates it.
  function Zero(c: Crypto, level: nat): nat {
    if level == 0 then 0 else Poseidon(c, [Zero(c, level - 1), Zero(c, level - 1)])
  }

  lemma {:induction false} EmptyTree(c: Crypto, level: nat, position: nat)
    ensures Node(c, [], level, position) == Zero(c, level)
    decreases level
  {
    if level == 0 {
    } else {
      EmptyTree(c, level - 1, 2 * position);
      EmptyTree(c, level - 1, 2 * position + 1);
    }
  }

  /** A subtree beyond the last leaf is empty. */
  lemma {:induction false} EmptyNode(c: Crypto, leaves: seq<nat>, level: nat, position: nat, last: nat)
    requires |leaves| <= last + 1 && position > Shift(last, level)
    ensures Node(c, leaves, level, position) == Zero(c, level)
    decreases level
  {
    if level == 0 {
    } else {
      EmptyNode(c, leaves, level - 1, 2 * position, last);
      EmptyNode(c, leaves, level - 1, 2 * position + 1, last);
    }
  }

  /** A subtree that ends before a position does not see what is stored from there on. */
  lemma {:induction false} SettledNode(c: Crypto, a: seq<nat>, b: seq<nat>, level: nat, position: nat, index: nat)
    requires forall i: nat | i < index :: LeafAt(a, i) == LeafAt(b, i)
    requires position < Shift(index, level)
    ensures Node(c, a, level, position) == Node(c, b, level, position)
    decreases level
  {
    if level == 0 {
    } else {
      SettledNode(c, a, b, level - 1, 2 * position, index);
      SettledNode(c, a, b, level - 1, 2 * position + 1, index);
    }
  }

  // `queries` holds every preimage hashed to compute a node.
  ghost predicate NodeHashed(c: Crypto, queries: set<seq<nat>>, leaves: seq<nat>, level: nat, position: nat)
    decreases level
  {
    level > 0 ==>
      && Children(c, leaves, level, position) in queries
      && NodeHashed(c, queries, leaves, level - 1, 2 * position)
      && NodeHashed(c, queries, leaves, level - 1, 2 * position + 1)
  }

  ghost predicate TreeHashed(c: Crypto, queries: set<seq<nat>>, depth: nat, leaves: seq<nat>) {
    NodeHashed(c, queries, leaves, depth, 0)
  }

  // ----- Paths -----

  // The pair hashed at `level`: bit `level` of the index decides the side.
  function PathPair(node: nat, sibling: nat, index: nat, level: nat): seq<nat> {
    if Bit(index, level) then [sibling, node] else [node, sibling]
  }

  // The root above `leaf` along `siblings`, leaf level first.
  function PathRoot(c: Crypto, leaf: nat, siblings: seq<nat>, index: nat): nat {
    if siblings == [] then leaf
    else
      var level := |siblings| - 1;
      Poseidon(c, PathPair(PathRoot(c, leaf, siblings[..level], index), siblings[level], index, level))
  }

  // `queries` holds every preimage hashed along a path.
  ghost predicate PathHashed(c: Crypto, queries: set<seq<nat>>, leaf: nat, siblings: seq<nat>, index: nat) {
    siblings != [] ==>
      var level := |siblings| - 1;
      && PathHashed(c, queries, leaf, siblings[..level], index)
      && PathPair(PathRoot(c, leaf, siblings[..level], index), siblings[level], index, level) in queries
  }

  // The node next to the one above `index` at `level`.
  function Beside(c: Crypto, leaves: seq<nat>, index: nat, level: nat): nat {
    var position := Shift(index, level);
    Node(c, leaves, level, if Bit(index, level) then position - 1 else position + 1)
  }

  // The authentication path a tree offers for `index`.
  function Siblings(c: Crypto, depth: nat, leaves: seq<nat>, index: nat): (s: seq<nat>)
    ensures |s| == depth
  {
    if depth == 0 then [] else Siblings(c, depth - 1, leaves, index) + [Beside(c, leaves, index, depth - 1)]
  }

  lemma PairIsChildren(c: Crypto, leaves: seq<nat>, index: nat, level: nat)
    ensures PathPair(Node(c, leaves, level, Shift(index, level)), Beside(c, leaves, index, level), index, level)
         == Children(c, leaves, level + 1, Shift(index, level + 1))
  {
    var position := Shift(index, level);
    assert position == 2 * Shift(index, level + 1) + position % 2;
  }

  /** Completeness: the tree's own path leads from its leaf to the node above it. */
  lemma {:induction false} HonestPath(c: Crypto, depth: nat, leaves: seq<nat>, index: nat)
    ensures PathRoot(c, LeafAt(leaves, index), Siblings(c, depth, leaves, index), index)
         == Node(c, leaves, depth, Shift(index, depth))
  {
    if depth == 0 {
    } else {
      HonestPath(c, depth - 1, leaves, index);
      PairIsChildren(c, leaves, index, depth - 1);
      assert Siblings(c, depth, leaves, index)[..depth - 1] == Siblings(c, depth - 1, leaves, index);
    }
  }

  /** Soundness: a path that reaches the node starts at the leaf stored there and is the tree's path. */
  lemma {:induction false} PathPinsLeaf(c: Crypto, queries: set<seq<nat>>, depth: nat, leaves: seq<nat>,
                                        leaf: nat, siblings: seq<nat>, index: nat)
    requires |siblings| == depth && Secure(c, queries)
    requires NodeHashed(c, queries, leaves, depth, Shift(index, depth))
    requires PathHashed(c, queries, leaf, siblings, index)
    requires PathRoot(c, leaf, siblings, index) == Node(c, leaves, depth, Shift(index, depth))
    ensures leaf == LeafAt(leaves, index) && siblings == Siblings(c, depth, leaves, index)
  {
    if depth == 0 {
    } else {
      var level := depth - 1;
      var below := siblings[..level];
      assert siblings == below + [siblings[level]];
      var pair := PathPair(PathRoot(c, leaf, below, index), siblings[level], index, level);
      var children := Children(c, leaves, depth, Shift(index, depth));
      assert Distinguishes(c, pair, children);
      PairIsChildren(c, leaves, index, level);
      var ours := PathPair(Node(c, leaves, level, Shift(index, level)), Beside(c, leaves, index, level), index, level);
      assert pair[0] == ours[0] && pair[1] == ours[1];
      PathPinsLeaf(c, queries, level, leaves, leaf, below, index);
    }
  }

  /** A path reaches the root if and only if it is the stored leaf with the tree's own siblings. */
  lemma PathExact(c: Crypto, queries: set<seq<nat>>, depth: nat, leaves: seq<nat>,
                  leaf: nat, siblings: seq<nat>, index: nat)
    requires |siblings| == depth && index < Pow2(depth) && Secure(c, queries)
    requires TreeHashed(c, queries, depth, leaves) && PathHashed(c, queries, leaf, siblings, index)
    ensures PathRoot(c, leaf, siblings, index) == Root(c, depth, leaves)
       <==> leaf == LeafAt(leaves, index) && siblings == Siblings(c, depth, leaves, index)
  {
    ShiftFits(index, depth);
    HonestPath(c, depth, leaves, index);
    if PathRoot(c, leaf, siblings, index) == Root(c, depth, leaves) {
      PathPinsLeaf(c, queries, depth, leaves, leaf, siblings, index);
    }
  }

  /** Equal roots, equal contents. */
  lemma {:induction false} NodeBinds(c: Crypto, queries: set<seq<nat>>, depth: nat,
                                     a: seq<nat>, b: seq<nat>, index: nat)
    requires Secure(c, queries)
    requires NodeHashed(c, queries, a, depth, Shift(index, depth))
    requires NodeHashed(c, queries, b, depth, Shift(index, depth))
    requires Node(c, a, depth, Shift(index, depth)) == Node(c, b, depth, Shift(index, depth))
    ensures LeafAt(a, index) == LeafAt(b, index)
    decreases depth
  {
    if depth == 0 {
    } else {
      var position := Shift(index, depth);
      var ours, theirs := Children(c, a, depth, position), Children(c, b, depth, position);
      assert Distinguishes(c, ours, theirs);
      assert ours[0] == theirs[0] && ours[1] == theirs[1];
      assert Shift(index, depth - 1) == 2 * position || Shift(index, depth - 1) == 2 * position + 1;
      NodeBinds(c, queries, depth - 1, a, b, index);
    }
  }

  // ----- The two implementations -----

  // `to_le_bits::<depth>`: the index must fit, and its bits come least significant first.
  method ToLeBits(index: nat, depth: nat) returns (fits: bool, bits: seq<bool>)
    ensures fits <==> index < Pow2(depth)
    ensures |bits| == depth && forall i | 0 <= i < depth :: bits[i] == Bit(index, i)
  {
    var rest := index;
    bits := [];
    for level := 0 to depth
      invariant rest == Shift(index, level)
      invariant |bits| == level && forall i | 0 <= i < level :: bits[i] == Bit(index, i)
    {
      bits := bits + [rest % 2 == 1];
      rest := rest / 2;
    }
    fits := rest == 0;
    ShiftFits(index, depth);
  }

  /** The circuit: decompose the index, then fold the path bottom up. */
  method ComputeRoot(c: Crypto, leaf: nat, siblings: seq<nat>, index: nat) returns (fits: bool, node: nat)
    ensures fits <==> index < Pow2(|siblings|)
    ensures node == PathRoot(c, leaf, siblings, index)
  {
    var bits;
    fits, bits := ToLeBits(index, |siblings|);
    node := leaf;
    for i := 0 to |siblings|
      invariant node == PathRoot(c, leaf, siblings[..i], index)
    {
      assert siblings[..i + 1][..i] == siblings[..i];
      var l, r := node, siblings[i];
      if bits[i] {
        l, r := siblings[i], node;
      }
      node := Poseidon(c, [l, r]);
    }
    assert siblings[..|siblings|] == siblings;
  }

  /** The client: test `index & (1 << level)` at every level, without a bound on the index. */
  method MerkleRoot(c: Crypto, leaf: nat, index: nat, siblings: seq<nat>) returns (node: nat)
    ensures node == PathRoot(c, leaf, siblings, index)
  {
    node := leaf;
    var mask := 1;
    for level := 0 to |siblings|
      invariant mask == Pow2(level)
      invariant node == PathRoot(c, leaf, siblings[..level], index)
    {
      assert siblings[..level + 1][..level] == siblings[..level];
      ShiftIsDivision(index, level);
      if index / mask % 2 == 0 {
        node := Poseidon(c, [node, siblings[level]]);
      } else {
        node := Poseidon(c, [siblings[level], node]);
      }
      mask := 2 * mask;
    }
    assert siblings[..|siblings|] == siblings;
  }
}
