/**
 The incremental tree: one remembered node per level, refined against the full
 zero-padded tree of all leaves appended so far.
 */
module ReferenceTrees {
  import opened Arith
  import opened Merkle
  import opened Notes

  // The root an append leaves behind: the top node above the newest leaf.
  function RootAfter(c: Crypto, depth: nat, leaves: seq<nat>): nat {
    if leaves == [] then Zero(c, depth) else Node(c, leaves, depth, Shift(|leaves| - 1, depth))
  }

  /** Up to capacity that is the root of the full tree. */
  lemma RootAfterIsRoot(c: Crypto, depth: nat, leaves: seq<nat>)
    requires |leaves| <= Pow2(depth)
    ensures RootAfter(c, depth, leaves) == Root(c, depth, leaves)
  {
    if leaves == [] {
      EmptyTree(c, depth, 0);
    } else {
      ShiftFits(|leaves| - 1, depth);
    }
  }

  // What a level remembers once `n` leaves are in: the last completed left subtree, if one is open.
  ghost predicate Remembers(c: Crypto, leaves: seq<nat>, n: nat, level: nat, node: nat) {
    Bit(n, level) ==> node == Node(c, leaves, level, Shift(n, level) - 1)
  }

  // Levels where the new leaf opens a left subtree.
  lemma AppendLeft(c: Crypto, leaves: seq<nat>, n: nat, level: nat)
    requires |leaves| == n + 1 && !Bit(n, level)
    ensures var node := Node(c, leaves, level, Shift(n, level));
      && Poseidon(c, [node, Zero(c, level)]) == Node(c, leaves, level + 1, Shift(n, level + 1))
      && Remembers(c, leaves, n + 1, level, node)
  {
    var position := Shift(n, level);
    assert 2 * Shift(n, level + 1) == position;
    EmptyNode(c, leaves, level, position + 1, n);
    ShiftSuccessor(n, level);
  }

  // Levels where it completes the pair begun by the remembered node.
  lemma AppendRight(c: Crypto, leaves: seq<nat>, leaf: nat, level: nat, remembered: nat)
    requires Bit(|leaves|, level) && Remembers(c, leaves, |leaves|, level, remembered)
    ensures var n := |leaves|;
      && Poseidon(c, [remembered, Node(c, leaves + [leaf], level, Shift(n, level))])
         == Node(c, leaves + [leaf], level + 1, Shift(n, level + 1))
      && Remembers(c, leaves + [leaf], n + 1, level, remembered)
  {
    var n := |leaves|;
    var position := Shift(n, level);
    assert 2 * Shift(n, level + 1) + 1 == position;
    SettledNode(c, leaves, leaves + [leaf], level, position - 1, n);
    ShiftSuccessor(n, level);
  }

  class ReferenceTree {
    const c: Crypto
    const depth: nat
    var filled: array<nat>
    var nextIndex: nat
    var root: nat
    ghost var leaves: seq<nat>

    ghost predicate Valid()
      reads this, filled
    {
      && filled.Length == depth
      && nextIndex == |leaves|
      && root == RootAfter(c, depth, leaves)
      && forall level {:trigger filled[level]} | 0 <= level < depth ::
           Remembers(c, leaves, nextIndex, level, filled[level])
    }

    constructor (c: Crypto, depth: nat)
      ensures Valid() && fresh(filled)
      ensures this.c == c && this.depth == depth && leaves == []
    {
      this.c, this.depth := c, depth;
      filled := new nat[depth](level => Zero(c, level));
      nextIndex, root, leaves := 0, Zero(c, depth), [];
      new;
      forall level: nat | level < depth
        ensures Remembers(c, [], 0, level, filled[level])
      {
        ShiftFits(0, level);
      }
    }

    constructor Clone(t: ReferenceTree)
      requires t.Valid()
      ensures Valid() && fresh(filled)
      ensures c == t.c && depth == t.depth && leaves == t.leaves
    {
      c, depth := t.c, t.depth;
      var copy := new nat[t.depth];
      forall level | 0 <= level < t.depth {
        copy[level] := t.filled[level];
      }
      filled := copy;
      nextIndex, root, leaves := t.nextIndex, t.root, t.leaves;
    }

    method Append(leaf: nat) returns (r: nat)
      requires Valid()
      modifies this, filled
      ensures Valid() && filled == old(filled)
      ensures leaves == old(leaves) + [leaf]
      ensures r == root == Node(c, leaves, depth, Shift(|old(leaves)|, depth))
    {
      ghost var before := leaves;
      var n := nextIndex;
      leaves := leaves + [leaf];
      var node, index := leaf, n;
      for level := 0 to depth
        invariant filled == old(filled) && nextIndex == n
        invariant leaves == before + [leaf]
        invariant index == Shift(n, level)
        invariant node == Node(c, leaves, level, index)
        invariant forall l {:trigger filled[l]} | level <= l < depth :: Remembers(c, before, n, l, filled[l])
        invariant forall l {:trigger filled[l]} | 0 <= l < level :: Remembers(c, leaves, n + 1, l, filled[l])
      {
        if index % 2 == 0 {
          AppendLeft(c, leaves, n, level);
          filled[level] := node;
          node := Poseidon(c, [node, Zero(c, level)]);
        } else {
          AppendRight(c, before, leaf, level, filled[level]);
          node := Poseidon(c, [filled[level], node]);
        }
        index := index / 2;
      }
      nextIndex, root, r := n + 1, node, node;
    }
  }
}
