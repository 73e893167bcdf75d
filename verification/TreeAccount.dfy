/**
 The tree account of the pool: an append-only tree of fixed capacity and a
 cyclic buffer of its most recent roots.
 */
module TreeAccounts {
  import opened Arith
  import opened Bytes
  import opened Merkle
  import opened Notes
  import opened PoolErrors
  import opened ReferenceTrees
  import opened Wrappers

  // The root that was current when `k` leaves were in.
  function RootAt(c: Crypto, depth: nat, leaves: seq<nat>, k: nat): nat
    requires k <= |leaves|
  {
    Root(c, depth, leaves[..k])
  }

  // Versions `k` of the tree young enough to be remembered.
  predicate Recent(window: nat, n: nat, k: nat) {
    k <= n < k + window
  }

  // The roots a spend may name: not zero, and current fewer than `window` appends ago.
  ghost predicate RootKnown(c: Crypto, depth: nat, window: nat, leaves: seq<nat>, root: seq<byte>) {
    && root != Zeros(FIELD_BYTES)
    && exists k: nat | k <= |leaves| :: Recent(window, |leaves|, k) && FieldBytes(RootAt(c, depth, leaves, k)) == root
  }

  // Where a cyclic buffer keeps the entry written `age` steps before its newest one.
  function Slot(newest: nat, window: nat, age: nat): int {
    if age <= newest then newest - age else newest - age + window
  }

  class TreeAccount {
    const c: Crypto
    const depth: nat
    const window: nat
    const tree: ReferenceTree
    const ring: array<nat>
    var stored: nat
    var newest: nat

    ghost function Leaves(): seq<nat>
      reads tree
    {
      tree.leaves
    }

    ghost predicate Valid()
      reads this, tree, tree.filled, ring
    {
      && tree.Valid() && tree.c == c && tree.depth == depth
      && ring != tree.filled
      && var n := |Leaves()|;
      && n <= Pow2(depth)
      && ring.Length == window > 0
      && stored == Min(window, n + 1) && newest < stored
      && (stored < window ==> newest == stored - 1)
      && forall age: nat {:trigger Slot(newest, window, age)} | age < stored ::
           ring[Slot(newest, window, age)] == RootAt(c, depth, Leaves(), n - age)
    }

    // `init`: the empty tree, whose root is the first one remembered.
    constructor (c: Crypto, depth: nat, window: nat)
      requires window > 0
      ensures Valid() && fresh(tree) && fresh(tree.filled) && fresh(ring)
      ensures this.c == c && this.depth == depth && this.window == window && Leaves() == []
    {
      var t := new ReferenceTree(c, depth);
      var r := new nat[window](_ => 0);
      r[0] := t.root;
      this.c, this.depth, this.window := c, depth, window;
      tree, ring, stored, newest := t, r, 1, 0;
      new;
      RootAfterIsRoot(c, depth, []);
    }

    constructor Clone(t: TreeAccount)
      requires t.Valid()
      ensures Valid() && fresh(tree) && fresh(tree.filled) && fresh(ring)
      ensures c == t.c && depth == t.depth && window == t.window && Leaves() == t.Leaves()
    {
      var copy := new ReferenceTree.Clone(t.tree);
      var r := new nat[t.window];
      forall i | 0 <= i < t.window {
        r[i] := t.ring[i];
      }
      c, depth, window := t.c, t.depth, t.window;
      tree, ring, stored, newest := copy, r, t.stored, t.newest;
    }

    method Append(leaf: nat) returns (r: Result<nat, PoolError>)
      requires Valid()
      modifies this, tree, tree.filled, ring
      ensures Valid() && tree.filled == old(tree.filled)
      ensures r == if |old(Leaves())| < Pow2(depth) then Ok(|old(Leaves())|) else Err(TreeError)
      ensures Leaves() == if r.Ok? then old(Leaves()) + [leaf] else old(Leaves())
    {
      var leafIndex := tree.nextIndex;
      if leafIndex >= Pow2(depth) {
        return Err(TreeError);
      }
      ghost var before, was := Leaves(), newest;
      ghost var kept := ring[..];
      var root := tree.Append(leaf);
      RootAfterIsRoot(c, depth, Leaves());
      assert Leaves()[..leafIndex + 1] == Leaves();
      newest := if newest + 1 < window then newest + 1 else 0;
      if stored < window {
        stored := stored + 1;
      }
      ring[newest] := root;
      forall age: nat | age < stored
        ensures ring[Slot(newest, window, age)] == RootAt(c, depth, Leaves(), leafIndex + 1 - age)
      {
        if age > 0 {
          assert Slot(newest, window, age) == Slot(was, window, age - 1) != newest;
          assert Leaves()[..leafIndex + 1 - age] == before[..leafIndex + 1 - age];
        }
      }
      r := Ok(leafIndex);
    }

    method ContainsRoot(root: seq<byte>) returns (found: bool)
      requires Valid()
      ensures found <==> RootKnown(c, depth, window, Leaves(), root)
    {
      if root == Zeros(FIELD_BYTES) {
        return false;
      }
      var i := 0;
      while i < stored
        invariant 0 <= i <= stored
        invariant forall j | 0 <= j < i :: FieldBytes(ring[j]) != root
      {
        if FieldBytes(ring[i]) == root {
          SlotHolds(i);
          return true;
        }
        i := i + 1;
      }
      forall k: nat | k <= |Leaves()| && Recent(window, |Leaves()|, k)
        ensures FieldBytes(RootAt(c, depth, Leaves(), k)) != root
      {
        var age := |Leaves()| - k;
        assert ring[Slot(newest, window, age)] == RootAt(c, depth, Leaves(), k);
      }
      found := false;
    }

    // Every occupied slot holds a recent root.
    lemma SlotHolds(i: nat)
      requires Valid() && i < stored
      ensures var k := |Leaves()| - (if i <= newest then newest - i else newest - i + window);
        0 <= k <= |Leaves()| && Recent(window, |Leaves()|, k) && ring[i] == RootAt(c, depth, Leaves(), k)
    {
      var age := if i <= newest then newest - i else newest - i + window;
      assert Slot(newest, window, age) == i;
    }
  }
}
