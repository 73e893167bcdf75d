/**
 The two-in two-out circuit: its constraints over the field, the loop that
 checks them, and what a satisfying assignment says about integers.
 */
module Circuit {
  import opened Arith
  import opened Fields
  import opened Merkle
  import opened Notes

  const INPUTS: nat := 2
  const OUTPUTS: nat := 2

  datatype PublicInputs = PublicInputs(
    root: nat, nullifiers: seq<nat>, commitments: seq<nat>, amount: nat, hash: nat)

  datatype Witness = Witness(
    boundHash: nat, inValues: seq<nat>, assetId: nat, inRandom: seq<nat>, spendingKeys: seq<nat>,
    viewingKeys: seq<nat>, leafIndices: seq<nat>, siblings: seq<seq<nat>>, outNpks: seq<nat>, outValues: seq<nat>)

  predicate FieldArray(c: Crypto, s: seq<nat>, n: nat) {
    |s| == n && forall i | 0 <= i < n :: s[i] < c.p
  }

  // The declared types of the public inputs and of the private ones.
  predicate PublicTyped(c: Crypto, pub: PublicInputs) {
    && pub.root < c.p && pub.amount < c.p && pub.hash < c.p
    && FieldArray(c, pub.nullifiers, INPUTS) && FieldArray(c, pub.commitments, OUTPUTS)
  }

  predicate WitnessTyped(c: Crypto, depth: nat, w: Witness) {
    && w.boundHash < c.p && w.assetId < c.p
    && FieldArray(c, w.inValues, INPUTS) && FieldArray(c, w.inRandom, INPUTS)
    && FieldArray(c, w.spendingKeys, INPUTS) && FieldArray(c, w.viewingKeys, INPUTS)
    && FieldArray(c, w.leafIndices, INPUTS)
    && |w.siblings| == INPUTS && (forall i | 0 <= i < INPUTS :: FieldArray(c, w.siblings[i], depth))
    && FieldArray(c, w.outNpks, OUTPUTS) && FieldArray(c, w.outValues, OUTPUTS)
  }

  ghost predicate Typed(c: Crypto, depth: nat, pub: PublicInputs, w: Witness) {
    PublicTyped(c, pub) && WitnessTyped(c, depth, w)
  }

  function InOpening(c: Crypto, depth: nat, w: Witness, i: nat): Opening
    requires WitnessTyped(c, depth, w) && i < INPUTS
  {
    Opening(w.spendingKeys[i], w.viewingKeys[i], w.inRandom[i])
  }

  function InCommitment(c: Crypto, depth: nat, w: Witness, i: nat): nat
    requires WitnessTyped(c, depth, w) && i < INPUTS
  {
    Commitment(c, OpenedKey(c, InOpening(c, depth, w, i)), w.assetId, w.inValues[i])
  }

  function InRoot(c: Crypto, depth: nat, w: Witness, i: nat): nat
    requires WitnessTyped(c, depth, w) && i < INPUTS
  {
    PathRoot(c, InCommitment(c, depth, w, i), w.siblings[i], w.leafIndices[i])
  }

  function OutCommitment(c: Crypto, depth: nat, w: Witness, i: nat): nat
    requires WitnessTyped(c, depth, w) && i < OUTPUTS
  {
    Commitment(c, w.outNpks[i], w.assetId, w.outValues[i])
  }

  // ----- The constraints, over the field -----

  predicate InputConstraints(c: Crypto, depth: nat, pub: PublicInputs, w: Witness, i: nat)
    requires Typed(c, depth, pub, w) && i < INPUTS
  {
    && IsU64(w.inValues[i])
    && w.leafIndices[i] < Pow2(depth)
    && Mul(c.p, w.inValues[i], Sub(c.p, InRoot(c, depth, w, i), pub.root)) == 0
    && pub.nullifiers[i] == Nullifier(c, w.viewingKeys[i], w.leafIndices[i])
    && pub.nullifiers[i] != 0
  }

  predicate OutputConstraints(c: Crypto, depth: nat, pub: PublicInputs, w: Witness, i: nat)
    requires Typed(c, depth, pub, w) && i < OUTPUTS
  {
    IsU64(w.outValues[i]) && pub.commitments[i] == OutCommitment(c, depth, w, i)
  }

  predicate Satisfied(c: Crypto, depth: nat, pub: PublicInputs, w: Witness)
    requires Typed(c, depth, pub, w)
  {
    && InputConstraints(c, depth, pub, w, 0) && InputConstraints(c, depth, pub, w, 1)
    && Add(c.p, w.inValues[0], w.inValues[1]) != 0
    && pub.nullifiers[0] != pub.nullifiers[1]
    && OutputConstraints(c, depth, pub, w, 0) && OutputConstraints(c, depth, pub, w, 1)
    && Add(c.p, Add(c.p, w.inValues[0], w.inValues[1]), pub.amount) == Add(c.p, w.outValues[0], w.outValues[1])
    && pub.hash == w.boundHash
  }

  /** `main`: the assertions in program order; `ok` is false at the first that fails. */
  method Execute(c: Crypto, depth: nat, pub: PublicInputs, w: Witness) returns (ok: bool)
    requires Typed(c, depth, pub, w)
    ensures ok <==> Satisfied(c, depth, pub, w)
  {
    var sumIn := 0;
    for i := 0 to INPUTS
      invariant forall j: nat | j < i :: InputConstraints(c, depth, pub, w, j)
      invariant sumIn == if i == 0 then 0 else if i == 1 then w.inValues[0]
                         else Add(c.p, w.inValues[0], w.inValues[1])
    {
      if !IsU64(w.inValues[i]) {
        return false;
      }
      var npk := NoteKey(c, OwnerId(c, w.spendingKeys[i], w.viewingKeys[i]), w.inRandom[i]);
      var commitment := Commitment(c, npk, w.assetId, w.inValues[i]);
      var fits, computedRoot := ComputeRoot(c, commitment, w.siblings[i], w.leafIndices[i]);
      if !fits {
        return false;
      }
      if Mul(c.p, w.inValues[i], Sub(c.p, computedRoot, pub.root)) != 0 {
        return false;
      }
      if pub.nullifiers[i] != Nullifier(c, w.viewingKeys[i], w.leafIndices[i]) || pub.nullifiers[i] == 0 {
        return false;
      }
      SmallMod(w.inValues[i], c.p);
      sumIn := Add(c.p, sumIn, w.inValues[i]);
    }
    if sumIn == 0 || pub.nullifiers[0] == pub.nullifiers[1] {
      return false;
    }
    var sumOut := 0;
    for i := 0 to OUTPUTS
      invariant forall j: nat | j < i :: OutputConstraints(c, depth, pub, w, j)
      invariant sumOut == if i == 0 then 0 else if i == 1 then w.outValues[0]
                          else Add(c.p, w.outValues[0], w.outValues[1])
    {
      if !IsU64(w.outValues[i]) || pub.commitments[i] != OutCommitment(c, depth, w, i) {
        return false;
      }
      SmallMod(w.outValues[i], c.p);
      sumOut := Add(c.p, sumOut, w.outValues[i]);
    }
    ok := Add(c.p, sumIn, pub.amount) == sumOut && pub.hash == w.boundHash;
  }

  // ----- Their meaning, over the integers -----

  ghost predicate SpendsNote(c: Crypto, depth: nat, pub: PublicInputs, w: Witness, i: nat)
    requires Typed(c, depth, pub, w) && i < INPUTS
  {
    && IsU64(w.inValues[i]) && w.leafIndices[i] < Pow2(depth)
    && (w.inValues[i] > 0 ==> InRoot(c, depth, w, i) == pub.root)
    && pub.nullifiers[i] == Nullifier(c, w.viewingKeys[i], w.leafIndices[i]) != 0
  }

  ghost predicate JoinSplit(c: Crypto, depth: nat, pub: PublicInputs, w: Witness, amount: int)
    requires Typed(c, depth, pub, w)
  {
    && (forall i: nat | i < INPUTS :: SpendsNote(c, depth, pub, w, i))
    && (forall i: nat | i < OUTPUTS :: OutputConstraints(c, depth, pub, w, i))
    && (w.inValues[0] > 0 || w.inValues[1] > 0)
    && pub.nullifiers[0] != pub.nullifiers[1]
    && w.inValues[0] + w.inValues[1] + amount == w.outValues[0] + w.outValues[1]
    && w.boundHash == pub.hash
  }

  /** Field constraints hold exactly when the integer statement does. */
  lemma SatisfiedMeans(c: Crypto, depth: nat, pub: PublicInputs, w: Witness, amount: int)
    requires WideField(c.p) && IsI64(amount)
    requires Typed(c, depth, pub, w) && pub.amount == FromSigned(c.p, amount)
    ensures Satisfied(c, depth, pub, w) <==> JoinSplit(c, depth, pub, w, amount)
  {
    InputMeans(c, depth, pub, w, 0);
    InputMeans(c, depth, pub, w, 1);
    var v0, v1, o0, o1 := w.inValues[0], w.inValues[1], w.outValues[0], w.outValues[1];
    if IsU64(v0) && IsU64(v1) && IsU64(o0) && IsU64(o1) {
      SumNonZeroExact(c.p, v0, v1);
      ConservationExact(c.p, v0, v1, amount, o0, o1);
    }
    assert JoinSplit(c, depth, pub, w, amount) ==>
      SpendsNote(c, depth, pub, w, 0) && SpendsNote(c, depth, pub, w, 1)
      && OutputConstraints(c, depth, pub, w, 0) && OutputConstraints(c, depth, pub, w, 1);
  }

  lemma InputMeans(c: Crypto, depth: nat, pub: PublicInputs, w: Witness, i: nat)
    requires WideField(c.p) && Typed(c, depth, pub, w) && i < INPUTS
    ensures InputConstraints(c, depth, pub, w, i) <==> SpendsNote(c, depth, pub, w, i)
  {
    GatedEqualityExact(c.p, w.inValues[i], InRoot(c, depth, w, i), pub.root);
  }
}
