/**
 The planner against the circuit: padding and shuffling keep what the user asked
 for, and the client accepts a plan exactly when the circuit can be satisfied.
 */
module PlannerRefinement {
  import opened Bytes
  import opened Circuit
  import opened Fields
  import opened Notes
  import opened Planner

  // ----- Padding and shuffling -----

  ghost predicate OneAsset(plan: Plan) {
    forall s | s in plan.spends :: s.note.asset == plan.asset
  }

  lemma SwapKeeps<T>(s: seq<T>, swap: bool)
    requires |s| == 2
    ensures multiset(Swapped(s, swap)) == multiset(s)
  {
    assert s == [s[0], s[1]];
  }

  lemma PadKeeps<T>(chosen: seq<T>, dummies: seq<T>)
    requires |chosen| <= SLOTS && |dummies| == SLOTS
    ensures multiset(Padded(chosen, dummies)) == multiset(chosen) + multiset(dummies[|chosen|..])
  {
  }

  lemma SpendTotalOfPair(s: seq<Spend>)
    requires |s| == 2
    ensures SpendTotal(s) == s[0].note.value + s[1].note.value
  {
    var first := s[..1];
    assert SpendTotal(first) == SpendTotal(first[..0]) + first[0].note.value;
  }

  lemma SendTotalOfPair(s: seq<Send>)
    requires |s| == 2
    ensures SendTotal(s) == s[0].value + s[1].value
  {
    var first := s[..1];
    assert SendTotal(first) == SendTotal(first[..0]) + first[0].value;
  }

  lemma PaddedSpendTotal(chosen: seq<Spend>, dummies: seq<Spend>)
    requires 1 <= |chosen| <= SLOTS && |dummies| == SLOTS && forall s | s in dummies :: s.note.value == 0
    ensures SpendTotal(Padded(chosen, dummies)) == SpendTotal(chosen)
  {
    var padded := Padded(chosen, dummies);
    SpendTotalOfPair(padded);
    if |chosen| == 1 {
      assert padded[1] == dummies[1] && dummies[1] in dummies;
      assert chosen[..0] == [];
    } else {
      assert padded == chosen;
    }
  }

  lemma PaddedSendTotal(chosen: seq<Send>, dummies: seq<Send>)
    requires |chosen| <= SLOTS && |dummies| == SLOTS && forall s | s in dummies :: s.value == 0
    ensures SendTotal(Padded(chosen, dummies)) == SendTotal(chosen)
  {
    var padded := Padded(chosen, dummies);
    SendTotalOfPair(padded);
    assert dummies[0] in dummies && dummies[1] in dummies;
    if |chosen| == 1 {
      assert chosen[..0] == [];
    } else if |chosen| == 2 {
      assert padded == chosen;
    }
  }

  lemma PaddedTyped(c: Crypto, depth: nat, t: Transaction, asset: nat, draws: Draws, i: nat)
    requires WellFormed(t) && TransactionTyped(c, depth, t) && DrawsFor(c, depth, t, asset, draws) && i < SLOTS
    requires forall s | s in t.spends :: s.note.asset == asset
    ensures var spend, send := Padded(t.spends, draws.spends)[i], Padded(t.sends, draws.sends)[i];
      SpendTyped(c, depth, spend) && spend.note.asset == asset && SendTyped(c, send)
  {
    var spend, send := Padded(t.spends, draws.spends)[i], Padded(t.sends, draws.sends)[i];
    assert if i < |t.spends| then spend in t.spends else spend in draws.spends;
    assert if i < |t.sends| then send in t.sends else send in draws.sends;
  }

  // The plan's slots are well-typed notes of one asset.
  lemma PlanOfTyped(c: Crypto, depth: nat, t: Transaction, asset: nat, draws: Draws)
    requires WellFormed(t) && TransactionTyped(c, depth, t) && asset < c.p && DrawsFor(c, depth, t, asset, draws)
    requires forall s | s in t.spends :: s.note.asset == asset
    ensures PlanTyped(c, depth, PlanOf(t, asset, draws)) && OneAsset(PlanOf(t, asset, draws))
  {
    PaddedTyped(c, depth, t, asset, draws, 0);
    PaddedTyped(c, depth, t, asset, draws, 1);
    var plan := PlanOf(t, asset, draws);
    assert plan.spends == [plan.spends[0], plan.spends[1]];
  }

  /** For every draw the plan holds the user's notes, plus dummies worth nothing. */
  lemma PlanKeepsMeaning(c: Crypto, depth: nat, t: Transaction, asset: nat, draws: Draws)
    requires WellFormed(t) && DrawsFor(c, depth, t, asset, draws)
    ensures var plan := PlanOf(t, asset, draws);
      && multiset(plan.spends) == multiset(t.spends) + multiset(draws.spends[|t.spends|..])
      && multiset(plan.sends) == multiset(t.sends) + multiset(draws.sends[|t.sends|..])
      && plan.spends[0].note.value + plan.spends[1].note.value == SpendTotal(t.spends)
      && plan.sends[0].value + plan.sends[1].value == SendTotal(t.sends)
      && (Real(plan.spends[0]) || Real(plan.spends[1]))
  {
    var spends, sends := Padded(t.spends, draws.spends), Padded(t.sends, draws.sends);
    PadKeeps(t.spends, draws.spends);
    PadKeeps(t.sends, draws.sends);
    SwapKeeps(spends, draws.swapSpends);
    SwapKeeps(sends, draws.swapSends);
    assert forall s | s in draws.spends :: DummySpend(c, depth, asset, s);
    PaddedSpendTotal(t.spends, draws.spends);
    assert forall s | s in draws.sends :: DummySend(c, PayloadLength(t.sends), s);
    PaddedSendTotal(t.sends, draws.sends);
    SpendTotalOfPair(spends);
    SendTotalOfPair(sends);
    assert spends[0] == t.spends[0] && t.spends[0] in t.spends;
  }

  // Where the coins put each note: the first one in its own slot, or in the other.
  lemma CoinsPlace(c: Crypto, depth: nat, t: Transaction, asset: nat, draws: Draws)
    requires WellFormed(t) && DrawsFor(c, depth, t, asset, draws)
    ensures var plan := PlanOf(t, asset, draws);
      var p, q := (if draws.swapSpends then 1 else 0), (if draws.swapSends then 1 else 0);
      && plan.spends[p] == t.spends[0]
      && plan.spends[1 - p] == (if |t.spends| == 2 then t.spends[1] else draws.spends[1])
      && plan.sends[q] == (if |t.sends| >= 1 then t.sends[0] else draws.sends[0])
      && plan.sends[1 - q] == (if |t.sends| == 2 then t.sends[1] else draws.sends[1])
  {
  }

  // ----- Plans and satisfying assignments -----

  // The assignment handed to the circuit.
  function PlanWitness(c: Crypto, plan: Plan, public: Public): Witness
    requires |plan.spends| == SLOTS && |plan.sends| == SLOTS
  {
    var a, b := plan.spends[0], plan.spends[1];
    Witness(
      public.hash, [a.note.value, b.note.value], plan.asset, [a.note.random, b.note.random],
      [a.owner.spend, b.owner.spend], [a.owner.view, b.owner.view], [a.merkle.index, b.merkle.index],
      [a.merkle.siblings, b.merkle.siblings],
      [SendKey(c, plan.sends[0]), SendKey(c, plan.sends[1])], [plan.sends[0].value, plan.sends[1].value])
  }

  lemma PlanIsTyped(c: Crypto, depth: nat, plan: Plan, public: Public, root: nat)
    requires WideField(c.p) && PlanTyped(c, depth, plan) && public.hash < c.p && root < c.p
    ensures Typed(c, depth, PlanStatement(c, plan, public, root), PlanWitness(c, plan, public))
  {
    SignedIsResidue(c.p, public.amount);
    assert SpendTyped(c, depth, plan.spends[0]) && SpendTyped(c, depth, plan.spends[1]);
    assert SendTyped(c, plan.sends[0]) && SendTyped(c, plan.sends[1]);
  }

  lemma SlotMeans(c: Crypto, depth: nat, plan: Plan, public: Public, root: nat, i: nat)
    requires WideField(c.p) && PlanTyped(c, depth, plan) && OneAsset(plan)
    requires public.hash < c.p && root < c.p && i < SLOTS
    requires Typed(c, depth, PlanStatement(c, plan, public, root), PlanWitness(c, plan, public))
    ensures var s := plan.spends[i];
      SpendsNote(c, depth, PlanStatement(c, plan, public, root), PlanWitness(c, plan, public), i)
      <==> SlotFailure(c, depth, s).None? && (Real(s) ==> SpendRoot(c, s) == root)
  {
    var w, s := PlanWitness(c, plan, public), plan.spends[i];
    assert s in plan.spends && SpendTyped(c, depth, s);
    assert InOpening(c, depth, w, i) == SpendOpening(s);
  }

  /**
   The planner refines the circuit: under a root, the assignment of a plan satisfies
   every constraint if and only if the client accepts the plan and names that root.
   */
  lemma PlanMeetsCircuit(c: Crypto, depth: nat, plan: Plan, public: Public, root: nat)
    requires WideField(c.p) && PlanTyped(c, depth, plan) && OneAsset(plan)
    requires IsI64(public.amount) && public.hash < c.p && root < c.p
    ensures Typed(c, depth, PlanStatement(c, plan, public, root), PlanWitness(c, plan, public))
    ensures Satisfied(c, depth, PlanStatement(c, plan, public, root), PlanWitness(c, plan, public))
       <==> Acceptable(c, depth, plan, public.amount) && root == PlanRoot(c, plan)
  {
    var pub, w := PlanStatement(c, plan, public, root), PlanWitness(c, plan, public);
    PlanIsTyped(c, depth, plan, public, root);
    SatisfiedMeans(c, depth, pub, w, public.amount);
    SlotMeans(c, depth, plan, public, root, 0);
    SlotMeans(c, depth, plan, public, root, 1);
    assert SendTyped(c, plan.sends[0]) && SendTyped(c, plan.sends[1]);
    assert OutputConstraints(c, depth, pub, w, 0) && OutputConstraints(c, depth, pub, w, 1);
    JoinSplitUnfolded(c, depth, pub, w, public.amount);
  }

  lemma JoinSplitUnfolded(c: Crypto, depth: nat, pub: PublicInputs, w: Witness, amount: int)
    requires Typed(c, depth, pub, w)
    ensures JoinSplit(c, depth, pub, w, amount)
       <==> && SpendsNote(c, depth, pub, w, 0) && SpendsNote(c, depth, pub, w, 1)
            && OutputConstraints(c, depth, pub, w, 0) && OutputConstraints(c, depth, pub, w, 1)
            && (w.inValues[0] > 0 || w.inValues[1] > 0)
            && pub.nullifiers[0] != pub.nullifiers[1]
            && w.inValues[0] + w.inValues[1] + amount == w.outValues[0] + w.outValues[1]
            && w.boundHash == pub.hash
  {
  }

  /** The client succeeds exactly on the plans some root makes satisfiable. */
  lemma AcceptableExactly(c: Crypto, depth: nat, plan: Plan, public: Public)
    requires WideField(c.p) && PlanTyped(c, depth, plan) && OneAsset(plan)
    requires IsI64(public.amount) && public.hash < c.p
    ensures Acceptable(c, depth, plan, public.amount)
       <==> exists root: nat ::
              && root < c.p
              && Typed(c, depth, PlanStatement(c, plan, public, root), PlanWitness(c, plan, public))
              && Satisfied(c, depth, PlanStatement(c, plan, public, root), PlanWitness(c, plan, public))
  {
    var last := if Real(plan.spends[1]) then plan.spends[1] else plan.spends[0];
    var k := PlanRoot(c, plan);
    if Acceptable(c, depth, plan, public.amount) {
      assert k < c.p by {
        PlanRootIsField(c, last);
      }
      PlanMeetsCircuit(c, depth, plan, public, k);
    }
    if root: nat :|
      && root < c.p
      && Typed(c, depth, PlanStatement(c, plan, public, root), PlanWitness(c, plan, public))
      && Satisfied(c, depth, PlanStatement(c, plan, public, root), PlanWitness(c, plan, public))
    {
      PlanMeetsCircuit(c, depth, plan, public, root);
    }
  }

  lemma PlanRootIsField(c: Crypto, s: Spend)
    ensures SpendRoot(c, s) < c.p
  {
  }

  // ----- The input map -----

  // The parameters of `main`.
  datatype Parameter =
    | Root | Nullifiers | OutCommitments | PublicAmount | ExtDataHash | BoundHash | InValues | AssetId | InRandom
    | SpendingKeys | ViewingKeys | LeafIndices | SiblingPaths | OutNpks | OutValues

  datatype InputValue = FieldValue(f: nat) | Vec(v: seq<InputValue>)

  type Assignment = map<Parameter, InputValue>

  // The field elements an array input holds.
  predicate Holds(v: InputValue, s: seq<nat>) {
    v.Vec? && |v.v| == |s| && forall i | 0 <= i < |s| :: v.v[i] == FieldValue(s[i])
  }

  predicate ScalarIs(input: Assignment, parameter: Parameter, f: nat) {
    parameter in input && input[parameter] == FieldValue(f)
  }

  predicate ArrayIs(input: Assignment, parameter: Parameter, s: seq<nat>) {
    parameter in input && Holds(input[parameter], s)
  }

  predicate PathsAre(input: Assignment, paths: seq<seq<nat>>) {
    && SiblingPaths in input && input[SiblingPaths].Vec? && |input[SiblingPaths].v| == |paths|
    && forall i | 0 <= i < |paths| :: Holds(input[SiblingPaths].v[i], paths[i])
  }

  // The circuit reads `pub` and `w` out of an assignment, one entry per parameter.
  predicate Assigns(input: Assignment, pub: PublicInputs, w: Witness) {
    AssignsPublic(input, pub, w) && AssignsInputs(input, w) && AssignsOutputs(input, w)
  }

  predicate AssignsPublic(input: Assignment, pub: PublicInputs, w: Witness) {
    && ScalarIs(input, Root, pub.root)
    && ArrayIs(input, Nullifiers, pub.nullifiers) && ArrayIs(input, OutCommitments, pub.commitments)
    && ScalarIs(input, PublicAmount, pub.amount)
    && ScalarIs(input, ExtDataHash, pub.hash) && ScalarIs(input, BoundHash, w.boundHash)
  }

  predicate AssignsInputs(input: Assignment, w: Witness) {
    && ArrayIs(input, InValues, w.inValues) && ScalarIs(input, AssetId, w.assetId)
    && ArrayIs(input, InRandom, w.inRandom)
    && ArrayIs(input, SpendingKeys, w.spendingKeys) && ArrayIs(input, ViewingKeys, w.viewingKeys)
    && ArrayIs(input, LeafIndices, w.leafIndices) && PathsAre(input, w.siblings)
  }

  predicate AssignsOutputs(input: Assignment, w: Witness) {
    ArrayIs(input, OutNpks, w.outNpks) && ArrayIs(input, OutValues, w.outValues)
  }

  // What `main` receives under each of its parameters.
  function FieldsOf(v: InputValue): seq<nat> {
    if v.Vec? then seq(|v.v|, i requires 0 <= i < |v.v| => FieldOf(v.v[i])) else []
  }

  function FieldOf(v: InputValue): nat {
    if v.FieldValue? then v.f else 0
  }

  function PathsOf(v: InputValue): seq<seq<nat>> {
    if v.Vec? then seq(|v.v|, i requires 0 <= i < |v.v| => FieldsOf(v.v[i])) else []
  }

  function Argument(input: Assignment, parameter: Parameter): InputValue {
    if parameter in input then input[parameter] else Vec([])
  }

  function PublicOf(input: Assignment): PublicInputs {
    PublicInputs(
      FieldOf(Argument(input, Root)), FieldsOf(Argument(input, Nullifiers)), FieldsOf(Argument(input, OutCommitments)),
      FieldOf(Argument(input, PublicAmount)), FieldOf(Argument(input, ExtDataHash)))
  }

  function WitnessOf(input: Assignment): Witness {
    Witness(
      FieldOf(Argument(input, BoundHash)), FieldsOf(Argument(input, InValues)), FieldOf(Argument(input, AssetId)),
      FieldsOf(Argument(input, InRandom)), FieldsOf(Argument(input, SpendingKeys)),
      FieldsOf(Argument(input, ViewingKeys)), FieldsOf(Argument(input, LeafIndices)),
      PathsOf(Argument(input, SiblingPaths)), FieldsOf(Argument(input, OutNpks)), FieldsOf(Argument(input, OutValues)))
  }

  lemma HoldsReads(v: InputValue, s: seq<nat>)
    requires Holds(v, s)
    ensures FieldsOf(v) == s
  {
  }

  lemma PathsRead(input: Assignment, paths: seq<seq<nat>>)
    requires PathsAre(input, paths)
    ensures PathsOf(Argument(input, SiblingPaths)) == paths
  {
    forall i | 0 <= i < |paths|
      ensures FieldsOf(input[SiblingPaths].v[i]) == paths[i]
    {
      HoldsReads(input[SiblingPaths].v[i], paths[i]);
    }
  }

  // An assignment gives each parameter one meaning.
  lemma AssignsReads(input: Assignment, pub: PublicInputs, w: Witness)
    requires Assigns(input, pub, w)
    ensures PublicOf(input) == pub && WitnessOf(input) == w
  {
    HoldsReads(input[Nullifiers], pub.nullifiers);
    HoldsReads(input[OutCommitments], pub.commitments);
    HoldsReads(input[InValues], w.inValues);
    HoldsReads(input[InRandom], w.inRandom);
    HoldsReads(input[SpendingKeys], w.spendingKeys);
    HoldsReads(input[ViewingKeys], w.viewingKeys);
    HoldsReads(input[LeafIndices], w.leafIndices);
    PathsRead(input, w.siblings);
    HoldsReads(input[OutNpks], w.outNpks);
    HoldsReads(input[OutValues], w.outValues);
  }

  // The client's bytes, read big-endian and reduced.
  method ToValue(c: Crypto, f: nat) returns (v: InputValue)
    requires Encodable(c.p) && f < c.p
    ensures v == FieldValue(f)
  {
    FieldBytesRoundTrip(c.p, f);
    v := FieldValue(Reduce(c.p, FieldBytes(f)));
  }

  method ToVec(c: Crypto, fields: seq<nat>) returns (v: InputValue)
    requires Encodable(c.p) && forall i | 0 <= i < |fields| :: fields[i] < c.p
    ensures Holds(v, fields)
  {
    var values := [];
    for k := 0 to |fields|
      invariant |values| == k && forall i | 0 <= i < k :: values[i] == FieldValue(fields[i])
    {
      var value := ToValue(c, fields[k]);
      values := values + [value];
    }
    v := Vec(values);
  }

  method PublicEntries(c: Crypto, public: PublicInputs) returns (input: Assignment)
    requires Encodable(c.p) && PublicTyped(c, public)
    ensures forall w: Witness | w.boundHash == public.hash :: AssignsPublic(input, public, w)
  {
    input := map[];
    var v := ToValue(c, public.root);
    input := input[Root := v];
    v := ToVec(c, public.nullifiers);
    input := input[Nullifiers := v];
    v := ToVec(c, public.commitments);
    input := input[OutCommitments := v];
    v := ToValue(c, public.amount);
    input := input[PublicAmount := v];
    v := ToValue(c, public.hash);
    input := input[ExtDataHash := v][BoundHash := v];
  }

  const INPUT_PARAMETERS: set<Parameter> :=
    {InValues, AssetId, InRandom, SpendingKeys, ViewingKeys, LeafIndices, SiblingPaths}

  method InputEntries(c: Crypto, depth: nat, plan: Plan, public: Public) returns (input: Assignment)
    requires WideField(c.p) && Encodable(c.p) && PlanTyped(c, depth, plan)
    ensures AssignsInputs(input, PlanWitness(c, plan, public)) && input.Keys == INPUT_PARAMETERS
  {
    var a, b := plan.spends[0], plan.spends[1];
    assert SpendTyped(c, depth, a) && SpendTyped(c, depth, b);
    input := map[];
    var v := ToVec(c, [a.note.value, b.note.value]);
    input := input[InValues := v];
    v := ToValue(c, plan.asset);
    input := input[AssetId := v];
    v := ToVec(c, [a.note.random, b.note.random]);
    input := input[InRandom := v];
    v := ToVec(c, [a.owner.spend, b.owner.spend]);
    input := input[SpendingKeys := v];
    v := ToVec(c, [a.owner.view, b.owner.view]);
    input := input[ViewingKeys := v];
    v := ToVec(c, [a.merkle.index, b.merkle.index]);
    input := input[LeafIndices := v];
    v := ToVec(c, a.merkle.siblings);
    var v' := ToVec(c, b.merkle.siblings);
    input := input[SiblingPaths := Vec([v, v'])];
  }

  method OutputEntries(c: Crypto, depth: nat, plan: Plan, public: Public, keys: seq<nat>) returns (input: Assignment)
    requires WideField(c.p) && Encodable(c.p) && PlanTyped(c, depth, plan)
    requires keys == PlanWitness(c, plan, public).outNpks
    ensures AssignsOutputs(input, PlanWitness(c, plan, public)) && input.Keys == {OutNpks, OutValues}
  {
    assert SendTyped(c, plan.sends[0]) && SendTyped(c, plan.sends[1]);
    var v := ToVec(c, keys);
    input := map[OutNpks := v];
    v := ToVec(c, [plan.sends[0].value, plan.sends[1].value]);
    input := input[OutValues := v];
  }

  lemma PublicSurvive(input: Assignment, more: Assignment, pub: PublicInputs, w: Witness)
    requires AssignsPublic(input, pub, w) && more.Keys <= INPUT_PARAMETERS + {OutNpks, OutValues}
    ensures AssignsPublic(input + more, pub, w)
  {
  }

  lemma InputsSurvive(input: Assignment, more: Assignment, w: Witness)
    requires AssignsInputs(input, w) && more.Keys == {OutNpks, OutValues}
    ensures AssignsInputs(input + more, w)
  {
  }

  method InputMap(c: Crypto, depth: nat, plan: Plan, public: Public, values: Values) returns (input: Assignment)
    requires WideField(c.p) && Encodable(c.p) && PlanTyped(c, depth, plan)
    requires PublicTyped(c, values.public) && values == ValuesOf(c, plan, public)
    ensures Assigns(input, values.public, PlanWitness(c, plan, public))
  {
    ghost var w := PlanWitness(c, plan, public);
    var publics := PublicEntries(c, values.public);
    var inputs := InputEntries(c, depth, plan, public);
    var outputs := OutputEntries(c, depth, plan, public, values.outputKeys);
    PublicSurvive(publics, inputs + outputs, values.public, w);
    InputsSurvive(inputs, outputs, w);
    input := publics + (inputs + outputs);
    assert AssignsInputs(input, w) && AssignsOutputs(input, w);
  }
}
