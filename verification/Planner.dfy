/**
 The client's planner: from the notes a user spends and sends to a padded,
 shuffled plan, and from a plan to the public values of its proof.
 */
module Planner {
  import opened Arith
  import opened Bytes
  import opened Circuit
  import opened Fields
  import opened Merkle
  import opened Notes
  import opened Wrappers

  const SLOTS: nat := 2

  datatype Owner = Owner(spend: nat, view: nat)

  datatype Input = Input(value: nat, asset: nat, random: nat)

  datatype MerklePath = MerklePath(index: nat, siblings: seq<nat>)

  datatype Spend = Spend(note: Input, owner: Owner, merkle: MerklePath)

  // A note to create, kept together with its ciphertext.
  datatype Send = Send(owner: nat, value: nat, random: nat, encrypted: seq<byte>)

  datatype Transaction = Transaction(spends: seq<Spend>, sends: seq<Send>)

  datatype Plan = Plan(spends: seq<Spend>, sends: seq<Send>, asset: nat)

  datatype Public = Public(amount: int, hash: nat)

  datatype Values = Values(public: PublicInputs, outputKeys: seq<nat>)

  datatype PlanError =
    | SpendArity | SendArity | ZeroSpend | AssetMismatch
    | IndexRange | NullifierZero | RootsDiffer | NullifiersEqual | NotConserved | NoRealInput

  // ----- Types of the client's values -----

  predicate SpendTyped(c: Crypto, depth: nat, s: Spend) {
    && IsU64(s.note.value) && s.note.asset < c.p && s.note.random < c.p
    && s.owner.spend < c.p && s.owner.view < c.p
    && s.merkle.index < 0x1_0000_0000 && FieldArray(c, s.merkle.siblings, depth)
  }

  predicate SendTyped(c: Crypto, s: Send) {
    IsU64(s.value) && s.owner < c.p && s.random < c.p
  }

  predicate TransactionTyped(c: Crypto, depth: nat, t: Transaction) {
    (forall s | s in t.spends :: SpendTyped(c, depth, s)) && (forall s | s in t.sends :: SendTyped(c, s))
  }

  predicate PlanTyped(c: Crypto, depth: nat, plan: Plan) {
    && |plan.spends| == SLOTS && |plan.sends| == SLOTS && plan.asset < c.p
    && (forall i | 0 <= i < SLOTS :: SpendTyped(c, depth, plan.spends[i]) && SendTyped(c, plan.sends[i]))
  }

  // ----- Derivations -----

  function SpendOpening(s: Spend): Opening {
    Opening(s.owner.spend, s.owner.view, s.note.random)
  }

  function SpendNullifier(c: Crypto, s: Spend): nat {
    Nullifier(c, s.owner.view, s.merkle.index)
  }

  function SpendRoot(c: Crypto, s: Spend): nat {
    PathRoot(c, Commitment(c, OpenedKey(c, SpendOpening(s)), s.note.asset, s.note.value),
             s.merkle.siblings, s.merkle.index)
  }

  function SendKey(c: Crypto, s: Send): nat {
    NoteKey(c, s.owner, s.random)
  }

  function SendCommitment(c: Crypto, asset: nat, s: Send): nat {
    Commitment(c, SendKey(c, s), asset, s.value)
  }

  function Real(s: Spend): bool {
    s.note.value != 0
  }

  function SpendTotal(spends: seq<Spend>): nat {
    if spends == [] then 0 else SpendTotal(spends[..|spends| - 1]) + spends[|spends| - 1].note.value
  }

  function SendTotal(sends: seq<Send>): nat {
    if sends == [] then 0 else SendTotal(sends[..|sends| - 1]) + sends[|sends| - 1].value
  }

  // ----- Transaction::new -----

  predicate WellFormed(t: Transaction) {
    1 <= |t.spends| <= SLOTS && |t.sends| <= SLOTS && forall s | s in t.spends :: Real(s)
  }

  method NewTransaction(inputs: seq<Spend>, outputs: seq<Send>) returns (r: Result<Transaction, PlanError>)
    ensures r.Ok? <==> WellFormed(Transaction(inputs, outputs))
    ensures r == if !(1 <= |inputs| <= SLOTS) then Err(SpendArity) else if |outputs| > SLOTS then Err(SendArity)
                 else if r.Ok? then Ok(Transaction(inputs, outputs)) else Err(ZeroSpend)
  {
    if !(1 <= |inputs| <= SLOTS) {
      return Err(SpendArity);
    }
    if |outputs| > SLOTS {
      return Err(SendArity);
    }
    if exists s | s in inputs :: s.note.value == 0 {
      return Err(ZeroSpend);
    }
    r := Ok(Transaction(inputs, outputs));
  }

  // ----- Transaction::plan -----

  // What the random generator yields: an accepted dummy per slot and the two coin flips.
  datatype Draws = Draws(spends: seq<Spend>, sends: seq<Send>, swapSpends: bool, swapSends: bool)

  function PayloadLength(sends: seq<Send>): nat {
    if sends == [] then 0
    else
      var n := |sends| - 1;
      var rest := PayloadLength(sends[..n]);
      if |sends[n].encrypted| > rest then |sends[n].encrypted| else rest
  }

  // `dummy_spend` and `Send::dummy` return only such values.
  predicate DummySpend(c: Crypto, depth: nat, asset: nat, s: Spend) {
    && SpendTyped(c, depth, s) && s.note.value == 0 && s.note.asset == asset
    && s.merkle.index < Pow2(depth) && SpendNullifier(c, s) != 0
  }

  predicate DummySend(c: Crypto, length: nat, s: Send) {
    SendTyped(c, s) && s.value == 0 && |s.encrypted| == length
  }

  predicate DrawsFor(c: Crypto, depth: nat, t: Transaction, asset: nat, draws: Draws) {
    && |draws.spends| == SLOTS && (forall s | s in draws.spends :: DummySpend(c, depth, asset, s))
    && |draws.sends| == SLOTS && (forall s | s in draws.sends :: DummySend(c, PayloadLength(t.sends), s))
  }

  function Swapped<T>(s: seq<T>, swap: bool): seq<T>
    requires |s| == 2
  {
    if swap then [s[1], s[0]] else s
  }

  // One coin flip decides whether the two slots trade places.
  method ShufflePair<T>(values: array<T>, swap: bool)
    requires values.Length == 2
    modifies values
    ensures values[..] == Swapped(old(values[..]), swap)
  {
    if swap {
      values[0], values[1] := values[1], values[0];
    }
  }

  method Shuffled<T>(pair: seq<T>, swap: bool) returns (s: seq<T>)
    requires |pair| == 2
    ensures s == Swapped(pair, swap)
  {
    var values := new T[2](i requires 0 <= i < 2 => pair[i]);
    assert values[..] == pair;
    ShufflePair(values, swap);
    s := values[..];
  }

  // The real values first, then dummies up to two slots.
  function Padded<T>(chosen: seq<T>, dummies: seq<T>): (s: seq<T>)
    requires |chosen| <= SLOTS && |dummies| == SLOTS
    ensures |s| == SLOTS
  {
    chosen + dummies[|chosen|..]
  }

  // Push dummies until both slots are taken.
  method Pad<T>(chosen: seq<T>, dummies: seq<T>) returns (s: seq<T>)
    requires |chosen| <= SLOTS && |dummies| == SLOTS
    ensures s == Padded(chosen, dummies)
  {
    s := chosen;
    while |s| < SLOTS
      invariant |chosen| <= |s| <= SLOTS
      invariant s == chosen + dummies[|chosen|..|s|]
    {
      s := s + [dummies[|s|]];
    }
  }

  function PlanOf(t: Transaction, asset: nat, draws: Draws): Plan
    requires WellFormed(t) && |draws.spends| == SLOTS && |draws.sends| == SLOTS
  {
    Plan(Swapped(Padded(t.spends, draws.spends), draws.swapSpends),
         Swapped(Padded(t.sends, draws.sends), draws.swapSends), asset)
  }

  method MakePlan(c: Crypto, depth: nat, t: Transaction, asset: nat, draws: Draws) returns (r: Result<Plan, PlanError>)
    requires WellFormed(t) && DrawsFor(c, depth, t, asset, draws)
    ensures r.Ok? <==> forall s | s in t.spends :: s.note.asset == asset
    ensures if r.Ok? then r.value == PlanOf(t, asset, draws) else r.error == AssetMismatch
  {
    if exists s | s in t.spends :: s.note.asset != asset {
      return Err(AssetMismatch);
    }
    var inputs := Pad(t.spends, draws.spends);
    var outputs := Pad(t.sends, draws.sends);
    var spends := Shuffled(inputs, draws.swapSpends);
    var sends := Shuffled(outputs, draws.swapSends);
    r := Ok(Plan(spends, sends, asset));
  }

  // ----- Plan::values -----

  // The root named by the last real input.
  function PlanRoot(c: Crypto, plan: Plan): nat
    requires |plan.spends| == SLOTS
  {
    SpendRoot(c, if Real(plan.spends[1]) then plan.spends[1] else plan.spends[0])
  }

  function ValuesOf(c: Crypto, plan: Plan, public: Public): Values
    requires |plan.spends| == SLOTS && |plan.sends| == SLOTS
  {
    Values(PlanStatement(c, plan, public, PlanRoot(c, plan)), [SendKey(c, plan.sends[0]), SendKey(c, plan.sends[1])])
  }

  // The public inputs of a plan, for a given root.
  function PlanStatement(c: Crypto, plan: Plan, public: Public, root: nat): PublicInputs
    requires |plan.spends| == SLOTS && |plan.sends| == SLOTS
  {
    PublicInputs(
      root,
      [SpendNullifier(c, plan.spends[0]), SpendNullifier(c, plan.spends[1])],
      [SendCommitment(c, plan.asset, plan.sends[0]), SendCommitment(c, plan.asset, plan.sends[1])],
      FromSigned(c.p, public.amount), public.hash)
  }

  // A plan the client agrees to prove.
  ghost predicate Acceptable(c: Crypto, depth: nat, plan: Plan, amount: int)
    requires |plan.spends| == SLOTS && |plan.sends| == SLOTS
  {
    var a, b := plan.spends[0], plan.spends[1];
    && a.merkle.index < Pow2(depth) && b.merkle.index < Pow2(depth)
    && SpendNullifier(c, a) != 0 && SpendNullifier(c, b) != 0
    && SpendNullifier(c, a) != SpendNullifier(c, b)
    && (Real(a) || Real(b))
    && (Real(a) && Real(b) ==> SpendRoot(c, a) == SpendRoot(c, b))
    && a.note.value + b.note.value + amount == plan.sends[0].value + plan.sends[1].value
  }

  // The check of slot `i` that fails first.
  function SlotFailure(c: Crypto, depth: nat, s: Spend): Option<PlanError> {
    if s.merkle.index >= Pow2(depth) then Some(IndexRange)
    else if SpendNullifier(c, s) == 0 then Some(NullifierZero)
    else None
  }

  // The error `values` reports, if any.
  function FirstFailure(c: Crypto, depth: nat, plan: Plan, amount: int): Option<PlanError>
    requires |plan.spends| == SLOTS && |plan.sends| == SLOTS
  {
    var a, b := plan.spends[0], plan.spends[1];
    if SlotFailure(c, depth, a).Some? then SlotFailure(c, depth, a)
    else if SlotFailure(c, depth, b).Some? then SlotFailure(c, depth, b)
    else if Real(a) && Real(b) && SpendRoot(c, a) != SpendRoot(c, b) then Some(RootsDiffer)
    else if SpendNullifier(c, a) == SpendNullifier(c, b) then Some(NullifiersEqual)
    else if a.note.value + b.note.value + amount != plan.sends[0].value + plan.sends[1].value then Some(NotConserved)
    else if !Real(a) && !Real(b) then Some(NoRealInput)
    else None
  }

  lemma NoFailureExactly(c: Crypto, depth: nat, plan: Plan, amount: int)
    requires |plan.spends| == SLOTS && |plan.sends| == SLOTS
    ensures FirstFailure(c, depth, plan, amount).None? <==> Acceptable(c, depth, plan, amount)
  {
  }

  // Which error is reported: exactly when each of them is.
  lemma FailureExactly(c: Crypto, depth: nat, plan: Plan, amount: int)
    requires |plan.spends| == SLOTS && |plan.sends| == SLOTS
    ensures var failure, a, b := FirstFailure(c, depth, plan, amount), plan.spends[0], plan.spends[1];
      var inA, inB := a.merkle.index < Pow2(depth), b.merkle.index < Pow2(depth);
      var nA, nB := SpendNullifier(c, a), SpendNullifier(c, b);
      var slots := inA && inB && nA != 0 && nB != 0;
      var oneRoot := Real(a) && Real(b) ==> SpendRoot(c, a) == SpendRoot(c, b);
      var conserved := a.note.value + b.note.value + amount == plan.sends[0].value + plan.sends[1].value;
      && (failure == Some(IndexRange) <==> !inA || (nA != 0 && !inB))
      && (failure == Some(NullifierZero) <==> inA && (nA == 0 || (inB && nB == 0)))
      && (failure == Some(RootsDiffer) <==> slots && !oneRoot)
      && (failure == Some(NullifiersEqual) <==> slots && oneRoot && nA == nB)
      && (failure == Some(NotConserved) <==> slots && oneRoot && nA != nB && !conserved)
      && (failure == Some(NoRealInput) <==> slots && nA != nB && conserved && !Real(a) && !Real(b))
  {
  }

  method PlanValues(c: Crypto, depth: nat, plan: Plan, public: Public) returns (r: Result<Values, PlanError>)
    requires PlanTyped(c, depth, plan) && IsI64(public.amount)
    ensures var failure := FirstFailure(c, depth, plan, public.amount);
      if failure.None? then r.Ok? && r.value == ValuesOf(c, plan, public) else r.Err? && r.error == failure.value
  {
    var root: Option<nat> := None;
    var nullifiers := [];
    var inputTotal := 0;
    for slot := 0 to SLOTS
      invariant |nullifiers| == slot
      invariant forall i | 0 <= i < slot ::
        SlotFailure(c, depth, plan.spends[i]).None? && nullifiers[i] == SpendNullifier(c, plan.spends[i])
      invariant inputTotal == (if slot > 0 then plan.spends[0].note.value else 0)
                            + (if slot > 1 then plan.spends[1].note.value else 0)
      invariant root == if slot > 1 && Real(plan.spends[1]) then Some(SpendRoot(c, plan.spends[1]))
                        else if slot > 0 && Real(plan.spends[0]) then Some(SpendRoot(c, plan.spends[0]))
                        else None
      invariant slot > 1 && Real(plan.spends[0]) && Real(plan.spends[1]) ==>
        SpendRoot(c, plan.spends[0]) == SpendRoot(c, plan.spends[1])
    {
      var spend := plan.spends[slot];
      if spend.merkle.index >= Pow2(depth) {
        return Err(IndexRange);
      }
      var nullifier := SpendNullifier(c, spend);
      if nullifier == 0 {
        return Err(NullifierZero);
      }
      nullifiers := nullifiers + [nullifier];
      inputTotal := inputTotal + spend.note.value;
      if spend.note.value != 0 {
        var leaf := Commitment(c, OpenedKey(c, SpendOpening(spend)), spend.note.asset, spend.note.value);
        var candidate := MerkleRoot(c, leaf, spend.merkle.index, spend.merkle.siblings);
        if root.Some? && root.value != candidate {
          return Err(RootsDiffer);
        }
        root := Some(candidate);
      }
    }
    if nullifiers[0] == nullifiers[1] {
      return Err(NullifiersEqual);
    }
    var outputKeys := [SendKey(c, plan.sends[0]), SendKey(c, plan.sends[1])];
    var commitments := [Commitment(c, outputKeys[0], plan.asset, plan.sends[0].value),
                        Commitment(c, outputKeys[1], plan.asset, plan.sends[1].value)];
    var outputTotal := plan.sends[0].value + plan.sends[1].value;
    if inputTotal + public.amount != outputTotal {
      return Err(NotConserved);
    }
    if root.None? {
      return Err(NoRealInput);
    }
    r := Ok(Values(PublicInputs(root.value, nullifiers, commitments, FromSigned(c.p, public.amount), public.hash),
                   outputKeys));
  }
}
