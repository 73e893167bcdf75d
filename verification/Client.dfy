/**
 The client end to end: from a transaction to the instruction that carries its
 proof, and why the pool accepts that instruction.
 */
module Client {
  import opened Arith
  import opened Binding
  import opened Bytes
  import opened Circuit
  import opened Fields
  import opened Notes
  import opened Planner
  import opened PlannerRefinement
  import opened Pools
  import opened PublicWitnesses
  import opened Wrappers

  // A deployed pool as the client knows it, with its hash functions and address derivation.
  datatype ClientPool = ClientPool(
    c: Crypto, depth: nat, at: Deployment, vault: Key, asset: nat, keccak: seq<byte> -> seq<byte>, ata: Key -> Key)

  datatype ClientError =
    | PlanFailed(e: PlanError) // reported by the planner
    | PayloadTooLong | ZeroWithdrawal | AmountTooLarge | RecipientIsPool
    | WitnessFailed      // the circuit rejected its assignment
    | ProverFailed       // the worker gave no proof
    | ProverMismatch     // it proved something else
    | BoundElsewhere     // the instruction builder's two checks

  datatype Withdrawal = Withdrawal(recipient: Key, amount: int)

  // What the worker answers: proof bytes and the public witness it proved.
  datatype Reply = Reply(proof: seq<byte>, public: seq<byte>)

  type Prover = (PublicInputs, Witness) -> Option<Reply>

  datatype Proof = Proof(bytes: seq<byte>, public: PublicInputs)

  method NewWithdrawal(recipient: Key, amount: nat) returns (r: Result<Withdrawal, ClientError>)
    requires IsU64(amount)
    ensures r.Ok? <==> 0 < amount < TWO_63
    ensures if r.Ok? then r.value.recipient == recipient && r.value.amount == amount && IsI64(-r.value.amount)
            else r.error == if amount == 0 then ZeroWithdrawal else AmountTooLarge
  {
    if amount == 0 {
      return Err(ZeroWithdrawal);
    }
    if amount >= TWO_63 {
      return Err(AmountTooLarge);
    }
    r := Ok(Withdrawal(recipient, amount));
  }

  function ExternalOf(plan: Plan, recipient: Key): External
    requires |plan.sends| == SLOTS
  {
    External(recipient, [plan.sends[0].encrypted, plan.sends[1].encrypted])
  }

  predicate PayloadsFit(plan: Plan)
    requires |plan.sends| == SLOTS
  {
    |plan.sends[0].encrypted| <= MAX_ENCRYPTED_NOTE_LEN && |plan.sends[1].encrypted| <= MAX_ENCRYPTED_NOTE_LEN
  }

  function BoundHash(pool: ClientPool, external: External, amount: int): nat
    requires Bindable(external) && IsI64(amount)
  {
    BindingHash(pool.c.p, pool.keccak, pool.at, external, amount).value
  }

  // `bind`: the client's own byte list, hashed and reduced to a field element.
  method Bind(pool: ClientPool, external: External, amount: int) returns (r: Option<nat>)
    requires |external.notes| == 2 && IsI64(amount)
    ensures r == BindingHash(pool.c.p, pool.keccak, pool.at, external, amount)
  {
    if |external.notes[0]| >= 0x1_0000_0000 || |external.notes[1]| >= 0x1_0000_0000 {
      return None;
    }
    var slices := [BINDING_DOMAIN, pool.at.domain, pool.at.program, pool.at.pool, pool.at.mint, pool.at.verifier,
                   external.recipient, I64Bytes(amount),
                   U32Bytes(|external.notes[0]|), external.notes[0], U32Bytes(|external.notes[1]|), external.notes[1]];
    SlicesArePreimage(slices, pool.at, external, amount);
    var digest := Hashv(pool.keccak, slices);
    r := Some(Reduce(pool.c.p, digest));
  }

  // The instruction for a proof.
  function InstructionOf(pool: ClientPool, proof: Proof, external: External, amount: int): TransactIx
    requires |proof.public.nullifiers| == SLOTS && |proof.public.commitments| == SLOTS
  {
    var pub := proof.public;
    TransactIx(
      proof.bytes, FieldBytes(pub.root),
      [FieldBytes(pub.nullifiers[0]), FieldBytes(pub.nullifiers[1])],
      [FieldBytes(pub.commitments[0]), FieldBytes(pub.commitments[1])],
      amount, external, if amount < 0 then pool.ata(external.recipient) else pool.vault, pool.at.verifier)
  }

  method BuildInstruction(pool: ClientPool, proof: Proof, external: External, amount: int)
      returns (r: Result<TransactIx, ClientError>)
    requires |proof.public.nullifiers| == SLOTS && |proof.public.commitments| == SLOTS
    requires Bindable(external) && IsI64(amount)
    ensures r.Ok? <==> proof.public.hash == BoundHash(pool, external, amount)
                       && proof.public.amount == FromSigned(pool.c.p, amount)
    ensures if r.Ok? then r.value == InstructionOf(pool, proof, external, amount) else r.error == BoundElsewhere
  {
    var bound := Bind(pool, external, amount);
    if proof.public.hash != bound.value {
      return Err(BoundElsewhere);
    }
    if proof.public.amount != FromSigned(pool.c.p, amount) {
      return Err(BoundElsewhere);
    }
    r := Ok(InstructionOf(pool, proof, external, amount));
  }

  // The circuit's statement for a plan sent to a recipient.
  function PlanPublic(pool: ClientPool, plan: Plan, recipient: Key, amount: int): Public
    requires |plan.sends| == SLOTS && PayloadsFit(plan) && IsI64(amount)
  {
    Public(amount, BoundHash(pool, ExternalOf(plan, recipient), amount))
  }

  // `prepare` returned this instruction for this plan: the plan is provable, the worker proved
  // exactly its statement, and the instruction carries that proof.
  ghost predicate Prepared(pool: ClientPool, plan: Plan, recipient: Key, amount: int, proof: seq<byte>,
                           ix: TransactIx) {
    && PlanTyped(pool.c, pool.depth, plan) && OneAsset(plan) && plan.asset == pool.asset
    && PayloadsFit(plan) && IsI64(amount)
    && Acceptable(pool.c, pool.depth, plan, amount)
    && var values := ValuesOf(pool.c, plan, PlanPublic(pool, plan, recipient, amount));
      ix == InstructionOf(pool, Proof(proof, values.public), ExternalOf(plan, recipient), amount)
  }

  // The worker proved the statement it was asked for.
  predicate Proves(prover: Prover, pub: PublicInputs, w: Witness)
    requires |pub.nullifiers| == INPUTS && |pub.commitments| == OUTPUTS
  {
    var reply := prover(pub, w);
    reply.Some? && reply.value.public == Layout(EncodedFields(pub))
  }

  // What the worker answers when asked to prove a plan.
  function AnswerTo(pool: ClientPool, plan: Plan, public: Public, prover: Prover): Option<Reply>
    requires |plan.spends| == SLOTS && |plan.sends| == SLOTS
  {
    prover(ValuesOf(pool.c, plan, public).public, PlanWitness(pool.c, plan, public))
  }

  // What the client proves for a plan, and whether its worker does.
  predicate PlanProved(pool: ClientPool, plan: Plan, public: Public, prover: Prover)
    requires |plan.spends| == SLOTS && |plan.sends| == SLOTS
  {
    Proves(prover, ValuesOf(pool.c, plan, public).public, PlanWitness(pool.c, plan, public))
  }

  // Why no proof comes back, if none does.
  function ProveFailure(pool: ClientPool, plan: Plan, public: Public, prover: Prover): Option<ClientError>
    requires |plan.spends| == SLOTS && |plan.sends| == SLOTS
  {
    var failure := FirstFailure(pool.c, pool.depth, plan, public.amount);
    if failure.Some? then Some(PlanFailed(failure.value))
    else if AnswerTo(pool, plan, public, prover).None?
    then Some(ProverFailed)
    else if !PlanProved(pool, plan, public, prover) then Some(ProverMismatch)
    else None
  }

  // The instruction carries the very proof the worker returned for this plan.
  predicate CarriesProof(pool: ClientPool, plan: Plan, recipient: Key, amount: int, prover: Prover, ix: TransactIx)
    requires |plan.spends| == SLOTS && |plan.sends| == SLOTS && IsI64(amount)
  {
    && PayloadsFit(plan)
    && var public := PlanPublic(pool, plan, recipient, amount);
      var reply := AnswerTo(pool, plan, public, prover);
      reply.Some? && ix.proof == reply.value.proof
  }

  // When an instruction can be prepared at all.
  ghost predicate Preparable(pool: ClientPool, t: Transaction, plan: Plan, recipient: Key, amount: int, prover: Prover)
    requires |plan.spends| == SLOTS && |plan.sends| == SLOTS && IsI64(amount)
  {
    && (forall s | s in t.spends :: s.note.asset == pool.asset)
    && PayloadsFit(plan)
    && Acceptable(pool.c, pool.depth, plan, amount)
    && PlanProved(pool, plan, PlanPublic(pool, plan, recipient, amount), prover)
  }

  // Which error: exactly when each of them is.
  lemma ProveFailureExactly(pool: ClientPool, plan: Plan, public: Public, prover: Prover)
    requires |plan.spends| == SLOTS && |plan.sends| == SLOTS
    ensures var failure := ProveFailure(pool, plan, public, prover);
      var acceptable := Acceptable(pool.c, pool.depth, plan, public.amount);
      var reply := AnswerTo(pool, plan, public, prover);
      && (failure.None? <==> acceptable && PlanProved(pool, plan, public, prover))
      && (failure == Some(ProverFailed) <==> acceptable && reply.None?)
      && (failure == Some(ProverMismatch) <==>
            && acceptable && reply.Some?
            && reply.value.public != Layout(EncodedFields(ValuesOf(pool.c, plan, public).public)))
  {
    NoFailureExactly(pool.c, pool.depth, plan, public.amount);
  }

  method Prove(pool: ClientPool, plan: Plan, public: Public, prover: Prover) returns (r: Result<Proof, ClientError>)
    requires WideField(pool.c.p) && Encodable(pool.c.p)
    requires PlanTyped(pool.c, pool.depth, plan) && OneAsset(plan) && IsI64(public.amount) && public.hash < pool.c.p
    ensures r.Ok? <==> Acceptable(pool.c, pool.depth, plan, public.amount) && PlanProved(pool, plan, public, prover)
    ensures r.Ok? ==>
      && r.value.public == ValuesOf(pool.c, plan, public).public
      && r.value.bytes == AnswerTo(pool, plan, public, prover).value.proof
    ensures r.Err? ==> ProveFailure(pool, plan, public, prover) == Some(r.error)
  {
    var planned := PlanValues(pool.c, pool.depth, plan, public);
    NoFailureExactly(pool.c, pool.depth, plan, public.amount);
    if planned.Err? {
      return Err(PlanFailed(planned.error));
    }
    var values := planned.value;
    PlanRootIsField(pool.c, if Real(plan.spends[1]) then plan.spends[1] else plan.spends[0]);
    PlanMeetsCircuit(pool.c, pool.depth, plan, public, values.public.root);
    var input := InputMap(pool.c, pool.depth, plan, public, values);
    AssignsReads(input, values.public, PlanWitness(pool.c, plan, public));
    var assignment := WitnessOf(input);
    var executed := Execute(pool.c, pool.depth, PublicOf(input), assignment);
    if !executed {
      return Err(WitnessFailed);
    }
    var reply := prover(values.public, assignment);
    if reply.None? {
      return Err(ProverFailed);
    }
    var expected := WitnessBytes(values.public);
    if reply.value.public != expected {
      return Err(ProverMismatch);
    }
    r := Ok(Proof(reply.value.proof, values.public));
  }

  method Prepare(pool: ClientPool, t: Transaction, recipient: Key, amount: int, draws: Draws, prover: Prover)
      returns (r: Result<TransactIx, ClientError>, plan: Plan)
    requires WideField(pool.c.p) && Encodable(pool.c.p) && pool.asset < pool.c.p && IsI64(amount)
    requires WellFormed(t) && TransactionTyped(pool.c, pool.depth, t)
    requires DrawsFor(pool.c, pool.depth, t, pool.asset, draws)
    ensures plan == PlanOf(t, pool.asset, draws)
    ensures r.Ok? <==> Preparable(pool, t, plan, recipient, amount, prover)
    ensures r.Ok? ==> Prepared(pool, plan, recipient, amount, r.value.proof, r.value)
    ensures r.Ok? ==> CarriesProof(pool, plan, recipient, amount, prover, r.value)
    ensures r.Err? ==>
      if exists s | s in t.spends :: s.note.asset != pool.asset then r.error == PlanFailed(AssetMismatch)
      else if !PayloadsFit(plan) then r.error == PayloadTooLong
      else ProveFailure(pool, plan, PlanPublic(pool, plan, recipient, amount), prover) == Some(r.error)
  {
    var made := MakePlan(pool.c, pool.depth, t, pool.asset, draws);
    plan := PlanOf(t, pool.asset, draws);
    if made.Err? {
      return Err(PlanFailed(made.error)), plan;
    }
    PlanOfTyped(pool.c, pool.depth, t, pool.asset, draws);
    if !PayloadsFit(plan) {
      return Err(PayloadTooLong), plan;
    }
    var external := ExternalOf(plan, recipient);
    var bound := Bind(pool, external, amount);
    var public := Public(amount, bound.value);
    var proof := Prove(pool, plan, public, prover);
    if proof.Err? {
      return Err(proof.error), plan;
    }
    r := BuildInstruction(pool, proof.value, external, amount);
  }

  /** A private transfer names the pool itself as recipient and moves no tokens. */
  method Transfer(pool: ClientPool, t: Transaction, draws: Draws, prover: Prover)
      returns (r: Result<TransactIx, ClientError>, plan: Plan)
    requires WideField(pool.c.p) && Encodable(pool.c.p) && pool.asset < pool.c.p
    requires WellFormed(t) && TransactionTyped(pool.c, pool.depth, t)
    requires DrawsFor(pool.c, pool.depth, t, pool.asset, draws)
    ensures plan == PlanOf(t, pool.asset, draws)
    ensures r.Ok? <==> Preparable(pool, t, plan, pool.at.pool, 0, prover)
    ensures r.Ok? ==> Prepared(pool, plan, pool.at.pool, 0, r.value.proof, r.value)
    ensures r.Ok? ==> CarriesProof(pool, plan, pool.at.pool, 0, prover, r.value)
    ensures r.Ok? ==> r.value.external.recipient == pool.at.pool && r.value.recipientAta == pool.vault
  {
    r, plan := Prepare(pool, t, pool.at.pool, 0, draws, prover);
  }

  method Withdraw(pool: ClientPool, t: Transaction, withdrawal: Withdrawal, draws: Draws, prover: Prover)
      returns (r: Result<TransactIx, ClientError>, plan: Plan)
    requires WideField(pool.c.p) && Encodable(pool.c.p) && pool.asset < pool.c.p
    requires WellFormed(t) && TransactionTyped(pool.c, pool.depth, t)
    requires DrawsFor(pool.c, pool.depth, t, pool.asset, draws)
    requires 0 < withdrawal.amount < TWO_63
    ensures plan == PlanOf(t, pool.asset, draws)
    ensures withdrawal.recipient == pool.at.pool ==> r == Err(RecipientIsPool)
    ensures withdrawal.recipient != pool.at.pool ==>
      (r.Ok? <==> Preparable(pool, t, plan, withdrawal.recipient, -withdrawal.amount, prover))
    ensures r.Ok? ==> Prepared(pool, plan, withdrawal.recipient, -withdrawal.amount, r.value.proof, r.value)
    ensures r.Ok? ==> CarriesProof(pool, plan, withdrawal.recipient, -withdrawal.amount, prover, r.value)
    ensures r.Ok? ==>
      && r.value.external.recipient == withdrawal.recipient
      && r.value.recipientAta == pool.ata(withdrawal.recipient)
  {
    if withdrawal.recipient == pool.at.pool {
      return Err(RecipientIsPool), PlanOf(t, pool.asset, draws);
    }
    r, plan := Prepare(pool, t, withdrawal.recipient, -withdrawal.amount, draws, prover);
  }
}
