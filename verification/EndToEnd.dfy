/**
 Client meets program: an instruction the client prepared passes every check of
 the pool while its root is recent, its nullifiers are unrecorded and the tree
 has room.
 */
module EndToEnd {
  import opened Arith
  import opened Binding
  import opened Bytes
  import opened Circuit
  import opened Client
  import opened Fields
  import opened Locking
  import opened Merkle
  import opened Notes
  import opened Planner
  import opened PlannerRefinement
  import opened PoolRuns
  import opened PoolSafety
  import opened Pools
  import opened PublicWitnesses
  import opened TreeAccounts

  // The client is configured for this deployment; both derive the asset from the mint.
  ghost predicate Matches(env: Env, pool: ClientPool) {
    && pool.c == env.c && pool.depth == env.depth && pool.at == env.at && pool.vault == env.vault
    && pool.keccak == env.keccak
    && env.asset == AssetOf(env.c, env.at.mint) && pool.asset == AssetOf(pool.c, pool.at.mint)
  }

  // The assignment behind a prepared instruction.
  ghost function PreparedWitness(pool: ClientPool, plan: Plan, recipient: Key, amount: int): Witness
    requires |plan.spends| == SLOTS && |plan.sends| == SLOTS && PayloadsFit(plan) && IsI64(amount)
  {
    PlanWitness(pool.c, plan, PlanPublic(pool, plan, recipient, amount))
  }

  // Completeness of the proof system: the worker's proof of a satisfied statement verifies.
  ghost predicate ProofVerifies(env: Env, pub: PublicInputs, proof: seq<byte>) {
    && |pub.nullifiers| == INPUTS && |pub.commitments| == OUTPUTS
    && |proof| == PROOF_BYTES && env.verify(proof + Layout(EncodedFields(pub)))
  }

  // The state still admits the instruction.
  ghost predicate Admissible(env: Env, s: State, ix: TransactIx)
    requires TransactTyped(ix)
  {
    && RootKnown(env.c, env.depth, env.window, s.leaves, ix.root)
    && ix.nullifiers[0] !in s.nullifiers && ix.nullifiers[1] !in s.nullifiers
    && |s.leaves| + 2 <= Pow2(env.depth)
  }

  // A withdrawal's recipient has an associated token account that can be credited.
  ghost predicate PayeeReady(env: Env, s: State, pool: ClientPool, recipient: Key, amount: int) {
    var ata := pool.ata(recipient);
    amount < 0 ==>
      && ata in s.tokens && s.tokens[ata].owner == recipient && s.tokens[ata].mint == env.at.mint
      && !s.tokens[ata].frozen && s.tokens[ata].amount - amount < TWO_64
      && env.vault in s.tokens && !s.tokens[env.vault].frozen
  }

  // The receiving token account exists; for a withdrawal it belongs to the recipient and can be credited.
  ghost predicate Receivable(env: Env, s: State, ix: TransactIx) {
    && ix.recipientAta in s.tokens && s.tokens[ix.recipientAta].mint == env.at.mint
    && (ix.extAmount < 0 ==>
          && s.tokens[ix.recipientAta].owner == ix.external.recipient
          && !s.tokens[ix.recipientAta].frozen
          && env.vault in s.tokens && !s.tokens[env.vault].frozen
          && s.tokens[ix.recipientAta].amount - ix.extAmount < TWO_64)
  }

  /**
   A proof cannot be moved: if the verifier sees the same bytes for two instructions, and Keccak
   does not collide on their two preimages, they agree on everything the proof is about.
   */
  lemma ProofBindsInstruction(env: Env, ix: TransactIx, ix': TransactIx)
    requires TransactTyped(ix) && TransactTyped(ix') && Bindable(ix.external) && Bindable(ix'.external)
    requires Encodable(env.c.p) && |ix.proof| == |ix'.proof|
    requires VerifierData(env, ix) == VerifierData(env, ix')
    requires KeccakDistinguishes(env.c.p, env.keccak, Preimage(env.at, ix.external, ix.extAmount),
                                 Preimage(env.at, ix'.external, ix'.extAmount))
    ensures ix.proof == ix'.proof && ix.root == ix'.root && ix.nullifiers == ix'.nullifiers
    ensures ix.commitments == ix'.commitments && ix.extAmount == ix'.extAmount
    ensures ix.external.recipient == ix'.external.recipient && ix.external.notes == ix'.external.notes
  {
    var f, f' := PublicFields(env, ix), PublicFields(env, ix');
    AppendsEqual(ix.proof, Layout(f), ix'.proof, Layout(f'));
    LayoutInjective(f, f');
    assert f[0] == f'[0] && f[1] == f'[1] && f[2] == f'[2] && f[3] == f'[3] && f[4] == f'[4] && f[6] == f'[6];
    assert ix.nullifiers == [f[1], f[2]] && ix'.nullifiers == [f'[1], f'[2]];
    assert ix.commitments == [f[3], f[4]] && ix'.commitments == [f'[3], f'[4]];
    var hash := BindingHash(env.c.p, env.keccak, env.at, ix.external, ix.extAmount);
    var hash' := BindingHash(env.c.p, env.keccak, env.at, ix'.external, ix'.extAmount);
    SameField(env.c.p, hash.value, hash'.value, f[6], f'[6]);
    BindingHashBinds(env.c.p, env.keccak, env.at, ix.external, ix.extAmount, env.at, ix'.external, ix'.extAmount);
  }

  // The statement the program rebuilds is the one the client proved.
  lemma StatementAgrees(env: Env, pool: ClientPool, plan: Plan, recipient: Key, amount: int,
                        proof: seq<byte>, ix: TransactIx)
    requires Deployed(env) && Matches(env, pool) && Prepared(pool, plan, recipient, amount, proof, ix)
    ensures TransactTyped(ix) && Bindable(ix.external) && ix.extAmount == amount
    ensures var public := PlanPublic(pool, plan, recipient, amount);
      && Statement(env, ix) == ValuesOf(pool.c, plan, public).public
      && PublicFields(env, ix) == EncodedFields(ValuesOf(pool.c, plan, public).public)
      && Typed(env.c, env.depth, Statement(env, ix), PlanWitness(pool.c, plan, public))
      && Satisfied(env.c, env.depth, Statement(env, ix), PlanWitness(pool.c, plan, public))
  {
    var public := PlanPublic(pool, plan, recipient, amount);
    var pub := ValuesOf(pool.c, plan, public).public;
    PlanRootIsField(pool.c, if Real(plan.spends[1]) then plan.spends[1] else plan.spends[0]);
    PlanMeetsCircuit(pool.c, pool.depth, plan, public, pub.root);
    FieldBytesRoundTrip(env.c.p, pub.root);
    FieldBytesRoundTrip(env.c.p, pub.nullifiers[0]);
    FieldBytesRoundTrip(env.c.p, pub.nullifiers[1]);
    FieldBytesRoundTrip(env.c.p, pub.commitments[0]);
    FieldBytesRoundTrip(env.c.p, pub.commitments[1]);
    assert Statement(env, ix) == pub;
  }

  lemma NullifierBytes(c: Crypto, a: nat, b: nat)
    requires Encodable(c.p) && a < c.p && b < c.p && a != 0 && a != b
    ensures FieldBytes(a) != Zeros(FIELD_BYTES) && FieldBytes(a) != FieldBytes(b)
  {
    FieldBytesRoundTrip(c.p, a);
    FieldBytesRoundTrip(c.p, b);
    FieldBytesRoundTrip(c.p, 0);
    EncodeZero(FIELD_BYTES);
  }

  // A prepared instruction is canonical, bounded and names distinct non-zero nullifiers.
  lemma ArgumentsPass(env: Env, pool: ClientPool, plan: Plan, recipient: Key, amount: int,
                      proof: seq<byte>, ix: TransactIx)
    requires Deployed(env) && Matches(env, pool) && Prepared(pool, plan, recipient, amount, proof, ix)
    requires amount <= 0 && |proof| == PROOF_BYTES
    requires amount < 0 ==> ix.recipientAta != env.vault
    ensures TransactTyped(ix) && ArgumentError(env, ix).None? && ix.nullifiers[0] != ix.nullifiers[1]
  {
    var pub := ValuesOf(pool.c, plan, PlanPublic(pool, plan, recipient, amount)).public;
    PlanRootIsField(pool.c, if Real(plan.spends[1]) then plan.spends[1] else plan.spends[0]);
    NullifierBytes(env.c, pub.nullifiers[0], pub.nullifiers[1]);
    NullifierBytes(env.c, pub.nullifiers[1], pub.nullifiers[0]);
    FieldBytesRoundTrip(env.c.p, pub.root);
    FieldBytesRoundTrip(env.c.p, pub.nullifiers[0]);
    FieldBytesRoundTrip(env.c.p, pub.nullifiers[1]);
    FieldBytesRoundTrip(env.c.p, pub.commitments[0]);
    FieldBytesRoundTrip(env.c.p, pub.commitments[1]);
  }

  lemma ChecksPass(env: Env, s: State, ix: TransactIx)
    requires TransactTyped(ix) && ArgumentError(env, ix).None? && Bindable(ix.external)
    requires Admissible(env, s, ix) && Receivable(env, s, ix) && ix.verifier == env.at.verifier
    requires ix.nullifiers[0] != ix.nullifiers[1] && env.verify(VerifierData(env, ix))
    ensures ProofError(env, s, ix).None?
  {
  }

  lemma PayoutPasses(env: Env, s: State, ix: TransactIx)
    requires TransactTyped(ix) && Receivable(env, s, ix) && ix.extAmount <= 0
    requires env.vault in s.tokens
    requires s.tokens[env.vault].owner == env.at.pool && s.tokens[env.vault].mint == env.at.mint
    requires s.tokens[env.vault].amount >= UnsignedAbs(ix.extAmount)
    ensures Payout(env, s.tokens, ix).Ok?
  {
  }

  lemma StepSucceeds(env: Env, s: State, ix: TransactIx)
    requires TransactTyped(ix) && ProofError(env, s, ix).None? && Payout(env, s.tokens, ix).Ok?
    requires |s.leaves| + 2 <= Pow2(env.depth)
    ensures TransactStep(env, s, ix).Ok?
  {
  }

  // The two leaves and log entries a transact leaves behind.
  ghost predicate Appends(s: State, commitments: seq<seq<byte>>, notes: seq<seq<byte>>, after: State)
    requires |commitments| == 2 && |notes| == 2
  {
    var n, e := |s.leaves|, |s.events|;
    && after.leaves == s.leaves + [BigEndian(commitments[0]), BigEndian(commitments[1])]
    && |after.events| == e + 4 && after.events[..e] == s.events
    && after.events[e] == NewCommitment(commitments[0], n, notes[0])
    && after.events[e + 1] == NewCommitment(commitments[1], n + 1, notes[1])
  }

  lemma StepAppends(env: Env, s: State, ix: TransactIx)
    requires TransactTyped(ix) && TransactStep(env, s, ix).Ok?
    ensures Appends(s, ix.commitments, ix.external.notes, TransactStep(env, s, ix).value)
  {
    var after := TransactStep(env, s, ix).value;
    assert after.events == s.events + [NewCommitment(ix.commitments[0], |s.leaves|, ix.external.notes[0]),
                                       NewCommitment(ix.commitments[1], |s.leaves| + 1, ix.external.notes[1]),
                                       NewNullifier(ix.nullifiers[0]), NewNullifier(ix.nullifiers[1])];
  }

  // The pool accepts a prepared instruction wherever the invariant holds.
  lemma PreparedPasses(env: Env, queries: set<seq<nat>>, h: History,
                       pool: ClientPool, plan: Plan, recipient: Key, amount: int, proof: seq<byte>, ix: TransactIx)
    requires Deployed(env) && Secure(env.c, queries) && Inv(env, queries, h)
    requires Matches(env, pool) && Prepared(pool, plan, recipient, amount, proof, ix)
    requires amount <= 0 && (amount < 0 ==> recipient != env.at.pool)
    requires ProofVerifies(env, ValuesOf(pool.c, plan, PlanPublic(pool, plan, recipient, amount)).public, proof)
    requires TransactTyped(ix) && Admissible(env, h.s, ix) && Receivable(env, h.s, ix)
    requires var w := PreparedWitness(pool, plan, recipient, amount);
      WitnessTyped(env.c, env.depth, w) && forall i: nat | i < INPUTS :: InputHashed(env, queries, w, i)
    ensures TransactStep(env, h.s, ix).Ok?
  {
    var w := PreparedWitness(pool, plan, recipient, amount);
    StatementAgrees(env, pool, plan, recipient, amount, proof, ix);
    ArgumentsPass(env, pool, plan, recipient, amount, proof, ix);
    ChecksPass(env, h.s, ix);
    AcceptedSpendsLive(env, queries, h, ix, w);
    PayoutCovered(env, h, ix, w);
    PayoutPasses(env, h.s, ix);
    StepSucceeds(env, h.s, ix);
  }

  // The account a prepared instruction names is the recipient's own, or for a transfer the vault.
  lemma PayeeReceives(env: Env, h: History, pool: ClientPool, plan: Plan, recipient: Key, amount: int,
                      proof: seq<byte>, ix: TransactIx)
    requires Matches(env, pool) && Prepared(pool, plan, recipient, amount, proof, ix)
    requires VaultExact(env, h) && PayeeReady(env, h.s, pool, recipient, amount)
    ensures Receivable(env, h.s, ix)
    ensures ix.recipientAta == if amount < 0 then pool.ata(recipient) else env.vault
  {
  }

  // A withdrawal moved exactly its amount from the vault to the recipient; a transfer moved nothing.
  ghost predicate Paid(env: Env, before: Ledger, after: Ledger, payee: Key, amount: int) {
    if amount < 0 then Moved(before, after, env.vault, payee, -amount) else after == before
  }

  /**
   The theorem that joins client, circuit and program: in any reachable state that still
   admits it, the pool executes a prepared transfer or withdrawal. A withdrawal pays its
   exact amount into the recipient's own associated account and a transfer moves no token;
   the plan's two commitments are appended, each logged beside the ciphertext of the send
   that opens it.
   */
  lemma PreparedExecutes(env: Env, queries: set<seq<nat>>, start: History, run: seq<Action>, h: History,
                         pool: ClientPool, plan: Plan, recipient: Key, amount: int, proof: seq<byte>, ix: TransactIx)
    requires Deployed(env) && Secure(env.c, queries) && Reached(env, queries, start, run, h)
    requires Matches(env, pool) && Prepared(pool, plan, recipient, amount, proof, ix)
    requires amount <= 0 && (amount < 0 ==> recipient != env.at.pool)
    requires ProofVerifies(env, ValuesOf(pool.c, plan, PlanPublic(pool, plan, recipient, amount)).public, proof)
    requires TransactTyped(ix) && Admissible(env, h.s, ix) && PayeeReady(env, h.s, pool, recipient, amount)
    requires var w := PreparedWitness(pool, plan, recipient, amount);
      WitnessTyped(env.c, env.depth, w) && forall i: nat | i < INPUTS :: InputHashed(env, queries, w, i)
    ensures var step := TransactStep(env, h.s, ix);
      && step.Ok?
      && Paid(env, h.s.tokens, step.value.tokens, pool.ata(recipient), amount)
      && Appends(h.s, [FieldBytes(SendCommitment(env.c, env.asset, plan.sends[0])),
                       FieldBytes(SendCommitment(env.c, env.asset, plan.sends[1]))],
                 [plan.sends[0].encrypted, plan.sends[1].encrypted], step.value)
  {
    RunKeeps(env, queries, start, run, h);
    PayeeReceives(env, h, pool, plan, recipient, amount, proof, ix);
    PreparedPasses(env, queries, h, pool, plan, recipient, amount, proof, ix);
    TransactMoves(env, h.s, ix);
    StepAppends(env, h.s, ix);
  }

  // A spend of the note stored at its index, along the tree's own path.
  ghost predicate Authentic(env: Env, s: State, spend: Spend) {
    var index := spend.merkle.index;
    && index < |s.leaves|
    && s.leaves[index] == Commitment(env.c, OpenedKey(env.c, SpendOpening(spend)), spend.note.asset, spend.note.value)
    && spend.merkle.siblings == Siblings(env.c, env.depth, s.leaves, index)
  }

  lemma AuthenticRoot(env: Env, s: State, spend: Spend)
    requires Authentic(env, s, spend) && |s.leaves| <= Pow2(env.depth)
    ensures SpendRoot(env.c, spend) == RootAt(env.c, env.depth, s.leaves, |s.leaves|)
  {
    ShiftFits(spend.merkle.index, env.depth);
    HonestPath(env.c, env.depth, s.leaves, spend.merkle.index);
    assert s.leaves[..|s.leaves|] == s.leaves;
  }

  // No slot's nullifier is recorded.
  ghost predicate Unrecorded(env: Env, s: State, plan: Plan)
    requires |plan.spends| == SLOTS
  {
    && FieldBytes(SpendNullifier(env.c, plan.spends[0])) !in s.nullifiers
    && FieldBytes(SpendNullifier(env.c, plan.spends[1])) !in s.nullifiers
  }

  // What a prepared instruction publishes of its plan.
  lemma Publishes(env: Env, s: State, pool: ClientPool, plan: Plan, recipient: Key, amount: int,
                  proof: seq<byte>, ix: TransactIx)
    requires Matches(env, pool) && Prepared(pool, plan, recipient, amount, proof, ix)
    requires |s.leaves| <= Pow2(env.depth)
    requires forall s' | s' in plan.spends && Real(s') :: Authentic(env, s, s')
    ensures ix.root == FieldBytes(RootAt(env.c, env.depth, s.leaves, |s.leaves|))
    ensures |ix.nullifiers| == 2
    ensures ix.nullifiers[0] == FieldBytes(SpendNullifier(env.c, plan.spends[0]))
    ensures ix.nullifiers[1] == FieldBytes(SpendNullifier(env.c, plan.spends[1]))
  {
    var last := if Real(plan.spends[1]) then plan.spends[1] else plan.spends[0];
    assert last in plan.spends;
    AuthenticRoot(env, s, last);
  }

  lemma RootIsCurrent(env: Env, queries: set<seq<nat>>, start: History, run: seq<Action>, h: History, root: seq<byte>)
    requires Deployed(env) && Secure(env.c, queries) && Reached(env, queries, start, run, h)
    requires root == FieldBytes(RootAt(env.c, env.depth, h.s.leaves, |h.s.leaves|))
    ensures RootKnown(env.c, env.depth, env.window, h.s.leaves, root)
    ensures BigEndian(root) == RootAt(env.c, env.depth, h.s.leaves, |h.s.leaves|)
  {
    RootWindow(env, queries, start, run, h, |h.s.leaves|);
    FieldBytesRoundTrip(env.c.p, RootAt(env.c, env.depth, h.s.leaves, |h.s.leaves|));
  }

  lemma SlotsHashed(env: Env, queries: set<seq<nat>>, w: Witness)
    requires WitnessTyped(env.c, env.depth, w) && InputHashed(env, queries, w, 0) && InputHashed(env, queries, w, 1)
    ensures forall i: nat | i < INPUTS :: InputHashed(env, queries, w, i)
  {
  }

  // A prepared plan whose real spends follow the tree's own paths names the current root and executes.
  lemma CurrentExecutes(env: Env, queries: set<seq<nat>>, start: History, run: seq<Action>, h: History,
                        pool: ClientPool, plan: Plan, recipient: Key, amount: int, proof: seq<byte>, ix: TransactIx)
    requires Deployed(env) && Secure(env.c, queries) && Reached(env, queries, start, run, h)
    requires Matches(env, pool) && Prepared(pool, plan, recipient, amount, proof, ix)
    requires amount <= 0 && (amount < 0 ==> recipient != env.at.pool)
    requires ProofVerifies(env, ValuesOf(pool.c, plan, PlanPublic(pool, plan, recipient, amount)).public, proof)
    requires forall s | s in plan.spends && Real(s) :: Authentic(env, h.s, s)
    requires TransactTyped(ix) && PayeeReady(env, h.s, pool, recipient, amount)
    requires Unrecorded(env, h.s, plan)
    requires |h.s.leaves| + 2 <= Pow2(env.depth)
    requires var w := PreparedWitness(pool, plan, recipient, amount);
      WitnessTyped(env.c, env.depth, w) && InputHashed(env, queries, w, 0) && InputHashed(env, queries, w, 1)
    ensures BigEndian(ix.root) == RootAt(env.c, env.depth, h.s.leaves, |h.s.leaves|)
    ensures var step := TransactStep(env, h.s, ix);
      step.Ok? && Paid(env, h.s.tokens, step.value.tokens, pool.ata(recipient), amount)
  {
    RunKeeps(env, queries, start, run, h);
    Publishes(env, h.s, pool, plan, recipient, amount, proof, ix);
    RootIsCurrent(env, queries, start, run, h, ix.root);
    SlotsHashed(env, queries, PreparedWitness(pool, plan, recipient, amount));
    PreparedExecutes(env, queries, start, run, h, pool, plan, recipient, amount, proof, ix);
  }

  // ----- The owner of notes -----

  // The two slots name different leaves or different viewing keys.
  predicate SlotsDiffer(plan: Plan)
    requires |plan.spends| == SLOTS
  {
    var a, b := plan.spends[0], plan.spends[1];
    a.merkle.index != b.merkle.index || a.owner.view != b.owner.view
  }

  ghost predicate NullifiersGood(c: Crypto, plan: Plan)
    requires |plan.spends| == SLOTS
  {
    var a, b := SpendNullifier(c, plan.spends[0]), SpendNullifier(c, plan.spends[1]);
    a != 0 && b != 0 && a != b
  }

  // Nullifiers clash exactly if the slots do.
  lemma SlotsGiveNullifiers(env: Env, queries: set<seq<nat>>, plan: Plan, public: Public)
    requires Secure(env.c, queries) && PlanTyped(env.c, env.depth, plan)
    requires var w := PlanWitness(env.c, plan, public);
      WitnessTyped(env.c, env.depth, w) && InputHashed(env, queries, w, 0) && InputHashed(env, queries, w, 1)
    ensures NullifiersGood(env.c, plan) <==> SlotsDiffer(plan)
  {
    var w, a, b := PlanWitness(env.c, plan, public), plan.spends[0], plan.spends[1];
    assert [NULLIFIER_KEY_DOMAIN, a.owner.view] in KeyQueries(env.c, InOpening(env.c, env.depth, w, 0));
    assert [NULLIFIER_KEY_DOMAIN, b.owner.view] in KeyQueries(env.c, InOpening(env.c, env.depth, w, 1));
    NullifierBinds(env.c, queries, a.owner.view, a.merkle.index, b.owner.view, b.merkle.index);
    NullifierBinds(env.c, queries, b.owner.view, b.merkle.index, a.owner.view, a.merkle.index);
  }

  // Every spend of the transaction follows the tree's own path.
  ghost predicate Owned(env: Env, s: State, t: Transaction) {
    forall spend | spend in t.spends :: Authentic(env, s, spend)
  }

  // A plan's slot is one of the owner's spends or worth nothing, in either case below capacity.
  lemma SlotOfOwner(env: Env, s: State, t: Transaction, draws: Draws, slot: nat)
    requires WellFormed(t) && DrawsFor(env.c, env.depth, t, env.asset, draws)
    requires Owned(env, s, t) && |s.leaves| <= Pow2(env.depth) && slot < SLOTS
    ensures var spend := PlanOf(t, env.asset, draws).spends[slot];
      && spend.merkle.index < Pow2(env.depth)
      && (Real(spend) ==>
            && spend in t.spends && Authentic(env, s, spend)
            && SpendRoot(env.c, spend) == RootAt(env.c, env.depth, s.leaves, |s.leaves|))
      && (!Real(spend) ==> SpendNullifier(env.c, spend) != 0)
  {
    var spend := PlanOf(t, env.asset, draws).spends[slot];
    var k := if draws.swapSpends then 1 - slot else slot;
    assert spend == Padded(t.spends, draws.spends)[k];
    if k < |t.spends| {
      assert spend in t.spends;
      AuthenticRoot(env, s, spend);
    } else {
      assert spend in draws.spends;
    }
  }

  lemma PlanHoldsSpends(c: Crypto, depth: nat, t: Transaction, asset: nat, draws: Draws)
    requires WellFormed(t) && DrawsFor(c, depth, t, asset, draws)
    ensures var plan := PlanOf(t, asset, draws);
      forall spend | spend in t.spends :: spend == plan.spends[0] || spend == plan.spends[1]
  {
    CoinsPlace(c, depth, t, asset, draws);
    assert |t.spends| == 1 ==> t.spends == [t.spends[0]];
    assert |t.spends| == 2 ==> t.spends == [t.spends[0], t.spends[1]];
  }

  /**
   The client accepts an owner's transaction, whatever was drawn, if and only if it conserves
   value, the nullifiers of its spends are not zero and those of the plan's two slots differ.
   */
  lemma OwnerPlanAcceptable(env: Env, s: State, t: Transaction, draws: Draws, amount: int)
    requires WellFormed(t) && DrawsFor(env.c, env.depth, t, env.asset, draws)
    requires Owned(env, s, t) && |s.leaves| <= Pow2(env.depth)
    ensures Acceptable(env.c, env.depth, PlanOf(t, env.asset, draws), amount)
       <==> && SpendTotal(t.spends) + amount == SendTotal(t.sends)
            && (forall spend | spend in t.spends :: SpendNullifier(env.c, spend) != 0)
            && var plan := PlanOf(t, env.asset, draws);
              SpendNullifier(env.c, plan.spends[0]) != SpendNullifier(env.c, plan.spends[1])
  {
    PlanHoldsSpends(env.c, env.depth, t, env.asset, draws);
    PlanKeepsMeaning(env.c, env.depth, t, env.asset, draws);
    SlotOfOwner(env, s, t, draws, 0);
    SlotOfOwner(env, s, t, draws, 1);
  }

  lemma GoodSlotsAccepted(env: Env, s: State, t: Transaction, draws: Draws, amount: int)
    requires WellFormed(t) && DrawsFor(env.c, env.depth, t, env.asset, draws)
    requires Owned(env, s, t) && |s.leaves| <= Pow2(env.depth)
    requires SpendTotal(t.spends) + amount == SendTotal(t.sends) && NullifiersGood(env.c, PlanOf(t, env.asset, draws))
    ensures Acceptable(env.c, env.depth, PlanOf(t, env.asset, draws), amount)
  {
    PlanHoldsSpends(env.c, env.depth, t, env.asset, draws);
    OwnerPlanAcceptable(env, s, t, draws, amount);
  }

  lemma {:induction false} PayloadLengthWithin(sends: seq<Send>, limit: nat)
    ensures PayloadLength(sends) <= limit <==> forall s | s in sends :: |s.encrypted| <= limit
  {
    if sends == [] {
    } else {
      var n := |sends| - 1;
      PayloadLengthWithin(sends[..n], limit);
      assert sends == sends[..n] + [sends[n]];
    }
  }

  // Dummies are as long as the longest payload, so they never exceed the limit alone.
  lemma PlanPayloadsFit(c: Crypto, depth: nat, t: Transaction, asset: nat, draws: Draws)
    requires WellFormed(t) && DrawsFor(c, depth, t, asset, draws)
    ensures PayloadsFit(PlanOf(t, asset, draws)) <==> forall s | s in t.sends :: |s.encrypted| <= MAX_ENCRYPTED_NOTE_LEN
  {
    var padded := Padded(t.sends, draws.sends);
    PayloadLengthWithin(t.sends, MAX_ENCRYPTED_NOTE_LEN);
    assert draws.sends[0] in draws.sends && draws.sends[1] in draws.sends;
    assert forall i: nat | i < |t.sends| :: padded[i] == t.sends[i];
    assert forall i: nat | |t.sends| <= i < SLOTS :: padded[i] == draws.sends[i];
  }

  // Lengths do not tell a dummy from the one real send beside it.
  lemma DummyLengthsMatch(c: Crypto, depth: nat, t: Transaction, asset: nat, draws: Draws)
    requires WellFormed(t) && DrawsFor(c, depth, t, asset, draws) && |t.sends| <= 1
    ensures var plan := PlanOf(t, asset, draws); |plan.sends[0].encrypted| == |plan.sends[1].encrypted|
  {
    CoinsPlace(c, depth, t, asset, draws);
    assert draws.sends[0] in draws.sends && draws.sends[1] in draws.sends;
    if |t.sends| == 1 {
      assert t.sends[..0] == [] && PayloadLength(t.sends[..0]) == 0;
    }
  }

  // The instruction `prepare` returns for a plan and a proof.
  function PlanInstruction(pool: ClientPool, plan: Plan, recipient: Key, amount: int, proof: seq<byte>): TransactIx
    requires |plan.spends| == SLOTS && |plan.sends| == SLOTS && PayloadsFit(plan) && IsI64(amount)
  {
    InstructionOf(pool, Proof(proof, ValuesOf(pool.c, plan, PlanPublic(pool, plan, recipient, amount)).public),
                  ExternalOf(plan, recipient), amount)
  }

  lemma OwnerPrepares(env: Env, queries: set<seq<nat>>, s: State, pool: ClientPool, t: Transaction, draws: Draws,
                      plan: Plan, recipient: Key, amount: int, proof: seq<byte>)
    requires Deployed(env) && Secure(env.c, queries) && Matches(env, pool) && |s.leaves| <= Pow2(env.depth)
    requires WellFormed(t) && TransactionTyped(env.c, env.depth, t) && DrawsFor(env.c, env.depth, t, env.asset, draws)
    requires forall spend | spend in t.spends :: spend.note.asset == env.asset
    requires Owned(env, s, t) && SpendTotal(t.spends) + amount == SendTotal(t.sends)
    requires plan == PlanOf(t, env.asset, draws) && SlotsDiffer(plan) && PayloadsFit(plan) && IsI64(amount)
    requires var w := PreparedWitness(pool, plan, recipient, amount);
      WitnessTyped(env.c, env.depth, w) && InputHashed(env, queries, w, 0) && InputHashed(env, queries, w, 1)
    ensures Prepared(pool, plan, recipient, amount, proof, PlanInstruction(pool, plan, recipient, amount, proof))
    ensures forall spend | spend in plan.spends && Real(spend) :: Authentic(env, s, spend)
  {
    PlanOfTyped(env.c, env.depth, t, env.asset, draws);
    SlotsGiveNullifiers(env, queries, plan, PlanPublic(pool, plan, recipient, amount));
    GoodSlotsAccepted(env, s, t, draws, amount);
    SlotOfOwner(env, s, t, draws, 0);
    SlotOfOwner(env, s, t, draws, 1);
    assert plan.spends == [plan.spends[0], plan.spends[1]];
  }

  // The worker answers this plan with 388 bytes that verify beside the public witness it sends along.
  ghost predicate WorkerAnswers(env: Env, pool: ClientPool, plan: Plan, public: Public, prover: Prover)
    requires |plan.spends| == SLOTS && |plan.sends| == SLOTS
  {
    var reply := AnswerTo(pool, plan, public, prover);
    reply.Some? && |reply.value.proof| == PROOF_BYTES && env.verify(reply.value.proof + reply.value.public)
  }

  // The comparison of witnesses makes the worker's proof one of the client's own statement.
  lemma WorkerProofVerifies(env: Env, pool: ClientPool, t: Transaction, plan: Plan, recipient: Key, amount: int,
                            prover: Prover, ix: TransactIx)
    requires |plan.spends| == SLOTS && |plan.sends| == SLOTS && IsI64(amount)
    requires Preparable(pool, t, plan, recipient, amount, prover)
    requires CarriesProof(pool, plan, recipient, amount, prover, ix)
    requires WorkerAnswers(env, pool, plan, PlanPublic(pool, plan, recipient, amount), prover)
    ensures ProofVerifies(env, ValuesOf(pool.c, plan, PlanPublic(pool, plan, recipient, amount)).public, ix.proof)
  {
  }

  /**
   Whoever holds the keys to notes can spend them. In every reachable state with two free
   leaves, a transaction that conserves value and whose spends follow the tree's own paths
   can be prepared, names the current root, is executed and pays its recipient, provided no
   nullifier of its plan, drawn or its own, is recorded or occurs twice.
   */
  lemma OwnerCanSpend(env: Env, queries: set<seq<nat>>, start: History, run: seq<Action>, h: History,
                      pool: ClientPool, t: Transaction, draws: Draws, plan: Plan,
                      recipient: Key, amount: int, prover: Prover, ix: TransactIx)
    requires Deployed(env) && Secure(env.c, queries) && Reached(env, queries, start, run, h) && Matches(env, pool)
    requires WellFormed(t) && TransactionTyped(env.c, env.depth, t) && DrawsFor(env.c, env.depth, t, env.asset, draws)
    requires forall spend | spend in t.spends :: spend.note.asset == env.asset
    requires Owned(env, h.s, t) && SpendTotal(t.spends) + amount == SendTotal(t.sends)
    requires IsI64(amount) && amount <= 0 && (amount < 0 ==> recipient != env.at.pool)
    requires plan == PlanOf(t, env.asset, draws) && PayloadsFit(plan)
    requires SlotsDiffer(plan) && Unrecorded(env, h.s, plan)
    requires PlanProved(pool, plan, PlanPublic(pool, plan, recipient, amount), prover)
    requires WorkerAnswers(env, pool, plan, PlanPublic(pool, plan, recipient, amount), prover)
    requires ix == PlanInstruction(pool, plan, recipient, amount, ix.proof)
    requires CarriesProof(pool, plan, recipient, amount, prover, ix)
    requires PayeeReady(env, h.s, pool, recipient, amount) && |h.s.leaves| + 2 <= Pow2(env.depth)
    requires var w := PreparedWitness(pool, plan, recipient, amount);
      WitnessTyped(env.c, env.depth, w) && InputHashed(env, queries, w, 0) && InputHashed(env, queries, w, 1)
    ensures Preparable(pool, t, plan, recipient, amount, prover)
    ensures Prepared(pool, plan, recipient, amount, ix.proof, ix)
    ensures BigEndian(ix.root) == RootAt(env.c, env.depth, h.s.leaves, |h.s.leaves|)
    ensures TransactTyped(ix)
    ensures var step := TransactStep(env, h.s, ix);
      step.Ok? && Paid(env, h.s.tokens, step.value.tokens, pool.ata(recipient), amount)
  {
    OwnerPrepares(env, queries, h.s, pool, t, draws, plan, recipient, amount, ix.proof);
    WorkerProofVerifies(env, pool, t, plan, recipient, amount, prover, ix);
    StatementAgrees(env, pool, plan, recipient, amount, ix.proof, ix);
    CurrentExecutes(env, queries, start, run, h, pool, plan, recipient, amount, ix.proof, ix);
  }

  // ----- The recipient of a note -----

  // The spend of a received note, built by whoever holds the keys behind the send's owner.
  function SpendOf(env: Env, leaves: seq<nat>, send: Send, owner: Owner, index: nat): Spend {
    Spend(Input(send.value, env.asset, send.random), owner,
          MerklePath(index, Siblings(env.c, env.depth, leaves, index)))
  }

  // A tree only grows, so a path taken from it later is as good.
  lemma SentIsAuthentic(env: Env, s: State, send: Send, owner: Owner, index: nat)
    requires index < |s.leaves| && s.leaves[index] == SendCommitment(env.c, env.asset, send)
    requires send.owner == OwnerId(env.c, owner.spend, owner.view)
    ensures Authentic(env, s, SpendOf(env, s.leaves, send, owner, index))
  {
  }

  lemma PublishesCommitments(env: Env, pool: ClientPool, plan: Plan, recipient: Key, amount: int,
                             proof: seq<byte>, ix: TransactIx)
    requires Deployed(env) && Matches(env, pool) && Prepared(pool, plan, recipient, amount, proof, ix)
    ensures |ix.commitments| == SLOTS
    ensures BigEndian(ix.commitments[0]) == SendCommitment(env.c, env.asset, plan.sends[0])
    ensures BigEndian(ix.commitments[1]) == SendCommitment(env.c, env.asset, plan.sends[1])
  {
    FieldBytesRoundTrip(env.c.p, SendCommitment(env.c, env.asset, plan.sends[0]));
    FieldBytesRoundTrip(env.c.p, SendCommitment(env.c, env.asset, plan.sends[1]));
  }

  lemma AppendedAt(s: State, commitments: seq<seq<byte>>, notes: seq<seq<byte>>, after: State, slot: nat)
    requires |commitments| == 2 && |notes| == 2 && Appends(s, commitments, notes, after) && slot < 2
    ensures |s.leaves| + slot < |after.leaves| && after.leaves[|s.leaves| + slot] == BigEndian(commitments[slot])
  {
  }

  /**
   What is sent can be spent: after a prepared instruction executed, each of its sends is the
   leaf at the logged index, and the holder of the owner's keys has an authentic spend of it
   of the full value.
   */
  lemma RecipientCanSpend(env: Env, s: State, pool: ClientPool, plan: Plan, recipient: Key, amount: int,
                          proof: seq<byte>, ix: TransactIx, slot: nat, owner: Owner)
    requires Deployed(env) && Matches(env, pool) && Prepared(pool, plan, recipient, amount, proof, ix)
    requires TransactTyped(ix) && TransactStep(env, s, ix).Ok? && slot < SLOTS
    requires plan.sends[slot].owner == OwnerId(env.c, owner.spend, owner.view)
    ensures var after, send, index := TransactStep(env, s, ix).value, plan.sends[slot], |s.leaves| + slot;
      var spend := SpendOf(env, after.leaves, send, owner, index);
      Authentic(env, after, spend) && spend.note.value == send.value
  {
    StepAppends(env, s, ix);
    PublishesCommitments(env, pool, plan, recipient, amount, proof, ix);
    AppendedAt(s, ix.commitments, ix.external.notes, TransactStep(env, s, ix).value, slot);
    SentIsAuthentic(env, TransactStep(env, s, ix).value, plan.sends[slot], owner, |s.leaves| + slot);
  }

  // ----- Recording without consuming -----

  // A real spend along the tree's own path beside a slot of no value that names leaf `i`, for a transfer.
  ghost predicate NamesOther(env: Env, s: State, plan: Plan, i: nat, o: Opening) {
    && PlanTyped(env.c, env.depth, plan) && OneAsset(plan) && plan.asset == env.asset && PayloadsFit(plan)
    && var a, b := plan.spends[0], plan.spends[1];
      && Real(a) && Authentic(env, s, a) && a.merkle.index != i
      && !Real(b) && b.owner.view == o.view && b.merkle.index == i
      && a.note.value == plan.sends[0].value + plan.sends[1].value
  }

  lemma OtherPrepared(env: Env, queries: set<seq<nat>>, s: State, pool: ClientPool, plan: Plan, recipient: Key,
                      proof: seq<byte>, i: nat, o: Opening)
    requires Deployed(env) && Secure(env.c, queries) && Matches(env, pool) && NamesOther(env, s, plan, i, o)
    requires i < |s.leaves| <= Pow2(env.depth)
    requires var w := PreparedWitness(pool, plan, recipient, 0);
      WitnessTyped(env.c, env.depth, w) && InputHashed(env, queries, w, 0) && InputHashed(env, queries, w, 1)
    ensures Prepared(pool, plan, recipient, 0, proof, PlanInstruction(pool, plan, recipient, 0, proof))
    ensures forall spend | spend in plan.spends && Real(spend) :: Authentic(env, s, spend)
  {
    SlotsGiveNullifiers(env, queries, plan, PlanPublic(pool, plan, recipient, 0));
    assert plan.spends == [plan.spends[0], plan.spends[1]];
  }

  /**
   Where recording does not consume: a spend of one leaf beside a slot of no value that names
   another live leaf. Client, circuit and program accept it; it records that leaf's nullifier
   and leaves the leaf unconsumed.
   */
  lemma DummyLocksLeaf(env: Env, queries: set<seq<nat>>, start: History, run: seq<Action>, h: History,
                       pool: ClientPool, plan: Plan, proof: seq<byte>, ix: TransactIx, w: Witness, i: nat, o: Opening)
    requires Deployed(env) && Secure(env.c, queries) && Reached(env, queries, start, run, h) && Matches(env, pool)
    requires Opens(env, queries, h, i, o) && i !in h.spent
    requires NamesOther(env, h.s, plan, i, o) && Unrecorded(env, h.s, plan)
    requires |h.s.leaves| + 2 <= Pow2(env.depth)
    requires ProofVerifies(env, ValuesOf(pool.c, plan, PlanPublic(pool, plan, env.at.pool, 0)).public, proof)
    requires ix == PlanInstruction(pool, plan, env.at.pool, 0, proof)
    requires w == PreparedWitness(pool, plan, env.at.pool, 0)
    requires Possible(env, h, DoTransact(ix, w)) && Hashed(env, queries, h, DoTransact(ix, w))
    ensures TransactStep(env, h.s, ix).Ok?
    ensures var after := Step(env, h, DoTransact(ix, w));
      && Reached(env, queries, start, run + [DoTransact(ix, w)], after)
      && Record(env, i, o) in after.s.nullifiers && i !in after.spent
  {
    RunKeeps(env, queries, start, run, h);
    OtherPrepared(env, queries, h.s, pool, plan, env.at.pool, proof, i, o);
    StatementAgrees(env, pool, plan, env.at.pool, 0, proof, ix);
    CurrentExecutes(env, queries, start, run, h, pool, plan, env.at.pool, 0, proof, ix);
    RecordingConsumesExactly(env, queries, start, run, h, ix, w, 1, i, o);
    ExtendsMore(env, queries, start, run, h, DoTransact(ix, w), Step(env, h, DoTransact(ix, w)));
  }
}
