/**
 Whole runs of the pool. A run records, beside the ledger, what no account
 shows: the note behind each leaf and the opening that spent it.
 */
module PoolRuns {
  import opened Arith
  import opened Binding
  import opened Bytes
  import opened Circuit
  import opened Fields
  import opened Merkle
  import opened Notes
  import opened Pools
  import opened TreeAccounts

  datatype Note = Note(npk: nat, asset: nat, value: nat)

  // One instruction, a transact with the assignment its proof attests to, or anything
  // other programs do to token accounts.
  datatype Action =
    | DoShield(shield: ShieldIx)
    | DoTransact(transact: TransactIx, assignment: Witness)
    | Outside(tokens: Ledger)

  // `notes[i]` opens leaf `i`; `spent` maps a consumed leaf to the keys that consumed it,
  // `order` lists consumed leaves as they went, `donated` is what outsiders sent to the vault.
  datatype History = History(s: State, notes: seq<Note>, spent: map<nat, Opening>, order: seq<nat>, donated: nat)

  // The pool as deployed: a wide enough prime field and a tree with at least one level.
  ghost predicate Deployed(env: Env) {
    && WideField(env.c.p) && Encodable(env.c.p)
    && env.depth > 0 && env.window > 0
  }

  // The statement a transact's proof is checked against.
  function Statement(env: Env, ix: TransactIx): PublicInputs
    requires TransactTyped(ix) && Bindable(ix.external)
  {
    PublicInputs(
      BigEndian(ix.root),
      [BigEndian(ix.nullifiers[0]), BigEndian(ix.nullifiers[1])],
      [BigEndian(ix.commitments[0]), BigEndian(ix.commitments[1])],
      FromSigned(env.c.p, ix.extAmount),
      BindingHash(env.c.p, env.keccak, env.at, ix.external, ix.extAmount).value)
  }

  // ----- What a run assumes -----

  // The pool address is a program address: nobody signs for it. Other programs cannot
  // debit the vault or change whose it is.
  ghost predicate Possible(env: Env, h: History, a: Action) {
    match a
    case DoShield(ix) => ShieldTyped(ix) && ix.depositor != env.at.pool
    case DoTransact(ix, w) => TransactTyped(ix) && WitnessTyped(env.c, env.depth, w)
    case Outside(tokens) =>
      && env.vault in h.s.tokens && env.vault in tokens
      && tokens[env.vault].owner == h.s.tokens[env.vault].owner
      && tokens[env.vault].mint == h.s.tokens[env.vault].mint
      && tokens[env.vault].amount >= h.s.tokens[env.vault].amount
  }

  // Soundness of the verifier: a proof it accepts comes with a satisfying assignment.
  ghost predicate Attested(env: Env, a: Action) {
    a.DoTransact? && TransactTyped(a.transact) && Bindable(a.transact.external)
    && Typed(env.c, env.depth, Statement(env, a.transact), a.assignment)
    && env.verify(VerifierData(env, a.transact))
    ==> Satisfied(env.c, env.depth, Statement(env, a.transact), a.assignment)
  }

  function NotePreimage(n: Note): seq<nat> {
    [NOTE_DOMAIN, n.npk, n.asset, n.value]
  }

  // `queries` holds what the circuit hashes for input `i`.
  ghost predicate InputHashed(env: Env, queries: set<seq<nat>>, w: Witness, i: nat)
    requires WitnessTyped(env.c, env.depth, w) && i < INPUTS
  {
    var o := InOpening(env.c, env.depth, w, i);
    && KeyQueries(env.c, o) <= queries
    && NullifierPreimage(env.c, o.view, w.leafIndices[i]) in queries
    && NotePreimage(Note(OpenedKey(env.c, o), w.assetId, w.inValues[i])) in queries
    && PathHashed(env.c, queries, InCommitment(env.c, env.depth, w, i), w.siblings[i], w.leafIndices[i])
  }

  // `queries` holds every preimage the step evaluates: the trees it passes through, the
  // notes it creates, and the hashes of the assignment.
  ghost predicate Hashed(env: Env, queries: set<seq<nat>>, h: History, a: Action)
    requires Possible(env, h, a)
  {
    var after := Step(env, h, a);
    && (forall k: nat | k <= |after.s.leaves| :: TreeHashed(env.c, queries, env.depth, after.s.leaves[..k]))
    && (forall n | n in after.notes :: NotePreimage(n) in queries)
    && (a.DoTransact? ==> forall i: nat | i < INPUTS :: InputHashed(env, queries, a.assignment, i))
  }

  // ----- Steps -----

  function OutNote(w: Witness, i: nat): Note
    requires i < |w.outNpks| && i < |w.outValues|
  {
    Note(w.outNpks[i], w.assetId, w.outValues[i])
  }

  // A non-zero input consumes the leaf it opens; a zero one consumes nothing.
  function Consume(env: Env, h: History, w: Witness, i: nat): History
    requires WitnessTyped(env.c, env.depth, w) && i < INPUTS
  {
    if w.inValues[i] == 0 then h
    else h.(spent := h.spent[w.leafIndices[i] := InOpening(env.c, env.depth, w, i)],
            order := h.order + [w.leafIndices[i]])
  }

  function JoinSplitted(env: Env, h: History, w: Witness, s: State): History
    requires WitnessTyped(env.c, env.depth, w)
  {
    Consume(env, Consume(env, h, w, 0), w, 1).(s := s, notes := h.notes + [OutNote(w, 0), OutNote(w, 1)])
  }

  ghost function Step(env: Env, h: History, a: Action): History
    requires Possible(env, h, a)
  {
    match a
    case DoShield(ix) =>
      var step := ShieldStep(env, h.s, ix);
      if step.Err? then h
      else h.(s := step.value, notes := h.notes + [Note(BigEndian(ix.npk), env.asset, ix.amount)])
    case DoTransact(ix, w) =>
      var step := TransactStep(env, h.s, ix);
      if step.Err? then h else JoinSplitted(env, h, w, step.value)
    case Outside(tokens) =>
      h.(s := h.s.(tokens := tokens),
         donated := h.donated + tokens[env.vault].amount - h.s.tokens[env.vault].amount)
  }

  // A fresh pool with an empty vault.
  ghost predicate Initial(env: Env, queries: set<seq<nat>>, h: History) {
    && h.s.leaves == [] && h.s.nullifiers == {} && h.s.events == []
    && h.notes == [] && h.spent == map[] && h.order == [] && h.donated == 0
    && env.vault in h.s.tokens && h.s.tokens[env.vault].owner == env.at.pool
    && h.s.tokens[env.vault].mint == env.at.mint && h.s.tokens[env.vault].amount == 0
    && TreeHashed(env.c, queries, env.depth, [])
  }

  // One possible, attested step over `queries`.
  ghost predicate Leads(env: Env, queries: set<seq<nat>>, h: History, a: Action, h': History) {
    && Possible(env, h, a) && Attested(env, a) && Hashed(env, queries, h, a)
    && h' == Step(env, h, a)
  }

  // `h'` is where the steps of `more` lead from `h`.
  ghost predicate Extends(env: Env, queries: set<seq<nat>>, h: History, more: seq<Action>, h': History)
    decreases |more|
  {
    if more == [] then h' == h
    else
      var prefix, last := more[..|more| - 1], more[|more| - 1];
      exists before :: Extends(env, queries, h, prefix, before) && Leads(env, queries, before, last, h')
  }

  // `h` is what a run from a fresh pool leads to.
  ghost predicate Reached(env: Env, queries: set<seq<nat>>, start: History, run: seq<Action>, h: History) {
    Initial(env, queries, start) && Extends(env, queries, start, run, h)
  }

  // ----- The invariant -----

  // The value of the leaves outside `gone`.
  ghost function Unspent(notes: seq<Note>, gone: set<nat>): nat {
    if notes == [] then 0
    else
      var n := |notes| - 1;
      Unspent(notes[..n], gone) + if n in gone then 0 else notes[n].value
  }

  ghost predicate NoteFits(env: Env, queries: set<seq<nat>>, leaf: nat, n: Note) {
    && leaf == Commitment(env.c, n.npk, n.asset, n.value)
    && n.asset == env.asset && IsU64(n.value)
    && NotePreimage(n) in queries
  }

  ghost predicate TreeOpens(env: Env, queries: set<seq<nat>>, h: History) {
    && |h.notes| == |h.s.leaves| <= Pow2(env.depth)
    && (forall k: nat | k <= |h.s.leaves| :: TreeHashed(env.c, queries, env.depth, h.s.leaves[..k]))
    && (forall i: nat | i < |h.notes| :: NoteFits(env, queries, h.s.leaves[i], h.notes[i]))
  }

  ghost predicate SpentBy(env: Env, queries: set<seq<nat>>, h: History, i: nat, o: Opening) {
    && i < |h.notes| && OpenedKey(env.c, o) == h.notes[i].npk
    && KeyQueries(env.c, o) <= queries
    && FieldBytes(Nullifier(env.c, o.view, i)) in h.s.nullifiers
  }

  ghost predicate SpendsRecorded(env: Env, queries: set<seq<nat>>, h: History) {
    && (forall i | i in h.spent :: SpentBy(env, queries, h, i, h.spent[i]))
    && (forall i: nat :: i in h.spent <==> i in h.order)
    && (forall i, j | 0 <= i < j < |h.order| :: h.order[i] != h.order[j])
  }

  ghost predicate VaultExact(env: Env, h: History) {
    && env.vault in h.s.tokens
    && h.s.tokens[env.vault].owner == env.at.pool && h.s.tokens[env.vault].mint == env.at.mint
    && h.s.tokens[env.vault].amount == Unspent(h.notes, h.spent.Keys) + h.donated
  }

  ghost predicate Inv(env: Env, queries: set<seq<nat>>, h: History) {
    TreeOpens(env, queries, h) && SpendsRecorded(env, queries, h) && VaultExact(env, h)
  }

  // ----- Sums -----

  lemma {:induction false} UnspentAppend(notes: seq<Note>, x: Note, gone: set<nat>)
    requires |notes| !in gone
    ensures Unspent(notes + [x], gone) == Unspent(notes, gone) + x.value
  {
    assert (notes + [x])[..|notes|] == notes;
  }

  lemma {:induction false} UnspentConsume(notes: seq<Note>, gone: set<nat>, i: nat)
    requires i < |notes| && i !in gone
    ensures Unspent(notes, gone + {i}) + notes[i].value == Unspent(notes, gone)
  {
    var n := |notes| - 1;
    if i < n {
      UnspentConsume(notes[..n], gone, i);
    } else {
      UnspentSame(notes[..n], gone, gone + {i});
    }
  }

  lemma {:induction false} UnspentSame(notes: seq<Note>, a: set<nat>, b: set<nat>)
    requires forall i: nat | i < |notes| :: i in a <==> i in b
    ensures Unspent(notes, a) == Unspent(notes, b)
  {
    if notes == [] {
    } else {
      UnspentSame(notes[..|notes| - 1], a, b);
    }
  }

  // ----- An accepted transact -----

  // What its checks establish beside the proof.
  ghost predicate Checked(env: Env, s: State, ix: TransactIx)
    requires TransactTyped(ix)
  {
    && ix.extAmount <= 0
    && RootKnown(env.c, env.depth, env.window, s.leaves, ix.root)
    && (forall i: nat | i < INPUTS :: IsCanonical(env.c.p, ix.nullifiers[i]) && ix.nullifiers[i] !in s.nullifiers)
  }

  lemma AcceptedChecked(env: Env, s: State, ix: TransactIx)
    requires TransactTyped(ix) && ProofError(env, s, ix).None?
    ensures Checked(env, s, ix)
  {
    assert AccountError(env, s.nullifiers, s.tokens, ix).None? && ArgumentError(env, ix).None?;
  }

  // Its root was current when some `k` leaves were in.
  lemma RootWasCurrent(env: Env, s: State, ix: TransactIx) returns (k: nat)
    requires Deployed(env) && TransactTyped(ix) && Checked(env, s, ix)
    ensures k <= |s.leaves| && BigEndian(ix.root) == RootAt(env.c, env.depth, s.leaves, k)
  {
    k :| k <= |s.leaves| && Recent(env.window, |s.leaves|, k)
         && FieldBytes(RootAt(env.c, env.depth, s.leaves, k)) == ix.root;
    FieldBytesRoundTrip(env.c.p, RootAt(env.c, env.depth, s.leaves, k));
  }

  // A non-zero input is the note stored at its index.
  lemma InputPinned(env: Env, queries: set<seq<nat>>, h: History, root: nat, k: nat, w: Witness, i: nat)
    requires Secure(env.c, queries) && TreeOpens(env, queries, h)
    requires k <= |h.s.leaves| && root == RootAt(env.c, env.depth, h.s.leaves, k)
    requires WitnessTyped(env.c, env.depth, w) && i < INPUTS && InputHashed(env, queries, w, i)
    requires w.leafIndices[i] < Pow2(env.depth) && InRoot(env.c, env.depth, w, i) == root
    ensures w.leafIndices[i] < |h.notes|
    ensures h.notes[w.leafIndices[i]]
         == Note(OpenedKey(env.c, InOpening(env.c, env.depth, w, i)), w.assetId, w.inValues[i])
  {
    var index, leaves := w.leafIndices[i], h.s.leaves[..k];
    var commitment := InCommitment(env.c, env.depth, w, i);
    var claimed := Note(OpenedKey(env.c, InOpening(env.c, env.depth, w, i)), w.assetId, w.inValues[i]);
    PathExact(env.c, queries, env.depth, leaves, commitment, w.siblings[i], index);
    assert NonZeroDigest(env.c, NotePreimage(claimed));
    assert index < k && h.s.leaves[index] == commitment;
    var stored := h.notes[index];
    assert NoteFits(env, queries, h.s.leaves[index], stored);
    CommitmentBinds(env.c, queries, claimed.npk, claimed.asset, claimed.value, stored.npk, stored.asset, stored.value);
  }

  // The keys that open a consumed leaf yield the recorded nullifier.
  lemma ConsumedIsRecorded(env: Env, queries: set<seq<nat>>, h: History, i: nat, o: Opening)
    requires Secure(env.c, queries) && SpendsRecorded(env, queries, h)
    requires i in h.spent && KeyQueries(env.c, o) <= queries
    requires i < |h.notes| && h.notes[i].npk == OpenedKey(env.c, o)
    ensures FieldBytes(Nullifier(env.c, o.view, i)) in h.s.nullifiers
  {
    assert SpentBy(env, queries, h, i, h.spent[i]);
    NoteKeyBinds(env.c, queries, o, h.spent[i]);
  }

  // What an accepted transact says about its inputs and the ledger.
  ghost predicate SpendsLive(env: Env, h: History, ix: TransactIx, w: Witness)
    requires TransactTyped(ix) && WitnessTyped(env.c, env.depth, w)
  {
    && ix.extAmount <= 0
    && w.assetId == env.asset
    && IsU64(w.outValues[0]) && BigEndian(ix.commitments[0]) == OutCommitment(env.c, env.depth, w, 0)
    && IsU64(w.outValues[1]) && BigEndian(ix.commitments[1]) == OutCommitment(env.c, env.depth, w, 1)
    && w.inValues[0] + w.inValues[1] + ix.extAmount == w.outValues[0] + w.outValues[1]
    && (w.inValues[0] > 0 ==> LiveInput(env, h, ix, w, 0))
    && (w.inValues[1] > 0 ==> LiveInput(env, h, ix, w, 1))
    && (w.inValues[0] > 0 && w.inValues[1] > 0 ==> w.leafIndices[0] != w.leafIndices[1])
  }

  ghost predicate LiveInput(env: Env, h: History, ix: TransactIx, w: Witness, i: nat)
    requires TransactTyped(ix) && WitnessTyped(env.c, env.depth, w) && i < INPUTS
  {
    var index, o := w.leafIndices[i], InOpening(env.c, env.depth, w, i);
    && index < |h.notes| && index !in h.spent
    && h.notes[index] == Note(OpenedKey(env.c, o), env.asset, w.inValues[i])
    && FieldBytes(Nullifier(env.c, o.view, index)) == ix.nullifiers[i]
  }

  // The checks before the proof make the statement well typed.
  lemma StatementTyped(env: Env, s: State, ix: TransactIx)
    requires Deployed(env) && TransactTyped(ix) && ProofError(env, s, ix).None?
    ensures Bindable(ix.external) && PublicTyped(env.c, Statement(env, ix))
    ensures env.verify(VerifierData(env, ix))
  {
    CanonicalExact(env.c.p, ix.root);
    CanonicalExact(env.c.p, ix.nullifiers[0]);
    CanonicalExact(env.c.p, ix.nullifiers[1]);
    CanonicalExact(env.c.p, ix.commitments[0]);
    CanonicalExact(env.c.p, ix.commitments[1]);
    SignedIsResidue(env.c.p, ix.extAmount);
  }

  lemma AcceptedJoinSplit(env: Env, s: State, ix: TransactIx, w: Witness)
    requires Deployed(env) && TransactTyped(ix) && WitnessTyped(env.c, env.depth, w)
    requires Attested(env, DoTransact(ix, w)) && ProofError(env, s, ix).None?
    ensures Bindable(ix.external) && PublicTyped(env.c, Statement(env, ix))
    ensures JoinSplit(env.c, env.depth, Statement(env, ix), w, ix.extAmount)
  {
    StatementTyped(env, s, ix);
    SatisfiedMeans(env.c, env.depth, Statement(env, ix), w, ix.extAmount);
  }

  // Two live inputs with different nullifiers are different leaves.
  lemma InputsDistinct(env: Env, queries: set<seq<nat>>, h: History, ix: TransactIx, w: Witness)
    requires Secure(env.c, queries) && TransactTyped(ix) && WitnessTyped(env.c, env.depth, w)
    requires LiveInput(env, h, ix, w, 0) && LiveInput(env, h, ix, w, 1) && ix.nullifiers[0] != ix.nullifiers[1]
    requires InputHashed(env, queries, w, 0) && InputHashed(env, queries, w, 1)
    ensures w.leafIndices[0] != w.leafIndices[1]
  {
    if w.leafIndices[0] == w.leafIndices[1] {
      NoteKeyBinds(env.c, queries, InOpening(env.c, env.depth, w, 0), InOpening(env.c, env.depth, w, 1));
      assert false;
    }
  }

  lemma AcceptedSpendsLive(env: Env, queries: set<seq<nat>>, h: History, ix: TransactIx, w: Witness)
    requires Deployed(env) && Secure(env.c, queries) && Inv(env, queries, h)
    requires Possible(env, h, DoTransact(ix, w)) && Attested(env, DoTransact(ix, w))
    requires forall i: nat | i < INPUTS :: InputHashed(env, queries, w, i)
    requires ProofError(env, h.s, ix).None?
    ensures SpendsLive(env, h, ix, w)
  {
    AcceptedChecked(env, h.s, ix);
    AcceptedJoinSplit(env, h.s, ix, w);
    JoinSplitLive(env, queries, h, ix, w);
  }

  lemma JoinSplitLive(env: Env, queries: set<seq<nat>>, h: History, ix: TransactIx, w: Witness)
    requires Deployed(env) && Secure(env.c, queries) && Inv(env, queries, h)
    requires TransactTyped(ix) && WitnessTyped(env.c, env.depth, w) && Bindable(ix.external)
    requires PublicTyped(env.c, Statement(env, ix)) && Checked(env, h.s, ix)
    requires JoinSplit(env.c, env.depth, Statement(env, ix), w, ix.extAmount)
    requires forall i: nat | i < INPUTS :: InputHashed(env, queries, w, i)
    ensures SpendsLive(env, h, ix, w)
  {
    var pub := Statement(env, ix);
    var k := RootWasCurrent(env, h.s, ix);
    assert SpendsNote(env.c, env.depth, pub, w, 0) && SpendsNote(env.c, env.depth, pub, w, 1);
    if w.inValues[0] > 0 {
      InputLive(env, queries, h, ix, w, k, 0);
    }
    if w.inValues[1] > 0 {
      InputLive(env, queries, h, ix, w, k, 1);
    }
    if w.inValues[0] > 0 && w.inValues[1] > 0 {
      InputsDistinct(env, queries, h, ix, w);
    }
    assert OutputConstraints(env.c, env.depth, pub, w, 0) && OutputConstraints(env.c, env.depth, pub, w, 1);
  }

  lemma InputLive(env: Env, queries: set<seq<nat>>, h: History, ix: TransactIx, w: Witness, k: nat, i: nat)
    requires Deployed(env) && Secure(env.c, queries) && Inv(env, queries, h)
    requires TransactTyped(ix) && WitnessTyped(env.c, env.depth, w) && Bindable(ix.external)
    requires PublicTyped(env.c, Statement(env, ix))
    requires i < INPUTS && w.inValues[i] > 0 && InputHashed(env, queries, w, i)
    requires SpendsNote(env.c, env.depth, Statement(env, ix), w, i)
    requires k <= |h.s.leaves| && BigEndian(ix.root) == RootAt(env.c, env.depth, h.s.leaves, k)
    requires Checked(env, h.s, ix)
    ensures LiveInput(env, h, ix, w, i) && w.assetId == env.asset
  {
    var index, o := w.leafIndices[i], InOpening(env.c, env.depth, w, i);
    InputPinned(env, queries, h, BigEndian(ix.root), k, w, i);
    assert NoteFits(env, queries, h.s.leaves[index], h.notes[index]);
    CanonicalExact(env.c.p, ix.nullifiers[i]);
    EncodeBigEndian(ix.nullifiers[i]);
    assert FieldBytes(Nullifier(env.c, o.view, index)) == ix.nullifiers[i];
    if index in h.spent {
      ConsumedIsRecorded(env, queries, h, index, o);
      assert false;
    }
  }

  // ----- Every step keeps the invariant -----

  lemma InitialKeeps(env: Env, queries: set<seq<nat>>, h: History)
    requires Initial(env, queries, h)
    ensures Inv(env, queries, h)
  {
    assert forall k: nat | k <= |h.s.leaves| :: h.s.leaves[..k] == [];
  }

  // New leaves with their notes.
  lemma TreeOpensMore(env: Env, queries: set<seq<nat>>, h: History, after: History, leaves: seq<nat>, notes: seq<Note>)
    requires TreeOpens(env, queries, h)
    requires after.s.leaves == h.s.leaves + leaves && after.notes == h.notes + notes
    requires |leaves| == |notes| && |after.s.leaves| <= Pow2(env.depth)
    requires forall k: nat | k <= |after.s.leaves| :: TreeHashed(env.c, queries, env.depth, after.s.leaves[..k])
    requires forall i: nat | i < |notes| :: NoteFits(env, queries, leaves[i], notes[i])
    ensures TreeOpens(env, queries, after)
  {
    forall i: nat | i < |after.notes|
      ensures NoteFits(env, queries, after.s.leaves[i], after.notes[i])
    {
      if i < |h.notes| {
        assert NoteFits(env, queries, h.s.leaves[i], h.notes[i]);
      } else {
        assert NoteFits(env, queries, leaves[i - |h.notes|], notes[i - |h.notes|]);
      }
    }
  }

  // Records are only added, notes only appended.
  lemma SpendsStayRecorded(env: Env, queries: set<seq<nat>>, h: History, after: History)
    requires SpendsRecorded(env, queries, h)
    requires after.spent == h.spent && after.order == h.order
    requires h.notes <= after.notes && h.s.nullifiers <= after.s.nullifiers
    ensures SpendsRecorded(env, queries, after)
  {
    forall i | i in after.spent
      ensures SpentBy(env, queries, after, i, after.spent[i])
    {
      assert SpentBy(env, queries, h, i, h.spent[i]);
    }
  }

  lemma ConsumeKeeps(env: Env, queries: set<seq<nat>>, h: History, w: Witness, i: nat)
    requires WitnessTyped(env.c, env.depth, w) && i < INPUTS && SpendsRecorded(env, queries, h)
    requires var index := w.leafIndices[i];
      w.inValues[i] > 0 ==>
        && index !in h.spent && SpentBy(env, queries, h, index, InOpening(env.c, env.depth, w, i))
        && h.notes[index].value == w.inValues[i]
    ensures SpendsRecorded(env, queries, Consume(env, h, w, i))
    ensures Unspent(h.notes, Consume(env, h, w, i).spent.Keys) + w.inValues[i] == Unspent(h.notes, h.spent.Keys)
  {
    if w.inValues[i] > 0 {
      var index, after := w.leafIndices[i], Consume(env, h, w, i);
      assert index !in h.order;
      forall j | j in after.spent
        ensures SpentBy(env, queries, after, j, after.spent[j])
      {
        assert j != index ==> SpentBy(env, queries, h, j, h.spent[j]);
      }
      assert after.spent.Keys == h.spent.Keys + {index};
      UnspentConsume(h.notes, h.spent.Keys, index);
    }
  }

  // What a successful shield does to the ledger.
  lemma ShieldEffect(env: Env, s: State, ix: ShieldIx)
    requires Deployed(env) && ShieldTyped(ix) && ShieldStep(env, s, ix).Ok? && ix.depositor != env.at.pool
    requires env.vault in s.tokens && s.tokens[env.vault].owner == env.at.pool
    ensures var s' := ShieldStep(env, s, ix).value;
      && s'.leaves == s.leaves + [ShieldCommitment(env, ix)] && |s'.leaves| <= Pow2(env.depth)
      && s'.nullifiers == s.nullifiers
      && env.vault in s'.tokens
      && s'.tokens[env.vault] == s.tokens[env.vault].(amount := s.tokens[env.vault].amount + ix.amount)
  {
    FieldBytesRoundTrip(env.c.p, ShieldCommitment(env, ix));
  }

  lemma ShieldKeeps(env: Env, queries: set<seq<nat>>, h: History, ix: ShieldIx)
    requires Deployed(env) && Inv(env, queries, h)
    requires Possible(env, h, DoShield(ix)) && Hashed(env, queries, h, DoShield(ix))
    ensures Inv(env, queries, Step(env, h, DoShield(ix)))
  {
    var step := ShieldStep(env, h.s, ix);
    if step.Ok? {
      ShieldEffect(env, h.s, ix);
      var note := Note(BigEndian(ix.npk), env.asset, ix.amount);
      DepositKeeps(env, queries, h, ix, note, step.value);
    }
  }

  lemma DepositKeeps(env: Env, queries: set<seq<nat>>, h: History, ix: ShieldIx, note: Note, s': State)
    requires Inv(env, queries, h) && ShieldTyped(ix) && note == Note(BigEndian(ix.npk), env.asset, ix.amount)
    requires s'.leaves == h.s.leaves + [ShieldCommitment(env, ix)] && |s'.leaves| <= Pow2(env.depth)
    requires s'.nullifiers == h.s.nullifiers && env.vault in s'.tokens
    requires s'.tokens[env.vault] == h.s.tokens[env.vault].(amount := h.s.tokens[env.vault].amount + ix.amount)
    requires forall k: nat | k <= |s'.leaves| :: TreeHashed(env.c, queries, env.depth, s'.leaves[..k])
    requires forall n | n in h.notes + [note] :: NotePreimage(n) in queries
    ensures Inv(env, queries, h.(s := s', notes := h.notes + [note]))
  {
    var after := h.(s := s', notes := h.notes + [note]);
    assert note in h.notes + [note];
    TreeOpensMore(env, queries, h, after, [ShieldCommitment(env, ix)], [note]);
    SpendsStayRecorded(env, queries, h, after);
    UnspentAppend(h.notes, note, h.spent.Keys);
  }

  lemma OutsideKeeps(env: Env, queries: set<seq<nat>>, h: History, tokens: Ledger)
    requires Inv(env, queries, h) && Possible(env, h, Outside(tokens))
    ensures Inv(env, queries, Step(env, h, Outside(tokens)))
  {
    var after := Step(env, h, Outside(tokens));
    TreeOpensMore(env, queries, h, after, [], []);
    SpendsStayRecorded(env, queries, h, after);
  }

  // The vault holds what an accepted transact pays out; in particular it is never found short.
  lemma PayoutCovered(env: Env, h: History, ix: TransactIx, w: Witness)
    requires VaultExact(env, h) && TransactTyped(ix) && WitnessTyped(env.c, env.depth, w)
    requires SpendsLive(env, h, ix, w)
    ensures UnsignedAbs(ix.extAmount) <= w.inValues[0] + w.inValues[1] <= h.s.tokens[env.vault].amount
  {
    var gone := h.spent.Keys;
    if w.inValues[0] > 0 {
      UnspentConsume(h.notes, gone, w.leafIndices[0]);
      gone := gone + {w.leafIndices[0]};
    }
    if w.inValues[1] > 0 {
      UnspentConsume(h.notes, gone, w.leafIndices[1]);
    }
  }

  // What a successful transact does to the ledger.
  ghost predicate Effect(env: Env, s: State, ix: TransactIx, s': State)
    requires TransactTyped(ix)
  {
    && s'.leaves == s.leaves + [BigEndian(ix.commitments[0]), BigEndian(ix.commitments[1])]
    && |s'.leaves| <= Pow2(env.depth)
    && s'.nullifiers == s.nullifiers + {ix.nullifiers[0], ix.nullifiers[1]}
    && env.vault in s.tokens && env.vault in s'.tokens
    && s'.tokens[env.vault] == s.tokens[env.vault].(amount := s'.tokens[env.vault].amount)
    && s'.tokens[env.vault].amount == s.tokens[env.vault].amount + ix.extAmount
  }

  lemma TransactEffect(env: Env, s: State, ix: TransactIx)
    requires TransactTyped(ix) && TransactStep(env, s, ix).Ok? && env.vault in s.tokens
    ensures Effect(env, s, ix, TransactStep(env, s, ix).value)
  {
    assert ArgumentError(env, ix).None?;
  }

  lemma TransactKeeps(env: Env, queries: set<seq<nat>>, h: History, ix: TransactIx, w: Witness)
    requires Deployed(env) && Secure(env.c, queries) && Inv(env, queries, h)
    requires Possible(env, h, DoTransact(ix, w)) && Attested(env, DoTransact(ix, w))
    requires Hashed(env, queries, h, DoTransact(ix, w))
    ensures Inv(env, queries, Step(env, h, DoTransact(ix, w)))
  {
    var step := TransactStep(env, h.s, ix);
    if step.Ok? {
      AcceptedSpendsLive(env, queries, h, ix, w);
      TransactEffect(env, h.s, ix);
      JoinSplitKeeps(env, queries, h, ix, w, step.value);
    }
  }

  lemma JoinSplitKeeps(env: Env, queries: set<seq<nat>>, h: History, ix: TransactIx, w: Witness, s': State)
    requires Inv(env, queries, h) && TransactTyped(ix) && WitnessTyped(env.c, env.depth, w)
    requires Effect(env, h.s, ix, s') && SpendsLive(env, h, ix, w)
    requires forall i: nat | i < INPUTS :: InputHashed(env, queries, w, i)
    requires forall k: nat | k <= |s'.leaves| :: TreeHashed(env.c, queries, env.depth, s'.leaves[..k])
    requires NotePreimage(OutNote(w, 0)) in queries && NotePreimage(OutNote(w, 1)) in queries
    ensures Inv(env, queries, JoinSplitted(env, h, w, s'))
  {
    var o0, o1 := OutNote(w, 0), OutNote(w, 1);
    var grown := h.(s := s', notes := h.notes + [o0, o1]);
    TreeOpensMore(env, queries, h, grown, [BigEndian(ix.commitments[0]), BigEndian(ix.commitments[1])], [o0, o1]);
    SpendsStayRecorded(env, queries, h, grown);
    InputsConsumed(env, queries, h, grown, ix, w);
    assert grown.notes == h.notes + [o0] + [o1];
    UnspentAppend(h.notes, o0, h.spent.Keys);
    UnspentAppend(h.notes + [o0], o1, h.spent.Keys);
  }

  lemma InputsConsumed(env: Env, queries: set<seq<nat>>, h: History, grown: History, ix: TransactIx, w: Witness)
    requires TransactTyped(ix) && WitnessTyped(env.c, env.depth, w) && SpendsLive(env, h, ix, w)
    requires grown.spent == h.spent && h.notes <= grown.notes && SpendsRecorded(env, queries, grown)
    requires ix.nullifiers[0] in grown.s.nullifiers && ix.nullifiers[1] in grown.s.nullifiers
    requires InputHashed(env, queries, w, 0) && InputHashed(env, queries, w, 1)
    ensures var after := Consume(env, Consume(env, grown, w, 0), w, 1);
      && SpendsRecorded(env, queries, after)
      && Unspent(grown.notes, after.spent.Keys) + w.inValues[0] + w.inValues[1] == Unspent(grown.notes, h.spent.Keys)
  {
    ConsumeKeeps(env, queries, grown, w, 0);
    ConsumeKeeps(env, queries, Consume(env, grown, w, 0), w, 1);
  }

  lemma StepKeeps(env: Env, queries: set<seq<nat>>, h: History, a: Action)
    requires Deployed(env) && Secure(env.c, queries) && Inv(env, queries, h)
    requires Possible(env, h, a) && Attested(env, a) && Hashed(env, queries, h, a)
    ensures Inv(env, queries, Step(env, h, a))
  {
    match a
    case DoShield(ix) => ShieldKeeps(env, queries, h, ix);
    case DoTransact(ix, w) => TransactKeeps(env, queries, h, ix, w);
    case Outside(tokens) => OutsideKeeps(env, queries, h, tokens);
  }

  lemma {:induction false} RunKeeps(env: Env, queries: set<seq<nat>>, start: History, run: seq<Action>, h: History)
    requires Deployed(env) && Secure(env.c, queries) && Reached(env, queries, start, run, h)
    ensures Inv(env, queries, h)
    decreases |run|
  {
    if run == [] {
      InitialKeeps(env, queries, h);
    } else {
      var prefix, last := run[..|run| - 1], run[|run| - 1];
      var before :| Extends(env, queries, start, prefix, before) && Leads(env, queries, before, last, h);
      RunKeeps(env, queries, start, prefix, before);
      StepKeeps(env, queries, before, last);
    }
  }
}
