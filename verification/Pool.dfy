/**
 The pool program: what `shield` and `transact` do to the ledger as functions on
 its state, and the handlers that carry them out step by step under the
 runtime's rollback.
 */
module Pools {
  import opened Arith
  import opened Binding
  import opened Bytes
  import opened Fields
  import opened Notes
  import opened PoolErrors
  import opened PublicWitnesses
  import opened TreeAccounts
  import opened Wrappers

  const PROOF_BYTES: nat := 388
  const MAX_ENCRYPTED_NOTE_LEN: nat := 128

  datatype TokenAccount = TokenAccount(owner: Key, mint: Key, amount: nat, frozen: bool)

  type Ledger = map<Key, TokenAccount>

  // A deployed pool: its hash, tree shape, addresses and asset, the verifier it calls and Keccak.
  datatype Env = Env(
    c: Crypto, depth: nat, window: nat, at: Deployment, vault: Key, asset: nat,
    verify: seq<byte> -> bool, keccak: seq<byte> -> seq<byte>)

  datatype Event =
    | NewCommitment(commitment: seq<byte>, leafIndex: nat, note: seq<byte>)
    | NewNullifier(nullifier: seq<byte>)

  // Tree leaves, nullifier records, token accounts and the log.
  datatype State = State(leaves: seq<nat>, nullifiers: set<seq<byte>>, tokens: Ledger, events: seq<Event>)

  datatype ShieldIx = ShieldIx(npk: seq<byte>, amount: nat, note: seq<byte>, depositor: Key, depositorAta: Key)

  datatype TransactIx = TransactIx(
    proof: seq<byte>, root: seq<byte>, nullifiers: seq<seq<byte>>, commitments: seq<seq<byte>>,
    extAmount: int, external: External, recipientAta: Key, verifier: Key)

  // What the instruction decoder guarantees.
  predicate ShieldTyped(ix: ShieldIx) {
    IsField(ix.npk) && IsU64(ix.amount)
  }

  predicate TransactTyped(ix: TransactIx) {
    && IsField(ix.root) && IsI64(ix.extAmount) && |ix.external.notes| == 2
    && |ix.nullifiers| == 2 && IsField(ix.nullifiers[0]) && IsField(ix.nullifiers[1])
    && |ix.commitments| == 2 && IsField(ix.commitments[0]) && IsField(ix.commitments[1])
  }

  // ----- Token program -----

  // `transfer_checked` signed by `authority`.
  function Transfer(tokens: Ledger, mint: Key, from: Key, to: Key, authority: Key, amount: nat)
      : Result<Ledger, PoolError>
  {
    if from !in tokens || to !in tokens then Err(TokenError)
    else
      var source, destination := tokens[from], tokens[to];
      if source.frozen || destination.frozen || source.mint != mint || destination.mint != mint
         || source.owner != authority || source.amount < amount then Err(TokenError)
      else if from == to then Ok(tokens)
      else if destination.amount + amount >= TWO_64 then Err(TokenError)
      else Ok(tokens[from := source.(amount := source.amount - amount)]
                    [to := destination.(amount := destination.amount + amount)])
  }

  // One more leaf, logged under the index it gets.
  function Inserted(s: State, commitment: seq<byte>, note: seq<byte>): State {
    s.(leaves := s.leaves + [BigEndian(commitment)],
       events := s.events + [NewCommitment(commitment, |s.leaves|, note)])
  }

  // ----- Shield -----

  function ShieldCommitment(env: Env, ix: ShieldIx): nat {
    Commitment(env.c, BigEndian(ix.npk), env.asset, ix.amount)
  }

  function ShieldStep(env: Env, s: State, ix: ShieldIx): Result<State, PoolError>
    requires ShieldTyped(ix)
  {
    if ix.depositorAta !in s.tokens || s.tokens[ix.depositorAta].mint != env.at.mint
       || s.tokens[ix.depositorAta].owner != ix.depositor then Err(AccountConstraint)
    else if ix.amount == 0 then Err(ZeroAmount)
    else if !IsCanonical(env.c.p, ix.npk) then Err(InvalidField)
    else if |ix.note| > MAX_ENCRYPTED_NOTE_LEN then Err(NoteTooLarge)
    else
      match Transfer(s.tokens, env.at.mint, ix.depositorAta, env.vault, ix.depositor, ix.amount)
      case Err(e) => Err(e)
      case Ok(tokens) =>
        if |s.leaves| >= Pow2(env.depth) then Err(TreeError)
        else Ok(Inserted(s.(tokens := tokens), FieldBytes(ShieldCommitment(env, ix)), ix.note))
  }

  // ----- Transact -----

  // The accounts the runtime checks, and the records it creates, before the handler runs.
  function AccountError(env: Env, nullifiers: set<seq<byte>>, tokens: Ledger, ix: TransactIx): Option<PoolError>
    requires TransactTyped(ix)
  {
    if ix.nullifiers[0] in nullifiers || ix.nullifiers[1] in nullifiers + {ix.nullifiers[0]}
    then Some(AccountConstraint)
    else if ix.recipientAta !in tokens || tokens[ix.recipientAta].mint != env.at.mint then Some(AccountConstraint)
    else if ix.verifier != env.at.verifier then Some(WrongVerifier)
    else None
  }

  // Checks that read nothing but the instruction.
  function ArgumentError(env: Env, ix: TransactIx): Option<PoolError>
    requires TransactTyped(ix)
  {
    if ix.extAmount > 0 then Some(ExtAmountMustBeNonPositive)
    else if |ix.proof| != PROOF_BYTES then Some(InvalidProofLength)
    else if !(IsCanonical(env.c.p, ix.root)
              && IsCanonical(env.c.p, ix.nullifiers[0]) && IsCanonical(env.c.p, ix.nullifiers[1])
              && IsCanonical(env.c.p, ix.commitments[0]) && IsCanonical(env.c.p, ix.commitments[1]))
    then Some(InvalidField)
    else if ix.nullifiers[0] == Zeros(FIELD_BYTES) || ix.nullifiers[1] == Zeros(FIELD_BYTES) then Some(ZeroNullifier)
    else if ix.nullifiers[0] == ix.nullifiers[1] then Some(DuplicateNullifier)
    else if |ix.external.notes[0]| > MAX_ENCRYPTED_NOTE_LEN || |ix.external.notes[1]| > MAX_ENCRYPTED_NOTE_LEN
    then Some(NoteTooLarge)
    else if ix.extAmount < 0 && ix.recipientAta == env.vault then Some(SelfTransfer)
    else None
  }

  // `ExtData::hash`: the digest reduced into the field and re-encoded.
  method ExtDataHash(p: Modulus, keccak: seq<byte> -> seq<byte>, data: External, programId: Key,
                     domain: Key, pool: Key, mint: Key, verifier: Key, extAmount: int)
      returns (r: Result<seq<byte>, PoolError>)
    requires |data.notes| == 2 && IsI64(extAmount)
    ensures match BindingHash(p, keccak, Deployment(domain, programId, pool, mint, verifier), data, extAmount)
      case Some(hash) => r == Ok(FieldBytes(hash))
      case None => r == Err(NoteTooLarge)
  {
    var amount := I64Bytes(extAmount);
    if |data.notes[0]| >= 0x1_0000_0000 {
      return Err(NoteTooLarge);
    }
    var firstLen := U32Bytes(|data.notes[0]|);
    if |data.notes[1]| >= 0x1_0000_0000 {
      return Err(NoteTooLarge);
    }
    var secondLen := U32Bytes(|data.notes[1]|);
    var slices := [BINDING_DOMAIN, domain, programId, pool, mint, verifier, data.recipient, amount,
                   firstLen, data.notes[0], secondLen, data.notes[1]];
    SlicesArePreimage(slices, Deployment(domain, programId, pool, mint, verifier), data, extAmount);
    var digest := Hashv(keccak, slices);
    r := Ok(FieldBytes(Reduce(p, digest)));
  }

  // The seven public inputs the program assembles.
  function PublicFields(env: Env, ix: TransactIx): (fields: seq<seq<byte>>)
    requires TransactTyped(ix) && Bindable(ix.external)
    ensures |fields| == PUBLIC_INPUT_COUNT && forall f | f in fields :: IsField(f)
  {
    var hash := BindingHash(env.c.p, env.keccak, env.at, ix.external, ix.extAmount);
    [ix.root, ix.nullifiers[0], ix.nullifiers[1], ix.commitments[0], ix.commitments[1],
     FieldBytes(FromSigned(env.c.p, ix.extAmount)), FieldBytes(hash.value)]
  }

  function VerifierData(env: Env, ix: TransactIx): seq<byte>
    requires TransactTyped(ix) && Bindable(ix.external)
  {
    ix.proof + Layout(PublicFields(env, ix))
  }

  // The first failing check of the handler, up to and including the proof.
  ghost function ProofError(env: Env, s: State, ix: TransactIx): Option<PoolError>
    requires TransactTyped(ix)
  {
    if AccountError(env, s.nullifiers, s.tokens, ix).Some? then AccountError(env, s.nullifiers, s.tokens, ix)
    else if ArgumentError(env, ix).Some? then ArgumentError(env, ix)
    else if !RootKnown(env.c, env.depth, env.window, s.leaves, ix.root) then Some(UnknownRoot)
    else if !env.verify(VerifierData(env, ix)) then Some(InvalidProof)
    else None
  }

  function Payout(env: Env, tokens: Ledger, ix: TransactIx): Result<Ledger, PoolError>
    requires TransactTyped(ix)
  {
    var amount := UnsignedAbs(ix.extAmount);
    if ix.extAmount >= 0 then Ok(tokens)
    else if env.vault !in tokens || ix.recipientAta !in tokens then Err(AccountConstraint)
    else if tokens[env.vault].amount < amount then Err(InsufficientVault)
    else if tokens[ix.recipientAta].owner != ix.external.recipient then Err(RecipientMismatch)
    else Transfer(tokens, env.at.mint, env.vault, ix.recipientAta, env.at.pool, amount)
  }

  // Each commitment is logged with the note at the same position.
  function WithOutputs(s: State, ix: TransactIx): State
    requires TransactTyped(ix)
  {
    Inserted(Inserted(s, ix.commitments[0], ix.external.notes[0]), ix.commitments[1], ix.external.notes[1])
  }

  // Records, payout, outputs and log, once the proof is accepted.
  function Settled(env: Env, s: State, ix: TransactIx): Result<State, PoolError>
    requires TransactTyped(ix)
  {
    match Payout(env, s.tokens, ix)
    case Err(e) => Err(e)
    case Ok(tokens) =>
      if |s.leaves| + 2 > Pow2(env.depth) then Err(TreeError)
      else
        var recorded := s.(nullifiers := s.nullifiers + {ix.nullifiers[0], ix.nullifiers[1]}, tokens := tokens);
        var inserted := WithOutputs(recorded, ix);
        Ok(inserted.(events := inserted.events + [NewNullifier(ix.nullifiers[0]), NewNullifier(ix.nullifiers[1])]))
  }

  ghost function TransactStep(env: Env, s: State, ix: TransactIx): Result<State, PoolError>
    requires TransactTyped(ix)
  {
    match ProofError(env, s, ix)
    case Some(e) => Err(e)
    case None => Settled(env, s, ix)
  }

  function Failure(r: Result<State, PoolError>): Option<PoolError> {
    if r.Ok? then None else Some(r.error)
  }

  // A failed instruction is rolled back.
  function Commit(s: State, r: Result<State, PoolError>): State {
    if r.Ok? then r.value else s
  }

  class Pool {
    const env: Env
    var tree: TreeAccount
    var nullifiers: set<seq<byte>>
    var tokens: Ledger
    var events: seq<Event>

    ghost function Repr(): set<object>
      reads this, tree, tree.tree
    {
      {this, tree, tree.tree, tree.tree.filled, tree.ring}
    }

    ghost predicate Valid()
      reads this, tree, tree.tree, tree.tree.filled, tree.ring
    {
      && tree.Valid()
      && tree.c == env.c && tree.depth == env.depth && tree.window == env.window
    }

    ghost function Now(): State
      reads this, tree, tree.tree
    {
      State(tree.Leaves(), nullifiers, tokens, events)
    }

    constructor (env: Env, tokens: Ledger)
      requires env.window > 0
      ensures Valid() && fresh(Repr())
      ensures this.env == env && Now() == State([], {}, tokens, [])
    {
      var t := new TreeAccount(env.c, env.depth, env.window);
      this.env, tree, this.tokens := env, t, tokens;
      nullifiers, events := {}, [];
    }

    // The runtime puts every account back as it was.
    method Rollback(savedTree: TreeAccount, ghost before: State, savedNullifiers: set<seq<byte>>, savedTokens: Ledger,
                    savedEvents: seq<Event>)
      requires savedTree.Valid()
      requires savedTree.c == env.c && savedTree.depth == env.depth && savedTree.window == env.window
      requires before == State(savedTree.Leaves(), savedNullifiers, savedTokens, savedEvents)
      modifies this
      ensures Valid() && tree == savedTree && Now() == before
    {
      tree, nullifiers, tokens, events := savedTree, savedNullifiers, savedTokens, savedEvents;
    }

    method Insert(commitment: seq<byte>, note: seq<byte>) returns (r: Result<nat, PoolError>)
      requires Valid()
      modifies this`events, tree, tree.tree, tree.tree.filled, tree.ring
      ensures Valid() && Repr() == old(Repr())
      ensures if |old(Now()).leaves| < Pow2(env.depth)
        then r.Ok? && Now() == Inserted(old(Now()), commitment, note)
        else r == Err(TreeError) && Now() == old(Now())
    {
      r := tree.Append(BigEndian(commitment));
      if r.Ok? {
        events := events + [NewCommitment(commitment, r.value, note)];
      }
    }

    // The handler alone: on an error it may stop half way.
    method HandleShield(ix: ShieldIx) returns (failure: Option<PoolError>)
      requires Valid() && ShieldTyped(ix)
      modifies this, tree, tree.tree, tree.tree.filled, tree.ring
      ensures Valid() && Repr() == old(Repr())
      ensures var step := ShieldStep(env, old(Now()), ix);
        failure == Failure(step) && (step.Ok? ==> Now() == step.value)
    {
      if ix.depositorAta !in tokens || tokens[ix.depositorAta].mint != env.at.mint
         || tokens[ix.depositorAta].owner != ix.depositor {
        return Some(AccountConstraint);
      }
      if ix.amount == 0 {
        return Some(ZeroAmount);
      }
      if !IsCanonical(env.c.p, ix.npk) {
        return Some(InvalidField);
      }
      if |ix.note| > MAX_ENCRYPTED_NOTE_LEN {
        return Some(NoteTooLarge);
      }
      var moved := Transfer(tokens, env.at.mint, ix.depositorAta, env.vault, ix.depositor, ix.amount);
      if moved.Err? {
        return Some(moved.error);
      }
      tokens := moved.value;
      var inserted := Insert(FieldBytes(ShieldCommitment(env, ix)), ix.note);
      if inserted.Err? {
        return Some(inserted.error);
      }
      failure := None;
    }

    method Shield(ix: ShieldIx) returns (failure: Option<PoolError>)
      requires Valid() && ShieldTyped(ix)
      modifies this, tree, tree.tree, tree.tree.filled, tree.ring
      ensures Valid() && fresh(Repr() - old(Repr()))
      ensures var step := ShieldStep(env, old(Now()), ix);
        && Now() == Commit(old(Now()), step)
        && failure == Failure(step)
    {
      ghost var before := Now();
      var savedTree := new TreeAccount.Clone(tree);
      var savedNullifiers, savedTokens, savedEvents := nullifiers, tokens, events;
      failure := HandleShield(ix);
      if failure.Some? {
        Rollback(savedTree, before, savedNullifiers, savedTokens, savedEvents);
      }
    }

    // The checks of `transact`, in program order.
    method CheckProof(ix: TransactIx) returns (failure: Option<PoolError>)
      requires Valid() && TransactTyped(ix)
      ensures failure == ProofError(env, Now(), ix)
    {
      failure := AccountError(env, nullifiers, tokens, ix);
      if failure.Some? {
        return;
      }
      failure := ArgumentError(env, ix);
      if failure.Some? {
        return;
      }
      var known := tree.ContainsRoot(ix.root);
      if !known {
        return Some(UnknownRoot);
      }
      var bound := ExtDataHash(env.c.p, env.keccak, ix.external, env.at.program,
                               env.at.domain, env.at.pool, env.at.mint, env.at.verifier, ix.extAmount);
      var data := EncodeInputs([ix.root, ix.nullifiers[0], ix.nullifiers[1], ix.commitments[0], ix.commitments[1],
                                FieldBytes(FromSigned(env.c.p, ix.extAmount)), bound.value]);
      failure := if env.verify(ix.proof + data) then None else Some(InvalidProof);
    }

    method InsertOutputs(ix: TransactIx) returns (failure: Option<PoolError>)
      requires Valid() && TransactTyped(ix)
      modifies this`events, tree, tree.tree, tree.tree.filled, tree.ring
      ensures Valid() && Repr() == old(Repr())
      ensures if |old(Now()).leaves| + 2 > Pow2(env.depth) then failure == Some(TreeError)
        else failure == None && Now() == WithOutputs(old(Now()), ix)
    {
      ghost var recorded := Now();
      ghost var first := Inserted(recorded, ix.commitments[0], ix.external.notes[0]);
      for i := 0 to 2
        invariant Valid() && Repr() == old(Repr())
        invariant |recorded.leaves| + i <= Pow2(env.depth)
        invariant Now() == if i == 0 then recorded else if i == 1 then first
                           else WithOutputs(recorded, ix)
      {
        var inserted := Insert(ix.commitments[i], ix.external.notes[i]);
        if inserted.Err? {
          return Some(inserted.error);
        }
      }
      failure := None;
    }

    method Settle(ix: TransactIx) returns (failure: Option<PoolError>)
      requires Valid() && TransactTyped(ix)
      modifies this, tree, tree.tree, tree.tree.filled, tree.ring
      ensures Valid() && Repr() == old(Repr())
      ensures var step := Settled(env, old(Now()), ix);
        failure == Failure(step) && (step.Ok? ==> Now() == step.value)
    {
      nullifiers := nullifiers + {ix.nullifiers[0], ix.nullifiers[1]};
      var paid := Payout(env, tokens, ix);
      if paid.Err? {
        return Some(paid.error);
      }
      tokens := paid.value;
      failure := InsertOutputs(ix);
      if failure.Some? {
        return;
      }
      events := events + [NewNullifier(ix.nullifiers[0])];
      events := events + [NewNullifier(ix.nullifiers[1])];
    }

    // The handler alone: on an error it may stop half way.
    method HandleTransact(ix: TransactIx) returns (failure: Option<PoolError>)
      requires Valid() && TransactTyped(ix)
      modifies this, tree, tree.tree, tree.tree.filled, tree.ring
      ensures Valid() && Repr() == old(Repr())
      ensures var step := TransactStep(env, old(Now()), ix);
        failure == Failure(step) && (step.Ok? ==> Now() == step.value)
    {
      failure := CheckProof(ix);
      if failure.None? {
        failure := Settle(ix);
      }
    }

    method Transact(ix: TransactIx) returns (failure: Option<PoolError>)
      requires Valid() && TransactTyped(ix)
      modifies this, tree, tree.tree, tree.tree.filled, tree.ring
      ensures Valid() && fresh(Repr() - old(Repr()))
      ensures var step := TransactStep(env, old(Now()), ix);
        Now() == Commit(old(Now()), step) && failure == Failure(step)
    {
      ghost var before := Now();
      var savedTree := new TreeAccount.Clone(tree);
      var savedNullifiers, savedTokens, savedEvents := nullifiers, tokens, events;
      failure := HandleTransact(ix);
      if failure.Some? {
        Rollback(savedTree, before, savedNullifiers, savedTokens, savedEvents);
      }
    }
  }
}
