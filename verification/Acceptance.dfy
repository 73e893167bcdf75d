/**
 When the program accepts an instruction, what it reports otherwise, and what
 an accepted one leaves behind: said of the instruction and the accounts alone,
 check by check in the order of the program.
 */
module Acceptance {
  import opened Arith
  import opened Binding
  import opened Bytes
  import opened Fields
  import opened Merkle
  import opened Notes
  import opened PoolErrors
  import opened PoolRuns
  import opened PoolSafety
  import opened Pools
  import opened PublicWitnesses
  import opened TreeAccounts
  import opened Wrappers

  // ----- Checks in order -----

  datatype Check = Check(holds: bool, error: PoolError)

  // The error of the first check that does not hold.
  function FirstError(checks: seq<Check>): Option<PoolError> {
    if checks == [] then None
    else if !checks[0].holds then Some(checks[0].error)
    else FirstError(checks[1..])
  }

  lemma FirstErrorFrom(checks: seq<Check>, k: nat)
    requires k < |checks|
    ensures FirstError(checks[k..]) == if checks[k].holds then FirstError(checks[k + 1..]) else Some(checks[k].error)
  {
    assert checks[k..][1..] == checks[k + 1..];
  }

  lemma {:induction false} FirstErrorThen(first: seq<Check>, more: seq<Check>)
    ensures FirstError(first + more) == if FirstError(first).Some? then FirstError(first) else FirstError(more)
  {
    if first == [] {
      assert first + more == more;
    } else {
      FirstErrorThen(first[1..], more);
      assert (first + more)[1..] == first[1..] + more;
    }
  }

  // No error, no failing check.
  lemma {:induction false} NoErrorExactly(checks: seq<Check>)
    ensures FirstError(checks).None? <==> forall i | 0 <= i < |checks| :: checks[i].holds
  {
    if checks == [] {
    } else {
      NoErrorExactly(checks[1..]);
      assert checks == [checks[0]] + checks[1..];
    }
  }

  // ----- Tokens -----

  // Both accounts exist, are of this mint and not frozen; the source is the signer's, can pay, and
  // the destination can hold the amount.
  predicate Transferable(tokens: Ledger, mint: Key, from: Key, to: Key, signer: Key, amount: nat) {
    && from in tokens && to in tokens
    && tokens[from].mint == mint && tokens[to].mint == mint
    && !tokens[from].frozen && !tokens[to].frozen
    && tokens[from].owner == signer && tokens[from].amount >= amount
    && (from != to ==> tokens[to].amount + amount < TWO_64)
  }

  lemma TransferExactly(tokens: Ledger, mint: Key, from: Key, to: Key, signer: Key, amount: nat)
    ensures var r := Transfer(tokens, mint, from, to, signer, amount);
      && (r.Ok? <==> Transferable(tokens, mint, from, to, signer, amount))
      && (r.Err? ==> r.error == TokenError)
      && (r.Ok? && from != to ==> Moved(tokens, r.value, from, to, amount))
      && (r.Ok? && from == to ==> r.value == tokens)
  {
  }

  // ----- Shield -----

  ghost function ShieldChecks(env: Env, s: State, ix: ShieldIx): seq<Check> {
    var ata := ix.depositorAta;
    [ Check(ata in s.tokens && s.tokens[ata].mint == env.at.mint && s.tokens[ata].owner == ix.depositor,
            AccountConstraint),
      Check(ix.amount > 0, ZeroAmount),
      Check(BigEndian(ix.npk) < env.c.p, InvalidField),
      Check(|ix.note| <= 128, NoteTooLarge),
      Check(Transferable(s.tokens, env.at.mint, ata, env.vault, ix.depositor, ix.amount), TokenError),
      Check(|s.leaves| < Pow2(env.depth), TreeError) ]
  }

  /** A deposit is refused for the first of these reasons that applies, and for no other. */
  lemma ShieldReports(env: Env, s: State, ix: ShieldIx)
    requires Encodable(env.c.p) && ShieldTyped(ix)
    ensures Failure(ShieldStep(env, s, ix)) == FirstError(ShieldChecks(env, s, ix))
  {
    var checks := ShieldChecks(env, s, ix);
    CanonicalExact(env.c.p, ix.npk);
    TransferExactly(s.tokens, env.at.mint, ix.depositorAta, env.vault, ix.depositor, ix.amount);
    FirstErrorFrom(checks, 5);
    FirstErrorFrom(checks, 4);
    FirstErrorFrom(checks, 3);
    FirstErrorFrom(checks, 2);
    FirstErrorFrom(checks, 1);
    FirstErrorFrom(checks, 0);
    assert checks[0..] == checks && checks[6..] == [];
  }

  // ----- Transact -----

  // Accounts and records.
  ghost function AccountChecks(env: Env, s: State, ix: TransactIx): seq<Check>
    requires TransactTyped(ix)
  {
    [ Check(ix.nullifiers[0] !in s.nullifiers, AccountConstraint),
      Check(ix.nullifiers[1] !in s.nullifiers && ix.nullifiers[0] != ix.nullifiers[1], AccountConstraint),
      Check(ix.recipientAta in s.tokens && s.tokens[ix.recipientAta].mint == env.at.mint, AccountConstraint),
      Check(ix.verifier == env.at.verifier, WrongVerifier) ]
  }

  // The arguments.
  ghost function ArgumentChecks(env: Env, ix: TransactIx): seq<Check>
    requires TransactTyped(ix)
  {
    [ Check(ix.extAmount <= 0, ExtAmountMustBeNonPositive),
      Check(|ix.proof| == 388, InvalidProofLength),
      Check(&& BigEndian(ix.root) < env.c.p
            && BigEndian(ix.nullifiers[0]) < env.c.p && BigEndian(ix.nullifiers[1]) < env.c.p
            && BigEndian(ix.commitments[0]) < env.c.p && BigEndian(ix.commitments[1]) < env.c.p, InvalidField),
      Check(BigEndian(ix.nullifiers[0]) != 0 && BigEndian(ix.nullifiers[1]) != 0, ZeroNullifier),
      Check(ix.nullifiers[0] != ix.nullifiers[1], DuplicateNullifier),
      Check(|ix.external.notes[0]| <= 128 && |ix.external.notes[1]| <= 128, NoteTooLarge),
      Check(ix.extAmount < 0 ==> ix.recipientAta != env.vault, SelfTransfer) ]
  }

  // The root was current fewer than `window` appends ago, and is not zero.
  ghost predicate RootRecent(env: Env, leaves: seq<nat>, root: seq<byte>) {
    && BigEndian(root) != 0
    && exists k: nat | k <= |leaves| ::
         |leaves| - k < env.window && BigEndian(root) == Root(env.c, env.depth, leaves[..k])
  }

  // What the verifier is called with: the proof, then seven field elements behind a header that counts them.
  ghost function Presented(env: Env, ix: TransactIx): seq<byte>
    requires TransactTyped(ix) && Bindable(ix.external)
  {
    var bound := Reduce(env.c.p, env.keccak(Preimage(env.at, ix.external, ix.extAmount)));
    ix.proof + [0, 0, 0, 7, 0, 0, 0, 0, 0, 0, 0, 7] + ix.root + ix.nullifiers[0] + ix.nullifiers[1]
      + ix.commitments[0] + ix.commitments[1] + FieldBytes(ix.extAmount % env.c.p) + FieldBytes(bound)
  }

  // Root and proof.
  ghost function ProofChecks(env: Env, s: State, ix: TransactIx): seq<Check>
    requires TransactTyped(ix)
  {
    [ Check(RootRecent(env, s.leaves, ix.root), UnknownRoot),
      Check(Bindable(ix.external) && env.verify(Presented(env, ix)), InvalidProof) ]
  }

  // The payout of a withdrawal, and room for two leaves.
  ghost function PayoutChecks(env: Env, s: State, ix: TransactIx): seq<Check>
    requires TransactTyped(ix)
  {
    var withdraws, ata := ix.extAmount < 0, ix.recipientAta;
    [ Check(withdraws ==> env.vault in s.tokens, AccountConstraint),
      Check(withdraws && env.vault in s.tokens ==> s.tokens[env.vault].amount >= -ix.extAmount, InsufficientVault),
      Check(withdraws && ata in s.tokens ==> s.tokens[ata].owner == ix.external.recipient, RecipientMismatch),
      Check(withdraws ==> Transferable(s.tokens, env.at.mint, env.vault, ata, env.at.pool, -ix.extAmount), TokenError),
      Check(|s.leaves| + 2 <= Pow2(env.depth), TreeError) ]
  }

  ghost function TransactChecks(env: Env, s: State, ix: TransactIx): seq<Check>
    requires TransactTyped(ix)
  {
    AccountChecks(env, s, ix) + (ArgumentChecks(env, ix) + (ProofChecks(env, s, ix) + PayoutChecks(env, s, ix)))
  }

  lemma AccountReports(env: Env, s: State, ix: TransactIx)
    requires TransactTyped(ix)
    ensures AccountError(env, s.nullifiers, s.tokens, ix) == FirstError(AccountChecks(env, s, ix))
  {
    var checks := AccountChecks(env, s, ix);
    FirstErrorFrom(checks, 3);
    FirstErrorFrom(checks, 2);
    FirstErrorFrom(checks, 1);
    FirstErrorFrom(checks, 0);
    assert checks[0..] == checks && checks[4..] == [];
  }

  lemma ZeroExactly(s: seq<byte>)
    requires IsField(s)
    ensures s == Zeros(FIELD_BYTES) <==> BigEndian(s) == 0
  {
    FieldCapacity();
    EncodeZero(FIELD_BYTES);
    EncodeBigEndian(s);
    BigEndianEncode(0, FIELD_BYTES);
  }

  lemma ArgumentReports(env: Env, ix: TransactIx)
    requires Encodable(env.c.p) && TransactTyped(ix)
    ensures ArgumentError(env, ix) == FirstError(ArgumentChecks(env, ix))
  {
    var checks := ArgumentChecks(env, ix);
    CanonicalExact(env.c.p, ix.root);
    CanonicalExact(env.c.p, ix.nullifiers[0]);
    CanonicalExact(env.c.p, ix.nullifiers[1]);
    CanonicalExact(env.c.p, ix.commitments[0]);
    CanonicalExact(env.c.p, ix.commitments[1]);
    ZeroExactly(ix.nullifiers[0]);
    ZeroExactly(ix.nullifiers[1]);
    FirstErrorFrom(checks, 6);
    FirstErrorFrom(checks, 5);
    FirstErrorFrom(checks, 4);
    FirstErrorFrom(checks, 3);
    FirstErrorFrom(checks, 2);
    FirstErrorFrom(checks, 1);
    FirstErrorFrom(checks, 0);
    assert checks[0..] == checks && checks[7..] == [];
  }

  lemma RootRecentExactly(env: Env, leaves: seq<nat>, root: seq<byte>)
    requires Encodable(env.c.p) && env.depth > 0 && IsField(root)
    ensures RootKnown(env.c, env.depth, env.window, leaves, root) <==> RootRecent(env, leaves, root)
  {
    ZeroExactly(root);
    forall k: nat | k <= |leaves|
      ensures FieldBytes(RootAt(env.c, env.depth, leaves, k)) == root
         <==> Root(env.c, env.depth, leaves[..k]) == BigEndian(root)
    {
      FieldBytesRoundTrip(env.c.p, RootAt(env.c, env.depth, leaves, k));
      EncodeBigEndian(root);
    }
    if RootRecent(env, leaves, root) {
      var k: nat :|
        k <= |leaves| && |leaves| - k < env.window && BigEndian(root) == Root(env.c, env.depth, leaves[..k]);
      assert Recent(env.window, |leaves|, k);
    }
  }

  lemma ConcatSeven(f: seq<seq<byte>>)
    requires |f| == 7 && forall x | x in f :: IsField(x)
    ensures Concat(f) == f[0] + f[1] + f[2] + f[3] + f[4] + f[5] + f[6]
  {
    assert f[..6][..5] == f[..5] && f[..5][..4] == f[..4] && f[..4][..3] == f[..3];
    assert f[..3][..2] == f[..2] && f[..2][..1] == f[..1] && f[..1][..0] == [];
    assert Concat(f[..1]) == f[0];
    assert Concat(f[..2]) == f[0] + f[1];
    assert Concat(f[..3]) == f[0] + f[1] + f[2];
    assert Concat(f[..4]) == f[0] + f[1] + f[2] + f[3];
    assert Concat(f[..5]) == f[0] + f[1] + f[2] + f[3] + f[4];
    assert Concat(f[..6]) == f[0] + f[1] + f[2] + f[3] + f[4] + f[5];
  }

  lemma PresentedIsVerified(env: Env, ix: TransactIx)
    requires TransactTyped(ix) && Bindable(ix.external)
    ensures VerifierData(env, ix) == Presented(env, ix)
  {
    var f := PublicFields(env, ix);
    SignedIsResidue(env.c.p, ix.extAmount);
    ConcatSeven(f);
    assert VerifierData(env, ix) == ix.proof + (HEADER + (f[0] + f[1] + f[2] + f[3] + f[4] + f[5] + f[6]));
  }

  lemma PayoutReports(env: Env, s: State, ix: TransactIx)
    requires TransactTyped(ix) && AccountError(env, s.nullifiers, s.tokens, ix).None? && ArgumentError(env, ix).None?
    ensures Failure(Settled(env, s, ix)) == FirstError(PayoutChecks(env, s, ix))
  {
    var checks := PayoutChecks(env, s, ix);
    if ix.extAmount < 0 {
      TransferExactly(s.tokens, env.at.mint, env.vault, ix.recipientAta, env.at.pool, -ix.extAmount);
    }
    FirstErrorFrom(checks, 4);
    FirstErrorFrom(checks, 3);
    FirstErrorFrom(checks, 2);
    FirstErrorFrom(checks, 1);
    FirstErrorFrom(checks, 0);
    assert checks[0..] == checks && checks[5..] == [];
  }

  lemma ProofReports(env: Env, s: State, ix: TransactIx)
    requires Encodable(env.c.p) && env.depth > 0 && TransactTyped(ix)
    requires AccountError(env, s.nullifiers, s.tokens, ix).None? && ArgumentError(env, ix).None?
    ensures ProofError(env, s, ix) == FirstError(ProofChecks(env, s, ix))
  {
    var checks := ProofChecks(env, s, ix);
    RootRecentExactly(env, s.leaves, ix.root);
    PresentedIsVerified(env, ix);
    FirstErrorFrom(checks, 1);
    FirstErrorFrom(checks, 0);
    assert checks[0..] == checks && checks[2..] == [];
  }

  /** A transact is refused for the first of these reasons that applies, and for no other. */
  lemma TransactReports(env: Env, s: State, ix: TransactIx)
    requires Encodable(env.c.p) && env.depth > 0 && TransactTyped(ix)
    ensures Failure(TransactStep(env, s, ix)) == FirstError(TransactChecks(env, s, ix))
  {
    var a, b := AccountChecks(env, s, ix), ArgumentChecks(env, ix);
    var c, d := ProofChecks(env, s, ix), PayoutChecks(env, s, ix);
    FirstErrorThen(a, b + (c + d));
    FirstErrorThen(b, c + d);
    FirstErrorThen(c, d);
    AccountReports(env, s, ix);
    if AccountError(env, s.nullifiers, s.tokens, ix).None? {
      ArgumentReports(env, ix);
      if ArgumentError(env, ix).None? {
        ProofReports(env, s, ix);
        PayoutReports(env, s, ix);
      }
    }
  }

  /** It is accepted if and only if every check holds. */
  lemma TransactAccepted(env: Env, s: State, ix: TransactIx)
    requires Encodable(env.c.p) && env.depth > 0 && TransactTyped(ix)
    ensures TransactStep(env, s, ix).Ok?
       <==> var checks := TransactChecks(env, s, ix); forall i | 0 <= i < |checks| :: checks[i].holds
  {
    TransactReports(env, s, ix);
    NoErrorExactly(TransactChecks(env, s, ix));
  }

  // ----- What is left behind -----

  // The new leaf, and the one new log entry that tells its index and its note.
  ghost predicate Deposited(env: Env, s: State, ix: ShieldIx, after: State) {
    var leaf := Commitment(env.c, BigEndian(ix.npk), env.asset, ix.amount);
    && after.leaves == s.leaves + [leaf]
    && after.events == s.events + [NewCommitment(FieldBytes(leaf), |s.leaves|, ix.note)]
    && after.nullifiers == s.nullifiers
  }

  /** A deposit appends the commitment of its note and logs it with the depositor's ciphertext; see `ShieldMoves`. */
  lemma ShieldLeaves(env: Env, s: State, ix: ShieldIx)
    requires Encodable(env.c.p) && ShieldTyped(ix) && ShieldStep(env, s, ix).Ok?
    ensures Deposited(env, s, ix, ShieldStep(env, s, ix).value)
  {
    FieldBytesRoundTrip(env.c.p, ShieldCommitment(env, ix));
  }

  // Two new leaves, two records, and the four log entries that tell them.
  ghost predicate JoinedAndSplit(s: State, ix: TransactIx, after: State)
    requires TransactTyped(ix)
  {
    var n := |s.leaves|;
    && after.leaves == s.leaves + [BigEndian(ix.commitments[0]), BigEndian(ix.commitments[1])]
    && after.nullifiers == s.nullifiers + {ix.nullifiers[0], ix.nullifiers[1]}
    && after.events == s.events + [NewCommitment(ix.commitments[0], n, ix.external.notes[0]),
                                   NewCommitment(ix.commitments[1], n + 1, ix.external.notes[1]),
                                   NewNullifier(ix.nullifiers[0]), NewNullifier(ix.nullifiers[1])]
  }

  /** A transact appends its two commitments with their notes and records its nullifiers; see `TransactMoves`. */
  lemma TransactLeaves(env: Env, s: State, ix: TransactIx)
    requires TransactTyped(ix) && TransactStep(env, s, ix).Ok?
    ensures JoinedAndSplit(s, ix, TransactStep(env, s, ix).value)
  {
  }

  // ----- Where the log comes from -----

  // The action published this log entry: the commitment and the note it was given together.
  predicate Published(env: Env, a: Action, e: Event) {
    match a
    case DoShield(ix) =>
      e.NewCommitment? && e.note == ix.note
      && e.commitment == FieldBytes(Commitment(env.c, BigEndian(ix.npk), env.asset, ix.amount))
    case DoTransact(ix, _) =>
      TransactTyped(ix) && e.NewCommitment?
      && ((e.commitment == ix.commitments[0] && e.note == ix.external.notes[0])
          || (e.commitment == ix.commitments[1] && e.note == ix.external.notes[1]))
    case Outside(_) => false
  }

  lemma StepPublishes(env: Env, h: History, a: Action, e: Event)
    requires Encodable(env.c.p) && Possible(env, h, a)
    requires e in Step(env, h, a).s.events && e.NewCommitment?
    ensures e in h.s.events || Published(env, a, e)
  {
    match a
    case DoShield(ix) =>
      if ShieldStep(env, h.s, ix).Ok? {
        ShieldLeaves(env, h.s, ix);
      }
    case DoTransact(ix, w) =>
      if TransactStep(env, h.s, ix).Ok? {
        TransactLeaves(env, h.s, ix);
      }
    case Outside(tokens) =>
  }

  /** Every commitment in the log stands beside the note that came with it, in one instruction of the run. */
  lemma {:induction false} LogComesFromRun(env: Env, queries: set<seq<nat>>, start: History, run: seq<Action>,
                                           h: History, e: Event)
    requires Deployed(env) && Reached(env, queries, start, run, h)
    requires e in h.s.events && e.NewCommitment?
    ensures exists i :: 0 <= i < |run| && Published(env, run[i], e)
    decreases |run|
  {
    if run == [] {
    } else {
      var n := |run| - 1;
      var prefix, last := run[..n], run[n];
      var before :| Extends(env, queries, start, prefix, before) && Leads(env, queries, before, last, h);
      StepPublishes(env, before, last, e);
      if e in before.s.events {
        LogComesFromRun(env, queries, start, prefix, before, e);
        var i :| 0 <= i < n && Published(env, prefix[i], e);
        assert run[i] == prefix[i];
      } else {
        assert Published(env, run[n], e);
      }
    }
  }
}
