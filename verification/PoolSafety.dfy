/**
 What holds of every run of the pool: solvency, single spending, the asset of
 every leaf, the window of roots, and what the log lets anyone rebuild.
 */
module PoolSafety {
  import opened Arith
  import opened Binding
  import opened Bytes
  import opened Circuit
  import opened Fields
  import opened Merkle
  import opened Notes
  import opened PoolErrors
  import opened PoolRuns
  import opened Pools
  import opened ReferenceTrees
  import opened TreeAccounts
  import opened Wrappers

  // ----- Solvency -----

  // What a set of leaves is worth.
  ghost function Worth(notes: seq<Note>, claimed: set<nat>): nat {
    if notes == [] then 0
    else
      var n := |notes| - 1;
      Worth(notes[..n], claimed) + if n in claimed then notes[n].value else 0
  }

  lemma {:induction false} WorthWithin(notes: seq<Note>, claimed: set<nat>, gone: set<nat>)
    requires claimed !! gone
    ensures Worth(notes, claimed) <= Unspent(notes, gone)
  {
    if notes == [] {
    } else {
      WorthWithin(notes[..|notes| - 1], claimed, gone);
    }
  }

  // A set of leaves is worth what its members are.
  lemma {:induction false} WorthAdds(notes: seq<Note>, claimed: set<nat>, i: nat)
    requires i < |notes| && i !in claimed
    ensures Worth(notes, claimed + {i}) == Worth(notes, claimed) + notes[i].value
    ensures Worth(notes, {}) == 0
  {
    var n := |notes| - 1;
    if i < n {
      WorthAdds(notes[..n], claimed, i);
    } else {
      WorthSame(notes[..n], claimed, claimed + {i});
    }
    WorthOfNone(notes);
  }

  lemma {:induction false} WorthSame(notes: seq<Note>, a: set<nat>, b: set<nat>)
    requires forall i: nat | i < |notes| :: i in a <==> i in b
    ensures Worth(notes, a) == Worth(notes, b)
  {
    if notes == [] {
    } else {
      WorthSame(notes[..|notes| - 1], a, b);
    }
  }

  lemma {:induction false} WorthOfNone(notes: seq<Note>)
    ensures Worth(notes, {}) == 0
  {
    if notes == [] {
    } else {
      WorthOfNone(notes[..|notes| - 1]);
    }
  }

  // The keys open leaf `i`, and the nullifier they give it is not recorded.
  ghost predicate Claimable(env: Env, queries: set<seq<nat>>, h: History, i: nat, o: Opening) {
    && i < |h.notes| && OpenedKey(env.c, o) == h.notes[i].npk && KeyQueries(env.c, o) <= queries
    && FieldBytes(Nullifier(env.c, o.view, i)) !in h.s.nullifiers
  }

  /**
   After any run the vault holds exactly the unconsumed value and what was donated,
   so every collection of notes with unrecorded nullifiers can be paid out in full.
   */
  lemma Solvency(env: Env, queries: set<seq<nat>>, start: History, run: seq<Action>, h: History,
                 claims: map<nat, Opening>)
    requires Deployed(env) && Secure(env.c, queries) && Reached(env, queries, start, run, h)
    requires forall i | i in claims :: Claimable(env, queries, h, i, claims[i])
    ensures env.vault in h.s.tokens
    ensures h.s.tokens[env.vault].amount == Unspent(h.notes, h.spent.Keys) + h.donated
    ensures Worth(h.notes, claims.Keys) <= h.s.tokens[env.vault].amount
  {
    RunKeeps(env, queries, start, run, h);
    forall i | i in claims
      ensures i !in h.spent
    {
      if i in h.spent {
        assert Claimable(env, queries, h, i, claims[i]);
        ConsumedIsRecorded(env, queries, h, i, claims[i]);
        assert false;
      }
    }
    WorthWithin(h.notes, claims.Keys, h.spent.Keys);
  }

  /** No run consumes a leaf twice, whatever roots, slots and assignments it uses. */
  lemma NoLeafSpentTwice(env: Env, queries: set<seq<nat>>, start: History, run: seq<Action>, h: History)
    requires Deployed(env) && Secure(env.c, queries) && Reached(env, queries, start, run, h)
    ensures forall i, j | 0 <= i < j < |h.order| :: h.order[i] != h.order[j]
    ensures forall i | i in h.order :: i < |h.s.leaves|
  {
    RunKeeps(env, queries, start, run, h);
    forall i | i in h.order
      ensures i < |h.s.leaves|
    {
      assert SpentBy(env, queries, h, i, h.spent[i]);
    }
  }

  // When a transact reports a short vault.
  lemma ShortMeansShort(env: Env, s: State, ix: TransactIx)
    requires TransactTyped(ix) && TransactStep(env, s, ix) == Err(InsufficientVault)
    ensures ProofError(env, s, ix).None?
    ensures env.vault in s.tokens && s.tokens[env.vault].amount < UnsignedAbs(ix.extAmount)
  {
  }

  /** A sound proof never finds the vault short. */
  lemma VaultNeverShort(env: Env, queries: set<seq<nat>>, start: History, run: seq<Action>, h: History,
                        ix: TransactIx, w: Witness)
    requires Deployed(env) && Secure(env.c, queries) && Reached(env, queries, start, run, h)
    requires Possible(env, h, DoTransact(ix, w)) && Attested(env, DoTransact(ix, w))
    requires forall i: nat | i < INPUTS :: InputHashed(env, queries, w, i)
    ensures TransactStep(env, h.s, ix) != Err(InsufficientVault)
  {
    RunKeeps(env, queries, start, run, h);
    if TransactStep(env, h.s, ix) == Err(InsufficientVault) {
      ShortMeansShort(env, h.s, ix);
      AcceptedSpendsLive(env, queries, h, ix, w);
      PayoutCovered(env, h, ix, w);
      assert false;
    }
  }

  /** Every leaf, and every way of opening it, is of the pool's asset and a 64-bit value. */
  lemma LeavesOfOneAsset(env: Env, queries: set<seq<nat>>, start: History, run: seq<Action>, h: History,
                         i: nat, opening: Note)
    requires Deployed(env) && Secure(env.c, queries) && Reached(env, queries, start, run, h)
    requires i < |h.s.leaves|
    ensures |h.notes| == |h.s.leaves| && NoteFits(env, queries, h.s.leaves[i], h.notes[i])
    ensures NotePreimage(opening) in queries
         && h.s.leaves[i] == Commitment(env.c, opening.npk, opening.asset, opening.value)
        ==> opening == h.notes[i]
  {
    RunKeeps(env, queries, start, run, h);
    var stored := h.notes[i];
    assert NoteFits(env, queries, h.s.leaves[i], stored);
    if NotePreimage(opening) in queries
       && h.s.leaves[i] == Commitment(env.c, opening.npk, opening.asset, opening.value) {
      CommitmentBinds(env.c, queries, opening.npk, opening.asset, opening.value,
                      stored.npk, stored.asset, stored.value);
    }
  }

  /** The check for equal nullifiers is never the one that fires: their records already collide. */
  lemma DuplicatesCaughtByRecords(env: Env, s: State, ix: TransactIx)
    requires TransactTyped(ix)
    ensures ix.nullifiers[0] == ix.nullifiers[1] ==> TransactStep(env, s, ix) == Err(AccountConstraint)
    ensures TransactStep(env, s, ix) != Err(DuplicateNullifier)
  {
    if ix.nullifiers[0] == ix.nullifiers[1] {
      assert AccountError(env, s.nullifiers, s.tokens, ix) == Some(AccountConstraint);
    }
  }

  // ----- Tokens -----

  // `amount` moved from one account to another and nothing else changed.
  ghost predicate Moved(before: Ledger, after: Ledger, from: Key, to: Key, amount: nat) {
    && before.Keys == after.Keys && from in before && to in before && from != to
    && after[from] == before[from].(amount := after[from].amount) && before[from].amount == after[from].amount + amount
    && after[to] == before[to].(amount := after[to].amount) && after[to].amount == before[to].amount + amount
    && forall k | k in before && k != from && k != to :: after[k] == before[k]
  }

  /** A deposit takes exactly its amount out of an account of the depositor. */
  lemma ShieldMoves(env: Env, s: State, ix: ShieldIx)
    requires ShieldTyped(ix) && ShieldStep(env, s, ix).Ok?
    requires env.vault in s.tokens && s.tokens[env.vault].owner == env.at.pool && ix.depositor != env.at.pool
    ensures Moved(s.tokens, ShieldStep(env, s, ix).value.tokens, ix.depositorAta, env.vault, ix.amount)
    ensures s.tokens[ix.depositorAta].owner == ix.depositor && ix.amount > 0
  {
  }

  /** A withdrawal pays exactly its amount to an account of the bound recipient; a transfer moves nothing. */
  lemma TransactMoves(env: Env, s: State, ix: TransactIx)
    requires TransactTyped(ix) && TransactStep(env, s, ix).Ok?
    ensures var after := TransactStep(env, s, ix).value.tokens;
      if ix.extAmount == 0 then after == s.tokens
      else
        && Moved(s.tokens, after, env.vault, ix.recipientAta, -ix.extAmount)
        && s.tokens[ix.recipientAta].owner == ix.external.recipient
  {
    assert ArgumentError(env, ix).None?;
  }

  // ----- Roots -----

  lemma RootsDistinct(env: Env, queries: set<seq<nat>>, h: History, j: nat, k: nat)
    requires Secure(env.c, queries) && TreeOpens(env, queries, h)
    requires j < k <= |h.s.leaves|
    ensures RootAt(env.c, env.depth, h.s.leaves, j) != RootAt(env.c, env.depth, h.s.leaves, k)
  {
    var a, b := h.s.leaves[..j], h.s.leaves[..k];
    assert NoteFits(env, queries, h.s.leaves[j], h.notes[j]);
    assert NonZeroDigest(env.c, NotePreimage(h.notes[j]));
    if Root(env.c, env.depth, a) == Root(env.c, env.depth, b) {
      ShiftFits(j, env.depth);
      NodeBinds(env.c, queries, env.depth, a, b, j);
      assert false;
    }
  }

  lemma RootNotZero(env: Env, queries: set<seq<nat>>, h: History, k: nat)
    requires Deployed(env) && Secure(env.c, queries) && TreeOpens(env, queries, h) && k <= |h.s.leaves|
    ensures FieldBytes(RootAt(env.c, env.depth, h.s.leaves, k)) != Zeros(FIELD_BYTES)
  {
    var leaves := h.s.leaves[..k];
    assert TreeHashed(env.c, queries, env.depth, leaves);
    assert NonZeroDigest(env.c, Children(env.c, leaves, env.depth, 0));
    FieldBytesRoundTrip(env.c.p, RootAt(env.c, env.depth, h.s.leaves, k));
    FieldBytesRoundTrip(env.c.p, 0);
    EncodeZero(FIELD_BYTES);
  }

  /** The root of version `k` is accepted exactly while fewer than `window` appends followed it. */
  lemma RootWindow(env: Env, queries: set<seq<nat>>, start: History, run: seq<Action>, h: History, k: nat)
    requires Deployed(env) && Secure(env.c, queries) && Reached(env, queries, start, run, h)
    requires k <= |h.s.leaves|
    ensures RootKnown(env.c, env.depth, env.window, h.s.leaves, FieldBytes(RootAt(env.c, env.depth, h.s.leaves, k)))
       <==> |h.s.leaves| - k < env.window
  {
    RunKeeps(env, queries, start, run, h);
    var n, root := |h.s.leaves|, RootAt(env.c, env.depth, h.s.leaves, k);
    RootNotZero(env, queries, h, k);
    assert n < k + env.window ==> Recent(env.window, n, k);
    forall j: nat | j <= n && Recent(env.window, n, j)
                    && FieldBytes(RootAt(env.c, env.depth, h.s.leaves, j)) == FieldBytes(root)
      ensures j == k
    {
      FieldBytesRoundTrip(env.c.p, root);
      FieldBytesRoundTrip(env.c.p, RootAt(env.c, env.depth, h.s.leaves, j));
      if j < k {
        RootsDistinct(env, queries, h, j, k);
      } else if k < j {
        RootsDistinct(env, queries, h, k, j);
      }
    }
  }

  // ----- The log -----

  function Commitments(events: seq<Event>): seq<Event> {
    if events == [] then []
    else
      var last := events[|events| - 1];
      Commitments(events[..|events| - 1]) + if last.NewCommitment? then [last] else []
  }

  function Spent(events: seq<Event>): seq<seq<byte>> {
    if events == [] then []
    else
      var last := events[|events| - 1];
      Spent(events[..|events| - 1]) + if last.NewNullifier? then [last.nullifier] else []
  }

  // The log lists the leaves under indices 0, 1, 2, ... and each record once.
  ghost predicate Faithful(s: State) {
    var log, spent := Commitments(s.events), Spent(s.events);
    && |log| == |s.leaves|
    && (forall i | 0 <= i < |log| ::
          log[i].NewCommitment? && log[i].leafIndex == i && BigEndian(log[i].commitment) == s.leaves[i])
    && (forall n :: n in spent <==> n in s.nullifiers)
    && (forall i, j | 0 <= i < j < |spent| :: spent[i] != spent[j])
  }

  lemma LogGrows(events: seq<Event>, e: Event)
    ensures Commitments(events + [e]) == Commitments(events) + if e.NewCommitment? then [e] else []
    ensures Spent(events + [e]) == Spent(events) + if e.NewNullifier? then [e.nullifier] else []
  {
    assert (events + [e])[..|events|] == events;
  }

  lemma InsertFaithful(s: State, commitment: seq<byte>, note: seq<byte>)
    requires Faithful(s)
    ensures Faithful(Inserted(s, commitment, note))
  {
    LogGrows(s.events, NewCommitment(commitment, |s.leaves|, note));
  }

  lemma RecordFaithful(s: State, nullifier: seq<byte>)
    requires Faithful(s) && nullifier !in s.nullifiers
    ensures Faithful(s.(nullifiers := s.nullifiers + {nullifier}, events := s.events + [NewNullifier(nullifier)]))
  {
    LogGrows(s.events, NewNullifier(nullifier));
  }

  lemma TransactFaithful(env: Env, s: State, ix: TransactIx)
    requires TransactTyped(ix) && Faithful(s) && TransactStep(env, s, ix).Ok?
    ensures Faithful(TransactStep(env, s, ix).value)
  {
    assert AccountError(env, s.nullifiers, s.tokens, ix).None?;
    var s1 := Inserted(s, ix.commitments[0], ix.external.notes[0]);
    InsertFaithful(s, ix.commitments[0], ix.external.notes[0]);
    InsertFaithful(s1, ix.commitments[1], ix.external.notes[1]);
    var s2 := Inserted(s1, ix.commitments[1], ix.external.notes[1]);
    RecordFaithful(s2, ix.nullifiers[0]);
    var s3 := s2.(nullifiers := s2.nullifiers + {ix.nullifiers[0]},
                  events := s2.events + [NewNullifier(ix.nullifiers[0])]);
    RecordFaithful(s3, ix.nullifiers[1]);
    var s4 := s3.(nullifiers := s3.nullifiers + {ix.nullifiers[1]},
                  events := s3.events + [NewNullifier(ix.nullifiers[1])]);
    var done := TransactStep(env, s, ix).value;
    assert done.events == s4.events by {
      assert done.events == s2.events + [NewNullifier(ix.nullifiers[0]), NewNullifier(ix.nullifiers[1])];
    }
    assert done.nullifiers == s4.nullifiers;
  }

  lemma ShieldFaithful(env: Env, s: State, ix: ShieldIx)
    requires ShieldTyped(ix) && Faithful(s) && ShieldStep(env, s, ix).Ok?
    ensures Faithful(ShieldStep(env, s, ix).value)
  {
    InsertFaithful(s, FieldBytes(ShieldCommitment(env, ix)), ix.note);
  }

  lemma StepFaithful(env: Env, h: History, a: Action)
    requires Possible(env, h, a) && Faithful(h.s)
    ensures Faithful(Step(env, h, a).s)
  {
    match a
    case DoShield(ix) =>
      if ShieldStep(env, h.s, ix).Ok? {
        ShieldFaithful(env, h.s, ix);
      }
    case DoTransact(ix, w) =>
      if TransactStep(env, h.s, ix).Ok? {
        TransactFaithful(env, h.s, ix);
      }
    case Outside(tokens) =>
  }

  /** The log of every run is faithful to the accounts. */
  lemma {:induction false} RunFaithful(env: Env, queries: set<seq<nat>>, start: History, run: seq<Action>, h: History)
    requires Reached(env, queries, start, run, h)
    ensures Faithful(h.s)
    decreases |run|
  {
    if run == [] {
    } else {
      var prefix, last := run[..|run| - 1], run[|run| - 1];
      var before :| Extends(env, queries, start, prefix, before) && Leads(env, queries, before, last, h);
      RunFaithful(env, queries, start, prefix, before);
      StepFaithful(env, before, last);
    }
  }

  function Decoded(log: seq<Event>): seq<nat>
    requires forall e | e in log :: e.NewCommitment?
  {
    seq(|log|, i requires 0 <= i < |log| => BigEndian(log[i].commitment))
  }

  /** Replay: append the logged commitments to a reference tree, checking their indices. */
  method Replay(c: Crypto, depth: nat, log: seq<Event>) returns (inOrder: bool, root: nat)
    requires forall e | e in log :: e.NewCommitment?
    ensures inOrder <==> forall i | 0 <= i < |log| :: log[i].leafIndex == i
    ensures root == RootAfter(c, depth, Decoded(log))
  {
    var reference := new ReferenceTree(c, depth);
    inOrder := true;
    for offset := 0 to |log|
      invariant reference.Valid() && fresh(reference) && fresh(reference.filled)
      invariant reference.c == c && reference.depth == depth
      invariant reference.leaves == Decoded(log)[..offset]
      invariant inOrder <==> forall i | 0 <= i < offset :: log[i].leafIndex == i
    {
      if log[offset].leafIndex != offset {
        inOrder := false;
      }
      var _ := reference.Append(BigEndian(log[offset].commitment));
    }
    assert Decoded(log)[..|log|] == Decoded(log);
    root := reference.root;
  }

  /** After any run, replaying the log finds no gap and ends in the pool's current root. */
  lemma ReplayYieldsRoot(env: Env, queries: set<seq<nat>>, start: History, run: seq<Action>, h: History)
    requires Deployed(env) && Secure(env.c, queries) && Reached(env, queries, start, run, h)
    ensures var log := Commitments(h.s.events);
      && (forall e | e in log :: e.NewCommitment?)
      && (forall i | 0 <= i < |log| :: log[i].leafIndex == i)
      && Decoded(log) == h.s.leaves
      && RootAfter(env.c, env.depth, Decoded(log)) == RootAt(env.c, env.depth, h.s.leaves, |h.s.leaves|)
  {
    RunKeeps(env, queries, start, run, h);
    RunFaithful(env, queries, start, run, h);
    RootAfterIsRoot(env.c, env.depth, h.s.leaves);
    assert h.s.leaves[..|h.s.leaves|] == h.s.leaves;
  }
}
