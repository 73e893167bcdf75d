/**
 Recording a nullifier against consuming a leaf. A zero-value input skips
 membership, so the two come apart exactly there.
 */
module Locking {
  import opened Bytes
  import opened Circuit
  import opened Notes
  import opened PoolRuns
  import opened Pools

  // The record the keys `o` give leaf `i`.
  function Record(env: Env, i: nat, o: Opening): seq<byte> {
    FieldBytes(Nullifier(env.c, o.view, i))
  }

  // The keys open leaf `i`; what they hash is among the queries.
  ghost predicate Opens(env: Env, queries: set<seq<nat>>, h: History, i: nat, o: Opening) {
    && i < |h.notes| && OpenedKey(env.c, o) == h.notes[i].npk && KeyQueries(env.c, o) <= queries
    && NullifierPreimage(env.c, o.view, i) in queries
  }

  // Slot `slot` of the transact consumes.
  predicate Consumes(env: Env, w: Witness, slot: nat)
    requires WitnessTyped(env.c, env.depth, w) && slot < INPUTS
  {
    w.inValues[slot] > 0
  }

  // A consuming slot names a leaf's record exactly if it opens that leaf.
  lemma SlotNamesLeaf(env: Env, queries: set<seq<nat>>, h: History, ix: TransactIx, w: Witness, slot: nat,
                      i: nat, o: Opening)
    requires Encodable(env.c.p) && Secure(env.c, queries)
    requires TransactTyped(ix) && WitnessTyped(env.c, env.depth, w) && slot < INPUTS
    requires InputHashed(env, queries, w, slot) && LiveInput(env, h, ix, w, slot) && Opens(env, queries, h, i, o)
    ensures ix.nullifiers[slot] == Record(env, i, o) <==> w.leafIndices[slot] == i
  {
    var index, o' := w.leafIndices[slot], InOpening(env.c, env.depth, w, slot);
    if index == i {
      NoteKeyBinds(env.c, queries, o, o');
    }
    if ix.nullifiers[slot] == Record(env, i, o) {
      FieldBytesRoundTrip(env.c.p, Nullifier(env.c, o.view, i));
      FieldBytesRoundTrip(env.c.p, Nullifier(env.c, o'.view, index));
      assert [NULLIFIER_KEY_DOMAIN, o.view] in KeyQueries(env.c, o);
      assert [NULLIFIER_KEY_DOMAIN, o'.view] in KeyQueries(env.c, o');
      NullifierBinds(env.c, queries, o.view, i, o'.view, index);
    }
  }

  lemma JoinSplitConsumes(env: Env, queries: set<seq<nat>>, h: History, ix: TransactIx, w: Witness, s': State,
                          i: nat, o: Opening)
    requires Encodable(env.c.p) && Secure(env.c, queries)
    requires TransactTyped(ix) && WitnessTyped(env.c, env.depth, w) && SpendsLive(env, h, ix, w)
    requires InputHashed(env, queries, w, 0) && InputHashed(env, queries, w, 1) && Opens(env, queries, h, i, o)
    ensures i in JoinSplitted(env, h, w, s').spent
       <==> || i in h.spent
            || (ix.nullifiers[0] == Record(env, i, o) && Consumes(env, w, 0))
            || (ix.nullifiers[1] == Record(env, i, o) && Consumes(env, w, 1))
  {
    if Consumes(env, w, 0) {
      SlotNamesLeaf(env, queries, h, ix, w, 0, i, o);
    }
    if Consumes(env, w, 1) {
      SlotNamesLeaf(env, queries, h, ix, w, 1, i, o);
    }
  }

  // What a transact leading to `after` does to a leaf: it records the leaf's nullifier if and only
  // if a slot names it, and consumes the leaf if and only if that slot's value is not zero.
  ghost predicate Treats(env: Env, h: History, ix: TransactIx, w: Witness, after: History, i: nat, o: Opening)
    requires TransactTyped(ix) && WitnessTyped(env.c, env.depth, w)
  {
    var record := Record(env, i, o);
    && (record in after.s.nullifiers
        <==> record in h.s.nullifiers || ix.nullifiers[0] == record || ix.nullifiers[1] == record)
    && (i in after.spent
        <==> || i in h.spent
             || (ix.nullifiers[0] == record && Consumes(env, w, 0))
             || (ix.nullifiers[1] == record && Consumes(env, w, 1)))
  }

  // What an accepted transact is known to satisfy.
  lemma Accepted(env: Env, queries: set<seq<nat>>, h: History, ix: TransactIx, w: Witness)
    requires Deployed(env) && Secure(env.c, queries) && Inv(env, queries, h)
    requires Possible(env, h, DoTransact(ix, w)) && Attested(env, DoTransact(ix, w))
    requires Hashed(env, queries, h, DoTransact(ix, w)) && TransactStep(env, h.s, ix).Ok?
    ensures SpendsLive(env, h, ix, w) && Effect(env, h.s, ix, TransactStep(env, h.s, ix).value)
    ensures InputHashed(env, queries, w, 0) && InputHashed(env, queries, w, 1)
    ensures Step(env, h, DoTransact(ix, w)) == JoinSplitted(env, h, w, TransactStep(env, h.s, ix).value)
  {
    AcceptedSpendsLive(env, queries, h, ix, w);
    TransactEffect(env, h.s, ix);
  }

  lemma JoinSplitTreats(env: Env, queries: set<seq<nat>>, h: History, ix: TransactIx, w: Witness, s': State,
                        i: nat, o: Opening)
    requires Encodable(env.c.p) && Secure(env.c, queries)
    requires TransactTyped(ix) && WitnessTyped(env.c, env.depth, w)
    requires SpendsLive(env, h, ix, w) && Effect(env, h.s, ix, s')
    requires InputHashed(env, queries, w, 0) && InputHashed(env, queries, w, 1) && Opens(env, queries, h, i, o)
    ensures Treats(env, h, ix, w, JoinSplitted(env, h, w, s'), i, o)
  {
    JoinSplitConsumes(env, queries, h, ix, w, s', i, o);
  }

  lemma ConsumedExactly(env: Env, queries: set<seq<nat>>, start: History, run: seq<Action>, h: History,
                        ix: TransactIx, w: Witness, i: nat, o: Opening)
    requires Deployed(env) && Secure(env.c, queries) && Reached(env, queries, start, run, h)
    requires Possible(env, h, DoTransact(ix, w)) && Attested(env, DoTransact(ix, w))
    requires Hashed(env, queries, h, DoTransact(ix, w)) && TransactStep(env, h.s, ix).Ok?
    requires Opens(env, queries, h, i, o)
    ensures Treats(env, h, ix, w, Step(env, h, DoTransact(ix, w)), i, o)
  {
    RunKeeps(env, queries, start, run, h);
    Accepted(env, queries, h, ix, w);
    JoinSplitTreats(env, queries, h, ix, w, TransactStep(env, h.s, ix).value, i, o);
  }

  /** Recording the nullifier of a live leaf consumes it if and only if the recording slot's value is not zero. */
  lemma RecordingConsumesExactly(env: Env, queries: set<seq<nat>>, start: History, run: seq<Action>, h: History,
                                 ix: TransactIx, w: Witness, slot: nat, i: nat, o: Opening)
    requires Deployed(env) && Secure(env.c, queries) && Reached(env, queries, start, run, h)
    requires Possible(env, h, DoTransact(ix, w)) && Attested(env, DoTransact(ix, w))
    requires Hashed(env, queries, h, DoTransact(ix, w)) && TransactStep(env, h.s, ix).Ok?
    requires Opens(env, queries, h, i, o) && i !in h.spent
    requires slot < INPUTS && ix.nullifiers[slot] == Record(env, i, o)
    ensures var after := Step(env, h, DoTransact(ix, w));
      Record(env, i, o) in after.s.nullifiers && (i in after.spent <==> Consumes(env, w, slot))
  {
    ConsumedExactly(env, queries, start, run, h, ix, w, i, o);
    RecordsDiffer(env, h.s, ix);
    OneSlotRecords(env, h, ix, w, Step(env, h, DoTransact(ix, w)), slot, i, o);
  }

  lemma OneSlotRecords(env: Env, h: History, ix: TransactIx, w: Witness, after: History, slot: nat, i: nat, o: Opening)
    requires TransactTyped(ix) && WitnessTyped(env.c, env.depth, w) && Treats(env, h, ix, w, after, i, o)
    requires ix.nullifiers[0] != ix.nullifiers[1]
    requires slot < INPUTS && ix.nullifiers[slot] == Record(env, i, o) && i !in h.spent
    ensures Record(env, i, o) in after.s.nullifiers && (i in after.spent <==> Consumes(env, w, slot))
  {
    assert slot == 0 || slot == 1;
  }

  lemma RecordsDiffer(env: Env, s: State, ix: TransactIx)
    requires TransactTyped(ix) && TransactStep(env, s, ix).Ok?
    ensures ix.nullifiers[0] != ix.nullifiers[1]
    ensures ix.nullifiers[0] !in s.nullifiers && ix.nullifiers[1] !in s.nullifiers
  {
    assert AccountError(env, s.nullifiers, s.tokens, ix).None?;
  }

  // ----- After the record -----

  lemma SplitLast<T>(a: seq<T>, b: seq<T>)
    requires b != []
    ensures a + b == a + b[..|b| - 1] + [b[|b| - 1]]
  {
  }

  lemma ExtendsMore(env: Env, queries: set<seq<nat>>, start: History, run: seq<Action>, h: History,
                    a: Action, h': History)
    requires Extends(env, queries, start, run, h) && Leads(env, queries, h, a, h')
    ensures Extends(env, queries, start, run + [a], h')
  {
    var longer := run + [a];
    assert longer[..|longer| - 1] == run && longer[|longer| - 1] == a;
  }

  lemma {:induction false} ExtendsFurther(env: Env, queries: set<seq<nat>>, start: History, run: seq<Action>,
                                          h: History, more: seq<Action>, h': History)
    requires Extends(env, queries, start, run, h) && Extends(env, queries, h, more, h')
    ensures Extends(env, queries, start, run + more, h')
    decreases |more|
  {
    if more == [] {
      assert run + more == run;
    } else {
      var prefix, last := more[..|more| - 1], more[|more| - 1];
      var before :| Extends(env, queries, h, prefix, before) && Leads(env, queries, before, last, h');
      ExtendsFurther(env, queries, start, run, h, prefix, before);
      ExtendsMore(env, queries, start, run + prefix, before, last, h');
      SplitLast(run, more);
    }
  }

  // A step forgets nothing.
  lemma StepGrows(env: Env, h: History, a: Action)
    requires Possible(env, h, a)
    ensures h.notes <= Step(env, h, a).notes && h.s.nullifiers <= Step(env, h, a).s.nullifiers
  {
  }

  // One step after the record.
  lemma RecordedIsLocked(env: Env, queries: set<seq<nat>>, start: History, run: seq<Action>, h: History,
                         a: Action, i: nat, o: Opening)
    requires Deployed(env) && Secure(env.c, queries) && Reached(env, queries, start, run, h)
    requires Possible(env, h, a) && Attested(env, a) && Hashed(env, queries, h, a)
    requires Opens(env, queries, h, i, o) && Record(env, i, o) in h.s.nullifiers
    ensures i in Step(env, h, a).spent <==> i in h.spent
  {
    if a.DoTransact? && TransactStep(env, h.s, a.transact).Ok? {
      ConsumedExactly(env, queries, start, run, h, a.transact, a.assignment, i, o);
      RecordsDiffer(env, h.s, a.transact);
    }
  }

  /**
   From the record on, for good: whatever a run does next, a leaf that was live when its
   nullifier was recorded stays unconsumed, and its value stays in the vault.
   */
  lemma {:induction false} LockedForGood(env: Env, queries: set<seq<nat>>, start: History, run: seq<Action>, h: History,
                                         more: seq<Action>, h': History, i: nat, o: Opening)
    requires Deployed(env) && Secure(env.c, queries) && Reached(env, queries, start, run, h)
    requires Extends(env, queries, h, more, h')
    requires Opens(env, queries, h, i, o) && Record(env, i, o) in h.s.nullifiers
    ensures h.notes <= h'.notes && Record(env, i, o) in h'.s.nullifiers
    ensures i in h'.spent <==> i in h.spent
    decreases |more|
  {
    if more == [] {
    } else {
      var prefix, last := more[..|more| - 1], more[|more| - 1];
      var before :| Extends(env, queries, h, prefix, before) && Leads(env, queries, before, last, h');
      LockedForGood(env, queries, start, run, h, prefix, before, i, o);
      ExtendsFurther(env, queries, start, run, h, prefix, before);
      StepGrows(env, before, last);
      RecordedIsLocked(env, queries, start, run + prefix, before, last, i, o);
    }
  }

  /** The value of an unconsumed leaf is in the vault. */
  lemma LiveValueInVault(env: Env, queries: set<seq<nat>>, start: History, run: seq<Action>, h: History, i: nat)
    requires Deployed(env) && Secure(env.c, queries) && Reached(env, queries, start, run, h)
    requires i < |h.notes| && i !in h.spent
    ensures env.vault in h.s.tokens && h.notes[i].value <= h.s.tokens[env.vault].amount
  {
    RunKeeps(env, queries, start, run, h);
    UnspentConsume(h.notes, h.spent.Keys, i);
  }
}
