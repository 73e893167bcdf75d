# Veil402: a verified model of the shielded pool, its client and its prover protocol

Veil402 keeps hidden notes in a Poseidon Merkle tree on chain. `shield` deposits tokens
and appends one commitment; `transact` takes a zero-knowledge proof, records two
nullifiers, optionally pays out, and appends two commitments. The program never sees an
amount of a private note. That the vault can always pay, that no note is spent twice, and
that every leaf belongs to the pool's one asset follow only from facts spread over the
circuit, the tree, the field encoding and the program. This project models those parts and
proves the facts and their consequences for whole runs. It also proves that the client's
planner agrees exactly with the circuit, that what the client prepares the program
executes, and that the client and its proving worker stay in lockstep.

## How it is built

| file | what it models |
|---|---|
| `Arith.dfy`, `Fields.dfy` | Euclid's lemma, residues modulo a prime, when field equations are integer equations |
| `Bytes.dfy` | big-endian and canonical 32-byte encodings |
| `Notes.dfy` | the hash roles of keys, commitments, nullifiers and assets |
| `Merkle.dfy` | the zero-padded tree, authentication paths, the two path loops |
| `ReferenceTree.dfy`, `TreeAccount.dfy` | the incremental tree (a class over an array) and the tree account with its ring of roots |
| `Circuit.dfy` | the two-in two-out circuit |
| `Binding.dfy`, `PublicWitness.dfy` | the external-data preimage and the public witness bytes |
| `Pool.dfy` | `shield` and `transact` as functions on the ledger, and a class whose handlers carry them out under rollback |
| `PoolRuns.dfy`, `PoolSafety.dfy` | runs, the invariant, and the theorems about every run |
| `Acceptance.dfy` | when the program accepts, what it reports otherwise and what it leaves behind, said without its check functions |
| `PoolRunner.dfy` | the handlers carry out whole runs |
| `Locking.dfy` | recording a nullifier against consuming its leaf |
| `Planner.dfy`, `PlannerRefinement.dfy` | the client's planner and its refinement of the circuit |
| `Client.dfy`, `EndToEnd.dfy` | preparing an instruction, and why the pool accepts it |
| `Framing.dfy`, `Worker.dfy` | frames over a byte stream, and the client/worker protocol |

The tree depth, the size of the root ring and the field modulus are parameters; the
deployed values are 20, 64 and the BN254 scalar modulus. Of the modulus the results use
that it is prime, above 2^66 and at most 2^256.

### Assumptions

- **Hash.** Poseidon is an arbitrary function into the field. No global injectivity is
  assumed, which would be false of any hash into a finite set. A result about a run takes a
  finite set of preimages that contains everything the run evaluates (tree nodes, notes,
  and what the circuit hashes for each accepted proof), and assumes no collision and no
  zero digest on that set only (`Notes.Secure`, `PoolRuns.Hashed`). Every set smaller than
  the field admits such a function (`Notes.SecureHashExists`).
- **Verifier.** Soundness: a proof the verifier accepts comes with an assignment that
  satisfies the circuit (`PoolRuns.Attested`); the run carries it. Completeness, for the
  client's theorems only: the worker's proof of a satisfied statement has 388 bytes and
  verifies (`EndToEnd.ProofVerifies`, `EndToEnd.WorkerAnswers`).
- **Runtime.** A failed instruction is rolled back; nobody signs for a program address;
  other programs may do anything to token accounts except debit the vault or change whose
  it is (`PoolRuns.Possible`). Creating a nullifier record fails if it exists, and the
  records are created, first then second, before the handler runs.
- **Keccak** is a parameter; where it matters, the result assumes no collision on the two
  strings compared.

## Results in brief

- **Solvency.** After any run the vault holds exactly the value of the leaves no non-zero
  input consumed, plus donations, and covers any collection of notes whose nullifiers are
  unrecorded. After a sound proof the `InsufficientVault` branch is never taken.
- **Single spending.** No run consumes a leaf twice.
- **Acceptance.** A deposit or a transact is refused for the first of a list of reasons stated
  on the instruction and the accounts, and for no other; what an accepted one leaves behind
  is stated in full. Every logged commitment stands beside the note of its instruction.
- **Refinement.** The incremental tree equals the full zero-padded tree; the ring accepts a
  root exactly while fewer than 64 appends followed it; replaying the log rebuilds the root.
- **Client and circuit.** For every plan and amount, the client accepts if and only if some
  root satisfies every constraint, and that root is the one it publishes.
- **End to end.** In every reachable state that still admits it, a prepared transfer or
  withdrawal executes. A withdrawal pays its exact amount into the recipient's associated
  account, and each commitment is logged beside its own ciphertext. The client accepts an
  owner's transaction, for every draw of dummies and order, if and only if it conserves
  value, its own nullifiers are not zero and the plan's two nullifiers differ. Whoever holds
  the keys to notes can therefore spend them while the tree has room, provided no nullifier
  of the plan is recorded or repeated. That includes the nullifiers of the drawn dummies,
  which must be fresh; the client does not look for their records.
- **Worker.** Over all interleavings an accepted response answers the current request. A call
  that finds an idle worker reuses it, with the next request ID, and puts it back if and only
  if it accepted an answer; with different artifacts on the two sides nothing is served. And
  both readers recover any sequence of messages from any split of its bytes into reads.

"A leaf is consumed once its nullifier is recorded" is false of the code: a zero-value input
skips membership (circuits/transaction/src/main.nr:69), so it can record the nullifier of a
live leaf without consuming it. `EndToEnd.DummyLocksLeaf` gives the input: a spend of one
leaf beside a zero-value slot with the viewing key and index of another, which client,
circuit and program all accept. `Locking.RecordingConsumesExactly` gives the condition:
recording a live leaf's nullifier consumes the leaf if and only if the value of the slot
that records it is not zero. `Locking.LockedForGood` says what follows otherwise: in every
continuation of the run the leaf stays unconsumed, and its value stays in the vault
(`Locking.LiveValueInVault`). Solvency is stated so that it holds regardless.

Two branches turn out to be unreachable: the handler's check for equal nullifiers (the
second record creation has already failed, `PoolSafety.DuplicatesCaughtByRecords`) and the
client's "request ID was exhausted" (the server spends ID 2^64 - 1 on stopping, so a slot
with that ID never refills, `Worker.AnsweredExactly`).

`ReferenceTree::append` has no capacity check: past 2^depth leaves it starts a new tree, and
its root is the top node above the newest leaf. `ReferenceTree.Append` states that for every
number of appends; `RootAfterIsRoot` is the case up to capacity. The circuit's README
describes an older one-in one-out circuit; the model follows the code.

## Model

| member | source | states |
|---|---|---|
| `Arith.PrimeDividesFactor` | circuits/transaction/src/main.nr:69 | a prime modulus leaves no zero divisors, which is what lets `value * (computed - root) == 0` gate membership |
| `Fields.FromSignedInjective` | crates/veil402-sdk/src/protocol/field.rs:52-55 | the signed amount encoding loses nothing on all of i64, its minimum included |
| `Fields.SignedIsResidue` | onchain/programs/pool/src/utils.rs:49-53 | negating the magnitude in the field is reduction of the signed integer |
| `Fields.ConservationExact` | circuits/transaction/src/main.nr:87 | with 64-bit values and any i64 amount, the field equation holds if and only if value is conserved over the integers |
| `Fields.SumNonZeroExact` | circuits/transaction/src/main.nr:74 | `sum_in != 0` in the field if and only if some input is non-zero |
| `Fields.GatedEqualityExact` | circuits/transaction/src/main.nr:67-69 | the membership product vanishes if and only if the value is zero or the computed root is the public one |
| `Bytes.CanonicalExact` | onchain/programs/pool/src/utils.rs:24-26 | decode-reduce-encode returns the same string exactly for 32-byte strings below the modulus, and the client's parser accepts the same set with the same value |
| `Bytes.CanonicalUnique` | onchain/programs/pool/src/utils.rs:55-59 | two canonical strings of one field element are equal |
| `Bytes.FieldBytesRoundTrip` | crates/veil402-sdk/src/protocol/encoding.rs:4-14 | encoding a field element is canonical and decodes to it |
| `Bytes.U64Be32` | onchain/programs/pool/src/utils.rs:28-32 | copying eight big-endian bytes into a zeroed field is the field's own encoding of the integer |
| `Bytes.FirstByteFirst` | crates/veil402-sdk/src/protocol/encoding.rs:4-14 | the first byte of a string weighs most |
| `Bytes.I64BytesMeans` | onchain/programs/pool/src/instructions/transact.rs:25 | the eight amount bytes are two's complement, most significant first |
| `Notes.NoteKeyBinds` | circuits/transaction/src/main.nr:16-29 | among the preimages a run evaluates a note key has one spending key, viewing key and random |
| `Notes.CommitmentBinds` | circuits/transaction/src/main.nr:31-33 | a commitment fixes note key, asset and value |
| `Notes.NullifierBinds` | circuits/transaction/src/main.nr:35-37 | among those preimages two nullifiers are equal if and only if viewing key and index are, and none is zero |
| `Notes.RolesSeparate` | circuits/transaction/src/main.nr:8-14 | among those preimages a digest has one role and one content: a value of one role equals none of another |
| `Merkle.ToLeBits` | circuits/transaction/src/merkle.nr:12-13 | the fixed-width decomposition succeeds exactly below 2^depth and yields the shifts' parities |
| `Merkle.ComputeRoot` | circuits/transaction/src/merkle.nr:7-24 | the circuit's loop computes the recursive path root and rejects exactly the indices beyond capacity |
| `Merkle.MerkleRoot` | crates/veil402-sdk/src/protocol/note.rs:179-188 | the client's masked-bit loop computes the same path root for every index |
| `Merkle.PathExact` | circuits/transaction/src/merkle.nr:3-24 | a path recomputes the root of a tree if and only if its leaf is the one stored at that index and its siblings are the tree's own |
| `Merkle.HonestPath` | circuits/transaction/src/merkle.nr:7-24 | the path a tree offers leads from its leaf to its root |
| `ReferenceTrees.ReferenceTree.Append` | onchain/tests/e2e/tests/stress.rs:42-58 | the array-based append keeps each remembered node equal to the completed left subtree it stands for, and its root equal to the top node of the full zero-padded tree |
| `ReferenceTrees.RootAfterIsRoot` | onchain/tests/e2e/tests/stress.rs:32-58 | for any number of leaves up to 2^depth that node is the root of the full tree |
| `TreeAccounts.TreeAccount.Append` | onchain/programs/pool/src/tree.rs:50-60 | succeeds exactly while the tree has room, returns the next index, appends the leaf and keeps the ring equal to the roots of the last versions |
| `TreeAccounts.TreeAccount.ContainsRoot` | onchain/programs/pool/src/tree.rs:76-84 | scanning the ring finds a root exactly if it is non-zero and was current fewer than the window's appends ago |
| `Circuit.Execute` | circuits/transaction/src/main.nr:40-89 | the loops of the circuit accept exactly the assignments that meet every constraint |
| `Circuit.SatisfiedMeans` | circuits/transaction/src/main.nr:58-88 | the field constraints hold if and only if the integer statement does: 64-bit values, membership of non-zero inputs, correct distinct non-zero nullifiers, a real input, conservation with the signed amount |
| `Binding.PreimageInjective` | onchain/programs/pool/src/instructions/transact.rs:16-46 | equal external-data strings imply equal domain, program, pool, mint, verifier, recipient, signed amount and both notes, for all note lengths |
| `Binding.PreimageReads` | onchain/programs/pool/src/instructions/transact.rs:32-45 | the byte position of every fixed-width part of that string: domain tag, domain, program, pool, mint, verifier, recipient, amount |
| `Binding.BindingHashBinds` | onchain/programs/pool/src/instructions/transact.rs:16-46 | where Keccak does not collide on the two strings, two hashes agree if and only if deployment, external data and amount do |
| `Pools.ExtDataHash` | onchain/programs/pool/src/instructions/transact.rs:16-46 | the program's own list of slices hashes to the binding hash of the external data, recipient included (see `Binding.BindingHashBinds`), or reports a note too large |
| `Client.Bind` | crates/veil402-sdk/src/solana/binding.rs:22-45 | the client's own list of slices hashes to the same binding hash |
| `Binding.DeriveAsset` | onchain/programs/pool/src/utils.rs:34-46 | splitting the mint and hashing the halves computes the asset identifier |
| `Binding.AssetBinds` | crates/veil402-sdk/src/solana/binding.rs:9-20 | different mints have different asset identifiers |
| `PublicWitnesses.EncodeInputs` | onchain/programs/pool/src/verifier.rs:54-74 | the program's chunk loop fills the 236-byte layout: header, then the seven fields in order |
| `PublicWitnesses.WitnessBytes` | crates/veil402-sdk/src/protocol/transaction.rs:112-132 | the client's offset loop fills the same layout |
| `PublicWitnesses.WitnessDetermines` | onchain/programs/pool/src/verifier.rs:54-74 | on field elements the 236 bytes determine every public input |
| `PublicWitnesses.LayoutReads` | onchain/programs/pool/src/verifier.rs:54-74 | the header counts seven public and no secret values, and field i sits at byte 12 + 32 i |
| `Pools.Pool.Shield` | onchain/programs/pool/src/instructions/shield.rs:8-46 | the handler under rollback takes the ledger to exactly the state, or reports exactly the error, of the step function |
| `Pools.Pool.CheckProof` | onchain/programs/pool/src/instructions/transact.rs:58-109 | the checks of `transact` report the first failing one, up to the proof |
| `Pools.Pool.Transact` | onchain/programs/pool/src/instructions/transact.rs:49-158 | checks, records, payout and both inserts take the ledger to exactly the step function's state; an error at any point, a full tree after the first insert included, leaves every account as it was |
| `Pools.Pool.Settle` | onchain/programs/pool/src/instructions/transact.rs:111-157 | after the proof: records, payout, outputs and log in order, or the first error |
| `Pools.Pool.InsertOutputs` | onchain/programs/pool/src/instructions/transact.rs:144-150 | both outputs are inserted and logged with the note at the same position, or the tree lacked two free leaves |
| `Acceptance.ShieldReports` | onchain/programs/pool/src/instructions/shield.rs:8-63 | a deposit fails with the error of the first condition, in the program's order, that its accounts and arguments do not meet, and succeeds if all are met |
| `Acceptance.ShieldLeaves` | onchain/programs/pool/src/instructions/shield.rs:35-46 | an accepted deposit appends exactly its commitment and logs it under the next index with the depositor's note |
| `Acceptance.TransactReports` | onchain/programs/pool/src/instructions/transact.rs:49-184 | the same for `transact`: records, recipient account, verifier, amount, proof length, canonical fields, zero nullifiers, note lengths, self transfer, recent root, the proof over the exact bytes presented, vault, recipient, token program, room |
| `Acceptance.TransactAccepted` | onchain/programs/pool/src/instructions/transact.rs:49-184 | it is accepted if and only if every one of those conditions holds |
| `Acceptance.TransactLeaves` | onchain/programs/pool/src/instructions/transact.rs:111-157 | an accepted transact appends its two commitments, adds its two records and logs the four events in order, each commitment with its own note |
| `Acceptance.LogComesFromRun` | onchain/programs/pool/src/tree.rs:62-74 | every commitment in the log of a run stands beside the note that one instruction of the run gave with it |
| `PoolRunner.PerformAll` | onchain/programs/pool/src/instructions/transact.rs:49-158 | carrying out a run through the handlers, rollback included, ends in the accounts of the run |
| `PoolRuns.RootWasCurrent` | onchain/programs/pool/src/instructions/transact.rs:90-93 | a root that passes the check was the tree's root at some number of leaves |
| `PoolRuns.InputPinned` | circuits/transaction/src/main.nr:63-69 | a non-zero input whose path reaches a past root is the note stored at its index now, with the key, asset and value the assignment claims; it can open neither an empty slot nor another leaf |
| `PoolRuns.ConsumedIsRecorded` | onchain/programs/pool/src/instructions/transact.rs:171-174 | any keys that open a consumed leaf give the nullifier already recorded for it |
| `PoolRuns.AcceptedSpendsLive` | onchain/programs/pool/src/instructions/transact.rs:111-113 | an accepted transact spends existing, unconsumed, distinct leaves of the pool's asset and conserves value |
| `PoolRuns.TransactKeeps` | onchain/programs/pool/src/instructions/transact.rs:49-158 | a transact keeps the invariant: leaves open to their notes, spends are recorded once, the vault is exact |
| `PoolRuns.ShieldKeeps` | onchain/programs/pool/src/instructions/shield.rs:8-46 | a shield keeps it |
| `PoolRuns.RunKeeps` | docs/plans/2026-09-20-security-test-matrix.md:61-72 | the invariant holds after every run |
| `PoolSafety.Solvency` | onchain/programs/pool/src/instructions/transact.rs:115-142 | the vault equals the value of all unconsumed leaves plus donations, and is at least the worth of any set of leaves opened by keys whose nullifiers are unrecorded |
| `PoolSafety.WorthAdds` | docs/plans/2026-09-20-security-test-matrix.md:61-72 | what a set of leaves is worth is the sum of its members' values |
| `PoolSafety.NoLeafSpentTwice` | onchain/programs/pool/src/instructions/transact.rs:61-74 | over a whole run the leaves consumed by non-zero inputs are pairwise different |
| `PoolSafety.VaultNeverShort` | onchain/programs/pool/src/instructions/transact.rs:116-120 | after a sound proof the vault is never found short |
| `Locking.ConsumedExactly` | circuits/transaction/src/main.nr:67-71 | a transact records a leaf's nullifier if and only if a slot names it, and consumes the leaf if and only if that slot's value is not zero |
| `Locking.RecordingConsumesExactly` | circuits/transaction/src/main.nr:69 | recording the nullifier of a live leaf consumes the leaf if and only if the recording slot's value is not zero |
| `Locking.LockedForGood` | onchain/programs/pool/src/instructions/transact.rs:171-174 | once a leaf's nullifier is recorded, no continuation of the run changes whether the leaf is consumed; one left unconsumed stays so |
| `Locking.LiveValueInVault` | onchain/programs/pool/src/instructions/transact.rs:115-142 | the value of an unconsumed leaf, locked or not, is in the vault |
| `PoolSafety.DuplicatesCaughtByRecords` | onchain/programs/pool/src/instructions/transact.rs:71-74 | equal nullifiers always fail at record creation, so the handler's own check never fires |
| `PoolSafety.LeavesOfOneAsset` | onchain/programs/pool/src/instructions/shield.rs:35-40 | every leaf opens to the pool's asset and a value below 2^64, and in no other way |
| `PoolSafety.ShieldMoves` | onchain/programs/pool/src/instructions/shield.rs:21-33 | a deposit moves exactly its amount from an account of the depositor to the vault and nothing else |
| `PoolSafety.TransactMoves` | onchain/programs/pool/src/instructions/transact.rs:115-142 | a withdrawal moves exactly its amount from the vault to an account of the bound recipient; a transfer moves nothing |
| `PoolSafety.RootsDistinct` | onchain/programs/pool/src/tree.rs:76-84 | the roots of different versions of the tree differ |
| `PoolSafety.RootWindow` | onchain/tests/e2e/tests/program.rs:351-391 | in any reachable state the root of a version is accepted exactly while fewer than the window's appends followed it |
| `PoolSafety.RunFaithful` | onchain/programs/pool/src/tree.rs:62-74 | the log lists the leaves under 0, 1, 2, ... without gap, and each nullifier record exactly once |
| `PoolSafety.Replay` | onchain/tests/e2e/tests/stress.rs:180-187 | the replay loop reports whether indices are consecutive and ends in the reference root of the logged leaves |
| `PoolSafety.ReplayYieldsRoot` | onchain/tests/e2e/tests/stress.rs:170-187 | for every run that loop finds no gap and ends in the pool's current root |
| `Planner.MakePlan` | crates/veil402-sdk/src/protocol/transaction.rs:59-91 | pads and shuffles into a plan exactly if every spend is of the pool's asset |
| `Planner.PlanValues` | crates/veil402-sdk/src/protocol/transaction.rs:156-212 | the loop returns the derived public values or the first failing check |
| `Planner.NoFailureExactly` | crates/veil402-sdk/src/protocol/transaction.rs:156-212 | no check fails if and only if the plan meets the declarative acceptance condition |
| `Planner.FailureExactly` | crates/veil402-sdk/src/protocol/transaction.rs:156-212 | each error is reported exactly when its check is the first to fail |
| `PlannerRefinement.PlanKeepsMeaning` | crates/veil402-sdk/src/protocol/transaction.rs:64-91 | for every random choice a plan holds the user's spends and sends as multisets, plus notes worth nothing; totals are unchanged and a real input remains |
| `PlannerRefinement.CoinsPlace` | crates/veil402-sdk/src/protocol/transaction.rs:64-91 | each coin alone decides in which slot the first note and the second, or its dummy, end up |
| `PlannerRefinement.PlanMeetsCircuit` | circuits/transaction/src/main.nr:40-89 | under any root, a plan's assignment satisfies every constraint if and only if the client accepts the plan and that root is the one it publishes |
| `PlannerRefinement.AcceptableExactly` | crates/veil402-sdk/src/protocol/transaction.rs:156-212 | the client accepts a plan if and only if some root makes the circuit satisfiable |
| `PlannerRefinement.InputMap` | crates/veil402-sdk/src/proving/witness.rs:58-142 | entry by entry, the map handed to the circuit assigns each parameter exactly its field elements |
| `Client.Prove` | crates/veil402-sdk/src/client/mod.rs:80-111 | yields a proof exactly if the plan is acceptable and the worker returns the expected public witness; the circuit never rejects the assignment built |
| `Client.ProveFailureExactly` | crates/veil402-sdk/src/client/mod.rs:80-111 | which error a failed proof reports: the planner's, no answer, or an answer about another public witness |
| `Client.Prepare` | crates/veil402-sdk/src/client/mod.rs:159-176 | succeeds exactly if assets match, payloads fit, the plan is acceptable and the worker proves it; the instruction carries the worker's own proof; otherwise the error of the first of these that fails, never one of the witness or instruction builder |
| `Client.Transfer` | crates/veil402-sdk/src/client/mod.rs:121-129 | binds the pool as recipient and the amount zero and names the vault; succeeds exactly if that can be prepared |
| `Client.Withdraw` | crates/veil402-sdk/src/client/mod.rs:139-157 | refuses the pool as recipient; for any other succeeds exactly if the negated amount can be prepared, binds that recipient and names its associated token account |
| `EndToEnd.StatementAgrees` | onchain/programs/pool/src/instructions/transact.rs:94-109 | the statement the program rebuilds from the instruction is the one the client proved, satisfied by the plan's assignment |
| `EndToEnd.ProofBindsInstruction` | onchain/programs/pool/src/verifier.rs:37-51 | two instructions with the same verifier input, on whose preimages Keccak does not collide, agree on proof, root, nullifiers, commitments, amount, recipient and notes |
| `EndToEnd.PreparedExecutes` | crates/veil402-sdk/src/client/mod.rs:121-176 | in every reachable state with the root in the window, the nullifiers unrecorded and two free leaves, the prepared instruction passes every check; a withdrawal moves exactly its amount from the vault to the recipient's associated account, a transfer moves nothing; the plan's commitments are appended, each logged with the ciphertext of its own send |
| `EndToEnd.WorkerProofVerifies` | crates/veil402-sdk/src/client/mod.rs:100-103 | comparing public witnesses makes a proof the worker vouches for one of the client's own statement |
| `EndToEnd.SlotsGiveNullifiers` | circuits/transaction/src/main.nr:70-75 | a plan's nullifiers are distinct and non-zero if and only if its slots differ in index or viewing key |
| `EndToEnd.OwnerPlanAcceptable` | crates/veil402-sdk/src/protocol/transaction.rs:156-212 | when every spend follows the tree's own path, the plan drawn from a transaction is accepted if and only if the transaction conserves value, its spends' nullifiers are not zero and the plan's two nullifiers differ |
| `EndToEnd.PlanPayloadsFit` | crates/veil402-sdk/src/protocol/transaction.rs:64-91 | a plan's payloads fit if and only if the user's do; dummies never exceed them |
| `EndToEnd.DummyLengthsMatch` | crates/veil402-sdk/src/protocol/transaction.rs:64-85 | a plan with at most one real send has two payloads of one length |
| `EndToEnd.OwnerCanSpend` | crates/veil402-sdk/src/client/mod.rs:121-176 | in every reachable state with two free leaves, an owner's conserving transaction along the tree's own paths can be prepared, names the current root, executes and pays its recipient, provided no nullifier of its plan, the dummies' included, is recorded or repeated |
| `EndToEnd.RecipientCanSpend` | crates/veil402-sdk/src/protocol/note.rs:162-169 | after a prepared instruction executed, whoever holds the keys of a send's owner has, at the leaf's index and with the tree's own path, an authentic spend of its full value |
| `EndToEnd.DummyLocksLeaf` | circuits/transaction/src/main.nr:67-71 | in every reachable state with room, a real spend beside a zero-value slot naming another live leaf is prepared and executes; it records that leaf's nullifier and leaves the leaf unconsumed |
| `Framing.ReadWritten` | prover/veil402-gnark/protocol.go:89-123 | reading back a frame gives its body and the rest exactly when the body is within the limit |
| `Framing.EndsExactly` | prover/veil402-gnark/protocol.go:89-102 | which streams end cleanly, end inside a frame or announce too large a body |
| `Framing.ReadManyExactly` | crates/veil402-sdk/src/proving/worker/protocol.rs:32-71 | a sequence of messages is read off a stream if and only if each is within the limit and their frames, in order, lead the stream |
| `Framing.Pipe.Send` | crates/veil402-sdk/src/proving/worker/protocol.rs:32-61 | appends the frame, or nothing if the body is above the limit |
| `Framing.Pipe.SendAll` | crates/veil402-sdk/src/proving/worker/protocol.rs:32-61 | sending one message after another leaves their frames on the stream in order |
| `Framing.Pipe.ReadMessage` | prover/veil402-gnark/protocol.go:89-106 | however the bytes are split into reads, the result is that of reading one frame off the flat stream |
| `Framing.Pipe.ReadMessages` | prover/veil402-gnark/protocol.go:60-71 | reading on, however the bytes are split into reads, gives back a sequence of requests if and only if their frames lead the stream |
| `Framing.FrameReader.Receive` | crates/veil402-sdk/src/proving/worker/protocol.rs:63-71 | the buffering decoder gives the same result and keeps the bytes of later frames |
| `Framing.FrameReader.ReceiveAll` | crates/veil402-sdk/src/proving/worker/protocol.rs:63-71 | the same for responses and the buffering decoder |
| `Worker.StepKeepsLockstep` | prover/veil402-gnark/protocol.go:27-71 | every step of client, server or pipe keeps the two sides in lockstep |
| `Worker.WorkerSafety` | crates/veil402-sdk/src/client/mod.rs:87-104 | over all interleavings of success, failure, timeout and cancellation: an occupied slot has empty pipes and a server expecting its last ID plus one; an accepted response was computed from the accepting call's own request; no ID is refused; the client's counter never wraps |
| `Worker.BeginTakes` | crates/veil402-sdk/src/client/mod.rs:87-98 | in every run a call takes the idle worker out of the slot; only an empty slot starts a process |
| `Worker.WorkerReused` | crates/veil402-sdk/src/client/mod.rs:87-104 | a call on an occupied slot and one undisturbed exchange accept the answer to the worker's next request and put the same process back, exactly if the answer is acceptable and IDs remain |
| `Worker.WorkerKeptExactly` | crates/veil402-sdk/src/proving/worker/mod.rs:78-88 | a call that ends puts its worker back if and only if it accepted a response; timeouts and cancellation lose it |
| `Worker.StartedExactly` | crates/veil402-sdk/src/proving/worker/mod.rs:24-52 | a new process gets past its greeting if and only if both sides have the same artifact, and then expects request 1 |
| `Worker.MismatchServesNothing` | crates/veil402-sdk/src/proving/worker/mod.rs:24-52 | with different artifacts no run ever asks or accepts anything |
| `Worker.ReceivedExactly` | crates/veil402-sdk/src/proving/worker/mod.rs:91-104 | from any server whatever, a message is accepted if and only if it answers the pending ID, reports no failure, is complete and carries the expected witness |
| `Worker.TakenInOrder` | prover/veil402-gnark/protocol.go:36-46 | from any client whatever, the server proves only the request with the ID it expects next |
| `Worker.ExchangeIsARun` | prover/veil402-gnark/protocol.go:31-50 | the undisturbed exchange is one of the interleavings |
| `Worker.AnsweredExactly` | crates/veil402-sdk/src/proving/worker/mod.rs:59-63 | an undisturbed exchange refills the slot if and only if the answer is acceptable and the request ID is below 2^64 - 1; then with the same process, one request further |

## Left out

- Poseidon, Keccak, Groth16 and the Sunspot verifier: a hash, a hash and an idealised verifier stand for them.
- The byte layout, changelog and zero-copy access of the concurrent Merkle tree library: the tree account is the incremental tree plus a ring of roots.
- Deserialization, program addresses, associated token accounts, rent, compute limits and transaction size: accounts are looked up by key, and the pool, tree, vault and mint accounts of an instruction are always the pool's own.
- `init_pool`, its authority checks, and the executable flag of the verifier account: one-branch facts.
- Poseidon's refusal of inputs above the modulus: every input in the modelled code is a field element.
- Token delegates, account closing and mint decimals: the token program is modelled by balances, owners, mints and the frozen flag.
- Random generation: draws are arbitrary values that the generators' loops accept; the retry loops themselves, which need not end under arbitrary draws, and failures of the generator are not modelled.
- Protobuf encoding: message bodies are opaque byte strings; a body that does not parse is not modelled.
- The order of borsh fields in the instruction data and the account list of the instruction: the instruction is a record of its arguments.
- Process spawning, environment, zeroization, clocks: a stopped or dropped worker is gone and never reused; timeouts are arbitrary.
- Worker.WorkerSafety: pipes carry whole messages; frames and partial reads are treated in `Framing`, and a partly written frame occurs only in a process that is then killed.
- Artifact and manifest checks: the artifact identities on both sides are parameters.
- Machine words: the leaf index is a natural number below 2^32 and `index & (1 << level)` is its bit by division.
- Note encryption, discovery, fees and selective disclosure: not in the code modelled.
