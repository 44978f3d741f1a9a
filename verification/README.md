# Verified model of the World ID grant aggregation system

This project models the pipeline that lets many World ID grant claims be paid after one on-chain proof
check, and proves that its parts agree:

- the leaf, intermediate and root circuits of V1 and V2, as constraints over the bn256 scalar field and
  as the trees of circuits they accept;
- the scheduler that splits a batch into a tree of proving requests, sequentially and asynchronously,
  and the key generation whose circuit ids it looks up;
- the off-chain Merkle tree that prepares a claimant's path;
- the V1 and V2 contracts, over whole runs of transactions.

The same object, the claims root or the claim columns, is computed by the circuits' recursion, by the
precomputed padding roots, by the layer loop off chain and by the contract's path loop. The main
theorems say what follows when all of them are put together:

- `SafetyV2.RunIsSafe`: in every run of the V2 contract every payment is for one of the first
  `numClaims` claims of a batch committed for its World ID root, whose own Groth16 proof verifies under
  the deployed verifying key, and no nullifier is paid twice; `SafetyV2.RunConserves` accounts for the
  balance of every address. Committed roots are proven, except those read from words that are not canonical.
- `SafetyV2.ReadingsAreExactIffCanonical`, `SafetyV2.ReadIsProvenIffCanonical` and
  `EndToEndV2.ShiftedHonestCommit`: exactly when a committed root is proven, and for every batch a
  commit that passes and is not.
- `SafetyV1.RunIsSafe`: the same for V1, where passing the output hash forces a full batch whose
  columns are the call's arrays; token totals never change.
- `EndToEndV1.HonestCallIsPaidIffFull` and `EndToEndV1.FullBatchIsPaidOnce`: the call made of a
  scheduled batch is paid exactly when the batch is full, and then once.
- `EndToEndV2.HonestBatchIsPayable`: the proof of every batch the scheduler handles is committed, and
  the path builder's arguments for each of its claims pass exactly when nullifier, receiver, grant and
  balance allow.
- `EndToEndV2.CommittedClaimIsPaidOnce` and `EndToEndV2.HonestRunPaysEveryClaim`: the liveness partners
  of V2 safety, at any point of any run.
- `Completeness.OutputIndependentOfInitialDepth`: the V2 output does not depend on where leaf circuits
  end and aggregation begins.
- `AsyncScheduler.AsyncRefinesLocal` with `AsyncScheduler.NoDeadlock` and
  `AsyncScheduler.RunsAreBounded`: every interleaving of any number of requests under one semaphore
  ends, each request with the sequential scheduler's result when nothing outside fails it.
- `SchedulerServer.ServedRequestCompletes`: from the key generation's listing to the accepted root tree.

## How to read it

- **Parameters.** Keccak is a function from byte strings to 32-byte words. No function of that type is
  injective on all byte strings, so freedom from collisions (`Merkle.NoCollision`) is asked only of the
  finitely many strings hashed in the run at hand, among them the verifying keys of all leaves and the
  deployed one. Where digests are read from proof words the strings
  must also be free of aliasing (`PublicWords.NoAliasing`): no digest is a reading of another's digest
  whose words carry multiples of the field's order. The Groth16 check is an arbitrary predicate on the
  verifying key, the proof and the public inputs (root, nullifier hash, receiver, grant id).
- **The verifier contract** accepts or rejects proof bytes. Its soundness (`VerifierSound`) is knowledge
  soundness: behind every accepted proof an extractor finds an accepted tree of circuits whose root
  outputs stand behind the twelve accumulator words, modulo the field's order, because the verifiers use
  every public word modulo the order (`PublicWords.Reduces`). The EVM rounds pass these words through.
  A word below the order is called canonical.
- **Circuits** are methods on a `Field.Context`, which only ever collects constraints. Each method is
  proved to be satisfied exactly when a predicate over its instances holds, and to lay its instances
  out as a specification function says; soundness and completeness are then proved of those.
- **Reverts** are results: a call that reverts leaves the state as it was.
- Field arithmetic is modulo the actual bn256 scalar modulus, so absence of wrap-around is proved.
- `hide` statements only keep definitions out of a proof that does not need them.

Where code and documentation differ, the model follows the code:

- The aggregation contracts read all 256 bits of words that the verifiers reduce first. A V2 root
  read from a word that is not canonical is committed without being the root of the batch behind it;
  no claim can be paid against it (`SafetyV2.ClaimedRootIsProven`). In V1 the output-hash check refuses
  such words, not the SNARK check as a comment says (`SafetyV1.ShiftedHashIsRefusedByHashOnly`).
- A V2 payment's World ID root is the claims' root modulo the order; the two are equal when the root
  validator only knows roots below the order.
- The documentation lets fewer than `MAX_NUM_CLAIMS` claims be proved in V1. The V1 contract hashes
  arrays of length `numClaims`, the V1 root circuit full columns, so such a batch is never paid:
  `EndToEndV1.PartialBatchIsRefused`.
- The documentation asks for exactly as many circuit degrees as levels; key generation accepts more:
  `Keygen.CreateAndSerializeProvingKey`.
- The V2 root exposes its six words themselves, not a hash of them.
- The V2 padding table has 14 entries, so V2 aggregation is defined up to depth 14 and panics beyond;
  V2 results about building trees carry that bound.
- A join accepts two values of `num_proofs` when the left child is full and linked
  (`Join.JoinIsNotAFunction`), so soundness speaks about some batch behind the tree, not the batch.

## Files

| file | content |
|---|---|
| `wrappers.dfy`, `words.dfy`, `field.dfy` | options and results, bytes and 32-byte words, the field and its constraint context |
| `merkle.dfy`, `join.dfy`, `claims.dfy` | Merkle trees and paths, the join of two children, claims and trees of circuits |
| `circuits_v1.dfy`, `circuits_v2.dfy` | the two circuit families |
| `path_builder.dfy` | the off-chain tree |
| `token.dfy`, `public_words.dfy`, `contract_v1.dfy`, `contract_v2.dfy` | WLD, the words of a proof and the two contracts |
| `safety_v1.dfy`, `safety_v2.dfy` | end-to-end safety |
| `node_params.dfy`, `keygen.dfy`, `scheduler.dfy` | circuit parameters, key generation, requests and the local scheduler |
| `completeness.dfy`, `end_to_end_v1.dfy`, `end_to_end_v2.dfy` | every valid batch is proved and can be cashed |
| `async_scheduler.dfy`, `scheduler_server.dfy` | the asynchronous scheduler and its server |

## Model

| member | source | states |
|---|---|---|
| SafetyV2.RunIsSafe | src/WorldcoinAggregationV2.sol:136-220 | over every run of commits, claims, foreign transfers and reverts: every payment has the grant, root, receiver, nullifier and grant amount of its claim call, with a receiver and a valid grant, and is for one of the first `numClaims` claims, at most 2^logMaxNumClaims, of a batch committed earlier by an allowed sender for its World ID root; that claim's own Groth16 proof, found in the tree behind the commit, passes the check under the deployed verifying key on (root, nullifier hash, receiver, grant id); each used nullifier was paid exactly once; and every committed root is the root of its proven batch, or was read from a proof one of whose words 14, 16 and 17 is not below the field's order |
| SafetyV2.CommitTakesEffectIff | src/WorldcoinAggregationV2.sol:181-220 | word by word, exactly when a commit takes effect, and that it then makes valid exactly the pair read from words 14, 16 and 17; otherwise nothing changes |
| SafetyV2.ClaimTakesEffectIff | src/WorldcoinAggregationV2.sol:136-177 | exactly when a claim takes effect, and that it then uses its nullifier, is logged, and moves the grant's amount from the contract to the receiver and nowhere else; otherwise nothing changes |
| SafetyV2.RunConserves | src/WorldcoinAggregationV2.sol:170-176 | no run changes the sum of all balances, a call pays at most one claim, and every account holds what it began with, plus the payments that name it as receiver and what others moved to it, less what it moved itself and, for the contract, all payments |
| SafetyV2.ClaimIsInBatch | src/WorldcoinAggregationV2.sol:145-168 | a claim whose path leads to a proven claims root has the tree's height and is the claim at the index whose bit j is set exactly when byte j of isLeftBytes is not zero; a padding leaf can never be claimed |
| PublicWords.ReadingIsExactIffCanonical | src/WorldcoinAggregationV2.sol:203-213 | two words that stand for a digest's halves modulo the field's order recombine to that digest if and only if both are below the order |
| PublicWords.ReadingOfHashed | src/WorldcoinAggregationV1.sol:163-166 | without aliasing, a hashed string whose digest equals a reading of another's is that string, and the words were canonical |
| PublicWords.EncodedWordIsRead | circuit/src/circuits/v2/intermediate.rs:145-154 | words encoded behind the accumulator are read back at their positions |
| PublicWords.ShiftedIsCongruent | src/verifiers/v2/V2Claim8192Verifier.sol:32-49 | adding the order to a public word gives a different proof that a verifier which reduces its words cannot tell from the first |
| SafetyV2.WordsStandFor | src/verifiers/v2/V2Claim8192Verifier.sol:44-49 | words 12 to 17 of an attested proof stand, modulo the order, for the hash of the leaves' verifying key, the root, the size of the proven batch and its claims root |
| SafetyV2.ReadingsAreExactIffCanonical | src/WorldcoinAggregationV2.sol:199-213 | the key hash, root, number of claims and claims root that the contract reads are the tree's if and only if their words are below the order, value by value |
| SafetyV2.ShiftedCountIsRefused | src/WorldcoinAggregationV2.sol:209-210 | a proof whose word 15 is not below the order is always refused |
| SafetyV2.AttestedBatchIsRead | src/WorldcoinAggregationV2.sol:181-220 | for a proof that passes for the contract's key hash, the key words are canonical, every leaf of the tree used the deployed key, and the root and claims root words stand for 1 to 2^depth claims whose own Groth16 proofs verify under it |
| SafetyV2.ReadIsProvenIffCanonical | src/WorldcoinAggregationV2.sol:181-220 | the committed pair is the World ID root and padded Merkle root of that batch if and only if words 14, 16 and 17 are below the order |
| SafetyV2.ShiftedCommitIsAccepted | src/WorldcoinAggregationV2.sol:199-219 | with a verifier that reduces its words, a passing commit still passes with the order added to word 16, and then commits a root that is not its batch's |
| SafetyV2.ShiftedRunIsNotProven | src/WorldcoinAggregationV2.sol:181-220 | so a run of one such commit ends with a valid claims root that is not proven |
| SafetyV2.MisreadRootIsNoBatchs | src/WorldcoinAggregationV2.sol:212-219 | a root read from such a word is the root of no batch whose tree was hashed |
| SafetyV2.ClaimedRootIsProven | src/WorldcoinAggregationV2.sol:150-168 | a claim's path reaches a committed root only if it was read from canonical words, and then it is the batch's root |
| SafetyV2.CommitIsSafe | src/WorldcoinAggregationV2.sol:181-220 | one validateClaimsRoot call keeps safety, whatever multiples of the order its words carry |
| SafetyV2.ClaimIsSafe | src/WorldcoinAggregationV2.sol:136-177 | one claim call keeps safety |
| ContractV2.WorldcoinAggregationV2.Claim | src/WorldcoinAggregationV2.sol:136-177 | the result and the whole new state, by the checks in order and the folded path; a failed transfer undoes the marked nullifier |
| ContractV2.WorldcoinAggregationV2.ValidateClaimsRoot | src/WorldcoinAggregationV2.sol:181-220 | the result and the whole new state of a commit |
| ContractV2.Deploy | src/WorldcoinAggregationV2.sol:95-114 | deployment succeeds exactly for logMaxNumClaims at most 32, and starts empty |
| SafetyV1.RunIsSafe | src/WorldcoinAggregationV1.sol:113-199 | over every run, with verifiers that reduce their words, each payment went to a row of a full batch of at most maxNumClaims claims from an allowed sender, with a receiver, a valid grant and its amount; that row's own Groth16 proof passes the check under the deployed verifying key on (root, nullifier hash, receiver, grant id); each used nullifier was paid once, and the sum of all balances is constant |
| SafetyV1.CallTakesEffectIff | src/WorldcoinAggregationV1.sol:113-199 | exactly when a call takes effect, check by check and claim by claim, and that it then logs the due payments, uses their nullifiers and moves each amount to its receiver; otherwise nothing changes |
| SafetyV1.RunBalance | src/WorldcoinAggregationV1.sol:173-198 | over every run, every account holds what it began with, plus the payments that name it as receiver and what others moved to it, less what it moved itself and, for the contract, all payments |
| SafetyV1.OutputHashIsExactIffCanonical | src/WorldcoinAggregationV1.sol:163-166 | the output hash read off an attested proof is the tree's if and only if words 12 and 13 are below the order |
| SafetyV1.HashCheckForcesWords | src/WorldcoinAggregationV1.sol:151-166 | the output-hash check passes only for canonical words and only for exactly the string the root circuit hashed |
| SafetyV1.ShiftedHashIsRefusedByHashOnly | src/WorldcoinAggregationV1.sol:143-144 | after the order is added to word 12 or 13 the verifier still accepts, against the comment, and it is the hash comparison that refuses every call |
| SafetyV1.HashCheckForcesFullBatch | src/WorldcoinAggregationV1.sol:151-166 | equal output hashes force numClaims = num_proofs = 2^depth, the arrays equal to the circuit's columns, the deployed key in every leaf, and every row's own proof valid under that key and the call's root |
| SafetyV1.HonestCallPassesIffFull | src/WorldcoinAggregationV1.sol:151-166 | for an attested tree of any batch, the call listing the batch's own claims passes the hash check if and only if the batch has 2^depth claims and words 12 and 13 are canonical |
| EndToEndV1.HonestCallIsPaidIffFull | circuit/src/scheduler/contract_client.rs:21-55 | the call made of a scheduled batch is paid if and only if the batch has 2^depth claims, sender, root, maximum and verifier allow, and every claim is payable |
| EndToEndV1.PartialBatchIsRefused | circuit/README.md:60 | a scheduled and proved batch of fewer claims changes nothing, against the documentation |
| EndToEndV1.FullBatchIsPaidOnce | src/WorldcoinAggregationV1.sol:113-199 | at any point of any run the allowed call for a full batch pays each of its claims once, in order and in full, every other account's balance grows by exactly the payments made to it, and however the run goes on the call never pays again |
| EndToEndV1.HonestCallMatches | circuit/src/scheduler/contract_client.rs:21-55 | the call's arrays, root and key are those of the accepted tree behind the proof, full or partial |
| EndToEndV1.HonestVerifierIsSound | src/verifiers/v1/V1Claim256Verifier.sol:32-45 | for every schedulable batch, full or partial, a verifier that reduces its words meets what safety assumes and accepts the batch's proof |
| SafetyV1.OutputPreimageIsWords | src/WorldcoinAggregationV1.sol:151-161 | the packed arguments are the 32-byte words of key halves, root, count and the three arrays |
| SafetyV1.StepIsSafe | src/WorldcoinAggregationV1.sol:113-199 | one call keeps safety, never forgets a nullifier and conserves tokens |
| SafetyV1.BatchPaysOnce | src/WorldcoinAggregationV1.sol:173-198 | paying a batch keeps used nullifiers and payments in one-to-one correspondence |
| ContractV1.WorldcoinAggregationV1.DistributeGrants | src/WorldcoinAggregationV1.sol:113-199 | the result and whole new state; a revert at any claim restores nullifiers, balances and events |
| ContractV1.PaidIffAllPayable | src/WorldcoinAggregationV1.sol:173-198 | a batch is paid if and only if, seen from its start, every grant is valid, every receiver non-zero, every nullifier new and unrepeated, and the running sum covered |
| ContractV1.PaidBatch | src/WorldcoinAggregationV1.sol:173-198 | a paid batch makes one payment per claim in order, uses exactly its nullifiers and conserves tokens |
| ContractV1.Deploy | src/WorldcoinAggregationV1.sol:85-104 | deployment succeeds exactly for powers of two |
| Words.BitTrick | src/WorldcoinAggregationV1.sol:95 | `n & (n - 1) == 0` for positive n if and only if n is a power of two |
| Token.TransferConserves | src/WorldcoinAggregationV1.sol:187-191 | a transfer keeps the sum of all balances, also to the sender itself |
| Token.LoadWord | src/WorldcoinAggregationV2.sol:199-213 | word i of an encoded list is read back from calldata as number i |
| Claims.ValidUnderDeployedKey | circuit/src/utils.rs:115-136 | unless two hashed strings collide, leaves that expose the deployed key's hash used that key, and each claim's own proof verifies under it |
| CircuitsV2.TreeSound | circuit/src/circuits/v2/intermediate.rs:183-251 | behind every accepted V2 tree stand end - start claims, between 1 and 2^depth, each with its own Groth16 proof that verifies under a leaf's key; all leaves' keys have the exposed hash; and the exposed claim root is the flat Merkle root of the claims' leaves padded with zero leaves |
| CircuitsV2.JoinSound | circuit/src/circuits/v2/intermediate.rs:205-248 | one join keeps that: a full left half and a continuation, or a short left half completed by the precomputed padding root |
| CircuitsV2.RootCountsBatch | circuit/src/circuits/v2/intermediate.rs:148-150 | the number of proofs the root exposes is the size of the proven batch |
| CircuitsV2.JoinPreviousInstances | circuit/src/circuits/v2/intermediate.rs:183-251 | the gates hold exactly when the join relation does, and the claim root is the hash of the left root and either the right or the padding root |
| CircuitsV2.AggregationPhase0 | circuit/src/circuits/v2/intermediate.rs:97-164 | the children's accumulators are filtered out and the outputs laid out behind the new accumulator, the root showing the number of proofs in place of the range |
| CircuitsV2.BranchNode | circuit/src/utils.rs:163-194 | the halves are range-checked to 16 bytes each and the digest is the hash of the two 32-byte children |
| CircuitsV2.LeafPhase0 | circuit/src/circuits/v2/leaf.rs:59-187 | the gates hold exactly when the range is proper, every proof passes on (root, nullifier hash, receiver, grant id) and the real claims' receivers fit 20 bytes; the instances are range, key hash, root and the flat root of the real claims and zero leaves |
| CircuitsV2.HashLeaves | circuit/src/circuits/v2/leaf.rs:108-164 | every claim slot's proof is checked on (root, nullifier hash, receiver, grant id), and masked hashing gives the hashes of the first num_proofs claims followed by zero leaves, whatever the padding claims are |
| CircuitsV2.MaskSelects | circuit/src/circuits/v2/leaf.rs:145-160 | multiplying the packed fields by the mask gives the claim's own preimage or the zero leaf |
| CircuitsV1.TreeSound | circuit/src/circuits/v1/intermediate.rs:94-127 | the instances of an accepted V1 tree are the columns of 2^depth rows, padding and dummies included, each with its own Groth16 proof that verifies under a leaf's key and the shared root; all leaves' keys have the exposed hash; and the proven claims are a prefix of the rows |
| CircuitsV1.JoinIsRowConcat | circuit/src/circuits/v1/intermediate.rs:94-127 | extending column by column is concatenating the two lists of rows |
| CircuitsV1.RootCountsBatch | circuit/src/circuits/v1/root.rs:110-121 | the number of proofs the root hashes is the size of the proven batch |
| CircuitsV1.JoinPreviousInstances | circuit/src/circuits/v1/intermediate.rs:94-127 | the gates hold exactly when the join relation does, and each column is the left column followed by the right one |
| CircuitsV1.LeafPhase0 | circuit/src/circuits/v1/leaf.rs:165-272 | the gates hold exactly when the range is proper and every proof passes on (root, nullifier hash, receiver, grant id); the instances are range, key hash, root and the claims column by column |
| CircuitsV1.Unzip | circuit/src/circuits/v1/leaf.rs:243-251 | the three columns hold the claims' grant ids, receivers and nullifier hashes in order |
| CircuitsV1.RootPhase0 | circuit/src/circuits/v1/root.rs:81-153 | behind the accumulator the root exposes the two halves of the hash of key hash, root, number of proofs and columns, each as 32 bytes |
| CircuitsV1.EncodeWords | circuit/src/circuits/v1/root.rs:129-141 | the bytes built word by word are the big-endian 32-byte encodings in order |
| Join.FieldJoinIsIntegerJoin | circuit/src/circuits/v1/intermediate.rs:138-201 | for children with start < end < 2^64 the field constraints hold if and only if, over the integers, num = n0 or the left child is full and linked and num = max + n1; nothing wraps and the result is again such a range |
| Join.JoinIsNotAFunction | circuit/src/circuits/v1/intermediate.rs:138-201 | with a full, linked left child both values of num_proofs are accepted |
| Join.CheckAndJoinSharedInstances | circuit/src/circuits/v1/intermediate.rs:138-201 | the gates, in order, hold exactly when the join relation does; the new shared instances and the dummy flag are determined |
| Join.RemoveAccumulators | circuit/src/circuits/v1/intermediate.rs:243-248 | removing indices in place from the highest down is filtering them out by original position |
| Join.WithoutAccumulator | circuit/src/circuits/v1/intermediate.rs:243-248 | for an accumulator in the first n positions exactly what is behind it remains |
| Merkle.CircuitTreeIsHeap | circuit/src/utils.rs:140-160 | node i of the in-circuit tree is the hash of nodes 2i + 1 and 2i + 2, and the last n nodes are the leaves |
| Merkle.CircuitTreeRoot | circuit/src/utils.rs:140-160 | node 0 of the in-circuit tree is the flat Merkle root |
| Merkle.RootOfPairUp | utils/src/merkleSisterNodes.ts:14-33 | hashing layer by layer from the leaves gives the same root as splitting at the top |
| Merkle.DummyClaimRoots | circuit/src/constants.rs:27-57 | entry d of the table is the flat Merkle root of 2^d zero leaves |
| Merkle.RootOfConcat | circuit/src/utils.rs:163-194 | the root over two halves is the hash of the left root's 32 bytes followed by the right root's |
| Merkle.PathSound | src/WorldcoinAggregationV2.sol:150-166 | a path of any length that folds an 84-byte preimage to a tree's root has exactly the tree's height, and the preimage is the leaf at the index its directions spell |
| Merkle.IndexBit | src/WorldcoinAggregationV2.sol:151-165 | direction j of a path is bit j of the leaf's index |
| Claims.ClaimsRootOfShort | circuit/src/circuits/v2/intermediate.rs:205-233 | the padded root of a batch that fits the left half is the hash of its padded left root and the padding root |
| Claims.ClaimsRootOfConcat | circuit/src/circuits/v2/intermediate.rs:236-243 | the padded root of a full left half and a continuation is the hash of the two padded roots |
| Claims.PackedBytes | src/WorldcoinAggregationV2.sol:150 | the first 32 bytes of the packing are the grant id, the next 20 the receiver, the last 32 the nullifier hash, each big-endian |
| Claims.PackedInjective | src/WorldcoinAggregationV2.sol:150 | the 84-byte packing determines grant id, receiver and nullifier hash |
| Claims.ConstrainLeafRange | circuit/src/circuits/v2/leaf.rs:83-95 | the range gates hold exactly when start < end < 2^64 and end - start is at most 2^depth over the integers |
| Words.WordBytesInjective | circuit/src/circuits/v1/root.rs:129-141 | equal encodings come from equal lists of words, of whatever lengths |
| Words.BEDigit | circuit/src/circuits/v1/root.rs:129-141 | byte i of an encoding is the number's digit to base 256, most significant first |
| Words.ReadBack | circuit/src/circuits/v1/root.rs:129-141 | the 32 big-endian bytes of a number are read back as that number |
| Claims.KeyStringBytes | circuit/src/utils.rs:115-136 | element i of a verifying key is hashed as bytes 32 i to 32 i + 31, big-endian |
| PathBuilder.PathReachesRoot | utils/src/merkleSisterNodes.ts:35-59 | for 2^k leaves and every index, the sister path folded as the contract folds it reaches the root |
| PathBuilder.DirectionsSpellIndex | utils/src/merkleSisterNodes.ts:45-51 | the directions of a leaf's path spell its index |
| PathBuilder.DirectionBit | utils/src/merkleSisterNodes.ts:45-54 | a sister is marked left at level j exactly when bit j of the index is set |
| PathBuilder.DirectionsSurvive | utils/src/merkleSisterNodes.ts:78-92 | the contract reads the encoder's directions back unchanged |
| PathBuilder.MerkleTree.BuildTree | utils/src/merkleSisterNodes.ts:14-29 | the build succeeds exactly for no leaves or a power of two, and its layers are chained by hashing pairs |
| PathBuilder.MerkleTree.LayerFacts | utils/src/merkleSisterNodes.ts:14-29 | every layer j of a tree over 2^k leaves has 2^(k - j) nodes and the same root |
| PathBuilder.MerkleTree.GetRoot | utils/src/merkleSisterNodes.ts:31-33 | the top node is the flat Merkle root, undefined for no leaves |
| PathBuilder.MerkleTree.GetSisterNodesPath | utils/src/merkleSisterNodes.ts:35-59 | the loop collects the specified sisters and directions |
| PathBuilder.BoolArrayToBytes32 | utils/src/merkleSisterNodes.ts:78-92 | more than 32 directions are refused; otherwise byte j of the word is 1 for a set direction j and 0 elsewhere |
| PathBuilder.ParseLeaves | utils/src/merkleSisterNodes.ts:111-128 | the leaves are the claims' hashes and then hashes of the zero leaf; with num_proofs claims they are the circuit's padded leaves |
| EndToEndV2.HonestPathReachesClaimsRoot | utils/src/merkleSisterNodes.ts:35-92 | the contract's path loop, given the builder's path and encoded directions, reaches the circuit's claims root |
| EndToEndV2.ProofReads | src/WorldcoinAggregationV2.sol:199-213 | from the canonically encoded proof of a scheduled batch the contract reads its key hash, root, size and padded Merkle root |
| EndToEndV2.HonestBatchIsPayable | src/WorldcoinAggregationV2.sol:136-220 | such a proof is committed exactly when sender, World ID root and verifier allow, and each of its claims then passes exactly when nullifier, receiver, grant and balance allow |
| EndToEndV2.CommittedClaimIsPaidOnce | src/WorldcoinAggregationV2.sol:136-220 | wherever in a run a scheduled batch was committed, and whatever was called before and since, each of its claims with the path builder's arguments is paid exactly when nullifier, receiver, grant and balance allow: exactly its amount moves to its receiver and nothing else; and however the run then goes on its nullifier pays nothing again |
| EndToEndV2.HonestRunPaysEveryClaim | src/WorldcoinAggregationV2.sol:136-220 | after any run, a commit and the batch's claims made in a row are all paid, in order and in full, and every account but the contract's grows by exactly what the claims owe it, if receivers, nullifiers and grants are good and the contract holds what they cost together |
| ContractV2.RunGrows | src/WorldcoinAggregationV2.sol:136-220 | valid claims roots and used nullifiers are never forgotten |
| ContractV2.PaidNullifierIsSpent | src/WorldcoinAggregationV2.sol:144-170 | after a claim is paid, no call with its nullifier changes anything, however the run goes on |
| EndToEndV2.HonestVerifierIsSound | src/verifiers/v2/V2Claim8192Verifier.sol:32-49 | for every schedulable batch, a verifier that takes its words modulo the order meets what safety assumes and accepts the batch's proof |
| EndToEndV2.ShiftedHonestCommit | src/WorldcoinAggregationV2.sol:181-220 | and for every such system a run exists, one commit of that proof with the order added to word 16, after which an unproven root is valid |
| Completeness.TreeComplete | circuit/src/scheduler/mod.rs:53-118 | the tree built for any valid batch is accepted at every node, dummies included, and exposes the request's range, key and root for the request's claims with their own proofs |
| Completeness.NodeRealises | circuit/src/scheduler/mod.rs:80-105 | two halves, or one child and its clone, satisfy the join constraints and realise the request |
| Completeness.SchedulerComplete | circuit/src/scheduler/mod.rs:53-147 | the final proof of any valid batch wraps an accepted root tree that proves exactly that batch |
| Completeness.RoundsAsRequested | circuit/src/scheduler/mod.rs:106-117 | a request for Evm(r) ends with r + 1 layers, rounds r down to 0, around the root's proof |
| Completeness.OutputsV2 | circuit/src/circuits/v2/intermediate.rs:145-154 | the root exposes exactly (key hash, root, n, Merkle root of the padded batch) |
| Completeness.OutputIndependentOfInitialDepth | circuit/src/constants.rs:27-57 | every split between in-leaf tree and aggregation levels, and any number of EVM rounds, gives the same V2 output |
| NodeParameters.EvmChainLength | circuit/README.md:140 | the chain from Evm(r) has depth - initial_depth + r + 2 levels |
| NodeParameters.ChildIsWellFormed | circuit/src/keygen/node_params.rs:55-82 | children of well-formed parameters are well formed, one level down except below Evm |
| NodeParameters.ChainSpelledOut | circuit/src/keygen/node_params.rs:55-82 | the chain from Evm(r) is the rounds r to 0, the root, intermediate circuits of each smaller depth and the leaf, with the same initial depth |
| NodeParameters.ChainDescends | circuit/src/keygen/node_params.rs:16-34 | everything below a node comes strictly before it in the derived order |
| Keygen.CreateAndSerializeProvingKey | circuit/src/keygen/mod.rs:361-448 | succeeds if and only if every level has a degree and no earlier entry contradicts, and then adds exactly the chain's entries; with too few degrees nothing is written, and otherwise a failed run has written the lowest contradicting level and all below it |
| Keygen.KeygenCoversChain | circuit/src/keygen/mod.rs:361-448 | from an empty map nothing contradicts, each level has its own entry, and the starting parameters are the greatest key |
| Keygen.LevelGetsItsDegrees | circuit/src/keygen/mod.rs:61-67 | level i of the chain is generated with the degrees from position i on |
| Keygen.LoadCids | circuit/src/bin/scheduler_server.rs:156-175 | one pass fills the two maps, and the last entry names the final circuit |
| Keygen.KeygenAndSchedulerAgree | circuit/src/bin/scheduler_server.rs:156-175 | lookup and reverse lookup succeed for every level and the final circuit is where key generation started; the reverse lookup gives the parameters back for every level if and only if the circuit ids are distinct |
| Scheduler.DependenciesPartition | circuit/src/scheduler/recursive_request.rs:49-80 | one dependency for the whole range, or a full left half and the rest (never below Evm); each is accepted by `new`, consecutive, and the claim slices concatenate to the request's |
| Scheduler.IndicesStayBelow | circuit/src/scheduler/recursive_request.rs:64-68 | no index computed anywhere in the recursion exceeds start + 2^depth |
| Scheduler.NoIndexOverflow | circuit/src/scheduler/recursive_request.rs:64-68 | from start 0 and depth at most 31 no index leaves u32 |
| Scheduler.TaskMadeIff | circuit/src/scheduler/mod.rs:29-118 | for any request, well formed or not, and any snarks, exactly when a task is made and no check, assertion or unreachable branch stops it |
| Scheduler.TaskSucceeds | circuit/src/scheduler/mod.rs:53-118 | with fitting dependency snarks no assertion, unreachable branch or prover check fails, and the new snark has the kind its parent expects |
| Scheduler.BuildIsProve | circuit/src/scheduler/mod.rs:122-147 | proving the task made from the dependencies' results gives the request's result |
| Scheduler.LocalScheduler.GetSnarksForDeps | circuit/src/scheduler/local_scheduler.rs:104-121 | succeeds if and only if every level below has a circuit, with the dependencies' results in order |
| Scheduler.LocalScheduler.RecursiveGenProof | circuit/src/scheduler/mod.rs:122-147 | succeeds if and only if every level has a circuit, and returns the request's result |
| AsyncScheduler.StepKeepsInv | circuit/src/scheduler/async_scheduler.rs:75-100 | every step anywhere in the tree keeps: a node leaves waiting only after all dependencies answered, proceeds only if all succeeded and it has a circuit id, and holds the sequential result when done; a terminated root never moves |
| AsyncScheduler.MoveShortens | circuit/src/scheduler/executor/dispatcher.rs:55-68 | every move of any request decreases the measure of all requests together |
| AsyncScheduler.NoDeadlock | circuit/src/scheduler/executor/dispatcher.rs:55-68 | for every limit shared by any number of requests, some move is enabled while any of them is unfinished |
| AsyncScheduler.RunInvariant | circuit/src/scheduler/async_scheduler.rs:61-100 | over every interleaving of arriving requests and moves, permits of all requests together stay within the limit, each request's invariant holds, and, if lookups give parameters back, its tracker's multiset is that of its finished nodes |
| AsyncScheduler.RunsAreBounded | circuit/src/scheduler/executor/dispatcher.rs:55-68 | every run makes at most as many moves as the requests that arrived have work |
| AsyncScheduler.DoneMeansAllDone | circuit/src/scheduler/async_scheduler.rs:75-100 | when a node is done its whole subtree is |
| AsyncScheduler.SuccessfulRun | circuit/src/scheduler/mod.rs:122-147 | a request whose lookups succeed and that nothing outside failed has no failed node, whatever happened to other requests |
| AsyncScheduler.OutsideFailureFails | circuit/src/scheduler/executor/dispatcher.rs:118-159 | a FAILED answer or a failed fetch leaves its future failed and records nothing |
| AsyncScheduler.FailureIsFinal | circuit/src/scheduler/executor/dispatcher.rs:118-159 | in every later state of the run that future is still failed |
| AsyncScheduler.StartedFuturesAreReady | circuit/src/scheduler/executor/dispatcher.rs:55-68 | in every reachable state a future that asks for a permit, runs or fetches has a circuit id and all its dependencies' results, in dependency order |
| AsyncScheduler.AcquireEnabledIff | circuit/src/scheduler/executor/dispatcher.rs:55-61 | a permit is granted exactly when it is asked for and fewer than the limit are held |
| AsyncScheduler.ConcurrencyIsLimited | circuit/src/scheduler/executor/dispatcher.rs:55-68 | any set of futures running at once, over all requests, has at most as many members as the semaphore has permits |
| AsyncScheduler.AsyncRefinesLocal | circuit/src/scheduler/async_scheduler.rs:61-100 | when nothing can move every request is done or failed, and done exactly when all its lookups succeed and nothing failed it from outside; a done one has the local scheduler's result and, if lookups give parameters back, has recorded each node of its request tree once |
| SchedulerServer.AdmittedIsWellFormed | circuit/src/bin/scheduler_server.rs:52-75 | an admitted request is well formed if and only if its number of claims fits u32 |
| SchedulerServer.AdmittedFits | circuit/src/bin/scheduler_server.rs:52-75 | up to depth 31 exactly the batches of 1 to 2^depth claims are admitted; the request is for all claims from index 0, under the given root and the final circuit's parameters, and no index overflows |
| SchedulerServer.TaskTracker.RecordTask | circuit/src/scheduler/task_tracker.rs:21-34 | appends to one request's tasks and leaves every other request's alone |
| SchedulerServer.ServedRequestCompletes | circuit/src/bin/scheduler_server.rs:41-175 | with the maps of a key generation run and any other requests beside it, an admitted valid batch that was never failed from outside ends, once nothing can move, with a final proof of round + 1 EVM layers, counting down to 0, around an accepted root tree over exactly these claims and this root, and every node recorded if circuit ids are distinct |

## Left out

- Groth16 verification, SNARK aggregation, halo2 gates, Keccak and trusted setup are foreign libraries: they are parameters, and a child's proof stands for its accepted circuit.
- `unsafe_lt_mask`, `check_less_than`, `check_less_than_safe` and `is_less_than_safe` are their stated comparisons; their limb widths and lookup tables are not modelled.
- `uint_to_bytes_be` is the canonical big-endian encoding; for 32 bytes a decomposition of value plus a multiple of the order also fits, and that the library excludes those is assumed.
- Accumulator limbs: `CircuitsV1.RootPhase0` and `CircuitsV2.AggregationPhase0` take the new accumulator as given, and the children's accumulator positions as any strictly increasing indices.
- Parsing of decimal and hexadecimal strings, JSON and YAML: claims, roots and keys arrive as field elements.
- HTTP, retries, polling delays, files and logging; waiting for the dispatcher is one step that answers done or failed, and a dispatcher that never answers is outside `AsyncScheduler.RunsAreBounded`.
- Futures, locks and the semaphore of the asynchronous scheduler are a step relation over the tree of requests, not code; a request that arrives is an event, and task ids are recorded by the tracker class but are not part of the step relation's state.
- The provers' caches, circuit factories, deployment scripts, mocks and the crawler; of the generated verifiers only how they load public words is modelled.
- Parameters with depth equal to initial_depth that are not leaves, where key generation and scheduler disagree, are outside `WellFormed`.
- Gas, reentrancy and tokens that misbehave: WLD is an EIP-20 token whose failed transfer reverts, and its balances do not overflow.
- Dirty upper bits of calldata addresses: receivers are 20-byte values when the contracts see them.
- JavaScript index values that are negative or not integers: indices are natural numbers.
