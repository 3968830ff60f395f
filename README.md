# Mutual-insurance pool ledger in Dafny

This project models the ledger of an autonomous mutual-insurance pool. Participants join a shared fund. A participant creates policies and pays each premium into the pool. A policy owner submits claims against that policy. A fixed administrator approves claims, and each approval pays the claim out of the pool.

The ledger state has six parts: the pool balance, the next policy id, the next claim id, the participant set, the policy table and the claim table. Four operations (join, create policy, submit claim, approve claim) check their guards in a fixed order. Each call then either returns an error and changes nothing, or applies all of its updates and returns `ok` with a payload. A reset puts the ledger back to its empty state.

Files:

- `types.dfy` (module `InsuranceTypes`): the policy and claim records, the error kinds with their string codes, the `ok`/`err` response, and the constants. The constants are the administrator identity, the funding ceiling of 1000000 and the start block 0.
- `spec.dfy` (module `InsuranceSpec`): the ledger as a value `State`. Each operation is a function from a state to a reply and the next state. This file holds the ledger invariant, the balance accounting and the lemmas about single calls, repeated calls and whole sequences of calls.
- `ledger.dfy` (module `InsuranceLedger`): the class `PoolLedger`. Its fields are updated in place, as in the program. Each method is proved to produce exactly the reply and the new state given by the matching `InsuranceSpec` function, and to keep the invariant.
- `scenarios.dfy` (module `InsuranceScenarios`): the repository's test cases, replayed on a fresh `PoolLedger`. Each postcondition states the values the test expects. Two scenarios also state facts the tests do not check, which follow from the guards: the repeat approval at tests/mutual-insurance.test.ts:74-76 and the unchanged balance after a refused approval at tests/mutual-insurance.test.ts:77-79.

The invariant (`InsuranceSpec.Invariant`) has six parts:

- the pool balance is never negative;
- policy ids are exactly `0 .. nextPolicyId - 1`, and claim ids are exactly `0 .. nextClaimId - 1`;
- every policy owner is a participant, every policy is active and starts at block 0, and no premium exceeds the ceiling;
- every claim refers to an existing policy and fits within that policy's coverage;
- the balance equals the premiums collected minus the approved payouts.

Error values and stubs, as the code has them:

- A second join of the same identity replies `err` with the value `false` (tests/mutual-insurance.test.ts:27).
- Approving an already approved claim replies `err-already-exists`, modelled as `AlreadyExists` (tests/mutual-insurance.test.ts:75).
- The funding check is the constant ceiling 1000000 (tests/mutual-insurance.test.ts:37), and every policy's start block is the constant 0 (tests/mutual-insurance.test.ts:45).

## Model

| member | source | states |
|---|---|---|
| InsuranceTypes.ErrorCode | tests/mutual-insurance.test.ts:33-79 | every error the operations return is an `err-…` string code |
| InsuranceTypes.ErrorCodeInjective | tests/mutual-insurance.test.ts:33-79 | distinct error kinds have distinct codes, so callers can tell them apart |
| InsuranceSpec.Init | tests/mutual-insurance.test.ts:15-22 | the reset state (zero balance and counters, empty tables) satisfies the ledger invariant |
| InsuranceSpec.Join | tests/mutual-insurance.test.ts:25-31 | replies `ok true` exactly when the sender was not a participant, and otherwise `err false` with the state unchanged; the sender is a participant afterwards; nothing but the participant set changes |
| InsuranceSpec.CreatePolicy | tests/mutual-insurance.test.ts:33-51 | a non-participant gets `err-unauthorized`; then a premium above 1000000 gets `err-insufficient-funds`; success happens exactly when neither applies; errors change nothing; success returns the old policy counter, increments it by 1, stores an active policy owned by the sender with start block 0 and end block = duration, and raises the balance by exactly the premium |
| InsuranceSpec.SubmitClaim | tests/mutual-insurance.test.ts:53-64 | a missing policy or a different owner gets `err-unauthorized`; then an inactive policy or an amount above coverage gets `err-invalid-policy`; success happens exactly when the sender owns an active policy covering the amount; the balance never changes; errors change nothing; success returns the old claim counter, increments it by 1 and stores a pending claim |
| InsuranceSpec.ApproveClaim | tests/mutual-insurance.test.ts:66-83 | guards in order: non-administrator gets `err-owner-only`, a missing claim gets `err-not-found`, an approved claim gets `err-already-exists`, an amount above the balance gets `err-insufficient-funds`; success happens exactly when none applies and replies `ok true`; errors change nothing; success lowers the balance by exactly the claim amount and marks only that claim approved |
| InsuranceSpec.JoinPreservesInvariant | tests/mutual-insurance.test.ts:25-31 | joining keeps the ledger invariant |
| InsuranceSpec.CreatePolicyPreservesInvariant | tests/mutual-insurance.test.ts:40-49 | creating a policy keeps dense policy ids, owners among participants, claims within coverage and the balance equal to premiums minus payouts |
| InsuranceSpec.SubmitClaimPreservesInvariant | tests/mutual-insurance.test.ts:53-64 | submitting a claim keeps dense claim ids, every claim on an existing policy within its coverage, and the accounting |
| InsuranceSpec.ApproveClaimPreservesInvariant | tests/mutual-insurance.test.ts:77-81 | approving keeps the balance non-negative and equal to premiums collected minus approved payouts |
| InsuranceSpec.ApprovedTotalApprove | tests/mutual-insurance.test.ts:80-81 | approving a pending claim raises the total of approved payouts by exactly its amount |
| InsuranceSpec.Step | tests/mutual-insurance.test.ts:25-83 | any call that does not return `ok` leaves the whole state unchanged |
| InsuranceSpec.RunPreservesInvariant | tests/mutual-insurance.test.ts:25-83 | any sequence of calls from an invariant state ends in an invariant state |
| InsuranceSpec.ReachableInvariant | tests/mutual-insurance.test.ts:4-83 | every state reachable from a reset satisfies the invariant, so the pool balance is never negative |
| InsuranceSpec.StepExtends | tests/mutual-insurance.test.ts:25-83 | one call never removes a participant, lowers a counter, changes a policy, removes a claim or un-approves a claim |
| InsuranceSpec.RunExtends | tests/mutual-insurance.test.ts:25-83 | the same holds across any sequence of calls |
| InsuranceSpec.JoinTwice | tests/mutual-insurance.test.ts:25-31 | the first join of an identity returns `ok true`; the second returns `err false` and changes nothing |
| InsuranceSpec.ApproveTwice | tests/mutual-insurance.test.ts:74-82 | two approvals of one claim succeed at most once; after a success the repeat returns `err-already-exists` and moves no money, and the success moved exactly the claim amount |
| InsuranceSpec.CreatePolicies | tests/mutual-insurance.test.ts:33-51 | a run of policy creations gives one reply per call and leaves the participant set unchanged |
| InsuranceSpec.PolicyIdsSequential | tests/mutual-insurance.test.ts:40-50 | successful policy creations, by any callers, return the ids `n, n+1, n+2, …` from the current counter and advance it by the number of calls |
| InsuranceLedger.PoolLedger.constructor | tests/mutual-insurance.test.ts:4-9 | a new ledger is the reset state and satisfies the invariant |
| InsuranceLedger.PoolLedger.Reset | tests/mutual-insurance.test.ts:15-22 | after a reset the ledger is the reset state and satisfies the invariant |
| InsuranceLedger.PoolLedger.JoinPool | tests/mutual-insurance.test.ts:25-31 | the in-place update gives the reply and new state of `InsuranceSpec.Join` and keeps the invariant |
| InsuranceLedger.PoolLedger.CreatePolicy | tests/mutual-insurance.test.ts:33-51 | the in-place update gives the reply and new state of `InsuranceSpec.CreatePolicy` and keeps the invariant |
| InsuranceLedger.PoolLedger.SubmitClaim | tests/mutual-insurance.test.ts:53-64 | the in-place update gives the reply and new state of `InsuranceSpec.SubmitClaim` and keeps the invariant |
| InsuranceLedger.PoolLedger.ApproveClaim | tests/mutual-insurance.test.ts:66-83 | the in-place update gives the reply and new state of `InsuranceSpec.ApproveClaim` and keeps the invariant |
| InsuranceScenarios.JoinAdmitsNewMember | tests/mutual-insurance.test.ts:90-94 | a first join returns `ok true` and makes `user1` a participant |
| InsuranceScenarios.JoinRefusesSecondJoin | tests/mutual-insurance.test.ts:96-100 | a second join returns `err false` |
| InsuranceScenarios.ParticipantCreatesPolicy | tests/mutual-insurance.test.ts:102-108 | a participant's first policy gets id 0, is stored, and the balance becomes 50000 |
| InsuranceScenarios.NonParticipantCannotCreatePolicy | tests/mutual-insurance.test.ts:110-113 | a non-participant gets `err-unauthorized` |
| InsuranceScenarios.OwnerSubmitsClaim | tests/mutual-insurance.test.ts:115-121 | the owner's first claim gets id 0 and is stored |
| InsuranceScenarios.NonOwnerCannotSubmitClaim | tests/mutual-insurance.test.ts:123-129 | another participant's claim on the policy gets `err-unauthorized` |
| InsuranceScenarios.AdministratorApprovesClaim | tests/mutual-insurance.test.ts:131-139 | approval returns `ok true`, marks the claim approved and leaves 20000; a repeat gets `err-already-exists` and leaves 20000 |
| InsuranceScenarios.NonAdministratorCannotApprove | tests/mutual-insurance.test.ts:141-147 | a non-administrator gets `err-owner-only` |
| InsuranceScenarios.ApprovalBeyondPoolIsRefused | tests/mutual-insurance.test.ts:149-155 | a 60000 claim against a 50000 pool gets `err-insufficient-funds` and the balance stays 50000 |

## Left out

- The test harness (`describe`, `it`, `expect`, `beforeEach`). Its cases are kept as the methods of `InsuranceScenarios`.
- JavaScript number semantics. Amounts, premiums, durations and ids are unbounded naturals. Floats, `NaN`, negative or fractional inputs and precision loss above 2^53 are not modelled.
- Lookups that hit inherited object properties. In the program, `participants[sender]` is truthy for a name such as `"constructor"` or `"toString"`, so joining under such a name is refused. For the same reason `createPolicy` passes its participant guard for such a name without any join, so in the program a policy owner need not be a participant; the model's invariant that every policy owner is a participant holds only because the model uses plain set membership. The model treats membership as plain set membership.
- Aliasing of claim records. The program flips `isApproved` inside the stored claim object. The model replaces the claim value in the claim table, which is the same update because nothing else holds a reference to the record.
- The real funding check and block height. They are the constants 1000000 and 0, as in the program.
- The administrator address format. The administrator is an opaque string constant.
- The claim description is stored but nothing is stated about its content.
- Concurrency, persistence and transfers to outside accounts. The program has none of these.
