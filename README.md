# Cost splitter and payment router, modelled in Dafny

This project models the two Stylus contracts of the repository as Dafny
classes over maps and proves what their operations do.

**CostSplitter** (`cost-splitter/src/lib.rs`) is a cost-splitting escrow:
- An agreement asks a number of participants for at least an equal share
  each (the total divided by the count, rounded down).
- `contribute` runs four guards in a fixed order, then records the caller's
  payment and adds it to `collected`.
- When `collected` reaches the total, the agreement is marked completed and
  the whole of `collected` is sent to the payee in the same call.
- A failed payout reverts every write of the call.

**PaymentRouter** (`payment-router/src/lib.rs`) is a custody ledger:
- It holds per-account balances.
- The owner controls a set of authorised agents.
- An agent moves part of its balance into an escrowed payment.
- The payee completes the payment and is credited the amount less a fee in
  basis points. The fee uses the rate current at completion and is credited
  to no account.

## How the model is built

- **Classes.** Each contract is a class: `CostSplitter.CostSplitter` and
  `PaymentRouter.PaymentRouter`. Each storage mapping is a `map` field.
  A nested mapping such as `has_paid[id][account]` is a map keyed by the pair.
  A key never written reads as the all-zero value, through `StoredAgreement`,
  `StoredPayment`, `GetBalance` and the other views.
- **External inputs.** These are method parameters:
  - the caller (`msg::sender`)
  - the attached value (`msg::value`)
  - the block time
  - whether the outgoing value transfer succeeds (`transferOk`)
- **Failed transfers.** A failed transfer ends the call with `TransferFailed`.
  The state is restored exactly as it was, which is the revert the platform
  performs.
- **Results.** Each operation returns `Ok(value)` or `Err(error)`, with the
  contract's error names. Each method's postcondition covers:
  - every guard, in the code's order
  - for each failure, that nothing changed
  - for success, the complete new state
- **uint256 arithmetic** (`evm.dfy`). The uint256 `+`, `-` and `*` wrap
  modulo 2^256. `Evm.WrappingAdd`, `Evm.WrappingSub` and `Evm.WrappingMul`
  spell this out. Division rounds down and cannot wrap.
- **Identifiers** (`identity.dfy`). An id is keccak-256 of the counter
  written as 32 big-endian bytes. Keccak-256 is modelled as an injective
  constructor `Keccak256(preimage)`, i.e. a hash without collisions. The
  big-endian encoding is modelled and proved reversible, so distinct counter
  values give distinct ids.
- **Invariants.** Each class has an invariant `Valid()`, which holds from
  deployment on: the `constructor` models deployment followed by the one
  intended `init` call.
  - In both contracts, the records are stored exactly under the ids of the
    counter values issued so far, so the counter equals the number of
    records.
  - In the cost splitter, every agreement is stored under its own id, with
    a positive count and total and the floor share, and `completed` holds
    exactly when `collected >= total`. `has_paid` and `contributions` have
    the same keys, each recorded contribution covers the share, and
    `collected` equals the sum of the agreement's recorded contributions
    modulo 2^256. That the creation-time fields never change afterwards is
    stated by `Contribute`'s postcondition, which rewrites only `collected`
    and `completed`.
  - In the router, the fee rate is also at most 100%.
- **Conservation.** In the router, `Holdings()` is the sum of all balances
  plus the amounts of the payments not yet completed:
  - `Deposit` raises it by the amount.
  - `Withdraw` lowers it by the amount.
  - `InitiatePayment` leaves it unchanged.
  - `CompletePayment` lowers it by exactly the fee.

  Together these give deposited = withdrawn + balances + escrow + fees,
  but only under the conditions the individual contracts carry: from
  deployment, while `init` is not called again (`InitiatePayment` keeps the
  holdings only in a valid state), the rate is at most 100% and no balance
  wraps past 2^256. A second `init` breaks it: the next payment can
  overwrite an open one and its escrow is lost (see Findings).
- **Scenarios.** Client methods at the end of each contract module run the
  contract through concrete cases and state the outcome. These include the
  three-way split of 100 and the 5% fee on a payment of 100.

Two points of the code are modelled exactly as written:
- **`init`.** It reads as one-time set-up, but both contracts expose it
  publicly and unguarded, so `Init` is modelled as written (see Findings).
- **`collected`.** It is a wrapping uint256 sum, so the model relates it to
  the total contributed modulo 2^256.

## Model

| member | source | states |
|---|---|---|
| `Evm.WrappingAdd` | cost-splitter/src/lib.rs:134 | uint256 `+`: the exact sum when it is below 2^256, otherwise the sum less 2^256 |
| `Evm.WrappingSub` | payment-router/src/lib.rs:136 | uint256 `-`: the exact difference when no borrow occurs, otherwise 2^256 less the shortfall |
| `Evm.WrappingMul` | payment-router/src/lib.rs:135 | uint256 `*`: the exact product when it is below 2^256, and never more than the product |
| `IdentityGenerator.HashId` | cost-splitter/src/lib.rs:185-192 | an id is the digest of a 32-byte preimage |
| `IdentityGenerator.FromToBigEndian` | cost-splitter/src/lib.rs:189 | reading back the big-endian encoding of a value that fits the width gives the value |
| `IdentityGenerator.ToFromBigEndian` | payment-router/src/lib.rs:188 | every byte string is the big-endian encoding of the number it denotes |
| `IdentityGenerator.CounterOf` | payment-router/src/lib.rs:184-191 | a digest of a 32-byte preimage comes from the counter value it returns, which hashes back to that digest; any other digest comes from none |
| `IdentityGenerator.HashIdInjective` | cost-splitter/src/lib.rs:185-192 | the counter is recovered from its id |
| `IdentityGenerator.HashIdDistinct` | cost-splitter/src/lib.rs:67-68 | distinct counter values give distinct ids |
| `IdentityGenerator.IdsBelowNext` | cost-splitter/src/lib.rs:82 | the current counter's id is new, and advancing the counter adds exactly that id to those issued |
| `IdentityGenerator.IdsBelowCount` | payment-router/src/lib.rs:110 | after n increments, n distinct ids have been issued |
| `MapSums.SumUpdate` | payment-router/src/lib.rs:81 | writing v at a key changes the total of a map by v less the value it replaces |
| `CostSplitter.Share` | cost-splitter/src/lib.rs:70 | the share is the floor of total / count: count shares never exceed the total, and count shares of one more would |
| `CostSplitter.CostSplitter.constructor` | cost-splitter/src/lib.rs:50-54 | deployment with `init` called once: empty storage, counter zero, invariant established |
| `CostSplitter.CostSplitter.Init` | cost-splitter/src/lib.rs:50-54 | `init` as written: sets the counter to zero whatever it was and touches no record |
| `CostSplitter.CostSplitter.StoredAgreement` | cost-splitter/src/lib.rs:100 | the stored record, or the all-zero record for an id never written |
| `CostSplitter.CostSplitter.GetAgreement` | cost-splitter/src/lib.rs:157-167 | total, payee, collected, completed, count and share of the stored record; all zero for an unknown id |
| `CostSplitter.CostSplitter.HasParticipantPaid` | cost-splitter/src/lib.rs:170-172 | true exactly when a true flag is stored for the pair |
| `CostSplitter.CostSplitter.GetContribution` | cost-splitter/src/lib.rs:175-177 | the recorded amount, zero for a pair never written |
| `CostSplitter.CostSplitter.GetAgreementCount` | cost-splitter/src/lib.rs:180-182 | the counter, which in a valid state equals the number of stored agreements |
| `CostSplitter.CostSplitter.CreateAgreement` | cost-splitter/src/lib.rs:57-92 | a zero count or total gives `InvalidParameters` and changes nothing, the counter included. Otherwise the result is the id of the pre-increment counter, and a record with the given count, total, payee and time, collected 0, not completed and the floor share is stored under it. The counter advances by one and nothing else changes. In a valid state the id is not yet in use and the invariant is kept |
| `CostSplitter.CostSplitter.Contribute` | cost-splitter/src/lib.rs:96-154 | guards in order: zero payee gives `AgreementNotFound`, completed gives `AgreementAlreadyCompleted`, already paid gives `AlreadyPaid`, below the share gives `InsufficientContribution`; each failure changes nothing. On success, only the caller's flag, the caller's amount and this agreement's `collected` (uint256 sum) and `completed` (collected >= total) change. A payout of the whole `collected` to the payee is returned when that reaches the total. A failed payout gives `TransferFailed` with every write undone. The invariant is kept |
| `CostSplitter.CreateKeepsConsistent` | cost-splitter/src/lib.rs:67-82 | the new record goes under an unused id, and storage keeps its shape with the counter advanced |
| `CostSplitter.CreateKeepsCollected` | cost-splitter/src/lib.rs:77 | a new agreement has no recorded contributions, matching its zero `collected` |
| `CostSplitter.ContributeKeepsConsistent` | cost-splitter/src/lib.rs:131-144 | a first contribution of at least the share to a stored, open agreement keeps the storage shape, and the pair had no record before |
| `CostSplitter.ContributeKeepsCollected` | cost-splitter/src/lib.rs:131-135 | after the contribution, every agreement's `collected` still equals the sum of its recorded contributions modulo 2^256 |
| `CostSplitter.RecordContribution` | cost-splitter/src/lib.rs:132 | recording a first contribution adds it to its own agreement's sum and to no other |
| `CostSplitter.ThreeWaySplit` | cost-splitter/src/lib.rs:143-150 | split of 100 among three: share 33; three payments of 34; the third completes and pays 102 to the payee |
| `CostSplitter.CompletedAgreementIsClosed` | cost-splitter/src/lib.rs:106-108 | an overpayment of 150 towards 100 is paid out in full, and a later payer gets `AgreementAlreadyCompleted` |
| `CostSplitter.RepeatedCreationGivesDistinctIds` | cost-splitter/src/lib.rs:63-82 | the same creation twice gives two distinct ids; a rejected creation does not advance the counter |
| `CostSplitter.ShortAndRepeatedContributions` | cost-splitter/src/lib.rs:113-120 | a payment below the share is refused, and a second payment by the same participant gets `AlreadyPaid` |
| `CostSplitter.ZeroPayeeIsNotFound` | cost-splitter/src/lib.rs:102-104 | an agreement created with the zero payee is reported as not found |
| `CostSplitter.FailedPayoutReverts` | cost-splitter/src/lib.rs:144-145 | a completing payment whose payout fails leaves the payer unpaid, nothing recorded or collected, and the agreement open |
| `CostSplitter.ReinitOverwritesAgreement` | cost-splitter/src/lib.rs:50-54 | after a second `init`, the next creation reuses an open agreement's id and replaces its record, while the earlier payment stays recorded |
| `PaymentRouter.Fee` | payment-router/src/lib.rs:135 | at a rate of at most 100% the fee never exceeds the amount; without wrap it is the floor of amount × rate / 10000 |
| `PaymentRouter.HeldUpdate` | payment-router/src/lib.rs:140-141 | writing a balance and a payment record changes the holdings by the new values less the old |
| `PaymentRouter.InitiateKeepsIssued` | payment-router/src/lib.rs:99-110 | a payment stored under the current counter's id uses a fresh id, and keeps ids equal to those issued once the counter advances |
| `PaymentRouter.PaymentRouter.constructor` | payment-router/src/lib.rs:48-53 | deployment with `init` called once by the deployer at a rate of at most 100%: empty ledger, zero holdings, invariant established |
| `PaymentRouter.PaymentRouter.Init` | payment-router/src/lib.rs:48-53 | `init` as written: the caller becomes owner, the rate is replaced, the counter becomes zero; balances, agents and payments are untouched |
| `PaymentRouter.PaymentRouter.GetBalance` | payment-router/src/lib.rs:161-163 | the stored balance, zero for an account never written |
| `PaymentRouter.PaymentRouter.IsAuthorized` | payment-router/src/lib.rs:164-166 | true exactly when a true flag is stored for the account |
| `PaymentRouter.PaymentRouter.StoredPayment` | payment-router/src/lib.rs:123 | the stored record, or the all-zero record for an id never written |
| `PaymentRouter.PaymentRouter.GetPayment` | payment-router/src/lib.rs:167-176 | payer, payee, amount, time and completed of the stored record; all zero for an unknown id |
| `PaymentRouter.PaymentRouter.GetPaymentCount` | payment-router/src/lib.rs:177-179 | the counter, which in a valid state equals the number of stored payments |
| `PaymentRouter.PaymentRouter.GetFeePercentage` | payment-router/src/lib.rs:180-182 | the rate, at most 100% in a valid state |
| `PaymentRouter.PaymentRouter.AuthorizeAgent` | payment-router/src/lib.rs:55-62 | a caller other than the owner gets `Unauthorized` and nothing changes; otherwise the agent's flag becomes true and nothing else changes, so repeating it changes nothing more |
| `PaymentRouter.PaymentRouter.RevokeAgent` | payment-router/src/lib.rs:64-71 | a caller other than the owner gets `Unauthorized` and nothing changes; otherwise the agent's flag becomes false and nothing else changes |
| `PaymentRouter.PaymentRouter.Deposit` | payment-router/src/lib.rs:74-84 | zero value gives `InvalidAmount` and changes nothing. Otherwise only the caller's balance changes, by the uint256 sum, and the holdings rise by the amount when the sum does not wrap |
| `PaymentRouter.PaymentRouter.InitiatePayment` | payment-router/src/lib.rs:86-119 | a caller that is not an agent gets `Unauthorized`, then a balance below the amount gives `InsufficientBalance`; neither changes anything. On success the payer is debited exactly the amount, an open payment is stored under the pre-increment counter's id, and the counter advances. In a valid state the id is new, the holdings are unchanged and the invariant is kept |
| `PaymentRouter.PaymentRouter.CompletePayment` | payment-router/src/lib.rs:121-145 | guards in order: zero payer gives `PaymentNotFound`, completed gives `PaymentAlreadyCompleted`, a caller other than the payee gives `Unauthorized`; each changes nothing. On success the payee is credited the amount less the fee at the current rate and the payment is marked completed, nothing else changing. At a rate of at most 100% without wrap, the holdings fall by exactly the fee |
| `PaymentRouter.PaymentRouter.Withdraw` | payment-router/src/lib.rs:147-158 | a balance below the amount gives `InsufficientBalance` and changes nothing. A failed transfer gives `TransferFailed` with the debit undone. Otherwise only the caller's balance changes, falling by the amount, as do the holdings |
| `PaymentRouter.OverdraftAndFailedWithdrawal` | payment-router/src/lib.rs:151-155 | deposit 100, withdraw 150: refused; withdraw 100 with a failing transfer: refused; the balance is still 100 |
| `PaymentRouter.PaymentWithFee` | payment-router/src/lib.rs:135-141 | 100 paid at 5%: the payer keeps 900 of 1000, the payee gets 95, and a second completion gets `PaymentAlreadyCompleted` without crediting again |
| `PaymentRouter.AgentsAreOwnerControlled` | payment-router/src/lib.rs:92-94 | a stranger cannot authorise itself or pay, a revoked agent cannot pay, and no payment is recorded |
| `PaymentRouter.ReinitSeizesOwnership` | payment-router/src/lib.rs:48-53 | after anyone calls `init` again, that caller can authorise agents and the deployer cannot |
| `PaymentRouter.ReinitOverwritesPayment` | payment-router/src/lib.rs:51 | after a second `init`, the next payment reuses an open payment's id; the escrowed 100 is lost and the payee can no longer collect |
| `PaymentRouter.OverRateWrapsPayeeCredit` | payment-router/src/lib.rs:136 | at a rate of 200%, completing a payment of 100 credits the payee 2^256 − 100 |

## Left out

- Events (`evm::log`) are observations only and are not modelled.
- ABI encoding of error values (`abi_encode`) is not modelled. Errors are a
  plain datatype carrying the contract's error names.
- The storage layout (`sol_storage!`) is replaced by Dafny maps. A storage
  slot never written reads as zero.
- keccak-256 is idealised as an injective constructor. Collisions are not
  modelled.
- `msg::sender`, `msg::value` and `block::timestamp` are method parameters.
- `transfer_eth` is modelled only as a success flag, whose failure reverts
  the call.
- Reentrancy is not modelled. The platform serialises calls, so each
  method is one atomic step.
- CostSplitter's `payment_router` field is written by `init` and read
  nowhere, so it is not modelled, and `Init` takes no argument.
- PaymentRouter.PaymentRouter.Deposit: the rise in holdings is stated only
  when the caller's balance does not wrap past 2^256. A wrapped balance
  loses value.
- PaymentRouter.PaymentRouter.CompletePayment: the fall in holdings by the
  fee is stated only at a rate of at most 100% and when the payee's balance
  plus the amount less the fee stays below 2^256, i.e. when the credit does
  not wrap.
- CostSplitter.CostSplitter.CreateAgreement: keeping the invariant is
  stated only while the counter is below 2^256 − 1. At the last value the
  counter wraps to 0 and ids repeat.
- PaymentRouter.PaymentRouter.InitiatePayment: keeping the invariant is
  stated only while the counter is below 2^256 − 1, for the same reason.
- PaymentRouter.Fee: the exact floor of amount × rate / 10000 is stated only
  when the product is below 2^256. A wrapped product gives a smaller fee.

## Findings

| source | as written | input that shows it | evidently intended | confidence | as-written member | corrected member |
|---|---|---|---|---|---|---|
| cost-splitter/src/lib.rs:50-54 | `init` is public and unguarded; calling it again sets `agreement_count` back to 0 | create(2, 100, P); alice pays 50; `init`; create(2, 100, Q): the second id equals the first, the record is replaced with nothing collected, alice's 50 stays recorded and alice is refused with `AlreadyPaid` | `init` runs exactly once, at deployment | not executed | `CostSplitter.ReinitOverwritesAgreement` | `CostSplitter.CostSplitter.constructor` |
| payment-router/src/lib.rs:48-49 | any caller may call `init` again and becomes the owner | deploy by O; `init` by X: X's `authorize_agent` succeeds and O's fails with `Unauthorized` | only the deployer is owner, set once | not executed | `PaymentRouter.ReinitSeizesOwnership` | `PaymentRouter.PaymentRouter.constructor` |
| payment-router/src/lib.rs:51 | calling `init` again sets `payment_count` back to 0, so the next payment overwrites an open one | an agent escrows 100 for P; `init` by X; X pays 0 to itself: same id, the record now shows X, X, 0; P's completion fails with `Unauthorized` and the 100 is gone | ids are never reused; escrow is released only by completion | not executed | `PaymentRouter.ReinitOverwritesPayment` | `PaymentRouter.PaymentRouter.constructor` |
| payment-router/src/lib.rs:50 | the fee rate is not bounded, and at line 136 `amount - fee` wraps when the rate exceeds 10000 | `init` at 20000; an agent pays 100 to P; P completes: the fee is 200 and P is credited 2^256 − 100 | a rate of at most 10000 basis points (100%), so that `fee <= amount` | not executed | `PaymentRouter.OverRateWrapsPayeeCredit` | `PaymentRouter.PaymentRouter.constructor` |

The corrected members model deployment with `init` called once. In the
router, that call also bounds the rate by 100%. From there the invariant
`Valid()` holds. Every operation except `Init` preserves it; `CreateAgreement` and
`InitiatePayment` do so while the counter is below 2^256 − 1. Under it:
- new ids are unused, so no record is overwritten;
- the counter equals the number of records;
- the fee never exceeds the amount.

The contract's scenarios are built on these constructors.
