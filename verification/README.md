# The TFT bridge

A Dafny model of the bridge that moves TFT tokens between Stellar and TFChain, with proofs of what
the bridge is for, or of exactly when it falls short: tokens are conserved, every deposit is minted at
most once, every withdrawal keeps its payload until it is paid, signatures are collected in orderly
rounds, and over any schedule of crashes and restarts the daemon's cursor passes no deposit that the
daemon has not minted, refunded or had minted, except the ones that an answer from Horizon made it overlook.

## What is modelled

**The pallet** (`pallet-tft-bridge/src/lib.rs`) comes twice. `Pallet.TftBridge` is the pallet as it
runs: a class whose fields are the storage items, the ledger and the event log, and whose methods
update them in the source's order. `PalletSpec.Next` is the same transition as one pure function on
the storage. `Dispatch` and `FinishBlock` prove that every extrinsic and every finalised block of the
class is that transition and keeps the invariant `PalletInvariant.Inv`; all theorems about runs are
inductions over `PalletSpec.Run`, so they hold of the class.

| module | content |
|---|---|
| `Wrappers`, `Collections` | options, results; sums over maps, counting in sequences, iteration orders |
| `ValidatorList`, `Ledgers`, `PalletTypes` | the sorted validator list, the balances, the storage records and events |
| `Signing` | one signature round, shared by burns and refunds |
| `PalletSpec`, `PalletEffects`, `PalletEvents`, `PalletInvariant` | the transition function, its frames, its events, its invariant |
| `Admission` | which calls are accepted, how the others are refused, what the accepted ones change |
| `Conservation`, `Accounts` | the sum of all tokens over a run; who is credited and debited |
| `MintRuns`, `BurnRuns`, `RefundRuns` | what runs do to one mint, one burn, one refund |
| `Majority` | groups that are large enough to act have a member in common |
| `SignatureRounds`, `ExpirySchedule` | rounds and expiries inside runs of the whole chain |
| `Pallet` | the class, proved to be the transition function |
| `Memo`, `MintBack` | deposit memos; mint ids of withdrawals that cannot be paid, and what becomes of them |
| `Persistency`, `StellarWallet`, `SubstrateClient`, `Bridge` | the daemon, file by file |
| `Agreement` | when the signatures of a Ready round are good for its payment |

**The daemon** (`tfchain_bridge/pkg`) is a layer of classes over the pallet. The network, Horizon and
the disk are oracles: each call takes a record with their answers, so a theorem holds for all answers.
The chain is a `PalletSpec` state that only pallet transitions change. Between two calls of the daemon
other accounts and other validators may take any steps (`SubstrateClient.Client.Interfere`), a submitted
call may be lost, and it may take effect and yet be reported as failed. A report of success means that
the call was accepted, and answers to queries are true when they are given. Ghost logs record what the
daemon itself did: the calls it sent, those of them the chain accepted, the payments Stellar accepted, and
the answers it received about deposits. What the daemon claims to have done is stated with these logs.

## Assumptions

- Dispatch is transactional: a failing extrinsic leaves the storage as it was (the default of the
  FRAME branch pinned at `pallet-tft-bridge/Cargo.toml:21`). It matters in one place, the vote written
  at `lib.rs:636` before a failure at `lib.rs:446`.
- The balance type holds every amount. The conversion of a swapped amount to 64 bits, which saturates,
  is explicit (`PalletSpec.SaturateU64`), and so is what it loses. The counters do not overflow.
- `T::Burn` drops the imbalance, as in `pallet-tft-bridge/src/mock.rs:96`.
- The genesis validators are strictly sorted where a theorem starts from genesis: `lib.rs:239-241` stores
  them as given, and `Pallet.TftBridge.constructor` proves the invariant holds exactly if they are.
- The ledger has free and frozen balances. A deposit below the existential deposit to an empty account
  disappears, and conservation accounts for it. Other pallets may transfer and freeze balances.
- A `Finalize` step carries the order in which the two storage maps are iterated. An order that does not
  list exactly the pending entries is no iteration: such a step changes nothing.
- Stellar address validity is an uninterpreted predicate; the event log keeps all events since genesis.
- Paging tokens are numbers, and the cursors `""` and `"0"` are both 0. Tokens ascend along the list of
  transactions. A transaction's effects and operations are part of `Bridge.StellarTx`: they are what they
  are on Stellar. A `Bridge.Delivery` is an answer about one transaction, named by its hash, and says only
  which requests for it succeed. Transaction hashes differ.
- A request for effects or operations returns the first page of the list, of a size fixed by Horizon
  (`StellarWallet.Wallet.pageSize`): the code sets no limit and asks for no further page
  (`stellar.go:460-463`, `477-480`).
- A file is written completely or not at all. A crash is an end of the schedule at any point between two
  effects: `Life` and `Delivery` hold as much of the future as the process lives to see.

## Findings

- `specs/bridge.md:57` and `specs/bridge.md:63` ask for more than n/2 + 1 votes or signatures. The code
  acts at n/2 + 1 (`lib.rs:640`, `746`, `822`), and the model follows the code.
- The code after the key check of a burn proposal (`lib.rs:692-702`) cannot be reached:
  `Pallet.TftBridge.ProposeStellarBurnOrAddSig` proves it, and `BurnTransactionProposed` is never emitted.
- A deposit can be overlooked, and a later transaction then saves the cursor beyond it. `Bridge.Daemon.Take`
  proves when: exactly if no announcing effect on the first page of effects got its operations fetched
  (`stellar.go:413-416` goes on after a failed fetch), or the first page of operations holds something other
  than payments (`stellar.go:420-422`) or no payment to the bridge. `Bridge.DepositIsLost` is a run that loses
  a deposit to one failed request, `Bridge.Daemon.SomeLieBeyondPage` gives deposits that are overlooked however
  well everything answers, and `Bridge.Daemon.Operate` proves that there is no other way: if no answer misses
  a deposit, the saved cursor passes none that is not tended.
- A deposit is counted in full exactly if nothing is paid beyond the first page of its operations
  (`Bridge.Daemon.SendersInFullIff`).
- Tokens are conserved from genesis exactly if no step of the run loses any (`Conservation.GenesisRunConserves`),
  and a step loses tokens exactly if a deposit is too small to open its account or a swap exceeds 64 bits
  (`Conservation.LossIff`). `Conservation.OversizedSwapLosesTokens` gives a swap that loses five. That needs
  a balance type wider than 64 bits, which the pallet leaves open (`lib.rs:79`); the test runtime has u64 (`mock.rs:80`).
- A memo round-trips exactly when its id is below 2^32: larger ids wrap silently (`Memo.MemoRoundTripIff`).
- A first proposal at or below the deposit fee is never minted while the fee stays, under two validators or
  more: its last vote is refused again and again (`MintRuns.SmallMintIsStuck`). Under a quorum of one, a
  deposit is minted exactly if some validator's call for it exceeds the fee (`MintRuns.SingleVoteMintsIff`).
  The daemon checks the fee for deposits (`mint.go:66-69`) but not when it mints a withdrawal back.
- Signed Stellar transactions have consecutive sequence numbers exactly as long as no request completes
  after one that took a number and failed (`StellarWallet.SignedNumbersConsecutive`). A refund whose hash
  is not hex makes a gap (`StellarWallet.BadHashLeavesGap`).
- The asset filter of the deposit stream skips an effect only if both code and issuer differ
  (`stellar.go:409`). So an asset of the same name by another issuer is taken for TFT
  (`StellarWallet.Wallet.CounterfeitAnnounces`), and credits in other assets yield events exactly if one
  matches in just one of the two and its operations are fetched (`StellarWallet.Wallet.ForeignYieldsIff`).
- A withdrawal that was minted back can still be paid. The daemon skips it without closing its burn
  (`withdraw.go:96-99`, `bridge.go:108`). While it stays open and no round expires, it becomes Ready exactly
  if a quorum of keys signs (`MintBack.MintedBackAndReadyIff`, `MintBack.MintedBackAndReady`).
- A burn can be closed unpaid. `Bridge.Daemon.HandleBatches` proves the three ways in which the daemon closes a
  burn: it has paid it, it has proposed to mint it back, or it gives it up, expired and failing the account check
  (`withdraw.go:41-44`), and then `Bridge.Daemon.HandleWithdrawExpired` proves that nothing else is done for it. The
  second way closes the burn as soon as one proposal is accepted (`withdraw.go:102-108`). Whether it is then minted
  back is decided by the calls of all validators (`MintBack.MintedBackIff`): under two validators or more, exactly
  if they make a quorum of calls and the first exceeds the deposit fee, so a withdrawal of no more than the fee
  never is. A daemon that comes later finds the burn closed and proposes nothing (`withdraw.go:17-25`, `bridge.go:108`,
  `Bridge.Daemon.HandleWithdrawCreated`). `MintBack.ClosedUnpaid` and `MintBack.ClosedBeforeMintBack` are runs in
  which a burn ends closed, unsigned and not minted back.
- A deposit made by a path payment is credited but never noticed, as it has no payment operation
  (`stellar.go:420-422`, `Bridge.Daemon.PathPaymentIsMissed`).
- Every signer signs under a number of its own, and the pallet keeps only the last one (`lib.rs:735`, `809`). So a
  burn that is Ready is paid with valid signatures exactly if the numbers of the signatures used are all the last
  signer's (`Agreement.BurnPayableIffAgreed`, `Agreement.BurnPayableInRuns`); if not, that stays so until the burn expires
  (`Agreement.FullRoundStays`). `Agreement.ReadyUnderTwoNumbers` is such a run.

## Model

| member | source | states |
|---|---|---|
| ValidatorList.BinarySearch | pallet-tft-bridge/src/lib.rs:883-889 | bisection finds a member's index, or the place where a stranger belongs: all smaller accounts before it, all larger after |
| ValidatorList.ListRefinesSet | pallet-tft-bridge/src/lib.rs:855-881 | insertion and removal on the sorted list are insertion and deletion on the set of validators, and keep it strictly sorted |
| ValidatorList.AddRemoveRoundTrip | pallet-tft-bridge/src/lib.rs:855-881 | removing a validator just added, or adding back one just removed, restores the identical list |
| ValidatorList.SortedListsAreSets | pallet-tft-bridge/src/lib.rs:883-889 | two strictly sorted lists with the same members are the same list |
| ValidatorList.InsertAtIndex | pallet-tft-bridge/src/lib.rs:855-868 | inserting at the index of a failed search is sorted insertion |
| ValidatorList.RemoveAtIndex | pallet-tft-bridge/src/lib.rs:870-881 | deleting at the index of a successful search removes exactly that account |
| Ledgers.DepositIssuance | pallet-tft-bridge/src/lib.rs:454-460 | a deposit raises the total issuance by its value, unless it is too small to open the account |
| Ledgers.WithdrawIssuance | pallet-tft-bridge/src/lib.rs:496-503 | a withdrawal lowers the total issuance by its value |
| Ledgers.DepositArrivesIff | pallet-tft-bridge/src/lib.rs:454-460 | a deposit arrives in full exactly if the account has a balance or the deposit is enough to open it, and otherwise leaves no trace |
| Accounts.MintCredits | pallet-tft-bridge/src/lib.rs:441-474 | of all accounts, the completing call credits the recorded target with amount minus fee and the fee account with the fee, nobody else; every other vote credits nobody |
| Accounts.SwapDebits | pallet-tft-bridge/src/lib.rs:476-508 | a swap takes the whole amount out of the source's usable balance and credits the fee account only |
| Signing.RoundStep | pallet-tft-bridge/src/lib.rs:705-752 | submission by submission, the acceptance rule computes the first quorum submissions that are new in key and signature |
| Signing.FirstOccurrencesAreDistinct | pallet-tft-bridge/src/lib.rs:720-730 | signatures kept differ pairwise in key and in content and were all submitted |
| Signing.RejectedWereSeen | pallet-tft-bridge/src/lib.rs:720-730 | whatever is turned away repeats a key or a signature that was kept |
| Signing.RoundCompletesIffEnoughKeys | pallet-tft-bridge/src/lib.rs:705-752 | when keys and signatures pair one to one, a round completes if and only if at least quorum different keys were submitted, in any order with any repetitions |
| PalletEffects.ProposeMintEffect | pallet-tft-bridge/src/lib.rs:586-649 | what a validator's call does to a mint not yet executed: counted below the quorum, refused for the fee, or minted at the quorum |
| PalletEffects.NextFrame | pallet-tft-bridge/src/lib.rs:300-436 | every transition leaves alone the mints, burns, refunds, settings, ledger and block that are not its business, and the event log only grows |
| Admission.AcceptedIff | pallet-tft-bridge/src/lib.rs:300-436 | each of the eleven calls, from any origin in any state, is accepted if and only if its own condition holds: the restricted origin for settings and validators, a signed validator with a pending, unexecuted entry and a fitting signature for the rest, and for a swap a signed user, a valid key, an amount above the fee and an unfrozen balance that covers it and keeps the account alive |
| Admission.RefusedIff | pallet-tft-bridge/src/lib.rs:855-889 | error by error, the calls and states for which it is the answer |
| Admission.AcceptedChanges | pallet-tft-bridge/src/lib.rs:300-436 | the whole new storage after each accepted call: a setter stores its value and leaves the rest, the validator set grows or shrinks by one, a swap stores and announces one burn of the amount cut to 64 bits less the fee, a vote counts or executes, a signature joins and may announce Ready, a finished burn or refund moves unchanged; with the exact events in order |
| PalletEvents.MintEvents | pallet-tft-bridge/src/lib.rs:586-649 | an accepted call emits Proposed only for a new id, then Voted, then Completed with the executed record exactly if the mint completes |
| PalletEvents.NextEmits | pallet-tft-bridge/src/lib.rs:250-436 | every event a step emits is about the entry it names and carries its recorded content: the completed mint with one vote more, the created burn with the next id, the processed and expired records |
| PalletEvents.EndBlockCounts | pallet-tft-bridge/src/lib.rs:253-295 | the end of a block announces exactly the due entries, once each, in any iteration order |
| PalletInvariant.NextKeepsInv | pallet-tft-bridge/src/lib.rs:253-436 | every extrinsic, block end and foreign transfer keeps: sorted validators, the burn id partition, disjoint mints, pairwise distinct signatures, sequence number zero without signatures, blocks not in the future, a vote on every pending mint |
| PalletInvariant.RunKeepsInv | pallet-tft-bridge/src/lib.rs:253-436 | the invariant holds in every reachable state |
| PalletInvariant.AgesAreNatural | pallet-tft-bridge/src/lib.rs:261 | in no run from genesis was a pending entry stored or renewed in a later block, so the age never underflows |
| Conservation.NextBalances | pallet-tft-bridge/src/lib.rs:441-535 | one transition of any kind balances issuance, burns, mints, forgone fees and losses |
| Conservation.RunConserves | pallet-tft-bridge/src/lib.rs:441-535 | over every run: issuance + all burns + forgone fees + losses + mints before equals issuance + all burns before + mints after, with fees, fee account and validators changing freely |
| Conservation.GenesisRunConserves | pallet-tft-bridge/src/lib.rs:441-535 | from genesis: issuance + pending and executed burns + fees charged while no fee account was set = genesis issuance + executed mints, if and only if no step loses tokens |
| Conservation.NothingLost | pallet-tft-bridge/src/lib.rs:441-535 | nothing is ever lost when deposits of any size open an account and swaps fit 64 bits |
| Conservation.LossIff | pallet-tft-bridge/src/lib.rs:454-512 | a step loses tokens if and only if it is an accepted swap beyond 64 bits, or makes a deposit too small for an empty account |
| Conservation.NothingLostIff | pallet-tft-bridge/src/lib.rs:441-535 | a run loses nothing if and only if none of its steps does |
| Conservation.MintConservesIff | pallet-tft-bridge/src/lib.rs:451-460 | a call on a mint conserves tokens if and only if neither the credited amount nor the fee is swallowed |
| Conservation.SwapConservesIff | pallet-tft-bridge/src/lib.rs:489-512 | a swap conserves tokens if and only if it fits 64 bits and its fee reaches the fee account |
| Conservation.OversizedSwapLosesTokens | pallet-tft-bridge/src/lib.rs:515 | with a balance type wider than 64 bits, a state and a swap of 2^64 + 4 units that loses five units to saturation |
| MintRuns.MintStep | pallet-tft-bridge/src/lib.rs:586-649 | only an accepted call for an id changes its mint, by exactly one vote or by executing it |
| MintRuns.MintAcceptedIff | pallet-tft-bridge/src/lib.rs:586-649 | a call is accepted if and only if the caller is a validator, the id is not executed, and at the quorum the recorded amount exceeds the fee |
| MintRuns.MintKeepsFirstTerms | pallet-tft-bridge/src/lib.rs:593-622 | over any run, target and amount of a mint are those of the first accepted call for its id, and its votes are the number of accepted calls |
| MintRuns.ExecutedMintsAreFinal | pallet-tft-bridge/src/lib.rs:594-597 | an executed mint never changes and never becomes pending again |
| MintRuns.KnownMintsStayKnown | pallet-tft-bridge/src/lib.rs:586-649 | a proposed mint is pending or executed for ever |
| MintRuns.MintsExactlyOnce | pallet-tft-bridge/src/lib.rs:441-474 | over any run the calls for an id emit one MintCompleted if the id ends up executed and none otherwise |
| MintRuns.OneCompletionPerExecutedMint | pallet-tft-bridge/src/lib.rs:463-471 | the whole event log holds exactly as many MintCompleted events as there are executed mints |
| MintRuns.MintAtQuorum | pallet-tft-bridge/src/lib.rs:625-649 | with validators and fee fixed, a deposit above the fee is pending with one vote per validator call while twice the calls do not exceed the number n of validators, and the call that makes them more than half mints it, on the first call's terms, with n/2 + 1 votes |
| MintRuns.SmallMintIsStuck | pallet-tft-bridge/src/lib.rs:445-449 | a first proposal at or below the fee never mints and stays at n/2 votes, however many calls follow |
| MintRuns.SingleVoteMints | pallet-tft-bridge/src/lib.rs:445-449 | with a quorum of one, the first validator call above the fee mints at once on its own terms, and the calls at or below it leave nothing behind |
| MintRuns.SingleVoteMintsIff | pallet-tft-bridge/src/lib.rs:445-449 | with a quorum of one, a deposit is minted if and only if some validator's call for it exceeds the fee, and is otherwise unknown |
| MintRuns.MintedIff | pallet-tft-bridge/src/lib.rs:586-649 | with validators and fee fixed, a mint unknown before is executed if and only if twice the validators' calls for it exceed the number of validators and the first exceeds the fee, or, with fewer than two validators, some call exceeds it |
| MintRuns.QuorumOfCallersMints | pallet-tft-bridge/src/lib.rs:625-649 | once more than half of the validators have called for a deposit above the fee it is minted, exactly once, on the terms of the first call |
| Majority.ValidatorsMeet | pallet-tft-bridge/src/lib.rs:640 | any two groups of more than half of the validators have a member in common |
| Majority.MintedByCallersIff | pallet-tft-bridge/src/lib.rs:625-649 | with settings fixed and no validator voting twice for it, a mint is executed if and only if more than half of the validators called for it and the first call exceeds the fee |
| Majority.MintsShareACaller | pallet-tft-bridge/src/lib.rs:625-649 | so any two executed mints have a validator that called for both |
| Majority.ReadyBurnsShareAKey | pallet-tft-bridge/src/lib.rs:746-749 | with one key per validator, any two burns that become Ready in a run have a key that signed both |
| BurnRuns.PendingBurnStep | pallet-tft-bridge/src/lib.rs:651-777 | everything one transition can do to a pending burn: expire, take one fitting signature, be executed unchanged, or nothing |
| BurnRuns.SignatureAcceptedIff | pallet-tft-bridge/src/lib.rs:660-740 | a signature call is accepted if and only if a validator sends the recorded target and amount of a pending burn and the round has room for a new key and signature |
| BurnRuns.ExecutedBurnsAreFinal | pallet-tft-bridge/src/lib.rs:754-777 | an executed burn never changes and is never pending again |
| BurnRuns.BurnKeepsPayload | pallet-tft-bridge/src/lib.rs:510-532 | through signing, any number of expiries and execution a burn stays known and keeps target and amount |
| BurnRuns.BurnIdsArePartitioned | pallet-tft-bridge/src/lib.rs:510-532 | in every state reachable from genesis, pending and executed ids are disjoint and together exactly 1 .. the counter |
| BurnRuns.SwapRecordsPayload | pallet-tft-bridge/src/lib.rs:484-532 | a swap takes an id never used before and records the user's target and the amount minus the fee, which is positive unless the fee is 2^64 - 1 and the amount saturates |
| BurnRuns.AmountsStayPositive | pallet-tft-bridge/src/lib.rs:484-532 | with swaps of 64 bits no burn of any run has amount zero |
| RefundRuns.SigningStep | pallet-tft-bridge/src/lib.rs:537-584 | a refund call is accepted if and only if a validator sends a signature that the round of that hash, empty if absent, takes; it touches no other refund |
| RefundRuns.RefundStep | pallet-tft-bridge/src/lib.rs:537-584 | everything one transition can do to the refund of a hash; executed refunds are final |
| RefundRuns.ExecutedRefundStep | pallet-tft-bridge/src/lib.rs:830-853 | a hash becomes executed only by an accepted call that finds it pending and not yet executed |
| RefundRuns.RefundsStayKnown | pallet-tft-bridge/src/lib.rs:830-853 | a refund once created is pending or executed for ever, and executed ones never change |
| SignatureRounds.BurnRound | pallet-tft-bridge/src/lib.rs:705-752 | in a run where the burn is neither paid nor expires and validators stay, its signatures are the first n/2 + 1 new submissions of validators, in order, and Ready is emitted once, on completion |
| SignatureRounds.BurnReadyIffEnoughKeys | pallet-tft-bridge/src/lib.rs:746-749 | Ready is emitted in such a run if and only if twice the number of different keys submitted exceeds the number of validators |
| SignatureRounds.BurnReadyStep | pallet-tft-bridge/src/lib.rs:746-749 | in any state a step emits Ready for a burn exactly if it is an accepted signature that makes twice the signatures exceed the number of validators |
| SignatureRounds.BurnSignaturesAreTheLog | pallet-tft-bridge/src/lib.rs:261-273 | in every run a pending burn's signatures are exactly those accepted since its creation or last Expired event, and its sequence number is the last accepted one, or zero |
| SignatureRounds.RefundRound | pallet-tft-bridge/src/lib.rs:779-828 | the round of a refund, from before its creation or from an expiry, is the first quorum new submissions, with one Ready |
| SignatureRounds.RefundReadyIffEnoughKeys | pallet-tft-bridge/src/lib.rs:822-825 | a refund becomes Ready in such a run if and only if twice the number of different keys submitted exceeds the number of validators |
| SignatureRounds.RefundKeepsTerms | pallet-tft-bridge/src/lib.rs:548-555 | until it is executed a refund keeps the target and amount it was created with, whatever later signers send |
| SignatureRounds.RefundExecutedAtMostOnce | pallet-tft-bridge/src/lib.rs:830-853 | over any run a hash is processed once if it ends up executed and not at all otherwise |
| SignatureRounds.RefundSignaturesAreTheLog | pallet-tft-bridge/src/lib.rs:278-291 | a pending refund's signatures and sequence number are those accepted since creation or last expiry |
| ExpirySchedule.EndBlockAnnounces | pallet-tft-bridge/src/lib.rs:253-295 | each pending entry is announced once at the end of a block if its age has reached the interval, and not otherwise |
| ExpirySchedule.EndBlockIgnoresOrder | pallet-tft-bridge/src/lib.rs:253-295 | two iteration orders give the same storage and the same announcements of each entry |
| ExpirySchedule.EndBlockBoundsAges | pallet-tft-bridge/src/lib.rs:253-295 | after a block every pending entry has an age below the interval |
| ExpirySchedule.BurnExpiryClosedForm | pallet-tft-bridge/src/lib.rs:253-273 | a burn created in block c and still pending after block B has stored block c + I * ((B - c) / I) and was announced exactly (B - c) / I times, whatever was signed meanwhile |
| ExpirySchedule.RefundExpiryClosedForm | pallet-tft-bridge/src/lib.rs:275-294 | a refund created in block c and not executed by the end of block B follows the same closed form |
| Pallet.TftBridge.constructor | pallet-tft-bridge/src/lib.rs:237-249 | genesis stores what it is given, and satisfies the invariant if and only if the validators are strictly sorted |
| Pallet.TftBridge.AddValidatorAccount | pallet-tft-bridge/src/lib.rs:855-868 | fails exactly for a validator already present; otherwise the set grows by the target and the list stays sorted |
| Pallet.TftBridge.RemoveValidatorAccount | pallet-tft-bridge/src/lib.rs:870-881 | fails exactly for an account that is no validator; otherwise the set shrinks by the target and the list stays sorted |
| Pallet.TftBridge.CheckIfValidatorExists | pallet-tft-bridge/src/lib.rs:883-889 | accepts exactly the members |
| Pallet.TftBridge.MintTft | pallet-tft-bridge/src/lib.rs:441-474 | refines the pure mint: whole new storage on success, untouched on failure |
| Pallet.TftBridge.VoteStellarMintTransaction | pallet-tft-bridge/src/lib.rs:625-649 | refines the pure vote, and stays pending exactly while twice the votes do not exceed the number of validators; an unknown id changes nothing; after a failure exactly the vote is left written, for dispatch to take back |
| Pallet.TftBridge.ProposeOrVoteStellarMint | pallet-tft-bridge/src/lib.rs:586-623 | refines the pure proposal or vote, with its errors and exactly what a failure leaves written |
| Pallet.TftBridge.BurnTft | pallet-tft-bridge/src/lib.rs:476-535 | refines the pure swap, with its errors, untouched on failure |
| Pallet.TftBridge.AddStellarSigBurn | pallet-tft-bridge/src/lib.rs:705-752 | the two searches and the two writes are one step of the signature round, on the default record for an absent id; a round of n/2 + 1 is full, and Ready comes when twice the signatures exceed n |
| Pallet.TftBridge.ProposeStellarBurnOrAddSig | pallet-tft-bridge/src/lib.rs:651-703 | refines the pure signature call; the code after the second key check is dead |
| Pallet.TftBridge.SetStellarBurnExecuted | pallet-tft-bridge/src/lib.rs:754-777 | moves the unchanged record from pending to executed, or fails without a change |
| Pallet.TftBridge.AddStellarSigRefund | pallet-tft-bridge/src/lib.rs:779-828 | one step of the signature round of a refund, on the default record for an absent hash; a round of n/2 + 1 is full, and Ready comes when twice the signatures exceed n |
| Pallet.TftBridge.CreateStellarRefundOrAddSig | pallet-tft-bridge/src/lib.rs:537-584 | refines the pure creation or signature of a refund, events in the source's order, untouched on failure |
| Pallet.TftBridge.SetStellarRefundExecuted | pallet-tft-bridge/src/lib.rs:830-853 | moves the unchanged record from pending to executed, or fails without a change |
| Pallet.TftBridge.Dispatch | pallet-tft-bridge/src/lib.rs:300-436 | an extrinsic from any origin is exactly the transition `Next`, keeps the invariant, succeeds exactly if `Admission` admits it, and otherwise changes nothing and answers the error that applies |
| Pallet.TftBridge.ExpireBurns | pallet-tft-bridge/src/lib.rs:256-273 | the rewriting loop is a pointwise map over the pending burns in any iteration order |
| Pallet.TftBridge.ExpireRefunds | pallet-tft-bridge/src/lib.rs:275-294 | the rewriting loop is a pointwise map over the pending refunds in any iteration order |
| Pallet.TftBridge.OnFinalize | pallet-tft-bridge/src/lib.rs:253-295 | both maps are expired pointwise and the announcements follow the iteration orders |
| Pallet.TftBridge.FinishBlock | pallet-tft-bridge/src/lib.rs:253-295 | the end of a block is exactly the transition `Next` and keeps the invariant |
| Memo.PrintedMemo | tfchain_bridge/pkg/bridge/mint.go:100-114 | what the memo of a kind and an id of any size means: the id modulo 2^32, nothing beyond 63 bits |
| Memo.MemoRoundTripIff | tfchain_bridge/pkg/bridge/mint.go:112-143 | printing and parsing gives the destination back if and only if its id is below 2^32 |
| Memo.MemoAcceptedIff | tfchain_bridge/pkg/bridge/mint.go:100-148 | a memo selects a destination if and only if it is a known kind, one underscore and a 64-bit integer with that id as its low 32 bits |
| Memo.MemoNeedsOneUnderscore | tfchain_bridge/pkg/bridge/mint.go:101-105 | memos without exactly one underscore are rejected |
| Memo.SplitCount | tfchain_bridge/pkg/bridge/mint.go:101-102 | splitting yields one chunk more than there are underscores |
| Memo.DigitsOfDecimal | tfchain_bridge/pkg/bridge/mint.go:107 | reading a printed number gives the number back |
| Memo.DigitsIff | tfchain_bridge/pkg/bridge/mint.go:107 | exactly the non-empty strings of digits have a value |
| Memo.LeadingZero | tfchain_bridge/pkg/bridge/mint.go:107 | leading zeros do not change a value |
| Memo.AtoiIff | tfchain_bridge/pkg/bridge/mint.go:107 | exactly the numerals of 64-bit integers are read, with a sign or none and any leading zeros |
| Memo.ResolveIff | tfchain_bridge/pkg/bridge/mint.go:112-148 | a memo is resolved to an account if and only if it is twin_ or entity_ and the number of one registered with that account, or farm_ or node_ and the number of one whose registered twin has that account, numbers taken modulo 2^32 |
| Memo.RefundMintIdsDiffer | tfchain_bridge/pkg/bridge/withdraw.go:87 | different burns have different mint-back ids |
| Memo.RefundMintIdIsNoHash | tfchain_bridge/pkg/bridge/withdraw.go:87 | a mint-back id is refund- and the number of the burn, and never a Stellar transaction hash |
| MintBack.MintedBackAtMostOnce | tfchain_bridge/pkg/bridge/withdraw.go:85-109 | over any run a withdrawal is minted back at most once, and no call for it serves another withdrawal |
| MintBack.MintBackSparesDeposits | tfchain_bridge/pkg/bridge/withdraw.go:98-102 | minting back never changes the mint of a deposit |
| MintBack.MintedBackIff | tfchain_bridge/pkg/bridge/withdraw.go:98-108 | a withdrawal is minted back if and only if the calls for it of all validators suffice; one accepted call, after which its burn is closed, need not |
| MintBack.PayableWhileOpenIff | pallet-tft-bridge/src/lib.rs:660-740 | a validator can sign a withdrawal if and only if its burn is pending and its round is open, whatever was minted back |
| MintBack.MintedBackAndReadyIff | tfchain_bridge/pkg/bridge/withdraw.go:96-99 | over any run in which a minted-back withdrawal stays open in an unexpired round, it stays minted back, and becomes Ready to be paid as well if and only if a quorum of keys signs |
| MintBack.ClosedUnpaid | tfchain_bridge/pkg/bridge/withdraw.go:40-43 | a run after which a burn is closed with no signature and nothing minted |
| MintBack.ClosedBeforeMintBack | tfchain_bridge/pkg/bridge/withdraw.go:98-108 | a run after which a burn is closed with no signature while its mint back hangs at one vote of two |
| MintBack.MintedBackAndReady | tfchain_bridge/pkg/bridge/withdraw.go:96-99 | a run in which a withdrawal is minted back and becomes Ready to be paid as well |
| Persistency.ChainPersistency.GetHeight | tfchain_bridge/pkg/persistency.go:43-58 | a missing file reads as the zero record, an unreadable one is an error |
| Persistency.ChainPersistency.SaveStellarCursor | tfchain_bridge/pkg/persistency.go:33-41 | the cursor is replaced and the height kept, or the file is untouched |
| Persistency.ChainPersistency.SaveHeight | tfchain_bridge/pkg/persistency.go:23-31 | the height is replaced and the cursor kept, or the file is untouched |
| StellarWallet.AggregateStep | tfchain_bridge/pkg/stellar/stellar.go:421-441 | one more operation keeps the map the exact aggregation per sender |
| StellarWallet.AggregateTotal | tfchain_bridge/pkg/stellar/stellar.go:419-441 | the entries of an aggregated list add up to all parseable payments to the bridge account in it, and the map is unique |
| StellarWallet.CollectedMore | tfchain_bridge/pkg/stellar/stellar.go:419-441 | one more operation changes the sums only if it is a parseable payment to the bridge account, and then only its sender's |
| StellarWallet.CountedInFullIff | tfchain_bridge/pkg/stellar/stellar.go:471-487 | what the first page of operations shows adds up to all that was deposited if and only if nothing is paid beyond it |
| StellarWallet.SignedNumbersAscend | tfchain_bridge/pkg/stellar/stellar.go:229-233 | transactions signed in a series of requests never share a sequence number |
| StellarWallet.SignedNumbersConsecutive | tfchain_bridge/pkg/stellar/stellar.go:229-233 | they are consecutive from one above the start if and only if no request completes after one that took a number and failed |
| StellarWallet.BadHashLeavesGap | tfchain_bridge/pkg/stellar/stellar.go:152-176 | a refund request whose hash does not decode leaves a gap before the next signature |
| StellarWallet.SignedNumbersGaps | tfchain_bridge/pkg/stellar/stellar.go:204-244 | in general the missing numbers are as many as the requests that failed after taking one |
| StellarWallet.SigningSeriesCompose | tfchain_bridge/pkg/stellar/stellar.go:229-233 | calls one after another form one series: the per-call contracts add up to the series |
| StellarWallet.Wallet.ProcessTransaction | tfchain_bridge/pkg/stellar/stellar.go:384-452 | a payment-only transaction gives one event per credited effect, each carrying the complete per-sender sums, and with only foreign credits some event if and only if one half-matches; any other operation gives none |
| StellarWallet.Wallet.ForeignYieldsIff | tfchain_bridge/pkg/stellar/stellar.go:408-416 | credits in other assets yield events if and only if one of them matches exactly one of code and issuer and its operations were fetched |
| StellarWallet.Wallet.AnnouncesIff | tfchain_bridge/pkg/stellar/stellar.go:400-411 | exactly the credits of the bridge account in an asset with its code or its issuer announce a deposit |
| StellarWallet.Wallet.CounterfeitAnnounces | tfchain_bridge/pkg/stellar/stellar.go:409-411 | a credit with the right code and a foreign issuer is taken for a deposit |
| StellarWallet.Wallet.GeneratePayment | tfchain_bridge/pkg/stellar/stellar.go:204-244 | fails exactly for a zero amount or an unreachable account, and then keeps the counter; otherwise takes the next number or the given one |
| StellarWallet.Wallet.CreateAndReturnSignature | tfchain_bridge/pkg/stellar/stellar.go:72-86 | succeeds exactly if the amount is positive, the account is reached, the hash decodes and the transaction can be built; the signature is over exactly the payment asked for under the next number, and a reached account always takes a number |
| StellarWallet.Wallet.CreateWithSignaturesAndSubmit | tfchain_bridge/pkg/stellar/stellar.go:88-150 | what reaches Stellar is the payment asked for under the given number with the first required signatures; exactly when it does, which problem stops it and where the counter stands after each |
| StellarWallet.Wallet.ResetAccountSequence | tfchain_bridge/pkg/stellar/stellar.go:290-303 | the counter becomes the account's, or stays when the account is unreachable |
| SubstrateClient.AcceptedReachesGoal | tfchain_bridge/pkg/substrate/client.go:63-189 | an accepted call of any of the five kinds reaches what it is for |
| SubstrateClient.GoalsLast | tfchain_bridge/pkg/substrate/client.go:63-189 | what a retried call is for stays true whatever anyone does afterwards |
| SubstrateClient.RunGrows | tfchain_bridge/pkg/substrate/client.go:63-189 | over any run, mints, burns and refunds that are known stay known and executed ones stay executed |
| SubstrateClient.TurnsTakenIff | tfchain_bridge/pkg/substrate/client.go:63-86 | the first turn that is cancelled or gets no answer ends the loop, and all turns before it are taken |
| SubstrateClient.Client.Include | tfchain_bridge/pkg/substrate/client.go:64 | a call that the chain accepts is logged as this daemon's, and is in the history as accepted |
| SubstrateClient.Client.LoggedWasCalled | tfchain_bridge/pkg/substrate/client.go:164-189 | with the validators unchanged, a mint call logged as accepted was made by a validator in the history |
| SubstrateClient.Client.RefundIsRecorded | pallet-tft-bridge/src/lib.rs:537-584 | a refund call logged as accepted is in the history with its signature on record; if it created the refund, that was for its own target and amount, and still is until executed |
| SubstrateClient.Client.Submit | tfchain_bridge/pkg/substrate/client.go:64 | a success is reported exactly if the submission is included, reported, and accepted by the chain where it gets there; then the call is logged and its goal reached |
| SubstrateClient.Client.Retry | tfchain_bridge/pkg/substrate/client.go:63-86 | under any interference, success of the loop means the goal is reached, by an accepted call or by finding it settled, and nothing but this call is sent; a first submission that is accepted and reported succeeds at once, a call settled before succeeds as soon as one turn is answered, and the loop fails only at a cancelled or unanswered turn after a submission in every turn before, each dropped, unreported or refused |
| SubstrateClient.Client.RetrySetWithdrawExecuted | tfchain_bridge/pkg/substrate/client.go:63-86 | nil implies that the burn is executed; an error means that the loop gave up, as for `Retry` |
| SubstrateClient.Client.RetryProposeWithdrawOrAddSig | tfchain_bridge/pkg/substrate/client.go:88-111 | nil implies that the burn is executed, or pending with this payload and this very signature accepted; an error means that the loop gave up, as for `Retry` |
| SubstrateClient.Client.RetryCreateRefundTransactionOrAddSig | tfchain_bridge/pkg/substrate/client.go:113-137 | nil implies that the refund is executed, or pending with this very signature accepted; an error means that the loop gave up, as for `Retry` |
| SubstrateClient.Client.RetrySetRefundTransactionExecuted | tfchain_bridge/pkg/substrate/client.go:139-162 | nil implies that the refund is executed; an error means that the loop gave up, as for `Retry` |
| SubstrateClient.Client.RetryProposeMintOrVote | tfchain_bridge/pkg/substrate/client.go:164-189 | nil implies that the mint is pending or executed, and executed or voted for by this call; an error means that the loop gave up, as for `Retry` |
| SubstrateClient.Client.ReplaysMintOnce | tfchain_bridge/pkg/bridge/bridge.go:43-55 | over the whole history of the chain, replays and rescans included, each id not executed at the start is minted at most once |
| Bridge.BeforeIsPrefix | tfchain_bridge/pkg/stellar/stellar.go:340-343 | the transactions up to a cursor are a prefix of the list |
| Bridge.RouteIff | tfchain_bridge/pkg/bridge/mint.go:33-98 | route by route, when a deposit takes it: nothing without senders; returned for one sender with a memo and a return hash; proposed to an account exactly if one sender's memo names it, the sum exceeds the fee and nothing is returned; refunded otherwise |
| Bridge.Daemon.HandleRefundExpired | tfchain_bridge/pkg/bridge/refund.go:33-50 | success means that the chain knows the refund, and that it is executed or this very call was accepted: the hash, target and amount asked for, this wallet's key, and its signature over that payment under the next number; an executed refund sends nothing, good answers succeed, and failure means no answer, no signature, or that the loop gave up |
| Bridge.Daemon.RefundSignedMeans | tfchain_bridge/pkg/bridge/refund.go:44-49 | a refund counted as signed is executed, or this daemon had a call accepted for its hash, target and amount, with its own key and its signature over that payment |
| Bridge.Daemon.BurnSignedMeans | tfchain_bridge/pkg/bridge/withdraw.go:31-37 | likewise for a burn |
| Bridge.Daemon.RefundDeposit | tfchain_bridge/pkg/bridge/refund.go:13-31 | the cursor moves to the transaction only after its refund, of what this sender paid, is known to the chain and signed by this wallet; with good answers it does |
| Bridge.Daemon.ProposeDeposit | tfchain_bridge/pkg/bridge/mint.go:85-97 | the cursor moves to the transaction only after this daemon's call for this account and this sum was accepted, or the mint is executed; nothing else is sent, and with good answers it does |
| Bridge.Daemon.SendDown | tfchain_bridge/pkg/bridge/mint.go:33-98 | a deposit goes down its route by this daemon's own accepted call before the cursor moves, and with good answers it does |
| Bridge.Daemon.Mint | tfchain_bridge/pkg/bridge/mint.go:17-98 | success means that the deposit went down the route of its memo and senders by this daemon's own accepted call: proposed to the registered owner of what its memo names for the sum that was paid, or refunded to a sender for what that sender paid, or a return, or no senders; the cursor moves only then; already minted exactly if the chain says so; with good answers it succeeds |
| Bridge.Daemon.EventsOf | tfchain_bridge/pkg/stellar/stellar.go:384-487 | no event exactly if the transaction failed, the first page of operations does more than pay, or no announcing effect of the first page got its operations; every event carries the sums of the first page |
| Bridge.Daemon.SendersInFullIff | tfchain_bridge/pkg/stellar/stellar.go:471-487 | the senders' sums are all that was deposited if and only if nothing is paid beyond the first page |
| Bridge.Daemon.NoticedIsDeposit | tfchain_bridge/pkg/stellar/stellar.go:384-452 | what the daemon does not overlook is a deposit: a successful transaction that credits the bridge, however it was paid |
| Bridge.Daemon.PathPaymentIsMissed | tfchain_bridge/pkg/stellar/stellar.go:420-422 | a deposit that shows no payment operation, such as one made by path payment, is missed by every answer |
| Bridge.Daemon.BeyondPageIsMissed | tfchain_bridge/pkg/stellar/stellar.go:454-469 | a deposit whose credits all lie beyond the first page of effects is missed by every answer |
| Bridge.Daemon.SomeLieBeyondPage | tfchain_bridge/pkg/stellar/stellar.go:454-469 | there are such deposits, made of payments only, for every page size |
| Bridge.Daemon.HandleEvent | tfchain_bridge/pkg/bridge/bridge.go:151-158 | one event is done only when the deposit went down its route by this daemon's own accepted call, its mint is executed, or nobody was seen to pay; the cursor moves only then; an executed mint is skipped, and good answers never fail |
| Bridge.Daemon.HandleTransaction | tfchain_bridge/pkg/bridge/bridge.go:146-160 | going on means that the transaction is settled: its mint executed, or its route taken on its terms by this daemon; stopping means that the process ended or an event met an obstacle; a smooth return saves the cursor and touches nothing else |
| Bridge.Daemon.Take | tfchain_bridge/pkg/stellar/stellar.go:357-366 | the stream passes a transaction only when it is tended or overlooked; a deposit not tended so far is left behind if and only if the answer for it misses it, and then nothing is sent or saved; the saved cursor moves only to this transaction once it is tended; and the stream stops only for a reason: an answer about another transaction, effects not fetched, or an obstacle to one of the events |
| Bridge.Daemon.TendedLasts | tfchain_bridge/pkg/bridge/mint.go:17-98 | a deposit once tended stays so, however the chain moves and whatever else is received |
| Bridge.Daemon.TakePage | tfchain_bridge/pkg/stellar/stellar.go:345-374 | a page is taken in order after the stream's cursor, each answer for its own transaction; the cursors pass only what may be passed, and the saved one stays or stands at a tended transaction; all of the page is taken unless a transaction stops the daemon for such a reason |
| Bridge.Daemon.TakePages | tfchain_bridge/pkg/stellar/stellar.go:345-374 | the same over pages of any sizes; all pages are taken, and the stream stands behind at least as many transactions more, unless a transaction stops the daemon |
| Bridge.Daemon.Start | tfchain_bridge/pkg/bridge/bridge.go:43-160 | one process, with or without a rescan, wherever it stops: the saved cursor passes only what is tended, no deposit, or missed in an answer received for it, and moves only to tended transactions or to zero for a rescan; it takes all its pages, from zero for a rescan, unless the disk fails or a transaction stops it for such a reason |
| Bridge.Daemon.Restarts | tfchain_bridge/pkg/bridge/bridge.go:74-160 | the same over one process after the other; each process takes all its pages unless it was stopped for a reason |
| Bridge.Daemon.Operate | tfchain_bridge/pkg/bridge/bridge.go:74-160 | over any schedule of crashes, restarts and rescans, every deposit, however it was paid, at or before the saved cursor was minted, proposed or refunded on its own terms by this daemon, or is returned, or was missed in an answer received for it; if no answer misses a deposit, none is left untended; and every process was stopped by the disk or by an obstacle to one of its transactions, or as many transactions as its pages hold, counted from the first, may be passed |
| Bridge.Daemon.LoseDeposit | tfchain_bridge/pkg/stellar/stellar.go:413-416 | a missed deposit followed by a returned payment ends untended before the saved cursor, for any daemon |
| Bridge.DepositIsLost | tfchain_bridge/pkg/stellar/stellar.go:413-416 | a daemon and two transactions for which this happens |
| Bridge.DaemonsMint | pallet-tft-bridge/src/lib.rs:625-649 | when the daemons of a quorum of validators have had a mint accepted on the first terms, of a deposit or of a withdrawal to be minted back, it is executed, exactly once, on these terms |
| Bridge.Daemon.HandleBadWithdraw | tfchain_bridge/pkg/bridge/withdraw.go:85-109 | nil implies that the mint back is pending or executed and the burn is executed; the burn is closed only after this daemon's proposal to mint it back was accepted; minted back before is found exactly if it is executed, and then nothing at all is sent; with good answers it succeeds |
| Bridge.Daemon.HandleWithdrawCreated | tfchain_bridge/pkg/bridge/withdraw.go:16-38 | success means that this very signature over the payment asked for was accepted or the burn is closed; without a trustline the burn is proposed to be minted back and closed; the burn is found closed exactly if it is executed, and then nothing is sent or signed; good answers succeed, and a signature fails only when signing or the loop fails |
| Bridge.Daemon.HandleWithdrawExpired | tfchain_bridge/pkg/bridge/withdraw.go:40-53 | the burn is signed again by this very call, or, when the account check fails, closed with nothing else sent or paid; good answers succeed, and failure means no signature or that the loop gave up |
| Bridge.Daemon.PayBurn | tfchain_bridge/pkg/bridge/withdraw.go:66-80 | what is submitted is the recorded payment under the recorded sequence number with its first signatures, exactly if it can be signed and submitted; a zero amount is the only reason for an invalid amount |
| Bridge.Daemon.CloseBurn | tfchain_bridge/pkg/bridge/withdraw.go:82 | nil implies that the burn is executed with the target and amount it was pending with |
| Bridge.Daemon.HandleWithdrawReady | tfchain_bridge/pkg/bridge/withdraw.go:55-83 | executed before is found exactly if so; no signatures is answered exactly for a burn found open without any; a payment is submitted exactly if both queries are answered, the burn is found open and signed, its amount is positive, there are enough signatures and Horizon reaches, builds, attaches and accepts, and it is the one recorded: target, amount, recorded sequence number (the last signer's) and the required number of pairwise different signatures; success means that it was paid and the burn is executed; nothing but the closing of this burn is sent, and only after its payment; a zero amount never stops it while amounts are positive |
| Bridge.Daemon.HandleRefundReady | tfchain_bridge/pkg/bridge/refund.go:52-74 | executed before is found exactly if so; a payment is submitted exactly if both queries are answered, the refund is found open, and its payment can be signed and submitted, and it is the refund as the chain recorded it, under its sequence number and signatures, returning its hash; success means paid and executed; it is closed only after its payment |
| Bridge.Daemon.FinishCreated | tfchain_bridge/pkg/bridge/bridge.go:104-113 | a burn or a mint already done is skipped; with good answers the withdrawal is never what stops the daemon |
| Bridge.Daemon.HandleCreated | tfchain_bridge/pkg/bridge/bridge.go:104-113 | going on means that every withdrawal carries this wallet's accepted signature over its payment or is closed, or without trustline is closed or minted back; burns are closed only after this daemon's proposal to mint them back was accepted; it stops only at one that met an obstacle when its turn came |
| Bridge.Daemon.HandleExpired | tfchain_bridge/pkg/bridge/bridge.go:114-119 | going on means that every expired burn was signed again by this wallet or is closed; only burns that fail the account check are closed; it stops only at one that met an obstacle when its turn came |
| Bridge.Daemon.FinishReady | tfchain_bridge/pkg/bridge/bridge.go:120-129 | a ready burn is executed, and if this daemon closes it, it has paid it first; it pays exactly if the burn is found open, signed and payable, and goes on for a burn executed before or paid with good answers |
| Bridge.Daemon.HandleReady | tfchain_bridge/pkg/bridge/bridge.go:120-129 | going on means that every ready burn is executed; and each burn this daemon closes has a payment of it, as recorded, among the payments it made; it stops only at one that met an obstacle when its turn came |
| Bridge.Daemon.HandleRefundsExpired | tfchain_bridge/pkg/bridge/bridge.go:130-135 | going on means that every expired refund is known to the chain and carries this wallet's accepted signature or is executed; it stops only at one that met an obstacle when its turn came |
| Bridge.Daemon.FinishRefundReady | tfchain_bridge/pkg/bridge/bridge.go:136-145 | a ready refund is executed, and if this daemon closes it, it has paid it first; it pays exactly if the refund is found open and payable, and goes on for one executed before or paid with good answers |
| Bridge.Daemon.HandleRefundsReady | tfchain_bridge/pkg/bridge/bridge.go:136-145 | going on means that every ready refund is executed; and each refund this daemon closes has a payment of it, as recorded, among the payments it made; it stops only at one that met an obstacle when its turn came |
| Bridge.Daemon.HandleBurns | tfchain_bridge/pkg/bridge/bridge.go:104-129 | the new, expired and ready burns of a block, settled and accounted for; it stops only at an obstacle to one of them |
| Bridge.Daemon.HandleRefunds | tfchain_bridge/pkg/bridge/bridge.go:130-145 | the expired and ready refunds of a block, settled and accounted for; it stops only at an obstacle to one of them |
| Bridge.Daemon.HandleBatch | tfchain_bridge/pkg/bridge/bridge.go:100-145 | the daemon leaves a block behind only when all of it is settled at once, however the chain moves in between; and, whether it goes on or not, it closes a burn or refund only after paying it, after its proposal to mint it back was accepted, or when giving up an expired burn; it stops only if some event of the block met an obstacle in the state of the chain and of the counter at its turn: an unanswered query, a payment that cannot be made or signed, or a call whose first submission is not accepted and reported |
| Bridge.Daemon.HandleBatches | tfchain_bridge/pkg/bridge/bridge.go:98-146 | the same over any number of blocks: all blocks left behind are settled at the end, and every closing on the way is accounted for by one of them; it stops only at a block with such an obstacle |
| Agreement.CoveredIff | tfchain_bridge/pkg/stellar/stellar.go:99-109 | the signatures on a submitted payment are valid if and only if their signers signed exactly that payment |
| Agreement.DaemonSignsItsNumber | tfchain_bridge/pkg/bridge/withdraw.go:31-37 | while its counter fits 64 bits, what a daemon proposes for a burn is for its id, target and amount, with its own key and a signature over exactly the payment under the number it submits |
| Agreement.DaemonSignsItsRefund | tfchain_bridge/pkg/bridge/refund.go:44-49 | likewise for a refund, with the hash it returns |
| Agreement.BurnPayableIffAgreed | pallet-tft-bridge/src/lib.rs:733-740 | what a daemon pays for a burn carries valid signatures if and only if the numbers of the signers used are the one it is paid under, which is the last signer's |
| Agreement.BurnPayableInRuns | pallet-tft-bridge/src/lib.rs:705-752 | so it is in every run, for the signatures accepted since the burn was created or last expired |
| Agreement.FullRoundStays | pallet-tft-bridge/src/lib.rs:709-717 | a full round of a burn stays as it is until the burn expires or is executed, so one that cannot be paid stays unpayable until then |
| Agreement.RefundPayableIffAgreed | pallet-tft-bridge/src/lib.rs:807-813 | what a daemon pays for a refund carries valid signatures if and only if the signers used signed under the number it is paid under and for the target and amount it was created with |
| Agreement.RefundPayableInRuns | pallet-tft-bridge/src/lib.rs:779-828 | so it is in every run, for the signatures accepted since the refund was created or last expired |
| Agreement.ReadyUnderTwoNumbers | pallet-tft-bridge/src/lib.rs:733-740 | a run in which two of three validators sign under the numbers 1 and 2: Ready is emitted, 2 is recorded, and no payment of it is covered by its signatures |

## Left out

- Bridge.Daemon.Start: an obstacle is a call whose first submission is not accepted and reported, though the loop may still succeed later: reasons to stop are necessary, not sufficient.
- Bridge.Daemon.Take: a mint executed by other validators counts as tended, because the daemon then skips the transaction (`mint.go:25-28`).
- Bridge.Daemon.Mint: a deposit of several senders is refunded to one of them, an arbitrary one, as in `mint.go:36-38`.
- SubstrateClient.Client.Retry: the five loops of `client.go` differ only in the call and the query; one loop models them, and a schedule of turns ends with a cancelled context.
- StellarWallet.Wallet.CreateWithSignaturesAndSubmit: does not exclude that a submission under an older number lowers the counter, because the code allows it.
- Not claimed, because the code does not make it true: votes of different validators (votes count calls), a quorum of signatures on executed burns, disjoint pending and executed refunds, the signature cap when the quorum changes, one Stellar payout per burn, deposits in TFT only.
- The stream and the handler run in two goroutines with an unbuffered channel: they are modelled as one loop, in order. The two event sources of `Start` are separate methods; interference covers any interleaving of chain steps, not of the two handlers.
- Signing, Stellar XDR, base64, hex and SS58 are opaque; `CheckAccount` is a boolean answer, and so is the validity of a substrate address.
- Conversions inside the foreign substrate client, the decoding of chain events (`events.go`), and the Horizon and RPC transports.
- `NewBridge` apart from the rescan; `SaveHeight` is otherwise never called by the daemon.
- Reserved balances, dust and account reaping of the balances pallet; weights, codecs, storage migrations.
- Timing, backoff, logging, configuration, key generation, deployment.
