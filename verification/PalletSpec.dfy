/**
 What every extrinsic and the end of a block do to the storage, as one pure function.
 A failing extrinsic changes nothing: dispatch runs in a storage layer that is rolled back.
 */
module PalletSpec {
  import opened Wrappers
  import opened Collections
  import opened ValidatorList
  import opened Ledgers
  import opened PalletTypes
  import opened Signing

  type Outcome = Result<State, Error>

  function Quorum(s: State): nat {
    |s.validators| / 2 + 1
  }

  // ---- fees -------------------------------------------------------------------------------

  /** A fee goes to the fee account, if there is one. */
  function PayFee(ed: nat, l: Ledger, feeAccount: Option<AccountId>, fee: nat): Ledger {
    match feeAccount
    case Some(account) => Deposit(ed, l, account, fee)
    case None => l
  }

  function SaturateU64(n: nat): u64 {
    if n <= U64_MAX then n else U64_MAX
  }

  // ---- mints ------------------------------------------------------------------------------

  function MintTft(cfg: Config, s: State, id: Bytes, tx: MintTransaction): Outcome {
    if tx.amount <= s.depositFee then Failure(AmountIsLessThanDepositFee)
    else
      var credited := Deposit(cfg.existentialDeposit, s.ledger, tx.target, tx.amount - s.depositFee);
      var done := tx.(block := s.block);
      Success(s.(
        ledger := PayFee(cfg.existentialDeposit, credited, s.feeAccount, s.depositFee),
        mints := s.mints - {id},
        executedMints := s.executedMints[id := done],
        events := s.events + [MintCompleted(done)]))
  }

  /** The storage with a new proposal written down, if the id is not pending yet. */
  function Opened(s: State, id: Bytes, target: AccountId, amount: u64): State {
    if id in s.mints then s
    else
      s.(mints := s.mints[id := MintTransaction(amount, target, s.block, 0)],
         events := s.events + [MintTransactionProposed(id, target, amount)])
  }

  /** The storage with one more vote written down. */
  function Counted(s: State, id: Bytes): State
    requires id in s.mints
  {
    s.(mints := s.mints[id := s.mints[id].(votes := s.mints[id].votes + 1)],
       events := s.events + [MintTransactionVoted(id)])
  }

  function VoteMint(cfg: Config, s: State, id: Bytes): Outcome
    requires id in s.mints
  {
    var tx := s.mints[id].(votes := s.mints[id].votes + 1);
    var voted := s.(mints := s.mints[id := tx], events := s.events + [MintTransactionVoted(id)]);
    if tx.votes >= Quorum(s) then MintTft(cfg, voted, id, tx) else Success(voted)
  }

  function ProposeMint(cfg: Config, s: State, who: AccountId, id: Bytes, target: AccountId, amount: u64): Outcome {
    if who !in s.validators then Failure(ValidatorNotExists)
    else if id in s.executedMints then Failure(MintTransactionAlreadyExecuted)
    else if id in s.mints then VoteMint(cfg, s, id)
    else
      VoteMint(cfg, s.(
        mints := s.mints[id := MintTransaction(amount, target, s.block, 0)],
        events := s.events + [MintTransactionProposed(id, target, amount)]), id)
  }

  /** What a refused call on a mint has written by the time it fails: nothing, or its proposal and vote. */
  function MintResidue(s: State, who: AccountId, id: Bytes, target: AccountId, amount: u64): State {
    if who !in s.validators || id in s.executedMints then s else Counted(Opened(s, id, target, amount), id)
  }

  // ---- burns ------------------------------------------------------------------------------

  function BurnTft(cfg: Config, s: State, source: AccountId, target: Bytes, amount: nat): Outcome {
    if !cfg.validKey(target) then Failure(InvalidStellarPublicKey)
    else if amount <= s.withdrawFee then Failure(AmountIsLessThanWithdrawFee)
    else if amount > Usable(s.ledger, source) then Failure(NotEnoughBalanceToSwap)
    else
      match Withdraw(cfg.existentialDeposit, s.ledger, source, amount)
      case Failure(cause) => Failure(Currency(cause))
      case Success(debited) =>
        var id := s.burnId + 1;
        var burned := SaturateU64(amount) - s.withdrawFee;
        Success(s.(
          ledger := PayFee(cfg.existentialDeposit, debited, s.feeAccount, s.withdrawFee),
          burnId := id,
          burns := s.burns[id := BurnTransaction(s.block, burned, target, [], 0)],
          events := s.events + [BurnTransactionCreated(id, source, target, burned)]))
  }

  /** Reading an absent burn yields the default record. */
  function StoredBurn(s: State, id: nat): BurnTransaction {
    if id in s.burns then s.burns[id] else BurnTransaction(0, 0, "", [], 0)
  }

  function AddBurnSignature(s: State, id: nat, sig: StellarSignature, sequenceNumber: u64): Outcome {
    match AddSignature(Quorum(s), StoredBurn(s, id).signatures, sig)
    case Failure(EnoughPresent) => Failure(EnoughBurnSignaturesPresent)
    case Failure(AlreadyPresent) => Failure(BurnSignatureExists)
    case Success(sigs) =>
      Success(s.(
        burns := s.burns[id := StoredBurn(s, id).(signatures := sigs, sequenceNumber := sequenceNumber)],
        events := s.events + [BurnTransactionSignatureAdded(id, sig)]
                  + if |sigs| >= Quorum(s) then [BurnTransactionReady(id)] else []))
  }

  function ProposeBurn(
    s: State, who: AccountId, id: nat, target: Bytes, amount: u64,
    sig: StellarSignature, sequenceNumber: u64): Outcome
  {
    if who !in s.validators then Failure(ValidatorNotExists)
    else if id in s.executedBurns then Failure(BurnTransactionAlreadyExecuted)
    else if id !in s.burns then Failure(BurnTransactionNotExists)
    else if s.burns[id].amount != amount || s.burns[id].target != target then Failure(WrongParametersProvided)
    else AddBurnSignature(s, id, sig, sequenceNumber)
  }

  function FinishBurn(s: State, who: AccountId, id: nat): Outcome {
    if who !in s.validators then Failure(ValidatorNotExists)
    else if id in s.executedBurns then Failure(BurnTransactionAlreadyExecuted)
    else if id !in s.burns then Failure(BurnTransactionNotExists)
    else
      Success(s.(
        burns := s.burns - {id},
        executedBurns := s.executedBurns[id := s.burns[id]],
        events := s.events + [BurnTransactionProcessed(s.burns[id])]))
  }

  // ---- refunds ----------------------------------------------------------------------------

  /** Reading an absent refund yields the default record. */
  function StoredRefund(s: State, hash: Bytes): RefundTransaction {
    if hash in s.refunds then s.refunds[hash] else RefundTransaction(0, 0, "", "", [], 0)
  }

  function AddRefundSignature(s: State, hash: Bytes, sig: StellarSignature, sequenceNumber: u64): Outcome {
    match AddSignature(Quorum(s), StoredRefund(s, hash).signatures, sig)
    case Failure(EnoughPresent) => Failure(EnoughRefundSignaturesPresent)
    case Failure(AlreadyPresent) => Failure(RefundSignatureExists)
    case Success(sigs) =>
      Success(s.(
        refunds := s.refunds[hash := StoredRefund(s, hash).(signatures := sigs, sequenceNumber := sequenceNumber)],
        events := s.events + [RefundTransactionSignatureAdded(hash, sig)]
                  + if |sigs| >= Quorum(s) then [RefundTransactionReady(hash)] else []))
  }

  function CreateRefund(
    s: State, who: AccountId, hash: Bytes, target: Bytes, amount: u64,
    sig: StellarSignature, sequenceNumber: u64): Outcome
  {
    if who !in s.validators then Failure(ValidatorNotExists)
    else if hash in s.refunds then AddRefundSignature(s, hash, sig, sequenceNumber)
    else
      var created := s.(refunds := s.refunds[hash :=
        RefundTransaction(s.block, amount, target, hash, [], sequenceNumber)]);
      match AddRefundSignature(created, hash, sig, sequenceNumber)
      case Failure(e) => Failure(e)
      case Success(signed) =>
        Success(signed.(events := signed.events + [RefundTransactionCreated(hash, target, amount)]))
  }

  function FinishRefund(s: State, who: AccountId, hash: Bytes): Outcome {
    if who !in s.validators then Failure(ValidatorNotExists)
    else if hash in s.executedRefunds then Failure(RefundTransactionAlreadyExecuted)
    else if hash !in s.refunds then Failure(RefundTransactionNotExists)
    else
      Success(s.(
        refunds := s.refunds - {hash},
        executedRefunds := s.executedRefunds[hash := s.refunds[hash]],
        events := s.events + [RefundTransactionProcessed(s.refunds[hash])]))
  }

  // ---- the extrinsics ---------------------------------------------------------------------

  function ApplyRestricted(s: State, call: Call): Outcome {
    match call
    case AddBridgeValidator(account) =>
      if account in s.validators then Failure(ValidatorExists)
      else Success(s.(validators := Inserted(s.validators, account)))
    case RemoveBridgeValidator(account) =>
      if account !in s.validators then Failure(ValidatorNotExists)
      else Success(s.(validators := Removed(s.validators, account)))
    case SetFeeAccount(account) => Success(s.(feeAccount := Some(account)))
    case SetWithdrawFee(fee) => Success(s.(withdrawFee := fee))
    case SetDepositFee(fee) => Success(s.(depositFee := fee))
    case _ => Failure(BadOrigin)
  }

  function ApplySigned(cfg: Config, s: State, who: AccountId, call: Call): Outcome {
    match call
    case SwapToStellar(target, amount) => BurnTft(cfg, s, who, target, amount)
    case ProposeOrVoteMint(id, target, amount) => ProposeMint(cfg, s, who, id, target, amount)
    case ProposeBurnOrAddSig(id, target, amount, sig, seqNo) => ProposeBurn(s, who, id, target, amount, sig, seqNo)
    case SetBurnExecuted(id) => FinishBurn(s, who, id)
    case CreateRefundOrAddSig(hash, target, amount, sig, seqNo) =>
      CreateRefund(s, who, hash, target, amount, sig, seqNo)
    case SetRefundExecuted(hash) => FinishRefund(s, who, hash)
    case _ => Failure(BadOrigin)
  }

  predicate Restricted(call: Call) {
    || call.AddBridgeValidator? || call.RemoveBridgeValidator?
    || call.SetFeeAccount? || call.SetWithdrawFee? || call.SetDepositFee?
  }

  function Apply(cfg: Config, s: State, origin: Origin, call: Call): Outcome {
    if Restricted(call) then
      if cfg.restricted(origin) then ApplyRestricted(s, call) else Failure(BadOrigin)
    else
      match origin
      case Signed(who) => ApplySigned(cfg, s, who, call)
      case Root => Failure(BadOrigin)
  }

  // ---- the end of a block -----------------------------------------------------------------

  predicate Due(interval: nat, now: nat, block: nat) {
    now - block >= interval
  }

  function ExpireBurn(interval: nat, now: nat, tx: BurnTransaction): BurnTransaction {
    if Due(interval, now, tx.block) then tx.(signatures := [], sequenceNumber := 0, block := now) else tx
  }

  function ExpireRefund(interval: nat, now: nat, tx: RefundTransaction): RefundTransaction {
    if Due(interval, now, tx.block) then tx.(signatures := [], sequenceNumber := 0, block := now) else tx
  }

  function ExpiredBurns(interval: nat, now: nat, burns: map<nat, BurnTransaction>): map<nat, BurnTransaction> {
    map id <- burns :: ExpireBurn(interval, now, burns[id])
  }

  function ExpiredRefunds(interval: nat, now: nat, refunds: map<Bytes, RefundTransaction>)
    : map<Bytes, RefundTransaction>
  {
    map hash <- refunds :: ExpireRefund(interval, now, refunds[hash])
  }

  function BurnExpiries(interval: nat, now: nat, burns: map<nat, BurnTransaction>, order: seq<nat>): seq<Event>
    requires forall i :: 0 <= i < |order| ==> order[i] in burns
  {
    if order == [] then []
    else
      var id := order[|order| - 1];
      BurnExpiries(interval, now, burns, order[..|order| - 1])
      + if Due(interval, now, burns[id].block)
        then [BurnTransactionExpired(id, burns[id].target, burns[id].amount)] else []
  }

  function RefundExpiries(interval: nat, now: nat, refunds: map<Bytes, RefundTransaction>, order: seq<Bytes>)
    : seq<Event>
    requires forall i :: 0 <= i < |order| ==> order[i] in refunds
  {
    if order == [] then []
    else
      var hash := order[|order| - 1];
      RefundExpiries(interval, now, refunds, order[..|order| - 1])
      + if Due(interval, now, refunds[hash].block)
        then [RefundTransactionExpired(hash, refunds[hash].target, refunds[hash].amount)] else []
  }

  /** The block's end: every pending entry is treated once, whatever the iteration order. */
  function EndBlock(cfg: Config, s: State, burnOrder: seq<nat>, refundOrder: seq<Bytes>): State
    requires Enumerates(burnOrder, s.burns.Keys) && Enumerates(refundOrder, s.refunds.Keys)
  {
    s.(
      burns := ExpiredBurns(cfg.retryInterval, s.block, s.burns),
      refunds := ExpiredRefunds(cfg.retryInterval, s.block, s.refunds),
      events := s.events
                + BurnExpiries(cfg.retryInterval, s.block, s.burns, burnOrder)
                + RefundExpiries(cfg.retryInterval, s.block, s.refunds, refundOrder),
      block := s.block + 1)
  }

  // ---- transitions and runs ---------------------------------------------------------------

  /** One transition. Orders that do not enumerate the pending entries are no iteration: nothing happens. */
  function Next(cfg: Config, s: State, step: Step): State {
    match step
    case Extrinsic(origin, call) =>
      (match Apply(cfg, s, origin, call)
       case Success(s') => s'
       case Failure(_) => s)
    case Finalize(burnOrder, refundOrder) =>
      if Enumerates(burnOrder, s.burns.Keys) && Enumerates(refundOrder, s.refunds.Keys)
      then EndBlock(cfg, s, burnOrder, refundOrder) else s
    case Transfer(sender, receiver, sum) => s.(ledger := Move(s.ledger, sender, receiver, sum))
    case Freeze(owner, locked) => s.(ledger := s.ledger.(frozen := s.ledger.frozen[owner := locked]))
  }

  predicate Accepted(cfg: Config, s: State, step: Step) {
    step.Extrinsic? && Apply(cfg, s, step.origin, step.call).Success?
  }

  predicate EndsBlock(s: State, step: Step) {
    step.Finalize? && Enumerates(step.burnOrder, s.burns.Keys) && Enumerates(step.refundOrder, s.refunds.Keys)
  }

  function Run(cfg: Config, s: State, steps: seq<Step>): State {
    if steps == [] then s
    else Next(cfg, Run(cfg, s, steps[..|steps| - 1]), steps[|steps| - 1])
  }

  lemma {:induction false} RunConcat(cfg: Config, s: State, first: seq<Step>, second: seq<Step>)
    ensures Run(cfg, s, first + second) == Run(cfg, Run(cfg, s, first), second)
  {
    if second == [] {
      assert first + second == first;
    } else {
      var n := |second| - 1;
      assert (first + second)[..|first| + n] == first + second[..n];
      RunConcat(cfg, s, first, second[..n]);
    }
  }

  /** The storage at genesis: nothing pending, nothing executed. */
  function Genesis(
    validators: seq<AccountId>, feeAccount: Option<AccountId>, withdrawFee: u64, depositFee: u64, ledger: Ledger)
    : State
  {
    State(validators, feeAccount, map[], map[], map[], map[], map[], map[], 0, withdrawFee, depositFee, ledger, [], 0)
  }
}
