/**
 Which calls the pallet accepts, with which error it refuses the others, and what an accepted call
 changes: for all eleven calls, from origin, arguments and storage alone.
 */
module Admission {
  import opened Wrappers
  import opened ValidatorList
  import opened Ledgers
  import opened PalletTypes
  import opened Signing
  import opened PalletSpec
  import opened PalletEffects
  import opened PalletEvents
  import opened PalletInvariant

  predicate FromValidator(s: State, origin: Origin) {
    origin.Signed? && origin.who in s.validators
  }

  /** The part of the balance that is not frozen covers the sum, and the account stays alive if it was. */
  predicate CanSpend(ed: nat, l: Ledger, who: AccountId, sum: nat) {
    var free: int := if who in l.free then l.free[who] else 0;
    var frozen: int := if who in l.frozen then l.frozen[who] else 0;
    sum <= free - frozen && (free < ed || ed <= free - sum)
  }

  /** A round has room below n/2 + 1 signatures, and takes a signature if it is new in key and content. */
  predicate HasRoom(s: State, sigs: seq<StellarSignature>) {
    |sigs| != |s.validators| / 2 + 1
  }

  predicate Repeated(sigs: seq<StellarSignature>, sig: StellarSignature) {
    exists i :: 0 <= i < |sigs|
                && (sigs[i].stellarPubKey == sig.stellarPubKey || sigs[i].signature == sig.signature)
  }

  function RefundSignatures(s: State, hash: Bytes): seq<StellarSignature> {
    if hash in s.refunds then s.refunds[hash].signatures else []
  }

  predicate PaysAsRecorded(s: State, id: nat, target: Bytes, amount: u64)
    requires id in s.burns
  {
    s.burns[id].target == target && s.burns[id].amount == amount
  }

  // ---- what is accepted ------------------------------------------------------------------------

  ghost predicate Admitted(cfg: Config, s: State, origin: Origin, call: Call) {
    match call
    case AddBridgeValidator(account) => cfg.restricted(origin) && account !in s.validators
    case RemoveBridgeValidator(account) => cfg.restricted(origin) && account in s.validators
    case SetFeeAccount(_) => cfg.restricted(origin)
    case SetWithdrawFee(_) => cfg.restricted(origin)
    case SetDepositFee(_) => cfg.restricted(origin)
    case SwapToStellar(target, value) =>
      && origin.Signed? && cfg.validKey(target) && value > s.withdrawFee
      && CanSpend(cfg.existentialDeposit, s.ledger, origin.who, value)
    case ProposeOrVoteMint(id, _, amount) =>
      && FromValidator(s, origin) && id !in s.executedMints
      && if id in s.mints
         then 2 * (s.mints[id].votes + 1) <= |s.validators| || s.mints[id].amount > s.depositFee
         else 2 <= |s.validators| || amount > s.depositFee
    case ProposeBurnOrAddSig(id, target, amount, sig, _) =>
      && FromValidator(s, origin) && id in s.burns && id !in s.executedBurns && PaysAsRecorded(s, id, target, amount)
      && HasRoom(s, s.burns[id].signatures) && !Repeated(s.burns[id].signatures, sig)
    case SetBurnExecuted(id) => FromValidator(s, origin) && id in s.burns && id !in s.executedBurns
    case CreateRefundOrAddSig(hash, _, _, sig, _) =>
      && FromValidator(s, origin)
      && HasRoom(s, RefundSignatures(s, hash)) && !Repeated(RefundSignatures(s, hash), sig)
    case SetRefundExecuted(hash) => FromValidator(s, origin) && hash in s.refunds && hash !in s.executedRefunds
  }

  lemma SwapAcceptedIff(cfg: Config, s: State, who: AccountId, target: Bytes, value: nat)
    ensures BurnTft(cfg, s, who, target, value).Success?
            <==> cfg.validKey(target) && value > s.withdrawFee && CanSpend(cfg.existentialDeposit, s.ledger, who, value)
  {
  }

  lemma SignatureTakenIff(s: State, sigs: seq<StellarSignature>, sig: StellarSignature)
    ensures AddSignature(Quorum(s), sigs, sig).Success? <==> HasRoom(s, sigs) && !Repeated(sigs, sig)
    ensures AddSignature(Quorum(s), sigs, sig) == Failure(EnoughPresent) <==> !HasRoom(s, sigs)
  {
  }

  /** The acceptance condition of each of the eleven calls, in any state and from any origin. */
  lemma AcceptedIff(cfg: Config, s: State, origin: Origin, call: Call)
    ensures Accepted(cfg, s, Extrinsic(origin, call)) <==> Admitted(cfg, s, origin, call)
  {
    if origin.Signed? {
      match call
      case SwapToStellar(target, value) => SwapAcceptedIff(cfg, s, origin.who, target, value);
      case ProposeOrVoteMint(id, target, amount) =>
        if FromValidator(s, origin) && id !in s.executedMints {
          ProposeMintEffect(cfg, s, origin.who, id, target, amount);
        }
      case ProposeBurnOrAddSig(id, _, _, sig, _) =>
        if id in s.burns { SignatureTakenIff(s, s.burns[id].signatures, sig); }
      case CreateRefundOrAddSig(hash, _, _, sig, _) => SignatureTakenIff(s, RefundSignatures(s, hash), sig);
      case _ =>
    }
  }

  // ---- with which error the others are refused -----------------------------------------------------

  predicate OnBurn(call: Call) {
    call.ProposeBurnOrAddSig? || call.SetBurnExecuted?
  }

  predicate ByValidator(call: Call) {
    !Restricted(call) && !call.SwapToStellar?
  }

  /** Signatures a validator adds to a pending burn with its own payload. */
  predicate SignsPending(s: State, origin: Origin, call: Call) {
    && FromValidator(s, origin) && call.ProposeBurnOrAddSig?
    && call.burnId in s.burns && call.burnId !in s.executedBurns
    && PaysAsRecorded(s, call.burnId, call.target, call.amount)
  }

  predicate TriesToSwap(cfg: Config, s: State, origin: Origin, call: Call) {
    origin.Signed? && call.SwapToStellar? && cfg.validKey(call.stellarTarget) && call.value > s.withdrawFee
  }

  /** Error by error, when it is the answer. */
  ghost predicate RefusedFor(cfg: Config, s: State, origin: Origin, call: Call, e: Error) {
    match e
    case BadOrigin => if Restricted(call) then !cfg.restricted(origin) else !origin.Signed?
    case ValidatorExists => call.AddBridgeValidator? && cfg.restricted(origin) && call.account in s.validators
    case ValidatorNotExists =>
      || (call.RemoveBridgeValidator? && cfg.restricted(origin) && call.account !in s.validators)
      || (ByValidator(call) && origin.Signed? && origin.who !in s.validators)
    case MintTransactionAlreadyExecuted =>
      FromValidator(s, origin) && call.ProposeOrVoteMint? && call.mintId in s.executedMints
    case AmountIsLessThanDepositFee =>
      && FromValidator(s, origin) && call.ProposeOrVoteMint? && call.mintId !in s.executedMints
      && !Admitted(cfg, s, origin, call)
    case BurnTransactionAlreadyExecuted =>
      FromValidator(s, origin) && OnBurn(call) && call.burnId in s.executedBurns
    case BurnTransactionNotExists =>
      FromValidator(s, origin) && OnBurn(call) && call.burnId !in s.executedBurns && call.burnId !in s.burns
    case WrongParametersProvided =>
      && FromValidator(s, origin) && call.ProposeBurnOrAddSig?
      && call.burnId in s.burns && call.burnId !in s.executedBurns
      && !PaysAsRecorded(s, call.burnId, call.target, call.amount)
    case EnoughBurnSignaturesPresent =>
      SignsPending(s, origin, call) && !HasRoom(s, s.burns[call.burnId].signatures)
    case BurnSignatureExists =>
      && SignsPending(s, origin, call) && HasRoom(s, s.burns[call.burnId].signatures)
      && Repeated(s.burns[call.burnId].signatures, call.sig)
    case RefundTransactionAlreadyExecuted =>
      FromValidator(s, origin) && call.SetRefundExecuted? && call.hash in s.executedRefunds
    case RefundTransactionNotExists =>
      && FromValidator(s, origin) && call.SetRefundExecuted?
      && call.hash !in s.executedRefunds && call.hash !in s.refunds
    case EnoughRefundSignaturesPresent =>
      FromValidator(s, origin) && call.CreateRefundOrAddSig? && !HasRoom(s, RefundSignatures(s, call.hash))
    case RefundSignatureExists =>
      && FromValidator(s, origin) && call.CreateRefundOrAddSig?
      && HasRoom(s, RefundSignatures(s, call.hash)) && Repeated(RefundSignatures(s, call.hash), call.sig)
    case InvalidStellarPublicKey => origin.Signed? && call.SwapToStellar? && !cfg.validKey(call.stellarTarget)
    case AmountIsLessThanWithdrawFee =>
      && origin.Signed? && call.SwapToStellar? && cfg.validKey(call.stellarTarget) && call.value <= s.withdrawFee
    case NotEnoughBalanceToSwap =>
      TriesToSwap(cfg, s, origin, call) && !CanSpend(0, s.ledger, origin.who, call.value)
    case Currency(cause) =>
      && cause == KeepAlive && TriesToSwap(cfg, s, origin, call)
      && CanSpend(0, s.ledger, origin.who, call.value)
      && !CanSpend(cfg.existentialDeposit, s.ledger, origin.who, call.value)
  }

  lemma MintRefusedIff(cfg: Config, s: State, who: AccountId, id: Bytes, target: AccountId, amount: u64, e: Error)
    ensures ProposeMint(cfg, s, who, id, target, amount) == Failure(e)
            <==> RefusedFor(cfg, s, Signed(who), ProposeOrVoteMint(id, target, amount), e)
  {
    AcceptedIff(cfg, s, Signed(who), ProposeOrVoteMint(id, target, amount));
    if who in s.validators && id !in s.executedMints { ProposeMintEffect(cfg, s, who, id, target, amount); }
  }

  lemma BurnRefusedIff(cfg: Config, s: State, who: AccountId, call: Call, e: Error)
    requires OnBurn(call)
    ensures ApplySigned(cfg, s, who, call) == Failure(e) <==> RefusedFor(cfg, s, Signed(who), call, e)
  {
    if call.ProposeBurnOrAddSig? && call.burnId in s.burns {
      SignatureTakenIff(s, s.burns[call.burnId].signatures, call.sig);
    }
  }

  lemma RefundRefusedIff(cfg: Config, s: State, who: AccountId, call: Call, e: Error)
    requires call.CreateRefundOrAddSig? || call.SetRefundExecuted?
    ensures ApplySigned(cfg, s, who, call) == Failure(e) <==> RefusedFor(cfg, s, Signed(who), call, e)
  {
    if call.CreateRefundOrAddSig? { SignatureTakenIff(s, RefundSignatures(s, call.hash), call.sig); }
  }

  lemma SwapRefusedIff(cfg: Config, s: State, who: AccountId, target: Bytes, value: nat, e: Error)
    ensures BurnTft(cfg, s, who, target, value) == Failure(e)
            <==> RefusedFor(cfg, s, Signed(who), SwapToStellar(target, value), e)
  {
  }

  /** The error of every refused call. */
  lemma RefusedIff(cfg: Config, s: State, origin: Origin, call: Call, e: Error)
    ensures Apply(cfg, s, origin, call) == Failure(e) <==> RefusedFor(cfg, s, origin, call, e)
  {
    if !Restricted(call) && origin.Signed? {
      match call
      case SwapToStellar(target, value) => SwapRefusedIff(cfg, s, origin.who, target, value, e);
      case ProposeOrVoteMint(id, target, amount) => MintRefusedIff(cfg, s, origin.who, id, target, amount, e);
      case ProposeBurnOrAddSig(_, _, _, _, _) => BurnRefusedIff(cfg, s, origin.who, call, e);
      case SetBurnExecuted(_) => BurnRefusedIff(cfg, s, origin.who, call, e);
      case CreateRefundOrAddSig(_, _, _, _, _) => RefundRefusedIff(cfg, s, origin.who, call, e);
      case SetRefundExecuted(_) => RefundRefusedIff(cfg, s, origin.who, call, e);
    }
  }

  // ---- what an accepted call changes -----------------------------------------------------------------

  /** The announcement of a full round, once it has more than half as many signatures as there are validators. */
  function Ready(s: State, sigs: seq<StellarSignature>, ready: Event): seq<Event> {
    if 2 * |sigs| > |s.validators| then [ready] else []
  }

  ghost predicate ValidatorsChanged(s: State, s': State, members: set<AccountId>) {
    StrictlySorted(s'.validators) && Elements(s'.validators) == members && s' == s.(validators := s'.validators)
  }

  /** A swap: a new burn of the amount, cut to 64 bits, less the fee, announced once. */
  ghost predicate Swapped(s: State, s': State, who: AccountId, target: Bytes, value: nat) {
    var whole := if value <= 0xFFFF_FFFF_FFFF_FFFF then value else 0xFFFF_FFFF_FFFF_FFFF;
    var id, amount := s.burnId + 1, whole - s.withdrawFee;
    && 0 <= amount
    && s'.ledger.frozen == s.ledger.frozen
    && s' == s.(
         ledger := s'.ledger, burnId := id,
         burns := s.burns[id := BurnTransaction(s.block, amount, target, [], 0)],
         events := s.events + [BurnTransactionCreated(id, who, target, amount)])
  }

  /** A mint: one vote more, and with more than half of the validators' number of votes it is executed. */
  ghost predicate MintVoted(s: State, s': State, id: Bytes, target: AccountId, amount: u64) {
    var before := if id in s.mints then s.mints[id] else MintTransaction(amount, target, s.block, 0);
    var tx, done := before.(votes := before.votes + 1), before.(votes := before.votes + 1, block := s.block);
    var proposed := if id in s.mints then [] else [MintTransactionProposed(id, target, amount)];
    if 2 * tx.votes <= |s.validators|
    then s' == s.(mints := s.mints[id := tx], events := s.events + proposed + [MintTransactionVoted(id)])
    else
      && s'.ledger.frozen == s.ledger.frozen
      && s' == s.(
           ledger := s'.ledger, mints := s.mints - {id}, executedMints := s.executedMints[id := done],
           events := s.events + proposed + [MintTransactionVoted(id), MintCompleted(done)])
  }

  /** A signature on a burn: it joins the others, its number replaces theirs, and the round may become Ready. */
  ghost predicate BurnSignatureAdded(s: State, s': State, id: nat, sig: StellarSignature, number: u64)
    requires id in s.burns
  {
    var sigs := s.burns[id].signatures + [sig];
    s' == s.(
      burns := s.burns[id := s.burns[id].(signatures := sigs, sequenceNumber := number)],
      events := s.events + [BurnTransactionSignatureAdded(id, sig)] + Ready(s, sigs, BurnTransactionReady(id)))
  }

  /** A signature on a refund: likewise, and the first one creates the refund and is announced as such. */
  ghost predicate RefundSignatureAdded(
    s: State, s': State, hash: Bytes, target: Bytes, amount: u64, sig: StellarSignature, number: u64)
  {
    var tx := if hash in s.refunds then s.refunds[hash] else RefundTransaction(s.block, amount, target, hash, [], 0);
    var sigs := tx.signatures + [sig];
    s' == s.(
      refunds := s.refunds[hash := tx.(signatures := sigs, sequenceNumber := number)],
      events := s.events + [RefundTransactionSignatureAdded(hash, sig)] + Ready(s, sigs, RefundTransactionReady(hash))
                + if hash in s.refunds then [] else [RefundTransactionCreated(hash, target, amount)])
  }

  /** The whole new storage after each accepted call, but for the balances (see `Accounts`). */
  ghost predicate Changed(s: State, origin: Origin, call: Call, s': State)
    requires !Restricted(call) ==> origin.Signed?
  {
    match call
    case AddBridgeValidator(account) => ValidatorsChanged(s, s', Elements(s.validators) + {account})
    case RemoveBridgeValidator(account) => ValidatorsChanged(s, s', Elements(s.validators) - {account})
    case SetFeeAccount(account) => s' == s.(feeAccount := Some(account))
    case SetWithdrawFee(fee) => s' == s.(withdrawFee := fee)
    case SetDepositFee(fee) => s' == s.(depositFee := fee)
    case SwapToStellar(target, value) => Swapped(s, s', origin.who, target, value)
    case ProposeOrVoteMint(id, target, amount) => MintVoted(s, s', id, target, amount)
    case ProposeBurnOrAddSig(id, _, _, sig, number) => id in s.burns && BurnSignatureAdded(s, s', id, sig, number)
    case SetBurnExecuted(id) =>
      id in s.burns && s' == s.(
        burns := s.burns - {id}, executedBurns := s.executedBurns[id := s.burns[id]],
        events := s.events + [BurnTransactionProcessed(s.burns[id])])
    case CreateRefundOrAddSig(hash, target, amount, sig, number) =>
      RefundSignatureAdded(s, s', hash, target, amount, sig, number)
    case SetRefundExecuted(hash) =>
      hash in s.refunds && s' == s.(
        refunds := s.refunds - {hash}, executedRefunds := s.executedRefunds[hash := s.refunds[hash]],
        events := s.events + [RefundTransactionProcessed(s.refunds[hash])])
  }

  lemma RestrictedChanges(s: State, call: Call)
    requires Restricted(call) && StrictlySorted(s.validators) && ApplyRestricted(s, call).Success?
    ensures Changed(s, Root, call, ApplyRestricted(s, call).value)
  {
    match call
    case AddBridgeValidator(account) => ListRefinesSet(s.validators, account);
    case RemoveBridgeValidator(account) => ListRefinesSet(s.validators, account);
    case _ =>
  }

  lemma CreditsKeepFrozen(cfg: Config, s: State, id: Bytes, tx: MintTransaction, r: Outcome)
    requires VoteResult(cfg, s, id, tx, r) && r.Success?
    ensures r.value.ledger.frozen == s.ledger.frozen
    ensures 2 * tx.votes <= |s.validators| ==>
              && r.value.mints == s.mints[id := tx] && r.value.executedMints == s.executedMints
              && r.value.ledger == s.ledger
    ensures 2 * tx.votes > |s.validators| ==>
              && r.value.mints == s.mints - {id}
              && r.value.executedMints == s.executedMints[id := tx.(block := s.block)]
  {
  }

  lemma MintAnnounces(cfg: Config, s: State, who: AccountId, id: Bytes, target: AccountId, amount: u64)
    requires ProposeMint(cfg, s, who, id, target, amount).Success?
    ensures var s' := ProposeMint(cfg, s, who, id, target, amount).value;
            s'.events == s.events
                         + (if id in s.mints then [] else [MintTransactionProposed(id, target, amount)])
                         + if id in s'.executedMints
                           then [MintTransactionVoted(id), MintCompleted(s'.executedMints[id])]
                           else [MintTransactionVoted(id)]
  {
    var s' := ProposeMint(cfg, s, who, id, target, amount).value;
    MintCallFrame(cfg, s, who, id, target, amount);
    MintEvents(cfg, s, who, id, target, amount);
    assert s'.events == s.events + Emitted(s, s');
  }

  lemma MintChanges(cfg: Config, s: State, who: AccountId, id: Bytes, target: AccountId, amount: u64)
    requires ProposeMint(cfg, s, who, id, target, amount).Success?
    ensures MintVoted(s, ProposeMint(cfg, s, who, id, target, amount).value, id, target, amount)
  {
    var before, r := Proposed(s, id, target, amount), ProposeMint(cfg, s, who, id, target, amount);
    ProposeMintEffect(cfg, s, who, id, target, amount);
    CreditsKeepFrozen(cfg, s, id, before.(votes := before.votes + 1), r);
    MintCallFrame(cfg, s, who, id, target, amount);
    MintAnnounces(cfg, s, who, id, target, amount);
  }

  lemma SwapChanges(cfg: Config, s: State, who: AccountId, target: Bytes, value: nat)
    requires BurnTft(cfg, s, who, target, value).Success?
    ensures Swapped(s, BurnTft(cfg, s, who, target, value).value, who, target, value)
  {
  }

  lemma BurnSignatureChanges(
    s: State, who: AccountId, id: nat, target: Bytes, amount: u64, sig: StellarSignature, number: u64)
    requires ProposeBurn(s, who, id, target, amount, sig, number).Success?
    ensures var s' := ProposeBurn(s, who, id, target, amount, sig, number).value;
            id in s.burns && BurnSignatureAdded(s, s', id, sig, number)
  {
    var sigs := s.burns[id].signatures + [sig];
    assert s.events + ([BurnTransactionSignatureAdded(id, sig)] + Ready(s, sigs, BurnTransactionReady(id)))
        == s.events + [BurnTransactionSignatureAdded(id, sig)] + Ready(s, sigs, BurnTransactionReady(id));
  }

  lemma RefundSignatureChanges(
    s: State, who: AccountId, hash: Bytes, target: Bytes, amount: u64, sig: StellarSignature, number: u64)
    requires CreateRefund(s, who, hash, target, amount, sig, number).Success?
    ensures RefundSignatureAdded(
              s, CreateRefund(s, who, hash, target, amount, sig, number).value, hash, target, amount, sig, number)
  {
  }

  /** What each accepted call makes of the whole storage. */
  lemma AcceptedChanges(cfg: Config, s: State, origin: Origin, call: Call)
    requires Inv(s) && Accepted(cfg, s, Extrinsic(origin, call))
    ensures (!Restricted(call) ==> origin.Signed?) && Changed(s, origin, call, Next(cfg, s, Extrinsic(origin, call)))
  {
    if Restricted(call) {
      RestrictedChanges(s, call);
    } else {
      match call
      case SwapToStellar(target, value) => SwapChanges(cfg, s, origin.who, target, value);
      case ProposeOrVoteMint(id, target, amount) => MintChanges(cfg, s, origin.who, id, target, amount);
      case ProposeBurnOrAddSig(id, target, amount, sig, number) =>
        BurnSignatureChanges(s, origin.who, id, target, amount, sig, number);
      case CreateRefundOrAddSig(hash, target, amount, sig, number) =>
        RefundSignatureChanges(s, origin.who, hash, target, amount, sig, number);
      case _ =>
    }
  }
}
