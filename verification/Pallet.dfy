/**
 The pallet as it runs: storage items updated in place by the extrinsics and by the end of a
 block. `View` is the storage as a value; every entry point is proved to be the transition
 `PalletSpec.Next` and to keep the invariant.
 */
module Pallet {
  import opened Wrappers
  import opened Collections
  import opened ValidatorList
  import opened Ledgers
  import opened PalletTypes
  import opened Signing
  import opened PalletSpec
  import opened PalletInvariant
  import Admission

  class TftBridge {
    const cfg: Config

    var validators: seq<AccountId>
    var feeAccount: Option<AccountId>
    var mints: map<Bytes, MintTransaction>
    var executedMints: map<Bytes, MintTransaction>
    var burns: map<nat, BurnTransaction>
    var executedBurns: map<nat, BurnTransaction>
    var refunds: map<Bytes, RefundTransaction>
    var executedRefunds: map<Bytes, RefundTransaction>
    var burnId: nat
    var withdrawFee: u64
    var depositFee: u64
    var ledger: Ledger
    var events: seq<Event>
    var block: nat

    function View(): State
      reads this
    {
      State(validators, feeAccount, mints, executedMints, burns, executedBurns, refunds, executedRefunds,
            burnId, withdrawFee, depositFee, ledger, events, block)
    }

    ghost predicate Valid()
      reads this
    {
      Inv(View())
    }

    /** Genesis stores the validators as given: the pallet is sound exactly if they come strictly sorted. */
    constructor (
      cfg: Config, genesisValidators: Option<seq<AccountId>>, feeAccount: Option<AccountId>,
      withdrawFee: u64, depositFee: u64, ledger: Ledger)
      ensures Valid() <==> genesisValidators.None? || StrictlySorted(genesisValidators.value)
      ensures this.cfg == cfg
      ensures View() == Genesis(
                if genesisValidators.Some? then genesisValidators.value else [],
                feeAccount, withdrawFee, depositFee, ledger)
      ensures this.feeAccount == feeAccount && this.withdrawFee == withdrawFee && this.depositFee == depositFee
      ensures this.ledger == ledger && burnId == 0 && block == 0 && events == []
      ensures mints.Keys == {} && burns.Keys == {} && refunds.Keys == {}
      ensures executedMints.Keys == {} && executedBurns.Keys == {} && executedRefunds.Keys == {}
    {
      this.cfg := cfg;
      this.validators := if genesisValidators.Some? then genesisValidators.value else [];
      this.feeAccount := feeAccount;
      this.withdrawFee := withdrawFee;
      this.depositFee := depositFee;
      this.ledger := ledger;
      mints, executedMints := map[], map[];
      burns, executedBurns := map[], map[];
      refunds, executedRefunds := map[], map[];
      burnId, events, block := 0, [], 0;
    }

    /** Puts back a saved storage: the roll-back of a failed extrinsic. */
    method Restore(s: State)
      requires s.block == block
      modifies this
      ensures View() == s
    {
      RestoreSettings(s);
      RestoreMints(s);
      RestoreOutgoing(s);
      ledger := s.ledger;
      events := s.events;
    }

    method RestoreSettings(s: State)
      modifies this`validators, this`feeAccount, this`withdrawFee, this`depositFee
      ensures validators == s.validators && feeAccount == s.feeAccount
      ensures withdrawFee == s.withdrawFee && depositFee == s.depositFee
    {
      validators := s.validators;
      feeAccount := s.feeAccount;
      withdrawFee := s.withdrawFee;
      depositFee := s.depositFee;
    }

    method RestoreMints(s: State)
      modifies this`mints, this`executedMints
      ensures mints == s.mints && executedMints == s.executedMints
    {
      mints := s.mints;
      executedMints := s.executedMints;
    }

    method RestoreOutgoing(s: State)
      modifies this`burns, this`executedBurns, this`refunds, this`executedRefunds, this`burnId
      ensures burns == s.burns && executedBurns == s.executedBurns && burnId == s.burnId
      ensures refunds == s.refunds && executedRefunds == s.executedRefunds
    {
      burns := s.burns;
      executedBurns := s.executedBurns;
      refunds := s.refunds;
      executedRefunds := s.executedRefunds;
      burnId := s.burnId;
    }

    // ---- validators --------------------------------------------------------------------------

    method AddValidatorAccount(target: AccountId) returns (r: Result<(), Error>)
      requires StrictlySorted(validators)
      modifies this`validators
      ensures r == if target in old(validators) then Failure(ValidatorExists) else Success(())
      ensures StrictlySorted(validators)
      ensures Elements(validators) == Elements(old(validators)) + {target}
      ensures validators == if r.Success? then Inserted(old(validators), target) else old(validators)
    {
      var found := BinarySearch(validators, target);
      ListRefinesSet(validators, target);
      match found {
        case Success(_) => return Failure(ValidatorExists);
        case Failure(index) =>
          InsertAtIndex(validators, target, index);
          validators := validators[..index] + [target] + validators[index..];
          return Success(());
      }
    }

    method RemoveValidatorAccount(target: AccountId) returns (r: Result<(), Error>)
      requires StrictlySorted(validators)
      modifies this`validators
      ensures r == if target in old(validators) then Success(()) else Failure(ValidatorNotExists)
      ensures StrictlySorted(validators)
      ensures Elements(validators) == Elements(old(validators)) - {target}
      ensures validators == if r.Success? then Removed(old(validators), target) else old(validators)
    {
      var found := BinarySearch(validators, target);
      ListRefinesSet(validators, target);
      match found {
        case Success(index) =>
          RemoveAtIndex(validators, index);
          validators := validators[..index] + validators[index + 1..];
          return Success(());
        case Failure(_) => return Failure(ValidatorNotExists);
      }
    }

    /** Accepts exactly the members of the list. */
    method CheckIfValidatorExists(who: AccountId) returns (r: Result<(), Error>)
      requires StrictlySorted(validators)
      ensures r == if who in validators then Success(()) else Failure(ValidatorNotExists)
    {
      var found := BinarySearch(validators, who);
      return if found.Success? then Success(()) else Failure(ValidatorNotExists);
    }

    method PayFeeAccount(fee: u64)
      modifies this`ledger
      ensures ledger == PayFee(cfg.existentialDeposit, old(ledger), feeAccount, fee)
    {
      if feeAccount.Some? {
        ledger := Deposit(cfg.existentialDeposit, ledger, feeAccount.value, fee);
      }
    }

    // ---- mints -------------------------------------------------------------------------------

    method MintTft(id: Bytes, tx: MintTransaction) returns (r: Result<(), Error>)
      modifies this`ledger, this`mints, this`executedMints, this`events
      ensures match PalletSpec.MintTft(cfg, old(View()), id, tx)
              case Success(s') => r == Success(()) && View() == s'
              case Failure(e) => r == Failure(e) && View() == old(View())
    {
      if tx.amount <= depositFee {
        return Failure(AmountIsLessThanDepositFee);
      }
      ledger := Deposit(cfg.existentialDeposit, ledger, tx.target, tx.amount - depositFee);
      PayFeeAccount(depositFee);
      RecordMint(id, tx.(block := block));
      return Success(());
    }

    method RecordMint(id: Bytes, done: MintTransaction)
      modifies this`mints, this`executedMints, this`events
      ensures mints == old(mints) - {id}
      ensures executedMints == old(executedMints)[id := done]
      ensures events == old(events) + [MintCompleted(done)]
    {
      mints := mints - {id};
      executedMints := executedMints[id := done];
      events := events + [MintCompleted(done)];
    }

    /** An unknown id is no error. On failure the vote has been written already: dispatch takes it back. */
    method VoteStellarMintTransaction(id: Bytes) returns (r: Result<(), Error>)
      modifies this`ledger, this`mints, this`executedMints, this`events
      ensures id !in old(mints) ==> r == Success(()) && View() == old(View())
      ensures id in old(mints) ==>
                match VoteMint(cfg, old(View()), id)
                case Success(s') => r == Success(()) && View() == s'
                case Failure(e) => r == Failure(e) && View() == Counted(old(View()), id)
      ensures id in old(mints) && r.Success? ==>
                (id in mints <==> 2 * (old(mints)[id].votes + 1) <= |validators|)
    {
      if id !in mints {
        return Success(());
      }
      var tx := mints[id];
      tx := tx.(votes := tx.votes + 1);
      events := events + [MintTransactionVoted(id)];
      mints := mints[id := tx];
      if tx.votes >= |validators| / 2 + 1 {
        r := MintTft(id, tx);
      } else {
        r := Success(());
      }
    }

    method ProposeOrVoteStellarMint(who: AccountId, id: Bytes, target: AccountId, amount: u64)
      returns (r: Result<(), Error>)
      requires StrictlySorted(validators)
      modifies this`ledger, this`mints, this`executedMints, this`events
      ensures match ProposeMint(cfg, old(View()), who, id, target, amount)
              case Success(s') => r == Success(()) && View() == s'
              case Failure(e) => r == Failure(e) && View() == MintResidue(old(View()), who, id, target, amount)
    {
      r := CheckIfValidatorExists(who);
      if r.Failure? { return; }
      if id in executedMints {
        return Failure(MintTransactionAlreadyExecuted);
      }
      if id in mints {
        r := VoteStellarMintTransaction(id);
        return;
      }
      mints := mints[id := MintTransaction(amount, target, block, 0)];
      events := events + [MintTransactionProposed(id, target, amount)];
      r := VoteStellarMintTransaction(id);
    }

    // ---- burns -------------------------------------------------------------------------------

    method BurnTft(source: AccountId, target: Bytes, amount: nat) returns (r: Result<(), Error>)
      modifies this`ledger, this`burns, this`burnId, this`events
      ensures match PalletSpec.BurnTft(cfg, old(View()), source, target, amount)
              case Success(s') => r == Success(()) && View() == s'
              case Failure(e) => r == Failure(e) && View() == old(View())
    {
      if !cfg.validKey(target) {
        return Failure(InvalidStellarPublicKey);
      }
      if amount <= withdrawFee {
        return Failure(AmountIsLessThanWithdrawFee);
      }
      if amount > Usable(ledger, source) {
        return Failure(NotEnoughBalanceToSwap);
      }
      match Withdraw(cfg.existentialDeposit, ledger, source, amount) {
        case Failure(cause) => return Failure(Currency(cause));
        case Success(debited) => ledger := debited;
      }
      PayFeeAccount(withdrawFee);
      RecordBurn(source, target, SaturateU64(amount) - withdrawFee);
      return Success(());
    }

    method RecordBurn(source: AccountId, target: Bytes, burned: u64)
      modifies this`burns, this`burnId, this`events
      ensures burnId == old(burnId) + 1
      ensures burns == old(burns)[burnId := BurnTransaction(block, burned, target, [], 0)]
      ensures events == old(events) + [BurnTransactionCreated(burnId, source, target, burned)]
    {
      burnId := burnId + 1;
      events := events + [BurnTransactionCreated(burnId, source, target, burned)];
      burns := burns[burnId := BurnTransaction(block, burned, target, [], 0)];
    }

    lemma BurnRoundIsFull(id: nat, sig: StellarSignature, sequenceNumber: u64)
      ensures AddBurnSignature(View(), id, sig, sequenceNumber) == Failure(EnoughBurnSignaturesPresent)
              <==> id in burns && |burns[id].signatures| == |validators| / 2 + 1
    {
    }

    method AddStellarSigBurn(id: nat, sig: StellarSignature, sequenceNumber: u64) returns (r: Result<(), Error>)
      modifies this`burns, this`events
      ensures match AddBurnSignature(old(View()), id, sig, sequenceNumber)
              case Success(s') => r == Success(()) && View() == s'
              case Failure(e) => r == Failure(e) && View() == old(View())
      ensures r == Failure(EnoughBurnSignaturesPresent)
              <==> id in old(burns) && |old(burns)[id].signatures| == |validators| / 2 + 1
      ensures r.Success? ==>
                id in burns
                && |events| == |old(events)| + if 2 * |burns[id].signatures| > |validators| then 2 else 1
    {
      BurnRoundIsFull(id, sig, sequenceNumber);
      var tx := StoredBurn(View(), id);
      var quorum := |validators| / 2 + 1;
      if |tx.signatures| == quorum {
        return Failure(EnoughBurnSignaturesPresent);
      }
      if KeySeen(tx.signatures, sig.stellarPubKey) {
        return Failure(BurnSignatureExists);
      }
      if SignatureSeen(tx.signatures, sig.signature) {
        return Failure(BurnSignatureExists);
      }
      RecordBurnSignature(
        id, tx.(sequenceNumber := sequenceNumber, signatures := tx.signatures + [sig]), sig, quorum);
      return Success(());
    }

    method RecordBurnSignature(id: nat, tx: BurnTransaction, sig: StellarSignature, quorum: nat)
      modifies this`burns, this`events
      ensures burns == old(burns)[id := tx]
      ensures events == old(events) + ([BurnTransactionSignatureAdded(id, sig)]
                        + if |tx.signatures| >= quorum then [BurnTransactionReady(id)] else [])
    {
      burns := burns[id := tx];
      events := events + [BurnTransactionSignatureAdded(id, sig)];
      if |tx.signatures| >= quorum {
        events := events + [BurnTransactionReady(id)];
        burns := burns[id := tx];
      }
    }

    method ProposeStellarBurnOrAddSig(
      who: AccountId, id: nat, target: Bytes, amount: u64, sig: StellarSignature, sequenceNumber: u64)
      returns (r: Result<(), Error>)
      requires StrictlySorted(validators)
      modifies this`burns, this`events
      ensures match ProposeBurn(old(View()), who, id, target, amount, sig, sequenceNumber)
              case Success(s') => r == Success(()) && View() == s'
              case Failure(e) => r == Failure(e) && View() == old(View())
    {
      r := CheckIfValidatorExists(who);
      if r.Failure? { return; }
      if id in executedBurns {
        return Failure(BurnTransactionAlreadyExecuted);
      }
      if id !in burns {
        return Failure(BurnTransactionNotExists);
      }
      if burns[id].amount != amount {
        return Failure(WrongParametersProvided);
      }
      if burns[id].target != target {
        return Failure(WrongParametersProvided);
      }
      if id in burns {
        r := AddStellarSigBurn(id, sig, sequenceNumber);
        return;
      }
      // the source goes on to store the burn afresh: never reached
      assert false;
    }

    method SetStellarBurnExecuted(who: AccountId, id: nat) returns (r: Result<(), Error>)
      requires StrictlySorted(validators)
      modifies this`burns, this`executedBurns, this`events
      ensures match FinishBurn(old(View()), who, id)
              case Success(s') => r == Success(()) && View() == s'
              case Failure(e) => r == Failure(e) && View() == old(View())
    {
      r := CheckIfValidatorExists(who);
      if r.Failure? { return; }
      if id in executedBurns {
        return Failure(BurnTransactionAlreadyExecuted);
      }
      if id !in burns {
        return Failure(BurnTransactionNotExists);
      }
      var tx := burns[id];
      burns := burns - {id};
      executedBurns := executedBurns[id := tx];
      events := events + [BurnTransactionProcessed(tx)];
    }

    // ---- refunds -----------------------------------------------------------------------------

    lemma RefundRoundIsFull(hash: Bytes, sig: StellarSignature, sequenceNumber: u64)
      ensures AddRefundSignature(View(), hash, sig, sequenceNumber) == Failure(EnoughRefundSignaturesPresent)
              <==> hash in refunds && |refunds[hash].signatures| == |validators| / 2 + 1
    {
    }

    method AddStellarSigRefund(hash: Bytes, sig: StellarSignature, sequenceNumber: u64) returns (r: Result<(), Error>)
      modifies this`refunds, this`events
      ensures match AddRefundSignature(old(View()), hash, sig, sequenceNumber)
              case Success(s') => r == Success(()) && View() == s'
              case Failure(e) => r == Failure(e) && View() == old(View())
      ensures r == Failure(EnoughRefundSignaturesPresent)
              <==> hash in old(refunds) && |old(refunds)[hash].signatures| == |validators| / 2 + 1
      ensures r.Success? ==>
                hash in refunds
                && |events| == |old(events)| + if 2 * |refunds[hash].signatures| > |validators| then 2 else 1
    {
      RefundRoundIsFull(hash, sig, sequenceNumber);
      var tx := StoredRefund(View(), hash);
      var quorum := |validators| / 2 + 1;
      if |tx.signatures| == quorum {
        return Failure(EnoughRefundSignaturesPresent);
      }
      if KeySeen(tx.signatures, sig.stellarPubKey) {
        return Failure(RefundSignatureExists);
      }
      if SignatureSeen(tx.signatures, sig.signature) {
        return Failure(RefundSignatureExists);
      }
      RecordRefundSignature(
        hash, tx.(sequenceNumber := sequenceNumber, signatures := tx.signatures + [sig]), sig, quorum);
      return Success(());
    }

    method RecordRefundSignature(hash: Bytes, tx: RefundTransaction, sig: StellarSignature, quorum: nat)
      modifies this`refunds, this`events
      ensures refunds == old(refunds)[hash := tx]
      ensures events == old(events) + ([RefundTransactionSignatureAdded(hash, sig)]
                        + if |tx.signatures| >= quorum then [RefundTransactionReady(hash)] else [])
    {
      refunds := refunds[hash := tx];
      events := events + [RefundTransactionSignatureAdded(hash, sig)];
      if |tx.signatures| >= quorum {
        events := events + [RefundTransactionReady(hash)];
        refunds := refunds[hash := tx];
      }
    }

    method CreateStellarRefundOrAddSig(
      who: AccountId, hash: Bytes, target: Bytes, amount: u64, sig: StellarSignature, sequenceNumber: u64)
      returns (r: Result<(), Error>)
      requires StrictlySorted(validators)
      modifies this`refunds, this`events
      ensures match CreateRefund(old(View()), who, hash, target, amount, sig, sequenceNumber)
              case Success(s') => r == Success(()) && View() == s'
              case Failure(e) => r == Failure(e) && View() == old(View())
    {
      r := CheckIfValidatorExists(who);
      if r.Failure? { return; }
      if hash in refunds {
        r := AddStellarSigRefund(hash, sig, sequenceNumber);
        return;
      }
      refunds := refunds[hash := RefundTransaction(block, amount, target, hash, [], sequenceNumber)];
      r := AddStellarSigRefund(hash, sig, sequenceNumber);
      if r.Failure? { return; }
      events := events + [RefundTransactionCreated(hash, target, amount)];
    }

    method SetStellarRefundExecuted(who: AccountId, hash: Bytes) returns (r: Result<(), Error>)
      requires StrictlySorted(validators)
      modifies this`refunds, this`executedRefunds, this`events
      ensures match FinishRefund(old(View()), who, hash)
              case Success(s') => r == Success(()) && View() == s'
              case Failure(e) => r == Failure(e) && View() == old(View())
    {
      r := CheckIfValidatorExists(who);
      if r.Failure? { return; }
      if hash in executedRefunds {
        return Failure(RefundTransactionAlreadyExecuted);
      }
      if hash !in refunds {
        return Failure(RefundTransactionNotExists);
      }
      var tx := refunds[hash];
      refunds := refunds - {hash};
      executedRefunds := executedRefunds[hash := tx];
      events := events + [RefundTransactionProcessed(tx)];
    }

    // ---- dispatch ----------------------------------------------------------------------------

    method ExecuteRestricted(call: Call) returns (r: Result<(), Error>)
      requires StrictlySorted(validators) && Restricted(call)
      modifies this`validators, this`feeAccount, this`withdrawFee, this`depositFee
      ensures match ApplyRestricted(old(View()), call)
              case Success(s') => r == Success(()) && View() == s'
              case Failure(e) => r == Failure(e) && View() == old(View())
    {
      r := Success(());
      match call
      case AddBridgeValidator(account) => r := AddValidatorAccount(account);
      case RemoveBridgeValidator(account) => r := RemoveValidatorAccount(account);
      case SetFeeAccount(account) => feeAccount := Some(account);
      case SetWithdrawFee(fee) => withdrawFee := fee;
      case SetDepositFee(fee) => depositFee := fee;
    }

    method ExecuteSigned(who: AccountId, call: Call) returns (r: Result<(), Error>)
      requires StrictlySorted(validators) && !Restricted(call)
      modifies this`ledger, this`mints, this`executedMints, this`burns, this`executedBurns, this`burnId
      modifies this`refunds, this`executedRefunds, this`events
      ensures match ApplySigned(cfg, old(View()), who, call)
              case Success(s') => r == Success(()) && View() == s'
              case Failure(e) => r == Failure(e)
    {
      match call
      case SwapToStellar(target, amount) => r := BurnTft(who, target, amount);
      case ProposeOrVoteMint(id, target, amount) => r := ProposeOrVoteStellarMint(who, id, target, amount);
      case ProposeBurnOrAddSig(id, target, amount, sig, seqNo) =>
        r := ProposeStellarBurnOrAddSig(who, id, target, amount, sig, seqNo);
      case SetBurnExecuted(id) => r := SetStellarBurnExecuted(who, id);
      case CreateRefundOrAddSig(hash, target, amount, sig, seqNo) =>
        r := CreateStellarRefundOrAddSig(who, hash, target, amount, sig, seqNo);
      case SetRefundExecuted(hash) => r := SetStellarRefundExecuted(who, hash);
    }

    lemma RefusedWithReason(origin: Origin, call: Call)
      ensures match Apply(cfg, View(), origin, call)
              case Success(_) => true
              case Failure(e) => Admission.RefusedFor(cfg, View(), origin, call, e)
    {
      var r := Apply(cfg, View(), origin, call);
      if r.Failure? { Admission.RefusedIff(cfg, View(), origin, call, r.error); }
    }

    /** An extrinsic: the origin is checked, the call executed, and a failure rolled back. */
    method Dispatch(origin: Origin, call: Call) returns (r: Result<(), Error>)
      requires Valid()
      modifies this
      ensures Valid() && View() == Next(cfg, old(View()), Extrinsic(origin, call))
      ensures match Apply(cfg, old(View()), origin, call)
              case Success(_) => r == Success(())
              case Failure(e) => r == Failure(e) && View() == old(View())
      ensures r.Success? <==> Admission.Admitted(cfg, old(View()), origin, call)
      ensures r.Failure? ==> Admission.RefusedFor(cfg, old(View()), origin, call, r.error)
    {
      NextKeepsInv(cfg, View(), Extrinsic(origin, call));
      Admission.AcceptedIff(cfg, View(), origin, call);
      RefusedWithReason(origin, call);
      var saved := View();
      if Restricted(call) {
        if cfg.restricted(origin) {
          r := ExecuteRestricted(call);
        } else {
          r := Failure(BadOrigin);
        }
      } else {
        match origin {
          case Signed(who) => r := ExecuteSigned(who, call);
          case Root => r := Failure(BadOrigin);
        }
      }
      if r.Failure? {
        Restore(saved);
      }
    }

    // ---- the end of a block ------------------------------------------------------------------

    /** The age of a pending entry is a difference of block numbers that must not be negative. */
    method ExpireBurnIfDue(id: nat)
      requires id in burns && burns[id].block <= block
      modifies this`burns, this`events
      ensures burns == old(burns)[id := ExpireBurn(cfg.retryInterval, block, old(burns)[id])]
      ensures events == old(events)
                        + if Due(cfg.retryInterval, block, old(burns)[id].block)
                          then [BurnTransactionExpired(id, old(burns)[id].target, old(burns)[id].amount)] else []
    {
      var tx := burns[id];
      var age: nat := block - tx.block;
      if age >= cfg.retryInterval {
        tx := tx.(signatures := [], sequenceNumber := 0, block := block);
        burns := burns[id := tx];
        events := events + [BurnTransactionExpired(id, tx.target, tx.amount)];
      }
    }

    method ExpireRefundIfDue(hash: Bytes)
      requires hash in refunds && refunds[hash].block <= block
      modifies this`refunds, this`events
      ensures refunds == old(refunds)[hash := ExpireRefund(cfg.retryInterval, block, old(refunds)[hash])]
      ensures events == old(events)
                        + if Due(cfg.retryInterval, block, old(refunds)[hash].block)
                          then [RefundTransactionExpired(hash, old(refunds)[hash].target, old(refunds)[hash].amount)]
                          else []
    {
      var tx := refunds[hash];
      var age: nat := block - tx.block;
      if age >= cfg.retryInterval {
        tx := tx.(signatures := [], sequenceNumber := 0, block := block);
        refunds := refunds[hash := tx];
        events := events + [RefundTransactionExpired(hash, tx.target, tx.amount)];
      }
    }

    method ExpireBurns(order: seq<nat>)
      requires Enumerates(order, burns.Keys)
      requires forall id :: id in burns ==> burns[id].block <= block
      modifies this`burns, this`events
      ensures burns == ExpiredBurns(cfg.retryInterval, block, old(burns))
      ensures events == old(events) + BurnExpiries(cfg.retryInterval, block, old(burns), order)
    {
      ghost var start := burns;
      for n := 0 to |order|
        invariant PartlyExpired(cfg.retryInterval, block, start, burns, order, n)
        invariant events == old(events) + BurnExpiries(cfg.retryInterval, block, start, order[..n])
      {
        PartlyExpiredStep(cfg.retryInterval, block, start, burns, order, n);
        ExpireBurnIfDue(order[n]);
      }
      assert order[..|order|] == order;
      AllExpired(cfg.retryInterval, block, start, burns, order);
    }

    method ExpireRefunds(order: seq<Bytes>)
      requires Enumerates(order, refunds.Keys)
      requires forall hash :: hash in refunds ==> refunds[hash].block <= block
      modifies this`refunds, this`events
      ensures refunds == ExpiredRefunds(cfg.retryInterval, block, old(refunds))
      ensures events == old(events) + RefundExpiries(cfg.retryInterval, block, old(refunds), order)
    {
      ghost var start := refunds;
      for n := 0 to |order|
        invariant RefundsPartlyExpired(cfg.retryInterval, block, start, refunds, order, n)
        invariant events == old(events) + RefundExpiries(cfg.retryInterval, block, start, order[..n])
      {
        RefundsPartlyExpiredStep(cfg.retryInterval, block, start, refunds, order, n);
        ExpireRefundIfDue(order[n]);
      }
      assert order[..|order|] == order;
      AllRefundsExpired(cfg.retryInterval, block, start, refunds, order);
    }

    /** `on_finalize`: both maps are treated, in whatever order they are iterated. */
    method OnFinalize(burnOrder: seq<nat>, refundOrder: seq<Bytes>)
      requires Enumerates(burnOrder, burns.Keys) && Enumerates(refundOrder, refunds.Keys)
      requires forall id :: id in burns ==> burns[id].block <= block
      requires forall hash :: hash in refunds ==> refunds[hash].block <= block
      modifies this`burns, this`refunds, this`events
      ensures burns == ExpiredBurns(cfg.retryInterval, block, old(burns))
      ensures refunds == ExpiredRefunds(cfg.retryInterval, block, old(refunds))
      ensures events == old(events) + BurnExpiries(cfg.retryInterval, block, old(burns), burnOrder)
                        + RefundExpiries(cfg.retryInterval, block, old(refunds), refundOrder)
    {
      ExpireBurns(burnOrder);
      ExpireRefunds(refundOrder);
    }

    method AdvanceBlock(burnOrder: seq<nat>, refundOrder: seq<Bytes>)
      requires Enumerates(burnOrder, burns.Keys) && Enumerates(refundOrder, refunds.Keys)
      requires forall id :: id in burns ==> burns[id].block <= block
      requires forall hash :: hash in refunds ==> refunds[hash].block <= block
      modifies this`burns, this`refunds, this`events, this`block
      ensures View() == EndBlock(cfg, old(View()), burnOrder, refundOrder)
    {
      OnFinalize(burnOrder, refundOrder);
      block := block + 1;
    }

    /** The current block is finalised and the next one begins. */
    method FinishBlock(burnOrder: seq<nat>, refundOrder: seq<Bytes>)
      requires Valid() && Enumerates(burnOrder, burns.Keys) && Enumerates(refundOrder, refunds.Keys)
      modifies this
      ensures Valid() && View() == Next(cfg, old(View()), Finalize(burnOrder, refundOrder))
    {
      ghost var before := View();
      NextKeepsInv(cfg, before, Finalize(burnOrder, refundOrder));
      PendingIsNotAhead(before);
      AdvanceBlock(burnOrder, refundOrder);
    }
  }

  /** The first `n` entries of the order have been treated, the others not yet. */
  ghost predicate PartlyExpired(
    interval: nat, now: nat, start: map<nat, BurnTransaction>, current: map<nat, BurnTransaction>,
    order: seq<nat>, n: int)
  {
    && 0 <= n <= |order| && Enumerates(order, start.Keys) && current.Keys == start.Keys
    && (forall j :: 0 <= j < n ==> current[order[j]] == ExpireBurn(interval, now, start[order[j]]))
    && (forall j :: n <= j < |order| ==> current[order[j]] == start[order[j]])
  }

  lemma PartlyExpiredStep(
    interval: nat, now: nat, start: map<nat, BurnTransaction>, current: map<nat, BurnTransaction>,
    order: seq<nat>, n: nat)
    requires n < |order| && PartlyExpired(interval, now, start, current, order, n)
    ensures var id := order[n];
            && id in start && current[id] == start[id]
            && PartlyExpired(interval, now, start, current[id := ExpireBurn(interval, now, start[id])], order, n + 1)
            && BurnExpiries(interval, now, start, order[..n + 1])
               == BurnExpiries(interval, now, start, order[..n])
                  + if Due(interval, now, start[id].block)
                    then [BurnTransactionExpired(id, start[id].target, start[id].amount)] else []
  {
    assert order[..n + 1][..n] == order[..n];
  }

  lemma AllExpired(
    interval: nat, now: nat, start: map<nat, BurnTransaction>, current: map<nat, BurnTransaction>, order: seq<nat>)
    requires PartlyExpired(interval, now, start, current, order, |order|)
    ensures current == ExpiredBurns(interval, now, start)
  {
    forall id | id in start ensures current[id] == ExpireBurn(interval, now, start[id]) {
      var j :| 0 <= j < |order| && order[j] == id;
    }
  }

  ghost predicate RefundsPartlyExpired(
    interval: nat, now: nat, start: map<Bytes, RefundTransaction>, current: map<Bytes, RefundTransaction>,
    order: seq<Bytes>, n: int)
  {
    && 0 <= n <= |order| && Enumerates(order, start.Keys) && current.Keys == start.Keys
    && (forall j :: 0 <= j < n ==> current[order[j]] == ExpireRefund(interval, now, start[order[j]]))
    && (forall j :: n <= j < |order| ==> current[order[j]] == start[order[j]])
  }

  lemma RefundsPartlyExpiredStep(
    interval: nat, now: nat, start: map<Bytes, RefundTransaction>, current: map<Bytes, RefundTransaction>,
    order: seq<Bytes>, n: nat)
    requires n < |order| && RefundsPartlyExpired(interval, now, start, current, order, n)
    ensures var hash := order[n];
            && hash in start && current[hash] == start[hash]
            && RefundsPartlyExpired(
                 interval, now, start, current[hash := ExpireRefund(interval, now, start[hash])], order, n + 1)
            && RefundExpiries(interval, now, start, order[..n + 1])
               == RefundExpiries(interval, now, start, order[..n])
                  + if Due(interval, now, start[hash].block)
                    then [RefundTransactionExpired(hash, start[hash].target, start[hash].amount)] else []
  {
    assert order[..n + 1][..n] == order[..n];
  }

  lemma AllRefundsExpired(
    interval: nat, now: nat, start: map<Bytes, RefundTransaction>, current: map<Bytes, RefundTransaction>,
    order: seq<Bytes>)
    requires RefundsPartlyExpired(interval, now, start, current, order, |order|)
    ensures current == ExpiredRefunds(interval, now, start)
  {
    forall hash | hash in start ensures current[hash] == ExpireRefund(interval, now, start[hash]) {
      var j :| 0 <= j < |order| && order[j] == hash;
    }
  }
}
