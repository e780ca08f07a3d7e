/** What holds of the storage in every reachable state. */
module PalletInvariant {
  import opened Wrappers
  import opened Collections
  import opened ValidatorList
  import opened Ledgers
  import opened PalletTypes
  import opened Signing
  import opened PalletSpec

  /** No swap is lost, duplicated or revived: each id up to the counter is pending or executed, not both. */
  ghost predicate BurnPartition(s: State) {
    && (forall id :: id in s.burns ==> id !in s.executedBurns)
    && (forall id :: id in s.burns || id in s.executedBurns <==> 1 <= id <= s.burnId)
  }

  ghost predicate MintsDisjoint(s: State) {
    forall id :: id in s.mints ==> id !in s.executedMints
  }

  /** A pending mint carries the vote of its proposer at least. */
  ghost predicate MintsVoted(s: State) {
    forall id :: id in s.mints ==> s.mints[id].votes >= 1
  }

  /** Signatures differ pairwise in key and in content, and without any the sequence number is zero. */
  ghost predicate SignaturesConsistent(sigs: seq<StellarSignature>, sequenceNumber: u64) {
    PairwiseDistinct(sigs) && (sigs == [] ==> sequenceNumber == 0)
  }

  /** Pending entries were stored or renewed in a block that has begun: ages are never negative. */
  ghost predicate BurnsWellFormed(s: State) {
    forall id :: id in s.burns ==>
      s.burns[id].block <= s.block && SignaturesConsistent(s.burns[id].signatures, s.burns[id].sequenceNumber)
  }

  ghost predicate RefundsWellFormed(s: State) {
    && (forall hash :: hash in s.refunds ==>
          && s.refunds[hash].txHash == hash
          && s.refunds[hash].block <= s.block
          && SignaturesConsistent(s.refunds[hash].signatures, s.refunds[hash].sequenceNumber))
    && (forall hash :: hash in s.executedRefunds ==> s.executedRefunds[hash].txHash == hash)
  }

  ghost predicate Core(s: State) {
    && StrictlySorted(s.validators)
    && BurnPartition(s)
    && MintsDisjoint(s)
    && BurnsWellFormed(s)
    && RefundsWellFormed(s)
  }

  ghost predicate Inv(s: State) {
    Core(s) && MintsVoted(s)
  }

  lemma RestrictedKeepsInv(s: State, call: Call)
    requires Inv(s) && ApplyRestricted(s, call).Success?
    ensures Inv(ApplyRestricted(s, call).value)
  {
    match call
    case AddBridgeValidator(account) => ListRefinesSet(s.validators, account);
    case RemoveBridgeValidator(account) => ListRefinesSet(s.validators, account);
    case _ =>
  }

  /** Mints are independent of everything else in the invariant. */
  lemma MintsChangeKeepsCore(s: State, s': State)
    requires Core(s) && MintsDisjoint(s') && s'.validators == s.validators && s'.block == s.block
    requires s'.burns == s.burns && s'.executedBurns == s.executedBurns && s'.burnId == s.burnId
    requires s'.refunds == s.refunds && s'.executedRefunds == s.executedRefunds
    ensures Core(s')
  {
  }

  lemma VoteMintKeepsInv(cfg: Config, s: State, id: Bytes)
    requires Core(s) && id in s.mints && VoteMint(cfg, s, id).Success?
    requires forall other :: other in s.mints && other != id ==> s.mints[other].votes >= 1
    ensures Inv(VoteMint(cfg, s, id).value)
  {
    MintsChangeKeepsCore(s, VoteMint(cfg, s, id).value);
  }

  lemma ProposeMintKeepsInv(cfg: Config, s: State, who: AccountId, id: Bytes, target: AccountId, amount: u64)
    requires Inv(s) && ProposeMint(cfg, s, who, id, target, amount).Success?
    ensures Inv(ProposeMint(cfg, s, who, id, target, amount).value)
  {
    if id in s.mints {
      VoteMintKeepsInv(cfg, s, id);
    } else {
      VoteMintKeepsInv(cfg, s.(
        mints := s.mints[id := MintTransaction(amount, target, s.block, 0)],
        events := s.events + [MintTransactionProposed(id, target, amount)]), id);
    }
  }

  lemma BurnTftKeepsInv(cfg: Config, s: State, who: AccountId, target: Bytes, amount: nat)
    requires Inv(s) && BurnTft(cfg, s, who, target, amount).Success?
    ensures Inv(BurnTft(cfg, s, who, target, amount).value)
  {
  }

  lemma AddBurnSignatureKeepsInv(s: State, id: nat, sig: StellarSignature, seqNo: u64)
    requires Inv(s) && id in s.burns && AddBurnSignature(s, id, sig, seqNo).Success?
    ensures Inv(AddBurnSignature(s, id, sig, seqNo).value)
  {
  }

  lemma AddRefundSignatureKeepsInv(s: State, hash: Bytes, sig: StellarSignature, seqNo: u64)
    requires Inv(s) && hash in s.refunds && AddRefundSignature(s, hash, sig, seqNo).Success?
    ensures Inv(AddRefundSignature(s, hash, sig, seqNo).value)
  {
  }

  lemma CreateRefundKeepsInv(
    s: State, who: AccountId, hash: Bytes, target: Bytes, amount: u64, sig: StellarSignature, seqNo: u64)
    requires Inv(s) && CreateRefund(s, who, hash, target, amount, sig, seqNo).Success?
    ensures Inv(CreateRefund(s, who, hash, target, amount, sig, seqNo).value)
  {
    if hash in s.refunds {
      AddRefundSignatureKeepsInv(s, hash, sig, seqNo);
    }
  }

  lemma FinishBurnKeepsInv(s: State, who: AccountId, id: nat)
    requires Inv(s) && FinishBurn(s, who, id).Success?
    ensures Inv(FinishBurn(s, who, id).value)
  {
  }

  lemma FinishRefundKeepsInv(s: State, who: AccountId, hash: Bytes)
    requires Inv(s) && FinishRefund(s, who, hash).Success?
    ensures Inv(FinishRefund(s, who, hash).value)
  {
  }

  lemma SignedKeepsInv(cfg: Config, s: State, who: AccountId, call: Call)
    requires Inv(s) && ApplySigned(cfg, s, who, call).Success?
    ensures Inv(ApplySigned(cfg, s, who, call).value)
  {
    match call
    case SwapToStellar(target, amount) => BurnTftKeepsInv(cfg, s, who, target, amount);
    case ProposeOrVoteMint(id, target, amount) => ProposeMintKeepsInv(cfg, s, who, id, target, amount);
    case ProposeBurnOrAddSig(id, _, _, sig, seqNo) => AddBurnSignatureKeepsInv(s, id, sig, seqNo);
    case SetBurnExecuted(id) => FinishBurnKeepsInv(s, who, id);
    case CreateRefundOrAddSig(hash, target, amount, sig, seqNo) =>
      CreateRefundKeepsInv(s, who, hash, target, amount, sig, seqNo);
    case SetRefundExecuted(hash) => FinishRefundKeepsInv(s, who, hash);
  }

  lemma ExpiryKeepsBurns(cfg: Config, s: State, s': State)
    requires BurnsWellFormed(s) && s'.block == s.block + 1
    requires s'.burns == ExpiredBurns(cfg.retryInterval, s.block, s.burns)
    ensures BurnsWellFormed(s')
  {
  }

  lemma ExpiryKeepsRefunds(cfg: Config, s: State, s': State)
    requires RefundsWellFormed(s) && s'.block == s.block + 1 && s'.executedRefunds == s.executedRefunds
    requires s'.refunds == ExpiredRefunds(cfg.retryInterval, s.block, s.refunds)
    ensures RefundsWellFormed(s')
  {
  }

  lemma EndBlockKeepsInv(cfg: Config, s: State, burnOrder: seq<nat>, refundOrder: seq<Bytes>)
    requires Inv(s) && Enumerates(burnOrder, s.burns.Keys) && Enumerates(refundOrder, s.refunds.Keys)
    ensures Inv(EndBlock(cfg, s, burnOrder, refundOrder))
  {
    ExpiryKeepsBurns(cfg, s, EndBlock(cfg, s, burnOrder, refundOrder));
    ExpiryKeepsRefunds(cfg, s, EndBlock(cfg, s, burnOrder, refundOrder));
  }

  /** Every transition keeps the invariant. */
  lemma NextKeepsInv(cfg: Config, s: State, step: Step)
    requires Inv(s)
    ensures Inv(Next(cfg, s, step))
  {
    match step
    case Extrinsic(origin, call) =>
      if Apply(cfg, s, origin, call).Success? {
        if Restricted(call) { RestrictedKeepsInv(s, call); } else { SignedKeepsInv(cfg, s, origin.who, call); }
      }
    case Finalize(burnOrder, refundOrder) =>
      if Enumerates(burnOrder, s.burns.Keys) && Enumerates(refundOrder, s.refunds.Keys) {
        EndBlockKeepsInv(cfg, s, burnOrder, refundOrder);
      }
    case _ =>
  }

  lemma {:induction false} RunKeepsInv(cfg: Config, s: State, steps: seq<Step>)
    requires Inv(s)
    ensures Inv(Run(cfg, s, steps))
  {
    if steps == [] {
    } else {
      RunKeepsInv(cfg, s, steps[..|steps| - 1]);
      NextKeepsInv(cfg, Run(cfg, s, steps[..|steps| - 1]), steps[|steps| - 1]);
    }
  }

  lemma PendingIsNotAhead(s: State)
    requires Inv(s)
    ensures forall id :: id in s.burns ==> s.burns[id].block <= s.block
    ensures forall hash :: hash in s.refunds ==> s.refunds[hash].block <= s.block
  {
  }

  /** In no run from genesis does the age of a pending entry underflow, whatever was stored or renewed when. */
  lemma AgesAreNatural(
    cfg: Config, validators: seq<AccountId>, feeAccount: Option<AccountId>, withdrawFee: u64, depositFee: u64,
    ledger: Ledger, steps: seq<Step>)
    requires StrictlySorted(validators)
    ensures var s := Run(cfg, Genesis(validators, feeAccount, withdrawFee, depositFee, ledger), steps);
            && (forall id :: id in s.burns ==> 0 <= s.block - s.burns[id].block)
            && (forall hash :: hash in s.refunds ==> 0 <= s.block - s.refunds[hash].block)
  {
    var s0 := Genesis(validators, feeAccount, withdrawFee, depositFee, ledger);
    RunKeepsInv(cfg, s0, steps);
    PendingIsNotAhead(Run(cfg, s0, steps));
  }
}
