/** Which part of the storage each transition touches, and how far an accepted call can go. */
module PalletEffects {
  import opened Wrappers
  import opened ValidatorList
  import opened Ledgers
  import opened PalletTypes
  import opened PalletSpec

  ghost predicate SameMints(s: State, s': State) {
    s'.mints == s.mints && s'.executedMints == s.executedMints
  }

  ghost predicate SameBurns(s: State, s': State) {
    s'.burns == s.burns && s'.executedBurns == s.executedBurns && s'.burnId == s.burnId
  }

  ghost predicate SameRefunds(s: State, s': State) {
    s'.refunds == s.refunds && s'.executedRefunds == s.executedRefunds
  }

  ghost predicate SameSettings(s: State, s': State) {
    && s'.validators == s.validators && s'.feeAccount == s.feeAccount
    && s'.withdrawFee == s.withdrawFee && s'.depositFee == s.depositFee
  }

  predicate MintCall(step: Step) { step.Extrinsic? && step.call.ProposeOrVoteMint? }

  predicate BurnCall(step: Step) {
    step.Extrinsic? && (step.call.SwapToStellar? || step.call.ProposeBurnOrAddSig? || step.call.SetBurnExecuted?)
  }

  predicate RefundCall(step: Step) {
    step.Extrinsic? && (step.call.CreateRefundOrAddSig? || step.call.SetRefundExecuted?)
  }

  /** The record a proposal or vote for `id` acts on: the pending one, or a new one without votes. */
  function Proposed(s: State, id: Bytes, target: AccountId, amount: u64): MintTransaction {
    if id in s.mints then s.mints[id] else MintTransaction(amount, target, s.block, 0)
  }

  /** What one more vote does: it is counted, or it mints, or it is refused at the quorum. */
  ghost predicate VoteResult(cfg: Config, s: State, id: Bytes, tx: MintTransaction, r: Outcome) {
    if 2 * tx.votes <= |s.validators| then
      && r.Success?
      && r.value.mints == s.mints[id := tx] && r.value.executedMints == s.executedMints
      && r.value.ledger == s.ledger
    else if tx.amount <= s.depositFee then
      r == Failure(AmountIsLessThanDepositFee)
    else
      && r.Success?
      && r.value.mints == s.mints - {id}
      && r.value.executedMints == s.executedMints[id := tx.(block := s.block)]
      && r.value.ledger == PayFee(cfg.existentialDeposit,
           Deposit(cfg.existentialDeposit, s.ledger, tx.target, tx.amount - s.depositFee),
           s.feeAccount, s.depositFee)
  }

  lemma VoteMintEffect(cfg: Config, s: State, id: Bytes)
    requires id in s.mints
    ensures VoteResult(cfg, s, id, s.mints[id].(votes := s.mints[id].votes + 1), VoteMint(cfg, s, id))
  {
    var tx := s.mints[id].(votes := s.mints[id].votes + 1);
    assert s.mints[id := tx] - {id} == s.mints - {id};
  }

  /** The result of a proposal or vote by a validator on a mint that is not executed yet. */
  lemma ProposeMintEffect(cfg: Config, s: State, who: AccountId, id: Bytes, target: AccountId, amount: u64)
    requires who in s.validators && id !in s.executedMints
    ensures var before := Proposed(s, id, target, amount);
            VoteResult(cfg, s, id, before.(votes := before.votes + 1), ProposeMint(cfg, s, who, id, target, amount))
  {
    if id in s.mints {
      VoteMintEffect(cfg, s, id);
    } else {
      var tx := MintTransaction(amount, target, s.block, 0);
      VoteMintEffect(cfg, s.(
        mints := s.mints[id := tx],
        events := s.events + [MintTransactionProposed(id, target, amount)]), id);
      assert s.mints[id := tx] - {id} == s.mints - {id};
      assert s.mints[id := tx][id := tx.(votes := 1)] == s.mints[id := tx.(votes := 1)];
    }
  }

  ghost predicate MintsOnly(s: State, s': State) {
    SameBurns(s, s') && SameRefunds(s, s') && SameSettings(s, s') && s'.block == s.block && s.events <= s'.events
  }

  lemma VoteMintFrame(cfg: Config, s: State, id: Bytes)
    requires id in s.mints && VoteMint(cfg, s, id).Success?
    ensures MintsOnly(s, VoteMint(cfg, s, id).value)
  {
  }

  lemma MintCallFrame(cfg: Config, s: State, who: AccountId, id: Bytes, target: AccountId, amount: u64)
    requires ProposeMint(cfg, s, who, id, target, amount).Success?
    ensures MintsOnly(s, ProposeMint(cfg, s, who, id, target, amount).value)
  {
    if id in s.mints {
      VoteMintFrame(cfg, s, id);
    } else {
      VoteMintFrame(cfg, s.(
        mints := s.mints[id := MintTransaction(amount, target, s.block, 0)],
        events := s.events + [MintTransactionProposed(id, target, amount)]), id);
    }
  }

  lemma BurnCallFrame(cfg: Config, s: State, who: AccountId, call: Call)
    requires call.SwapToStellar? || call.ProposeBurnOrAddSig? || call.SetBurnExecuted?
    requires ApplySigned(cfg, s, who, call).Success?
    ensures var s' := ApplySigned(cfg, s, who, call).value;
            && SameMints(s, s') && SameRefunds(s, s') && SameSettings(s, s')
            && s'.block == s.block && s.events <= s'.events
            && (!call.SwapToStellar? ==> s'.ledger == s.ledger && s'.burnId == s.burnId)
  {
  }

  lemma RefundCallFrame(cfg: Config, s: State, who: AccountId, call: Call)
    requires call.CreateRefundOrAddSig? || call.SetRefundExecuted?
    requires ApplySigned(cfg, s, who, call).Success?
    ensures var s' := ApplySigned(cfg, s, who, call).value;
            && SameMints(s, s') && SameBurns(s, s') && SameSettings(s, s')
            && s'.block == s.block && s.events <= s'.events && s'.ledger == s.ledger
  {
  }

  lemma RestrictedFrame(s: State, call: Call)
    requires ApplyRestricted(s, call).Success?
    ensures var s' := ApplyRestricted(s, call).value;
            && SameMints(s, s') && SameBurns(s, s') && SameRefunds(s, s')
            && s'.block == s.block && s'.ledger == s.ledger && s'.events == s.events
  {
  }

  ghost predicate Framed(s: State, step: Step, s': State) {
    && (!MintCall(step) ==> SameMints(s, s'))
    && (!BurnCall(step) && !step.Finalize? ==> SameBurns(s, s'))
    && (!RefundCall(step) && !step.Finalize? ==> SameRefunds(s, s'))
    && (!(step.Extrinsic? && Restricted(step.call)) ==> SameSettings(s, s'))
    && (step.Finalize? || (step.Extrinsic? && !step.call.SwapToStellar? && !step.call.ProposeOrVoteMint?)
        ==> s'.ledger == s.ledger)
    && (!(step.Extrinsic? && step.call.SwapToStellar?) ==> s'.burnId == s.burnId)
    && (!step.Finalize? ==> s'.block == s.block)
    && s.events <= s'.events
  }

  lemma SignedFrame(cfg: Config, s: State, who: AccountId, call: Call)
    requires !Restricted(call) && ApplySigned(cfg, s, who, call).Success?
    ensures Framed(s, Extrinsic(Signed(who), call), ApplySigned(cfg, s, who, call).value)
  {
    match call
    case ProposeOrVoteMint(id, target, amount) => MintCallFrame(cfg, s, who, id, target, amount);
    case CreateRefundOrAddSig(_, _, _, _, _) => RefundCallFrame(cfg, s, who, call);
    case SetRefundExecuted(_) => RefundCallFrame(cfg, s, who, call);
    case _ => BurnCallFrame(cfg, s, who, call);
  }

  /** Every transition leaves alone what is not its business, and the event log only grows. */
  lemma NextFrame(cfg: Config, s: State, step: Step)
    ensures Framed(s, step, Next(cfg, s, step))
  {
    if step.Extrinsic? && Apply(cfg, s, step.origin, step.call).Success? {
      if Restricted(step.call) {
        RestrictedFrame(s, step.call);
      } else {
        SignedFrame(cfg, s, step.origin.who, step.call);
      }
    }
  }

  predicate ChangesValidators(cfg: Config, s: State, step: Step) {
    Accepted(cfg, s, step) && (step.call.AddBridgeValidator? || step.call.RemoveBridgeValidator?)
  }

  predicate ChangesDepositFee(cfg: Config, s: State, step: Step) {
    Accepted(cfg, s, step) && step.call.SetDepositFee?
  }

  /** No step of a run changes the validators; refused attempts to do so do not matter. */
  ghost predicate SteadyValidators(cfg: Config, s: State, steps: seq<Step>) {
    if steps == [] then true
    else
      var front, last := steps[..|steps| - 1], steps[|steps| - 1];
      SteadyValidators(cfg, s, front) && !ChangesValidators(cfg, Run(cfg, s, front), last)
  }

  lemma {:induction false} SteadyPrefix(cfg: Config, s: State, steps: seq<Step>, n: nat)
    requires n <= |steps| && SteadyValidators(cfg, s, steps)
    ensures SteadyValidators(cfg, s, steps[..n])
  {
    if n == |steps| {
      assert steps[..n] == steps;
    } else {
      SteadyPrefix(cfg, s, steps[..|steps| - 1], n);
      assert steps[..|steps| - 1][..n] == steps[..n];
    }
  }

  lemma RestrictedSettings(s: State, call: Call)
    requires ApplyRestricted(s, call).Success?
    ensures var s' := ApplyRestricted(s, call).value;
            && (!call.AddBridgeValidator? && !call.RemoveBridgeValidator? ==> s'.validators == s.validators)
            && (!call.SetDepositFee? ==> s'.depositFee == s.depositFee)
  {
  }

  lemma SteadyStep(cfg: Config, s: State, step: Step)
    ensures var s' := Next(cfg, s, step);
            && (!ChangesValidators(cfg, s, step) ==> s'.validators == s.validators)
            && (!ChangesDepositFee(cfg, s, step) ==> s'.depositFee == s.depositFee)
  {
    if step.Extrinsic? && Restricted(step.call) {
      if Accepted(cfg, s, step) { RestrictedSettings(s, step.call); }
    } else {
      NextFrame(cfg, s, step);
    }
  }

  lemma {:induction false} ValidatorsStaySteady(cfg: Config, s: State, steps: seq<Step>)
    requires SteadyValidators(cfg, s, steps)
    ensures Run(cfg, s, steps).validators == s.validators
  {
    if steps == [] {
    } else {
      var front := steps[..|steps| - 1];
      ValidatorsStaySteady(cfg, s, front);
      SteadyStep(cfg, Run(cfg, s, front), steps[|steps| - 1]);
    }
  }
}
