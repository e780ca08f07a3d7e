/** What can happen to a refund in one transition, and for ever. */
module RefundRuns {
  import opened PalletTypes
  import opened Signing
  import opened PalletSpec
  import opened PalletEffects

  ghost predicate Known(s: State, hash: Bytes) {
    hash in s.refunds || hash in s.executedRefunds
  }

  predicate SignsRefund(step: Step, hash: Bytes) {
    step.Extrinsic? && step.call.CreateRefundOrAddSig? && step.call.hash == hash
  }

  predicate FinishesRefund(step: Step, hash: Bytes) {
    step.Extrinsic? && step.call.SetRefundExecuted? && step.call.hash == hash
  }

  /** The signatures collected for a hash; an absent refund has none. */
  function Signatures(s: State, hash: Bytes): seq<StellarSignature> {
    if hash in s.refunds then s.refunds[hash].signatures else []
  }

  /** A validator's call creates the refund or signs it; target and amount are not compared again. */
  predicate SignatureFits(s: State, step: Step, hash: Bytes)
    requires SignsRefund(step, hash)
  {
    && step.origin.Signed? && step.origin.who in s.validators
    && AddSignature(|s.validators| / 2 + 1, Signatures(s, hash), step.call.sig).Success?
  }

  function SignedRefund(s: State, step: Step, hash: Bytes): RefundTransaction
    requires SignsRefund(step, hash) && SignatureFits(s, step, hash)
  {
    var tx := if hash in s.refunds then s.refunds[hash]
              else RefundTransaction(s.block, step.call.amount, step.call.target, hash, [], 0);
    tx.(signatures := AddSignature(|s.validators| / 2 + 1, Signatures(s, hash), step.call.sig).value,
        sequenceNumber := step.call.sequenceNumber)
  }

  lemma SigningStep(cfg: Config, s: State, step: Step, hash: Bytes)
    requires SignsRefund(step, hash)
    ensures Accepted(cfg, s, step) <==> SignatureFits(s, step, hash)
    ensures Accepted(cfg, s, step) ==> Next(cfg, s, step).refunds == s.refunds[hash := SignedRefund(s, step, hash)]
  {
  }

  lemma FinishingStep(cfg: Config, s: State, step: Step, hash: Bytes)
    requires FinishesRefund(step, hash) && Accepted(cfg, s, step)
    ensures hash in s.refunds && hash !in s.executedRefunds
    ensures Next(cfg, s, step).refunds == s.refunds - {hash}
    ensures Next(cfg, s, step).executedRefunds == s.executedRefunds[hash := s.refunds[hash]]
  {
  }

  /** Everything that can happen to the entry of one hash in one transition. */
  lemma RefundStep(cfg: Config, s: State, step: Step, hash: Bytes)
    ensures var s' := Next(cfg, s, step);
            if EndsBlock(s, step) then
              && (hash in s'.refunds <==> hash in s.refunds)
              && (hash in s.refunds ==> s'.refunds[hash] == ExpireRefund(cfg.retryInterval, s.block, s.refunds[hash]))
            else if SignsRefund(step, hash) && Accepted(cfg, s, step) then
              SignatureFits(s, step, hash) && hash in s'.refunds && s'.refunds[hash] == SignedRefund(s, step, hash)
            else if FinishesRefund(step, hash) && Accepted(cfg, s, step) then
              hash in s.refunds && hash !in s'.refunds && hash in s'.executedRefunds
            else
              && (hash in s'.refunds <==> hash in s.refunds)
              && (hash in s.refunds ==> s'.refunds[hash] == s.refunds[hash])
    ensures hash in s.executedRefunds ==>
              hash in Next(cfg, s, step).executedRefunds
              && Next(cfg, s, step).executedRefunds[hash] == s.executedRefunds[hash]
  {
    NextFrame(cfg, s, step);
    if RefundCall(step) && Accepted(cfg, s, step) {
      if step.call.CreateRefundOrAddSig? {
        SigningStep(cfg, s, step, step.call.hash);
        RefundCallFrame(cfg, s, step.origin.who, step.call);
        assert Next(cfg, s, step).executedRefunds == s.executedRefunds;
      } else {
        FinishingStep(cfg, s, step, step.call.hash);
      }
    }
  }

  /** A hash becomes executed by an accepted call to that end, which needs it not to be executed yet. */
  lemma ExecutedRefundStep(cfg: Config, s: State, step: Step, hash: Bytes)
    ensures var s', finished := Next(cfg, s, step), FinishesRefund(step, hash) && Accepted(cfg, s, step);
            && (hash in s'.executedRefunds <==> hash in s.executedRefunds || finished)
            && (finished ==> hash in s.refunds && hash !in s.executedRefunds)
  {
    NextFrame(cfg, s, step);
    if RefundCall(step) && Accepted(cfg, s, step) {
      if step.call.CreateRefundOrAddSig? {
        RefundCallFrame(cfg, s, step.origin.who, step.call);
      } else {
        FinishingStep(cfg, s, step, step.call.hash);
      }
    }
  }

  /** Executed refunds are final, and a refund once created is known for ever. */
  lemma {:induction false} RefundsStayKnown(cfg: Config, s: State, steps: seq<Step>, hash: Bytes)
    ensures Known(s, hash) ==> Known(Run(cfg, s, steps), hash)
    ensures hash in s.executedRefunds ==>
              hash in Run(cfg, s, steps).executedRefunds
              && Run(cfg, s, steps).executedRefunds[hash] == s.executedRefunds[hash]
  {
    if steps == [] {
    } else {
      var front := steps[..|steps| - 1];
      RefundsStayKnown(cfg, s, front, hash);
      RefundStep(cfg, Run(cfg, s, front), steps[|steps| - 1], hash);
    }
  }
}
