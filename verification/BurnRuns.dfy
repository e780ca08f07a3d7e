/** Burns over whole runs: every swap keeps its id, its target and its amount until it is paid out. */
module BurnRuns {
  import opened Wrappers
  import opened ValidatorList
  import opened Ledgers
  import opened PalletTypes
  import opened Signing
  import opened PalletSpec
  import opened PalletEffects
  import opened PalletInvariant

  ghost predicate Known(s: State, id: nat) {
    id in s.burns || id in s.executedBurns
  }

  function BurnRecord(s: State, id: nat): BurnTransaction
    requires id in s.burns || id in s.executedBurns
  {
    if id in s.executedBurns then s.executedBurns[id] else s.burns[id]
  }

  predicate SignsBurn(step: Step, id: nat) {
    step.Extrinsic? && step.call.ProposeBurnOrAddSig? && step.call.burnId == id
  }

  predicate FinishesBurn(step: Step, id: nat) {
    step.Extrinsic? && step.call.SetBurnExecuted? && step.call.burnId == id
  }

  /** The signature calls a validator gets through: right payload, room in the round, nothing repeated. */
  predicate SignatureFits(s: State, step: Step, id: nat)
    requires SignsBurn(step, id)
  {
    && id in s.burns && id !in s.executedBurns
    && step.origin.Signed? && step.origin.who in s.validators
    && s.burns[id].target == step.call.target && s.burns[id].amount == step.call.amount
    && AddSignature(|s.validators| / 2 + 1, s.burns[id].signatures, step.call.sig).Success?
  }

  ghost predicate SwapFits(step: Step) {
    step.Extrinsic? && step.call.SwapToStellar? ==> step.call.value <= U64_MAX
  }

  /** What an accepted call about burns does to the burns it does not name, and to executed ones. */
  lemma OtherBurnsUntouched(cfg: Config, s: State, who: AccountId, call: Call, id: nat)
    requires Inv(s) && BurnCall(Extrinsic(Signed(who), call)) && ApplySigned(cfg, s, who, call).Success?
    ensures var s' := ApplySigned(cfg, s, who, call).value;
            && (id in s.executedBurns ==> id in s'.executedBurns && s'.executedBurns[id] == s.executedBurns[id])
            && (id in s.burns && (call.SwapToStellar? || call.burnId != id) ==>
                  id in s'.burns && s'.burns[id] == s.burns[id])
            && (!Known(s, id) ==>
                  && id !in s'.executedBurns
                  && (id in s'.burns ==> s'.burns[id].signatures == [] && s'.burns[id].sequenceNumber == 0)
                  && (id in s'.burns && SwapFits(Extrinsic(Signed(who), call)) ==> s'.burns[id].amount > 0))
  {
  }

  lemma NamedBurnStep(cfg: Config, s: State, step: Step, id: nat)
    requires Inv(s) && id in s.burns && (SignsBurn(step, id) || FinishesBurn(step, id))
    ensures var s' := Next(cfg, s, step);
            if !Accepted(cfg, s, step) then s' == s
            else if FinishesBurn(step, id) then
              id !in s'.burns && id in s'.executedBurns && s'.executedBurns[id] == s.burns[id]
            else
              && SignatureFits(s, step, id)
              && id in s'.burns
              && s'.burns[id] == s.burns[id].(
                   signatures := AddSignature(|s.validators| / 2 + 1, s.burns[id].signatures, step.call.sig).value,
                   sequenceNumber := step.call.sequenceNumber)
  {
  }

  /** Everything that can happen to a pending burn in one transition. */
  lemma PendingBurnStep(cfg: Config, s: State, step: Step, id: nat)
    requires Inv(s) && id in s.burns
    ensures var s' := Next(cfg, s, step);
            if EndsBlock(s, step) then
              id in s'.burns && s'.burns[id] == ExpireBurn(cfg.retryInterval, s.block, s.burns[id])
            else if SignsBurn(step, id) && Accepted(cfg, s, step) then
              && SignatureFits(s, step, id)
              && id in s'.burns
              && s'.burns[id] == s.burns[id].(
                   signatures := AddSignature(|s.validators| / 2 + 1, s.burns[id].signatures, step.call.sig).value,
                   sequenceNumber := step.call.sequenceNumber)
            else if FinishesBurn(step, id) && Accepted(cfg, s, step) then
              id !in s'.burns && id in s'.executedBurns && s'.executedBurns[id] == s.burns[id]
            else
              id in s'.burns && s'.burns[id] == s.burns[id]
  {
    if step.Finalize? {
      assert !SignsBurn(step, id) && !FinishesBurn(step, id);
    } else if SignsBurn(step, id) || FinishesBurn(step, id) {
      NamedBurnStep(cfg, s, step, id);
    } else if BurnCall(step) {
      if Accepted(cfg, s, step) { OtherBurnsUntouched(cfg, s, step.origin.who, step.call, id); }
    } else {
      NextFrame(cfg, s, step);
    }
  }

  lemma ExecutedBurnStep(cfg: Config, s: State, step: Step, id: nat)
    requires Inv(s) && id in s.executedBurns
    ensures var s' := Next(cfg, s, step);
            id in s'.executedBurns && s'.executedBurns[id] == s.executedBurns[id]
  {
    if BurnCall(step) {
      if Accepted(cfg, s, step) { OtherBurnsUntouched(cfg, s, step.origin.who, step.call, id); }
    } else {
      NextFrame(cfg, s, step);
    }
  }

  /** An id not in use comes into use by a swap only, with an empty round. */
  lemma UnknownBurnStep(cfg: Config, s: State, step: Step, id: nat)
    requires Inv(s) && !Known(s, id)
    ensures var s' := Next(cfg, s, step);
            && id !in s'.executedBurns
            && (id in s'.burns ==> s'.burns[id].signatures == [] && s'.burns[id].sequenceNumber == 0)
            && (id in s'.burns && SwapFits(step) ==> s'.burns[id].amount > 0)
  {
    if BurnCall(step) {
      if Accepted(cfg, s, step) { OtherBurnsUntouched(cfg, s, step.origin.who, step.call, id); }
    } else {
      NextFrame(cfg, s, step);
    }
  }

  lemma SignatureAcceptedIff(cfg: Config, s: State, step: Step, id: nat)
    requires SignsBurn(step, id)
    ensures Accepted(cfg, s, step) <==> SignatureFits(s, step, id)
  {
  }

  /** Executed burns are final. */
  lemma {:induction false} ExecutedBurnsAreFinal(cfg: Config, s: State, steps: seq<Step>, id: nat)
    requires Inv(s) && id in s.executedBurns
    ensures var s' := Run(cfg, s, steps);
            id in s'.executedBurns && id !in s'.burns && s'.executedBurns[id] == s.executedBurns[id]
  {
    if steps == [] {
    } else {
      var front := steps[..|steps| - 1];
      ExecutedBurnsAreFinal(cfg, s, front, id);
      RunKeepsInv(cfg, s, front);
      ExecutedBurnStep(cfg, Run(cfg, s, front), steps[|steps| - 1], id);
      RunKeepsInv(cfg, s, steps);
    }
  }

  /**
   Through signing, any number of expiries and execution, a burn stays known and keeps its
   target and amount: what validators sign is what the user asked for.
   */
  lemma {:induction false} BurnKeepsPayload(cfg: Config, s: State, steps: seq<Step>, id: nat)
    requires Inv(s) && Known(s, id)
    ensures var s' := Run(cfg, s, steps);
            && Known(s', id)
            && BurnRecord(s', id).target == BurnRecord(s, id).target
            && BurnRecord(s', id).amount == BurnRecord(s, id).amount
  {
    if steps == [] {
    } else {
      var front, last := steps[..|steps| - 1], steps[|steps| - 1];
      BurnKeepsPayload(cfg, s, front, id);
      RunKeepsInv(cfg, s, front);
      RunKeepsInv(cfg, s, steps);
      var u := Run(cfg, s, front);
      if id in u.executedBurns { ExecutedBurnStep(cfg, u, last, id); } else { PendingBurnStep(cfg, u, last, id); }
    }
  }

  ghost function IdsUpTo(n: nat): (ids: set<nat>)
    ensures forall id :: id in ids <==> 1 <= id <= n
    ensures |ids| == n
  {
    if n == 0 then {} else IdsUpTo(n - 1) + {n}
  }

  /** From genesis the pending and the executed ids are together exactly 1 .. burnId, without overlap. */
  lemma BurnIdsArePartitioned(
    cfg: Config, validators: seq<AccountId>, feeAccount: Option<AccountId>, withdrawFee: u64, depositFee: u64,
    ledger: Ledger, steps: seq<Step>)
    requires StrictlySorted(validators)
    ensures var s := Run(cfg, Genesis(validators, feeAccount, withdrawFee, depositFee, ledger), steps);
            && s.burns.Keys !! s.executedBurns.Keys
            && s.burns.Keys + s.executedBurns.Keys == IdsUpTo(s.burnId)
            && |s.burns| + |s.executedBurns| == s.burnId
  {
    var s0 := Genesis(validators, feeAccount, withdrawFee, depositFee, ledger);
    RunKeepsInv(cfg, s0, steps);
    var s := Run(cfg, s0, steps);
    assert s.burns.Keys + s.executedBurns.Keys == IdsUpTo(s.burnId);
    assert |s.burns.Keys + s.executedBurns.Keys| == |s.burns.Keys| + |s.executedBurns.Keys|;
  }

  // ---- amounts -------------------------------------------------------------------------------

  /** What an accepted swap records: the next id, the user's target, the amount less the fee, no signatures. */
  lemma SwapRecordsPayload(cfg: Config, s: State, who: AccountId, target: Bytes, amount: nat)
    requires Inv(s) && BurnTft(cfg, s, who, target, amount).Success?
    ensures var s' := BurnTft(cfg, s, who, target, amount).value;
            var id := s.burnId + 1;
            && !Known(s, id) && s'.burnId == id && id in s'.burns
            && s'.burns[id].target == target && s'.burns[id].block == s.block
            && s'.burns[id].signatures == []
            && (amount <= U64_MAX ==> s'.burns[id].amount == amount - s.withdrawFee > 0)
            && (s'.burns[id].amount == 0 <==> s.withdrawFee == U64_MAX && amount > U64_MAX)
            && Free(s.ledger, who) >= amount
  {
  }

  ghost predicate AmountsPositive(s: State) {
    forall id :: Known(s, id) ==> BurnRecord(s, id).amount > 0
  }

  lemma StepKeepsAmountsPositive(cfg: Config, s: State, step: Step)
    requires Inv(s) && AmountsPositive(s) && SwapFits(step)
    ensures AmountsPositive(Next(cfg, s, step))
  {
    var s' := Next(cfg, s, step);
    NextKeepsInv(cfg, s, step);
    forall id | Known(s', id) ensures BurnRecord(s', id).amount > 0 {
      assert id in s.burns || id in s.executedBurns ==> Known(s, id);
      if id in s.executedBurns {
        ExecutedBurnStep(cfg, s, step, id);
      } else if id in s.burns {
        PendingBurnStep(cfg, s, step, id);
      } else {
        UnknownBurnStep(cfg, s, step, id);
      }
    }
  }

  /** Every burn record is worth paying: with swaps of 64 bits no amount is ever zero. */
  lemma {:induction false} AmountsStayPositive(cfg: Config, s: State, steps: seq<Step>)
    requires Inv(s) && AmountsPositive(s)
    requires forall i :: 0 <= i < |steps| ==> SwapFits(steps[i])
    ensures AmountsPositive(Run(cfg, s, steps))
  {
    if steps == [] {
    } else {
      var front := steps[..|steps| - 1];
      AmountsStayPositive(cfg, s, front);
      RunKeepsInv(cfg, s, front);
      StepKeepsAmountsPositive(cfg, Run(cfg, s, front), steps[|steps| - 1]);
    }
  }
}
