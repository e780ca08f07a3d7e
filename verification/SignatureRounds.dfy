/** Signature rounds of burns and refunds as runs of the chain, with any other steps in between. */
module SignatureRounds {
  import opened Wrappers
  import opened Collections
  import opened ValidatorList
  import opened PalletTypes
  import opened Signing
  import opened PalletSpec
  import opened PalletEffects
  import opened PalletEvents
  import opened PalletInvariant
  import BurnRuns
  import RefundRuns

  function BurnReady(id: nat): Event -> bool { (e: Event) => e == BurnTransactionReady(id) }

  function RefundReady(hash: Bytes): Event -> bool { (e: Event) => e == RefundTransactionReady(hash) }

  function RefundDone(hash: Bytes): Event -> bool {
    (e: Event) => e.RefundTransactionProcessed? && e.refund.txHash == hash
  }

  // ---- burns ---------------------------------------------------------------------------------

  predicate Submits(validators: seq<AccountId>, step: Step, id: nat, target: Bytes, amount: u64) {
    && BurnRuns.SignsBurn(step, id)
    && step.origin.Signed? && step.origin.who in validators
    && step.call.target == target && step.call.amount == amount
  }

  /** The signatures validators submit for one burn with its own payload. */
  function BurnSubmissions(
    validators: seq<AccountId>, steps: seq<Step>, id: nat, target: Bytes, amount: u64): seq<StellarSignature>
  {
    if steps == [] then []
    else
      var last := steps[|steps| - 1];
      BurnSubmissions(validators, steps[..|steps| - 1], id, target, amount)
      + if Submits(validators, last, id, target, amount) then [last.call.sig] else []
  }

  lemma BurnReadyCount(s: State, id: nat, sig: StellarSignature, seqNo: u64)
    requires id in s.burns && AddBurnSignature(s, id, sig, seqNo).Success?
    ensures var s' := AddBurnSignature(s, id, sig, seqNo).value;
            && id in s'.burns
            && Count(Emitted(s, s'), BurnReady(id)) == if 2 * |s'.burns[id].signatures| > |s.validators| then 1 else 0
  {
    var s', p := AddBurnSignature(s, id, sig, seqNo).value, BurnReady(id);
    var signed := [BurnTransactionSignatureAdded(id, sig)];
    CountZero(signed, p);
    if 2 * |s'.burns[id].signatures| > |s.validators| {
      assert Emitted(s, s') == signed + [BurnTransactionReady(id)];
      CountAppend(signed, BurnTransactionReady(id), p);
    } else {
      assert Emitted(s, s') == signed;
    }
  }

  /** An accepted signature announces Ready exactly when it completes the quorum. */
  lemma BurnReadyStep(cfg: Config, s: State, step: Step, id: nat)
    ensures var s' := Next(cfg, s, step);
            Count(s'.events, BurnReady(id)) == Count(s.events, BurnReady(id))
            + if BurnRuns.SignsBurn(step, id) && Accepted(cfg, s, step) && id in s'.burns
                 && 2 * |s'.burns[id].signatures| > |s.validators| then 1 else 0
  {
    NextCount(cfg, s, step, BurnReady(id));
    if BurnRuns.SignsBurn(step, id) {
      if Accepted(cfg, s, step) {
        BurnReadyCount(s, id, step.call.sig, step.call.sequenceNumber);
      } else {
        assert Emitted(s, Next(cfg, s, step)) == [];
      }
    }
  }

  /** A pending burn expires in a step exactly when the step announces it. */
  lemma BurnExpiryStep(cfg: Config, s: State, step: Step, id: nat)
    ensures Count(Next(cfg, s, step).events, BurnExpired(id)) == Count(s.events, BurnExpired(id))
            + if EndsBlock(s, step) && id in s.burns && Due(cfg.retryInterval, s.block, s.burns[id].block) then 1 else 0
  {
    NextCount(cfg, s, step, BurnExpired(id));
    if EndsBlock(s, step) {
      EndBlockCounts(cfg, s, step.burnOrder, step.refundOrder, id, "");
    } else if step.Finalize? {
      assert Emitted(s, Next(cfg, s, step)) == [];
    }
  }

  predicate Full(quorum: nat, subs: seq<StellarSignature>) {
    |Round(quorum, subs)| == quorum
  }

  /** `s'` is the round that started at `s` after the submissions `subs`: payload, signatures and announcements. */
  ghost predicate InBurnRound(s: State, s': State, id: nat, subs: seq<StellarSignature>) {
    && id in s.burns && id in s'.burns
    && s'.burns[id].target == s.burns[id].target && s'.burns[id].amount == s.burns[id].amount
    && s'.burns[id].signatures == Round(|s.validators| / 2 + 1, subs)
    && Count(s'.events, BurnReady(id))
       == Count(s.events, BurnReady(id)) + if Full(|s.validators| / 2 + 1, subs) then 1 else 0
  }

  lemma BurnRoundStep(cfg: Config, s: State, u: State, step: Step, id: nat, subs: seq<StellarSignature>)
    requires Inv(u) && InBurnRound(s, u, id, subs) && u.validators == s.validators
    requires id in Next(cfg, u, step).burns
    requires !(EndsBlock(u, step) && Due(cfg.retryInterval, u.block, u.burns[id].block))
    ensures InBurnRound(s, Next(cfg, u, step), id,
              subs + if Submits(s.validators, step, id, s.burns[id].target, s.burns[id].amount)
                     then [step.call.sig] else [])
  {
    BurnReadyStep(cfg, u, step, id);
    BurnRuns.PendingBurnStep(cfg, u, step, id);
    if BurnRuns.SignsBurn(step, id) {
      BurnRuns.SignatureAcceptedIff(cfg, u, step, id);
      RoundStep(|s.validators| / 2 + 1, subs, step.call.sig);
      RoundStep(|s.validators| / 2 + 1, subs + [step.call.sig], step.call.sig);
    }
    assert subs + [] == subs;
  }

  /**
   One round of a burn. Whatever else the chain does, as long as the burn is not paid out, does
   not expire and the validators stay, its signatures are the first `quorum` submissions whose
   key and signature are both new, in order; Ready is announced once, on completion.
   */
  lemma {:induction false} BurnRound(cfg: Config, s: State, steps: seq<Step>, id: nat)
    requires Inv(s) && id in s.burns && s.burns[id].signatures == [] && SteadyValidators(cfg, s, steps)
    requires id in Run(cfg, s, steps).burns
    requires Count(Run(cfg, s, steps).events, BurnExpired(id)) == Count(s.events, BurnExpired(id))
    ensures InBurnRound(s, Run(cfg, s, steps), id,
              BurnSubmissions(s.validators, steps, id, s.burns[id].target, s.burns[id].amount))
  {
    if steps == [] {
    } else {
      var front, last := steps[..|steps| - 1], steps[|steps| - 1];
      var u := Run(cfg, s, front);
      RunKeepsInv(cfg, s, front);
      ValidatorsStaySteady(cfg, s, front);
      ExpiryCountGrows(cfg, s, front, id);
      BurnExpiryStep(cfg, u, last, id);
      StillPending(cfg, s, front, last, id);
      BurnRound(cfg, s, front, id);
      BurnRoundStep(cfg, s, u, last, id,
                    BurnSubmissions(s.validators, front, id, s.burns[id].target, s.burns[id].amount));
    }
  }

  /** A burn pending after a run was pending before its last step. */
  lemma StillPending(cfg: Config, s: State, front: seq<Step>, last: Step, id: nat)
    requires Inv(s) && BurnRuns.Known(s, id)
    requires id in Next(cfg, Run(cfg, s, front), last).burns
    ensures id in Run(cfg, s, front).burns
  {
    var u := Run(cfg, s, front);
    RunKeepsInv(cfg, s, front);
    BurnRuns.BurnKeepsPayload(cfg, s, front, id);
    if id in u.executedBurns {
      BurnRuns.ExecutedBurnStep(cfg, u, last, id);
      NextKeepsInv(cfg, u, last);
    }
  }

  lemma {:induction false} ExpiryCountGrows(cfg: Config, s: State, steps: seq<Step>, id: nat)
    ensures Count(Run(cfg, s, steps).events, BurnExpired(id)) >= Count(s.events, BurnExpired(id))
  {
    if steps == [] {
    } else {
      var front := steps[..|steps| - 1];
      ExpiryCountGrows(cfg, s, front, id);
      BurnExpiryStep(cfg, Run(cfg, s, front), steps[|steps| - 1], id);
    }
  }

  /** Ready is reached if and only if enough different validators' keys were submitted. */
  lemma BurnReadyIffEnoughKeys(cfg: Config, s: State, steps: seq<Step>, id: nat)
    requires Inv(s) && id in s.burns && s.burns[id].signatures == [] && SteadyValidators(cfg, s, steps)
    requires id in Run(cfg, s, steps).burns
    requires Count(Run(cfg, s, steps).events, BurnExpired(id)) == Count(s.events, BurnExpired(id))
    requires OneSignaturePerKey(BurnSubmissions(s.validators, steps, id, s.burns[id].target, s.burns[id].amount))
    ensures Count(Run(cfg, s, steps).events, BurnReady(id)) == Count(s.events, BurnReady(id)) + 1
            <==> 2 * |Keys(BurnSubmissions(s.validators, steps, id, s.burns[id].target, s.burns[id].amount))|
                 > |s.validators|
  {
    BurnRound(cfg, s, steps, id);
    RoundCompletesIffEnoughKeys(
      |s.validators| / 2 + 1, BurnSubmissions(s.validators, steps, id, s.burns[id].target, s.burns[id].amount));
  }

  // ---- the log of accepted signatures ----------------------------------------------------------

  datatype Entry = Entry(sig: StellarSignature, sequenceNumber: u64)

  function Sigs(log: seq<Entry>): seq<StellarSignature> {
    seq(|log|, i requires 0 <= i < |log| => log[i].sig)
  }

  function LastSequence(log: seq<Entry>): u64 {
    if log == [] then 0 else log[|log| - 1].sequenceNumber
  }

  /** The signatures accepted for a burn since it was created or last announced as expired. */
  function BurnLog(cfg: Config, s: State, steps: seq<Step>, id: nat): seq<Entry> {
    if steps == [] then []
    else
      var front, last := steps[..|steps| - 1], steps[|steps| - 1];
      var u := Run(cfg, s, front);
      if Count(Emitted(u, Next(cfg, u, last)), BurnExpired(id)) > 0 then []
      else if BurnRuns.SignsBurn(last, id) && Accepted(cfg, u, last) then
        BurnLog(cfg, s, front, id) + [Entry(last.call.sig, last.call.sequenceNumber)]
      else BurnLog(cfg, s, front, id)
  }

  lemma SigsAppend(log: seq<Entry>, e: Entry)
    ensures Sigs(log + [e]) == Sigs(log) + [e.sig] && LastSequence(log + [e]) == e.sequenceNumber
  {
  }

  function AcceptedEntry(cfg: Config, u: State, step: Step, id: nat): Option<Entry> {
    if BurnRuns.SignsBurn(step, id) && Accepted(cfg, u, step)
    then Some(Entry(step.call.sig, step.call.sequenceNumber)) else None
  }

  /** The signatures of a burn in `u'` come from those in `u`: reset by an expiry, or longer by one entry. */
  ghost predicate BurnSignaturesFrom(u: State, u': State, id: nat, expired: bool, entry: Option<Entry>) {
    && (id in u.burns || expired || entry.Some? ==> BurnRuns.Known(u, id))
    && (BurnRuns.Known(u, id) ==> BurnRuns.Known(u', id))
    && (id in u'.burns && id !in u.burns ==>
          !BurnRuns.Known(u, id) && u'.burns[id].signatures == [] && u'.burns[id].sequenceNumber == 0)
    && (id in u'.burns && id in u.burns ==>
          var before, after := u.burns[id], u'.burns[id];
          if expired then after.signatures == [] && after.sequenceNumber == 0
          else if entry.Some? then
            after.signatures == before.signatures + [entry.value.sig]
            && after.sequenceNumber == entry.value.sequenceNumber
          else after.signatures == before.signatures && after.sequenceNumber == before.sequenceNumber)
  }

  lemma PendingBurnSignatures(cfg: Config, u: State, step: Step, id: nat)
    requires Inv(u) && id in u.burns
    ensures BurnSignaturesFrom(u, Next(cfg, u, step), id,
              EndsBlock(u, step) && Due(cfg.retryInterval, u.block, u.burns[id].block), AcceptedEntry(cfg, u, step, id))
  {
    BurnRuns.PendingBurnStep(cfg, u, step, id);
  }

  lemma OtherBurnSignatures(cfg: Config, u: State, step: Step, id: nat)
    requires Inv(u) && id !in u.burns
    ensures BurnSignaturesFrom(u, Next(cfg, u, step), id, false, AcceptedEntry(cfg, u, step, id))
  {
    if BurnRuns.SignsBurn(step, id) { BurnRuns.SignatureAcceptedIff(cfg, u, step, id); }
    if id in u.executedBurns {
      BurnRuns.ExecutedBurnStep(cfg, u, step, id);
      NextKeepsInv(cfg, u, step);
    } else {
      BurnRuns.UnknownBurnStep(cfg, u, step, id);
    }
  }

  lemma BurnSignaturesStep(cfg: Config, u: State, step: Step, id: nat)
    requires Inv(u)
    ensures BurnSignaturesFrom(u, Next(cfg, u, step), id,
              Count(Emitted(u, Next(cfg, u, step)), BurnExpired(id)) > 0, AcceptedEntry(cfg, u, step, id))
  {
    BurnExpiryStep(cfg, u, step, id);
    NextCount(cfg, u, step, BurnExpired(id));
    if id in u.burns { PendingBurnSignatures(cfg, u, step, id); } else { OtherBurnSignatures(cfg, u, step, id); }
  }

  ghost predicate LogOfBurn(s: State, id: nat, log: seq<Entry>) {
    && (id in s.burns ==>
          s.burns[id].signatures == Sigs(log) && s.burns[id].sequenceNumber == LastSequence(log))
    && (!BurnRuns.Known(s, id) ==> log == [])
  }

  lemma LogOfBurnStep(u: State, u': State, id: nat, log: seq<Entry>, expired: bool, entry: Option<Entry>)
    requires LogOfBurn(u, id, log) && BurnSignaturesFrom(u, u', id, expired, entry)
    ensures LogOfBurn(u', id, if expired then [] else if entry.Some? then log + [entry.value] else log)
  {
    if entry.Some? { SigsAppend(log, entry.value); }
  }

  /** In every run the stored signatures and sequence number of a pending burn are those of its log. */
  lemma {:induction false} BurnSignaturesAreTheLog(cfg: Config, s: State, steps: seq<Step>, id: nat)
    requires Inv(s) && !BurnRuns.Known(s, id)
    ensures LogOfBurn(Run(cfg, s, steps), id, BurnLog(cfg, s, steps, id))
  {
    if steps == [] {
    } else {
      var front, last := steps[..|steps| - 1], steps[|steps| - 1];
      var u := Run(cfg, s, front);
      RunKeepsInv(cfg, s, front);
      BurnSignaturesAreTheLog(cfg, s, front, id);
      BurnSignaturesStep(cfg, u, last, id);
      LogOfBurnStep(u, Next(cfg, u, last), id, BurnLog(cfg, s, front, id),
                    Count(Emitted(u, Next(cfg, u, last)), BurnExpired(id)) > 0, AcceptedEntry(cfg, u, last, id));
    }
  }

  // ---- refunds ---------------------------------------------------------------------------------

  predicate SubmitsRefund(validators: seq<AccountId>, step: Step, hash: Bytes) {
    RefundRuns.SignsRefund(step, hash) && step.origin.Signed? && step.origin.who in validators
  }

  function RefundSubmissions(validators: seq<AccountId>, steps: seq<Step>, hash: Bytes): seq<StellarSignature> {
    if steps == [] then []
    else
      var last := steps[|steps| - 1];
      RefundSubmissions(validators, steps[..|steps| - 1], hash)
      + if SubmitsRefund(validators, last, hash) then [last.call.sig] else []
  }

  function ReadyEvents(quorum: nat, s: State, hash: Bytes): seq<Event> {
    if |RefundRuns.Signatures(s, hash)| >= quorum then [RefundTransactionReady(hash)] else []
  }

  lemma RefundSigningEvents(
    s: State, who: AccountId, hash: Bytes, target: Bytes, amount: u64, sig: StellarSignature, seqNo: u64)
    requires CreateRefund(s, who, hash, target, amount, sig, seqNo).Success?
    ensures var s' := CreateRefund(s, who, hash, target, amount, sig, seqNo).value;
            Emitted(s, s')
            == [RefundTransactionSignatureAdded(hash, sig)] + ReadyEvents(Quorum(s), s', hash)
               + if hash in s.refunds then [] else [RefundTransactionCreated(hash, target, amount)]
  {
  }

  lemma RefundReadyCount(
    s: State, who: AccountId, hash: Bytes, target: Bytes, amount: u64, sig: StellarSignature, seqNo: u64)
    requires CreateRefund(s, who, hash, target, amount, sig, seqNo).Success?
    ensures var s' := CreateRefund(s, who, hash, target, amount, sig, seqNo).value;
            Count(Emitted(s, s'), RefundReady(hash)) == |ReadyEvents(Quorum(s), s', hash)|
  {
    var s', p := CreateRefund(s, who, hash, target, amount, sig, seqNo).value, RefundReady(hash);
    var signed, ready := [RefundTransactionSignatureAdded(hash, sig)], ReadyEvents(Quorum(s), s', hash);
    var created := if hash in s.refunds then [] else [RefundTransactionCreated(hash, target, amount)];
    RefundSigningEvents(s, who, hash, target, amount, sig, seqNo);
    CountConcat(signed + ready, created, p);
    CountConcat(signed, ready, p);
    CountZero(signed, p);
    CountZero(created, p);
    if ready != [] { CountAppend([], RefundTransactionReady(hash), p); assert [] + ready == ready; }
  }

  lemma RefundReadyStep(cfg: Config, s: State, step: Step, hash: Bytes)
    ensures var s' := Next(cfg, s, step);
            Count(s'.events, RefundReady(hash)) == Count(s.events, RefundReady(hash))
            + if RefundRuns.SignsRefund(step, hash) && Accepted(cfg, s, step)
              then |ReadyEvents(Quorum(s), s', hash)| else 0
  {
    NextCount(cfg, s, step, RefundReady(hash));
    if RefundRuns.SignsRefund(step, hash) {
      if Accepted(cfg, s, step) {
        RefundReadyCount(s, step.origin.who, hash, step.call.target, step.call.amount,
                         step.call.sig, step.call.sequenceNumber);
      } else {
        assert Emitted(s, Next(cfg, s, step)) == [];
      }
    }
  }

  lemma RefundExpiryStep(cfg: Config, s: State, step: Step, hash: Bytes)
    ensures Count(Next(cfg, s, step).events, RefundExpired(hash)) == Count(s.events, RefundExpired(hash))
            + if EndsBlock(s, step) && hash in s.refunds && Due(cfg.retryInterval, s.block, s.refunds[hash].block)
              then 1 else 0
  {
    NextCount(cfg, s, step, RefundExpired(hash));
    if EndsBlock(s, step) {
      EndBlockCounts(cfg, s, step.burnOrder, step.refundOrder, 0, hash);
    } else if step.Finalize? {
      assert Emitted(s, Next(cfg, s, step)) == [];
    }
  }

  lemma RefundDoneStep(cfg: Config, s: State, step: Step, hash: Bytes)
    requires RefundsWellFormed(s)
    ensures Count(Next(cfg, s, step).events, RefundDone(hash)) == Count(s.events, RefundDone(hash))
            + if RefundRuns.FinishesRefund(step, hash) && Accepted(cfg, s, step) then 1 else 0
  {
    var s', p := Next(cfg, s, step), RefundDone(hash);
    NextCount(cfg, s, step, p);
    if step.Extrinsic? && step.call.SetRefundExecuted? {
      if Accepted(cfg, s, step) {
        var done := RefundTransactionProcessed(s.refunds[step.call.hash]);
        assert Emitted(s, s') == [] + [done];
        CountAppend([], done, p);
      } else {
        assert Emitted(s, s') == [];
      }
    }
  }

  lemma {:induction false} RefundCountsGrow(cfg: Config, s: State, steps: seq<Step>, hash: Bytes)
    requires Inv(s)
    ensures Count(Run(cfg, s, steps).events, RefundExpired(hash)) >= Count(s.events, RefundExpired(hash))
    ensures Count(Run(cfg, s, steps).events, RefundDone(hash)) >= Count(s.events, RefundDone(hash))
  {
    if steps == [] {
    } else {
      var front := steps[..|steps| - 1];
      RefundCountsGrow(cfg, s, front, hash);
      RunKeepsInv(cfg, s, front);
      RefundExpiryStep(cfg, Run(cfg, s, front), steps[|steps| - 1], hash);
      RefundDoneStep(cfg, Run(cfg, s, front), steps[|steps| - 1], hash);
    }
  }

  ghost predicate InRefundRound(s: State, s': State, hash: Bytes, subs: seq<StellarSignature>) {
    && (hash in s'.refunds <==> hash in s.refunds || subs != [])
    && RefundRuns.Signatures(s', hash) == Round(|s.validators| / 2 + 1, subs)
    && Count(s'.events, RefundReady(hash))
       == Count(s.events, RefundReady(hash)) + if Full(|s.validators| / 2 + 1, subs) then 1 else 0
  }

  lemma RefundRoundStep(cfg: Config, s: State, u: State, step: Step, hash: Bytes, subs: seq<StellarSignature>)
    requires InRefundRound(s, u, hash, subs) && u.validators == s.validators
    requires !(EndsBlock(u, step) && hash in u.refunds && Due(cfg.retryInterval, u.block, u.refunds[hash].block))
    requires !(RefundRuns.FinishesRefund(step, hash) && Accepted(cfg, u, step))
    ensures InRefundRound(s, Next(cfg, u, step), hash,
              subs + if SubmitsRefund(s.validators, step, hash) then [step.call.sig] else [])
  {
    RefundReadyStep(cfg, u, step, hash);
    RefundRuns.RefundStep(cfg, u, step, hash);
    if RefundRuns.SignsRefund(step, hash) {
      RefundRuns.SigningStep(cfg, u, step, hash);
      RoundStep(|s.validators| / 2 + 1, subs, step.call.sig);
      RoundStep(|s.validators| / 2 + 1, subs + [step.call.sig], step.call.sig);
    }
    assert subs + [] == subs;
  }

  /**
   One round of a refund, from before its creation or from an expiry: while it is neither
   executed nor expired, its signatures are the first `quorum` new submissions in order.
   */
  lemma {:induction false} RefundRound(cfg: Config, s: State, steps: seq<Step>, hash: Bytes)
    requires Inv(s) && RefundRuns.Signatures(s, hash) == [] && SteadyValidators(cfg, s, steps)
    requires Count(Run(cfg, s, steps).events, RefundDone(hash)) == Count(s.events, RefundDone(hash))
    requires Count(Run(cfg, s, steps).events, RefundExpired(hash)) == Count(s.events, RefundExpired(hash))
    ensures InRefundRound(s, Run(cfg, s, steps), hash, RefundSubmissions(s.validators, steps, hash))
  {
    if steps == [] {
    } else {
      var front, last := steps[..|steps| - 1], steps[|steps| - 1];
      var u := Run(cfg, s, front);
      RunKeepsInv(cfg, s, front);
      ValidatorsStaySteady(cfg, s, front);
      RefundCountsGrow(cfg, s, front, hash);
      RefundExpiryStep(cfg, u, last, hash);
      RefundDoneStep(cfg, u, last, hash);
      RefundRound(cfg, s, front, hash);
      RefundRoundStep(cfg, s, u, last, hash, RefundSubmissions(s.validators, front, hash));
    }
  }

  /** A refund becomes Ready if and only if enough different validators' keys were submitted. */
  lemma RefundReadyIffEnoughKeys(cfg: Config, s: State, steps: seq<Step>, hash: Bytes)
    requires Inv(s) && RefundRuns.Signatures(s, hash) == [] && SteadyValidators(cfg, s, steps)
    requires Count(Run(cfg, s, steps).events, RefundDone(hash)) == Count(s.events, RefundDone(hash))
    requires Count(Run(cfg, s, steps).events, RefundExpired(hash)) == Count(s.events, RefundExpired(hash))
    requires OneSignaturePerKey(RefundSubmissions(s.validators, steps, hash))
    ensures Count(Run(cfg, s, steps).events, RefundReady(hash)) == Count(s.events, RefundReady(hash)) + 1
            <==> 2 * |Keys(RefundSubmissions(s.validators, steps, hash))| > |s.validators|
  {
    RefundRound(cfg, s, steps, hash);
    RoundCompletesIffEnoughKeys(|s.validators| / 2 + 1, RefundSubmissions(s.validators, steps, hash));
  }

  /** Until it is executed a refund keeps the target and amount it was created with, whoever signs what. */
  lemma {:induction false} RefundKeepsTerms(cfg: Config, s: State, steps: seq<Step>, hash: Bytes)
    requires Inv(s) && hash in s.refunds
    requires Count(Run(cfg, s, steps).events, RefundDone(hash)) == Count(s.events, RefundDone(hash))
    ensures var s' := Run(cfg, s, steps);
            && hash in s'.refunds
            && s'.refunds[hash].target == s.refunds[hash].target && s'.refunds[hash].amount == s.refunds[hash].amount
  {
    if steps == [] {
    } else {
      var front, last := steps[..|steps| - 1], steps[|steps| - 1];
      var u := Run(cfg, s, front);
      RunKeepsInv(cfg, s, front);
      RefundCountsGrow(cfg, s, front, hash);
      RefundDoneStep(cfg, u, last, hash);
      RefundKeepsTerms(cfg, s, front, hash);
      RefundRuns.RefundStep(cfg, u, last, hash);
    }
  }

  /** A hash is executed at most once, over any run. */
  lemma {:induction false} RefundExecutedAtMostOnce(cfg: Config, s: State, steps: seq<Step>, hash: Bytes)
    requires Inv(s) && hash !in s.executedRefunds
    ensures Count(Run(cfg, s, steps).events, RefundDone(hash)) - Count(s.events, RefundDone(hash))
         == if hash in Run(cfg, s, steps).executedRefunds then 1 else 0
  {
    if steps == [] {
    } else {
      var front, last := steps[..|steps| - 1], steps[|steps| - 1];
      var u := Run(cfg, s, front);
      RefundExecutedAtMostOnce(cfg, s, front, hash);
      RunKeepsInv(cfg, s, front);
      RefundDoneStep(cfg, u, last, hash);
      RefundRuns.ExecutedRefundStep(cfg, u, last, hash);
    }
  }

  /** The signatures accepted for a refund since it was created or last announced as expired. */
  function RefundLog(cfg: Config, s: State, steps: seq<Step>, hash: Bytes): seq<Entry> {
    if steps == [] then []
    else
      var front, last := steps[..|steps| - 1], steps[|steps| - 1];
      var u := Run(cfg, s, front);
      if Count(Emitted(u, Next(cfg, u, last)), RefundExpired(hash)) > 0 then []
      else if RefundRuns.SignsRefund(last, hash) && Accepted(cfg, u, last) then
        (if hash in u.refunds then RefundLog(cfg, s, front, hash) else [])
        + [Entry(last.call.sig, last.call.sequenceNumber)]
      else RefundLog(cfg, s, front, hash)
  }

  lemma {:induction false} RefundSignaturesAreTheLog(cfg: Config, s: State, steps: seq<Step>, hash: Bytes)
    requires Inv(s) && hash !in s.refunds
    ensures var s', log := Run(cfg, s, steps), RefundLog(cfg, s, steps, hash);
            hash in s'.refunds ==>
              s'.refunds[hash].signatures == Sigs(log) && s'.refunds[hash].sequenceNumber == LastSequence(log)
  {
    if steps == [] {
    } else {
      var front, last := steps[..|steps| - 1], steps[|steps| - 1];
      var u := Run(cfg, s, front);
      RefundSignaturesAreTheLog(cfg, s, front, hash);
      RefundExpiryStep(cfg, u, last, hash);
      NextCount(cfg, u, last, RefundExpired(hash));
      RefundRuns.RefundStep(cfg, u, last, hash);
      if RefundRuns.SignsRefund(last, hash) {
        RefundRuns.SigningStep(cfg, u, last, hash);
        SigsAppend(if hash in u.refunds then RefundLog(cfg, s, front, hash) else [],
                   Entry(last.call.sig, last.call.sequenceNumber));
      }
    }
  }
}
