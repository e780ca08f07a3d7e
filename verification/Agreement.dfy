/** When a Ready round can be paid: every signer signs under a sequence number of its own, the chain keeps the last. */
module Agreement {
  import opened Wrappers
  import opened ValidatorList
  import opened Collections
  import opened PalletTypes
  import opened Signing
  import opened PalletSpec
  import opened PalletEffects
  import opened PalletEvents
  import opened PalletInvariant
  import opened SignatureRounds
  import opened StellarWallet
  import opened Bridge
  import opened MintBack
  import BurnRuns

  /** What a key makes of a payment. */
  type Scheme = (Bytes, PaymentTx) -> Bytes

  ghost predicate Binding(sign: Scheme) {
    forall key, a, b :: sign(key, a) == sign(key, b) ==> a == b
  }

  /** Entry by entry, the payments that were signed; each under the number that was submitted with it. */
  ghost predicate SignedFor(sign: Scheme, log: seq<Entry>, txs: seq<PaymentTx>) {
    && |txs| == |log|
    && forall i :: 0 <= i < |log| ==>
         && log[i].sig.signature == sign(log[i].sig.stellarPubKey, txs[i])
         && txs[i].sequence == ToInt64(log[i].sequenceNumber)
  }

  /** Every signature on a payment is a signature over that payment. */
  ghost predicate Covered(sign: Scheme, paid: Submission) {
    forall i :: 0 <= i < |paid.signatures| ==>
      paid.signatures[i].signature == sign(paid.signatures[i].stellarPubKey, paid.tx)
  }

  /** The conversion to 64 bits with a sign keeps numbers apart. */
  lemma ToInt64Injective(m: u64, n: u64)
    ensures ToInt64(m) == ToInt64(n) <==> m == n
    ensures ToInt64(m) == 0 <==> m == 0
  {
  }

  /** The number under which a record with this log is paid. */
  function PaidNumber(log: seq<Entry>, next: int): int {
    if LastSequence(log) == 0 then next else ToInt64(LastSequence(log))
  }

  /** The first `count` signers signed under that number. */
  predicate Agreed(log: seq<Entry>, count: nat, next: int)
    requires count <= |log|
  {
    forall i :: 0 <= i < count ==> ToInt64(log[i].sequenceNumber) == PaidNumber(log, next)
  }

  /** Agreed is: the first `count` numbers are the last one's, unless that is zero. */
  lemma AgreedIffLast(log: seq<Entry>, count: nat, next: int)
    requires count <= |log| && LastSequence(log) != 0
    ensures Agreed(log, count, next) <==> forall i :: 0 <= i < count ==> log[i].sequenceNumber == LastSequence(log)
  {
    forall i | 0 <= i < count
      ensures ToInt64(log[i].sequenceNumber) == PaidNumber(log, next)
              <==> log[i].sequenceNumber == LastSequence(log)
    {
      ToInt64Injective(log[i].sequenceNumber, LastSequence(log));
    }
  }

  /** A payment of a record made from a log is covered exactly if its first signers signed it. */
  lemma CoveredIff(
    sign: Scheme, paid: Submission, target: Bytes, amount: u64, returnHash: Option<Bytes>,
    log: seq<Entry>, txs: seq<PaymentTx>, count: nat, next: int)
    requires Binding(sign) && SignedFor(sign, log, txs)
    requires PaysRecord(Some(paid), target, amount, returnHash, Sigs(log), LastSequence(log), count, next)
    ensures count <= |log|
    ensures Covered(sign, paid) <==> forall i :: 0 <= i < count ==> txs[i] == paid.tx
  {
    assert forall i :: 0 <= i < count ==> paid.signatures[i] == log[i].sig;
    if Covered(sign, paid) {
      forall i | 0 <= i < count
        ensures txs[i] == paid.tx
      {
        assert sign(log[i].sig.stellarPubKey, txs[i]) == sign(paid.signatures[i].stellarPubKey, paid.tx);
      }
    }
  }

  lemma SubmittedUnder(
    paid: Submission, target: Bytes, amount: u64, returnHash: Option<Bytes>,
    log: seq<Entry>, count: nat, next: int)
    requires PaysRecord(Some(paid), target, amount, returnHash, Sigs(log), LastSequence(log), count, next)
    ensures paid.tx == PaymentTx(target, ToInt64(amount), PaidNumber(log, next), returnHash)
  {
    ToInt64Injective(LastSequence(log), LastSequence(log));
  }

  // ---- burns -----------------------------------------------------------------------------------

  function PaymentUnder(burn: BurnTransaction, n: u64): PaymentTx {
    PaymentTx(burn.target, ToInt64(burn.amount), ToInt64(n), None)
  }

  /** A daemon signs exactly the payment under the number that it submits. */
  lemma DaemonSignsItsNumber(d: Daemon, id: nat, burn: BurnTransaction, n: int)
    requires -0x8000_0000_0000_0000 <= n <= 0x7FFF_FFFF_FFFF_FFFF
    ensures var call := d.BurnSignatureCall(id, burn.target, burn.amount, n);
            && call.burnId == id && call.target == burn.target && call.amount == burn.amount
            && call.sig.stellarPubKey == d.wallet.address
            && call.sig.signature == d.wallet.sign(PaymentUnder(burn, call.sequenceNumber))
  {
    assert ToInt64(ToU64(n)) == n;
  }

  /** And a refund exactly for its hash, target and amount, under the number that it submits. */
  lemma DaemonSignsItsRefund(d: Daemon, hash: Bytes, target: Bytes, amount: u64, n: int)
    requires -0x8000_0000_0000_0000 <= n <= 0x7FFF_FFFF_FFFF_FFFF
    ensures var call := d.RefundSignatureCall(hash, target, amount, n);
            && call.hash == hash && call.target == target && call.amount == amount
            && call.sig.stellarPubKey == d.wallet.address
            && call.sig.signature
               == d.wallet.sign(PaymentTx(target, ToInt64(amount), ToInt64(call.sequenceNumber), Some(hash)))
  {
    assert ToInt64(ToU64(n)) == n;
  }

  function PaymentsUnder(burn: BurnTransaction, log: seq<Entry>): seq<PaymentTx> {
    seq(|log|, i requires 0 <= i < |log| => PaymentUnder(burn, log[i].sequenceNumber))
  }

  /**
   When each signer of a burn signed its payment under the number it submitted, what a daemon pays for
   the burn carries valid signatures if and only if their numbers are the one it is paid under, which is
   the last signer's.
   */
  lemma BurnPayableIffAgreed(
    s: State, id: nat, log: seq<Entry>, d: Daemon, sign: Scheme, paid: Submission, next: int)
    requires LogOfBurn(s, id, log) && d.PaysBurnOf(Some(paid), s, id, next)
    requires Binding(sign) && SignedFor(sign, log, PaymentsUnder(s.burns[id], log))
    ensures var count := d.wallet.signatureCount;
            && count <= |log|
            && (Covered(sign, paid) <==> Agreed(log, count, next))
            && (LastSequence(log) != 0 ==>
                  (Covered(sign, paid)
                   <==> forall i :: 0 <= i < count ==> log[i].sequenceNumber == LastSequence(log)))
  {
    var burn, txs, count := s.burns[id], PaymentsUnder(s.burns[id], log), d.wallet.signatureCount;
    CoveredIff(sign, paid, burn.target, burn.amount, None, log, txs, count, next);
    SubmittedUnder(paid, burn.target, burn.amount, None, log, count, next);
    forall i | 0 <= i < |log|
      ensures txs[i] == paid.tx <==> ToInt64(log[i].sequenceNumber) == PaidNumber(log, next)
    {
      assert txs[i] == PaymentUnder(burn, log[i].sequenceNumber);
    }
    if LastSequence(log) != 0 { AgreedIffLast(log, count, next); }
  }

  /** So it is in every run, with the log of what the chain accepted since creation or the last expiry. */
  lemma BurnPayableInRuns(
    cfg: Config, s: State, steps: seq<Step>, id: nat, d: Daemon, sign: Scheme, paid: Submission, next: int)
    requires Inv(s) && !BurnRuns.Known(s, id) && Binding(sign)
    requires d.PaysBurnOf(Some(paid), Run(cfg, s, steps), id, next)
    requires var log := BurnLog(cfg, s, steps, id);
             SignedFor(sign, log, PaymentsUnder(Run(cfg, s, steps).burns[id], log))
    ensures var log := BurnLog(cfg, s, steps, id);
            && d.wallet.signatureCount <= |log|
            && (Covered(sign, paid) <==> Agreed(log, d.wallet.signatureCount, next))
  {
    BurnSignaturesAreTheLog(cfg, s, steps, id);
    BurnPayableIffAgreed(Run(cfg, s, steps), id, BurnLog(cfg, s, steps, id), d, sign, paid, next);
  }

  /** A burn's full round stays as it is until it expires: whom it cannot pay now it cannot pay before that. */
  lemma {:induction false} FullRoundStays(cfg: Config, s: State, steps: seq<Step>, id: nat)
    requires Inv(s) && id in s.burns && |s.burns[id].signatures| == |s.validators| / 2 + 1
    requires SteadyValidators(cfg, s, steps)
    requires id in Run(cfg, s, steps).burns
    requires Count(Run(cfg, s, steps).events, BurnExpired(id)) == Count(s.events, BurnExpired(id))
    ensures Run(cfg, s, steps).burns[id] == s.burns[id]
  {
    if steps == [] {
    } else {
      var front, last := steps[..|steps| - 1], steps[|steps| - 1];
      var u := Run(cfg, s, front);
      RunKeepsInv(cfg, s, front);
      ValidatorsStaySteady(cfg, s, front);
      ExpiryCountGrows(cfg, s, front, id);
      BurnExpiryStep(cfg, u, last, id);
      StillPending(cfg, s, front, last, id);
      FullRoundStays(cfg, s, front, id);
      BurnRuns.PendingBurnStep(cfg, u, last, id);
    }
  }

  // ---- refunds ---------------------------------------------------------------------------------

  /** A pending refund has the signatures and the number of this log. */
  ghost predicate LogOfRefund(s: State, hash: Bytes, log: seq<Entry>) {
    hash in s.refunds ==>
      s.refunds[hash].signatures == Sigs(log) && s.refunds[hash].sequenceNumber == LastSequence(log)
  }

  /** Signed under the number the refund is paid under, and for the target and amount it was created with. */
  predicate AgreedOnRefund(refund: RefundTransaction, log: seq<Entry>, txs: seq<PaymentTx>, count: nat, next: int)
    requires count <= |log| && |txs| == |log|
  {
    && Agreed(log, count, next)
    && forall i :: 0 <= i < count ==> txs[i].destination == refund.target && txs[i].stroops == ToInt64(refund.amount)
  }

  /** What a daemon pays for a refund carries valid signatures if and only if the signers used agree on all of it. */
  lemma RefundPayableIffAgreed(
    s: State, hash: Bytes, log: seq<Entry>, d: Daemon, sign: Scheme, txs: seq<PaymentTx>, paid: Submission, next: int)
    requires LogOfRefund(s, hash, log) && d.PaysRefundOf(Some(paid), s, hash, next)
    requires Binding(sign) && SignedFor(sign, log, txs)
    requires forall i :: 0 <= i < |txs| ==> txs[i].returnHash == Some(hash)
    ensures d.wallet.signatureCount <= |log|
    ensures Covered(sign, paid) <==> AgreedOnRefund(s.refunds[hash], log, txs, d.wallet.signatureCount, next)
  {
    var refund, count := s.refunds[hash], d.wallet.signatureCount;
    CoveredIff(sign, paid, refund.target, refund.amount, Some(hash), log, txs, count, next);
    SubmittedUnder(paid, refund.target, refund.amount, Some(hash), log, count, next);
  }

  /** So it is in every run, with the log of what the chain accepted. */
  lemma RefundPayableInRuns(
    cfg: Config, s: State, steps: seq<Step>, hash: Bytes, d: Daemon, sign: Scheme,
    txs: seq<PaymentTx>, paid: Submission, next: int)
    requires Inv(s) && hash !in s.refunds && Binding(sign)
    requires d.PaysRefundOf(Some(paid), Run(cfg, s, steps), hash, next)
    requires SignedFor(sign, RefundLog(cfg, s, steps, hash), txs)
    requires forall i :: 0 <= i < |txs| ==> txs[i].returnHash == Some(hash)
    ensures var log := RefundLog(cfg, s, steps, hash);
            && d.wallet.signatureCount <= |log|
            && (Covered(sign, paid)
                <==> AgreedOnRefund(Run(cfg, s, steps).refunds[hash], log, txs, d.wallet.signatureCount, next))
  {
    RefundSignaturesAreTheLog(cfg, s, steps, hash);
    RefundPayableIffAgreed(Run(cfg, s, steps), hash, RefundLog(cfg, s, steps, hash), d, sign, txs, paid, next);
  }

  // ---- example: two of three validators sign under the numbers 1 and 2 -------------------------------

  function SignatureUnder(sign: Scheme, key: Bytes, n: u64): StellarSignature {
    StellarSignature(sign(key, PaymentTx("G", 47, n, None)), key)
  }

  function SignedUnder(sign: Scheme, who: AccountId, key: Bytes, n: u64): Step {
    Extrinsic(Signed(who), ProposeBurnOrAddSig(1, "G", 47, SignatureUnder(sign, key, n), n))
  }

  function Record(signatures: seq<StellarSignature>, number: u64): BurnTransaction {
    BurnTransaction(0, 47, "G", signatures, number)
  }

  /** A fitting signature on the only burn joins the ones before it and replaces their number. */
  lemma SignatureJoins(cfg: Config, s: State, before: seq<StellarSignature>, number: u64, step: Step)
    requires s.burns == map[1 := Record(before, number)] && s.executedBurns == map[] && |s.validators| == 3
    requires BurnRuns.SignsBurn(step, 1) && BurnRuns.SignatureFits(s, step, 1)
    ensures var s' := Next(cfg, s, step);
            && s'.burns == map[1 := Record(before + [step.call.sig], step.call.sequenceNumber)]
            && s'.executedBurns == map[] && s'.validators == s.validators
            && (|before| == 1 ==> BurnTransactionReady(1) in s'.events)
  {
    BurnRuns.SignatureAcceptedIff(cfg, s, step, 1);
    if |before| == 1 {
      var s' := Next(cfg, s, step);
      assert s'.events[|s'.events| - 1] == BurnTransactionReady(1);
    }
  }

  lemma TwoSign(cfg: Config, s: State, sign: Scheme)
    requires OnlyBurn(s, [1, 2, 3])
    requires SignatureUnder(sign, "a", 1).signature != SignatureUnder(sign, "b", 2).signature
    ensures var s' := Next(cfg, Next(cfg, s, SignedUnder(sign, 1, "a", 1)), SignedUnder(sign, 2, "b", 2));
            && s'.burns == map[1 := Record([SignatureUnder(sign, "a", 1), SignatureUnder(sign, "b", 2)], 2)]
            && BurnTransactionReady(1) in s'.events
  {
    var first, second := SignedUnder(sign, 1, "a", 1), SignedUnder(sign, 2, "b", 2);
    SignatureJoins(cfg, s, [], 0, first);
    assert [] + [first.call.sig] == [first.call.sig];
    assert [first.call.sig] + [second.call.sig] == [first.call.sig, second.call.sig];
    SignatureJoins(cfg, Next(cfg, s, first), [first.call.sig], 1, second);
  }

  lemma TwoNumbersNotCovered(sign: Scheme, s: State)
    requires s.burns == map[1 := Record([SignatureUnder(sign, "a", 1), SignatureUnder(sign, "b", 2)], 2)]
    requires SignatureUnder(sign, "a", 1).signature != SignatureUnder(sign, "a", 2).signature
    ensures forall d: Daemon, paid, next ::
              d.wallet.signatureCount > 0 && d.PaysBurnOf(Some(paid), s, 1, next) ==> !Covered(sign, paid)
  {
    forall d: Daemon, paid, next | d.wallet.signatureCount > 0 && d.PaysBurnOf(Some(paid), s, 1, next)
      ensures !Covered(sign, paid)
    {
      assert paid.tx == PaymentTx("G", 47, 2, None) && paid.signatures[0] == SignatureUnder(sign, "a", 1);
    }
  }

  /** Ready, and whoever pays it submits a signature that is not over the payment. */
  lemma ReadyUnderTwoNumbers(cfg: Config, sign: Scheme)
    requires cfg.existentialDeposit <= 1 && cfg.validKey("G")
    requires SignatureUnder(sign, "a", 1).signature != SignatureUnder(sign, "a", 2).signature
    requires SignatureUnder(sign, "a", 1).signature != SignatureUnder(sign, "b", 2).signature
    ensures var s := Run(cfg, Rich([1, 2, 3]), [Swapped(), SignedUnder(sign, 1, "a", 1), SignedUnder(sign, 2, "b", 2)]);
            && 1 in s.burns && BurnTransactionReady(1) in s.events && s.burns[1].sequenceNumber == 2
            && forall d: Daemon, paid, next ::
                 d.wallet.signatureCount > 0 && d.PaysBurnOf(Some(paid), s, 1, next) ==> !Covered(sign, paid)
  {
    var first, second := SignedUnder(sign, 1, "a", 1), SignedUnder(sign, 2, "b", 2);
    SwapBurns(cfg, [1, 2, 3]);
    TwoSign(cfg, Next(cfg, Rich([1, 2, 3]), Swapped()), sign);
    RunOfThree(cfg, Rich([1, 2, 3]), Swapped(), first, second);
    TwoNumbersNotCovered(sign, Next(cfg, Next(cfg, Next(cfg, Rich([1, 2, 3]), Swapped()), first), second));
  }
}
