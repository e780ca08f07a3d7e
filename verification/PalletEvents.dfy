/** The events each transition adds to the log. */
module PalletEvents {
  import opened Collections
  import opened ValidatorList
  import opened PalletTypes
  import opened PalletSpec
  import opened PalletEffects

  function Emitted(s: State, s': State): seq<Event> {
    if |s.events| <= |s'.events| then s'.events[|s.events|..] else []
  }

  /** The events a step can emit in a state: about which entry, and with what content. */
  ghost predicate Emits(s: State, step: Step, e: Event) {
    match step
    case Extrinsic(_, ProposeOrVoteMint(id, target, amount)) => EmitsMint(s, id, target, amount, e)
    case Extrinsic(origin, SwapToStellar(target, value)) =>
      && origin.Signed? && e.BurnTransactionCreated?
      && e.id == s.burnId + 1 && e.source == origin.who && e.target == target
      && e.amount == SaturateU64(value) - s.withdrawFee
    case Extrinsic(_, ProposeBurnOrAddSig(id, _, _, sig, _)) =>
      e == BurnTransactionSignatureAdded(id, sig) || e == BurnTransactionReady(id)
    case Extrinsic(_, SetBurnExecuted(id)) => id in s.burns && e == BurnTransactionProcessed(s.burns[id])
    case Extrinsic(_, CreateRefundOrAddSig(hash, target, amount, sig, _)) =>
      || e == RefundTransactionSignatureAdded(hash, sig) || e == RefundTransactionReady(hash)
      || e == RefundTransactionCreated(hash, target, amount)
    case Extrinsic(_, SetRefundExecuted(hash)) => hash in s.refunds && e == RefundTransactionProcessed(s.refunds[hash])
    case Finalize(_, _) => AnnouncesBurn(s, e) || AnnouncesRefund(s, e)
    case _ => false
  }

  /** A mint is proposed once, voted for, and completed with the pending record and one vote more. */
  ghost predicate EmitsMint(s: State, id: Bytes, target: AccountId, amount: u64, e: Event) {
    var before := Proposed(s, id, target, amount);
    || (id !in s.mints && e == MintTransactionProposed(id, target, amount))
    || e == MintTransactionVoted(id)
    || e == MintCompleted(before.(votes := before.votes + 1, block := s.block))
  }

  ghost predicate AnnouncesBurn(s: State, e: Event) {
    && e.BurnTransactionExpired? && e.id in s.burns
    && e.target == s.burns[e.id].target && e.amount == s.burns[e.id].amount
  }

  ghost predicate AnnouncesRefund(s: State, e: Event) {
    && e.RefundTransactionExpired? && e.hash in s.refunds
    && e.target == s.refunds[e.hash].target && e.amount == s.refunds[e.hash].amount
  }

  lemma VoteEvents(cfg: Config, s: State, id: Bytes)
    requires id in s.mints && id !in s.executedMints && VoteMint(cfg, s, id).Success?
    ensures var s' := VoteMint(cfg, s, id).value;
            s'.events == s.events + [MintTransactionVoted(id)]
                         + if id in s'.executedMints then [MintCompleted(s'.executedMints[id])] else []
  {
    if s.mints[id].votes + 1 < Quorum(s) {
      assert id !in VoteMint(cfg, s, id).value.executedMints;
    } else {
      assert id in VoteMint(cfg, s, id).value.executedMints;
    }
  }

  lemma MintEvents(cfg: Config, s: State, who: AccountId, id: Bytes, target: AccountId, amount: u64)
    requires ProposeMint(cfg, s, who, id, target, amount).Success?
    ensures var s' := ProposeMint(cfg, s, who, id, target, amount).value;
            Emitted(s, s')
            == (if id in s.mints then [] else [MintTransactionProposed(id, target, amount)])
               + [MintTransactionVoted(id)]
               + if id in s'.executedMints then [MintCompleted(s'.executedMints[id])] else []
  {
    var s' := ProposeMint(cfg, s, who, id, target, amount).value;
    var opening := if id in s.mints then [] else [MintTransactionProposed(id, target, amount)];
    var closing := if id in s'.executedMints then [MintCompleted(s'.executedMints[id])] else [];
    if id in s.mints {
      VoteEvents(cfg, s, id);
    } else {
      VoteEvents(cfg, s.(
        mints := s.mints[id := MintTransaction(amount, target, s.block, 0)],
        events := s.events + [MintTransactionProposed(id, target, amount)]), id);
    }
    assert s'.events == s.events + (opening + [MintTransactionVoted(id)] + closing);
  }

  lemma {:induction false} BurnExpiryKinds(interval: nat, now: nat, burns: map<nat, BurnTransaction>, order: seq<nat>)
    requires forall i :: 0 <= i < |order| ==> order[i] in burns
    ensures forall e :: e in BurnExpiries(interval, now, burns, order) ==>
              && e.BurnTransactionExpired? && e.id in burns
              && e.target == burns[e.id].target && e.amount == burns[e.id].amount
  {
    if order == [] {
    } else {
      BurnExpiryKinds(interval, now, burns, order[..|order| - 1]);
    }
  }

  lemma {:induction false} RefundExpiryKinds(
    interval: nat, now: nat, refunds: map<Bytes, RefundTransaction>, order: seq<Bytes>)
    requires forall i :: 0 <= i < |order| ==> order[i] in refunds
    ensures forall e :: e in RefundExpiries(interval, now, refunds, order) ==>
              && e.RefundTransactionExpired? && e.hash in refunds
              && e.target == refunds[e.hash].target && e.amount == refunds[e.hash].amount
  {
    if order == [] {
    } else {
      RefundExpiryKinds(interval, now, refunds, order[..|order| - 1]);
    }
  }

  lemma EndBlockKinds(cfg: Config, s: State, burnOrder: seq<nat>, refundOrder: seq<Bytes>)
    requires Enumerates(burnOrder, s.burns.Keys) && Enumerates(refundOrder, s.refunds.Keys)
    ensures Emitted(s, EndBlock(cfg, s, burnOrder, refundOrder))
         == BurnExpiries(cfg.retryInterval, s.block, s.burns, burnOrder)
            + RefundExpiries(cfg.retryInterval, s.block, s.refunds, refundOrder)
    ensures forall e :: e in Emitted(s, EndBlock(cfg, s, burnOrder, refundOrder)) ==>
              AnnouncesBurn(s, e) || AnnouncesRefund(s, e)
  {
    BurnExpiryKinds(cfg.retryInterval, s.block, s.burns, burnOrder);
    RefundExpiryKinds(cfg.retryInterval, s.block, s.refunds, refundOrder);
  }

  lemma SignedKinds(cfg: Config, s: State, who: AccountId, call: Call)
    requires !call.ProposeOrVoteMint? && !Restricted(call) && ApplySigned(cfg, s, who, call).Success?
    ensures forall e :: e in Emitted(s, ApplySigned(cfg, s, who, call).value) ==>
              Emits(s, Extrinsic(Signed(who), call), e)
  {
  }

  lemma ExtrinsicEmits(cfg: Config, s: State, origin: Origin, call: Call)
    requires Apply(cfg, s, origin, call).Success?
    ensures forall e :: e in Emitted(s, Apply(cfg, s, origin, call).value) ==> Emits(s, Extrinsic(origin, call), e)
  {
    if Restricted(call) {
      RestrictedFrame(s, call);
    } else if call.ProposeOrVoteMint? {
      MintEvents(cfg, s, origin.who, call.mintId, call.recipient, call.amount);
    } else {
      SignedKinds(cfg, s, origin.who, call);
    }
  }

  lemma FinalizeEmits(cfg: Config, s: State, burnOrder: seq<nat>, refundOrder: seq<Bytes>)
    ensures forall e :: e in Emitted(s, Next(cfg, s, Finalize(burnOrder, refundOrder))) ==>
              AnnouncesBurn(s, e) || AnnouncesRefund(s, e)
  {
    if Enumerates(burnOrder, s.burns.Keys) && Enumerates(refundOrder, s.refunds.Keys) {
      EndBlockKinds(cfg, s, burnOrder, refundOrder);
    }
  }

  lemma NextEmits(cfg: Config, s: State, step: Step)
    ensures forall e :: e in Emitted(s, Next(cfg, s, step)) ==> Emits(s, step, e)
  {
    match step
    case Extrinsic(origin, call) =>
      if Apply(cfg, s, origin, call).Success? { ExtrinsicEmits(cfg, s, origin, call); }
    case Finalize(burnOrder, refundOrder) => FinalizeEmits(cfg, s, burnOrder, refundOrder);
    case _ =>
  }

  lemma EmittedCount(s: State, s': State, step: Step, p: Event -> bool)
    requires s.events <= s'.events
    requires forall e :: e in Emitted(s, s') ==> Emits(s, step, e)
    ensures Count(s'.events, p) == Count(s.events, p) + Count(Emitted(s, s'), p)
    ensures (forall e :: Emits(s, step, e) ==> !p(e)) ==> Count(Emitted(s, s'), p) == 0
  {
    var emitted := Emitted(s, s');
    assert s'.events == s.events + emitted;
    CountConcat(s.events, emitted, p);
    CountZero(emitted, p);
    if forall e :: Emits(s, step, e) ==> !p(e) {
      forall i | 0 <= i < |emitted| ensures !p(emitted[i]) { assert emitted[i] in emitted; }
    }
  }

  /** How a step changes the number of events of one kind. */
  lemma NextCount(cfg: Config, s: State, step: Step, p: Event -> bool)
    ensures Count(Next(cfg, s, step).events, p) == Count(s.events, p) + Count(Emitted(s, Next(cfg, s, step)), p)
    ensures (forall e :: Emits(s, step, e) ==> !p(e)) ==> Count(Emitted(s, Next(cfg, s, step)), p) == 0
  {
    NextFrame(cfg, s, step);
    NextEmits(cfg, s, step);
    EmittedCount(s, Next(cfg, s, step), step, p);
  }

  function BurnExpired(id: nat): Event -> bool { (e: Event) => e.BurnTransactionExpired? && e.id == id }

  function RefundExpired(hash: Bytes): Event -> bool { (e: Event) => e.RefundTransactionExpired? && e.hash == hash }

  /** One expiry event for a due entry and none for the others, in any iteration order. */
  lemma {:induction false} BurnExpiryCount(
    interval: nat, now: nat, burns: map<nat, BurnTransaction>, order: seq<nat>, id: nat)
    requires forall i :: 0 <= i < |order| ==> order[i] in burns
    requires forall i, j :: 0 <= i < j < |order| ==> order[i] != order[j]
    ensures Count(BurnExpiries(interval, now, burns, order), BurnExpired(id))
         == if id in order && Due(interval, now, burns[id].block) then 1 else 0
  {
    if order == [] {
    } else {
      var front, last := order[..|order| - 1], order[|order| - 1];
      BurnExpiryCount(interval, now, burns, front, id);
      assert order == front + [last];
      if Due(interval, now, burns[last].block) {
        CountAppend(BurnExpiries(interval, now, burns, front),
                    BurnTransactionExpired(last, burns[last].target, burns[last].amount), BurnExpired(id));
      } else {
        assert BurnExpiries(interval, now, burns, order) == BurnExpiries(interval, now, burns, front);
      }
    }
  }

  lemma {:induction false} RefundExpiryCount(
    interval: nat, now: nat, refunds: map<Bytes, RefundTransaction>, order: seq<Bytes>, hash: Bytes)
    requires forall i :: 0 <= i < |order| ==> order[i] in refunds
    requires forall i, j :: 0 <= i < j < |order| ==> order[i] != order[j]
    ensures Count(RefundExpiries(interval, now, refunds, order), RefundExpired(hash))
         == if hash in order && Due(interval, now, refunds[hash].block) then 1 else 0
  {
    if order == [] {
    } else {
      var front, last := order[..|order| - 1], order[|order| - 1];
      RefundExpiryCount(interval, now, refunds, front, hash);
      assert order == front + [last];
      if Due(interval, now, refunds[last].block) {
        CountAppend(RefundExpiries(interval, now, refunds, front),
                    RefundTransactionExpired(last, refunds[last].target, refunds[last].amount), RefundExpired(hash));
      } else {
        assert RefundExpiries(interval, now, refunds, order) == RefundExpiries(interval, now, refunds, front);
      }
    }
  }

  /** The end of a block announces exactly the due entries, once each. */
  lemma EndBlockCounts(cfg: Config, s: State, burnOrder: seq<nat>, refundOrder: seq<Bytes>, id: nat, hash: Bytes)
    requires Enumerates(burnOrder, s.burns.Keys) && Enumerates(refundOrder, s.refunds.Keys)
    ensures var emitted := Emitted(s, EndBlock(cfg, s, burnOrder, refundOrder));
            && Count(emitted, BurnExpired(id))
               == (if id in s.burns && Due(cfg.retryInterval, s.block, s.burns[id].block) then 1 else 0)
            && Count(emitted, RefundExpired(hash))
               == if hash in s.refunds && Due(cfg.retryInterval, s.block, s.refunds[hash].block) then 1 else 0
  {
    var burns := BurnExpiries(cfg.retryInterval, s.block, s.burns, burnOrder);
    var refunds := RefundExpiries(cfg.retryInterval, s.block, s.refunds, refundOrder);
    EndBlockKinds(cfg, s, burnOrder, refundOrder);
    BurnExpiryCount(cfg.retryInterval, s.block, s.burns, burnOrder, id);
    RefundExpiryCount(cfg.retryInterval, s.block, s.refunds, refundOrder, hash);
    BurnExpiryKinds(cfg.retryInterval, s.block, s.burns, burnOrder);
    RefundExpiryKinds(cfg.retryInterval, s.block, s.refunds, refundOrder);
    CountConcat(burns, refunds, BurnExpired(id));
    CountConcat(burns, refunds, RefundExpired(hash));
    CountZero(refunds, BurnExpired(id));
    CountZero(burns, RefundExpired(hash));
    forall i | 0 <= i < |refunds| ensures !BurnExpired(id)(refunds[i]) { assert refunds[i] in refunds; }
    forall i | 0 <= i < |burns| ensures !RefundExpired(hash)(burns[i]) { assert burns[i] in burns; }
  }
}
