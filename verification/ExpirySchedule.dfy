/** When pending entries expire: a closed form for burns and refunds, and the age bound after every block. */
module ExpirySchedule {
  import opened Collections
  import opened PalletTypes
  import opened PalletSpec
  import opened PalletEffects
  import opened PalletEvents
  import opened PalletInvariant
  import BurnRuns
  import RefundRuns
  import SignatureRounds

  /** What the end of a block announces about one burn and one refund, whatever the iteration order. */
  lemma EndBlockAnnounces(cfg: Config, s: State, burnOrder: seq<nat>, refundOrder: seq<Bytes>, id: nat, hash: Bytes)
    requires Enumerates(burnOrder, s.burns.Keys) && Enumerates(refundOrder, s.refunds.Keys)
    ensures var s' := EndBlock(cfg, s, burnOrder, refundOrder);
            && Count(s'.events, BurnExpired(id)) == Count(s.events, BurnExpired(id))
               + (if id in s.burns && Due(cfg.retryInterval, s.block, s.burns[id].block) then 1 else 0)
            && Count(s'.events, RefundExpired(hash)) == Count(s.events, RefundExpired(hash))
               + (if hash in s.refunds && Due(cfg.retryInterval, s.block, s.refunds[hash].block) then 1 else 0)
  {
    var step := Finalize(burnOrder, refundOrder);
    assert Next(cfg, s, step) == EndBlock(cfg, s, burnOrder, refundOrder);
    EndBlockCounts(cfg, s, burnOrder, refundOrder, id, hash);
    NextCount(cfg, s, step, BurnExpired(id));
    NextCount(cfg, s, step, RefundExpired(hash));
  }

  /** Two iteration orders lead to the same storage and the same announcements of each entry. */
  lemma EndBlockIgnoresOrder(
    cfg: Config, s: State, burnOrder: seq<nat>, refundOrder: seq<Bytes>,
    burnOrder': seq<nat>, refundOrder': seq<Bytes>, id: nat, hash: Bytes)
    requires Enumerates(burnOrder, s.burns.Keys) && Enumerates(refundOrder, s.refunds.Keys)
    requires Enumerates(burnOrder', s.burns.Keys) && Enumerates(refundOrder', s.refunds.Keys)
    ensures var a, b := EndBlock(cfg, s, burnOrder, refundOrder), EndBlock(cfg, s, burnOrder', refundOrder');
            && a.(events := []) == b.(events := [])
            && Count(a.events, BurnExpired(id)) == Count(b.events, BurnExpired(id))
            && Count(a.events, RefundExpired(hash)) == Count(b.events, RefundExpired(hash))
  {
    EndBlockAnnounces(cfg, s, burnOrder, refundOrder, id, hash);
    EndBlockAnnounces(cfg, s, burnOrder', refundOrder', id, hash);
  }

  /** Before a block ends no entry has a negative age; after it none has reached the interval. */
  lemma EndBlockBoundsAges(cfg: Config, s: State, burnOrder: seq<nat>, refundOrder: seq<Bytes>)
    requires Inv(s) && cfg.retryInterval >= 1
    requires Enumerates(burnOrder, s.burns.Keys) && Enumerates(refundOrder, s.refunds.Keys)
    ensures var s' := EndBlock(cfg, s, burnOrder, refundOrder);
            && (forall id :: id in s'.burns ==> 0 <= s.block - s'.burns[id].block < cfg.retryInterval)
            && (forall hash :: hash in s'.refunds ==> 0 <= s.block - s'.refunds[hash].block < cfg.retryInterval)
  {
  }

  /** The schedule of a burn created in block `c` that has expired `k` times when block `now` is current. */
  ghost predicate OnSchedule(interval: nat, c: nat, now: nat, block: nat, k: nat) {
    && block == c + interval * k
    && (if now == c then k == 0 else 0 <= now - 1 - block < interval)
  }

  lemma ScheduleStep(interval: nat, c: nat, now: nat, block: nat, k: nat)
    requires interval >= 1 && c <= now && OnSchedule(interval, c, now, block, k)
    ensures if Due(interval, now, block) then OnSchedule(interval, c, now + 1, now, k + 1)
            else OnSchedule(interval, c, now + 1, block, k)
  {
    if Due(interval, now, block) {
      assert now == block + interval == c + interval * (k + 1);
    }
  }

  lemma MultiplesOrdered(n: nat, a: int, b: int)
    ensures a <= b ==> n * a <= n * b
  {
  }

  /** The multiple of the interval reached by an age is the quotient. */
  lemma QuotientUnique(age: nat, interval: nat, k: nat)
    requires interval >= 1 && interval * k <= age < interval * k + interval
    ensures age / interval == k
  {
    var q := age / interval;
    assert age == interval * q + age % interval;
    MultiplesOrdered(interval, q + 1, k);
    MultiplesOrdered(interval, k + 1, q);
  }

  /** How often a burn has been announced as expired since `s`. */
  function Expiries(s: State, s': State, id: nat): int {
    Count(s'.events, BurnExpired(id)) - Count(s.events, BurnExpired(id))
  }

  ghost predicate BurnScheduled(interval: nat, s: State, s': State, id: nat) {
    && id in s'.burns && s'.block >= s.block && Expiries(s, s', id) >= 0
    && OnSchedule(interval, s.block, s'.block, s'.burns[id].block, Expiries(s, s', id))
  }

  lemma BurnScheduleStep(cfg: Config, s: State, u: State, step: Step, id: nat)
    requires Inv(u) && cfg.retryInterval >= 1 && BurnScheduled(cfg.retryInterval, s, u, id)
    requires id in Next(cfg, u, step).burns
    ensures BurnScheduled(cfg.retryInterval, s, Next(cfg, u, step), id)
  {
    var s' := Next(cfg, u, step);
    BurnRuns.PendingBurnStep(cfg, u, step, id);
    SignatureRounds.BurnExpiryStep(cfg, u, step, id);
    NextFrame(cfg, u, step);
    if EndsBlock(u, step) {
      assert s'.block == u.block + 1;
      ScheduleStep(cfg.retryInterval, s.block, u.block, u.burns[id].block, Expiries(s, u, id));
    } else {
      assert s'.block == u.block && s'.burns[id].block == u.burns[id].block
             && Expiries(s, s', id) == Expiries(s, u, id);
    }
  }

  lemma {:induction false} BurnOnSchedule(cfg: Config, s: State, steps: seq<Step>, id: nat)
    requires Inv(s) && cfg.retryInterval >= 1 && id in s.burns && s.burns[id].block == s.block
    requires id in Run(cfg, s, steps).burns
    ensures BurnScheduled(cfg.retryInterval, s, Run(cfg, s, steps), id)
  {
    if steps == [] {
    } else {
      var front, last := steps[..|steps| - 1], steps[|steps| - 1];
      SignatureRounds.StillPending(cfg, s, front, last, id);
      BurnOnSchedule(cfg, s, front, id);
      RunKeepsInv(cfg, s, front);
      BurnScheduleStep(cfg, s, Run(cfg, s, front), last, id);
    }
  }

  lemma ScheduleInClosedForm(interval: nat, c: nat, now: nat, block: nat, k: nat)
    requires interval >= 1 && c < now && OnSchedule(interval, c, now, block, k)
    ensures k == (now - 1 - c) / interval && block == c + interval * ((now - 1 - c) / interval)
  {
    QuotientUnique(now - 1 - c, interval, k);
  }

  /**
   The schedule in closed form, for a burn created in block c once block B is finalised: it is
   stored with block c + I * ((B - c) / I) and was announced as expired (B - c) / I times.
   */
  ghost predicate BurnInClosedForm(interval: nat, s: State, s': State, id: nat)
    requires interval >= 1
  {
    var c, B := s.block, s'.block - 1;
    && id in s'.burns
    && s'.burns[id].block == c + interval * ((B - c) / interval)
    && Count(s'.events, BurnExpired(id)) == Count(s.events, BurnExpired(id)) + (B - c) / interval
  }

  lemma ScheduledBurnInClosedForm(interval: nat, s: State, s': State, id: nat)
    requires interval >= 1 && BurnScheduled(interval, s, s', id) && s'.block > s.block
    ensures BurnInClosedForm(interval, s, s', id)
  {
    ScheduleInClosedForm(interval, s.block, s'.block, s'.burns[id].block, Expiries(s, s', id));
  }

  /** Every burn still pending is in closed form after every run, whatever signatures were added meanwhile. */
  lemma BurnExpiryClosedForm(cfg: Config, s: State, steps: seq<Step>, id: nat)
    requires Inv(s) && cfg.retryInterval >= 1 && id in s.burns && s.burns[id].block == s.block
    requires id in Run(cfg, s, steps).burns && Run(cfg, s, steps).block > s.block
    ensures BurnInClosedForm(cfg.retryInterval, s, Run(cfg, s, steps), id)
  {
    BurnOnSchedule(cfg, s, steps, id);
    ScheduledBurnInClosedForm(cfg.retryInterval, s, Run(cfg, s, steps), id);
  }

  /** How often a refund has been announced as expired since `s`. */
  function RefundExpiriesSince(s: State, s': State, hash: Bytes): int {
    Count(s'.events, RefundExpired(hash)) - Count(s.events, RefundExpired(hash))
  }

  ghost predicate RefundScheduled(interval: nat, s: State, s': State, hash: Bytes) {
    && hash in s'.refunds && s'.block >= s.block && RefundExpiriesSince(s, s', hash) >= 0
    && OnSchedule(interval, s.block, s'.block, s'.refunds[hash].block, RefundExpiriesSince(s, s', hash))
  }

  lemma RefundScheduleStep(cfg: Config, s: State, u: State, step: Step, hash: Bytes)
    requires cfg.retryInterval >= 1 && RefundScheduled(cfg.retryInterval, s, u, hash)
    requires !(RefundRuns.FinishesRefund(step, hash) && Accepted(cfg, u, step))
    ensures RefundScheduled(cfg.retryInterval, s, Next(cfg, u, step), hash)
  {
    var s' := Next(cfg, u, step);
    RefundRuns.RefundStep(cfg, u, step, hash);
    SignatureRounds.RefundExpiryStep(cfg, u, step, hash);
    NextFrame(cfg, u, step);
    if EndsBlock(u, step) {
      assert s'.block == u.block + 1;
      ScheduleStep(cfg.retryInterval, s.block, u.block, u.refunds[hash].block, RefundExpiriesSince(s, u, hash));
    } else {
      assert s'.block == u.block && s'.refunds[hash].block == u.refunds[hash].block
             && RefundExpiriesSince(s, s', hash) == RefundExpiriesSince(s, u, hash);
    }
  }

  lemma {:induction false} RefundOnSchedule(cfg: Config, s: State, steps: seq<Step>, hash: Bytes)
    requires Inv(s) && cfg.retryInterval >= 1 && hash in s.refunds && s.refunds[hash].block == s.block
    requires Count(Run(cfg, s, steps).events, SignatureRounds.RefundDone(hash))
          == Count(s.events, SignatureRounds.RefundDone(hash))
    ensures RefundScheduled(cfg.retryInterval, s, Run(cfg, s, steps), hash)
  {
    if steps == [] {
    } else {
      var front, last := steps[..|steps| - 1], steps[|steps| - 1];
      var u := Run(cfg, s, front);
      RunKeepsInv(cfg, s, front);
      SignatureRounds.RefundCountsGrow(cfg, s, front, hash);
      SignatureRounds.RefundDoneStep(cfg, u, last, hash);
      RefundOnSchedule(cfg, s, front, hash);
      RefundScheduleStep(cfg, s, u, last, hash);
    }
  }

  /** The same closed form for a refund. */
  ghost predicate RefundInClosedForm(interval: nat, s: State, s': State, hash: Bytes)
    requires interval >= 1
  {
    var c, B := s.block, s'.block - 1;
    && hash in s'.refunds
    && s'.refunds[hash].block == c + interval * ((B - c) / interval)
    && Count(s'.events, RefundExpired(hash)) == Count(s.events, RefundExpired(hash)) + (B - c) / interval
  }

  lemma ScheduledRefundInClosedForm(interval: nat, s: State, s': State, hash: Bytes)
    requires interval >= 1 && RefundScheduled(interval, s, s', hash) && s'.block > s.block
    ensures RefundInClosedForm(interval, s, s', hash)
  {
    ScheduleInClosedForm(interval, s.block, s'.block, s'.refunds[hash].block, RefundExpiriesSince(s, s', hash));
  }

  /** Every refund is in closed form for as long as it is not executed. */
  lemma RefundExpiryClosedForm(cfg: Config, s: State, steps: seq<Step>, hash: Bytes)
    requires Inv(s) && cfg.retryInterval >= 1 && hash in s.refunds && s.refunds[hash].block == s.block
    requires Count(Run(cfg, s, steps).events, SignatureRounds.RefundDone(hash))
          == Count(s.events, SignatureRounds.RefundDone(hash))
    requires Run(cfg, s, steps).block > s.block
    ensures RefundInClosedForm(cfg.retryInterval, s, Run(cfg, s, steps), hash)
  {
    RefundOnSchedule(cfg, s, steps, hash);
    ScheduledRefundInClosedForm(cfg.retryInterval, s, Run(cfg, s, steps), hash);
  }
}
