/** No tokens appear or vanish: the two sides of the bridge always balance. */
module Conservation {
  import opened Wrappers
  import opened Collections
  import opened ValidatorList
  import opened Ledgers
  import opened PalletTypes
  import opened PalletSpec
  import opened PalletEffects
  import opened PalletInvariant

  function MintAmount(tx: MintTransaction): nat { tx.amount }

  function BurnAmount(tx: BurnTransaction): nat { tx.amount }

  /** Tokens on TFChain plus tokens owed or paid out on Stellar. */
  ghost function Backed(s: State): nat {
    TotalIssuance(s.ledger) + Sum(s.burns, BurnAmount) + Sum(s.executedBurns, BurnAmount)
  }

  /** Tokens that came in from Stellar. */
  ghost function Minted(s: State): nat {
    Sum(s.executedMints, MintAmount)
  }

  /** The fee a step from `s` to `s'` charges while no fee account is set: it goes to nobody. */
  function ForgoneFee(s: State, s': State): nat {
    if s.feeAccount.Some? then 0
    else if s'.burnId != s.burnId then s.withdrawFee
    else if s'.executedMints != s.executedMints then s.depositFee
    else 0
  }

  function Loss(ed: nat, l: Ledger, who: AccountId, value: nat): nat {
    if Swallowed(ed, l, who, value) then value else 0
  }

  function FeeLoss(ed: nat, l: Ledger, feeAccount: Option<AccountId>, fee: nat): nat {
    if feeAccount.Some? then Loss(ed, l, feeAccount.value, fee) else 0
  }

  /** Deposits too small to open an account, and the part of a swap that does not fit 64 bits. */
  function Lost(cfg: Config, s: State, step: Step, s': State): nat {
    var ed := cfg.existentialDeposit;
    if s'.burnId != s.burnId && step.Extrinsic? && step.origin.Signed? && step.call.SwapToStellar? then
      var debited := Withdraw(ed, s.ledger, step.origin.who, step.call.value);
      (step.call.value - SaturateU64(step.call.value))
      + if debited.Success? then FeeLoss(ed, debited.value, s.feeAccount, s.withdrawFee) else 0
    else if s'.executedMints != s.executedMints && MintCall(step) && step.call.mintId in s'.executedMints then
      var tx := s'.executedMints[step.call.mintId];
      var net := if tx.amount > s.depositFee then tx.amount - s.depositFee else 0;
      Loss(ed, s.ledger, tx.target, net)
      + FeeLoss(ed, Deposit(ed, s.ledger, tx.target, net), s.feeAccount, s.depositFee)
    else 0
  }

  lemma PayFeeIssuance(ed: nat, l: Ledger, feeAccount: Option<AccountId>, fee: nat)
    ensures TotalIssuance(PayFee(ed, l, feeAccount, fee)) + FeeLoss(ed, l, feeAccount, fee)
         == TotalIssuance(l) + if feeAccount.Some? then fee else 0
  {
    if feeAccount.Some? { DepositIssuance(ed, l, feeAccount.value, fee); }
  }

  ghost predicate Balances(cfg: Config, s: State, step: Step, s': State) {
    Backed(s') + ForgoneFee(s, s') + Lost(cfg, s, step, s') + Minted(s) == Backed(s) + Minted(s')
  }

  lemma CompletedMintBalances(cfg: Config, s: State, step: Step, s': State, tx: MintTransaction)
    requires MintCall(step) && SameBurns(s, s') && tx.amount > s.depositFee
    requires step.call.mintId !in s.executedMints && s'.executedMints == s.executedMints[step.call.mintId := tx]
    requires s'.ledger == PayFee(cfg.existentialDeposit,
               Deposit(cfg.existentialDeposit, s.ledger, tx.target, tx.amount - s.depositFee),
               s.feeAccount, s.depositFee)
    ensures Balances(cfg, s, step, s')
  {
    var ed := cfg.existentialDeposit;
    assert step.call.mintId in s'.executedMints;
    SumUpdate(s.executedMints, MintAmount, step.call.mintId, tx);
    DepositIssuance(ed, s.ledger, tx.target, tx.amount - s.depositFee);
    PayFeeIssuance(ed, Deposit(ed, s.ledger, tx.target, tx.amount - s.depositFee), s.feeAccount, s.depositFee);
  }

  lemma MintBalances(cfg: Config, s: State, who: AccountId, id: Bytes, target: AccountId, amount: u64)
    requires ProposeMint(cfg, s, who, id, target, amount).Success?
    ensures Balances(cfg, s, Extrinsic(Signed(who), ProposeOrVoteMint(id, target, amount)),
                     ProposeMint(cfg, s, who, id, target, amount).value)
  {
    var s' := ProposeMint(cfg, s, who, id, target, amount).value;
    MintCallFrame(cfg, s, who, id, target, amount);
    ProposeMintEffect(cfg, s, who, id, target, amount);
    if id in s'.executedMints {
      CompletedMintBalances(
        cfg, s, Extrinsic(Signed(who), ProposeOrVoteMint(id, target, amount)), s', s'.executedMints[id]);
    }
  }

  lemma SwapBalances(cfg: Config, s: State, who: AccountId, target: Bytes, amount: nat)
    requires s.burnId + 1 !in s.burns && BurnTft(cfg, s, who, target, amount).Success?
    ensures Balances(cfg, s, Extrinsic(Signed(who), SwapToStellar(target, amount)),
                     BurnTft(cfg, s, who, target, amount).value)
  {
    var debited := Withdraw(cfg.existentialDeposit, s.ledger, who, amount).value;
    var id: nat := s.burnId + 1;
    SumUpdate(s.burns, BurnAmount, id,
              BurnTransaction(s.block, SaturateU64(amount) - s.withdrawFee, target, [], 0));
    WithdrawIssuance(cfg.existentialDeposit, s.ledger, who, amount);
    PayFeeIssuance(cfg.existentialDeposit, debited, s.feeAccount, s.withdrawFee);
  }

  lemma FinishBurnBalances(s: State, who: AccountId, id: nat)
    requires Inv(s) && FinishBurn(s, who, id).Success?
    ensures Backed(FinishBurn(s, who, id).value) == Backed(s)
  {
    SumRemove(s.burns, BurnAmount, id);
    SumUpdate(s.executedBurns, BurnAmount, id, s.burns[id]);
  }

  lemma AddBurnSignatureBalances(s: State, id: nat, sig: StellarSignature, seqNo: u64)
    requires id in s.burns && AddBurnSignature(s, id, sig, seqNo).Success?
    ensures Backed(AddBurnSignature(s, id, sig, seqNo).value) == Backed(s)
  {
    SumUpdate(s.burns, BurnAmount, id, AddBurnSignature(s, id, sig, seqNo).value.burns[id]);
  }

  lemma BurnCallBalances(cfg: Config, s: State, step: Step)
    requires Inv(s) && BurnCall(step)
    ensures Balances(cfg, s, step, Next(cfg, s, step))
  {
    NextFrame(cfg, s, step);
    if Apply(cfg, s, step.origin, step.call).Success? {
      match step.call
      case SwapToStellar(target, amount) =>
        assert s.burnId + 1 !in s.burns;
        SwapBalances(cfg, s, step.origin.who, target, amount);
      case SetBurnExecuted(id) => FinishBurnBalances(s, step.origin.who, id);
      case ProposeBurnOrAddSig(id, _, _, sig, seqNo) => AddBurnSignatureBalances(s, id, sig, seqNo);
    }
  }

  lemma FinalizeBalances(cfg: Config, s: State, step: Step)
    requires step.Finalize?
    ensures Balances(cfg, s, step, Next(cfg, s, step))
  {
    var s' := Next(cfg, s, step);
    NextFrame(cfg, s, step);
    assert s'.burns.Keys == s.burns.Keys && s'.executedBurns == s.executedBurns;
    SumCongruent(s.burns, s'.burns, BurnAmount);
  }

  /** One transition, with fees, fee account and validators changing freely. */
  lemma NextBalances(cfg: Config, s: State, step: Step)
    requires Inv(s)
    ensures Balances(cfg, s, step, Next(cfg, s, step))
  {
    if MintCall(step) {
      if Apply(cfg, s, step.origin, step.call).Success? {
        MintBalances(cfg, s, step.origin.who, step.call.mintId, step.call.recipient, step.call.amount);
      }
    } else if step.Finalize? {
      FinalizeBalances(cfg, s, step);
    } else if BurnCall(step) {
      BurnCallBalances(cfg, s, step);
    } else {
      NextFrame(cfg, s, step);
      if step.Transfer? { MoveIssuance(s.ledger, step.sender, step.receiver, step.sum); }
    }
  }

  function TotalForgone(cfg: Config, s: State, steps: seq<Step>): nat {
    if steps == [] then 0
    else
      var front := steps[..|steps| - 1];
      TotalForgone(cfg, s, front) + ForgoneFee(Run(cfg, s, front), Run(cfg, s, steps))
  }

  function TotalLost(cfg: Config, s: State, steps: seq<Step>): nat {
    if steps == [] then 0
    else
      var front := steps[..|steps| - 1];
      TotalLost(cfg, s, front) + Lost(cfg, Run(cfg, s, front), steps[|steps| - 1], Run(cfg, s, steps))
  }

  /** Conservation over every run from every state that satisfies the invariant. */
  lemma {:induction false} RunConserves(cfg: Config, s: State, steps: seq<Step>)
    requires Inv(s)
    ensures Backed(Run(cfg, s, steps)) + TotalForgone(cfg, s, steps) + TotalLost(cfg, s, steps) + Minted(s)
         == Backed(s) + Minted(Run(cfg, s, steps))
  {
    if steps == [] {
    } else {
      var front := steps[..|steps| - 1];
      RunConserves(cfg, s, front);
      RunKeepsInv(cfg, s, front);
      NextBalances(cfg, Run(cfg, s, front), steps[|steps| - 1]);
    }
  }

  ghost predicate SwapsFitU64(steps: seq<Step>) {
    forall i :: 0 <= i < |steps| && steps[i].Extrinsic? && steps[i].call.SwapToStellar? ==>
      steps[i].call.value <= U64_MAX
  }

  lemma {:induction false} NothingLost(cfg: Config, s: State, steps: seq<Step>)
    requires cfg.existentialDeposit <= 1 && SwapsFitU64(steps)
    ensures TotalLost(cfg, s, steps) == 0
  {
    if steps == [] {
    } else {
      NothingLost(cfg, s, steps[..|steps| - 1]);
    }
  }

  predicate SwallowsFee(ed: nat, l: Ledger, feeAccount: Option<AccountId>, fee: nat) {
    feeAccount.Some? && Swallowed(ed, l, feeAccount.value, fee)
  }

  /** An accepted swap loses tokens beyond 64 bits, or when its fee cannot open the fee account. */
  predicate SwapLoses(cfg: Config, s: State, who: AccountId, value: nat) {
    var debited := Withdraw(cfg.existentialDeposit, s.ledger, who, value);
    value > U64_MAX
    || (debited.Success? && SwallowsFee(cfg.existentialDeposit, debited.value, s.feeAccount, s.withdrawFee))
  }

  /** A call that completes a mint loses what is too small to open the account it is meant for. */
  predicate MintLoses(cfg: Config, s: State, id: Bytes, target: AccountId, amount: u64) {
    var tx, ed := Proposed(s, id, target, amount), cfg.existentialDeposit;
    && 2 * (tx.votes + 1) > |s.validators| && tx.amount > s.depositFee
    && (|| Swallowed(ed, s.ledger, tx.target, tx.amount - s.depositFee)
        || SwallowsFee(ed, Deposit(ed, s.ledger, tx.target, tx.amount - s.depositFee), s.feeAccount, s.depositFee))
  }

  predicate Loses(cfg: Config, s: State, step: Step) {
    && Accepted(cfg, s, step) && step.origin.Signed?
    && match step.call
       case SwapToStellar(_, value) => SwapLoses(cfg, s, step.origin.who, value)
       case ProposeOrVoteMint(id, target, amount) => MintLoses(cfg, s, id, target, amount)
       case _ => false
  }

  lemma LossOfVoteIff(cfg: Config, s: State, step: Step, s': State)
    requires MintCall(step) && s'.burnId == s.burnId && step.call.mintId !in s.executedMints
    requires var tx := Proposed(s, step.call.mintId, step.call.recipient, step.call.amount);
             if 2 * (tx.votes + 1) <= |s.validators| then s'.executedMints == s.executedMints
             else
               && tx.amount > s.depositFee
               && s'.executedMints == s.executedMints[step.call.mintId := tx.(votes := tx.votes + 1, block := s.block)]
    ensures Lost(cfg, s, step, s') > 0 <==> MintLoses(cfg, s, step.call.mintId, step.call.recipient, step.call.amount)
  {
    assert step.call.mintId in s'.executedMints ==> s'.executedMints != s.executedMints;
  }

  lemma LossOfMintIff(cfg: Config, s: State, step: Step)
    requires Inv(s) && MintCall(step) && Accepted(cfg, s, step)
    ensures Lost(cfg, s, step, Next(cfg, s, step)) > 0
            <==> MintLoses(cfg, s, step.call.mintId, step.call.recipient, step.call.amount)
  {
    ProposeMintEffect(cfg, s, step.origin.who, step.call.mintId, step.call.recipient, step.call.amount);
    NextFrame(cfg, s, step);
    LossOfVoteIff(cfg, s, step, Next(cfg, s, step));
  }

  /** What a step loses can be told before it is taken. */
  lemma LossIff(cfg: Config, s: State, step: Step)
    requires Inv(s)
    ensures Lost(cfg, s, step, Next(cfg, s, step)) > 0 <==> Loses(cfg, s, step)
  {
    if MintCall(step) && Accepted(cfg, s, step) {
      LossOfMintIff(cfg, s, step);
    } else {
      NextFrame(cfg, s, step);
    }
  }

  ghost predicate LosesNothing(cfg: Config, s: State, steps: seq<Step>) {
    forall k: nat :: k < |steps| ==> !Loses(cfg, Run(cfg, s, steps[..k]), steps[k])
  }

  lemma LosesNothingStep(cfg: Config, s: State, front: seq<Step>, last: Step)
    ensures LosesNothing(cfg, s, front + [last])
            <==> LosesNothing(cfg, s, front) && !Loses(cfg, Run(cfg, s, front), last)
  {
    var steps := front + [last];
    assert forall k: nat :: k < |front| ==> steps[..k] == front[..k] && steps[k] == front[k];
    assert steps[..|front|] == front && steps[|front|] == last;
  }

  lemma {:induction false} NothingLostIff(cfg: Config, s: State, steps: seq<Step>)
    requires Inv(s)
    ensures TotalLost(cfg, s, steps) == 0 <==> LosesNothing(cfg, s, steps)
  {
    if steps == [] {
    } else {
      var front, last := steps[..|steps| - 1], steps[|steps| - 1];
      NothingLostIff(cfg, s, front);
      RunKeepsInv(cfg, s, front);
      LossIff(cfg, Run(cfg, s, front), last);
      LosesNothingStep(cfg, s, front, last);
      assert steps == front + [last];
    }
  }

  /**
   From genesis, issuance, burns and the fees nobody received add up to the genesis issuance and
   the mints: exactly as long as no swap exceeds 64 bits and no deposit is swallowed.
   */
  lemma GenesisRunConserves(
    cfg: Config, validators: seq<AccountId>, feeAccount: Option<AccountId>, withdrawFee: u64, depositFee: u64,
    ledger: Ledger, steps: seq<Step>)
    requires StrictlySorted(validators)
    ensures var s0 := Genesis(validators, feeAccount, withdrawFee, depositFee, ledger);
            var s := Run(cfg, s0, steps);
            TotalIssuance(s.ledger) + Sum(s.burns, BurnAmount) + Sum(s.executedBurns, BurnAmount)
            + TotalForgone(cfg, s0, steps)
            == TotalIssuance(ledger) + Sum(s.executedMints, MintAmount)
            <==> LosesNothing(cfg, s0, steps)
  {
    var s0 := Genesis(validators, feeAccount, withdrawFee, depositFee, ledger);
    RunConserves(cfg, s0, steps);
    NothingLostIff(cfg, s0, steps);
  }

  /** When a call on a mint conserves tokens: exactly when none of its deposits is swallowed. */
  lemma MintConservesIff(cfg: Config, s: State, who: AccountId, id: Bytes, target: AccountId, amount: u64)
    requires Inv(s) && ProposeMint(cfg, s, who, id, target, amount).Success?
    ensures var s' := ProposeMint(cfg, s, who, id, target, amount).value;
            Backed(s') + ForgoneFee(s, s') + Minted(s) == Backed(s) + Minted(s')
            <==> !MintLoses(cfg, s, id, target, amount)
  {
    var step := Extrinsic(Signed(who), ProposeOrVoteMint(id, target, amount));
    MintBalances(cfg, s, who, id, target, amount);
    LossOfMintIff(cfg, s, step);
  }

  /**
   When a swap conserves tokens: exactly when it fits 64 bits and the withdraw fee is not too
   small to open the fee account.
   */
  lemma SwapConservesIff(cfg: Config, s: State, who: AccountId, target: Bytes, amount: nat)
    requires Inv(s) && BurnTft(cfg, s, who, target, amount).Success?
    ensures var s' := BurnTft(cfg, s, who, target, amount).value;
            var debited := Withdraw(cfg.existentialDeposit, s.ledger, who, amount).value;
            Backed(s') + ForgoneFee(s, s') == Backed(s)
            <==> && amount <= U64_MAX
                 && !(s.feeAccount.Some?
                      && Swallowed(cfg.existentialDeposit, debited, s.feeAccount.value, s.withdrawFee))
  {
    assert s.burnId + 1 !in s.burns;
    SwapBalances(cfg, s, who, target, amount);
  }

  /**
   Where balances are wider than 64 bits, tokens beyond are lost: 2^64 + 4 are debited but only
   2^64 - 1 are accounted for.
   */
  lemma OversizedSwapLosesTokens()
    ensures exists cfg: Config, s: State, amount: nat ::
      Inv(s) && s.feeAccount.Some? && BurnTft(cfg, s, 1, "G", amount).Success?
      && Backed(BurnTft(cfg, s, 1, "G", amount).value) + 5 == Backed(s)
  {
    var cfg := Config(20, 1, _ => true, _ => true);
    var s := Genesis([], Some(7), 3, 3, Ledger(map[1 := U64_MAX + 100, 7 := 50], map[]));
    assert s.burnId + 1 !in s.burns;
    SwapBalances(cfg, s, 1, "G", U64_MAX + 5);
  }
}
