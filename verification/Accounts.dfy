/** Who gets what: the balances before and after a mint and a swap, account by account. */
module Accounts {
  import opened Wrappers
  import opened ValidatorList
  import opened Ledgers
  import opened PalletTypes
  import opened PalletSpec
  import opened PalletEffects

  /** What `who` receives when `value` is deposited to `target`. */
  function Received(ed: nat, l: Ledger, target: AccountId, value: nat, who: AccountId): nat {
    if who == target && !Swallowed(ed, l, target, value) then value else 0
  }

  lemma DepositReceived(ed: nat, l: Ledger, target: AccountId, value: nat, who: AccountId)
    ensures Free(Deposit(ed, l, target, value), who) == Free(l, who) + Received(ed, l, target, value, who)
  {
  }

  function FeeReceived(ed: nat, l: Ledger, feeAccount: Option<AccountId>, fee: nat, who: AccountId): nat {
    if feeAccount.Some? then Received(ed, l, feeAccount.value, fee, who) else 0
  }

  lemma PayFeeReceived(ed: nat, l: Ledger, feeAccount: Option<AccountId>, fee: nat, who: AccountId)
    ensures Free(PayFee(ed, l, feeAccount, fee), who) == Free(l, who) + FeeReceived(ed, l, feeAccount, fee, who)
  {
    if feeAccount.Some? { DepositReceived(ed, l, feeAccount.value, fee, who); }
  }

  /** What `who` receives when a mint completes: the target gets the amount less the fee, the fee account the fee. */
  function MintReceived(ed: nat, s: State, tx: MintTransaction, who: AccountId): nat
    requires tx.amount > s.depositFee
  {
    var net := tx.amount - s.depositFee;
    Received(ed, s.ledger, tx.target, net, who)
    + FeeReceived(ed, Deposit(ed, s.ledger, tx.target, net), s.feeAccount, s.depositFee, who)
  }

  lemma CompletedMintReceived(ed: nat, s: State, tx: MintTransaction, who: AccountId)
    requires tx.amount > s.depositFee
    ensures var credited := Deposit(ed, s.ledger, tx.target, tx.amount - s.depositFee);
            Free(PayFee(ed, credited, s.feeAccount, s.depositFee), who)
            == Free(s.ledger, who) + MintReceived(ed, s, tx, who)
  {
    var net := tx.amount - s.depositFee;
    DepositReceived(ed, s.ledger, tx.target, net, who);
    PayFeeReceived(ed, Deposit(ed, s.ledger, tx.target, net), s.feeAccount, s.depositFee, who);
  }

  lemma VoteReceived(cfg: Config, s: State, id: Bytes, tx: MintTransaction, r: Outcome, who: AccountId)
    requires VoteResult(cfg, s, id, tx, r) && r.Success? && id !in s.executedMints
    ensures if id in r.value.executedMints then
              var done := r.value.executedMints[id];
              && done.amount > s.depositFee
              && Free(r.value.ledger, who) == Free(s.ledger, who) + MintReceived(cfg.existentialDeposit, s, done, who)
            else Free(r.value.ledger, who) == Free(s.ledger, who)
  {
    if 2 * tx.votes > |s.validators| {
      CompletedMintReceived(cfg.existentialDeposit, s, tx, who);
    }
  }

  /**
   The call that completes a mint credits the recorded target and the fee account and nobody
   else; every other call on a mint credits nobody.
   */
  lemma MintCredits(
    cfg: Config, s: State, validator: AccountId, id: Bytes, target: AccountId, amount: u64, who: AccountId)
    requires ProposeMint(cfg, s, validator, id, target, amount).Success?
    ensures var s' := ProposeMint(cfg, s, validator, id, target, amount).value;
            if id in s'.executedMints then
              var tx := s'.executedMints[id];
              && tx.amount > s.depositFee
              && Free(s'.ledger, who) == Free(s.ledger, who) + MintReceived(cfg.existentialDeposit, s, tx, who)
            else Free(s'.ledger, who) == Free(s.ledger, who)
  {
    var before := Proposed(s, id, target, amount);
    ProposeMintEffect(cfg, s, validator, id, target, amount);
    VoteReceived(cfg, s, id, before.(votes := before.votes + 1),
                 ProposeMint(cfg, s, validator, id, target, amount), who);
  }

  /** A swap debits the source by the whole amount, out of its usable balance, and credits only the fee account. */
  lemma SwapDebits(cfg: Config, s: State, source: AccountId, target: Bytes, amount: nat, who: AccountId)
    requires BurnTft(cfg, s, source, target, amount).Success?
    ensures var s' := BurnTft(cfg, s, source, target, amount).value;
            var ed := cfg.existentialDeposit;
            var debited := Withdraw(ed, s.ledger, source, amount).value;
            && s.withdrawFee < amount <= Usable(s.ledger, source) <= Free(s.ledger, source)
            && Free(s'.ledger, who) == Free(s.ledger, who)
               - (if who == source then amount else 0)
               + FeeReceived(ed, debited, s.feeAccount, s.withdrawFee, who)
  {
    var debited := Withdraw(cfg.existentialDeposit, s.ledger, source, amount).value;
    PayFeeReceived(cfg.existentialDeposit, debited, s.feeAccount, s.withdrawFee, who);
  }
}
