/** The account balances the pallet deposits to and withdraws from. */
module Ledgers {
  import opened Wrappers
  import opened Collections
  import opened ValidatorList

  datatype Ledger = Ledger(free: map<AccountId, nat>, frozen: map<AccountId, nat>)

  datatype LedgerError = InsufficientBalance | KeepAlive

  function Free(l: Ledger, who: AccountId): nat {
    if who in l.free then l.free[who] else 0
  }

  /** The part of the free balance that no lock holds. */
  function Usable(l: Ledger, who: AccountId): nat {
    var frozen := if who in l.frozen then l.frozen[who] else 0;
    if frozen <= Free(l, who) then Free(l, who) - frozen else 0
  }

  /** A deposit below the existential deposit cannot open an account: it disappears. */
  predicate Swallowed(ed: nat, l: Ledger, who: AccountId, value: nat) {
    0 < value < ed && Free(l, who) == 0
  }

  function Deposit(ed: nat, l: Ledger, who: AccountId, value: nat): Ledger {
    if value == 0 || Swallowed(ed, l, who, value) then l
    else l.(free := l.free[who := Free(l, who) + value])
  }

  /** A withdrawal that must keep the account alive. */
  function Withdraw(ed: nat, l: Ledger, who: AccountId, value: nat): Result<Ledger, LedgerError> {
    if Free(l, who) < value then Failure(InsufficientBalance)
    else if Free(l, who) - value < ed <= Free(l, who) then Failure(KeepAlive)
    else Success(l.(free := l.free[who := Free(l, who) - value]))
  }

  function Move(l: Ledger, sender: AccountId, receiver: AccountId, sum: nat): Ledger {
    if sum <= Free(l, sender) then
      var paid := l.(free := l.free[sender := Free(l, sender) - sum]);
      paid.(free := paid.free[receiver := Free(paid, receiver) + sum])
    else l
  }

  ghost function TotalIssuance(l: Ledger): nat {
    Sum(l.free, Identity)
  }

  /** A deposit arrives in full exactly if the account has a balance or the deposit is enough to open it. */
  lemma DepositArrivesIff(ed: nat, l: Ledger, who: AccountId, value: nat)
    ensures var before := if who in l.free then l.free[who] else 0;
            var l' := Deposit(ed, l, who, value);
            if value > 0 && (before > 0 || value >= ed) then l' == l.(free := l.free[who := before + value])
            else l' == l
  {
  }

  lemma DepositIssuance(ed: nat, l: Ledger, who: AccountId, value: nat)
    ensures TotalIssuance(Deposit(ed, l, who, value))
         == TotalIssuance(l) + if Swallowed(ed, l, who, value) then 0 else value
  {
    SumUpdate<AccountId, nat>(l.free, Identity, who, Free(l, who) + value);
  }

  lemma WithdrawIssuance(ed: nat, l: Ledger, who: AccountId, value: nat)
    requires Withdraw(ed, l, who, value).Success?
    ensures TotalIssuance(Withdraw(ed, l, who, value).value) == TotalIssuance(l) - value
  {
    SumUpdate<AccountId, nat>(l.free, Identity, who, Free(l, who) - value);
  }

  lemma MoveIssuance(l: Ledger, sender: AccountId, receiver: AccountId, sum: nat)
    ensures TotalIssuance(Move(l, sender, receiver, sum)) == TotalIssuance(l)
  {
    if sum <= Free(l, sender) {
      var paid := l.(free := l.free[sender := Free(l, sender) - sum]);
      SumUpdate<AccountId, nat>(l.free, Identity, sender, Free(l, sender) - sum);
      SumUpdate<AccountId, nat>(paid.free, Identity, receiver, Free(paid, receiver) + sum);
    }
  }
}
