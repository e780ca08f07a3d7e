/** The bridge wallet: deposits read from Stellar, and payments signed and submitted under one sequence counter. */
module StellarWallet {
  import opened Wrappers
  import opened Collections
  import opened PalletTypes

  // ---- deposits ----------------------------------------------------------------------------

  /** An operation of a Stellar transaction; the amount is missing when it does not parse. */
  datatype Operation =
    | Payment(sender: Bytes, receiver: Bytes, amount: Option<nat>)
    | Other

  datatype Effect = AccountCredited(account: Bytes, code: Bytes, issuer: Bytes) | OtherEffect(account: Bytes)

  type Senders = map<Bytes, nat>

  predicate Counts(op: Operation, account: Bytes) {
    op.Payment? && op.receiver == account && op.amount.Some?
  }

  /** All that was paid to the account. */
  function Deposited(ops: seq<Operation>, account: Bytes): nat {
    if ops == [] then 0
    else
      var last := ops[|ops| - 1];
      Deposited(ops[..|ops| - 1], account) + if Counts(last, account) then last.amount.value else 0
  }

  /** What one sender paid to the account. */
  function DepositedBy(ops: seq<Operation>, account: Bytes, sender: Bytes): nat {
    if ops == [] then 0
    else
      var last := ops[|ops| - 1];
      DepositedBy(ops[..|ops| - 1], account, sender)
      + if Counts(last, account) && last.sender == sender then last.amount.value else 0
  }

  predicate Pays(ops: seq<Operation>, account: Bytes, sender: Bytes) {
    exists i :: 0 <= i < |ops| && Counts(ops[i], account) && ops[i].sender == sender
  }

  /** The senders are those who paid the account, each with the sum of their payments. */
  ghost predicate Aggregates(senders: Senders, ops: seq<Operation>, account: Bytes) {
    && (forall who :: who in senders <==> Pays(ops, account, who))
    && (forall who :: who in senders ==> senders[who] == DepositedBy(ops, account, who))
  }

  lemma PaysExtends(ops: seq<Operation>, op: Operation, account: Bytes, who: Bytes)
    ensures Pays(ops + [op], account, who) <==> Pays(ops, account, who) || (Counts(op, account) && op.sender == who)
  {
    var more := ops + [op];
    if Pays(ops, account, who) {
      var i :| 0 <= i < |ops| && Counts(ops[i], account) && ops[i].sender == who;
      assert more[i] == ops[i];
    }
    assert more[|ops|] == op;
  }

  lemma {:induction false} NonPayersPaidNothing(ops: seq<Operation>, account: Bytes, who: Bytes)
    requires !Pays(ops, account, who)
    ensures DepositedBy(ops, account, who) == 0
  {
    if ops == [] {
    } else {
      var front, last := ops[..|ops| - 1], ops[|ops| - 1];
      assert ops == front + [last];
      PaysExtends(front, last, account, who);
      NonPayersPaidNothing(front, account, who);
    }
  }

  /** One more payment changes the entry of its sender only. */
  lemma AggregateStep(senders: Senders, ops: seq<Operation>, op: Operation, account: Bytes)
    requires Aggregates(senders, ops, account)
    ensures if Counts(op, account)
            then Aggregates(senders[op.sender :=
                   (if op.sender in senders then senders[op.sender] else 0) + op.amount.value], ops + [op], account)
            else Aggregates(senders, ops + [op], account)
  {
    assert (ops + [op])[..|ops|] == ops;
    forall who ensures Pays(ops + [op], account, who)
                       <==> Pays(ops, account, who) || (Counts(op, account) && op.sender == who)
    {
      PaysExtends(ops, op, account, who);
    }
    if Counts(op, account) && op.sender !in senders {
      NonPayersPaidNothing(ops, account, op.sender);
    }
  }

  /** The aggregation, payment by payment. */
  function Collected(ops: seq<Operation>, account: Bytes): Senders {
    if ops == [] then map[]
    else
      var before, last := Collected(ops[..|ops| - 1], account), ops[|ops| - 1];
      if Counts(last, account)
      then before[last.sender := (if last.sender in before then before[last.sender] else 0) + last.amount.value]
      else before
  }

  /** What one more operation does to the sums: only a parseable payment to the account counts, for its sender. */
  lemma CollectedMore(ops: seq<Operation>, op: Operation, account: Bytes)
    ensures var before := Collected(ops, account);
            Collected(ops + [op], account)
            == if op.Payment? && op.receiver == account && op.amount.Some?
               then before[op.sender := op.amount.value + if op.sender in before then before[op.sender] else 0]
               else before
  {
    assert (ops + [op])[..|ops|] == ops;
  }

  lemma {:induction false} CollectedAggregates(ops: seq<Operation>, account: Bytes)
    ensures Aggregates(Collected(ops, account), ops, account)
  {
    if ops == [] {
    } else {
      var front, last := ops[..|ops| - 1], ops[|ops| - 1];
      assert ops == front + [last];
      CollectedAggregates(front, account);
      AggregateStep(Collected(front, account), front, last, account);
    }
  }

  lemma {:induction false} CollectedTotal(ops: seq<Operation>, account: Bytes)
    ensures Sum(Collected(ops, account), Identity) == Deposited(ops, account)
  {
    if ops == [] {
    } else {
      var front, last := ops[..|ops| - 1], ops[|ops| - 1];
      CollectedTotal(front, account);
      if Counts(last, account) {
        var before := Collected(front, account);
        var paid: nat := (if last.sender in before then before[last.sender] else 0) + last.amount.value;
        SumUpdate<Bytes, nat>(before, Identity, last.sender, paid);
      }
    }
  }

  /** Nothing is lost in the aggregation: the entries add up to everything that was deposited. */
  lemma AggregateTotal(senders: Senders, ops: seq<Operation>, account: Bytes)
    requires Aggregates(senders, ops, account)
    ensures senders == Collected(ops, account)
    ensures Sum(senders, Identity) == Deposited(ops, account)
  {
    CollectedAggregates(ops, account);
    CollectedTotal(ops, account);
    assert senders.Keys == Collected(ops, account).Keys;
  }

  // ---- pages -------------------------------------------------------------------------------

  /** The first page of a list of records. */
  function FirstPage<T>(records: seq<T>, size: nat): seq<T> {
    if size <= |records| then records[..size] else records
  }

  /** An operation that moves the sum: a parseable payment to the account of more than nothing. */
  predicate Adds(op: Operation, account: Bytes) {
    Counts(op, account) && op.amount.value > 0
  }

  /** A deposit is counted in full exactly if nothing is paid beyond the first page of its operations. */
  lemma {:induction false} CountedInFullIff(ops: seq<Operation>, account: Bytes, size: nat)
    ensures Deposited(FirstPage(ops, size), account) <= Deposited(ops, account)
    ensures Deposited(FirstPage(ops, size), account) == Deposited(ops, account)
            <==> forall k :: size <= k < |ops| ==> !Adds(ops[k], account)
  {
    if |ops| <= size {
      assert FirstPage(ops, size) == ops;
    } else {
      var front, last := ops[..|ops| - 1], ops[|ops| - 1];
      CountedInFullIff(front, account, size);
      assert FirstPage(front, size) == FirstPage(ops, size);
      assert forall k :: size <= k < |front| ==> front[k] == ops[k];
    }
  }

  // ---- payments ----------------------------------------------------------------------------

  datatype WalletError =
    | InvalidAmount | AccountUnavailable | BadHash | BuildFailed | NotEnoughSignatures | BadSignature | SubmitFailed

  /** A payment in stroops under a sequence number; refunds carry the hash they return. */
  datatype PaymentTx = PaymentTx(destination: Bytes, stroops: int, sequence: int, returnHash: Option<Bytes>)

  datatype Submission = Submission(tx: PaymentTx, signatures: seq<StellarSignature>)

  /** What Horizon and the transaction builder answer during one call. */
  datatype Horizon = Horizon(
    account: Option<int>, decodes: bool, builds: bool, attaches: bool, accepts: bool, accountAfter: Option<int>)

  /** The conversion `int64(amount)`. */
  function ToInt64(n: nat): int {
    var low := n % 0x1_0000_0000_0000_0000;
    if low <= 0x7FFF_FFFF_FFFF_FFFF then low else low - 0x1_0000_0000_0000_0000
  }

  /** A request to sign, as it meets the network. */
  datatype SignRequest = SignRequest(amount: u64, reachable: bool, completes: bool)

  predicate TakesNumber(r: SignRequest) { r.amount != 0 && r.reachable }

  predicate Completes(r: SignRequest) { TakesNumber(r) && r.completes }

  /** The counter after a series of requests. */
  function CounterAfter(start: int, rs: seq<SignRequest>): int {
    start + Count(rs, TakesNumber)
  }

  /** The numbers of the transactions signed by a series of requests. */
  function SignedNumbers(start: int, rs: seq<SignRequest>): seq<int> {
    if rs == [] then []
    else
      SignedNumbers(start, rs[..|rs| - 1])
      + if Completes(rs[|rs| - 1]) then [CounterAfter(start, rs)] else []
  }

  /** The numbers ascend strictly, above `low` and up to `high`. */
  ghost predicate Ascending(ns: seq<int>, low: int, high: int) {
    && (forall i, j :: 0 <= i < j < |ns| ==> ns[i] < ns[j])
    && (forall i :: 0 <= i < |ns| ==> low < ns[i] <= high)
  }

  lemma AscendingAppend(ns: seq<int>, low: int, high: int, n: int)
    requires Ascending(ns, low, high) && low <= high
    ensures n == high + 1 ==> Ascending(ns + [n], low, n)
    ensures high <= n ==> Ascending(ns, low, n)
  {
  }

  /** Signed transactions never share a number: the numbers ascend, above the start, up to the counter. */
  lemma {:induction false} SignedNumbersAscend(start: int, rs: seq<SignRequest>)
    ensures Ascending(SignedNumbers(start, rs), start, CounterAfter(start, rs))
  {
    if rs == [] {
    } else {
      var front := rs[..|rs| - 1];
      SignedNumbersAscend(start, front);
      AscendingAppend(SignedNumbers(start, front), start, CounterAfter(start, front), CounterAfter(start, rs));
      assert SignedNumbers(start, front) + [] == SignedNumbers(start, front);
    }
  }

  /** One series after another is one long series: the counter carries over from call to call. */
  lemma {:induction false} SigningSeriesCompose(start: int, rs: seq<SignRequest>, more: seq<SignRequest>)
    ensures CounterAfter(start, rs + more) == CounterAfter(CounterAfter(start, rs), more)
    ensures SignedNumbers(start, rs + more)
         == SignedNumbers(start, rs) + SignedNumbers(CounterAfter(start, rs), more)
  {
    if more == [] {
      assert rs + more == rs;
    } else {
      var front, last := more[..|more| - 1], more[|more| - 1];
      assert (rs + more)[..|rs| + |front|] == rs + front;
      SigningSeriesCompose(start, rs, front);
      CountConcat(rs, more, TakesNumber);
    }
  }

  predicate WastesNumber(r: SignRequest) { TakesNumber(r) && !Completes(r) }

  /** In general the gaps are exactly the requests that took a number and then failed. */
  lemma {:induction false} SignedNumbersGaps(start: int, rs: seq<SignRequest>)
    ensures |SignedNumbers(start, rs)| == Count(rs, Completes)
    ensures CounterAfter(start, rs) - start - |SignedNumbers(start, rs)| == Count(rs, WastesNumber)
  {
    if rs == [] {
    } else {
      SignedNumbersGaps(start, rs[..|rs| - 1]);
    }
  }

  ghost predicate Consecutive(ns: seq<int>, start: int) {
    forall i :: 0 <= i < |ns| ==> ns[i] == start + 1 + i
  }

  /** No request completes after one that took a number and then failed. */
  ghost predicate NoneCompletesAfterWaste(rs: seq<SignRequest>) {
    forall i, j :: 0 <= i < j < |rs| && Completes(rs[j]) ==> !WastesNumber(rs[i])
  }

  lemma NoneCompletesAfterWasteStep(front: seq<SignRequest>, last: SignRequest)
    ensures NoneCompletesAfterWaste(front + [last])
            <==> NoneCompletesAfterWaste(front) && (Completes(last) ==> Count(front, WastesNumber) == 0)
  {
    var rs := front + [last];
    CountZero(front, WastesNumber);
    assert forall i :: 0 <= i < |front| ==> rs[i] == front[i];
    if NoneCompletesAfterWaste(rs) && Completes(last) {
      assert Completes(rs[|front|]);
    }
  }

  /** The signed numbers are consecutive from start + 1 exactly when no request completes after a wasted number. */
  lemma {:induction false} SignedNumbersConsecutive(start: int, rs: seq<SignRequest>)
    ensures Consecutive(SignedNumbers(start, rs), start) <==> NoneCompletesAfterWaste(rs)
  {
    if rs == [] {
    } else {
      var front, last := rs[..|rs| - 1], rs[|rs| - 1];
      var ns := SignedNumbers(start, front);
      SignedNumbersConsecutive(start, front);
      SignedNumbersGaps(start, front);
      NoneCompletesAfterWasteStep(front, last);
      assert rs == front + [last];
      if Completes(last) {
        assert SignedNumbers(start, rs)[..|ns|] == ns && SignedNumbers(start, rs)[|ns|] == CounterAfter(start, rs);
        assert forall i :: 0 <= i < |ns| ==> ns[i] == SignedNumbers(start, rs)[i];
      } else {
        assert SignedNumbers(start, rs) == ns;
      }
    }
  }

  /** A refund whose hash does not decode wastes a number: the next signature leaves a gap. */
  lemma BadHashLeavesGap(start: int)
    ensures var rs := [SignRequest(5, true, false), SignRequest(5, true, true)];
            SignedNumbers(start, rs) == [start + 2] && !Consecutive(SignedNumbers(start, rs), start)
  {
    var bad, good := SignRequest(5, true, false), SignRequest(5, true, true);
    assert [bad, good][..1] == [bad] && [bad][..0] == [];
    assert Count([bad], TakesNumber) == 1 && Count([bad, good], TakesNumber) == 2;
    assert SignedNumbers(start, [bad]) == [];
    assert SignedNumbers(start, [bad, good])[0] == start + 2;
  }

  class Wallet {
    const account: Bytes
    const code: Bytes
    const issuer: Bytes
    const address: Bytes
    const signatureCount: nat
    const sign: PaymentTx -> Bytes
    /** How many records Horizon puts into one answer; the wallet never asks for the next ones. */
    const pageSize: nat
    var sequenceNumber: int
    /** The payments Horizon has accepted. */
    ghost var submitted: seq<Submission>

    constructor (account: Bytes, code: Bytes, issuer: Bytes, address: Bytes, signatureCount: nat,
                 sign: PaymentTx -> Bytes, pageSize: nat, loaded: int)
      ensures submitted == [] && this.pageSize == pageSize
      ensures sequenceNumber == loaded && this.signatureCount == signatureCount
      ensures this.account == account && this.code == code && this.issuer == issuer
      ensures this.address == address && this.sign == sign
    {
      this.account, this.code, this.issuer, this.address := account, code, issuer, address;
      this.signatureCount := signatureCount;
      this.sign, this.pageSize := sign, pageSize;
      sequenceNumber, submitted := loaded, [];
    }

    /** Which effects announce a deposit: credits of the bridge account, unless both code and issuer differ. */
    predicate Announces(e: Effect) {
      e.account == account && e.AccountCredited? && !(e.code != code && e.issuer != issuer)
    }

    /** A deposit event can come out of an effect when its operations could be fetched. */
    predicate Yields(e: Effect, fetched: bool) {
      Announces(e) && fetched
    }

    /** How many of the first `n` effects yield an event. */
    function Yielding(effects: seq<Effect>, fetched: nat -> bool, n: nat): nat
      requires n <= |effects|
    {
      if n == 0 then 0 else Yielding(effects, fetched, n - 1) + if Yields(effects[n - 1], fetched(n - 1)) then 1 else 0
    }

    predicate Credits(e: Effect) {
      e.account == account && e.AccountCredited?
    }

    predicate IsTft(e: Effect)
      requires e.AccountCredited?
    {
      e.code == code && e.issuer == issuer
    }

    /** Announced is what credits the bridge account in an asset with its code or its issuer. */
    lemma AnnouncesIff(e: Effect)
      ensures Announces(e)
              <==> exists c, i :: e == AccountCredited(account, c, i) && (c == code || i == issuer)
    {
      if Announces(e) {
        assert e == AccountCredited(account, e.code, e.issuer);
      }
    }

    /** A credit in another asset announces a deposit exactly when it shares either the code or the issuer. */
    lemma ForeignCreditAnnouncesIff(e: Effect)
      requires Credits(e) && !IsTft(e)
      ensures Announces(e) <==> (e.code == code) != (e.issuer == issuer)
    {
    }

    /** An asset of the same name by anyone else passes the filter. */
    lemma CounterfeitAnnounces(forger: Bytes)
      requires forger != issuer
      ensures var e := AccountCredited(account, code, forger); Credits(e) && !IsTft(e) && Announces(e)
    {
    }

    lemma {:induction false} SomeYielding(effects: seq<Effect>, fetched: nat -> bool, n: nat)
      requires n <= |effects|
      ensures Yielding(effects, fetched, n) > 0 <==> exists i: nat :: i < n && Yields(effects[i], fetched(i))
    {
      if n == 0 {
      } else {
        SomeYielding(effects, fetched, n - 1);
        assert Yields(effects[n - 1], fetched(n - 1)) ==> exists i: nat :: i < n && Yields(effects[i], fetched(i));
      }
    }

    lemma {:induction false} YieldingBound(effects: seq<Effect>, fetched: nat -> bool, n: nat)
      requires n <= |effects|
      ensures Yielding(effects, fetched, n) <= n
    {
      if n == 0 {
      } else {
        YieldingBound(effects, fetched, n - 1);
      }
    }

    /** Nothing that credits the bridge account is TFT. */
    predicate OnlyForeign(effects: seq<Effect>) {
      forall e <- effects :: Credits(e) ==> !IsTft(e)
    }

    /** A credit in another asset that gets through: half right, with its operations fetched. */
    ghost predicate HalfRight(effects: seq<Effect>, fetched: nat -> bool) {
      exists i: nat :: i < |effects| && Credits(effects[i]) && fetched(i)
                       && (effects[i].code == code) != (effects[i].issuer == issuer)
    }

    lemma ForeignYieldsIff(effects: seq<Effect>, fetched: nat -> bool)
      requires OnlyForeign(effects)
      ensures Yielding(effects, fetched, |effects|) > 0 <==> HalfRight(effects, fetched)
    {
      SomeYielding(effects, fetched, |effects|);
      assert forall i: nat :: i < |effects| ==>
          (Yields(effects[i], fetched(i)) <==>
           Credits(effects[i]) && fetched(i) && (effects[i].code == code) != (effects[i].issuer == issuer))
      by {
        forall i: nat | i < |effects| && Credits(effects[i])
          ensures Announces(effects[i]) <==> (effects[i].code == code) != (effects[i].issuer == issuer)
        {
          assert effects[i] in effects;
          ForeignCreditAnnouncesIff(effects[i]);
        }
      }
    }

    /**
     The mint events of one transaction: one per yielding effect, each with the same complete
     aggregation of the payments to the bridge; none at all if an operation is not a payment.
     */
    method ProcessTransaction(
      successful: bool, effects: Option<seq<Effect>>, fetched: nat -> bool, ops: seq<Operation>)
      returns (r: Option<seq<Senders>>)
      ensures !successful ==> r == Some([])
      ensures successful ==> (r.None? <==> effects.None?)
      ensures successful && effects.Some? && (exists op :: op in ops && op.Other?) ==> r == Some([])
      ensures successful && effects.Some? && (forall op :: op in ops ==> op.Payment?) ==>
                && |r.value| == Yielding(effects.value, fetched, |effects.value|)
                && (forall i :: 0 <= i < |r.value| ==> Aggregates(r.value[i], ops, account))
                && (OnlyForeign(effects.value) ==> (r.value != [] <==> HalfRight(effects.value, fetched)))
    {
      if !successful {
        return Some([]);
      }
      if effects.None? {
        return None;
      }
      var records := effects.value;
      var events: seq<Senders> := [];
      for n := 0 to |records|
        invariant (forall op :: op in ops ==> op.Payment?) ==> |events| == Yielding(records, fetched, n)
        invariant forall i :: 0 <= i < |events| ==> Aggregates(events[i], ops, account)
        invariant (exists op :: op in ops && op.Other?) ==> events == []
      {
        if records[n].account != account {
          continue;
        }
        if !records[n].AccountCredited? {
          continue;
        }
        if records[n].code != code && records[n].issuer != issuer {
          continue;
        }
        if !fetched(n) {
          continue;
        }
        var senders: Senders := map[];
        for k := 0 to |ops|
          invariant Aggregates(senders, ops[..k], account)
          invariant forall i :: 0 <= i < k ==> ops[i].Payment?
        {
          var op := ops[k];
          AggregateStep(senders, ops[..k], op, account);
          assert ops[..k + 1] == ops[..k] + [op];
          if !op.Payment? {
            return Some([]);
          }
          if op.receiver != account {
            continue;
          }
          if op.amount.None? {
            continue;
          }
          if op.sender !in senders {
            senders := senders[op.sender := op.amount.value];
          } else {
            senders := senders[op.sender := senders[op.sender] + op.amount.value];
          }
        }
        assert ops[..|ops|] == ops;
        events := events + [senders];
      }
      if OnlyForeign(records) { ForeignYieldsIff(records, fetched); }
      return Some(events);
    }

    /** A zero sequence number takes the next one of the counter; any other becomes the counter. */
    method GeneratePayment(amount: u64, destination: Bytes, sequence: int, h: Horizon)
      returns (r: Result<PaymentTx, WalletError>)
      modifies this`sequenceNumber
      ensures r.Success? <==> amount != 0 && h.account.Some?
      ensures r.Failure? ==> r.error == if amount == 0 then InvalidAmount else AccountUnavailable
      ensures sequenceNumber == if r.Failure? then old(sequenceNumber)
                                else if sequence == 0 then old(sequenceNumber) + 1 else sequence
      ensures r.Success? ==> r.value == PaymentTx(destination, ToInt64(amount), sequenceNumber, None)
    {
      if amount == 0 {
        return Failure(InvalidAmount);
      }
      if h.account.None? {
        return Failure(AccountUnavailable);
      }
      if sequence == 0 {
        sequenceNumber := sequenceNumber + 1;
      } else {
        sequenceNumber := sequence;
      }
      return Success(PaymentTx(destination, ToInt64(amount), sequenceNumber, None));
    }

    /** Signs a payment (or a refund, when a hash is given): one request to the counter. */
    method CreateAndReturnSignature(target: Bytes, amount: u64, returnHash: Option<Bytes>, h: Horizon)
      returns (r: Result<(Bytes, int), WalletError>)
      modifies this`sequenceNumber
      ensures var request := SignRequest(amount, h.account.Some?, (returnHash.None? || h.decodes) && h.builds);
              && sequenceNumber == CounterAfter(old(sequenceNumber), [request])
              && (r.Success? <==> Completes(request))
              && (r.Success? ==> SignedNumbers(old(sequenceNumber), [request]) == [r.value.1])
              && (r == Failure(InvalidAmount) <==> amount == 0)
      ensures r.Success? <==> amount > 0 && h.account.Some? && (returnHash.Some? ==> h.decodes) && h.builds
      ensures r.Success? ==> r.value.1 == old(sequenceNumber) + 1
      ensures sequenceNumber == old(sequenceNumber) + if amount > 0 && h.account.Some? then 1 else 0
      ensures r.Success? ==> r.value.0 == sign(PaymentTx(target, ToInt64(amount), r.value.1, returnHash))
    {
      ghost var request := SignRequest(amount, h.account.Some?, (returnHash.None? || h.decodes) && h.builds);
      assert [request][..0] == [];
      assert Count([request], TakesNumber) == if TakesNumber(request) then 1 else 0;
      var generated := GeneratePayment(amount, target, 0, h);
      if generated.Failure? {
        return Failure(generated.error);
      }
      var tx := generated.value;
      if returnHash.Some? {
        if !h.decodes {
          return Failure(BadHash);
        }
        tx := tx.(returnHash := returnHash);
      }
      if !h.builds {
        return Failure(BuildFailed);
      }
      return Success((sign(tx), tx.sequence));
    }

    /** The first thing that prevents a payment from being submitted. */
    function SubmitProblem(
      amount: u64, returnHash: Option<Bytes>, signatures: seq<StellarSignature>, h: Horizon): Option<WalletError>
    {
      if amount == 0 then Some(InvalidAmount)
      else if h.account.None? then Some(AccountUnavailable)
      else if returnHash.Some? && !h.decodes then Some(BadHash)
      else if !h.builds then Some(BuildFailed)
      else if |signatures| < signatureCount then Some(NotEnoughSignatures)
      else if !h.attaches then Some(BadSignature)
      else if !h.accepts then Some(SubmitFailed)
      else None
    }

    /**
     Submits a payment under the sequence number it is given, with exactly the required number of
     signatures, the first ones. A refused submission reloads the counter.
     */
    method CreateWithSignaturesAndSubmit(
      target: Bytes, amount: u64, returnHash: Option<Bytes>, signatures: seq<StellarSignature>, sequence: int,
      h: Horizon)
      returns (r: Result<Submission, WalletError>)
      modifies this`sequenceNumber, this`submitted
      ensures submitted == old(submitted) + if r.Success? then [r.value] else []
      ensures r.Success? <==> SubmitProblem(amount, returnHash, signatures, h).None?
      ensures r.Failure? ==> SubmitProblem(amount, returnHash, signatures, h) == Some(r.error)
      ensures r.Success? <==>
                && amount > 0 && h.account.Some? && (returnHash.Some? ==> h.decodes) && h.builds
                && |signatures| >= signatureCount && h.attaches && h.accepts
      ensures sequenceNumber ==
                if amount == 0 || h.account.None? then old(sequenceNumber)
                else if r == Failure(SubmitFailed) && h.accountAfter.Some? then h.accountAfter.value
                else if sequence == 0 then old(sequenceNumber) + 1 else sequence
      ensures r.Success? ==>
                && |signatures| >= signatureCount
                && r.value == Submission(PaymentTx(target, ToInt64(amount), sequenceNumber, returnHash),
                                         signatures[..signatureCount])
    {
      var generated := GeneratePayment(amount, target, sequence, h);
      if generated.Failure? {
        return Failure(generated.error);
      }
      var tx := generated.value;
      if returnHash.Some? {
        if !h.decodes {
          return Failure(BadHash);
        }
        tx := tx.(returnHash := returnHash);
      }
      if !h.builds {
        return Failure(BuildFailed);
      }
      if |signatures| < signatureCount {
        return Failure(NotEnoughSignatures);
      }
      if !h.attaches {
        return Failure(BadSignature);
      }
      if !h.accepts {
        ResetAccountSequence(h);
        return Failure(SubmitFailed);
      }
      submitted := submitted + [Submission(tx, signatures[..signatureCount])];
      return Success(Submission(tx, signatures[..signatureCount]));
    }

    method ResetAccountSequence(h: Horizon)
      modifies this`sequenceNumber
      ensures sequenceNumber == if h.accountAfter.Some? then h.accountAfter.value else old(sequenceNumber)
    {
      if h.accountAfter.Some? {
        sequenceNumber := h.accountAfter.value;
      }
    }
  }
}
