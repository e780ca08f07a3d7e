/** The daemon: deposits become mints or refunds, burns become Stellar payments, and a cursor survives crashes. */
module Bridge {
  import opened Wrappers
  import opened Collections
  import opened ValidatorList
  import opened Ledgers
  import opened PalletTypes
  import opened Signing
  import opened PalletSpec
  import opened Persistency
  import opened Memo
  import opened StellarWallet
  import opened SubstrateClient
  import BurnRuns
  import MintRuns

  // ---- deposits ----------------------------------------------------------------------------

  /** A transaction on the bridge account as Stellar has it; tokens ascend in the order Horizon lists transactions. */
  datatype StellarTx = StellarTx(
    hash: Bytes, token: Cursor, memo: string, returned: bool,
    successful: bool, effects: seq<Effect>, ops: seq<Operation>)

  ghost predicate Listed(txs: seq<StellarTx>) {
    && (forall i :: 0 <= i < |txs| ==> 0 < txs[i].token)
    && (forall i, j :: 0 <= i < j < |txs| ==> txs[i].token < txs[j].token && txs[i].hash != txs[j].hash)
  }

  /** What is done with a deposit. */
  datatype Route = Ignore | Refund | Return | Propose(account: AccountId)

  /** The decision for a single sender's deposit. */
  function RouteOne(amount: nat, tx: StellarTx, depositFee: int, dir: Directory): Route {
    if tx.memo == "" then Refund
    else if tx.returned then Return
    else if amount <= depositFee then Refund
    else
      match Resolve(dir, tx.memo)
      case Some(account) => Propose(account)
      case None => Refund
  }

  ghost function RouteOf(senders: Senders, tx: StellarTx, depositFee: int, dir: Directory): Route {
    if senders == map[] then Ignore
    else if |senders| > 1 then Refund
    else RouteOne(senders[Pick(senders)], tx, depositFee, dir)
  }

  /** Route by route, when it is taken: from the number of senders, the memo, the fee and the registered owners. */
  ghost predicate RouteIs(senders: Senders, tx: StellarTx, depositFee: int, dir: Directory, route: Route) {
    match route
    case Ignore => senders == map[]
    case Return => |senders| == 1 && tx.memo != "" && tx.returned
    case Propose(account) =>
      && |senders| == 1 && tx.memo != "" && !tx.returned
      && (forall who :: who in senders ==> senders[who] > depositFee) && NamesAccount(dir, tx.memo, account)
    case Refund =>
      || |senders| > 1
      || (|senders| == 1 && tx.memo == "")
      || (|senders| == 1 && !tx.returned
          && ((exists who :: who in senders && senders[who] <= depositFee)
              || forall account :: !NamesAccount(dir, tx.memo, account)))
  }

  lemma RouteIff(senders: Senders, tx: StellarTx, depositFee: int, dir: Directory, route: Route)
    ensures RouteOf(senders, tx, depositFee, dir) == route <==> RouteIs(senders, tx, depositFee, dir, route)
  {
    forall account: AccountId ensures Resolve(dir, tx.memo) == Some(account) <==> NamesAccount(dir, tx.memo, account) {
      ResolveIff(dir, tx.memo, account);
    }
    if |senders| == 1 {
      forall who | who in senders ensures who == Pick(senders) { SoleSender(senders, who); }
      var resolved := Resolve(dir, tx.memo);
      assert resolved.Some? ==> NamesAccount(dir, tx.memo, resolved.value);
    }
    assert senders != map[] ==> Pick(senders) in senders.Keys;
  }

  lemma SoleSender(senders: Senders, sender: Bytes)
    requires |senders| == 1 && sender in senders
    ensures Pick(senders) == sender
  {
    var other := Pick(senders);
    assert other in senders.Keys && |senders.Keys - {sender}| == 0;
  }

  ghost predicate MintKnown(s: State, id: Bytes) {
    id in s.mints || id in s.executedMints
  }

  ghost predicate RefundKnown(s: State, hash: Bytes) {
    hash in s.refunds || hash in s.executedRefunds
  }

  function ToU64(n: int): u64 {
    n % 0x1_0000_0000_0000_0000
  }

  datatype MintOutcome = Done | AlreadyMinted | Failed

  /** The outside world during the handling of one mint event. */
  datatype MintWorld = MintWorld(
    before: seq<Step>, mintedAnswered: bool, refundBefore: seq<Step>, refundAnswered: bool,
    dir: Directory, addressValid: bool, horizon: Horizon, net: Network, disk: Disk)

  /** The answers about one transaction: which requests succeed, and the world while its events are handled. */
  datatype Delivery = Delivery(hash: Bytes, effectsFetched: bool, fetched: nat -> bool, worlds: seq<MintWorld>)

  /** One process: an optional rescan, then pages of transactions until it ends or crashes. */
  datatype Life = Life(rescan: bool, cursorDisk: Disk, heightDisk: Disk, startDisk: Disk, pages: seq<seq<Delivery>>)

  function DeliveriesOf(pages: seq<seq<Delivery>>): seq<Delivery> {
    if pages == [] then [] else DeliveriesOf(pages[..|pages| - 1]) + pages[|pages| - 1]
  }

  lemma {:induction false} PageDelivers(pages: seq<seq<Delivery>>, p: nat)
    requires p < |pages|
    ensures forall d :: d in pages[p] ==> d in DeliveriesOf(pages)
  {
    if p == |pages| - 1 {
    } else {
      PageDelivers(pages[..|pages| - 1], p);
    }
  }

  function AllDeliveries(lives: seq<Life>): seq<Delivery> {
    if lives == [] then [] else AllDeliveries(lives[..|lives| - 1]) + DeliveriesOf(lives[|lives| - 1].pages)
  }

  lemma {:induction false} LifeDelivers(lives: seq<Life>, n: nat)
    requires n < |lives|
    ensures forall d :: d in DeliveriesOf(lives[n].pages) ==> d in AllDeliveries(lives)
  {
    if n == |lives| - 1 {
    } else {
      LifeDelivers(lives[..|lives| - 1], n);
    }
  }

  /** A turn in which nothing stands in the way of noting a returned payment. */
  predicate Smooth(w: MintWorld) {
    w.before == [] && w.mintedAnswered && w.disk == Disk(true, true)
  }

  /** How many transactions of the list lie at or before a cursor. */
  function Before(txs: seq<StellarTx>, cursor: Cursor): nat {
    if txs == [] || cursor < txs[0].token then 0 else 1 + Before(txs[1..], cursor)
  }

  lemma {:induction false} BeforeIsPrefix(txs: seq<StellarTx>, cursor: Cursor)
    requires Listed(txs)
    ensures Before(txs, cursor) <= |txs|
    ensures forall i :: 0 <= i < |txs| ==> (i < Before(txs, cursor) <==> txs[i].token <= cursor)
  {
    if txs == [] || cursor < txs[0].token {
    } else {
      BeforeIsPrefix(txs[1..], cursor);
      assert forall i :: 0 < i < |txs| ==> txs[i] == txs[1..][i - 1];
    }
  }

  // ---- withdrawals -------------------------------------------------------------------------

  datatype Withdraw = Withdraw(id: nat, source: AccountId, target: Bytes, amount: u64)

  datatype RefundRequest = RefundRequest(hash: Bytes, target: Bytes, amount: u64)

  datatype Outcome =
    | Finished
    | AlreadyBurned
    | AlreadyMintedBack
    | AlreadyRefunded
    | NoSignatures
    | Broken(cause: Option<WalletError>)

  /** The outside world during the handling of one chain event. */
  datatype World = World(
    before: seq<Step>, answered: bool, between: seq<Step>, answeredNext: bool,
    trusted: bool, horizon: Horizon, net: Network, netNext: Network)

  /** The bridge events of one block, by kind. */
  datatype Batch = Batch(
    created: seq<Withdraw>, expired: seq<Withdraw>, ready: seq<nat>,
    refundExpired: seq<RefundRequest>, refundReady: seq<Bytes>)

  /**
   A submitted payment pays what the record says: its target and amount, under the recorded number,
   which is its last signer's (the next one if it is zero), with the first `count` of its signatures,
   all different.
   */
  ghost predicate PaysRecord(
    paid: Option<Submission>, target: Bytes, amount: u64, returnHash: Option<Bytes>,
    signatures: seq<StellarSignature>, sequenceNumber: u64, count: nat, next: int)
  {
    var number := ToInt64(sequenceNumber);
    && paid.Some? && count <= |signatures|
    && paid.value.tx == PaymentTx(target, ToInt64(amount), if number == 0 then next else number, returnHash)
    && paid.value.signatures == signatures[..count] && PairwiseDistinct(paid.value.signatures)
  }

  predicate IsClosing(call: Call) {
    call.SetBurnExecuted? || call.SetRefundExecuted?
  }

  function Worlds(world: (nat, nat) -> World, kind: nat): nat -> World {
    (n: nat) => world(kind, n)
  }

  /** Saving succeeds. */
  predicate CanSave(file: Option<Blockheight>, disk: Disk) {
    (file.None? || disk.readable) && disk.writable
  }

  /** The wallet can sign: the amount is positive, the account is reached, the transaction can be built. */
  predicate CanSign(amount: u64, isRefund: bool, h: Horizon) {
    amount > 0 && h.account.Some? && (isRefund ==> h.decodes) && h.builds
  }

  /** The wallet can also submit: enough signatures, all of them well-formed, and Horizon accepts. */
  predicate CanSubmit(amount: u64, isRefund: bool, signatures: nat, count: nat, h: Horizon) {
    CanSign(amount, isRefund, h) && signatures >= count && h.attaches && h.accepts
  }

  class Daemon {
    const client: Client
    const wallet: Wallet
    const persist: ChainPersistency
    const depositFee: int
    /** The deliveries taken off the stream, in order. */
    ghost var received: seq<Delivery>
    /** Notes on the transactions taken off it: which were tended, and which its cursor may pass. */
    ghost var tended: set<StellarTx>
    ghost var passed: set<StellarTx>

    constructor (client: Client, wallet: Wallet, persist: ChainPersistency, depositFee: int)
      ensures this.client == client && this.wallet == wallet && this.persist == persist
      ensures this.depositFee == depositFee && received == [] && tended == {} && passed == {}
    {
      this.client, this.wallet, this.persist, this.depositFee := client, wallet, persist, depositFee;
      received, tended, passed := [], {}, {};
    }

    /** The call that proposes this wallet's signature for paying a burn under sequence number `n`. */
    function BurnSignatureCall(id: nat, target: Bytes, amount: u64, n: int): Call {
      ProposeBurnOrAddSig(id, target, amount,
        StellarSignature(wallet.sign(PaymentTx(target, ToInt64(amount), n, None)), wallet.address), ToU64(n))
    }

    /** The call that proposes this wallet's signature for returning a deposit. */
    function RefundSignatureCall(hash: Bytes, target: Bytes, amount: u64, n: int): Call {
      CreateRefundOrAddSig(hash, target, amount,
        StellarSignature(wallet.sign(PaymentTx(target, ToInt64(amount), n, Some(hash))), wallet.address), ToU64(n))
    }

    /** This wallet's signature under exactly that payment was accepted, or the burn is closed anyway. */
    ghost predicate BurnSigned(m: Moment, since: nat, id: nat, target: Bytes, amount: u64) {
      id in m.chain.executedBurns || exists n :: Logged(m.accepted, since, BurnSignatureCall(id, target, amount, n))
    }

    ghost predicate RefundSigned(m: Moment, since: nat, hash: Bytes, target: Bytes, amount: u64) {
      || hash in m.chain.executedRefunds
      || exists n :: Logged(m.accepted, since, RefundSignatureCall(hash, target, amount, n))
    }

    /**
     In plain terms: the burn is executed, or this daemon had a call accepted for this burn, target and
     amount, with its own key and its signature over that payment.
     */
    lemma BurnSignedMeans(m: Moment, since: nat, id: nat, target: Bytes, amount: u64)
      requires BurnSigned(m, since, id, target, amount)
      ensures id in m.chain.executedBurns
              || exists n ::
                   Logged(m.accepted, since, ProposeBurnOrAddSig(id, target, amount,
                     StellarSignature(
                       wallet.sign(PaymentTx(target, ToInt64(amount), n, None)), wallet.address), ToU64(n)))
    {
    }

    /**
     In plain terms: the refund is executed, or this daemon had a call accepted for this hash, target
     and amount, with its own key and its signature over that payment.
     */
    lemma RefundSignedMeans(m: Moment, since: nat, hash: Bytes, target: Bytes, amount: u64)
      requires RefundSigned(m, since, hash, target, amount)
      ensures hash in m.chain.executedRefunds
              || exists n ::
                   Logged(m.accepted, since, CreateRefundOrAddSig(hash, target, amount,
                     StellarSignature(
                       wallet.sign(PaymentTx(target, ToInt64(amount), n, Some(hash))), wallet.address), ToU64(n)))
    {
    }

    ghost predicate MintProposed(m: Moment, since: nat, id: Bytes, target: AccountId, amount: u64) {
      id in m.chain.executedMints || Logged(m.accepted, since, ProposeOrVoteMint(id, target, amount))
    }

    lemma BurnSignedLasts(past: Moment, since: nat, earlier: nat, id: nat, target: Bytes, amount: u64)
      requires client.Since(past) && earlier <= since && BurnSigned(past, since, id, target, amount)
      ensures BurnSigned(client.Now(), earlier, id, target, amount)
    {
      if id !in past.chain.executedBurns {
        var n :| Logged(past.accepted, since, BurnSignatureCall(id, target, amount, n));
        LoggedLonger(past.accepted, client.accepted, since, earlier, BurnSignatureCall(id, target, amount, n));
      }
    }

    lemma RefundSignedLasts(past: Moment, since: nat, earlier: nat, hash: Bytes, target: Bytes, amount: u64)
      requires client.Since(past) && earlier <= since && RefundSigned(past, since, hash, target, amount)
      ensures RefundSigned(client.Now(), earlier, hash, target, amount)
    {
      if hash !in past.chain.executedRefunds {
        var n :| Logged(past.accepted, since, RefundSignatureCall(hash, target, amount, n));
        LoggedLonger(past.accepted, client.accepted, since, earlier, RefundSignatureCall(hash, target, amount, n));
      }
    }

    lemma MintProposedLasts(past: Moment, since: nat, earlier: nat, id: Bytes, target: AccountId, amount: u64)
      requires client.Since(past) && earlier <= since && MintProposed(past, since, id, target, amount)
      ensures MintProposed(client.Now(), earlier, id, target, amount)
    {
      if id !in past.chain.executedMints {
        LoggedLonger(past.accepted, client.accepted, since, earlier, ProposeOrVoteMint(id, target, amount));
      }
    }

    /** None of the calls submitted after the first `from` closes a burn or a refund. */
    ghost predicate NoClosing(sent: seq<Call>, from: nat) {
      forall k :: from <= k < |sent| ==> !IsClosing(sent[k])
    }

    // ---- mint and refund -------------------------------------------------------------------

    /** The senders of a transaction and what each paid, as far as the first page of its operations shows. */
    function SendersOf(tx: StellarTx): Senders {
      Collected(FirstPage(tx.ops, wallet.pageSize), wallet.account)
    }

    /**
     The deposit went down its route: refunded to a sender for what that sender paid, or proposed
     to the account its memo names for what was paid, each by an accepted call of this daemon.
     */
    ghost predicate RouteTaken(m: Moment, since: nat, tx: StellarTx, senders: Senders, route: Route) {
      match route
      case Ignore => senders == map[]
      case Return => tx.returned
      case Refund =>
        && RefundKnown(m.chain, tx.hash)
        && exists who :: who in senders && RefundSigned(m, since, tx.hash, who, ToU64(senders[who]))
      case Propose(account) =>
        && senders != map[] && MintKnown(m.chain, tx.hash)
        && MintProposed(m, since, tx.hash, account, ToU64(senders[Pick(senders)]))
    }

    lemma RouteTakenLasts(past: Moment, since: nat, earlier: nat, tx: StellarTx, senders: Senders, route: Route)
      requires client.Since(past) && earlier <= since && RouteTaken(past, since, tx, senders, route)
      ensures RouteTaken(client.Now(), earlier, tx, senders, route)
    {
      match route
      case Refund =>
        var who :| who in senders && RefundSigned(past, since, tx.hash, who, ToU64(senders[who]));
        RefundSignedLasts(past, since, earlier, tx.hash, who, ToU64(senders[who]));
        assert tx.hash in past.chain.refunds.Keys + past.chain.executedRefunds.Keys;
      case Propose(account) =>
        MintProposedLasts(past, since, earlier, tx.hash, account, ToU64(senders[Pick(senders)]));
        assert tx.hash in past.chain.mints.Keys + past.chain.executedMints.Keys;
      case _ =>
    }

    /** Signs a refund and proposes the signature, under the next number of the counter. */
    method SignRefund(req: RefundRequest, h: Horizon, net: Network) returns (r: Outcome)
      requires client.Valid()
      modifies client, wallet`sequenceNumber
      ensures client.Valid() && client.Since(old(client.Now()))
      ensures r.Finished? || r.Broken?
      ensures r.Finished? ==> RefundKnown(client.chain, req.hash)
      ensures var n := old(wallet.sequenceNumber) + 1;
              var payment := PaymentTx(req.target, ToInt64(req.amount), n, Some(req.hash));
              var call := CreateRefundOrAddSig(req.hash, req.target, req.amount,
                            StellarSignature(wallet.sign(payment), wallet.address), ToU64(n));
              && RefundSignatureCall(req.hash, req.target, req.amount, n) == call
              && (r.Finished? ==>
                    req.hash in client.chain.executedRefunds || Logged(client.accepted, |old(client.accepted)|, call))
              && (client.sent == old(client.sent) || client.SentOnly(old(client.sent), call))
              && (CanSign(req.amount, true, h) && client.Grants(old(client.chain), call, net) ==> r.Finished?)
              && (r.Broken? ==> !CanSign(req.amount, true, h) || client.GaveUp(old(client.Now()), call, net))
    {
      var signed := wallet.CreateAndReturnSignature(req.target, req.amount, Some(req.hash), h);
      if signed.Failure? {
        return Broken(Some(signed.error));
      }
      var ok := client.RetryCreateRefundTransactionOrAddSig(
        req.hash, req.target, req.amount, StellarSignature(signed.value.0, wallet.address), ToU64(signed.value.1), net);
      return if ok then Finished else Broken(None);
    }

    /** Signs and proposes a refund, unless it was paid back already. */
    method HandleRefundExpired(req: RefundRequest, before: seq<Step>, answered: bool, h: Horizon, net: Network)
      returns (r: Outcome)
      requires client.Valid()
      modifies client, wallet`sequenceNumber
      ensures client.Valid() && client.Since(old(client.Now()))
      ensures r.Finished? || r.Broken?
      ensures r.Finished? ==> RefundKnown(client.chain, req.hash)
      ensures r.Finished? ==> RefundSigned(client.Now(), |old(client.accepted)|, req.hash, req.target, req.amount)
      ensures var n := old(wallet.sequenceNumber) + 1;
              var payment := PaymentTx(req.target, ToInt64(req.amount), n, Some(req.hash));
              var call := CreateRefundOrAddSig(req.hash, req.target, req.amount,
                            StellarSignature(wallet.sign(payment), wallet.address), ToU64(n));
              var s := Run(client.cfg, old(client.chain), before);
              && (r.Finished? ==>
                    req.hash in client.chain.executedRefunds || Logged(client.accepted, |old(client.accepted)|, call))
              && (client.sent == old(client.sent) || client.SentOnly(old(client.sent), call))
              && (answered && req.hash in s.executedRefunds ==> r.Finished? && client.sent == old(client.sent))
              && (answered && CanSign(req.amount, true, h) && client.Grants(s, call, net) ==> r.Finished?)
              && (r.Broken? ==>
                    !answered || !CanSign(req.amount, true, h) || client.GaveUp(old(client.Now()), call, net))
      ensures NoClosing(client.sent, |old(client.sent)|)
    {
      client.Interfere(before);
      if !answered {
        return Broken(None);
      }
      if req.hash in client.chain.executedRefunds {
        return Finished;
      }
      ghost var mid, n := client.Now(), wallet.sequenceNumber + 1;
      r := SignRefund(req, h, net);
      if client.GaveUp(mid, RefundSignatureCall(req.hash, req.target, req.amount, n), net) {
        client.GaveUpEarlier(old(client.Now()), mid, RefundSignatureCall(req.hash, req.target, req.amount, n), net);
      }
    }

    /** From `s`, a refund to this sender meets good answers: it is executed, or can be signed and is accepted. */
    ghost predicate RefundGranted(
      s: State, hash: Bytes, sender: Bytes, amount: u64, counter: int, w: MintWorld)
    {
      var s' := Run(client.cfg, s, w.refundBefore);
      && w.refundAnswered
      && (hash in s'.executedRefunds
          || (CanSign(amount, true, w.horizon)
              && client.Grants(s', RefundSignatureCall(hash, sender, amount, counter + 1), w.net)))
    }

    /** Refunds a deposit and only then saves the cursor. */
    method RefundDeposit(sender: Bytes, ghost senders: Senders, amount: nat, tx: StellarTx, w: MintWorld)
      returns (r: MintOutcome)
      requires client.Valid() && sender in senders && senders[sender] == amount
      modifies client, wallet`sequenceNumber, persist
      ensures client.Valid() && client.Since(old(client.Now()))
      ensures r.Done? || r.Failed?
      ensures r.Done? ==> RouteTaken(client.Now(), |old(client.accepted)|, tx, senders, Refund)
      ensures r.Done? ==> RefundSigned(client.Now(), |old(client.accepted)|, tx.hash, sender, ToU64(amount))
      ensures CanSave(old(persist.file), w.disk)
              && RefundGranted(old(client.chain), tx.hash, sender, ToU64(amount), old(wallet.sequenceNumber), w)
              ==> r.Done?
      ensures persist.Saved() == if r.Done? then old(persist.Saved()).(stellarCursor := tx.token)
                                 else old(persist.Saved())
    {
      var outcome := HandleRefundExpired(
        RefundRequest(tx.hash, sender, ToU64(amount)), w.refundBefore, w.refundAnswered, w.horizon, w.net);
      if !outcome.Finished? {
        return Failed;
      }
      var ok := persist.SaveStellarCursor(tx.token, w.disk);
      return if ok then Done else Failed;
    }

    /** Proposes the mint of a deposit, or votes for it, and only then saves the cursor. */
    method ProposeDeposit(
      account: AccountId, ghost senders: Senders, amount: nat, tx: StellarTx, w: MintWorld) returns (r: MintOutcome)
      requires client.Valid() && senders != map[] && senders[Pick(senders)] == amount
      modifies client, persist
      ensures client.Valid() && client.Since(old(client.Now()))
      ensures r.Done? || r.Failed?
      ensures r.Done? ==> RouteTaken(client.Now(), |old(client.accepted)|, tx, senders, Propose(account))
      ensures client.SentOnly(old(client.sent), ProposeOrVoteMint(tx.hash, account, ToU64(amount)))
      ensures CanSave(old(persist.file), w.disk)
              && client.Grants(old(client.chain), ProposeOrVoteMint(tx.hash, account, ToU64(amount)), w.net)
              ==> r.Done?
      ensures persist.Saved() == if r.Done? then old(persist.Saved()).(stellarCursor := tx.token)
                                 else old(persist.Saved())
    {
      var proposed := client.RetryProposeMintOrVote(tx.hash, account, ToU64(amount), w.net);
      if !proposed {
        return Failed;
      }
      var ok := persist.SaveStellarCursor(tx.token, w.disk);
      return if ok then Done else Failed;
    }

    /** From `s`, whatever the route asks for meets good answers. */
    ghost predicate RouteGranted(
      s: State, tx: StellarTx, senders: Senders, route: Route, counter: int, w: MintWorld)
    {
      match route
      case Ignore => true
      case Return => true
      case Refund =>
        forall who :: who in senders ==> RefundGranted(s, tx.hash, who, ToU64(senders[who]), counter, w)
      case Propose(account) =>
        && w.addressValid
        && forall who :: who in senders ==>
             client.Grants(s, ProposeOrVoteMint(tx.hash, account, ToU64(senders[who])), w.net)
    }

    /** Sends a deposit down its route, by this daemon's own accepted call, and only then saves the cursor. */
    method SendDown(senders: Senders, tx: StellarTx, w: MintWorld) returns (r: MintOutcome)
      requires client.Valid()
      modifies client, wallet`sequenceNumber, persist
      ensures client.Valid() && client.Since(old(client.Now()))
      ensures r.Done? || r.Failed?
      ensures var route := RouteOf(senders, tx, depositFee, w.dir);
              && (route.Ignore? || route.Return? ==> client.Now() == old(client.Now()))
              && (route.Ignore? ==> r.Done?)
              && (route.Return? ==> (r.Done? <==> CanSave(old(persist.file), w.disk)))
              && (r.Done? ==> RouteTaken(client.Now(), |old(client.accepted)|, tx, senders, route))
              && persist.Saved() == (if r.Done? && !route.Ignore? then old(persist.Saved()).(stellarCursor := tx.token)
                                     else old(persist.Saved()))
              && (CanSave(old(persist.file), w.disk)
                  && RouteGranted(old(client.chain), tx, senders, route, old(wallet.sequenceNumber), w)
                  ==> r.Done?)
    {
      if |senders| == 0 {
        return Done;
      }
      // the iteration over the senders yields an arbitrary one first
      var sender :| sender in senders;
      var amount := senders[sender];
      if |senders| > 1 {
        r := RefundDeposit(sender, senders, amount, tx, w);
        return;
      }
      SoleSender(senders, sender);
      if tx.memo == "" {
        r := RefundDeposit(sender, senders, amount, tx, w);
        return;
      }
      if tx.returned {
        var saved := persist.SaveStellarCursor(tx.token, w.disk);
        return if saved then Done else Failed;
      }
      if amount <= depositFee {
        r := RefundDeposit(sender, senders, amount, tx, w);
        return;
      }
      var account := Resolve(w.dir, tx.memo);
      if account.None? {
        r := RefundDeposit(sender, senders, amount, tx, w);
        return;
      }
      if !w.addressValid {
        return Failed;
      }
      r := ProposeDeposit(account.value, senders, amount, tx, w);
    }

    /**
     Handles one mint event. Success means that the deposit went down the route of its memo and
     senders, by this daemon's own accepted call, and the cursor moves only after that. With good
     answers all along it does succeed.
     */
    method Mint(senders: Senders, tx: StellarTx, w: MintWorld) returns (r: MintOutcome)
      requires client.Valid()
      modifies client, wallet`sequenceNumber, persist
      ensures client.Valid() && client.Since(old(client.Now()))
      ensures var route, s := RouteOf(senders, tx, depositFee, w.dir), Run(client.cfg, old(client.chain), w.before);
              && RouteIs(senders, tx, depositFee, w.dir, route)
              && (r.AlreadyMinted? <==> w.mintedAnswered && tx.hash in s.executedMints)
              && (route.Ignore? || route.Return? ==>
                    && client.history == old(client.history) + w.before && client.chain == s
                    && client.sent == old(client.sent) && client.accepted == old(client.accepted))
              && (w.mintedAnswered && tx.hash !in s.executedMints ==>
                    && (route.Ignore? ==> r.Done?)
                    && (route.Return? ==> (r.Done? <==> CanSave(old(persist.file), w.disk)))
                    && (CanSave(old(persist.file), w.disk)
                        && RouteGranted(s, tx, senders, route, old(wallet.sequenceNumber), w)
                        ==> r.Done?))
      ensures r.AlreadyMinted? ==> tx.hash in client.chain.executedMints
      ensures var route := RouteOf(senders, tx, depositFee, w.dir);
              && (r.Done? ==> RouteTaken(client.Now(), |old(client.accepted)|, tx, senders, route))
              && persist.Saved() == if r.Done? && !route.Ignore? then old(persist.Saved()).(stellarCursor := tx.token)
                                    else old(persist.Saved())
    {
      RouteIff(senders, tx, depositFee, w.dir, RouteOf(senders, tx, depositFee, w.dir));
      client.Interfere(w.before);
      if !w.mintedAnswered {
        return Failed;
      }
      if tx.hash in client.chain.executedMints {
        return AlreadyMinted;
      }
      r := SendDown(senders, tx, w);
    }

    // ---- the stream of deposits ------------------------------------------------------------

    /** The saved record, with its cursor moved to the transaction. */
    predicate CursorAt(before: Blockheight, tx: StellarTx)
      reads persist
    {
      persist.Saved() == before.(stellarCursor := tx.token)
    }

    /** The deposit went down the route decided in one world. */
    ghost predicate TookRoute(m: Moment, tx: StellarTx, w: MintWorld) {
      var route := RouteOf(SendersOf(tx), tx, depositFee, w.dir);
      !route.Ignore? && RouteTaken(m, 0, tx, SendersOf(tx), route)
    }

    /** The deposit is done with: its mint is executed, or it went down the route decided in one of the worlds. */
    ghost predicate Settled(m: Moment, tx: StellarTx, worlds: seq<MintWorld>) {
      tx.hash in m.chain.executedMints || exists w :: w in worlds && TookRoute(m, tx, w)
    }

    /** The deposit is done with, on answers that were received for it. */
    ghost predicate Tended(m: Moment, answers: seq<Delivery>, tx: StellarTx) {
      || tx.hash in m.chain.executedMints
      || exists d :: d in answers && d.hash == tx.hash && Settled(m, tx, d.worlds)
    }

    lemma SettledLasts(past: Moment, tx: StellarTx, worlds: seq<MintWorld>)
      requires client.Since(past) && Settled(past, tx, worlds)
      ensures Settled(client.Now(), tx, worlds)
    {
      if tx.hash !in past.chain.executedMints {
        var w :| w in worlds && TookRoute(past, tx, w);
        RouteTakenLasts(past, 0, 0, tx, SendersOf(tx), RouteOf(SendersOf(tx), tx, depositFee, w.dir));
        assert TookRoute(client.Now(), tx, w);
      }
    }

    lemma TendedLasts(past: Moment, answers: seq<Delivery>, more: seq<Delivery>, tx: StellarTx)
      requires client.Since(past) && answers <= more && Tended(past, answers, tx)
      ensures Tended(client.Now(), more, tx)
    {
      if tx.hash !in past.chain.executedMints {
        var d :| d in answers && d.hash == tx.hash && Settled(past, tx, d.worlds);
        SettledLasts(past, tx, d.worlds);
        assert d in more;
      }
    }

    /** A payment the bridge gets back: from one sender, with the hash it returns as its memo. */
    predicate IsReturn(tx: StellarTx) {
      tx.returned && tx.memo != "" && |SendersOf(tx)| == 1
    }

    /** A returned payment, announced, not minted before, and met by smooth turns. */
    ghost predicate NotesReturn(s: State, tx: StellarTx, events: seq<Senders>, worlds: seq<MintWorld>) {
      && IsReturn(tx) && tx.hash !in s.executedMints
      && 0 < |events| <= |worlds| && forall w <- worlds :: Smooth(w)
    }

    lemma ReturnIsRouted(tx: StellarTx, dir: Directory)
      requires IsReturn(tx)
      ensures RouteOf(SendersOf(tx), tx, depositFee, dir) == Return
    {
    }

    /** From `s`, with the counter at `c`, an event of the transaction meets good answers all along. */
    ghost predicate EventGoesOn(s: State, tx: StellarTx, c: int, w: MintWorld) {
      var s1, route := Run(client.cfg, s, w.before), RouteOf(SendersOf(tx), tx, depositFee, w.dir);
      && w.mintedAnswered
      && (|| tx.hash in s1.executedMints || route.Ignore?
          || (w.disk == Disk(true, true) && RouteGranted(s1, tx, SendersOf(tx), route, c, w)))
    }

    /** Some event of the transaction met an obstacle, in the state of the chain and of the counter at its turn. */
    ghost predicate TransactionStuck(before: Moment, now: Moment, tx: StellarTx, worlds: seq<MintWorld>) {
      exists i: nat, m: Moment, c: int ::
        i < |worlds| && During(m, before, now) && !EventGoesOn(m.chain, tx, c, worlds[i])
    }

    /** One mint event of a transaction, which carries the aggregation of its payments. */
    method HandleEvent(tx: StellarTx, senders: Senders, w: MintWorld) returns (failed: bool)
      requires client.Valid() && senders == SendersOf(tx)
      modifies client, wallet`sequenceNumber, persist
      ensures client.Valid() && client.Since(old(client.Now()))
      ensures !failed && senders != map[] ==> tx.hash in client.chain.executedMints || TookRoute(client.Now(), tx, w)
      ensures persist.Saved() == old(persist.Saved())
              || (CursorAt(old(persist.Saved()), tx) && TookRoute(client.Now(), tx, w))
      ensures senders == map[] ==> client.sent == old(client.sent) && persist.Saved() == old(persist.Saved())
      ensures EventGoesOn(old(client.chain), tx, old(wallet.sequenceNumber), w) ==> !failed
      ensures IsReturn(tx) && tx.hash !in old(client.chain).executedMints && Smooth(w) ==>
                !failed && client.Now() == old(client.Now()) && CursorAt(old(persist.Saved()), tx)
    {
      var r := Mint(senders, tx, w);
      if IsReturn(tx) { ReturnIsRouted(tx, w.dir); }
      if r.Done? {
        RouteTakenLasts(client.Now(), |old(client.accepted)|, 0, tx, senders, RouteOf(senders, tx, depositFee, w.dir));
      }
      failed := r.Failed?;
    }

    /** Handles the events of one transaction in order; an already minted one is skipped, a failure stops the run. */
    method HandleTransaction(tx: StellarTx, events: seq<Senders>, worlds: seq<MintWorld>) returns (stop: bool)
      requires client.Valid() && forall i :: 0 <= i < |events| ==> events[i] == SendersOf(tx)
      modifies client, wallet`sequenceNumber, persist
      ensures client.Valid() && client.Since(old(client.Now()))
      ensures !stop && events != [] && SendersOf(tx) != map[] ==> Settled(client.Now(), tx, worlds)
      ensures persist.Saved() == old(persist.Saved())
              || (CursorAt(old(persist.Saved()), tx) && Settled(client.Now(), tx, worlds))
      ensures events == [] ==> !stop && client.Now() == old(client.Now())
      ensures stop ==> |worlds| < |events| || TransactionStuck(old(client.Now()), client.Now(), tx, worlds)
      ensures events == [] || SendersOf(tx) == map[] ==>
                persist.Saved() == old(persist.Saved()) && client.sent == old(client.sent)
      ensures NotesReturn(old(client.chain), tx, events, worlds) ==>
                !stop && client.Now() == old(client.Now()) && CursorAt(old(persist.Saved()), tx)
    {
      for n := 0 to |events|
        invariant client.Valid() && client.Since(old(client.Now()))
        invariant n > 0 && SendersOf(tx) != map[] ==> Settled(client.Now(), tx, worlds)
        invariant persist.Saved() == old(persist.Saved())
                  || (CursorAt(old(persist.Saved()), tx) && Settled(client.Now(), tx, worlds))
        invariant n == 0 ==> client.Now() == old(client.Now())
        invariant n == 0 || SendersOf(tx) == map[] ==>
                    persist.Saved() == old(persist.Saved()) && client.sent == old(client.sent)
        invariant NotesReturn(old(client.chain), tx, events, worlds) ==>
                    client.Now() == old(client.Now()) && (n > 0 ==> CursorAt(old(persist.Saved()), tx))
      {
        if n >= |worlds| {
          return true;
        }
        ghost var past, c := client.Now(), wallet.sequenceNumber;
        var failed := HandleEvent(tx, events[n], worlds[n]);
        if Settled(past, tx, worlds) { SettledLasts(past, tx, worlds); }
        assert worlds[n] in worlds;
        if failed {
          assert During(past, old(client.Now()), client.Now()) && !EventGoesOn(past.chain, tx, c, worlds[n]);
          return true;
        }
      }
      return false;
    }

    // ---- what is a deposit, and when it is missed --------------------------------------------

    /** A deposit on Stellar: a successful transaction with an effect that credits the bridge, however it was paid. */
    ghost predicate IsDeposit(tx: StellarTx) {
      tx.successful && exists i: nat :: i < |tx.effects| && wallet.Announces(tx.effects[i])
    }

    /** The first page of effects holds one that announces a deposit and whose operations are fetched. */
    ghost predicate FollowedUp(tx: StellarTx, fetched: nat -> bool) {
      var effects := FirstPage(tx.effects, wallet.pageSize);
      exists i: nat :: i < |effects| && wallet.Yields(effects[i], fetched(i))
    }

    ghost predicate DoesMore(tx: StellarTx) {
      exists op :: op in FirstPage(tx.ops, wallet.pageSize) && op.Other?
    }

    /**
     The daemon takes no notice: the transaction failed, or the first page of its operations has
     more than payments or none to the bridge, or no effect of the first page is followed up.
     */
    ghost predicate Overlooked(tx: StellarTx, fetched: nat -> bool) {
      !tx.successful || DoesMore(tx) || SendersOf(tx) == map[] || !FollowedUp(tx, fetched)
    }

    /** An answer in which a deposit is overlooked. */
    ghost predicate Missed(tx: StellarTx, d: Delivery) {
      IsDeposit(tx) && d.hash == tx.hash && d.effectsFetched && Overlooked(tx, d.fetched)
    }

    /** What the daemon notices is a deposit. */
    lemma NoticedIsDeposit(tx: StellarTx, fetched: nat -> bool)
      requires !Overlooked(tx, fetched)
      ensures IsDeposit(tx)
    {
      var effects := FirstPage(tx.effects, wallet.pageSize);
      var i: nat :| i < |effects| && wallet.Yields(effects[i], fetched(i));
      assert effects[i] == tx.effects[i];
    }

    /** A deposit paid in another way than by payments is missed by every answer: a path payment, say. */
    lemma PathPaymentIsMissed(tx: StellarTx, d: Delivery)
      requires IsDeposit(tx) && d.hash == tx.hash && d.effectsFetched
      requires forall op <- FirstPage(tx.ops, wallet.pageSize) :: op.Other?
      ensures Missed(tx, d)
    {
      var page := FirstPage(tx.ops, wallet.pageSize);
      if page != [] {
        assert page[0] in page;
      }
    }

    /** A deposit whose credits all lie beyond the first page of effects is missed, however well everything answers. */
    lemma BeyondPageIsMissed(tx: StellarTx, d: Delivery)
      requires IsDeposit(tx) && d.hash == tx.hash && d.effectsFetched
      requires forall i: nat :: i < |tx.effects| && wallet.Announces(tx.effects[i]) ==> wallet.pageSize <= i
      ensures Missed(tx, d)
    {
    }

    /** And there are such deposits, whatever the page size. */
    lemma SomeLieBeyondPage(d: Delivery)
      requires d.effectsFetched
      ensures exists tx: StellarTx :: Missed(tx, d) && forall op <- tx.ops :: op.Payment?
    {
      var credit := AccountCredited(wallet.account, wallet.code, wallet.issuer);
      var effects := seq(wallet.pageSize, _ => OtherEffect(wallet.account)) + [credit];
      var ops := [Payment("alice", wallet.account, Some(100))];
      var tx := StellarTx(d.hash, 1, "twin_1", false, true, effects, ops);
      assert wallet.Announces(tx.effects[wallet.pageSize]);
      BeyondPageIsMissed(tx, d);
    }

    /** The sums of a deposit are all that was deposited exactly if nothing is paid beyond the first page. */
    lemma SendersInFullIff(tx: StellarTx)
      ensures Sum(SendersOf(tx), Identity) == Deposited(tx.ops, wallet.account)
              <==> forall k :: wallet.pageSize <= k < |tx.ops| ==> !Adds(tx.ops[k], wallet.account)
    {
      CollectedTotal(FirstPage(tx.ops, wallet.pageSize), wallet.account);
      CountedInFullIff(tx.ops, wallet.account, wallet.pageSize);
    }

    lemma EventsAreSenders(events: seq<Senders>, tx: StellarTx)
      requires forall i :: 0 <= i < |events| ==>
                 Aggregates(events[i], FirstPage(tx.ops, wallet.pageSize), wallet.account)
      ensures forall i :: 0 <= i < |events| ==> events[i] == SendersOf(tx)
    {
      forall i | 0 <= i < |events| ensures events[i] == SendersOf(tx) {
        AggregateTotal(events[i], FirstPage(tx.ops, wallet.pageSize), wallet.account);
      }
    }

    /** The mint events of a transaction, as far as Horizon answers: one page of effects, one of operations. */
    method EventsOf(tx: StellarTx, d: Delivery) returns (events: Option<seq<Senders>>)
      ensures events.None? <==> tx.successful && !d.effectsFetched
      ensures events.Some? ==>
                (events.value == [] <==> !tx.successful || DoesMore(tx) || !FollowedUp(tx, d.fetched))
      ensures events.Some? ==> |events.value| <= |tx.effects|
      ensures events.Some? ==> forall i :: 0 <= i < |events.value| ==> events.value[i] == SendersOf(tx)
    {
      var effects, ops := FirstPage(tx.effects, wallet.pageSize), FirstPage(tx.ops, wallet.pageSize);
      events := wallet.ProcessTransaction(
        tx.successful, if d.effectsFetched then Some(effects) else None, d.fetched, ops);
      wallet.SomeYielding(effects, d.fetched, |effects|);
      wallet.YieldingBound(effects, d.fetched, |effects|);
      if tx.successful && events.Some? && !DoesMore(tx) {
        assert forall op :: op in ops ==> op.Payment?;
        EventsAreSenders(events.value, tx);
      }
    }

    // ---- cursors -----------------------------------------------------------------------------

    /** A cursor may be past this transaction: it is tended, no deposit, or was missed in an answer received for it. */
    ghost predicate MayPass(m: Moment, answers: seq<Delivery>, tx: StellarTx) {
      Tended(m, answers, tx) || !IsDeposit(tx) || exists d :: d in answers && Missed(tx, d)
    }

    /** What is noted as tended is tended, what is noted as passed may be passed. Looked at one by one. */
    ghost predicate Noted(m: Moment, answers: seq<Delivery>, tended: set<StellarTx>, passed: set<StellarTx>) {
      && (forall tx {:trigger Tended(m, answers, tx)} :: tx in tended ==> Tended(m, answers, tx))
      && (forall tx {:trigger MayPass(m, answers, tx)} :: tx in passed ==> MayPass(m, answers, tx))
    }

    ghost predicate Valid()
      reads this, client
    {
      client.Valid() && Noted(client.Now(), received, tended, passed)
    }

    /** Everything at or before the cursor is noted as passed. */
    ghost predicate Passed(txs: seq<StellarTx>, cursor: Cursor)
      reads this
    {
      forall i :: 0 <= i < |txs| && txs[i].token <= cursor ==> txs[i] in passed
    }

    /** A saved cursor stands where it stood before, or at a transaction noted as tended. */
    ghost predicate Moved(txs: seq<StellarTx>, before: Cursor)
      reads this, persist
    {
      || persist.Saved().stellarCursor == before
      || exists i: nat :: i < |txs| && persist.Saved().stellarCursor == txs[i].token && txs[i] in tended
    }

    /** The notes are only added to. */
    ghost predicate NotesGrew(oldTended: set<StellarTx>, oldPassed: set<StellarTx>)
      reads this
    {
      oldTended <= tended && oldPassed <= passed
    }

    /** While the chain moves on and answers come in, the notes stay true. */
    lemma NotesLast(past: Moment, answers: seq<Delivery>)
      requires client.Since(past) && answers <= received && Noted(past, answers, tended, passed)
      ensures Noted(client.Now(), received, tended, passed)
    {
      forall tx | tx in tended ensures Tended(client.Now(), received, tx) {
        assert Tended(past, answers, tx);
        TendedLasts(past, answers, received, tx);
      }
      forall tx | tx in passed ensures MayPass(client.Now(), received, tx) {
        assert MayPass(past, answers, tx);
        if Tended(past, answers, tx) { TendedLasts(past, answers, received, tx); }
      }
    }

    lemma NoteMore(m: Moment, answers: seq<Delivery>, tx: StellarTx)
      requires Noted(m, answers, tended, passed)
      ensures Tended(m, answers, tx) ==> Noted(m, answers, tended + {tx}, passed + {tx})
      ensures MayPass(m, answers, tx) ==> Noted(m, answers, tended, passed + {tx})
    {
      if MayPass(m, answers, tx) {
        forall other | other in passed + {tx} ensures MayPass(m, answers, other) {
        }
      }
    }

    /** The daemon takes no notice of the transaction: then nothing can be done for it by this answer. */
    lemma OverlookedMayPass(m: Moment, answers: seq<Delivery>, tx: StellarTx, d: Delivery)
      requires Overlooked(tx, d.fetched) && d in answers && d.hash == tx.hash
      requires tx.successful ==> d.effectsFetched
      ensures MayPass(m, answers, tx)
    {
      if IsDeposit(tx) { assert Missed(tx, d); }
    }

    /** With nobody seen to pay, only a mint executed by others can count for the transaction. */
    lemma NobodySeen(m: Moment, answers: seq<Delivery>, tx: StellarTx)
      requires SendersOf(tx) == map[]
      ensures Tended(m, answers, tx) <==> tx.hash in m.chain.executedMints
    {
      if tx.hash !in m.chain.executedMints {
        forall d, w | d in answers && w in d.worlds ensures !TookRoute(m, tx, w) {
        }
      }
    }

    /**
     What stops the daemon at a transaction: an answer about another one, effects that are not fetched,
     a process that ends before its events are handled, or an obstacle to one of them.
     */
    ghost predicate TakeStuck(before: Moment, now: Moment, tx: StellarTx, d: Delivery) {
      || d.hash != tx.hash || (tx.successful && !d.effectsFetched) || |d.worlds| < |tx.effects|
      || TransactionStuck(before, now, tx, d.worlds)
    }

    /**
     Takes one transaction off the stream. The cursor of the stream may then pass it: it is tended
     or overlooked. A deposit not tended so far, and not minted by others meanwhile, is left behind
     exactly if its delivery misses it, and then nothing was submitted or saved. An answer about
     another transaction is none.
     */
    method Take(tx: StellarTx, d: Delivery) returns (stop: bool)
      requires Valid()
      modifies this`received, this`tended, this`passed, client, wallet`sequenceNumber, persist
      ensures Valid() && client.Since(old(client.Now())) && NotesGrew(old(tended), old(passed))
      ensures d.hash != tx.hash ==> stop
      ensures received == old(received) + if d.hash == tx.hash then [d] else []
      ensures !stop ==> tx in passed
      ensures persist.Saved() == old(persist.Saved())
              || (CursorAt(old(persist.Saved()), tx) && tx in tended && tx in passed)
      ensures !stop ==> Tended(client.Now(), received, tx) || Overlooked(tx, d.fetched)
      ensures !stop && IsDeposit(tx) && !Missed(tx, d) ==> Tended(client.Now(), received, tx)
      ensures && !stop && IsDeposit(tx) && !Tended(old(client.Now()), received, tx)
              && tx.hash !in client.chain.executedMints ==>
                (!Tended(client.Now(), received, tx) <==> Missed(tx, d))
      ensures Missed(tx, d) ==> persist.Saved() == old(persist.Saved()) && client.sent == old(client.sent)
      ensures Missed(tx, d) && SendersOf(tx) != map[] ==> !stop && client.Now() == old(client.Now())
      ensures tx.successful && !d.effectsFetched ==> stop
      ensures stop ==> TakeStuck(old(client.Now()), client.Now(), tx, d)
      ensures ReturnArrives(old(client.chain), tx, d) ==>
                !stop && client.Now() == old(client.Now()) && CursorAt(old(persist.Saved()), tx)
    {
      ghost var past := client.Now();
      if d.hash != tx.hash {
        return true;
      }
      received := received + [d];
      NotesLast(past, old(received));
      var events := EventsOf(tx, d);
      if events.None? {
        return true;
      }
      stop := HandleTransaction(tx, events.value, d.worlds);
      NotesLast(past, received);
      Note(tx, d, stop);
      if SendersOf(tx) == map[] { NobodySeen(client.Now(), received, tx); }
    }

    /** Notes what was done about a transaction. */
    ghost method Note(tx: StellarTx, d: Delivery, stop: bool)
      requires Valid() && d in received && d.hash == tx.hash
      requires !stop ==> (tx.successful ==> d.effectsFetched)
      requires !stop ==> Settled(client.Now(), tx, d.worlds) || Overlooked(tx, d.fetched)
      modifies this`tended, this`passed
      ensures Valid() && NotesGrew(old(tended), old(passed))
      ensures Settled(client.Now(), tx, d.worlds) ==>
                tx in tended && tx in passed && Tended(client.Now(), received, tx)
      ensures !stop ==> tx in passed
    {
      NoteMore(client.Now(), received, tx);
      if Settled(client.Now(), tx, d.worlds) {
        assert Tended(client.Now(), received, tx);
        tended, passed := tended + {tx}, passed + {tx};
      } else if !stop {
        OverlookedMayPass(client.Now(), received, tx, d);
        passed := passed + {tx};
      }
    }

    /** A returned payment whose events are delivered in full to smooth turns. */
    ghost predicate ReturnArrives(s: State, tx: StellarTx, d: Delivery) {
      && IsReturn(tx) && tx.hash !in s.executedMints
      && d.hash == tx.hash && d.effectsFetched && !Overlooked(tx, d.fetched)
      && |tx.effects| <= |d.worlds| && forall w <- d.worlds :: Smooth(w)
    }

    /** The first `n` deliveries of a page were received since, each for its own transaction. */
    ghost predicate ReceivedPage(
      txs: seq<StellarTx>, from: nat, before: seq<Delivery>, page: seq<Delivery>, n: nat)
      reads this
    {
      && n <= |page| && from + n <= |txs| && received == before + page[..n]
      && forall k :: 0 <= k < n ==> page[k].hash == txs[from + k].hash
    }

    /** A page, `k` of whose deliveries are taken: the cursors are safe, and the stream stands behind `k` more. */
    ghost predicate OnPage(
      txs: seq<StellarTx>, from: nat, streamed: Cursor, page: seq<Delivery>, k: nat,
      before: seq<Delivery>, began: Cursor)
      reads this, persist
    {
      && Passed(txs, streamed) && Passed(txs, persist.Saved().stellarCursor) && Moved(txs, began)
      && ReceivedPage(txs, from, before, page, k)
      && forall i :: 0 <= i < from + k ==> txs[i].token <= streamed
    }

    /** One transaction of a page: what `Take` promises about the cursors. */
    method TakeNext(
      txs: seq<StellarTx>, ghost from: nat, at: nat, ghost streamed: Cursor, page: seq<Delivery>, k: nat,
      ghost before: seq<Delivery>, ghost began: Cursor)
      returns (stop: bool)
      requires Valid() && Listed(txs) && at == from + k < |txs| && k < |page|
      requires OnPage(txs, from, streamed, page, k, before, began)
      modifies this`received, this`tended, this`passed, client, wallet`sequenceNumber, persist
      ensures Valid() && client.Since(old(client.Now())) && Moved(txs, began)
      ensures NotesGrew(old(tended), old(passed)) && Passed(txs, persist.Saved().stellarCursor)
      ensures !stop ==>
                page[k].hash == txs[at].hash && OnPage(txs, from, txs[at].token, page, k + 1, before, began)
      ensures stop ==> TakeStuck(old(client.Now()), client.Now(), txs[at], page[k])
      ensures ReceivedPage(txs, from, before, page, if page[k].hash == txs[at].hash then k + 1 else k)
    {
      stop := Take(txs[at], page[k]);
      assert page[..k + 1] == page[..k] + [page[k]];
    }

    /** Some transaction of a page, counted from number `from`, stops the daemon. */
    ghost predicate PageStuck(
      before: Moment, now: Moment, txs: seq<StellarTx>, from: nat, page: seq<Delivery>)
    {
      exists k: nat :: k < |page| && from + k < |txs| && TakeStuck(before, now, txs[from + k], page[k])
    }

    lemma PageStuckAt(
      before: Moment, mid: Moment, now: Moment, txs: seq<StellarTx>, from: nat, page: seq<Delivery>, k: nat)
      requires before.history <= mid.history && k < |page| && from + k < |txs|
      ensures TakeStuck(mid, now, txs[from + k], page[k]) ==> PageStuck(before, now, txs, from, page)
    {
      if TakeStuck(mid, now, txs[from + k], page[k]) { TakeStuckEarlier(before, mid, now, txs[from + k], page[k]); }
    }

    lemma TakeStuckEarlier(before: Moment, mid: Moment, now: Moment, tx: StellarTx, d: Delivery)
      requires before.history <= mid.history && TakeStuck(mid, now, tx, d)
      ensures TakeStuck(before, now, tx, d)
    {
      forall m: Moment | During(m, mid, now) ensures During(m, before, now) {
      }
    }

    lemma TakeStuckLater(before: Moment, mid: Moment, now: Moment, tx: StellarTx, d: Delivery)
      requires mid.history <= now.history && TakeStuck(before, mid, tx, d)
      ensures TakeStuck(before, now, tx, d)
    {
      forall m: Moment | During(m, before, mid) ensures During(m, before, now) {
      }
    }

    /**
     A page holds the transactions after the cursor of the stream, as many as Horizon sends. The
     deliveries taken are the first ones of the page, each for its own transaction.
     */
    method TakePage(txs: seq<StellarTx>, cursor: Cursor, page: seq<Delivery>)
      returns (streamed: Cursor, stop: bool, ghost taken: nat)
      requires Valid() && Listed(txs) && Passed(txs, cursor) && Passed(txs, persist.Saved().stellarCursor)
      modifies this`received, this`tended, this`passed, client, wallet`sequenceNumber, persist
      ensures Valid() && client.Since(old(client.Now())) && NotesGrew(old(tended), old(passed))
      ensures Passed(txs, persist.Saved().stellarCursor) && Moved(txs, old(persist.Saved()).stellarCursor)
      ensures !stop ==> Passed(txs, streamed)
      ensures !stop ==>
                forall i :: 0 <= i < |txs| && i < Before(txs, cursor) + |page| ==> txs[i].token <= streamed
      ensures ReceivedPage(txs, Before(txs, cursor), old(received), page, taken)
      ensures stop ==> PageStuck(old(client.Now()), client.Now(), txs, Before(txs, cursor), page)
    {
      ghost var began, before, from := persist.Saved().stellarCursor, received, Before(txs, cursor);
      streamed, stop, taken := cursor, false, 0;
      var at: nat := Before(txs, streamed);
      BeforeIsPrefix(txs, streamed);
      for k := 0 to |page|
        invariant Valid() && client.Since(old(client.Now())) && NotesGrew(old(tended), old(passed)) && !stop
        invariant taken == k && at == from + k <= |txs| && OnPage(txs, from, streamed, page, k, before, began)
      {
        if at == |txs| {
          return;
        }
        ghost var mid := client.Now();
        stop := TakeNext(txs, from, at, streamed, page, k, before, began);
        PageStuckAt(old(client.Now()), mid, client.Now(), txs, from, page, k);
        taken := if page[k].hash == txs[at].hash then k + 1 else k;
        if stop {
          return;
        }
        streamed := txs[at].token;
        at := at + 1;
      }
    }

    /** The answers received since `before` are among these. */
    ghost predicate ReceivedOf(before: seq<Delivery>, all: seq<Delivery>)
      reads this
    {
      before <= received && forall j :: |before| <= j < |received| ==> received[j] in all
    }

    lemma ReceivedOn(
      before: seq<Delivery>, all: seq<Delivery>, answers: seq<Delivery>, page: seq<Delivery>, taken: nat)
      requires before <= answers && forall j :: |before| <= j < |answers| ==> answers[j] in all
      requires taken <= |page| && received == answers + page[..taken] && forall d :: d in page ==> d in all
      ensures ReceivedOf(before, all)
    {
    }

    /** A stream that stood at `cursor` and now stands at `streamed` has taken at least `n` transactions, or all. */
    ghost predicate Reaches(txs: seq<StellarTx>, cursor: Cursor, n: nat, streamed: Cursor) {
      forall i :: 0 <= i < |txs| && i < Before(txs, cursor) + n ==> txs[i].token <= streamed
    }

    lemma ReachesOn(txs: seq<StellarTx>, cursor: Cursor, n: nat, mid: Cursor, more: nat, streamed: Cursor)
      requires Listed(txs) && Reaches(txs, cursor, n, mid) && Reaches(txs, mid, more, streamed)
      ensures Reaches(txs, cursor, n + more, streamed)
    {
      BeforeIsPrefix(txs, cursor);
      BeforeIsPrefix(txs, mid);
      var reached := Before(txs, cursor) + n;
      if reached > |txs| { reached := |txs|; }
      if reached > 0 { assert txs[reached - 1].token <= mid; }
    }

    /** Some transaction of some page stops the daemon. */
    ghost predicate PagesStuck(before: Moment, now: Moment, txs: seq<StellarTx>, pages: seq<seq<Delivery>>) {
      exists p, from: nat :: 0 <= p < |pages| && PageStuck(before, now, txs, from, pages[p])
    }

    lemma PageStuckEarlier(
      before: Moment, mid: Moment, now: Moment, txs: seq<StellarTx>, from: nat, page: seq<Delivery>)
      requires before.history <= mid.history && PageStuck(mid, now, txs, from, page)
      ensures PageStuck(before, now, txs, from, page)
    {
      var k: nat :| k < |page| && from + k < |txs| && TakeStuck(mid, now, txs[from + k], page[k]);
      TakeStuckEarlier(before, mid, now, txs[from + k], page[k]);
    }

    lemma PagesStuckEarlier(
      before: Moment, mid: Moment, now: Moment, txs: seq<StellarTx>, pages: seq<seq<Delivery>>)
      requires before.history <= mid.history && PagesStuck(mid, now, txs, pages)
      ensures PagesStuck(before, now, txs, pages)
    {
      var p, from: nat :| 0 <= p < |pages| && PageStuck(mid, now, txs, from, pages[p]);
      PageStuckEarlier(before, mid, now, txs, from, pages[p]);
    }

    lemma PagesStuckLater(
      before: Moment, mid: Moment, now: Moment, txs: seq<StellarTx>, pages: seq<seq<Delivery>>)
      requires mid.history <= now.history && PagesStuck(before, mid, txs, pages)
      ensures PagesStuck(before, now, txs, pages)
    {
      var p, from: nat :| 0 <= p < |pages| && PageStuck(before, mid, txs, from, pages[p]);
      var k: nat :| k < |pages[p]| && from + k < |txs| && TakeStuck(before, mid, txs[from + k], pages[p][k]);
      TakeStuckLater(before, mid, now, txs[from + k], pages[p][k]);
      assert PageStuck(before, now, txs, from, pages[p]);
    }

    /** The pages of a process, one after the other, from a cursor that is safe. */
    method TakePages(txs: seq<StellarTx>, cursor: Cursor, pages: seq<seq<Delivery>>)
      returns (streamed: Cursor, stop: bool)
      requires Valid() && Listed(txs) && Passed(txs, cursor) && Passed(txs, persist.Saved().stellarCursor)
      modifies this`received, this`tended, this`passed, client, wallet`sequenceNumber, persist
      ensures Valid() && client.Since(old(client.Now())) && NotesGrew(old(tended), old(passed))
      ensures Passed(txs, persist.Saved().stellarCursor) && Moved(txs, old(persist.Saved()).stellarCursor)
      ensures ReceivedOf(old(received), DeliveriesOf(pages))
      ensures !stop ==> Passed(txs, streamed) && Reaches(txs, cursor, |DeliveriesOf(pages)|, streamed)
      ensures stop ==> PagesStuck(old(client.Now()), client.Now(), txs, pages)
    {
      ghost var all, before, began := DeliveriesOf(pages), received, persist.Saved().stellarCursor;
      ghost var since := client.Now();
      streamed, stop := cursor, false;
      BeforeIsPrefix(txs, cursor);
      for p := 0 to |pages|
        invariant Valid() && client.Since(since) && NotesGrew(old(tended), old(passed)) && !stop
        invariant Passed(txs, streamed) && Passed(txs, persist.Saved().stellarCursor)
        invariant Moved(txs, began) && ReceivedOf(before, all)
        invariant Reaches(txs, cursor, |DeliveriesOf(pages[..p])|, streamed)
      {
        ghost var answers, mid, at := received, client.Now(), streamed;
        ghost var taken: nat;
        PageDelivers(pages, p);
        streamed, stop, taken := TakePage(txs, streamed, pages[p]);
        ReceivedOn(before, all, answers, pages[p], taken);
        if stop {
          PageStuckEarlier(since, mid, client.Now(), txs, Before(txs, at), pages[p]);
          return;
        }
        assert pages[..p + 1][..p] == pages[..p];
        ReachesOn(txs, cursor, |DeliveriesOf(pages[..p])|, at, |pages[p]|, streamed);
      }
      assert pages[..|pages|] == pages;
    }

    /** A cursor that moved, or was reset to zero by a rescan and moved from there. */
    ghost predicate MovedOrReset(txs: seq<StellarTx>, before: Cursor, rescan: bool)
      reads this, persist
    {
      Moved(txs, before) || (rescan && Moved(txs, 0))
    }

    /** Where a process begins: at zero for a rescan, otherwise at the saved cursor. */
    function Beginning(life: Life): Cursor
      reads persist
    {
      if life.rescan then 0 else persist.Saved().stellarCursor
    }

    /** The disk fails a process before it begins. */
    predicate DiskFails(life: Life) {
      || !life.startDisk.readable
      || (life.rescan && (life.cursorDisk != Disk(true, true) || life.heightDisk != Disk(true, true)))
    }

    /**
     One process: it resumes after the saved cursor, or from zero for a rescan, in pages of any size, until
     it stops or crashes. It takes all its pages unless the disk fails or a transaction meets an obstacle.
     */
    method Start(txs: seq<StellarTx>, life: Life) returns (streamed: Cursor, stop: bool)
      requires Valid() && Listed(txs) && Passed(txs, persist.Saved().stellarCursor)
      modifies this`received, this`tended, this`passed, client, wallet`sequenceNumber, persist
      ensures Valid() && client.Since(old(client.Now())) && NotesGrew(old(tended), old(passed))
      ensures Passed(txs, persist.Saved().stellarCursor)
      ensures MovedOrReset(txs, old(persist.Saved()).stellarCursor, life.rescan)
      ensures ReceivedOf(old(received), DeliveriesOf(life.pages))
      ensures !stop ==> Moved(txs, old(Beginning(life))) && Passed(txs, streamed)
      ensures !stop ==> Reaches(txs, old(Beginning(life)), |DeliveriesOf(life.pages)|, streamed)
      ensures stop ==> DiskFails(life) || PagesStuck(old(client.Now()), client.Now(), txs, life.pages)
    {
      streamed, stop := 0, true;
      if life.rescan {
        var cleared := persist.SaveStellarCursor(0, life.cursorDisk);
        if !cleared {
          return;
        }
        assert Passed(txs, 0);
        var reset := persist.SaveHeight(0, life.heightDisk);
        if !reset {
          return;
        }
      }
      var height := persist.GetHeight(life.startDisk);
      if height.None? {
        return;
      }
      streamed, stop := TakePages(txs, height.value.stellarCursor, life.pages);
    }

    predicate Rescans(lives: seq<Life>) {
      exists i :: 0 <= i < |lives| && lives[i].rescan
    }

    /** The process was stopped for a reason. */
    ghost predicate Stopped(before: Moment, now: Moment, txs: seq<StellarTx>, life: Life) {
      DiskFails(life) || PagesStuck(before, now, txs, life.pages)
    }

    /** The first `n` transactions of the list are noted as passed. */
    ghost predicate TookFirst(txs: seq<StellarTx>, n: nat)
      reads this
    {
      forall i :: 0 <= i < |txs| && i < n ==> txs[i] in passed
    }

    /** Each of the first `n` processes was stopped for a reason, or its pages went at least that far. */
    ghost predicate AllRan(before: Moment, now: Moment, txs: seq<StellarTx>, lives: seq<Life>, n: nat)
      reads this
    {
      forall j :: 0 <= j < n && j < |lives| ==>
        Stopped(before, now, txs, lives[j]) || TookFirst(txs, |DeliveriesOf(lives[j].pages)|)
    }

    lemma OneMoreRan(
      before: Moment, mid: Moment, txs: seq<StellarTx>, lives: seq<Life>, n: nat, notes: set<StellarTx>,
      streamed: Cursor, stop: bool, from: Cursor)
      requires n < |lives| && client.Since(mid) && before.history <= mid.history && notes <= passed
      requires forall j :: 0 <= j < n ==>
                 Stopped(before, mid, txs, lives[j])
                 || forall i :: 0 <= i < |txs| && i < |DeliveriesOf(lives[j].pages)| ==> txs[i] in notes
      requires if stop then Stopped(mid, client.Now(), txs, lives[n])
               else Passed(txs, streamed) && Reaches(txs, from, |DeliveriesOf(lives[n].pages)|, streamed)
      ensures AllRan(before, client.Now(), txs, lives, n + 1)
    {
      forall j | 0 <= j < n && PagesStuck(before, mid, txs, lives[j].pages)
        ensures PagesStuck(before, client.Now(), txs, lives[j].pages)
      {
        PagesStuckLater(before, mid, client.Now(), txs, lives[j].pages);
      }
      if PagesStuck(mid, client.Now(), txs, lives[n].pages) {
        PagesStuckEarlier(before, mid, client.Now(), txs, lives[n].pages);
      }
    }

    /** One process after the other. */
    method Restarts(txs: seq<StellarTx>, lives: seq<Life>)
      requires Valid() && Listed(txs) && Passed(txs, persist.Saved().stellarCursor)
      modifies this`received, this`tended, this`passed, client, wallet`sequenceNumber, persist
      ensures Valid() && client.Since(old(client.Now())) && NotesGrew(old(tended), old(passed))
      ensures Passed(txs, persist.Saved().stellarCursor)
      ensures MovedOrReset(txs, old(persist.Saved()).stellarCursor, Rescans(lives))
      ensures ReceivedOf(old(received), AllDeliveries(lives))
      ensures AllRan(old(client.Now()), client.Now(), txs, lives, |lives|)
    {
      ghost var all, before, began := AllDeliveries(lives), received, persist.Saved().stellarCursor;
      for n := 0 to |lives|
        invariant Valid() && client.Since(old(client.Now())) && NotesGrew(old(tended), old(passed))
        invariant Passed(txs, persist.Saved().stellarCursor)
        invariant MovedOrReset(txs, began, Rescans(lives)) && ReceivedOf(before, all)
        invariant AllRan(old(client.Now()), client.Now(), txs, lives, n)
      {
        ghost var answers, mid, notes, from := received, client.Now(), passed, Beginning(lives[n]);
        LifeDelivers(lives, n);
        var streamed, stop := Start(txs, lives[n]);
        assert received == answers + received[|answers|..];
        ReceivedOn(before, all, answers, received[|answers|..], |received| - |answers|);
        OneMoreRan(old(client.Now()), mid, txs, lives, n, notes, streamed, stop, from);
      }
    }

    /** Every transaction at or before the cursor may be passed. */
    ghost predicate Safe(txs: seq<StellarTx>, cursor: Cursor)
      reads this, client
    {
      forall i :: 0 <= i < |txs| && txs[i].token <= cursor ==> MayPass(client.Now(), received, txs[i])
    }

    /** The cursor stands at a transaction that is tended. */
    ghost predicate AtTended(txs: seq<StellarTx>, cursor: Cursor)
      reads this, client
    {
      exists i: nat :: i < |txs| && cursor == txs[i].token && Tended(client.Now(), received, txs[i])
    }

    /**
     Any schedule of crashes, restarts and rescans. The saved cursor stays safe: every deposit it
     passes untended was missed in an answer received for it, from this schedule or before. It only
     ever moves to a tended transaction, or back to zero for a rescan.
     */
    method Operate(txs: seq<StellarTx>, lives: seq<Life>)
      requires client.Valid() && Listed(txs) && Safe(txs, persist.Saved().stellarCursor)
      modifies this`received, this`tended, this`passed, client, wallet`sequenceNumber, persist
      ensures client.Valid() && client.Since(old(client.Now()))
      ensures Safe(txs, persist.Saved().stellarCursor)
      ensures ReceivedOf(old(received), AllDeliveries(lives))
      ensures || persist.Saved().stellarCursor == old(persist.Saved()).stellarCursor
              || (Rescans(lives) && persist.Saved().stellarCursor == 0)
              || AtTended(txs, persist.Saved().stellarCursor)
      ensures NeverMissing(txs, old(received) + AllDeliveries(lives)) ==>
                Untended(txs, persist.Saved().stellarCursor) == {}
      ensures forall j, i :: 0 <= j < |lives| && 0 <= i < |txs| && i < |DeliveriesOf(lives[j].pages)| ==>
                || Stopped(old(client.Now()), client.Now(), txs, lives[j])
                || MayPass(client.Now(), received, txs[i])
    {
      ghost var before := received;
      tended := {};
      passed := set i | 0 <= i < |txs| && txs[i].token <= persist.Saved().stellarCursor :: txs[i];
      Restarts(txs, lives);
      NotesAreTrue(txs);
      NothingUntended(txs, before, AllDeliveries(lives), persist.Saved().stellarCursor);
    }

    lemma NotesAreTrue(txs: seq<StellarTx>)
      requires Valid() && Passed(txs, persist.Saved().stellarCursor)
      ensures Safe(txs, persist.Saved().stellarCursor)
      ensures forall i: nat :: i < |txs| && txs[i] in tended ==> Tended(client.Now(), received, txs[i])
      ensures forall i :: 0 <= i < |txs| && txs[i] in passed ==> MayPass(client.Now(), received, txs[i])
    {
      forall i | 0 <= i < |txs| && txs[i] in passed ensures MayPass(client.Now(), received, txs[i]) {
      }
      forall i: nat | i < |txs| && txs[i] in tended ensures Tended(client.Now(), received, txs[i]) {
      }
      forall i | 0 <= i < |txs| && txs[i].token <= persist.Saved().stellarCursor
        ensures MayPass(client.Now(), received, txs[i])
      {
      }
    }

    /** The deposits at or before a cursor that are not tended. */
    ghost function Untended(txs: seq<StellarTx>, cursor: Cursor): set<nat>
      reads this, client
    {
      set i: nat | i < |txs| && txs[i].token <= cursor
                   && IsDeposit(txs[i]) && !Tended(client.Now(), received, txs[i])
    }

    lemma NothingUntended(txs: seq<StellarTx>, answers: seq<Delivery>, all: seq<Delivery>, cursor: Cursor)
      requires Safe(txs, cursor) && ReceivedOf(answers, all)
      ensures NeverMissing(txs, answers + all) ==> Untended(txs, cursor) == {}
    {
      if NeverMissing(txs, answers + all) {
        forall i: nat | i < |txs| && txs[i].token <= cursor && IsDeposit(txs[i])
          ensures Tended(client.Now(), received, txs[i])
        {
          assert MayPass(client.Now(), received, txs[i]);
          assert forall d :: d in received ==> d in answers + all;
        }
      }
    }

    /** No answer misses a deposit. */
    ghost predicate NeverMissing(txs: seq<StellarTx>, ds: seq<Delivery>) {
      forall i, d :: 0 <= i < |txs| && d in ds ==> !Missed(txs[i], d)
    }

    /**
     How a deposit is lost: its delivery misses it, and the returned payment after it moves the
     saved cursor. Only a rescan can bring the deposit back.
     */
    method LoseDeposit(lost: StellarTx, later: StellarTx, missing: Delivery, arriving: Delivery)
      requires Valid() && lost.hash != later.hash
      requires Missed(lost, missing) && SendersOf(lost) != map[]
      requires !Tended(client.Now(), received + [missing], lost)
      requires ReturnArrives(client.chain, later, arriving)
      modifies this`received, this`tended, this`passed, client, wallet`sequenceNumber, persist
      ensures Valid() && client.Now() == old(client.Now())
      ensures received == old(received) + [missing, arriving]
      ensures persist.Saved().stellarCursor == later.token
      ensures IsDeposit(lost) && !Tended(client.Now(), received, lost)
    {
      var stop := Take(lost, missing);
      stop := Take(later, arriving);
      assert received == old(received) + [missing] + [arriving];
      OtherAnswer(client.Now(), old(received) + [missing], arriving, lost);
    }

    /** An answer about another transaction does not tend this one. */
    lemma OtherAnswer(m: Moment, answers: seq<Delivery>, d: Delivery, tx: StellarTx)
      requires d.hash != tx.hash && !Tended(m, answers, tx)
      ensures !Tended(m, answers + [d], tx)
    {
    }

    // ---- withdrawals -----------------------------------------------------------------------

    /** The moment after others took these steps. */
    ghost function After(m: Moment, steps: seq<Step>): Moment {
      Moment(Run(client.cfg, m.chain, steps), m.history + steps, m.accepted, m.sent)
    }

    /** Proposes to mint a withdrawal back, and closes its burn as soon as that one call is accepted. */
    method MintBackAndClose(e: Withdraw, w: World) returns (r: Outcome)
      requires client.Valid()
      modifies client
      ensures client.Valid() && client.Since(old(client.Now()))
      ensures r.Finished? || r == Broken(None)
      ensures r.Finished? ==> MintKnown(client.chain, RefundMintId(e.id)) && e.id in client.chain.executedBurns
      ensures r.Finished? ==>
                MintProposed(client.Now(), |old(client.accepted)|, RefundMintId(e.id), e.source, e.amount)
      ensures MintBackGranted(old(client.chain), e, w) ==> r.Finished?
      ensures forall k :: |old(client.sent)| <= k < |client.sent| && IsClosing(client.sent[k]) ==>
                && client.sent[k] == SetBurnExecuted(e.id)
                && MintProposed(client.Now(), |old(client.accepted)|, RefundMintId(e.id), e.source, e.amount)
    {
      var mintId := RefundMintId(e.id);
      var proposed := client.RetryProposeMintOrVote(mintId, e.source, e.amount, w.net);
      if !proposed {
        return Broken(None);
      }
      ghost var past := client.Now();
      assert mintId in past.chain.mints.Keys + past.chain.executedMints.Keys;
      var ok := client.RetrySetWithdrawExecuted(e.id, w.netNext);
      MintProposedLasts(past, |old(client.accepted)|, |old(client.accepted)|, mintId, e.source, e.amount);
      return if ok then Finished else Broken(None);
    }

    /** From `s`, the chain accepts the proposal to mint a withdrawal back, and then the closing of its burn. */
    ghost predicate MintBackGranted(s: State, e: Withdraw, w: World) {
      var proposal := ProposeOrVoteMint(RefundMintId(e.id), e.source, e.amount);
      && client.Grants(s, proposal, w.net)
      && client.Grants(client.Granted(s, proposal, w.net), SetBurnExecuted(e.id), w.netNext)
    }

    /**
     A withdrawal to an account without trustline is proposed to be minted back, and its burn closed as
     soon as that one call is accepted. If it was minted back before, nothing is done at all: its burn
     stays as it is, open or closed.
     */
    method HandleBadWithdraw(e: Withdraw, w: World) returns (r: Outcome)
      requires client.Valid()
      modifies client
      ensures client.Valid() && client.Since(old(client.Now()))
      ensures r.Finished? ==> MintKnown(client.chain, RefundMintId(e.id)) && e.id in client.chain.executedBurns
      ensures r.Finished? ==>
                MintProposed(client.Now(), |old(client.accepted)|, RefundMintId(e.id), e.source, e.amount)
      ensures var s := Run(client.cfg, old(client.chain), w.between);
              && (r.AlreadyMintedBack? <==> w.answeredNext && RefundMintId(e.id) in s.executedMints)
              && (w.answeredNext && RefundMintId(e.id) !in s.executedMints && MintBackGranted(s, e, w) ==> r.Finished?)
      ensures r.AlreadyMintedBack? ==> RefundMintId(e.id) in client.chain.executedMints
      ensures r.AlreadyMintedBack? ==> client.Now() == After(old(client.Now()), w.between)
      ensures r.Finished? || r.AlreadyMintedBack? || r == Broken(None)
      ensures forall k :: |old(client.sent)| <= k < |client.sent| && IsClosing(client.sent[k]) ==>
                && client.sent[k] == SetBurnExecuted(e.id)
                && MintProposed(client.Now(), |old(client.accepted)|, RefundMintId(e.id), e.source, e.amount)
    {
      client.Interfere(w.between);
      if !w.answeredNext {
        return Broken(None);
      }
      if RefundMintId(e.id) in client.chain.executedMints {
        return AlreadyMintedBack;
      }
      r := MintBackAndClose(e, w);
    }

    /**
     What the signing of a burn comes to: under the next number `n`, this very call is accepted or the
     burn is executed; it succeeds where it is granted, and fails only when signing or the loop fails.
     */
    ghost predicate SigningDone(r: Outcome, before: Moment, e: Withdraw, n: int, w: World)
      reads client
    {
      var payment := PaymentTx(e.target, ToInt64(e.amount), n, None);
      var call := ProposeBurnOrAddSig(
                    e.id, e.target, e.amount, StellarSignature(wallet.sign(payment), wallet.address), ToU64(n));
      && (r.Finished? ==> e.id in client.chain.executedBurns || Logged(client.accepted, |before.accepted|, call))
      && (client.sent == before.sent || client.SentOnly(before.sent, call))
      && (CanSign(e.amount, false, w.horizon) && client.Grants(before.chain, call, w.net) ==> r.Finished?)
      && (!r.Finished? ==> !CanSign(e.amount, false, w.horizon) || client.GaveUp(before, call, w.net))
    }

    lemma SigningDoneSigns(r: Outcome, before: Moment, e: Withdraw, n: int, w: World)
      requires SigningDone(r, before, e, n, w)
      ensures r.Finished? ==> BurnSigned(client.Now(), |before.accepted|, e.id, e.target, e.amount)
      ensures before.sent <= client.sent ==> NoClosing(client.sent, |before.sent|)
    {
      if r.Finished? && e.id !in client.chain.executedBurns {
        assert Logged(client.accepted, |before.accepted|, BurnSignatureCall(e.id, e.target, e.amount, n));
      }
    }

    /** Signs the payment of a burn and proposes the signature, under the next number of the counter. */
    method SignWithdraw(e: Withdraw, w: World) returns (r: Outcome)
      requires client.Valid()
      modifies client, wallet`sequenceNumber
      ensures client.Valid() && client.Since(old(client.Now()))
      ensures r.Finished? || r.Broken?
      ensures r.Finished? ==> BurnSigned(client.Now(), |old(client.accepted)|, e.id, e.target, e.amount)
      ensures SigningDone(r, old(client.Now()), e, old(wallet.sequenceNumber) + 1, w)
      ensures NoClosing(client.sent, |old(client.sent)|)
    {
      ghost var n := wallet.sequenceNumber + 1;
      var signed := wallet.CreateAndReturnSignature(e.target, e.amount, None, w.horizon);
      if signed.Failure? {
        return Broken(Some(signed.error));
      }
      var ok := client.RetryProposeWithdrawOrAddSig(
        e.id, e.target, e.amount, StellarSignature(signed.value.0, wallet.address), ToU64(signed.value.1), w.net);
      r := if ok then Finished else Broken(None);
      SigningDoneSigns(r, old(client.Now()), e, n, w);
    }

    /** What is done for a burn that is not executed: it is signed, or without a trustline minted back. */
    ghost predicate CreatedDone(r: Outcome, before: Moment, e: Withdraw, n: int, w: World)
      reads client
    {
      if w.trusted then (r.Finished? || r.Broken?) && SigningDone(r, before, e, n, w)
      else
        var s' := Run(client.cfg, before.chain, w.between);
        && (r.Finished? || r.AlreadyMintedBack? || r.Broken?)
        && (r.AlreadyMintedBack? ==>
              RefundMintId(e.id) in client.chain.executedMints && client.Now() == After(before, w.between))
        && (r.AlreadyMintedBack? <==> w.answeredNext && RefundMintId(e.id) in s'.executedMints)
        && (w.answeredNext && RefundMintId(e.id) !in s'.executedMints && MintBackGranted(s', e, w) ==> r.Finished?)
    }

    /**
     Success means this wallet's signature, or without a trustline a mint back that is proposed and a burn
     that is closed; and only that proposal, once accepted, lets this daemon close the burn.
     */
    ghost predicate CreatedPromise(r: Outcome, since: nat, s0: nat, e: Withdraw, w: World)
      reads client
    {
      && (r.Finished? ==>
            if w.trusted then BurnSigned(client.Now(), since, e.id, e.target, e.amount)
            else
              && MintProposed(client.Now(), since, RefundMintId(e.id), e.source, e.amount)
              && MintKnown(client.chain, RefundMintId(e.id)) && e.id in client.chain.executedBurns)
      && forall k :: s0 <= k < |client.sent| && IsClosing(client.sent[k]) ==>
           && client.sent[k] == SetBurnExecuted(e.id) && !w.trusted
           && MintProposed(client.Now(), since, RefundMintId(e.id), e.source, e.amount)
    }

    /** A new burn that is not executed. */
    method HandleOpen(e: Withdraw, w: World) returns (r: Outcome)
      requires client.Valid()
      modifies client, wallet`sequenceNumber
      ensures client.Valid() && client.Since(old(client.Now()))
      ensures CreatedDone(r, old(client.Now()), e, old(wallet.sequenceNumber) + 1, w)
      ensures CreatedPromise(r, |old(client.accepted)|, |old(client.sent)|, e, w)
    {
      if !w.trusted {
        r := HandleBadWithdraw(e, w);
        return;
      }
      r := SignWithdraw(e, w);
    }

    method HandleWithdrawCreated(e: Withdraw, w: World) returns (r: Outcome)
      requires client.Valid()
      modifies client, wallet`sequenceNumber
      ensures client.Valid() && client.Since(old(client.Now()))
      ensures r.AlreadyBurned? <==> w.answered && e.id in Run(client.cfg, old(client.chain), w.before).executedBurns
      ensures r.AlreadyBurned? ==>
                client.Now() == After(old(client.Now()), w.before)
                && wallet.sequenceNumber == old(wallet.sequenceNumber)
      ensures w.answered && !r.AlreadyBurned? ==>
                CreatedDone(r, After(old(client.Now()), w.before), e, old(wallet.sequenceNumber) + 1, w)
      ensures !w.answered ==> r == Broken(None) && client.Now() == After(old(client.Now()), w.before)
      ensures CreatedPromise(r, |old(client.accepted)|, |old(client.sent)|, e, w)
    {
      client.Interfere(w.before);
      if !w.answered {
        return Broken(None);
      }
      if e.id in client.chain.executedBurns {
        return AlreadyBurned;
      }
      assert client.Now() == After(old(client.Now()), w.before);
      r := HandleOpen(e, w);
    }

    /**
     An expired withdrawal is signed again. If its target fails the account check, for whatever
     reason, its burn is closed and nothing else is done: it is neither paid nor minted back.
     */
    method HandleWithdrawExpired(e: Withdraw, w: World) returns (r: Outcome)
      requires client.Valid()
      modifies client, wallet`sequenceNumber
      ensures client.Valid() && client.Since(old(client.Now()))
      ensures r.Finished? ==>
                if w.trusted then BurnSigned(client.Now(), |old(client.accepted)|, e.id, e.target, e.amount)
                else e.id in client.chain.executedBurns
      ensures if w.trusted then NoClosing(client.sent, |old(client.sent)|)
              else client.SentOnly(old(client.sent), SetBurnExecuted(e.id))
      ensures if w.trusted
              then SigningDone(r, old(client.Now()), e, old(wallet.sequenceNumber) + 1, w)
              else
                && (client.Grants(old(client.chain), SetBurnExecuted(e.id), w.net) ==> r.Finished?)
                && (!r.Finished? ==> client.GaveUp(old(client.Now()), SetBurnExecuted(e.id), w.net))
    {
      if !w.trusted {
        var ok := client.RetrySetWithdrawExecuted(e.id, w.net);
        return if ok then Finished else Broken(None);
      }
      r := SignWithdraw(e, w);
    }

    // ---- payments ----------------------------------------------------------------------------

    /** The payment is the burn as recorded in `s`. */
    ghost predicate PaysBurnOf(paid: Option<Submission>, s: State, id: nat, next: int) {
      && id in s.burns
      && PaysRecord(paid, s.burns[id].target, s.burns[id].amount, None,
           s.burns[id].signatures, s.burns[id].sequenceNumber, wallet.signatureCount, next)
    }

    /** The payment is the refund as recorded in `s`. */
    ghost predicate PaysRefundOf(paid: Option<Submission>, s: State, hash: Bytes, next: int) {
      && hash in s.refunds
      && PaysRecord(paid, s.refunds[hash].target, s.refunds[hash].amount, Some(hash),
           s.refunds[hash].signatures, s.refunds[hash].sequenceNumber, wallet.signatureCount, next)
    }

    /** The chain was where this moment has it. */
    ghost predicate Reached(m: Moment) {
      AllHolds(client.cfg, client.identity, client.genesis, m.chain, m.history, m.accepted)
    }

    /** At some moment between `before` and `now` the burn was pending with the record that was paid. */
    ghost predicate PaidBurn(paid: Option<Submission>, before: Moment, now: Moment, id: nat, next: int) {
      exists m: Moment ::
        before.history <= m.history <= now.history && Reached(m) && PaysBurnOf(paid, m.chain, id, next)
    }

    ghost predicate PaidRefund(paid: Option<Submission>, before: Moment, now: Moment, hash: Bytes, next: int) {
      exists m: Moment ::
        before.history <= m.history <= now.history && Reached(m) && PaysRefundOf(paid, m.chain, hash, next)
    }

    /** Among the payments after the first `from` is one of the burn, as it was recorded since `before`. */
    ghost predicate BurnPaid(payments: seq<Submission>, from: nat, before: Moment, now: Moment, id: nat) {
      exists j, next: int :: from <= j < |payments| && PaidBurn(Some(payments[j]), before, now, id, next)
    }

    ghost predicate RefundPaid(payments: seq<Submission>, from: nat, before: Moment, now: Moment, hash: Bytes) {
      exists j, next: int :: from <= j < |payments| && PaidRefund(Some(payments[j]), before, now, hash, next)
    }

    lemma BurnPaidLasts(
      payments: seq<Submission>, more: seq<Submission>, from: nat, from': nat,
      before: Moment, before': Moment, past: Moment, now: Moment, id: nat)
      requires payments <= more && from' <= from
      requires before'.history <= before.history && past.history <= now.history
      requires BurnPaid(payments, from, before, past, id)
      ensures BurnPaid(more, from', before', now, id)
    {
      var j, next: int :| from <= j < |payments| && PaidBurn(Some(payments[j]), before, past, id, next);
      var m: Moment :| before.history <= m.history <= past.history && Reached(m)
                       && PaysBurnOf(Some(payments[j]), m.chain, id, next);
      assert before'.history <= m.history <= now.history && more[j] == payments[j];
      assert PaidBurn(Some(more[j]), before', now, id, next);
    }

    lemma RefundPaidLasts(
      payments: seq<Submission>, more: seq<Submission>, from: nat, from': nat,
      before: Moment, before': Moment, past: Moment, now: Moment, hash: Bytes)
      requires payments <= more && from' <= from
      requires before'.history <= before.history && past.history <= now.history
      requires RefundPaid(payments, from, before, past, hash)
      ensures RefundPaid(more, from', before', now, hash)
    {
      var j, next: int :| from <= j < |payments| && PaidRefund(Some(payments[j]), before, past, hash, next);
      var m: Moment :| before.history <= m.history <= past.history && Reached(m)
                       && PaysRefundOf(Some(payments[j]), m.chain, hash, next);
      assert before'.history <= m.history <= now.history && more[j] == payments[j];
      assert PaidRefund(Some(more[j]), before', now, hash, next);
    }

    lemma ZeroAmount(id: nat)
      requires id in client.chain.burns && client.chain.burns[id].amount == 0 && id !in client.chain.executedBurns
      ensures !BurnRuns.AmountsPositive(client.chain)
    {
      assert BurnRuns.Known(client.chain, id) && BurnRuns.BurnRecord(client.chain, id).amount == 0;
    }

    /** A payment of the burn can be made in `s`: it is pending, and its payment can be signed and submitted. */
    ghost predicate CanPayBurn(s: State, id: nat, h: Horizon) {
      && id in s.burns
      && CanSubmit(s.burns[id].amount, false, |s.burns[id].signatures|, wallet.signatureCount, h)
    }

    ghost predicate CanPayRefund(s: State, hash: Bytes, h: Horizon) {
      && hash in s.refunds
      && CanSubmit(s.refunds[hash].amount, true, |s.refunds[hash].signatures|, wallet.signatureCount, h)
    }

    /** Submits the payment of a pending burn. */
    method PayBurn(id: nat, h: Horizon) returns (r: Result<Submission, WalletError>)
      requires client.Valid() && id in client.chain.burns
      modifies wallet`sequenceNumber, wallet`submitted
      ensures r.Success? ==> PaysBurnOf(Some(r.value), client.chain, id, old(wallet.sequenceNumber) + 1)
      ensures r == Failure(InvalidAmount) ==> !BurnRuns.AmountsPositive(client.chain)
      ensures r.Success? <==> CanPayBurn(client.chain, id, h)
      ensures wallet.submitted == old(wallet.submitted) + if r.Success? then [r.value] else []
    {
      client.Sound();
      var tx := client.chain.burns[id];
      r := wallet.CreateWithSignaturesAndSubmit(
        tx.target, tx.amount, None, tx.signatures, ToInt64(tx.sequenceNumber), h);
      if tx.amount == 0 { ZeroAmount(id); }
    }

    /** The payment goes to the target and has the amount of a burn that is executed. */
    ghost predicate PaysExecuted(paid: Option<Submission>, id: nat)
      reads client
    {
      && id in client.chain.executedBurns && paid.Some?
      && paid.value.tx.destination == client.chain.executedBurns[id].target
      && paid.value.tx.stroops == ToInt64(client.chain.executedBurns[id].amount)
    }

    /** Pays a burn that is pending with signatures, and closes it when its payment is submitted. */
    method PayAndClose(id: nat, w: World) returns (r: Outcome, paid: Option<Submission>)
      requires client.Valid() && id in client.chain.burns
      modifies client, wallet`sequenceNumber, wallet`submitted
      ensures client.Valid() && client.Since(old(client.Now()))
      ensures r.Finished? || r.Broken?
      ensures paid.Some? <==> CanPayBurn(old(client.chain), id, w.horizon)
      ensures paid.Some? ==> PaysBurnOf(paid, old(client.chain), id, old(wallet.sequenceNumber) + 1)
      ensures paid.None? ==> r.Broken? && client.Now() == old(client.Now())
      ensures r.Finished? ==> PaysExecuted(paid, id)
      ensures paid.Some? && client.Grants(old(client.chain), SetBurnExecuted(id), w.net) ==> r.Finished?
      ensures paid.Some? && r.Broken? ==> client.GaveUp(old(client.Now()), SetBurnExecuted(id), w.net)
      ensures r == Broken(Some(InvalidAmount)) ==> !BurnRuns.AmountsPositive(client.chain)
      ensures wallet.submitted == old(wallet.submitted) + if paid.Some? then [paid.value] else []
      ensures forall k :: |old(client.sent)| <= k < |client.sent| ==> client.sent[k] == SetBurnExecuted(id)
    {
      var submitted := PayBurn(id, w.horizon);
      if submitted.Failure? {
        return Broken(Some(submitted.error)), None;
      }
      paid := Some(submitted.value);
      var ok := CloseBurn(id, w.net);
      r := if ok then Finished else Broken(None);
    }

    /** The two queries about a ready burn are answered and find it open: not executed, and then pending. */
    ghost predicate FindsBurn(s: State, id: nat, w: World) {
      var s1 := Run(client.cfg, s, w.before);
      && w.answered && id !in s1.executedBurns
      && w.answeredNext && id in Run(client.cfg, s1, w.between).burns
    }

    /** The burn as the second query finds it. */
    ghost function FoundBurn(s: State, id: nat, w: World): BurnTransaction
      requires FindsBurn(s, id, w)
    {
      Run(client.cfg, Run(client.cfg, s, w.before), w.between).burns[id]
    }

    /** A payment of the ready burn is made: it is found open and signed, and its payment can be submitted. */
    ghost predicate PaysReady(s: State, id: nat, w: World) {
      && FindsBurn(s, id, w) && FoundBurn(s, id, w).signatures != []
      && CanSubmit(FoundBurn(s, id, w).amount, false, |FoundBurn(s, id, w).signatures|,
                   wallet.signatureCount, w.horizon)
    }

    lemma PaidBurnEarlier(paid: Option<Submission>, before: Moment, mid: Moment, now: Moment, id: nat, next: int)
      requires before.history <= mid.history && PaidBurn(paid, mid, now, id, next)
      ensures PaidBurn(paid, before, now, id, next)
    {
      var m: Moment :| mid.history <= m.history <= now.history && Reached(m) && PaysBurnOf(paid, m.chain, id, next);
      assert before.history <= m.history;
    }

    /** A ready burn that is not executed: it is looked up, and paid if it has signatures. */
    method HandleOpenReady(id: nat, w: World) returns (r: Outcome, paid: Option<Submission>)
      requires client.Valid()
      modifies client, wallet`sequenceNumber, wallet`submitted
      ensures client.Valid() && client.Since(old(client.Now()))
      ensures r.Finished? || r.Broken? || r.NoSignatures?
      ensures var s := Run(client.cfg, old(client.chain), w.between);
              var pending := w.answeredNext && id in s.burns;
              && (r.NoSignatures? <==> pending && s.burns[id].signatures == [])
              && (paid.Some? <==> pending && s.burns[id].signatures != [] && CanPayBurn(s, id, w.horizon))
              && (paid.Some? && client.Grants(s, SetBurnExecuted(id), w.net) ==> r.Finished?)
      ensures r.Finished? ==> PaysExecuted(paid, id)
      ensures paid.Some? ==> PaidBurn(paid, old(client.Now()), client.Now(), id, old(wallet.sequenceNumber) + 1)
      ensures paid.None? ==> client.sent == old(client.sent)
      ensures r == Broken(Some(InvalidAmount)) ==> !BurnRuns.AmountsPositive(client.chain)
      ensures wallet.submitted == old(wallet.submitted) + if paid.Some? then [paid.value] else []
      ensures forall k :: |old(client.sent)| <= k < |client.sent| ==> client.sent[k] == SetBurnExecuted(id)
    {
      client.Interfere(w.between);
      if !w.answeredNext || id !in client.chain.burns {
        return Broken(None), None;
      }
      if |client.chain.burns[id].signatures| == 0 {
        return NoSignatures, None;
      }
      ghost var m := client.Now();
      assert Reached(m);
      r, paid := PayAndClose(id, w);
      assert paid.Some? ==> PaysBurnOf(paid, m.chain, id, old(wallet.sequenceNumber) + 1);
    }

    /**
     Pays a burn that has its quorum and only then closes it. The payment is the one recorded when it
     was made: target, amount, recorded number, and the required number of pairwise different signatures.
     It is made exactly if the burn is found open and signed and the payment can be submitted; a burn
     found without signatures is the only one for which this is reported.
     */
    method HandleWithdrawReady(id: nat, w: World) returns (r: Outcome, paid: Option<Submission>)
      requires client.Valid()
      modifies client, wallet`sequenceNumber, wallet`submitted
      ensures client.Valid() && client.Since(old(client.Now()))
      ensures var s := old(client.chain);
              && (r.AlreadyBurned? <==> w.answered && id in Run(client.cfg, s, w.before).executedBurns)
              && (r.NoSignatures? <==> FindsBurn(s, id, w) && FoundBurn(s, id, w).signatures == [])
              && (paid.Some? <==> PaysReady(s, id, w))
              && (PaysReady(s, id, w)
                  && client.Grants(Run(client.cfg, Run(client.cfg, s, w.before), w.between), SetBurnExecuted(id), w.net)
                  ==> r.Finished?)
      ensures r.AlreadyBurned? ==> id in client.chain.executedBurns
      ensures r.Finished? ==>
                && PaysExecuted(paid, id)
                && PaidBurn(paid, old(client.Now()), client.Now(), id, old(wallet.sequenceNumber) + 1)
      ensures r == Broken(Some(InvalidAmount)) ==> !BurnRuns.AmountsPositive(client.chain)
      ensures wallet.submitted == old(wallet.submitted) + if paid.Some? then [paid.value] else []
      ensures forall k :: |old(client.sent)| <= k < |client.sent| ==> client.sent[k] == SetBurnExecuted(id)
      ensures client.sent != old(client.sent) ==>
                paid.Some? && PaidBurn(paid, old(client.Now()), client.Now(), id, old(wallet.sequenceNumber) + 1)
    {
      client.Interfere(w.before);
      if !w.answered {
        return Broken(None), None;
      }
      if id in client.chain.executedBurns {
        return AlreadyBurned, None;
      }
      ghost var mid, next := client.Now(), wallet.sequenceNumber + 1;
      r, paid := HandleOpenReady(id, w);
      if paid.Some? { PaidBurnEarlier(paid, old(client.Now()), mid, client.Now(), id, next); }
    }

    method CloseBurn(id: nat, net: Network) returns (ok: bool)
      requires client.Valid() && id in client.chain.burns
      modifies client
      ensures client.Valid() && client.Since(old(client.Now()))
      ensures client.SentOnly(old(client.sent), SetBurnExecuted(id))
      ensures client.Grants(old(client.chain), SetBurnExecuted(id), net) ==> ok
      ensures !ok ==> client.GaveUp(old(client.Now()), SetBurnExecuted(id), net)
      ensures ok ==>
                && id in client.chain.executedBurns
                && client.chain.executedBurns[id].target == old(client.chain).burns[id].target
                && client.chain.executedBurns[id].amount == old(client.chain).burns[id].amount
    {
      ghost var past := client.Now();
      client.Sound();
      ok := client.RetrySetWithdrawExecuted(id, net);
      PayloadLasts(past, id);
    }

    lemma PayloadLasts(past: Moment, id: nat)
      requires client.Valid() && Reached(past) && past.history <= client.history
      requires id in past.chain.burns && id !in past.chain.executedBurns
      ensures id in client.chain.executedBurns ==>
                && client.chain.executedBurns[id].target == past.chain.burns[id].target
                && client.chain.executedBurns[id].amount == past.chain.burns[id].amount
    {
      var rest := client.history[|past.history|..];
      assert client.history == past.history + rest;
      client.Sound();
      assert Holds(client.cfg, client.identity, client.genesis, past.chain, past.history, past.accepted, 0);
      RunConcat(client.cfg, client.genesis, past.history, rest);
      BurnRuns.BurnKeepsPayload(client.cfg, past.chain, rest, id);
    }

    /** Submits the payment that returns a deposit. */
    method PayRefund(hash: Bytes, h: Horizon) returns (r: Result<Submission, WalletError>)
      requires client.Valid() && hash in client.chain.refunds
      modifies wallet`sequenceNumber, wallet`submitted
      ensures client.chain.refunds[hash].txHash == hash
      ensures r.Success? <==> CanPayRefund(client.chain, hash, h)
      ensures r.Success? ==> PaysRefundOf(Some(r.value), client.chain, hash, old(wallet.sequenceNumber) + 1)
      ensures wallet.submitted == old(wallet.submitted) + if r.Success? then [r.value] else []
    {
      client.Sound();
      var refund := client.chain.refunds[hash];
      r := wallet.CreateWithSignaturesAndSubmit(
        refund.target, refund.amount, Some(refund.txHash), refund.signatures, ToInt64(refund.sequenceNumber), h);
    }

    /** Pays a pending refund and closes it when its payment is submitted. */
    method RefundAndClose(hash: Bytes, w: World) returns (r: Outcome, paid: Option<Submission>)
      requires client.Valid() && hash in client.chain.refunds
      modifies client, wallet`sequenceNumber, wallet`submitted
      ensures client.Valid() && client.Since(old(client.Now()))
      ensures r.Finished? || r.Broken?
      ensures paid.Some? <==> CanPayRefund(old(client.chain), hash, w.horizon)
      ensures paid.Some? ==> PaysRefundOf(paid, old(client.chain), hash, old(wallet.sequenceNumber) + 1)
      ensures paid.None? ==> r.Broken? && client.Now() == old(client.Now())
      ensures r.Finished? ==> paid.Some? && hash in client.chain.executedRefunds
      ensures paid.Some? && client.Grants(old(client.chain), SetRefundExecuted(hash), w.net) ==> r.Finished?
      ensures paid.Some? && r.Broken? ==> client.GaveUp(old(client.Now()), SetRefundExecuted(hash), w.net)
      ensures wallet.submitted == old(wallet.submitted) + if paid.Some? then [paid.value] else []
      ensures forall k :: |old(client.sent)| <= k < |client.sent| ==> client.sent[k] == SetRefundExecuted(hash)
    {
      var submitted := PayRefund(hash, w.horizon);
      if submitted.Failure? {
        return Broken(Some(submitted.error)), None;
      }
      paid := Some(submitted.value);
      var ok := client.RetrySetRefundTransactionExecuted(client.chain.refunds[hash].txHash, w.net);
      r := if ok then Finished else Broken(None);
    }

    /** The two queries about a ready refund are answered and find it: not executed, and then pending. */
    ghost predicate FindsRefund(s: State, hash: Bytes, w: World) {
      var s1 := Run(client.cfg, s, w.before);
      && w.answered && hash !in s1.executedRefunds
      && w.answeredNext && hash in Run(client.cfg, s1, w.between).refunds
    }

    ghost function FoundRefund(s: State, hash: Bytes, w: World): RefundTransaction
      requires FindsRefund(s, hash, w)
    {
      Run(client.cfg, Run(client.cfg, s, w.before), w.between).refunds[hash]
    }

    /** A payment of the ready refund is made: it is found open, and its payment can be submitted. */
    ghost predicate RefundsReady(s: State, hash: Bytes, w: World) {
      && FindsRefund(s, hash, w)
      && CanSubmit(FoundRefund(s, hash, w).amount, true, |FoundRefund(s, hash, w).signatures|,
                   wallet.signatureCount, w.horizon)
    }

    /**
     Pays back a deposit whose refund has its quorum and only then closes the refund. The payment is made
     exactly if the refund is found open and its payment can be submitted.
     */
    method HandleRefundReady(hash: Bytes, w: World) returns (r: Outcome, paid: Option<Submission>)
      requires client.Valid()
      modifies client, wallet`sequenceNumber, wallet`submitted
      ensures client.Valid() && client.Since(old(client.Now()))
      ensures var s := old(client.chain);
              && (r.AlreadyRefunded? <==> w.answered && hash in Run(client.cfg, s, w.before).executedRefunds)
              && (paid.Some? <==> RefundsReady(s, hash, w))
              && (RefundsReady(s, hash, w)
                  && client.Grants(Run(client.cfg, Run(client.cfg, s, w.before), w.between),
                                   SetRefundExecuted(hash), w.net)
                  ==> r.Finished?)
      ensures r.AlreadyRefunded? || r.Finished? || r.Broken?
      ensures r.AlreadyRefunded? || r.Finished? ==> hash in client.chain.executedRefunds
      ensures r.Finished? ==>
                PaidRefund(paid, old(client.Now()), client.Now(), hash, old(wallet.sequenceNumber) + 1)
      ensures wallet.submitted == old(wallet.submitted) + if paid.Some? then [paid.value] else []
      ensures forall k :: |old(client.sent)| <= k < |client.sent| ==> client.sent[k] == SetRefundExecuted(hash)
      ensures client.sent != old(client.sent) ==>
                paid.Some? && PaidRefund(paid, old(client.Now()), client.Now(), hash, old(wallet.sequenceNumber) + 1)
    {
      paid := None;
      client.Interfere(w.before);
      if !w.answered {
        return Broken(None), None;
      }
      if hash in client.chain.executedRefunds {
        return AlreadyRefunded, None;
      }
      client.Interfere(w.between);
      if !w.answeredNext || hash !in client.chain.refunds {
        return Broken(None), None;
      }
      ghost var m := client.Now();
      assert Reached(m);
      r, paid := RefundAndClose(hash, w);
      assert paid.Some? ==> PaysRefundOf(paid, m.chain, hash, old(wallet.sequenceNumber) + 1);
    }

    // ---- the events of a block: what is settled ------------------------------------------------

    /** A withdrawal that cannot be paid: its burn is closed, or its mint back is executed. */
    ghost predicate ClosedOrMintedBack(s: State, id: nat) {
      id in s.executedBurns || RefundMintId(id) in s.executedMints
    }

    /** A new withdrawal: this wallet's signature is on the chain; without a trustline, closed or minted back. */
    ghost predicate CreatedSettled(m: Moment, since: nat, e: Withdraw, trusted: bool) {
      if trusted then BurnSigned(m, since, e.id, e.target, e.amount)
      else ClosedOrMintedBack(m.chain, e.id)
    }

    /** An expired withdrawal: this wallet has signed again, or without a trustline its burn is closed. */
    ghost predicate ExpiredSettled(m: Moment, since: nat, e: Withdraw, trusted: bool) {
      if trusted then BurnSigned(m, since, e.id, e.target, e.amount)
      else e.id in m.chain.executedBurns
    }

    /** An expired refund: the chain knows it, and this wallet's signature is on it or it is executed. */
    ghost predicate RefundSettled(m: Moment, since: nat, req: RefundRequest) {
      RefundKnown(m.chain, req.hash) && RefundSigned(m, since, req.hash, req.target, req.amount)
    }

    lemma CreatedSettledLasts(past: Moment, since: nat, earlier: nat, e: Withdraw, trusted: bool)
      requires client.Since(past) && earlier <= since && CreatedSettled(past, since, e, trusted)
      ensures CreatedSettled(client.Now(), earlier, e, trusted)
    {
      if trusted { BurnSignedLasts(past, since, earlier, e.id, e.target, e.amount); }
    }

    lemma ExpiredSettledLasts(past: Moment, since: nat, earlier: nat, e: Withdraw, trusted: bool)
      requires client.Since(past) && earlier <= since && ExpiredSettled(past, since, e, trusted)
      ensures ExpiredSettled(client.Now(), earlier, e, trusted)
    {
      if trusted { BurnSignedLasts(past, since, earlier, e.id, e.target, e.amount); }
    }

    lemma RefundSettledLasts(past: Moment, since: nat, earlier: nat, req: RefundRequest)
      requires client.Since(past) && earlier <= since && RefundSettled(past, since, req)
      ensures RefundSettled(client.Now(), earlier, req)
    {
      RefundSignedLasts(past, since, earlier, req.hash, req.target, req.amount);
      assert req.hash in past.chain.refunds.Keys + past.chain.executedRefunds.Keys;
    }

    // Each kind of event: all of them are settled, and stay so.

    ghost predicate AllCreated(m: Moment, since: nat, events: seq<Withdraw>, world: nat -> World) {
      forall i: nat :: i < |events| ==> CreatedSettled(m, since, events[i], world(i).trusted)
    }

    ghost predicate AllExpired(m: Moment, since: nat, events: seq<Withdraw>, world: nat -> World) {
      forall i: nat :: i < |events| ==> ExpiredSettled(m, since, events[i], world(i).trusted)
    }

    ghost predicate AllBurned(m: Moment, burns: seq<nat>) {
      forall i :: 0 <= i < |burns| ==> burns[i] in m.chain.executedBurns
    }

    ghost predicate AllRefunds(m: Moment, since: nat, refunds: seq<RefundRequest>) {
      forall i :: 0 <= i < |refunds| ==> RefundSettled(m, since, refunds[i])
    }

    ghost predicate AllRefunded(m: Moment, refunds: seq<Bytes>) {
      forall i :: 0 <= i < |refunds| ==> refunds[i] in m.chain.executedRefunds
    }

    lemma AllCreatedLasts(past: Moment, since: nat, earlier: nat, events: seq<Withdraw>, world: nat -> World)
      requires client.Since(past) && earlier <= since && AllCreated(past, since, events, world)
      ensures AllCreated(client.Now(), earlier, events, world)
    {
      forall i: nat | i < |events| ensures CreatedSettled(client.Now(), earlier, events[i], world(i).trusted) {
        CreatedSettledLasts(past, since, earlier, events[i], world(i).trusted);
      }
    }

    lemma AllExpiredLasts(past: Moment, since: nat, earlier: nat, events: seq<Withdraw>, world: nat -> World)
      requires client.Since(past) && earlier <= since && AllExpired(past, since, events, world)
      ensures AllExpired(client.Now(), earlier, events, world)
    {
      forall i: nat | i < |events| ensures ExpiredSettled(client.Now(), earlier, events[i], world(i).trusted) {
        ExpiredSettledLasts(past, since, earlier, events[i], world(i).trusted);
      }
    }

    lemma AllBurnedLasts(past: Moment, burns: seq<nat>)
      requires client.Since(past) && AllBurned(past, burns)
      ensures AllBurned(client.Now(), burns)
    {
    }

    lemma AllRefundsLasts(past: Moment, since: nat, earlier: nat, refunds: seq<RefundRequest>)
      requires client.Since(past) && earlier <= since && AllRefunds(past, since, refunds)
      ensures AllRefunds(client.Now(), earlier, refunds)
    {
      forall i | 0 <= i < |refunds| ensures RefundSettled(client.Now(), earlier, refunds[i]) {
        RefundSettledLasts(past, since, earlier, refunds[i]);
      }
    }

    lemma AllRefundedLasts(past: Moment, refunds: seq<Bytes>)
      requires client.Since(past) && AllRefunded(past, refunds)
      ensures AllRefunded(client.Now(), refunds)
    {
    }

    // ---- the events of a block: what this daemon closes ----------------------------------------

    /**
     A burn closed after this daemon's proposal to mint its withdrawal back was accepted. That is one vote:
     whether the mint back follows is up to the other validators.
     */
    ghost predicate ProposedBack(
      call: Call, m: Moment, since: nat, events: seq<Withdraw>, world: nat -> World)
    {
      call.SetBurnExecuted?
      && exists i: nat :: i < |events| && !world(i).trusted && events[i].id == call.burnId
           && MintProposed(m, since, RefundMintId(events[i].id), events[i].source, events[i].amount)
    }

    /** A burn closed because it expired and its target failed the account check: nobody gets its amount. */
    ghost predicate GivenUp(call: Call, events: seq<Withdraw>, world: nat -> World) {
      call.SetBurnExecuted? && exists i: nat :: i < |events| && !world(i).trusted && events[i].id == call.burnId
    }

    /** A burn or refund closed after this daemon had its payment accepted. */
    ghost predicate PaidBefore(
      call: Call, payments: seq<Submission>, from: nat, before: Moment, now: Moment)
    {
      match call
      case SetBurnExecuted(id) => BurnPaid(payments, from, before, now, id)
      case SetRefundExecuted(hash) => RefundPaid(payments, from, before, now, hash)
      case _ => false
    }

    ghost predicate ClosesProposed(
      sent: seq<Call>, s0: nat, m: Moment, since: nat, events: seq<Withdraw>, world: nat -> World)
    {
      forall k :: s0 <= k < |sent| && IsClosing(sent[k]) ==> ProposedBack(sent[k], m, since, events, world)
    }

    ghost predicate ClosesGivenUp(sent: seq<Call>, s0: nat, events: seq<Withdraw>, world: nat -> World) {
      forall k :: s0 <= k < |sent| && IsClosing(sent[k]) ==> GivenUp(sent[k], events, world)
    }

    ghost predicate ClosesPaid(
      sent: seq<Call>, s0: nat, payments: seq<Submission>, from: nat, before: Moment, now: Moment)
    {
      forall k :: s0 <= k < |sent| && IsClosing(sent[k]) ==> PaidBefore(sent[k], payments, from, before, now)
    }

    lemma ProposedBackLasts(
      call: Call, past: Moment, since: nat, earlier: nat, events: seq<Withdraw>, more: seq<Withdraw>,
      world: nat -> World)
      requires client.Since(past) && earlier <= since && events <= more
      requires ProposedBack(call, past, since, events, world)
      ensures ProposedBack(call, client.Now(), earlier, more, world)
    {
      var i: nat :| i < |events| && !world(i).trusted && events[i].id == call.burnId
                    && MintProposed(past, since, RefundMintId(events[i].id), events[i].source, events[i].amount);
      MintProposedLasts(past, since, earlier, RefundMintId(events[i].id), events[i].source, events[i].amount);
      assert more[i] == events[i];
    }

    lemma PaidBeforeLasts(
      call: Call, payments: seq<Submission>, from: nat, from': nat, before: Moment, before': Moment, past: Moment)
      requires payments <= wallet.submitted && from' <= from
      requires before'.history <= before.history && past.history <= client.history
      requires PaidBefore(call, payments, from, before, past)
      ensures PaidBefore(call, wallet.submitted, from', before', client.Now())
    {
      match call
      case SetBurnExecuted(id) =>
        BurnPaidLasts(payments, wallet.submitted, from, from', before, before', past, client.Now(), id);
      case SetRefundExecuted(hash) =>
        RefundPaidLasts(payments, wallet.submitted, from, from', before, before', past, client.Now(), hash);
      case _ =>
    }

    /** One more event handled: what was closed so far stays accounted for, and so is what it closed. */
    lemma ClosesProposedStep(
      s0: nat, past: Moment, since: nat, events: seq<Withdraw>, n: nat, world: nat -> World)
      requires client.Since(past) && s0 <= |past.sent| && n < |events|
      requires since <= |past.accepted| && ClosesProposed(past.sent, s0, past, since, events[..n], world)
      requires forall k :: |past.sent| <= k < |client.sent| && IsClosing(client.sent[k]) ==>
                 && client.sent[k] == SetBurnExecuted(events[n].id) && !world(n).trusted
                 && MintProposed(client.Now(), |past.accepted|,
                      RefundMintId(events[n].id), events[n].source, events[n].amount)
      ensures ClosesProposed(client.sent, s0, client.Now(), since, events[..n + 1], world)
    {
      forall k | s0 <= k < |client.sent| && IsClosing(client.sent[k])
        ensures ProposedBack(client.sent[k], client.Now(), since, events[..n + 1], world)
      {
        if k < |past.sent| {
          assert past.sent[k] == client.sent[k];
          ProposedBackLasts(past.sent[k], past, since, since, events[..n], events[..n + 1], world);
        } else {
          MintProposedLasts(client.Now(), |past.accepted|, since,
                            RefundMintId(events[n].id), events[n].source, events[n].amount);
          assert events[..n + 1][n] == events[n];
        }
      }
    }

    lemma ClosesGivenUpStep(sent: seq<Call>, s0: nat, events: seq<Withdraw>, n: nat, world: nat -> World)
      requires s0 <= |sent| && sent <= client.sent && n < |events|
      requires ClosesGivenUp(sent, s0, events[..n], world)
      requires forall k :: |sent| <= k < |client.sent| && IsClosing(client.sent[k]) ==>
                 client.sent[k] == SetBurnExecuted(events[n].id) && !world(n).trusted
      ensures ClosesGivenUp(client.sent, s0, events[..n + 1], world)
    {
      forall k | s0 <= k < |client.sent| && IsClosing(client.sent[k])
        ensures GivenUp(client.sent[k], events[..n + 1], world)
      {
        if k < |sent| {
          assert GivenUp(sent[k], events[..n], world);
          var i: nat :| i < |events[..n]| && !world(i).trusted && events[..n][i].id == sent[k].burnId;
          assert events[..n + 1][i] == events[..n][i];
        } else {
          assert events[..n + 1][n] == events[n];
        }
      }
    }

    lemma ClosesPaidStep(
      s0: nat, payments: seq<Submission>, from: nat, before: Moment, past: Moment)
      requires client.Since(past) && s0 <= |past.sent| && before.history <= past.history
      requires from <= |payments| && payments <= wallet.submitted
      requires ClosesPaid(past.sent, s0, payments, from, before, past)
      requires ClosesPaid(client.sent, |past.sent|, wallet.submitted, |payments|, past, client.Now())
      ensures ClosesPaid(client.sent, s0, wallet.submitted, from, before, client.Now())
    {
      forall k | s0 <= k < |client.sent| && IsClosing(client.sent[k])
        ensures PaidBefore(client.sent[k], wallet.submitted, from, before, client.Now())
      {
        if k < |past.sent| {
          assert past.sent[k] == client.sent[k];
          PaidBeforeLasts(past.sent[k], payments, from, from, before, before, past);
        } else {
          PaidBeforeLasts(client.sent[k], wallet.submitted, |payments|, from, past, before, client.Now());
        }
      }
    }

    // ---- the events of a block: what stops the daemon --------------------------------------------

    /** The chain was at `m` at some time between two moments. */
    ghost predicate During(m: Moment, before: Moment, now: Moment) {
      before.history <= m.history <= now.history && Reached(m)
    }

    /** From `s`, with the counter at `c`, a new withdrawal meets good answers all along. */
    ghost predicate CreatedGoesOn(s: State, e: Withdraw, c: int, w: World) {
      var s1 := Run(client.cfg, s, w.before);
      var s2 := Run(client.cfg, s1, w.between);
      && w.answered
      && (|| e.id in s1.executedBurns
          || (w.trusted && CanSign(e.amount, false, w.horizon)
              && client.Grants(s1, BurnSignatureCall(e.id, e.target, e.amount, c + 1), w.net))
          || (!w.trusted && w.answeredNext
              && (RefundMintId(e.id) in s2.executedMints || MintBackGranted(s2, e, w))))
    }

    ghost predicate ExpiredGoesOn(s: State, e: Withdraw, c: int, w: World) {
      if w.trusted
      then CanSign(e.amount, false, w.horizon)
           && client.Grants(s, BurnSignatureCall(e.id, e.target, e.amount, c + 1), w.net)
      else client.Grants(s, SetBurnExecuted(e.id), w.net)
    }

    ghost predicate ReadyGoesOn(s: State, id: nat, w: World) {
      var s1 := Run(client.cfg, s, w.before);
      || (w.answered && id in s1.executedBurns)
      || (PaysReady(s, id, w) && client.Grants(Run(client.cfg, s1, w.between), SetBurnExecuted(id), w.net))
    }

    ghost predicate RefundGoesOn(s: State, req: RefundRequest, c: int, w: World) {
      var s1 := Run(client.cfg, s, w.before);
      && w.answered
      && (|| req.hash in s1.executedRefunds
          || (CanSign(req.amount, true, w.horizon)
              && client.Grants(s1, RefundSignatureCall(req.hash, req.target, req.amount, c + 1), w.net)))
    }

    ghost predicate RefundReadyGoesOn(s: State, hash: Bytes, w: World) {
      var s1 := Run(client.cfg, s, w.before);
      || (w.answered && hash in s1.executedRefunds)
      || (RefundsReady(s, hash, w) && client.Grants(Run(client.cfg, s1, w.between), SetRefundExecuted(hash), w.net))
    }

    lemma CreatedDoneGoesOn(r: Outcome, before: Moment, e: Withdraw, c: int, w: World)
      requires r.AlreadyBurned? <==> w.answered && e.id in Run(client.cfg, before.chain, w.before).executedBurns
      requires w.answered && !r.AlreadyBurned? ==> CreatedDone(r, After(before, w.before), e, c + 1, w)
      ensures CreatedGoesOn(before.chain, e, c, w) ==> r.Finished? || r.AlreadyBurned? || r.AlreadyMintedBack?
    {
    }

    // Some event met an obstacle, in the state of the chain and of the counter when its turn came.

    ghost predicate CreatedStuck(before: Moment, now: Moment, events: seq<Withdraw>, world: nat -> World) {
      exists i: nat, m: Moment, c: int ::
        i < |events| && During(m, before, now) && !CreatedGoesOn(m.chain, events[i], c, world(i))
    }

    ghost predicate ExpiredStuck(before: Moment, now: Moment, events: seq<Withdraw>, world: nat -> World) {
      exists i: nat, m: Moment, c: int ::
        i < |events| && During(m, before, now) && !ExpiredGoesOn(m.chain, events[i], c, world(i))
    }

    ghost predicate ReadyStuck(before: Moment, now: Moment, burns: seq<nat>, world: nat -> World) {
      exists i: nat, m: Moment ::
        i < |burns| && During(m, before, now) && !ReadyGoesOn(m.chain, burns[i], world(i))
    }

    ghost predicate RefundsStuck(before: Moment, now: Moment, refunds: seq<RefundRequest>, world: nat -> World) {
      exists i: nat, m: Moment, c: int ::
        i < |refunds| && During(m, before, now) && !RefundGoesOn(m.chain, refunds[i], c, world(i))
    }

    ghost predicate RefundsReadyStuck(before: Moment, now: Moment, refunds: seq<Bytes>, world: nat -> World) {
      exists i: nat, m: Moment ::
        i < |refunds| && During(m, before, now) && !RefundReadyGoesOn(m.chain, refunds[i], world(i))
    }

    ghost predicate BatchStuck(before: Moment, now: Moment, batch: Batch, world: (nat, nat) -> World) {
      || CreatedStuck(before, now, batch.created, Worlds(world, 0))
      || ExpiredStuck(before, now, batch.expired, Worlds(world, 1))
      || ReadyStuck(before, now, batch.ready, Worlds(world, 2))
      || RefundsStuck(before, now, batch.refundExpired, Worlds(world, 3))
      || RefundsReadyStuck(before, now, batch.refundReady, Worlds(world, 4))
    }

    /** An obstacle, looked at from an earlier moment. */
    lemma BatchStuckEarlier(before: Moment, mid: Moment, now: Moment, batch: Batch, world: (nat, nat) -> World)
      requires before.history <= mid.history && BatchStuck(mid, now, batch, world)
      ensures BatchStuck(before, now, batch, world)
    {
      forall m: Moment | During(m, mid, now) ensures During(m, before, now) {
      }
    }

    lemma CreatedInBatch(before: Moment, now: Moment, batch: Batch, world: (nat, nat) -> World)
      ensures CreatedStuck(before, now, batch.created, Worlds(world, 0)) ==> BatchStuck(before, now, batch, world)
    {
    }

    lemma ExpiredInBatch(before: Moment, mid: Moment, now: Moment, batch: Batch, world: (nat, nat) -> World)
      requires before.history <= mid.history
      ensures ExpiredStuck(mid, now, batch.expired, Worlds(world, 1)) ==> BatchStuck(before, now, batch, world)
    {
      if ExpiredStuck(mid, now, batch.expired, Worlds(world, 1)) {
        BatchStuckEarlier(before, mid, now, batch, world);
      }
    }

    lemma ReadyInBatch(before: Moment, mid: Moment, now: Moment, batch: Batch, world: (nat, nat) -> World)
      requires before.history <= mid.history
      ensures ReadyStuck(mid, now, batch.ready, Worlds(world, 2)) ==> BatchStuck(before, now, batch, world)
    {
      if ReadyStuck(mid, now, batch.ready, Worlds(world, 2)) {
        BatchStuckEarlier(before, mid, now, batch, world);
      }
    }

    // ---- the events of a block: the loops --------------------------------------------------------

    /** One new withdrawal: a burn or a mint already done is skipped, any other failure stops the daemon. */
    method FinishCreated(e: Withdraw, w: World) returns (ok: bool)
      requires client.Valid()
      modifies client, wallet`sequenceNumber
      ensures client.Valid() && client.Since(old(client.Now()))
      ensures ok ==> CreatedSettled(client.Now(), |old(client.accepted)|, e, w.trusted)
      ensures CreatedGoesOn(old(client.chain), e, old(wallet.sequenceNumber), w) ==> ok
      ensures forall k :: |old(client.sent)| <= k < |client.sent| && IsClosing(client.sent[k]) ==>
                && client.sent[k] == SetBurnExecuted(e.id) && !w.trusted
                && MintProposed(client.Now(), |old(client.accepted)|, RefundMintId(e.id), e.source, e.amount)
    {
      ghost var c := wallet.sequenceNumber;
      var r := HandleWithdrawCreated(e, w);
      CreatedDoneGoesOn(r, old(client.Now()), e, c, w);
      return r.Finished? || r.AlreadyBurned? || r.AlreadyMintedBack?;
    }

    method HandleCreated(events: seq<Withdraw>, world: nat -> World) returns (stop: bool)
      requires client.Valid()
      modifies client, wallet`sequenceNumber
      ensures client.Valid() && client.Since(old(client.Now()))
      ensures !stop ==> AllCreated(client.Now(), |old(client.accepted)|, events, world)
      ensures stop ==> CreatedStuck(old(client.Now()), client.Now(), events, world)
      ensures ClosesProposed(
                client.sent, |old(client.sent)|, client.Now(), |old(client.accepted)|, events, world)
    {
      ghost var since, s0 := |client.accepted|, |client.sent|;
      for n := 0 to |events|
        invariant client.Valid() && client.Since(old(client.Now()))
        invariant AllCreated(client.Now(), since, events[..n], world)
        invariant ClosesProposed(client.sent, s0, client.Now(), since, events[..n], world)
      {
        ghost var past, c := client.Now(), wallet.sequenceNumber;
        var ok := FinishCreated(events[n], world(n));
        AllCreatedLasts(past, since, since, events[..n], world);
        ClosesProposedStep(s0, past, since, events, n, world);
        if !ok {
          ClosesProposedOfMore(s0, since, events, n + 1, world);
          assert During(past, old(client.Now()), client.Now());
          assert !CreatedGoesOn(past.chain, events[n], c, world(n));
          return true;
        }
        CreatedSettledLasts(client.Now(), |past.accepted|, since, events[n], world(n).trusted);
      }
      assert events[..|events|] == events;
      return false;
    }

    lemma ClosesProposedOfMore(s0: nat, since: nat, events: seq<Withdraw>, n: nat, world: nat -> World)
      requires n <= |events|
      requires ClosesProposed(client.sent, s0, client.Now(), since, events[..n], world)
      ensures ClosesProposed(client.sent, s0, client.Now(), since, events, world)
    {
      forall k | s0 <= k < |client.sent| && IsClosing(client.sent[k])
        ensures ProposedBack(client.sent[k], client.Now(), since, events, world)
      {
        ProposedBackLasts(client.sent[k], client.Now(), since, since, events[..n], events, world);
      }
    }

    method HandleExpired(events: seq<Withdraw>, world: nat -> World) returns (stop: bool)
      requires client.Valid()
      modifies client, wallet`sequenceNumber
      ensures client.Valid() && client.Since(old(client.Now()))
      ensures !stop ==> AllExpired(client.Now(), |old(client.accepted)|, events, world)
      ensures stop ==> ExpiredStuck(old(client.Now()), client.Now(), events, world)
      ensures ClosesGivenUp(client.sent, |old(client.sent)|, events, world)
    {
      ghost var since, s0 := |client.accepted|, |client.sent|;
      for n := 0 to |events|
        invariant client.Valid() && client.Since(old(client.Now()))
        invariant AllExpired(client.Now(), since, events[..n], world)
        invariant ClosesGivenUp(client.sent, s0, events[..n], world)
      {
        ghost var past, sent, c := client.Now(), client.sent, wallet.sequenceNumber;
        var r := HandleWithdrawExpired(events[n], world(n));
        AllExpiredLasts(past, since, since, events[..n], world);
        ClosesGivenUpStep(sent, s0, events, n, world);
        if !r.Finished? {
          ClosesGivenUpOfMore(s0, events, n + 1, world);
          assert During(past, old(client.Now()), client.Now());
          assert !ExpiredGoesOn(past.chain, events[n], c, world(n));
          return true;
        }
        ExpiredSettledLasts(client.Now(), |past.accepted|, since, events[n], world(n).trusted);
      }
      assert events[..|events|] == events;
      return false;
    }

    lemma ClosesGivenUpOfMore(s0: nat, events: seq<Withdraw>, n: nat, world: nat -> World)
      requires n <= |events| && ClosesGivenUp(client.sent, s0, events[..n], world)
      ensures ClosesGivenUp(client.sent, s0, events, world)
    {
      forall k | s0 <= k < |client.sent| && IsClosing(client.sent[k]) ensures GivenUp(client.sent[k], events, world) {
        var i: nat :| i < n && !world(i).trusted && events[..n][i].id == client.sent[k].burnId;
        assert events[..n][i] == events[i];
      }
    }

    /** One ready burn: a burn already executed is skipped, any other failure stops the daemon. */
    method FinishReady(id: nat, w: World) returns (ok: bool)
      requires client.Valid()
      modifies client, wallet`sequenceNumber, wallet`submitted
      ensures client.Valid() && client.Since(old(client.Now()))
      ensures old(wallet.submitted) <= wallet.submitted
      ensures ok ==> id in client.chain.executedBurns
      ensures var s := old(client.chain);
              && (|wallet.submitted| == |old(wallet.submitted)| + if PaysReady(s, id, w) then 1 else 0)
              && (ReadyGoesOn(s, id, w) ==> ok)
      ensures ClosesPaid(client.sent, |old(client.sent)|, wallet.submitted, |old(wallet.submitted)|,
                old(client.Now()), client.Now())
    {
      var r, paid := HandleWithdrawReady(id, w);
      if client.sent != old(client.sent) {
        assert wallet.submitted[|old(wallet.submitted)|] == paid.value;
        assert BurnPaid(wallet.submitted, |old(wallet.submitted)|, old(client.Now()), client.Now(), id);
      }
      return r.Finished? || r.AlreadyBurned?;
    }

    /** Going on, every ready burn is executed; and this daemon closes none that it has not paid. */
    method HandleReady(burns: seq<nat>, world: nat -> World) returns (stop: bool)
      requires client.Valid()
      modifies client, wallet`sequenceNumber, wallet`submitted
      ensures client.Valid() && client.Since(old(client.Now()))
      ensures old(wallet.submitted) <= wallet.submitted
      ensures !stop ==> AllBurned(client.Now(), burns)
      ensures stop ==> ReadyStuck(old(client.Now()), client.Now(), burns, world)
      ensures ClosesPaid(client.sent, |old(client.sent)|, wallet.submitted, |old(wallet.submitted)|,
                old(client.Now()), client.Now())
    {
      ghost var before, s0, from := client.Now(), |client.sent|, |wallet.submitted|;
      for n := 0 to |burns|
        invariant client.Valid() && client.Since(before)
        invariant old(wallet.submitted) <= wallet.submitted
        invariant AllBurned(client.Now(), burns[..n])
        invariant ClosesPaid(client.sent, s0, wallet.submitted, from, before, client.Now())
      {
        ghost var past, payments := client.Now(), wallet.submitted;
        var ok := FinishReady(burns[n], world(n));
        AllBurnedLasts(past, burns[..n]);
        ClosesPaidStep(s0, payments, from, before, past);
        if !ok {
          assert During(past, before, client.Now()) && !ReadyGoesOn(past.chain, burns[n], world(n));
          return true;
        }
      }
      assert burns[..|burns|] == burns;
      return false;
    }

    method HandleRefundsExpired(refunds: seq<RefundRequest>, world: nat -> World) returns (stop: bool)
      requires client.Valid()
      modifies client, wallet`sequenceNumber
      ensures client.Valid() && client.Since(old(client.Now()))
      ensures !stop ==> AllRefunds(client.Now(), |old(client.accepted)|, refunds)
      ensures stop ==> RefundsStuck(old(client.Now()), client.Now(), refunds, world)
      ensures NoClosing(client.sent, |old(client.sent)|)
    {
      ghost var since := |client.accepted|;
      for n := 0 to |refunds|
        invariant client.Valid() && client.Since(old(client.Now()))
        invariant AllRefunds(client.Now(), since, refunds[..n])
        invariant NoClosing(client.sent, |old(client.sent)|)
      {
        ghost var past, c := client.Now(), wallet.sequenceNumber;
        var w := world(n);
        var r := HandleRefundExpired(refunds[n], w.before, w.answered, w.horizon, w.net);
        AllRefundsLasts(past, since, since, refunds[..n]);
        if !r.Finished? {
          assert During(past, old(client.Now()), client.Now());
          assert !RefundGoesOn(past.chain, refunds[n], c, world(n));
          return true;
        }
        RefundSettledLasts(client.Now(), |past.accepted|, since, refunds[n]);
      }
      assert refunds[..|refunds|] == refunds;
      return false;
    }

    /** One ready refund: one already executed is skipped, any other failure stops the daemon. */
    method FinishRefundReady(hash: Bytes, w: World) returns (ok: bool)
      requires client.Valid()
      modifies client, wallet`sequenceNumber, wallet`submitted
      ensures client.Valid() && client.Since(old(client.Now()))
      ensures old(wallet.submitted) <= wallet.submitted
      ensures ok ==> hash in client.chain.executedRefunds
      ensures var s := old(client.chain);
              && (|wallet.submitted| == |old(wallet.submitted)| + if RefundsReady(s, hash, w) then 1 else 0)
              && (RefundReadyGoesOn(s, hash, w) ==> ok)
      ensures ClosesPaid(client.sent, |old(client.sent)|, wallet.submitted, |old(wallet.submitted)|,
                old(client.Now()), client.Now())
    {
      var r, paid := HandleRefundReady(hash, w);
      if client.sent != old(client.sent) {
        assert wallet.submitted[|old(wallet.submitted)|] == paid.value;
        assert RefundPaid(wallet.submitted, |old(wallet.submitted)|, old(client.Now()), client.Now(), hash);
      }
      return r.Finished? || r.AlreadyRefunded?;
    }

    /** Going on, every ready refund is executed; and this daemon closes none that it has not paid. */
    method HandleRefundsReady(refunds: seq<Bytes>, world: nat -> World) returns (stop: bool)
      requires client.Valid()
      modifies client, wallet`sequenceNumber, wallet`submitted
      ensures client.Valid() && client.Since(old(client.Now()))
      ensures old(wallet.submitted) <= wallet.submitted
      ensures !stop ==> AllRefunded(client.Now(), refunds)
      ensures stop ==> RefundsReadyStuck(old(client.Now()), client.Now(), refunds, world)
      ensures ClosesPaid(client.sent, |old(client.sent)|, wallet.submitted, |old(wallet.submitted)|,
                old(client.Now()), client.Now())
    {
      ghost var before, s0, from := client.Now(), |client.sent|, |wallet.submitted|;
      for n := 0 to |refunds|
        invariant client.Valid() && client.Since(before)
        invariant old(wallet.submitted) <= wallet.submitted
        invariant AllRefunded(client.Now(), refunds[..n])
        invariant ClosesPaid(client.sent, s0, wallet.submitted, from, before, client.Now())
      {
        ghost var past, payments := client.Now(), wallet.submitted;
        var ok := FinishRefundReady(refunds[n], world(n));
        AllRefundedLasts(past, refunds[..n]);
        ClosesPaidStep(s0, payments, from, before, past);
        if !ok {
          assert During(past, before, client.Now()) && !RefundReadyGoesOn(past.chain, refunds[n], world(n));
          return true;
        }
      }
      assert refunds[..|refunds|] == refunds;
      return false;
    }

    /** Everything a batch asks for is done, or this daemon's part in it is on the chain. */
    ghost predicate Settles(m: Moment, since: nat, batch: Batch, world: (nat, nat) -> World) {
      && AllCreated(m, since, batch.created, Worlds(world, 0))
      && AllExpired(m, since, batch.expired, Worlds(world, 1))
      && AllBurned(m, batch.ready)
      && AllRefunds(m, since, batch.refundExpired)
      && AllRefunded(m, batch.refundReady)
    }

    /** Why this daemon may close a burn or a refund: it is proposed to be minted back, given up, or paid. */
    ghost predicate Accounted(
      call: Call, m: Moment, before: Moment, payments: seq<Submission>, from: nat,
      batch: Batch, world: (nat, nat) -> World)
    {
      || ProposedBack(call, m, |before.accepted|, batch.created, Worlds(world, 0))
      || GivenUp(call, batch.expired, Worlds(world, 1))
      || PaidBefore(call, payments, from, before, m)
    }

    /** All that was closed since `before` is accounted for. */
    ghost predicate AllAccounted(
      m: Moment, before: Moment, payments: seq<Submission>, from: nat, batch: Batch, world: (nat, nat) -> World)
    {
      forall k :: |before.sent| <= k < |m.sent| && IsClosing(m.sent[k]) ==>
        Accounted(m.sent[k], m, before, payments, from, batch, world)
    }

    /** What is accounted for stays so, and may be looked at from an earlier moment. */
    lemma AccountedLasts(
      call: Call, past: Moment, mid: Moment, before: Moment, payments: seq<Submission>, from: nat, from': nat,
      batch: Batch, world: (nat, nat) -> World)
      requires client.Since(past) && payments <= wallet.submitted && from' <= from
      requires before.history <= mid.history && |before.accepted| <= |mid.accepted|
      requires Accounted(call, past, mid, payments, from, batch, world)
      ensures Accounted(call, client.Now(), before, wallet.submitted, from', batch, world)
    {
      if ProposedBack(call, past, |mid.accepted|, batch.created, Worlds(world, 0)) {
        ProposedBackLasts(
          call, past, |mid.accepted|, |before.accepted|, batch.created, batch.created, Worlds(world, 0));
      } else if PaidBefore(call, payments, from, mid, past) {
        PaidBeforeLasts(call, payments, from, from', mid, before, past);
      }
    }

    /** Two stretches, each accounted for. */
    lemma AllAccountedOn(
      past: Moment, before: Moment, payments: seq<Submission>, from: nat, batch: Batch, world: (nat, nat) -> World)
      requires client.Since(past) && before.history <= past.history && |before.accepted| <= |past.accepted|
      requires from <= |payments| && payments <= wallet.submitted
      requires AllAccounted(past, before, payments, from, batch, world)
      requires AllAccounted(client.Now(), past, wallet.submitted, |payments|, batch, world)
      ensures AllAccounted(client.Now(), before, wallet.submitted, from, batch, world)
    {
      forall k | |before.sent| <= k < |client.sent| && IsClosing(client.sent[k])
        ensures Accounted(client.sent[k], client.Now(), before, wallet.submitted, from, batch, world)
      {
        if k < |past.sent| {
          assert past.sent[k] == client.sent[k];
          AccountedLasts(past.sent[k], past, before, before, payments, from, from, batch, world);
        } else {
          AccountedLasts(client.sent[k], client.Now(), past, before, wallet.submitted, |payments|, from, batch, world);
        }
      }
    }

    /** The new and expired burns of a block. */
    method HandleUnpaid(batch: Batch, world: (nat, nat) -> World) returns (stop: bool)
      requires client.Valid()
      modifies client, wallet`sequenceNumber
      ensures client.Valid() && client.Since(old(client.Now()))
      ensures !stop ==> AllCreated(client.Now(), |old(client.accepted)|, batch.created, Worlds(world, 0))
      ensures !stop ==> AllExpired(client.Now(), |old(client.accepted)|, batch.expired, Worlds(world, 1))
      ensures stop ==> BatchStuck(old(client.Now()), client.Now(), batch, world)
      ensures AllAccounted(client.Now(), old(client.Now()), wallet.submitted, |wallet.submitted|, batch, world)
    {
      ghost var before := client.Now();
      stop := HandleCreated(batch.created, Worlds(world, 0));
      CreatedInBatch(before, client.Now(), batch, world);
      if stop { return; }
      ghost var created := client.Now();
      stop := HandleExpired(batch.expired, Worlds(world, 1));
      AllAccountedOn(created, before, wallet.submitted, |wallet.submitted|, batch, world);
      AllCreatedLasts(created, |before.accepted|, |before.accepted|, batch.created, Worlds(world, 0));
      ExpiredInBatch(before, created, client.Now(), batch, world);
    }

    /** The new, expired and ready burns of a block. */
    method HandleBurns(batch: Batch, world: (nat, nat) -> World) returns (stop: bool)
      requires client.Valid()
      modifies client, wallet`sequenceNumber, wallet`submitted
      ensures client.Valid() && client.Since(old(client.Now())) && old(wallet.submitted) <= wallet.submitted
      ensures !stop ==> AllCreated(client.Now(), |old(client.accepted)|, batch.created, Worlds(world, 0))
      ensures !stop ==> AllExpired(client.Now(), |old(client.accepted)|, batch.expired, Worlds(world, 1))
      ensures !stop ==> AllBurned(client.Now(), batch.ready)
      ensures stop ==> BatchStuck(old(client.Now()), client.Now(), batch, world)
      ensures AllAccounted(client.Now(), old(client.Now()), wallet.submitted, |old(wallet.submitted)|, batch, world)
    {
      ghost var before, from := client.Now(), |wallet.submitted|;
      stop := HandleUnpaid(batch, world);
      if stop { return; }
      ghost var unpaid, paid := client.Now(), wallet.submitted;
      stop := HandleReady(batch.ready, Worlds(world, 2));
      AllAccountedOn(unpaid, before, paid, from, batch, world);
      AllCreatedLasts(unpaid, |before.accepted|, |before.accepted|, batch.created, Worlds(world, 0));
      AllExpiredLasts(unpaid, |before.accepted|, |before.accepted|, batch.expired, Worlds(world, 1));
      ReadyInBatch(before, unpaid, client.Now(), batch, world);
    }

    /** The expired and ready refunds of a block. */
    method HandleRefunds(batch: Batch, world: (nat, nat) -> World) returns (stop: bool)
      requires client.Valid()
      modifies client, wallet`sequenceNumber, wallet`submitted
      ensures client.Valid() && client.Since(old(client.Now())) && old(wallet.submitted) <= wallet.submitted
      ensures !stop ==> AllRefunds(client.Now(), |old(client.accepted)|, batch.refundExpired)
      ensures !stop ==> AllRefunded(client.Now(), batch.refundReady)
      ensures stop ==> BatchStuck(old(client.Now()), client.Now(), batch, world)
      ensures AllAccounted(client.Now(), old(client.Now()), wallet.submitted, |old(wallet.submitted)|, batch, world)
    {
      ghost var before, from := client.Now(), |wallet.submitted|;
      stop := HandleRefundsExpired(batch.refundExpired, Worlds(world, 3));
      if stop { return; }
      ghost var expired, paid := client.Now(), wallet.submitted;
      stop := HandleRefundsReady(batch.refundReady, Worlds(world, 4));
      AllAccountedOn(expired, before, paid, from, batch, world);
      AllRefundsLasts(expired, |before.accepted|, |before.accepted|, batch.refundExpired);
      if stop { BatchStuckEarlier(before, expired, client.Now(), batch, world); }
    }

    /**
     The events of a block, kind by kind in the fixed order. The daemon goes on only when all of
     the block is settled: every Ready burn and refund executed, every new or expired withdrawal
     signed by this wallet or, without a trustline, closed or minted back, every expired refund signed.
     Whether it goes on or not, it closes a burn or a refund only when it has paid it or has had its
     proposal to mint it back accepted, or when it gives up an expired one.
     */
    method HandleBatch(batch: Batch, world: (nat, nat) -> World) returns (stop: bool)
      requires client.Valid()
      modifies client, wallet`sequenceNumber, wallet`submitted
      ensures client.Valid() && client.Since(old(client.Now())) && old(wallet.submitted) <= wallet.submitted
      ensures !stop ==> Settles(client.Now(), |old(client.accepted)|, batch, world)
      ensures stop ==> BatchStuck(old(client.Now()), client.Now(), batch, world)
      ensures AllAccounted(client.Now(), old(client.Now()), wallet.submitted, |old(wallet.submitted)|, batch, world)
    {
      ghost var before, from := client.Now(), |wallet.submitted|;
      stop := HandleBurns(batch, world);
      if stop { return; }
      ghost var past, paid, since := client.Now(), wallet.submitted, |before.accepted|;
      stop := HandleRefunds(batch, world);
      AllAccountedOn(past, before, paid, from, batch, world);
      if stop {
        BatchStuckEarlier(before, past, client.Now(), batch, world);
        return;
      }
      AllCreatedLasts(past, since, since, batch.created, Worlds(world, 0));
      AllExpiredLasts(past, since, since, batch.expired, Worlds(world, 1));
      AllBurnedLasts(past, batch.ready);
      AllRefundsLasts(client.Now(), |past.accepted|, since, batch.refundExpired);
    }

    lemma SettlesLasts(past: Moment, since: nat, earlier: nat, batch: Batch, world: (nat, nat) -> World)
      requires client.Since(past) && earlier <= since && Settles(past, since, batch, world)
      ensures Settles(client.Now(), earlier, batch, world)
    {
      AllCreatedLasts(past, since, earlier, batch.created, Worlds(world, 0));
      AllExpiredLasts(past, since, earlier, batch.expired, Worlds(world, 1));
      AllBurnedLasts(past, batch.ready);
      AllRefundsLasts(past, since, earlier, batch.refundExpired);
      AllRefundedLasts(past, batch.refundReady);
    }

    /** All that was closed since `before` is accounted for by one of the blocks. */
    ghost predicate AllAccountedIn(
      m: Moment, before: Moment, payments: seq<Submission>, from: nat,
      batches: seq<Batch>, worlds: nat -> ((nat, nat) -> World))
    {
      forall k :: |before.sent| <= k < |m.sent| && IsClosing(m.sent[k]) ==>
        AccountedIn(m.sent[k], m, before, payments, from, batches, worlds)
    }

    ghost predicate AccountedIn(
      call: Call, m: Moment, before: Moment, payments: seq<Submission>, from: nat,
      batches: seq<Batch>, worlds: nat -> ((nat, nat) -> World))
    {
      exists b: nat :: b < |batches| && Accounted(call, m, before, payments, from, batches[b], worlds(b))
    }

    /** One more block: what was closed so far stays accounted for, and so is what it closed. */
    lemma AllAccountedInStep(
      past: Moment, before: Moment, payments: seq<Submission>, from: nat,
      batches: seq<Batch>, worlds: nat -> ((nat, nat) -> World), n: nat)
      requires client.Since(past) && before.history <= past.history && |before.accepted| <= |past.accepted|
      requires from <= |payments| && payments <= wallet.submitted && n < |batches|
      requires AllAccountedIn(past, before, payments, from, batches, worlds)
      requires AllAccounted(client.Now(), past, wallet.submitted, |payments|, batches[n], worlds(n))
      ensures AllAccountedIn(client.Now(), before, wallet.submitted, from, batches, worlds)
    {
      forall k | |before.sent| <= k < |client.sent| && IsClosing(client.sent[k])
        ensures AccountedIn(client.sent[k], client.Now(), before, wallet.submitted, from, batches, worlds)
      {
        if k < |past.sent| {
          assert past.sent[k] == client.sent[k];
          var b: nat :| b < |batches| && Accounted(past.sent[k], past, before, payments, from, batches[b], worlds(b));
          AccountedLasts(past.sent[k], past, before, before, payments, from, from, batches[b], worlds(b));
        } else {
          AccountedLasts(client.sent[k], client.Now(), past, before, wallet.submitted, |payments|, from,
                         batches[n], worlds(n));
        }
      }
    }

    /**
     Block after block, until a failure stops the daemon. All blocks it leaves behind stay settled,
     and all that it closes, on the way or when it stops, is accounted for by one of the blocks.
     */
    method HandleBatches(batches: seq<Batch>, worlds: nat -> ((nat, nat) -> World)) returns (handled: nat)
      requires client.Valid()
      modifies client, wallet`sequenceNumber, wallet`submitted
      ensures client.Valid() && client.Since(old(client.Now())) && old(wallet.submitted) <= wallet.submitted
      ensures handled <= |batches|
      ensures forall b: nat :: b < handled ==>
                Settles(client.Now(), |old(client.accepted)|, batches[b], worlds(b))
      ensures handled < |batches| ==>
                BatchStuck(old(client.Now()), client.Now(), batches[handled], worlds(handled))
      ensures AllAccountedIn(
                client.Now(), old(client.Now()), wallet.submitted, |old(wallet.submitted)|, batches, worlds)
    {
      ghost var before, from := client.Now(), |wallet.submitted|;
      for n := 0 to |batches|
        invariant client.Valid() && client.Since(before) && old(wallet.submitted) <= wallet.submitted
        invariant forall b: nat :: b < n ==> Settles(client.Now(), |before.accepted|, batches[b], worlds(b))
        invariant AllAccountedIn(client.Now(), before, wallet.submitted, from, batches, worlds)
      {
        ghost var past, paid := client.Now(), wallet.submitted;
        var stop := HandleBatch(batches[n], worlds(n));
        AllAccountedInStep(past, before, paid, from, batches, worlds, n);
        forall b: nat | b < n ensures Settles(client.Now(), |before.accepted|, batches[b], worlds(b)) {
          SettlesLasts(past, |before.accepted|, |before.accepted|, batches[b], worlds(b));
        }
        if stop {
          BatchStuckEarlier(before, past, client.Now(), batches[n], worlds(n));
          return n;
        }
        SettlesLasts(client.Now(), |past.accepted|, |before.accepted|, batches[n], worlds(n));
      }
      return |batches|;
    }
  }

  // ---- many daemons ----------------------------------------------------------------------------

  /** Two daemons see the same chain. */
  ghost predicate SameChain(a: Client, b: Client)
    reads a, b
  {
    a.cfg == b.cfg && a.genesis == b.genesis && a.history == b.history && a.chain == b.chain
  }

  /**
   Enough daemons of different validators have had the same mint accepted, of a deposit or of a
   withdrawal to be minted back: then it is executed, once, on these terms, whatever else happened.
   */
  lemma DaemonsMint(daemons: seq<Daemon>, id: Bytes, account: AccountId, amount: u64)
    requires |daemons| > 0
    requires forall d :: d in daemons ==> d.client.Valid() && SameChain(d.client, daemons[0].client)
    requires forall i, j :: 0 <= i < j < |daemons| ==> daemons[i].client.identity != daemons[j].client.identity
    requires forall d :: d in daemons ==> d.MintProposed(d.client.Now(), 0, id, account, amount)
    requires var c := daemons[0].client;
             && 2 * |daemons| > |c.genesis.validators| && amount > c.genesis.depositFee
             && MintRuns.Unknown(c.genesis, id) && MintRuns.SteadySettings(c.cfg, c.genesis, c.history)
             && var calls := MintRuns.ValidatorCalls(c.genesis.validators, c.history, id);
                calls != [] ==> calls[0] == MintRuns.Proposal(account, amount)
    ensures var c := daemons[0].client;
            && id in c.chain.executedMints
            && MintRuns.OnTerms(
                 c.chain.executedMints[id], MintRuns.Proposal(account, amount), |c.genesis.validators| / 2 + 1)
            && MintRuns.CompletionsFor(c.cfg, c.genesis, c.history, id) == 1
  {
    var c := daemons[0].client;
    c.Sound();
    if id in c.chain.executedMints {
      MintRuns.MintAtQuorum(c.cfg, c.genesis, c.history, id);
      MintRuns.MintsExactlyOnce(c.cfg, c.genesis, c.history, id);
    } else {
      var ids := seq(|daemons|, i requires 0 <= i < |daemons| => daemons[i].client.identity);
      MintRuns.SteadySettingsKeepValidators(c.cfg, c.genesis, c.history);
      forall who | who in ids
        ensures who in c.genesis.validators && MintRuns.CalledBy(c.history, id, who)
      {
        var i :| 0 <= i < |daemons| && ids[i] == who;
        assert daemons[i] in daemons;
        daemons[i].client.LoggedWasCalled(id, account, amount);
      }
      DistinctSize<AccountId>(ids);
      MintRuns.QuorumOfCallersMints(c.cfg, c.genesis, c.history, id, SetOf<AccountId>(ids));
    }
  }

  // ---- a deposit that is lost ----------------------------------------------------------------

  /** One payment to the bridge, with the effect that announces it. */
  function PaidIn(hash: Bytes, token: Cursor, memo: string, returned: bool): StellarTx {
    StellarTx(hash, token, memo, returned, true,
      [AccountCredited("bridge", "TFT", "issuer")], [Payment("alice", "bridge", Some(100))])
  }

  ghost predicate Plain(wallet: Wallet) {
    wallet.account == "bridge" && wallet.code == "TFT" && wallet.issuer == "issuer" && wallet.pageSize == 10
  }

  lemma PaidInIsDeposit(daemon: Daemon, tx: StellarTx)
    requires tx == PaidIn(tx.hash, tx.token, tx.memo, tx.returned) && Plain(daemon.wallet)
    ensures daemon.IsDeposit(tx) && daemon.SendersOf(tx) == map["alice" := 100] && !daemon.DoesMore(tx)
    ensures forall fetched: nat -> bool :: daemon.FollowedUp(tx, fetched) <==> fetched(0)
  {
    assert daemon.wallet.Announces(tx.effects[0]);
    assert Counts(tx.ops[0], "bridge") && Pays(tx.ops, "bridge", "alice");
    assert tx.ops[..0] == [];
  }

  /** A daemon at the very beginning: the chain knows nothing, and nothing was received. */
  ghost predicate Untouched(daemon: Daemon)
    reads daemon, daemon.client
  {
    var chain := daemon.client.chain;
    && daemon.Valid() && daemon.received == []
    && chain.executedMints == map[] && chain.mints == map[] && chain.refunds == map[] && chain.executedRefunds == map[]
    && daemon.client.accepted == []
  }

  /** A deposit whose delivery misses it, and a returned payment that arrives. */
  method LosingSchedule(daemon: Daemon)
    returns (lost: StellarTx, later: StellarTx, missing: Delivery, arriving: Delivery)
    requires Plain(daemon.wallet) && Untouched(daemon)
    ensures Listed([lost, later])
    ensures daemon.Missed(lost, missing) && daemon.SendersOf(lost) != map[]
    ensures !daemon.Tended(daemon.client.Now(), [missing], lost)
    ensures daemon.ReturnArrives(daemon.client.chain, later, arriving)
  {
    lost, later := PaidIn("a", 1, "twin_1", false), PaidIn("b", 2, "memo", true);
    missing := Delivery("a", true, (n: nat) => false, []);
    var smooth := MintWorld(
      [], true, [], true, Directory(map[], map[], map[], map[]), true,
      Horizon(Some(0), true, true, true, true, Some(0)), Network(Attempt([], Dropped), []), Disk(true, true));
    arriving := Delivery("b", true, (n: nat) => true, [smooth]);
    PaidInIsDeposit(daemon, lost);
    PaidInIsDeposit(daemon, later);
  }

  /** A daemon that has just been set up. */
  method SetUp() returns (daemon: Daemon)
    ensures fresh(daemon) && fresh(daemon.client) && fresh(daemon.wallet) && fresh(daemon.persist)
    ensures Untouched(daemon) && Plain(daemon.wallet) && daemon.persist.Saved().stellarCursor == 0
  {
    var chain := Genesis([1], None, 0, 0, Ledger(map[], map[]));
    var client := new Client(Config(20, 1, _ => true, _ => true), 1, chain);
    var wallet := new Wallet("bridge", "TFT", "issuer", "key", 1, _ => "signature", 10, 0);
    var persist := new ChainPersistency(None);
    daemon := new Daemon(client, wallet, persist, 0);
  }

  /** It does happen: two payments, one failed request, and the cursor is past a deposit nobody tends. */
  method DepositIsLost() returns (daemon: Daemon, lost: StellarTx, later: StellarTx)
    ensures daemon.Valid() && Listed([lost, later])
    ensures daemon.IsDeposit(lost) && !daemon.Tended(daemon.client.Now(), daemon.received, lost)
    ensures lost.token < later.token == daemon.persist.Saved().stellarCursor
  {
    var missing: Delivery, arriving: Delivery;
    daemon := SetUp();
    lost, later, missing, arriving := LosingSchedule(daemon);
    assert [lost, later][0] == lost && [lost, later][1] == later;
    assert daemon.received + [missing] == [missing];
    daemon.LoseDeposit(lost, later, missing, arriving);
  }
}
