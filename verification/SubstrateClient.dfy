/**
 The daemon's view of TFChain. Other accounts and other validators may take any steps between
 two of its calls; a submission may be lost, or take effect and still be reported as failed.
 Answers to queries are the truth at the moment they are given.
 */
module SubstrateClient {
  import opened PalletTypes
  import opened PalletSpec
  import opened PalletInvariant
  import opened ValidatorList
  import Collections
  import MintRuns
  import PalletEffects
  import BurnRuns
  import RefundRuns
  import SignatureRounds

  /** The fate of one submission: dropped, or included and perhaps not reported. */
  datatype Fate = Dropped | Included(reported: bool)

  /** One submission: what the others do before it, and its fate. */
  datatype Attempt = Attempt(before: seq<Step>, fate: Fate)

  /** One turn of a retry loop: the wait may be cancelled, the query may fail. */
  datatype Turn = Turn(cancelled: bool, before: seq<Step>, answered: bool, attempt: Attempt)

  /** What the network does to one retried call; after the last turn the context is cancelled. */
  datatype Network = Network(first: Attempt, turns: seq<Turn>)

  /** How many turns a loop can take before it is cancelled or gets no answer. */
  function TurnsTaken(turns: seq<Turn>): (n: nat)
    ensures n <= |turns|
  {
    if turns == [] || turns[0].cancelled || !turns[0].answered then 0 else 1 + TurnsTaken(turns[1..])
  }

  /** The first turn that is cancelled or unanswered ends the loop; all turns before it are taken. */
  lemma {:induction false} TurnsTakenIff(turns: seq<Turn>, n: nat)
    requires n <= |turns|
    ensures n <= TurnsTaken(turns) <==> forall k :: 0 <= k < n ==> !turns[k].cancelled && turns[k].answered
  {
    if turns == [] || turns[0].cancelled || !turns[0].answered || n == 0 {
    } else {
      TurnsTakenIff(turns[1..], n - 1);
      assert forall k :: 0 <= k < n - 1 ==> turns[1..][k] == turns[k + 1];
    }
  }

  lemma NextTurn(turns: seq<Turn>, n: nat)
    requires n <= TurnsTaken(turns) && n < |turns|
    ensures n < TurnsTaken(turns) <==> !turns[n].cancelled && turns[n].answered
  {
    TurnsTakenIff(turns, n);
    TurnsTakenIff(turns, n + 1);
  }

  /** The submission of a loop: the first one, and one for each turn. */
  function AttemptAt(net: Network, n: nat): Attempt
    requires n <= |net.turns|
  {
    if n == 0 then net.first else net.turns[n - 1].attempt
  }

  /** The question a retry loop asks before it submits again: has it happened already? */
  predicate Settled(s: State, call: Call) {
    match call
    case ProposeOrVoteMint(id, _, _) => id in s.executedMints
    case ProposeBurnOrAddSig(id, _, _, _, _) => id in s.executedBurns
    case SetBurnExecuted(id) => id in s.executedBurns
    case CreateRefundOrAddSig(hash, _, _, _, _) => hash in s.executedRefunds
    case SetRefundExecuted(hash) => hash in s.executedRefunds
    case _ => false
  }

  predicate Retried(call: Call) {
    || call.ProposeOrVoteMint? || call.ProposeBurnOrAddSig? || call.SetBurnExecuted?
    || call.CreateRefundOrAddSig? || call.SetRefundExecuted?
  }

  /** What a retried call is for. */
  predicate Goal(s: State, call: Call) {
    match call
    case ProposeOrVoteMint(id, _, _) => id in s.mints || id in s.executedMints
    case ProposeBurnOrAddSig(id, target, amount, _, _) =>
      id in s.executedBurns || (id in s.burns && s.burns[id].target == target && s.burns[id].amount == amount)
    case SetBurnExecuted(id) => id in s.executedBurns
    case CreateRefundOrAddSig(hash, _, _, _, _) => hash in s.refunds || hash in s.executedRefunds
    case SetRefundExecuted(hash) => hash in s.executedRefunds
    case _ => true
  }

  lemma SettledReachesGoal(s: State, call: Call)
    requires Retried(call) && Settled(s, call)
    ensures Goal(s, call)
  {
  }

  lemma AcceptedReachesGoal(cfg: Config, s: State, who: AccountId, call: Call)
    requires Inv(s) && Retried(call) && ApplySigned(cfg, s, who, call).Success?
    ensures Goal(Next(cfg, s, Extrinsic(Signed(who), call)), call)
  {
    var step := Extrinsic(Signed(who), call);
    match call
    case ProposeOrVoteMint(id, _, _) => MintRuns.MintStep(cfg, s, step, id);
    case ProposeBurnOrAddSig(id, _, _, _, _) => BurnRuns.NamedBurnStep(cfg, s, step, id);
    case SetBurnExecuted(id) => BurnRuns.NamedBurnStep(cfg, s, step, id);
    case CreateRefundOrAddSig(hash, _, _, _, _) => RefundRuns.SigningStep(cfg, s, step, hash);
    case SetRefundExecuted(hash) => RefundRuns.FinishingStep(cfg, s, step, hash);
  }

  /** A goal once reached stays reached, whatever anyone does afterwards. */
  lemma GoalsLast(cfg: Config, s: State, steps: seq<Step>, call: Call)
    requires Inv(s) && Goal(s, call)
    ensures Goal(Run(cfg, s, steps), call)
  {
    match call
    case ProposeOrVoteMint(id, _, _) => MintRuns.KnownMintsStayKnown(cfg, s, steps, id);
    case ProposeBurnOrAddSig(id, _, _, _, _) =>
      BurnRuns.BurnKeepsPayload(cfg, s, steps, id);
      if id in s.executedBurns { BurnRuns.ExecutedBurnsAreFinal(cfg, s, steps, id); }
      RunKeepsInv(cfg, s, steps);
    case SetBurnExecuted(id) => BurnRuns.ExecutedBurnsAreFinal(cfg, s, steps, id);
    case CreateRefundOrAddSig(hash, _, _, _, _) => RefundRuns.RefundsStayKnown(cfg, s, steps, hash);
    case SetRefundExecuted(hash) => RefundRuns.RefundsStayKnown(cfg, s, steps, hash);
    case _ =>
  }

  /** Some occurrence of `step` in a run was accepted. */
  ghost predicate AcceptedIn(cfg: Config, s: State, steps: seq<Step>, step: Step) {
    exists k :: 0 <= k < |steps| && steps[k] == step && Accepted(cfg, Run(cfg, s, steps[..k]), step)
  }

  lemma AcceptedInLonger(cfg: Config, s: State, steps: seq<Step>, longer: seq<Step>, step: Step)
    requires steps <= longer && AcceptedIn(cfg, s, steps, step)
    ensures AcceptedIn(cfg, s, longer, step)
  {
    var k :| 0 <= k < |steps| && steps[k] == step && Accepted(cfg, Run(cfg, s, steps[..k]), step);
    assert longer[..k] == steps[..k] && longer[k] == steps[k];
  }

  lemma LastIsAccepted(cfg: Config, s: State, past: seq<Step>, step: Step)
    requires Accepted(cfg, Run(cfg, s, past), step)
    ensures AcceptedIn(cfg, s, past + [step], step)
  {
    assert (past + [step])[..|past|] == past && (past + [step])[|past|] == step;
  }

  lemma OneStep(cfg: Config, s: State, who: AccountId, call: Call)
    requires Inv(s) && Retried(call)
    ensures ApplySigned(cfg, s, who, call).Success? <==> Accepted(cfg, s, Extrinsic(Signed(who), call))
    ensures ApplySigned(cfg, s, who, call).Success? ==> Goal(Run(cfg, s, [Extrinsic(Signed(who), call)]), call)
  {
    var step := Extrinsic(Signed(who), call);
    assert [step][..0] == [];
    if ApplySigned(cfg, s, who, call).Success? { AcceptedReachesGoal(cfg, s, who, call); }
  }

  /** What can be known of the chain grows: what is known stays known, what is executed stays executed. */
  ghost predicate Grown(s: State, s': State) {
    && s.executedMints.Keys <= s'.executedMints.Keys
    && s.executedBurns.Keys <= s'.executedBurns.Keys
    && s.executedRefunds.Keys <= s'.executedRefunds.Keys
    && s.mints.Keys + s.executedMints.Keys <= s'.mints.Keys + s'.executedMints.Keys
    && s.refunds.Keys + s.executedRefunds.Keys <= s'.refunds.Keys + s'.executedRefunds.Keys
  }

  lemma SettledLasts(s: State, s': State, call: Call)
    requires Grown(s, s')
    ensures Settled(s, call) ==> Settled(s', call)
  {
  }

  lemma RunGrows(cfg: Config, s: State, steps: seq<Step>)
    requires Inv(s)
    ensures Grown(s, Run(cfg, s, steps))
  {
    var s' := Run(cfg, s, steps);
    forall id | id in s.executedMints ensures id in s'.executedMints {
      MintRuns.ExecutedMintsAreFinal(cfg, s, steps, id);
    }
    forall id | id in s.executedBurns ensures id in s'.executedBurns {
      BurnRuns.ExecutedBurnsAreFinal(cfg, s, steps, id);
    }
    forall hash | hash in s.refunds || hash in s.executedRefunds
      ensures (hash in s'.refunds || hash in s'.executedRefunds)
              && (hash in s.executedRefunds ==> hash in s'.executedRefunds)
    {
      RefundRuns.RefundsStayKnown(cfg, s, steps, hash);
    }
    forall id | id in s.mints || id in s.executedMints ensures id in s'.mints || id in s'.executedMints {
      MintRuns.KnownMintsStayKnown(cfg, s, steps, id);
    }
  }

  /** This call is in the log after its first `since` entries. */
  predicate Logged(log: seq<Call>, since: nat, call: Call) {
    exists k :: since <= k < |log| && log[k] == call
  }

  /**
   What holds of a client, looked at with one entry of its log of accepted calls: the chain is sound
   and is where its history leads, and the entry is in that history and was accepted there.
   */
  ghost predicate Holds(
    cfg: Config, who: AccountId, s: State, chain: State, history: seq<Step>, log: seq<Call>, k: nat)
  {
    && Inv(s) && Inv(chain) && chain == Run(cfg, s, history)
    && (k < |log| ==> AcceptedIn(cfg, s, history, Extrinsic(Signed(who), log[k])))
  }

  /** It holds for every entry. Proofs look at it only where they mention `Holds`. */
  ghost predicate AllHolds(
    cfg: Config, who: AccountId, s: State, chain: State, history: seq<Step>, log: seq<Call>)
  {
    forall k: nat {:trigger Holds(cfg, who, s, chain, history, log, k)} :: Holds(cfg, who, s, chain, history, log, k)
  }

  lemma HoldsLonger(
    cfg: Config, who: AccountId, s: State, chain: State, history: seq<Step>, log: seq<Call>, steps: seq<Step>)
    requires AllHolds(cfg, who, s, chain, history, log)
    ensures AllHolds(cfg, who, s, Run(cfg, chain, steps), history + steps, log)
    ensures Grown(chain, Run(cfg, chain, steps))
  {
    assert Holds(cfg, who, s, chain, history, log, 0);
    RunConcat(cfg, s, history, steps);
    RunKeepsInv(cfg, chain, steps);
    RunGrows(cfg, chain, steps);
    forall k: nat ensures Holds(cfg, who, s, Run(cfg, chain, steps), history + steps, log, k) {
      assert Holds(cfg, who, s, chain, history, log, k);
      if k < |log| { AcceptedInLonger(cfg, s, history, history + steps, Extrinsic(Signed(who), log[k])); }
    }
  }

  /** One accepted call more: it is logged. */
  lemma HoldsOfEntry(
    cfg: Config, who: AccountId, s: State, chain: State, history: seq<Step>, log: seq<Call>, call: Call)
    requires AllHolds(cfg, who, s, chain, history, log) && Retried(call)
    requires ApplySigned(cfg, chain, who, call).Success?
    ensures var step := Extrinsic(Signed(who), call);
            && AllHolds(cfg, who, s, Run(cfg, chain, [step]), history + [step], log + [call])
            && Goal(Run(cfg, chain, [step]), call)
  {
    var step := Extrinsic(Signed(who), call);
    HoldsLonger(cfg, who, s, chain, history, log, [step]);
    assert Holds(cfg, who, s, chain, history, log, 0);
    OneStep(cfg, chain, who, call);
    LastIsAccepted(cfg, s, history, step);
    forall k: nat ensures Holds(cfg, who, s, Run(cfg, chain, [step]), history + [step], log + [call], k) {
      assert Holds(cfg, who, s, Run(cfg, chain, [step]), history + [step], log, k);
    }
  }

  lemma LoggedLonger(log: seq<Call>, longer: seq<Call>, since: nat, earlier: nat, call: Call)
    requires log <= longer && earlier <= since && Logged(log, since, call)
    ensures Logged(longer, earlier, call)
  {
    var k :| since <= k < |log| && log[k] == call;
    assert longer[k] == call;
  }

  predicate RecordedFor(s: State, hash: Bytes, target: Bytes, amount: u64) {
    hash in s.refunds && s.refunds[hash].target == target && s.refunds[hash].amount == amount
  }

  /** What the daemon can look back on. */
  datatype Moment = Moment(chain: State, history: seq<Step>, accepted: seq<Call>, sent: seq<Call>)

  /** The chain as the daemon meets it, with everything that happened on it so far. */
  class Client {
    const cfg: Config
    const identity: AccountId
    ghost const genesis: State
    ghost var history: seq<Step>
    /** The calls this daemon has submitted, whatever became of them. */
    ghost var sent: seq<Call>
    /** The calls this daemon has submitted that the chain accepted. */
    ghost var accepted: seq<Call>
    var chain: State

    ghost predicate Valid()
      reads this
    {
      AllHolds(cfg, identity, genesis, chain, history, accepted)
    }

    lemma Sound()
      requires Valid()
      ensures Inv(genesis) && Inv(chain) && chain == Run(cfg, genesis, history)
    {
      assert Holds(cfg, identity, genesis, chain, history, accepted, 0);
    }

    ghost function Now(): Moment
      reads this
    {
      Moment(chain, history, accepted, sent)
    }

    /** Time has passed since: histories and logs are longer, and what was known is known. */
    ghost predicate Since(m: Moment)
      reads this
    {
      m.history <= history && m.accepted <= accepted && m.sent <= sent && Grown(m.chain, chain)
    }

    constructor (cfg: Config, identity: AccountId, start: State)
      requires Inv(start)
      ensures Valid() && chain == genesis == start && this.cfg == cfg && this.identity == identity
      ensures history == [] && sent == [] && accepted == []
    {
      this.cfg, this.identity, this.genesis := cfg, identity, start;
      history, sent, accepted, chain := [], [], [], start;
    }

    /** Anyone takes any steps. */
    method Interfere(steps: seq<Step>)
      requires Valid()
      modifies this`history, this`chain
      ensures Valid() && history == old(history) + steps && chain == Run(cfg, old(chain), steps)
      ensures Since(old(Now()))
    {
      HoldsLonger(cfg, identity, genesis, chain, history, accepted, steps);
      history := history + steps;
      chain := Run(cfg, chain, steps);
    }

    /** The chain refused this call at some moment since. */
    ghost predicate RefusedSince(past: seq<Step>, call: Call)
      reads this
    {
      RefusedBetween(past, history, call)
    }

    ghost predicate RefusedBetween(past: seq<Step>, now: seq<Step>, call: Call) {
      exists h: seq<Step> :: past <= h <= now && !ApplySigned(cfg, Run(cfg, genesis, h), identity, call).Success?
    }

    /** The first submission will be reported, and the chain will accept it when it gets there from `s`. */
    ghost predicate Grants(s: State, call: Call, net: Network) {
      && net.first.fate == Included(true)
      && ApplySigned(cfg, Run(cfg, s, net.first.before), identity, call).Success?
    }

    /** The chain after a call that was granted. */
    ghost function Granted(s: State, call: Call, net: Network): State {
      Run(cfg, s, net.first.before + [Extrinsic(Signed(identity), call)])
    }

    /**
     The loop gave up: it ran into a cancelled or unanswered turn after a submission in every turn
     before, and each of them was dropped, not reported, or refused by the chain.
     */
    ghost predicate GaveUp(past: Moment, call: Call, net: Network)
      reads this
    {
      && |sent| == |past.sent| + 1 + TurnsTaken(net.turns)
      && forall n: nat :: n <= TurnsTaken(net.turns) ==>
           AttemptAt(net, n).fate != Included(true) || RefusedSince(past.history, call)
    }

    /** Since then nothing but this call was submitted, once or more. */
    ghost predicate SentOnly(before: seq<Call>, call: Call)
      reads this
    {
      before < sent && forall k :: |before| <= k < |sent| ==> sent[k] == call
    }

    /** The chain includes a call of this daemon. */
    method Include(call: Call) returns (ok: bool)
      requires Valid() && Retried(call)
      modifies this`history, this`chain, this`accepted
      ensures Valid() && Since(old(Now()))
      ensures ok ==> Goal(chain, call) && Logged(accepted, |old(accepted)|, call)
      ensures ok <==> ApplySigned(cfg, old(chain), identity, call).Success?
      ensures history == old(history) + [Extrinsic(Signed(identity), call)]
      ensures chain == Run(cfg, old(chain), [Extrinsic(Signed(identity), call)])
    {
      ok := ApplySigned(cfg, chain, identity, call).Success?;
      if ok {
        HoldsOfEntry(cfg, identity, genesis, chain, history, accepted, call);
        HoldsLonger(cfg, identity, genesis, chain, history, accepted, [Extrinsic(Signed(identity), call)]);
        accepted := accepted + [call];
        assert accepted[|old(accepted)|] == call;
        history := history + [Extrinsic(Signed(identity), call)];
        chain := Run(cfg, chain, [Extrinsic(Signed(identity), call)]);
      } else {
        Interfere([Extrinsic(Signed(identity), call)]);
      }
    }

    /** One submission of a call by this daemon; success is reported only for an accepted call. */
    method Submit(call: Call, attempt: Attempt) returns (ok: bool)
      requires Valid() && Retried(call)
      modifies this
      ensures Valid() && Since(old(Now())) && sent == old(sent) + [call]
      ensures ok ==> Goal(chain, call) && Logged(accepted, |old(accepted)|, call)
      ensures ok <==> attempt.fate == Included(true)
                      && ApplySigned(cfg, Run(cfg, old(chain), attempt.before), identity, call).Success?
      ensures ok ==>
                chain == Run(cfg, Run(cfg, old(chain), attempt.before), [Extrinsic(Signed(identity), call)])
      ensures !ok ==> attempt.fate != Included(true) || RefusedSince(old(history), call)
    {
      Interfere(attempt.before);
      ghost var h := history;
      Sound();
      sent := sent + [call];
      match attempt.fate
      case Dropped => ok := false;
      case Included(reported) =>
        ok := Include(call);
        assert h <= history;
        ok := ok && reported;
    }

    /** What the daemon has got for a call since then: it is accepted, or was found settled. */
    ghost predicate Achieved(call: Call, since: nat)
      reads this
    {
      Goal(chain, call) && (Logged(accepted, since, call) || Settled(chain, call))
    }

    /** One turn of the loop: ask whether the call is settled, and submit it if not. */
    method TryAgain(call: Call, turn: Turn) returns (ok: bool)
      requires Valid() && Retried(call)
      modifies this
      ensures Valid() && Since(old(Now())) && (sent == old(sent) || SentOnly(old(sent), call))
      ensures ok ==> Achieved(call, |old(accepted)|)
      ensures Settled(old(chain), call) ==> ok && sent == old(sent)
      ensures !ok ==> |sent| == |old(sent)| + 1
      ensures !ok ==> turn.attempt.fate != Included(true) || RefusedSince(old(history), call)
    {
      Interfere(turn.before);
      if Settled(chain, call) {
        SettledReachesGoal(chain, call);
        ok := true;
      } else {
        ok := Submit(call, turn.attempt);
      }
    }

    /** Giving up, looked at from an earlier moment. */
    lemma GaveUpEarlier(past: Moment, mid: Moment, call: Call, net: Network)
      requires past.history <= mid.history && past.sent == mid.sent && GaveUp(mid, call, net)
      ensures GaveUp(past, call, net)
    {
      if RefusedSince(mid.history, call) {
        var h: seq<Step> :| mid.history <= h <= history
                            && !ApplySigned(cfg, Run(cfg, genesis, h), identity, call).Success?;
        assert past.history <= h;
      }
    }

    /** After `n` turns without success: a submission for each and one before, none reported accepted. */
    ghost predicate Trying(past: Moment, call: Call, net: Network, n: nat)
      reads this
    {
      && n <= TurnsTaken(net.turns) && |sent| == |past.sent| + 1 + n
      && (n > 0 ==> !Settled(past.chain, call))
      && forall k: nat :: k <= n ==> AttemptAt(net, k).fate != Included(true) || RefusedSince(past.history, call)
    }

    /** One more turn without success. */
    lemma TryingOn(past: Moment, mid: Moment, call: Call, net: Network, n: nat)
      requires Since(past) && past.history <= mid.history <= history && n < TurnsTaken(net.turns)
      requires |mid.sent| == |past.sent| + 1 + n && |sent| == |mid.sent| + 1 && !Settled(past.chain, call)
      requires forall k: nat :: k <= n ==>
                 AttemptAt(net, k).fate != Included(true) || RefusedBetween(past.history, mid.history, call)
      requires net.turns[n].attempt.fate != Included(true) || RefusedSince(mid.history, call)
      ensures Trying(past, call, net, n + 1)
    {
      if RefusedBetween(past.history, mid.history, call) {
        var h: seq<Step> :| past.history <= h <= mid.history
                            && !ApplySigned(cfg, Run(cfg, genesis, h), identity, call).Success?;
        assert h <= history;
      }
      if RefusedSince(mid.history, call) {
        var h: seq<Step> :| mid.history <= h <= history
                            && !ApplySigned(cfg, Run(cfg, genesis, h), identity, call).Success?;
        assert past.history <= h;
      }
    }

    /** The first submission, before any turn. */
    method FirstTry(call: Call, net: Network) returns (ok: bool)
      requires Valid() && Retried(call)
      modifies this
      ensures Valid() && Since(old(Now())) && sent == old(sent) + [call]
      ensures ok ==> Achieved(call, |old(accepted)|)
      ensures ok <==> Grants(old(chain), call, net)
      ensures ok ==> chain == Granted(old(chain), call, net)
      ensures !ok ==> Trying(old(Now()), call, net, 0)
    {
      ok := Submit(call, net.first);
      RunConcat(cfg, old(chain), net.first.before, [Extrinsic(Signed(identity), call)]);
    }

    /** Turn number `n`, after as many without success. */
    method NextTry(ghost past: Moment, call: Call, net: Network, n: nat) returns (ok: bool)
      requires Valid() && Retried(call) && Since(past) && SentOnly(past.sent, call)
      requires n < TurnsTaken(net.turns) && Trying(past, call, net, n)
      modifies this
      ensures Valid() && Since(past) && SentOnly(past.sent, call)
      ensures ok ==> Achieved(call, |past.accepted|)
      ensures !ok ==> Trying(past, call, net, n + 1)
    {
      ghost var mid := Now();
      SettledLasts(past.chain, chain, call);
      ok := TryAgain(call, net.turns[n]);
      if ok {
        AchievedSince(call, |mid.accepted|, |past.accepted|);
      } else {
        TryingOn(past, mid, call, net, n);
      }
    }

    lemma AchievedSince(call: Call, since: nat, earlier: nat)
      requires earlier <= since && Achieved(call, since)
      ensures Achieved(call, earlier)
    {
    }

    /** The retry loop shared by the five calls: submit until it is reported accepted or found settled. */
    method Retry(call: Call, net: Network) returns (ok: bool)
      requires Valid() && Retried(call)
      modifies this
      ensures Valid() && Since(old(Now())) && SentOnly(old(sent), call)
      ensures ok ==> Goal(chain, call) && (Logged(accepted, |old(accepted)|, call) || Settled(chain, call))
      ensures Grants(old(chain), call, net) ==>
                && ok && sent == old(sent) + [call]
                && chain == Granted(old(chain), call, net)
      ensures Settled(old(chain), call) && TurnsTaken(net.turns) > 0 ==> ok
      ensures !ok ==> GaveUp(old(Now()), call, net)
    {
      ghost var past := Now();
      ok := FirstTry(call, net);
      if ok {
        return;
      }
      var n := 0;
      while !ok && n < |net.turns|
        invariant Valid() && Since(past) && SentOnly(past.sent, call) && n <= |net.turns|
        invariant if ok then Achieved(call, |past.accepted|) else Trying(past, call, net, n)
      {
        NextTurn(net.turns, n);
        if net.turns[n].cancelled || !net.turns[n].answered {
          return false;
        }
        ok := NextTry(past, call, net, n);
        n := n + 1;
      }
    }

    method RetrySetWithdrawExecuted(id: nat, net: Network) returns (ok: bool)
      requires Valid()
      modifies this
      ensures Valid() && Since(old(Now())) && SentOnly(old(sent), SetBurnExecuted(id))
      ensures ok ==> id in chain.executedBurns
      ensures Grants(old(chain), SetBurnExecuted(id), net) ==>
                && ok && sent == old(sent) + [SetBurnExecuted(id)]
                && chain == Granted(old(chain), SetBurnExecuted(id), net)
      ensures id in old(chain).executedBurns && TurnsTaken(net.turns) > 0 ==> ok
      ensures !ok ==> GaveUp(old(Now()), SetBurnExecuted(id), net)
    {
      ok := Retry(SetBurnExecuted(id), net);
    }

    method RetryProposeWithdrawOrAddSig(
      id: nat, target: Bytes, amount: u64, sig: StellarSignature, sequenceNumber: u64, net: Network) returns (ok: bool)
      requires Valid()
      modifies this
      ensures Valid() && Since(old(Now()))
      ensures SentOnly(old(sent), ProposeBurnOrAddSig(id, target, amount, sig, sequenceNumber))
      ensures ok ==> id in chain.executedBurns
                     || (id in chain.burns && chain.burns[id].target == target && chain.burns[id].amount == amount)
      ensures ok ==> id in chain.executedBurns
                     || Logged(accepted, |old(accepted)|, ProposeBurnOrAddSig(id, target, amount, sig, sequenceNumber))
      ensures Grants(old(chain), ProposeBurnOrAddSig(id, target, amount, sig, sequenceNumber), net) ==>
                && ok && sent == old(sent) + [ProposeBurnOrAddSig(id, target, amount, sig, sequenceNumber)]
                && chain == Granted(old(chain), ProposeBurnOrAddSig(id, target, amount, sig, sequenceNumber), net)
      ensures id in old(chain).executedBurns && TurnsTaken(net.turns) > 0 ==> ok
      ensures !ok ==> GaveUp(old(Now()), ProposeBurnOrAddSig(id, target, amount, sig, sequenceNumber), net)
    {
      ok := Retry(ProposeBurnOrAddSig(id, target, amount, sig, sequenceNumber), net);
    }

    method RetryCreateRefundTransactionOrAddSig(
      hash: Bytes, target: Bytes, amount: u64, sig: StellarSignature, sequenceNumber: u64, net: Network)
      returns (ok: bool)
      requires Valid()
      modifies this
      ensures Valid() && Since(old(Now()))
      ensures SentOnly(old(sent), CreateRefundOrAddSig(hash, target, amount, sig, sequenceNumber))
      ensures ok ==> hash in chain.refunds || hash in chain.executedRefunds
      ensures ok ==> hash in chain.executedRefunds
                     || Logged(accepted, |old(accepted)|,
                          CreateRefundOrAddSig(hash, target, amount, sig, sequenceNumber))
      ensures Grants(old(chain), CreateRefundOrAddSig(hash, target, amount, sig, sequenceNumber), net) ==>
                && ok && sent == old(sent) + [CreateRefundOrAddSig(hash, target, amount, sig, sequenceNumber)]
                && chain == Granted(old(chain), CreateRefundOrAddSig(hash, target, amount, sig, sequenceNumber), net)
      ensures hash in old(chain).executedRefunds && TurnsTaken(net.turns) > 0 ==> ok
      ensures !ok ==> GaveUp(old(Now()), CreateRefundOrAddSig(hash, target, amount, sig, sequenceNumber), net)
    {
      ok := Retry(CreateRefundOrAddSig(hash, target, amount, sig, sequenceNumber), net);
    }

    method RetrySetRefundTransactionExecuted(hash: Bytes, net: Network) returns (ok: bool)
      requires Valid()
      modifies this
      ensures Valid() && Since(old(Now())) && SentOnly(old(sent), SetRefundExecuted(hash))
      ensures ok ==> hash in chain.executedRefunds
      ensures Grants(old(chain), SetRefundExecuted(hash), net) ==>
                && ok && sent == old(sent) + [SetRefundExecuted(hash)]
                && chain == Granted(old(chain), SetRefundExecuted(hash), net)
      ensures hash in old(chain).executedRefunds && TurnsTaken(net.turns) > 0 ==> ok
      ensures !ok ==> GaveUp(old(Now()), SetRefundExecuted(hash), net)
    {
      ok := Retry(SetRefundExecuted(hash), net);
    }

    method RetryProposeMintOrVote(id: Bytes, target: AccountId, amount: u64, net: Network) returns (ok: bool)
      requires Valid()
      modifies this
      ensures Valid() && Since(old(Now())) && SentOnly(old(sent), ProposeOrVoteMint(id, target, amount))
      ensures ok ==> id in chain.mints || id in chain.executedMints
      ensures ok ==> id in chain.executedMints
                     || Logged(accepted, |old(accepted)|, ProposeOrVoteMint(id, target, amount))
      ensures Grants(old(chain), ProposeOrVoteMint(id, target, amount), net) ==>
                && ok && sent == old(sent) + [ProposeOrVoteMint(id, target, amount)]
                && chain == Granted(old(chain), ProposeOrVoteMint(id, target, amount), net)
      ensures id in old(chain).executedMints && TurnsTaken(net.turns) > 0 ==> ok
      ensures !ok ==> GaveUp(old(Now()), ProposeOrVoteMint(id, target, amount), net)
    {
      ok := Retry(ProposeOrVoteMint(id, target, amount), net);
    }

    /** What is logged as accepted was called by a validator of the settings that did not change. */
    lemma LoggedWasCalled(id: Bytes, target: AccountId, amount: u64)
      requires Valid() && PalletEffects.SteadyValidators(cfg, genesis, history)
      requires Logged(accepted, 0, ProposeOrVoteMint(id, target, amount))
      ensures identity in genesis.validators && MintRuns.CalledBy(history, id, identity)
    {
      var k :| 0 <= k < |accepted| && accepted[k] == ProposeOrVoteMint(id, target, amount);
      var step := Extrinsic(Signed(identity), accepted[k]);
      assert Holds(cfg, identity, genesis, chain, history, accepted, k);
      var n :| 0 <= n < |history| && history[n] == step && Accepted(cfg, Run(cfg, genesis, history[..n]), step);
      PalletEffects.SteadyPrefix(cfg, genesis, history, n);
      PalletEffects.ValidatorsStaySteady(cfg, genesis, history[..n]);
    }

    /**
     At step `n` of the history this signature was put on a refund. If that created the refund, it was
     recorded for this target and amount, and still is unless it was executed meanwhile.
     */
    ghost predicate RecordedAt(n: nat, hash: Bytes, target: Bytes, amount: u64, sig: StellarSignature)
      requires n < |history|
      reads this
    {
      var before, after := Run(cfg, genesis, history[..n]), Run(cfg, genesis, history[..n + 1]);
      && hash in after.refunds && sig in after.refunds[hash].signatures
      && (hash !in before.refunds ==>
            && RecordedFor(after, hash, target, amount) && after.refunds[hash].txHash == hash
            && (Collections.Count(chain.events, SignatureRounds.RefundDone(hash))
                == Collections.Count(after.events, SignatureRounds.RefundDone(hash)) ==>
                  RecordedFor(chain, hash, target, amount)))
    }

    lemma SignedThere(n: nat, hash: Bytes, target: Bytes, amount: u64, sig: StellarSignature, number: u64)
      requires n < |history|
      requires history[n] == Extrinsic(Signed(identity), CreateRefundOrAddSig(hash, target, amount, sig, number))
      requires Accepted(cfg, Run(cfg, genesis, history[..n]), history[n])
      ensures var before, after := Run(cfg, genesis, history[..n]), Run(cfg, genesis, history[..n + 1]);
              && hash in after.refunds && sig in after.refunds[hash].signatures
              && (hash !in before.refunds ==>
                    RecordedFor(after, hash, target, amount) && after.refunds[hash].txHash == hash)
    {
      assert history[..n + 1][..n] == history[..n];
      RefundRuns.SigningStep(cfg, Run(cfg, genesis, history[..n]), history[n], hash);
    }

    lemma StaysRecorded(n: nat, hash: Bytes, target: Bytes, amount: u64)
      requires Valid() && n <= |history| && RecordedFor(Run(cfg, genesis, history[..n]), hash, target, amount)
      requires Collections.Count(chain.events, SignatureRounds.RefundDone(hash))
            == Collections.Count(Run(cfg, genesis, history[..n]).events, SignatureRounds.RefundDone(hash))
      ensures RecordedFor(chain, hash, target, amount)
    {
      Sound();
      assert history == history[..n] + history[n..];
      RunConcat(cfg, genesis, history[..n], history[n..]);
      RunKeepsInv(cfg, genesis, history[..n]);
      SignatureRounds.RefundKeepsTerms(cfg, Run(cfg, genesis, history[..n]), history[n..], hash);
    }

    /** When a logged call was accepted. */
    lemma LoggedWhen(call: Call) returns (n: nat)
      requires Valid() && Logged(accepted, 0, call)
      ensures n < |history| && history[n] == Extrinsic(Signed(identity), call)
      ensures Accepted(cfg, Run(cfg, genesis, history[..n]), history[n])
    {
      var k :| 0 <= k < |accepted| && accepted[k] == call;
      assert Holds(cfg, identity, genesis, chain, history, accepted, k);
      n :| n < |history| && history[n] == Extrinsic(Signed(identity), call)
           && Accepted(cfg, Run(cfg, genesis, history[..n]), history[n]);
    }

    lemma RecordedThere(n: nat, hash: Bytes, target: Bytes, amount: u64, sig: StellarSignature, number: u64)
      requires Valid() && n < |history|
      requires history[n] == Extrinsic(Signed(identity), CreateRefundOrAddSig(hash, target, amount, sig, number))
      requires Accepted(cfg, Run(cfg, genesis, history[..n]), history[n])
      ensures RecordedAt(n, hash, target, amount, sig)
    {
      SignedThere(n, hash, target, amount, sig, number);
      if RecordedFor(Run(cfg, genesis, history[..n + 1]), hash, target, amount)
         && Collections.Count(chain.events, SignatureRounds.RefundDone(hash))
            == Collections.Count(Run(cfg, genesis, history[..n + 1]).events, SignatureRounds.RefundDone(hash)) {
        StaysRecorded(n + 1, hash, target, amount);
      }
    }

    /** A refund that this daemon had accepted was put on record, and if new, for its own target and amount. */
    lemma RefundIsRecorded(hash: Bytes, target: Bytes, amount: u64, sig: StellarSignature, number: u64)
      requires Valid() && Logged(accepted, 0, CreateRefundOrAddSig(hash, target, amount, sig, number))
      ensures exists n: nat :: n < |history| && RecordedAt(n, hash, target, amount, sig)
    {
      var n := LoggedWhen(CreateRefundOrAddSig(hash, target, amount, sig, number));
      RecordedThere(n, hash, target, amount, sig, number);
    }

    /** Replays and rescans cannot mint twice: every id not executed at the start completes at most once. */
    lemma ReplaysMintOnce(id: Bytes)
      requires Valid() && id !in genesis.executedMints
      ensures MintRuns.CompletionsFor(cfg, genesis, history, id) <= 1
      ensures MintRuns.CompletionsFor(cfg, genesis, history, id) == 1 <==> id in chain.executedMints
    {
      Sound();
      MintRuns.MintsExactlyOnce(cfg, genesis, history, id);
    }
  }
}
