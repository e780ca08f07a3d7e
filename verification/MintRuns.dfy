/** Minting over whole runs: exactly once per transaction id, on the terms of the first proposal, at the quorum. */
module MintRuns {
  import opened Wrappers
  import opened Collections
  import opened ValidatorList
  import opened PalletTypes
  import opened PalletSpec
  import opened PalletEffects
  import opened PalletEvents
  import opened PalletInvariant

  datatype Proposal = Proposal(target: AccountId, amount: u64)

  ghost predicate Unknown(s: State, id: Bytes) {
    id !in s.mints && id !in s.executedMints
  }

  function Record(s: State, id: Bytes): MintTransaction
    requires id in s.mints || id in s.executedMints
  {
    if id in s.executedMints then s.executedMints[id] else s.mints[id]
  }

  /** Mint `id` is in the same place in both states, with the same record. */
  ghost predicate SameMint(s: State, s': State, id: Bytes) {
    && (id in s'.mints <==> id in s.mints)
    && (id in s'.executedMints <==> id in s.executedMints)
    && (id in s.mints ==> s'.mints[id] == s.mints[id])
    && (id in s.executedMints ==> s'.executedMints[id] == s.executedMints[id])
  }

  predicate MintCallFor(step: Step, id: Bytes) {
    MintCall(step) && step.call.mintId == id
  }

  /** What an accepted call for `id` makes of it. */
  ghost predicate Advanced(s: State, s': State, id: Bytes, p: Proposal) {
    var before := Proposed(s, id, p.target, p.amount);
    var tx := before.(votes := before.votes + 1);
    && id !in s.executedMints
    && if 2 * tx.votes <= |s.validators|
       then id in s'.mints && s'.mints[id] == tx && id !in s'.executedMints
       else id !in s'.mints && id in s'.executedMints && s'.executedMints[id] == tx.(block := s.block)
  }

  lemma MintStep(cfg: Config, s: State, step: Step, id: Bytes)
    requires MintsDisjoint(s)
    ensures var s' := Next(cfg, s, step);
            if MintCallFor(step, id) && Accepted(cfg, s, step)
            then Advanced(s, s', id, Proposal(step.call.recipient, step.call.amount))
            else SameMint(s, s', id)
  {
    NextFrame(cfg, s, step);
    if MintCall(step) && Accepted(cfg, s, step) {
      ProposeMintEffect(cfg, s, step.origin.who, step.call.mintId, step.call.recipient, step.call.amount);
    }
  }

  /** A validator's call on a mint not yet executed is refused only by the deposit fee, at the quorum. */
  lemma MintAcceptedIff(cfg: Config, s: State, step: Step)
    requires MintCall(step) && step.origin.Signed?
    ensures var tx := Proposed(s, step.call.mintId, step.call.recipient, step.call.amount);
            Accepted(cfg, s, step) <==>
              && step.origin.who in s.validators && step.call.mintId !in s.executedMints
              && (2 * (tx.votes + 1) <= |s.validators| || tx.amount > s.depositFee)
  {
    if step.origin.who in s.validators && step.call.mintId !in s.executedMints {
      ProposeMintEffect(cfg, s, step.origin.who, step.call.mintId, step.call.recipient, step.call.amount);
    }
  }

  // ---- the record is the first accepted proposal ---------------------------------------------

  function AcceptedProposals(cfg: Config, s: State, steps: seq<Step>, id: Bytes): seq<Proposal> {
    if steps == [] then []
    else
      var front, last := steps[..|steps| - 1], steps[|steps| - 1];
      AcceptedProposals(cfg, s, front, id)
      + if MintCallFor(last, id) && Accepted(cfg, Run(cfg, s, front), last)
        then [Proposal(last.call.recipient, last.call.amount)] else []
  }

  /**
   Target and amount of a mint, pending or executed, are those of the first accepted call for
   its id, and its votes are the accepted calls: later calls count but cannot change the terms.
   */
  lemma {:induction false} MintKeepsFirstTerms(cfg: Config, s: State, steps: seq<Step>, id: Bytes)
    requires Inv(s) && Unknown(s, id)
    ensures var s', calls := Run(cfg, s, steps), AcceptedProposals(cfg, s, steps, id);
            && (Unknown(s', id) <==> calls == [])
            && (calls != [] ==>
                  && Record(s', id).target == calls[0].target
                  && Record(s', id).amount == calls[0].amount
                  && Record(s', id).votes == |calls|)
  {
    if steps == [] {
    } else {
      var front := steps[..|steps| - 1];
      MintKeepsFirstTerms(cfg, s, front, id);
      RunKeepsInv(cfg, s, front);
      MintStep(cfg, Run(cfg, s, front), steps[|steps| - 1], id);
    }
  }

  /** An executed mint is final: neither its record nor its place ever changes again. */
  lemma {:induction false} ExecutedMintsAreFinal(cfg: Config, s: State, steps: seq<Step>, id: Bytes)
    requires Inv(s) && id in s.executedMints
    ensures var s' := Run(cfg, s, steps);
            id in s'.executedMints && s'.executedMints[id] == s.executedMints[id] && id !in s'.mints
  {
    if steps == [] {
    } else {
      var front := steps[..|steps| - 1];
      ExecutedMintsAreFinal(cfg, s, front, id);
      RunKeepsInv(cfg, s, front);
      MintStep(cfg, Run(cfg, s, front), steps[|steps| - 1], id);
    }
  }

  /** A proposed mint stays known: pending or executed for ever after. */
  lemma {:induction false} KnownMintsStayKnown(cfg: Config, s: State, steps: seq<Step>, id: Bytes)
    requires Inv(s) && !Unknown(s, id)
    ensures !Unknown(Run(cfg, s, steps), id)
  {
    if steps == [] {
    } else {
      var front := steps[..|steps| - 1];
      KnownMintsStayKnown(cfg, s, front, id);
      RunKeepsInv(cfg, s, front);
      MintStep(cfg, Run(cfg, s, front), steps[|steps| - 1], id);
    }
  }

  // ---- exactly once --------------------------------------------------------------------------

  function IsCompletion(): Event -> bool { (e: Event) => e.MintCompleted? }

  /** How many MintCompleted events the calls for `id` emit in a run. */
  function CompletionsFor(cfg: Config, s: State, steps: seq<Step>, id: Bytes): nat {
    if steps == [] then 0
    else
      var front := steps[..|steps| - 1];
      CompletionsFor(cfg, s, front, id)
      + if MintCallFor(steps[|steps| - 1], id)
        then Count(Emitted(Run(cfg, s, front), Run(cfg, s, steps)), IsCompletion()) else 0
  }

  lemma CompletionsAmong(opening: seq<Event>, closing: seq<Event>)
    requires forall i :: 0 <= i < |opening| ==> !opening[i].MintCompleted?
    requires closing == [] || (|closing| == 1 && closing[0].MintCompleted?)
    ensures Count(opening + closing, IsCompletion()) == |closing|
  {
    CountZero(opening, IsCompletion());
    if closing == [] {
      assert opening + closing == opening;
    } else {
      assert closing == [closing[0]];
      CountAppend(opening, closing[0], IsCompletion());
    }
  }

  lemma CompletionsOfCall(cfg: Config, s: State, who: AccountId, id: Bytes, target: AccountId, amount: u64)
    requires ProposeMint(cfg, s, who, id, target, amount).Success?
    ensures var s' := ProposeMint(cfg, s, who, id, target, amount).value;
            Count(Emitted(s, s'), IsCompletion()) == if id in s'.executedMints then 1 else 0
  {
    var s' := ProposeMint(cfg, s, who, id, target, amount).value;
    var opening := (if id in s.mints then [] else [MintTransactionProposed(id, target, amount)])
                   + [MintTransactionVoted(id)];
    var closing := if id in s'.executedMints then [MintCompleted(s'.executedMints[id])] else [];
    MintEvents(cfg, s, who, id, target, amount);
    CompletionsAmong(opening, closing);
  }

  lemma CompletionStep(cfg: Config, s: State, step: Step)
    requires MintCall(step)
    ensures Count(Emitted(s, Next(cfg, s, step)), IsCompletion())
         == if Accepted(cfg, s, step) && step.call.mintId in Next(cfg, s, step).executedMints then 1 else 0
  {
    if Accepted(cfg, s, step) {
      CompletionsOfCall(cfg, s, step.origin.who, step.call.mintId, step.call.recipient, step.call.amount);
    } else {
      assert Emitted(s, Next(cfg, s, step)) == [];
    }
  }

  /**
   Exactly once: over any run, the calls for a transaction id complete one mint if the id ends
   up executed, and none otherwise.
   */
  lemma {:induction false} MintsExactlyOnce(cfg: Config, s: State, steps: seq<Step>, id: Bytes)
    requires Inv(s) && id !in s.executedMints
    ensures CompletionsFor(cfg, s, steps, id) == if id in Run(cfg, s, steps).executedMints then 1 else 0
  {
    if steps == [] {
    } else {
      var front, last := steps[..|steps| - 1], steps[|steps| - 1];
      MintsExactlyOnce(cfg, s, front, id);
      RunKeepsInv(cfg, s, front);
      MintStep(cfg, Run(cfg, s, front), last, id);
      if MintCallFor(last, id) { CompletionStep(cfg, Run(cfg, s, front), last); }
    }
  }

  lemma CompletedStep(cfg: Config, s: State, step: Step)
    requires Inv(s)
    ensures var s' := Next(cfg, s, step);
            Count(s'.events, IsCompletion()) + |s.executedMints| == Count(s.events, IsCompletion()) + |s'.executedMints|
  {
    NextFrame(cfg, s, step);
    NextCount(cfg, s, step, IsCompletion());
    if MintCall(step) {
      CompletionStep(cfg, s, step);
      MintStep(cfg, s, step, step.call.mintId);
      if Accepted(cfg, s, step) {
        ProposeMintEffect(cfg, s, step.origin.who, step.call.mintId, step.call.recipient, step.call.amount);
      }
    }
  }

  /** And nothing else completes a mint: the log holds one MintCompleted per executed mint. */
  lemma {:induction false} OneCompletionPerExecutedMint(cfg: Config, s: State, steps: seq<Step>)
    requires Inv(s) && Count(s.events, IsCompletion()) == |s.executedMints|
    ensures Count(Run(cfg, s, steps).events, IsCompletion()) == |Run(cfg, s, steps).executedMints|
  {
    if steps == [] {
    } else {
      var front := steps[..|steps| - 1];
      OneCompletionPerExecutedMint(cfg, s, front);
      RunKeepsInv(cfg, s, front);
      CompletedStep(cfg, Run(cfg, s, front), steps[|steps| - 1]);
    }
  }

  // ---- the quorum ----------------------------------------------------------------------------

  /** No step of a run changes the validators or the deposit fee. */
  ghost predicate SteadySettings(cfg: Config, s: State, steps: seq<Step>) {
    if steps == [] then true
    else
      var front, last := steps[..|steps| - 1], steps[|steps| - 1];
      && SteadySettings(cfg, s, front)
      && !ChangesValidators(cfg, Run(cfg, s, front), last) && !ChangesDepositFee(cfg, Run(cfg, s, front), last)
  }

  lemma {:induction false} SteadySettingsKeepValidators(cfg: Config, s: State, steps: seq<Step>)
    requires SteadySettings(cfg, s, steps)
    ensures SteadyValidators(cfg, s, steps)
  {
    if steps == [] {
    } else {
      SteadySettingsKeepValidators(cfg, s, steps[..|steps| - 1]);
    }
  }

  lemma {:induction false} FeeStaysSteady(cfg: Config, s: State, steps: seq<Step>)
    requires SteadySettings(cfg, s, steps)
    ensures Run(cfg, s, steps).depositFee == s.depositFee
  {
    if steps == [] {
    } else {
      var front := steps[..|steps| - 1];
      FeeStaysSteady(cfg, s, front);
      SteadyStep(cfg, Run(cfg, s, front), steps[|steps| - 1]);
    }
  }

  predicate ValidatorCall(validators: seq<AccountId>, step: Step, id: Bytes) {
    MintCallFor(step, id) && step.origin.Signed? && step.origin.who in validators
  }

  /** The calls validators make for `id`, accepted or not. */
  function ValidatorCalls(validators: seq<AccountId>, steps: seq<Step>, id: Bytes): seq<Proposal> {
    if steps == [] then []
    else
      var last := steps[|steps| - 1];
      ValidatorCalls(validators, steps[..|steps| - 1], id)
      + if ValidatorCall(validators, last, id) then [Proposal(last.call.recipient, last.call.amount)] else []
  }

  ghost predicate OnTerms(tx: MintTransaction, p: Proposal, votes: nat) {
    tx.target == p.target && tx.amount == p.amount && tx.votes == votes
  }

  function Calls(validators: seq<AccountId>, step: Step, id: Bytes): Option<Proposal> {
    if ValidatorCall(validators, step, id) then Some(Proposal(step.call.recipient, step.call.amount)) else None
  }

  function Extended(calls: seq<Proposal>, call: Option<Proposal>): seq<Proposal> {
    calls + if call.Some? then [call.value] else []
  }

  /** What a validator's call, or none, makes of mint `id`: refused at the quorum for the fee, else one vote more. */
  ghost predicate Called(s: State, s': State, id: Bytes, call: Option<Proposal>) {
    if call.None? || id in s.executedMints then SameMint(s, s', id)
    else
      var tx := Proposed(s, id, call.value.target, call.value.amount);
      if 2 * (tx.votes + 1) > |s.validators| && tx.amount <= s.depositFee then SameMint(s, s', id)
      else Advanced(s, s', id, call.value)
  }

  lemma CalledStep(cfg: Config, s: State, step: Step, id: Bytes)
    requires MintsDisjoint(s)
    ensures Called(s, Next(cfg, s, step), id, Calls(s.validators, step, id))
  {
    MintStep(cfg, s, step, id);
    if MintCallFor(step, id) && step.origin.Signed? { MintAcceptedIff(cfg, s, step); }
  }

  /** The settings are those of `s`, and the last step is one call more or none. */
  lemma SteadyCall(cfg: Config, s: State, steps: seq<Step>, id: Bytes)
    requires Inv(s) && SteadySettings(cfg, s, steps) && steps != []
    ensures var front, last := steps[..|steps| - 1], steps[|steps| - 1];
            var u, call := Run(cfg, s, front), Calls(s.validators, last, id);
            && MintsDisjoint(u) && MintsVoted(u) && u.validators == s.validators && u.depositFee == s.depositFee
            && ValidatorCalls(s.validators, steps, id) == Extended(ValidatorCalls(s.validators, front, id), call)
            && Called(u, Run(cfg, s, steps), id, call)
  {
    var front := steps[..|steps| - 1];
    RunKeepsInv(cfg, s, front);
    SteadySettingsKeepValidators(cfg, s, front);
    ValidatorsStaySteady(cfg, s, front);
    FeeStaysSteady(cfg, s, front);
    CalledStep(cfg, Run(cfg, s, front), steps[|steps| - 1], id);
  }

  /**
   With `n` validators: unknown without calls, pending with one vote per call up to half of `n`, and
   minted on the first terms by the call that makes it more than half.
   */
  ghost predicate MintedAtQuorum(n: nat, s: State, id: Bytes, calls: seq<Proposal>) {
    if calls == [] then Unknown(s, id)
    else if 2 * |calls| <= n then
      id in s.mints && id !in s.executedMints && OnTerms(s.mints[id], calls[0], |calls|)
    else
      id in s.executedMints && id !in s.mints && OnTerms(s.executedMints[id], calls[0], n / 2 + 1)
  }

  lemma MintedAtQuorumStep(s: State, s': State, id: Bytes, calls: seq<Proposal>, call: Option<Proposal>)
    requires Called(s, s', id, call) && MintedAtQuorum(|s.validators|, s, id, calls)
    requires Extended(calls, call) != [] ==> Extended(calls, call)[0].amount > s.depositFee
    ensures MintedAtQuorum(|s.validators|, s', id, Extended(calls, call))
  {
  }

  /**
   With validators and fee fixed, the number of validator calls decides everything about a
   deposit above the fee: up to n/2 calls it is pending with that many votes, and the call
   number n/2 + 1 is the one that mints, with exactly n/2 + 1 votes, whatever happens later.
   */
  lemma {:induction false} MintAtQuorum(cfg: Config, s: State, steps: seq<Step>, id: Bytes)
    requires Inv(s) && Unknown(s, id) && SteadySettings(cfg, s, steps)
    requires var calls := ValidatorCalls(s.validators, steps, id); calls != [] ==> calls[0].amount > s.depositFee
    ensures MintedAtQuorum(|s.validators|, Run(cfg, s, steps), id, ValidatorCalls(s.validators, steps, id))
  {
    if steps == [] {
    } else {
      var front, last := steps[..|steps| - 1], steps[|steps| - 1];
      SteadyCall(cfg, s, steps, id);
      MintAtQuorum(cfg, s, front, id);
      MintedAtQuorumStep(Run(cfg, s, front), Run(cfg, s, steps), id,
                         ValidatorCalls(s.validators, front, id), Calls(s.validators, last, id));
    }
  }

  /** Up to half of `n` validators one vote per call, and then half of them for ever. */
  ghost predicate StuckBelowQuorum(n: nat, s: State, id: Bytes, calls: seq<Proposal>) {
    if calls == [] then Unknown(s, id)
    else
      && id in s.mints && id !in s.executedMints
      && OnTerms(s.mints[id], calls[0], if 2 * |calls| <= n then |calls| else n / 2)
  }

  lemma StuckBelowQuorumStep(s: State, s': State, id: Bytes, calls: seq<Proposal>, call: Option<Proposal>)
    requires |s.validators| >= 2 && Called(s, s', id, call) && StuckBelowQuorum(|s.validators|, s, id, calls)
    requires Extended(calls, call) != [] ==> Extended(calls, call)[0].amount <= s.depositFee
    ensures StuckBelowQuorum(|s.validators|, s', id, Extended(calls, call))
  {
  }

  /** A first proposal at or below the fee never mints while the fee stays: it is stuck at n/2 votes. */
  lemma {:induction false} SmallMintIsStuck(cfg: Config, s: State, steps: seq<Step>, id: Bytes)
    requires Inv(s) && Unknown(s, id) && SteadySettings(cfg, s, steps) && |s.validators| >= 2
    requires var calls := ValidatorCalls(s.validators, steps, id); calls != [] ==> calls[0].amount <= s.depositFee
    ensures StuckBelowQuorum(|s.validators|, Run(cfg, s, steps), id, ValidatorCalls(s.validators, steps, id))
  {
    if steps == [] {
    } else {
      var front, last := steps[..|steps| - 1], steps[|steps| - 1];
      SteadyCall(cfg, s, steps, id);
      SmallMintIsStuck(cfg, s, front, id);
      StuckBelowQuorumStep(Run(cfg, s, front), Run(cfg, s, steps), id,
                           ValidatorCalls(s.validators, front, id), Calls(s.validators, last, id));
    }
  }

  /** The first call above the fee, if there is one. */
  function FirstAbove(calls: seq<Proposal>, fee: nat): Option<Proposal> {
    if calls == [] then None
    else
      var earlier, last := FirstAbove(calls[..|calls| - 1], fee), calls[|calls| - 1];
      if earlier.None? && last.amount > fee then Some(last) else earlier
  }

  lemma {:induction false} FirstAboveIff(calls: seq<Proposal>, fee: nat)
    ensures FirstAbove(calls, fee).Some? <==> exists p :: p in calls && p.amount > fee
  {
    if calls == [] {
    } else {
      var front, last := calls[..|calls| - 1], calls[|calls| - 1];
      FirstAboveIff(front, fee);
      assert calls == front + [last];
    }
  }

  ghost predicate MintedByFirstAbove(s: State, id: Bytes, first: Option<Proposal>) {
    if first.None? then Unknown(s, id)
    else id in s.executedMints && id !in s.mints && OnTerms(s.executedMints[id], first.value, 1)
  }

  lemma MintedByFirstAboveStep(s: State, s': State, id: Bytes, calls: seq<Proposal>, call: Option<Proposal>)
    requires |s.validators| < 2 && Called(s, s', id, call)
    requires MintedByFirstAbove(s, id, FirstAbove(calls, s.depositFee))
    ensures MintedByFirstAbove(s', id, FirstAbove(Extended(calls, call), s.depositFee))
  {
    assert Extended(calls, None) == calls;
    if call.Some? { assert Extended(calls, call)[..|calls|] == calls; }
  }

  /** With a single validator the first call above the fee mints at once; the others leave nothing behind. */
  lemma {:induction false} SingleVoteMints(cfg: Config, s: State, steps: seq<Step>, id: Bytes)
    requires Inv(s) && Unknown(s, id) && SteadySettings(cfg, s, steps) && |s.validators| < 2
    ensures MintedByFirstAbove(Run(cfg, s, steps), id,
              FirstAbove(ValidatorCalls(s.validators, steps, id), s.depositFee))
  {
    if steps == [] {
    } else {
      var front, last := steps[..|steps| - 1], steps[|steps| - 1];
      SteadyCall(cfg, s, steps, id);
      SingleVoteMints(cfg, s, front, id);
      MintedByFirstAboveStep(Run(cfg, s, front), Run(cfg, s, steps), id,
                             ValidatorCalls(s.validators, front, id), Calls(s.validators, last, id));
    }
  }

  /** When a deposit is minted at all under a quorum of one: exactly when some validator's call exceeds the fee. */
  lemma SingleVoteMintsIff(cfg: Config, s: State, steps: seq<Step>, id: Bytes)
    requires Inv(s) && Unknown(s, id) && SteadySettings(cfg, s, steps) && |s.validators| < 2
    ensures id in Run(cfg, s, steps).executedMints
            <==> exists p :: p in ValidatorCalls(s.validators, steps, id) && p.amount > s.depositFee
    ensures id !in Run(cfg, s, steps).executedMints ==> Unknown(Run(cfg, s, steps), id)
  {
    SingleVoteMints(cfg, s, steps, id);
    FirstAboveIff(ValidatorCalls(s.validators, steps, id), s.depositFee);
  }

  /** The calls that mint: more than half of `n`, the first above the fee; where one is enough, one above the fee. */
  predicate Suffice(n: nat, fee: nat, calls: seq<Proposal>) {
    if n < 2 then exists p :: p in calls && p.amount > fee
    else 2 * |calls| > n && calls[0].amount > fee
  }

  /** When a mint is executed, with validators and fee fixed: exactly when the calls for it suffice. */
  lemma MintedIff(cfg: Config, s: State, steps: seq<Step>, id: Bytes)
    requires Inv(s) && Unknown(s, id) && SteadySettings(cfg, s, steps)
    ensures id in Run(cfg, s, steps).executedMints
            <==> Suffice(|s.validators|, s.depositFee, ValidatorCalls(s.validators, steps, id))
  {
    var calls := ValidatorCalls(s.validators, steps, id);
    if |s.validators| < 2 {
      SingleVoteMintsIff(cfg, s, steps, id);
    } else if calls == [] || calls[0].amount > s.depositFee {
      MintAtQuorum(cfg, s, steps, id);
    } else {
      SmallMintIsStuck(cfg, s, steps, id);
    }
  }

  // ---- enough validators ------------------------------------------------------------------------

  /** The validators that called for `id`. */
  function Callers(validators: seq<AccountId>, steps: seq<Step>, id: Bytes): set<AccountId> {
    if steps == [] then {}
    else
      var last := steps[|steps| - 1];
      Callers(validators, steps[..|steps| - 1], id)
      + if ValidatorCall(validators, last, id) then {last.origin.who} else {}
  }

  lemma {:induction false} CallersAreCounted(validators: seq<AccountId>, steps: seq<Step>, id: Bytes)
    ensures |Callers(validators, steps, id)| <= |ValidatorCalls(validators, steps, id)|
  {
    if steps == [] {
    } else {
      CallersAreCounted(validators, steps[..|steps| - 1], id);
    }
  }

  lemma {:induction false} CallerIsListed(validators: seq<AccountId>, steps: seq<Step>, id: Bytes, k: nat)
    requires k < |steps| && ValidatorCall(validators, steps[k], id)
    ensures steps[k].origin.who in Callers(validators, steps, id)
  {
    if k == |steps| - 1 {
    } else {
      CallerIsListed(validators, steps[..|steps| - 1], id, k);
    }
  }

  ghost predicate CalledBy(steps: seq<Step>, id: Bytes, who: AccountId) {
    exists k :: 0 <= k < |steps| && MintCallFor(steps[k], id) && steps[k].origin == Signed(who)
  }

  /** Once more than half of the validators have called, a deposit above the fee is minted, once, on the first terms. */
  lemma QuorumOfCallersMints(cfg: Config, s: State, steps: seq<Step>, id: Bytes, callers: set<AccountId>)
    requires Inv(s) && Unknown(s, id) && SteadySettings(cfg, s, steps) && 2 * |callers| > |s.validators|
    requires forall who :: who in callers ==> who in s.validators && CalledBy(steps, id, who)
    requires var calls := ValidatorCalls(s.validators, steps, id); calls != [] ==> calls[0].amount > s.depositFee
    ensures var s', calls := Run(cfg, s, steps), ValidatorCalls(s.validators, steps, id);
            && calls != [] && id in s'.executedMints && OnTerms(s'.executedMints[id], calls[0], |s.validators| / 2 + 1)
            && CompletionsFor(cfg, s, steps, id) == 1
  {
    forall who | who in callers ensures who in Callers(s.validators, steps, id) {
      var k :| 0 <= k < |steps| && MintCallFor(steps[k], id) && steps[k].origin == Signed(who);
      CallerIsListed(s.validators, steps, id, k);
    }
    SubsetSize(callers, Callers(s.validators, steps, id));
    CallersAreCounted(s.validators, steps, id);
    MintAtQuorum(cfg, s, steps, id);
    MintsExactlyOnce(cfg, s, steps, id);
  }
}
