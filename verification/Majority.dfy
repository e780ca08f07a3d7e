/** More than half: any two groups that are large enough to act have a member in common. */
module Majority {
  import opened Collections
  import opened ValidatorList
  import opened PalletTypes
  import opened Signing
  import opened PalletSpec
  import opened PalletEffects
  import opened PalletInvariant
  import opened MintRuns
  import opened SignatureRounds
  import PalletEvents

  lemma GroupsMeet<T>(all: set<T>, a: set<T>, b: set<T>)
    requires a <= all && b <= all && |a| + |b| > |all|
    ensures exists x :: x in a && x in b
  {
    SubsetSize(a + b, all);
    assert |a + b| == |a| + |b| - |a * b|;
    assert a * b != {};
    var x :| x in a * b;
    assert x in a && x in b;
  }

  lemma {:induction false} FewElements(v: seq<AccountId>)
    ensures |Elements(v)| <= |v|
  {
    if v == [] {
    } else {
      FewElements(v[1..]);
      assert v == [v[0]] + v[1..];
      assert Elements(v) == {v[0]} + Elements(v[1..]);
    }
  }

  /** Any two groups of more than half of the validators share a validator. */
  lemma ValidatorsMeet(validators: seq<AccountId>, a: set<AccountId>, b: set<AccountId>)
    requires a <= Elements(validators) && b <= Elements(validators)
    requires 2 * |a| > |validators| && 2 * |b| > |validators|
    ensures exists who :: who in a && who in b
  {
    FewElements(validators);
    GroupsMeet(Elements(validators), a, b);
  }

  lemma {:induction false} CallersAreValidators(validators: seq<AccountId>, steps: seq<Step>, id: Bytes)
    ensures Callers(validators, steps, id) <= Elements(validators)
  {
    if steps == [] {
    } else {
      CallersAreValidators(validators, steps[..|steps| - 1], id);
    }
  }

  /** No validator called twice for `id`. */
  ghost predicate EachCallsOnce(validators: seq<AccountId>, steps: seq<Step>, id: Bytes) {
    |Callers(validators, steps, id)| == |ValidatorCalls(validators, steps, id)|
  }

  /** With no more calls than validators, a single validator is no special case. */
  lemma SufficeIff(n: nat, fee: nat, calls: seq<Proposal>)
    requires |calls| <= n
    ensures Suffice(n, fee, calls) <==> 2 * |calls| > n && calls[0].amount > fee
  {
    if n == 1 && |calls| == 1 { assert calls[0] in calls; }
  }

  lemma CallersAreFew(validators: seq<AccountId>, steps: seq<Step>, id: Bytes)
    ensures |Callers(validators, steps, id)| <= |validators|
  {
    CallersAreValidators(validators, steps, id);
    FewElements(validators);
    SubsetSize(Callers(validators, steps, id), Elements(validators));
  }

  /**
   With settings fixed and no validator voting twice for it, a mint is executed exactly when more than
   half of the validators called for it and the first call (for a single validator: its call) exceeds the fee.
   */
  lemma MintedByCallersIff(cfg: Config, s: State, steps: seq<Step>, id: Bytes)
    requires Inv(s) && Unknown(s, id) && SteadySettings(cfg, s, steps) && EachCallsOnce(s.validators, steps, id)
    ensures id in Run(cfg, s, steps).executedMints
            <==> 2 * |Callers(s.validators, steps, id)| > |s.validators|
                 && ValidatorCalls(s.validators, steps, id)[0].amount > s.depositFee
  {
    CallersAreFew(s.validators, steps, id);
    SufficeIff(|s.validators|, s.depositFee, ValidatorCalls(s.validators, steps, id));
    MintedIff(cfg, s, steps, id);
  }

  /** So any two executed mints have a validator who called for both. */
  lemma MintsShareACaller(cfg: Config, s: State, steps: seq<Step>, id: Bytes, other: Bytes)
    requires Inv(s) && Unknown(s, id) && Unknown(s, other) && SteadySettings(cfg, s, steps)
    requires EachCallsOnce(s.validators, steps, id) && EachCallsOnce(s.validators, steps, other)
    requires id in Run(cfg, s, steps).executedMints && other in Run(cfg, s, steps).executedMints
    ensures exists who ::
              who in Callers(s.validators, steps, id) && who in Callers(s.validators, steps, other)
  {
    MintedByCallersIff(cfg, s, steps, id);
    MintedByCallersIff(cfg, s, steps, other);
    CallersAreValidators(s.validators, steps, id);
    CallersAreValidators(s.validators, steps, other);
    ValidatorsMeet(s.validators, Callers(s.validators, steps, id), Callers(s.validators, steps, other));
  }

  /** A burn's round goes from empty to Ready in this run, unexpired, with one signature per key. */
  ghost predicate BecomesReady(cfg: Config, s: State, steps: seq<Step>, id: nat) {
    && id in s.burns && s.burns[id].signatures == [] && id in Run(cfg, s, steps).burns
    && Count(Run(cfg, s, steps).events, PalletEvents.BurnExpired(id)) == Count(s.events, PalletEvents.BurnExpired(id))
    && OneSignaturePerKey(BurnSubmissions(s.validators, steps, id, s.burns[id].target, s.burns[id].amount))
    && Count(Run(cfg, s, steps).events, BurnReady(id)) == Count(s.events, BurnReady(id)) + 1
  }

  /** Where every validator has one key, any two burns that become Ready have a key that signed both. */
  lemma ReadyBurnsShareAKey(cfg: Config, s: State, steps: seq<Step>, id: nat, other: nat, keys: set<Bytes>)
    requires Inv(s) && SteadyValidators(cfg, s, steps) && |keys| <= |s.validators|
    requires BecomesReady(cfg, s, steps, id) && BecomesReady(cfg, s, steps, other)
    requires Keys(BurnSubmissions(s.validators, steps, id, s.burns[id].target, s.burns[id].amount)) <= keys
    requires Keys(BurnSubmissions(s.validators, steps, other, s.burns[other].target, s.burns[other].amount)) <= keys
    ensures exists key ::
              && key in Keys(BurnSubmissions(s.validators, steps, id, s.burns[id].target, s.burns[id].amount))
              && key in Keys(BurnSubmissions(s.validators, steps, other, s.burns[other].target, s.burns[other].amount))
  {
    BurnReadyIffEnoughKeys(cfg, s, steps, id);
    BurnReadyIffEnoughKeys(cfg, s, steps, other);
    GroupsMeet(keys, Keys(BurnSubmissions(s.validators, steps, id, s.burns[id].target, s.burns[id].amount)),
               Keys(BurnSubmissions(s.validators, steps, other, s.burns[other].target, s.burns[other].amount)));
  }
}
