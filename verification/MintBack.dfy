/** Withdrawals that cannot be paid out are minted back under `refund-<id>`: at most once each. */
module MintBack {
  import opened Wrappers
  import opened Collections
  import opened ValidatorList
  import opened Ledgers
  import opened PalletTypes
  import opened Signing
  import opened PalletSpec
  import opened PalletInvariant
  import opened MintRuns
  import opened Memo
  import BurnRuns
  import PalletEffects
  import PalletEvents
  import SignatureRounds

  /** Over any run a withdrawal is minted back at most once, and a call for it serves no other withdrawal. */
  lemma MintedBackAtMostOnce(cfg: Config, s: State, steps: seq<Step>, burnId: nat, other: nat)
    requires Inv(s) && RefundMintId(burnId) !in s.executedMints
    ensures CompletionsFor(cfg, s, steps, RefundMintId(burnId)) <= 1
    ensures burnId != other ==>
              forall i :: 0 <= i < |steps| && MintCallFor(steps[i], RefundMintId(burnId)) ==>
                !MintCallFor(steps[i], RefundMintId(other))
  {
    MintsExactlyOnce(cfg, s, steps, RefundMintId(burnId));
    if RefundMintId(burnId) == RefundMintId(other) {
      RefundMintIdsDiffer(burnId, other);
    }
  }

  /** Minting back never touches the mint of a deposit, whose id is a Stellar transaction hash. */
  lemma MintBackSparesDeposits(cfg: Config, s: State, step: Step, burnId: nat, hash: Bytes)
    requires Inv(s) && MintCallFor(step, RefundMintId(burnId)) && IsHexHash(hash)
    ensures SameMint(s, Next(cfg, s, step), hash)
  {
    RefundMintIdIsNoHash(burnId);
    MintStep(cfg, s, step, hash);
  }

  // ---- whether a withdrawal is minted back -------------------------------------------------------

  /**
   When a withdrawal is minted back, with validators and fee fixed: exactly when the validators' calls
   for it suffice. One accepted call, after which the caller closes the burn, need not be enough.
   */
  lemma MintedBackIff(cfg: Config, s: State, steps: seq<Step>, burnId: nat)
    requires Inv(s) && Unknown(s, RefundMintId(burnId)) && SteadySettings(cfg, s, steps)
    ensures RefundMintId(burnId) in Run(cfg, s, steps).executedMints
            <==> Suffice(|s.validators|, s.depositFee, ValidatorCalls(s.validators, steps, RefundMintId(burnId)))
  {
    MintedIff(cfg, s, steps, RefundMintId(burnId));
  }

  // ---- a burn that was minted back can still be paid -------------------------------------------

  /** A string longer than every key and every signature. */
  function Longest(sigs: seq<StellarSignature>): (long: Bytes)
    ensures forall i :: 0 <= i < |sigs| ==> |sigs[i].stellarPubKey| < |long| && |sigs[i].signature| < |long|
  {
    if sigs == [] then "x"
    else
      var last := sigs[|sigs| - 1];
      Longest(sigs[..|sigs| - 1]) + last.stellarPubKey + last.signature
  }

  function SignatureStep(who: AccountId, id: nat, target: Bytes, amount: u64, sig: StellarSignature): Step {
    Extrinsic(Signed(who), ProposeBurnOrAddSig(id, target, amount, sig, 1))
  }

  /**
   When a withdrawal can be signed and so paid: exactly while its burn is pending and the round is open,
   whatever was minted back.
   */
  lemma PayableWhileOpenIff(cfg: Config, s: State, id: nat, who: AccountId)
    requires Inv(s) && who in s.validators
    ensures (exists target: Bytes, amount: u64, sig: StellarSignature ::
               Accepted(cfg, s, SignatureStep(who, id, target, amount, sig)))
            <==> id in s.burns && |s.burns[id].signatures| != |s.validators| / 2 + 1
  {
    if id in s.burns && |s.burns[id].signatures| != |s.validators| / 2 + 1 {
      var tx, long := s.burns[id], Longest(s.burns[id].signatures);
      var sig := StellarSignature(long, long);
      assert Unseen(tx.signatures, sig);
      BurnRuns.SignatureAcceptedIff(cfg, s, SignatureStep(who, id, tx.target, tx.amount, sig), id);
      assert Accepted(cfg, s, SignatureStep(who, id, tx.target, tx.amount, sig));
    }
    forall target: Bytes, amount: u64, sig: StellarSignature |
      Accepted(cfg, s, SignatureStep(who, id, target, amount, sig))
      ensures id in s.burns && |s.burns[id].signatures| != |s.validators| / 2 + 1
    {
      BurnRuns.SignatureAcceptedIff(cfg, s, SignatureStep(who, id, target, amount, sig), id);
    }
  }

  /**
   Over any run in which a minted-back withdrawal stays open, its round does not expire and the
   validators stay: it is minted back and Ready to be paid as well if and only if a quorum of keys signs.
   */
  lemma MintedBackAndReadyIff(cfg: Config, s: State, steps: seq<Step>, id: nat)
    requires Inv(s) && RefundMintId(id) in s.executedMints
    requires id in s.burns && s.burns[id].signatures == [] && PalletEffects.SteadyValidators(cfg, s, steps)
    requires id in Run(cfg, s, steps).burns
    requires Count(Run(cfg, s, steps).events, PalletEvents.BurnExpired(id))
          == Count(s.events, PalletEvents.BurnExpired(id))
    requires OneSignaturePerKey(Submitted(s, steps, id))
    ensures var s' := Run(cfg, s, steps);
            && RefundMintId(id) in s'.executedMints
            && s'.executedMints[RefundMintId(id)] == s.executedMints[RefundMintId(id)]
            && (Count(s'.events, SignatureRounds.BurnReady(id)) == Count(s.events, SignatureRounds.BurnReady(id)) + 1
                <==> 2 * |Keys(Submitted(s, steps, id))| > |s.validators|)
  {
    ExecutedMintsAreFinal(cfg, s, steps, RefundMintId(id));
    SignatureRounds.BurnReadyIffEnoughKeys(cfg, s, steps, id);
  }

  function Submitted(s: State, steps: seq<Step>, id: nat): seq<StellarSignature>
    requires id in s.burns
  {
    SignatureRounds.BurnSubmissions(s.validators, steps, id, s.burns[id].target, s.burns[id].amount)
  }

  // ---- examples: 47 units to be withdrawn ---------------------------------------------------------

  function Rich(validators: seq<AccountId>): State {
    Genesis(validators, None, 3, 3, Ledger(map[3 := 100], map[]))
  }

  function Swapped(): Step { Extrinsic(Signed(3), SwapToStellar("G", 50)) }

  function ProposedBack(): Step { Extrinsic(Signed(1), ProposeOrVoteMint(RefundMintId(1), 3, 47)) }

  function SignedToo(): Step { SignatureStep(1, 1, "G", 47, StellarSignature("s", "k")) }

  function Closed(): Step { Extrinsic(Signed(1), SetBurnExecuted(1)) }

  /** One burn of 47 units, and a fee of 3. */
  ghost predicate OnlyBurn(s: State, validators: seq<AccountId>) {
    && s.burns == map[1 := BurnTransaction(0, 47, "G", [], 0)] && s.executedBurns == map[]
    && s.validators == validators && s.depositFee == 3
  }

  lemma SwapBurns(cfg: Config, validators: seq<AccountId>)
    requires cfg.existentialDeposit <= 1 && cfg.validKey("G")
    ensures var s := Next(cfg, Rich(validators), Swapped());
            OnlyBurn(s, validators) && s.mints == map[] && s.executedMints == map[]
  {
    var s := Next(cfg, Rich(validators), Swapped());
    assert s.burns == map[1 := BurnTransaction(0, 47, "G", [], 0)];
  }

  /** The call of validator 1 mints the withdrawal back if it is alone, and is one vote of two if it is not. */
  lemma CallKeepsBurn(cfg: Config, s: State, validators: seq<AccountId>)
    requires OnlyBurn(s, validators) && (validators == [1] || validators == [1, 2])
    requires s.mints == map[] && s.executedMints == map[]
    ensures var s', id := Next(cfg, s, ProposedBack()), RefundMintId(1);
            && OnlyBurn(s', validators)
            && if validators == [1] then id in s'.executedMints && s'.executedMints[id].amount == 47
               else s'.executedMints == map[] && id in s'.mints && s'.mints[id].votes == 1
  {
    MintStep(cfg, s, ProposedBack(), RefundMintId(1));
    MintAcceptedIff(cfg, s, ProposedBack());
    PalletEffects.ProposeMintEffect(cfg, s, 1, RefundMintId(1), 3, 47);
    PalletEffects.NextFrame(cfg, s, ProposedBack());
  }

  lemma SignatureCompletes(cfg: Config, s: State)
    requires OnlyBurn(s, [1])
    ensures var s' := Next(cfg, s, SignedToo());
            && 1 in s'.burns && s'.burns[1].amount == 47 && BurnTransactionReady(1) in s'.events
            && s'.executedMints == s.executedMints
  {
    BurnRuns.SignatureAcceptedIff(cfg, s, SignedToo(), 1);
    var s' := Next(cfg, s, SignedToo());
    assert s'.events[|s'.events| - 1] == BurnTransactionReady(1);
  }

  lemma ClosingCloses(cfg: Config, s: State, validators: seq<AccountId>)
    requires OnlyBurn(s, validators) && 1 in validators
    ensures var s' := Next(cfg, s, Closed());
            && 1 in s'.executedBurns && s'.executedBurns[1].amount == 47 && s'.executedBurns[1].signatures == []
            && s'.executedMints == s.executedMints && s'.mints == s.mints
  {
    PalletEffects.NextFrame(cfg, s, Closed());
  }

  lemma RunOfTwo(cfg: Config, s: State, a: Step, b: Step)
    ensures Run(cfg, s, [a, b]) == Next(cfg, Next(cfg, s, a), b)
  {
    assert [a, b][..1] == [a] && [a][..0] == [];
    assert Run(cfg, s, [a]) == Next(cfg, s, a);
  }

  lemma RunOfThree(cfg: Config, s: State, a: Step, b: Step, c: Step)
    ensures Run(cfg, s, [a, b, c]) == Next(cfg, Next(cfg, Next(cfg, s, a), b), c)
  {
    assert [a, b, c][..2] == [a, b];
    RunOfTwo(cfg, s, a, b);
  }

  /** Minted back and paid: account 3 has its 47 units back, less the fee, and its withdrawal is Ready all the same. */
  lemma MintedBackAndReady(cfg: Config)
    requires cfg.existentialDeposit <= 1 && cfg.validKey("G")
    ensures var s := Run(cfg, Rich([1]), [Swapped(), ProposedBack(), SignedToo()]);
            && RefundMintId(1) in s.executedMints && s.executedMints[RefundMintId(1)].amount == 47
            && 1 in s.burns && s.burns[1].amount == 47 && BurnTransactionReady(1) in s.events
  {
    SwapBurns(cfg, [1]);
    var s1 := Next(cfg, Rich([1]), Swapped());
    CallKeepsBurn(cfg, s1, [1]);
    SignatureCompletes(cfg, Next(cfg, s1, ProposedBack()));
    RunOfThree(cfg, Rich([1]), Swapped(), ProposedBack(), SignedToo());
  }

  /** Neither: an expired burn is given up. No signature is on it, nothing is minted, and its 47 units are gone. */
  lemma ClosedUnpaid(cfg: Config)
    requires cfg.existentialDeposit <= 1 && cfg.validKey("G")
    ensures var s := Run(cfg, Rich([1]), [Swapped(), Closed()]);
            && 1 in s.executedBurns && s.executedBurns[1].amount == 47 && s.executedBurns[1].signatures == []
            && s.executedMints == map[] && s.mints == map[]
  {
    SwapBurns(cfg, [1]);
    ClosingCloses(cfg, Next(cfg, Rich([1]), Swapped()), [1]);
    RunOfTwo(cfg, Rich([1]), Swapped(), Closed());
  }

  /**
   Neither: of two validators the first proposes the mint back and closes the burn. The mint back hangs at
   one vote, the burn is executed without a signature, and whoever comes later finds it closed.
   */
  lemma ClosedBeforeMintBack(cfg: Config)
    requires cfg.existentialDeposit <= 1 && cfg.validKey("G")
    ensures var s := Run(cfg, Rich([1, 2]), [Swapped(), ProposedBack(), Closed()]);
            && 1 in s.executedBurns && s.executedBurns[1].amount == 47 && s.executedBurns[1].signatures == []
            && s.executedMints == map[] && RefundMintId(1) in s.mints && s.mints[RefundMintId(1)].votes == 1
  {
    SwapBurns(cfg, [1, 2]);
    var s1 := Next(cfg, Rich([1, 2]), Swapped());
    CallKeepsBurn(cfg, s1, [1, 2]);
    ClosingCloses(cfg, Next(cfg, s1, ProposedBack()), [1, 2]);
    RunOfThree(cfg, Rich([1, 2]), Swapped(), ProposedBack(), Closed());
  }
}
