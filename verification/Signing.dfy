/**
 Collecting validator signatures for one outgoing Stellar payment, as burns and refunds
 both do: at most `quorum` signatures, pairwise different in key and in signature.
 */
module Signing {
  import opened Wrappers
  import opened PalletTypes

  datatype Rejection = EnoughPresent | AlreadyPresent

  predicate KeySeen(sigs: seq<StellarSignature>, key: Bytes) {
    exists i :: 0 <= i < |sigs| && sigs[i].stellarPubKey == key
  }

  predicate SignatureSeen(sigs: seq<StellarSignature>, signature: Bytes) {
    exists i :: 0 <= i < |sigs| && sigs[i].signature == signature
  }

  predicate Unseen(sigs: seq<StellarSignature>, sig: StellarSignature) {
    !KeySeen(sigs, sig.stellarPubKey) && !SignatureSeen(sigs, sig.signature)
  }

  predicate PairwiseDistinct(sigs: seq<StellarSignature>) {
    forall i, j :: 0 <= i < j < |sigs| ==>
      sigs[i].stellarPubKey != sigs[j].stellarPubKey && sigs[i].signature != sigs[j].signature
  }

  function AddSignature(quorum: nat, sigs: seq<StellarSignature>, sig: StellarSignature)
    : Result<seq<StellarSignature>, Rejection>
  {
    if |sigs| == quorum then Failure(EnoughPresent)
    else if Unseen(sigs, sig) then Success(sigs + [sig])
    else Failure(AlreadyPresent)
  }

  /** Exactly the submissions whose key and signature are both new among those taken before. */
  function FirstOccurrences(subs: seq<StellarSignature>): seq<StellarSignature> {
    if subs == [] then []
    else
      var taken := FirstOccurrences(subs[..|subs| - 1]);
      var last := subs[|subs| - 1];
      if Unseen(taken, last) then taken + [last] else taken
  }

  function Take<T>(s: seq<T>, n: nat): seq<T> {
    if n <= |s| then s[..n] else s
  }

  /** What a round that starts empty holds after the given submissions. */
  function Round(quorum: nat, subs: seq<StellarSignature>): seq<StellarSignature> {
    Take(FirstOccurrences(subs), quorum)
  }

  /** The round is reproduced submission by submission by the acceptance rule. */
  lemma RoundStep(quorum: nat, subs: seq<StellarSignature>, sig: StellarSignature)
    requires 0 < quorum
    ensures |Round(quorum, subs)| <= quorum
    ensures match AddSignature(quorum, Round(quorum, subs), sig)
            case Success(sigs) => Round(quorum, subs + [sig]) == sigs
            case Failure(_) => Round(quorum, subs + [sig]) == Round(quorum, subs)
  {
    assert (subs + [sig])[..|subs|] == subs;
    var taken := FirstOccurrences(subs);
    if |taken| >= quorum {
      assert Round(quorum, subs) == taken[..quorum];
      assert (taken + [sig])[..quorum] == taken[..quorum];
    } else {
      assert Round(quorum, subs) == taken;
    }
  }

  ghost function Keys(subs: seq<StellarSignature>): set<Bytes> {
    set s | s in subs :: s.stellarPubKey
  }

  /** Every key signs one message, so a key always comes with the same signature and conversely. */
  ghost predicate OneSignaturePerKey(subs: seq<StellarSignature>) {
    forall s, t :: s in subs && t in subs ==> (s.stellarPubKey == t.stellarPubKey <==> s.signature == t.signature)
  }

  lemma {:induction false} FirstOccurrencesAreDistinct(subs: seq<StellarSignature>)
    ensures PairwiseDistinct(FirstOccurrences(subs))
    ensures forall s :: s in FirstOccurrences(subs) ==> s in subs
  {
    if subs == [] {
    } else {
      FirstOccurrencesAreDistinct(subs[..|subs| - 1]);
    }
  }

  /** Nothing is turned away without a reason: its key or its signature is already present. */
  lemma {:induction false} RejectedWereSeen(subs: seq<StellarSignature>, i: nat)
    requires i < |subs|
    ensures !Unseen(FirstOccurrences(subs), subs[i])
  {
    var front, last := subs[..|subs| - 1], subs[|subs| - 1];
    var taken := FirstOccurrences(front);
    if i < |front| {
      RejectedWereSeen(front, i);
      assert front[i] == subs[i];
    }
    if Unseen(taken, last) {
      assert forall j :: 0 <= j < |taken| ==> (taken + [last])[j] == taken[j];
      assert (taken + [last])[|taken|] == last;
    }
  }

  lemma {:induction false} DistinctKeyCount(sigs: seq<StellarSignature>)
    requires PairwiseDistinct(sigs)
    ensures |Keys(sigs)| == |sigs|
  {
    if sigs == [] {
    } else {
      var front, last := sigs[..|sigs| - 1], sigs[|sigs| - 1];
      assert sigs == front + [last];
      DistinctKeyCount(front);
      assert Keys(sigs) == Keys(front) + {last.stellarPubKey};
      assert last.stellarPubKey !in Keys(front);
    }
  }

  /**
   When keys and signatures pair one to one, a round completes if and only if at least
   `quorum` different keys were submitted: in any order and with any repetitions.
   */
  lemma RoundCompletesIffEnoughKeys(quorum: nat, subs: seq<StellarSignature>)
    requires OneSignaturePerKey(subs)
    ensures |Round(quorum, subs)| == quorum <==> |Keys(subs)| >= quorum
    ensures |Round(quorum, subs)| == if |Keys(subs)| <= quorum then |Keys(subs)| else quorum
  {
    var taken := FirstOccurrences(subs);
    FirstOccurrencesAreDistinct(subs);
    DistinctKeyCount(taken);
    forall i | 0 <= i < |subs| ensures subs[i].stellarPubKey in Keys(taken) {
      RejectedWereSeen(subs, i);
      var j :| 0 <= j < |taken| &&
               (taken[j].stellarPubKey == subs[i].stellarPubKey || taken[j].signature == subs[i].signature);
      assert taken[j] in subs && subs[i] in subs;
    }
    assert Keys(taken) == Keys(subs);
  }
}
