/**
 The validator list: a strictly sorted vector that is searched by bisection.
 `Inserted` and `Removed` are the list operations a finite set would have; the
 lemmas below show that the sorted vector is exactly that set.
 */
module ValidatorList {
  import opened Wrappers

  type AccountId = nat

  predicate StrictlySorted(v: seq<AccountId>) {
    forall i, j :: 0 <= i < j < |v| ==> v[i] < v[j]
  }

  function Elements(v: seq<AccountId>): set<AccountId> {
    set x | x in v
  }

  function Inserted(v: seq<AccountId>, x: AccountId): seq<AccountId> {
    if v == [] then [x]
    else if x < v[0] then [x] + v
    else [v[0]] + Inserted(v[1..], x)
  }

  function Removed(v: seq<AccountId>, x: AccountId): seq<AccountId> {
    if v == [] then []
    else if v[0] == x then v[1..]
    else [v[0]] + Removed(v[1..], x)
  }

  lemma {:induction false} InsertedElements(v: seq<AccountId>, x: AccountId)
    ensures forall y :: y in Inserted(v, x) <==> y in v || y == x
  {
    if v == [] || x < v[0] {
    } else {
      InsertedElements(v[1..], x);
      assert v == [v[0]] + v[1..];
    }
  }

  lemma {:induction false} InsertedSorted(v: seq<AccountId>, x: AccountId)
    requires StrictlySorted(v) && x !in v
    ensures StrictlySorted(Inserted(v, x))
  {
    if v == [] || x < v[0] {
    } else {
      InsertedSorted(v[1..], x);
      InsertedElements(v[1..], x);
      var t := Inserted(v[1..], x);
      forall j | 0 <= j < |t| ensures v[0] < t[j] {
        assert t[j] in t;
      }
    }
  }

  lemma {:induction false} RemovedElements(v: seq<AccountId>, x: AccountId)
    requires StrictlySorted(v)
    ensures forall y :: y in Removed(v, x) <==> y in v && y != x
    ensures StrictlySorted(Removed(v, x))
  {
    if v == [] {
    } else {
      assert v == [v[0]] + v[1..];
      if v[0] != x {
        RemovedElements(v[1..], x);
        var t := Removed(v[1..], x);
        forall j | 0 <= j < |t| ensures v[0] < t[j] {
          assert t[j] in t;
        }
      }
    }
  }

  /** A strictly sorted list is determined by its elements. */
  lemma {:induction false} SortedListsAreSets(a: seq<AccountId>, b: seq<AccountId>)
    requires StrictlySorted(a) && StrictlySorted(b)
    requires forall x :: x in a <==> x in b
    ensures a == b
  {
    assert a != [] ==> a[0] in b;
    assert b != [] ==> b[0] in a;
    if a == [] || b == [] {
    } else {
      assert a[0] == b[0];
      forall x ensures x in a[1..] <==> x in b[1..] {
        if x in a[1..] { assert x in a && x != a[0]; }
        if x in b[1..] { assert x in b && x != b[0]; }
      }
      SortedListsAreSets(a[1..], b[1..]);
      assert a == [a[0]] + a[1..] && b == [b[0]] + b[1..];
    }
  }

  /** Insertion and removal are set insertion and deletion, and keep the list sorted. */
  lemma ListRefinesSet(v: seq<AccountId>, x: AccountId)
    requires StrictlySorted(v)
    ensures x !in v ==> StrictlySorted(Inserted(v, x)) && Elements(Inserted(v, x)) == Elements(v) + {x}
    ensures StrictlySorted(Removed(v, x)) && Elements(Removed(v, x)) == Elements(v) - {x}
  {
    InsertedElements(v, x);
    RemovedElements(v, x);
    if x !in v {
      InsertedSorted(v, x);
    }
  }

  /** Removing a validator that was just added restores the identical list, and the reverse. */
  lemma AddRemoveRoundTrip(v: seq<AccountId>, x: AccountId)
    requires StrictlySorted(v)
    ensures x !in v ==> Removed(Inserted(v, x), x) == v
    ensures x in v ==> Inserted(Removed(v, x), x) == v
  {
    if x !in v {
      InsertedElements(v, x);
      InsertedSorted(v, x);
      RemovedElements(Inserted(v, x), x);
      SortedListsAreSets(Removed(Inserted(v, x), x), v);
    } else {
      RemovedElements(v, x);
      InsertedElements(Removed(v, x), x);
      InsertedSorted(Removed(v, x), x);
      SortedListsAreSets(Inserted(Removed(v, x), x), v);
    }
  }

  /** Bisection: `Success` carries the index of `x`, `Failure` the index where `x` belongs. */
  method BinarySearch(v: seq<AccountId>, x: AccountId) returns (r: Result<nat, nat>)
    requires StrictlySorted(v)
    ensures r.Success? ==> r.value < |v| && v[r.value] == x
    ensures r.Failure? ==> x !in v && r.error <= |v|
    ensures r.Failure? ==> forall i :: 0 <= i < |v| ==> (i < r.error <==> v[i] < x)
  {
    var left, right := 0, |v|;
    while left < right
      invariant left <= right <= |v|
      invariant forall i :: 0 <= i < left ==> v[i] < x
      invariant forall i :: right <= i < |v| ==> x < v[i]
    {
      var mid := left + (right - left) / 2;
      if v[mid] < x {
        left := mid + 1;
      } else if x < v[mid] {
        right := mid;
      } else {
        return Success(mid);
      }
    }
    return Failure(left);
  }

  /** Inserting at the index found by a failed search is sorted insertion. */
  lemma {:induction false} InsertAtIndex(v: seq<AccountId>, x: AccountId, at: nat)
    requires x !in v && at <= |v|
    requires forall i :: 0 <= i < |v| ==> (i < at <==> v[i] < x)
    ensures v[..at] + [x] + v[at..] == Inserted(v, x)
  {
    if at == 0 {
      assert v[..at] + [x] + v[at..] == [x] + v;
    } else {
      var t := v[1..];
      InsertAtIndex(t, x, at - 1);
      assert v[..at] + [x] + v[at..] == [v[0]] + (t[..at - 1] + [x] + t[at - 1..]);
    }
  }

  /** Deleting the index found by a successful search removes exactly that account. */
  lemma {:induction false} RemoveAtIndex(v: seq<AccountId>, at: nat)
    requires StrictlySorted(v) && at < |v|
    ensures v[..at] + v[at + 1..] == Removed(v, v[at])
  {
    if at == 0 {
    } else {
      var t := v[1..];
      RemoveAtIndex(t, at - 1);
      assert v[..at] + v[at + 1..] == [v[0]] + (t[..at - 1] + t[at..]);
    }
  }
}
