/** Identifiers, optional values, results and lookups on id columns,
    shared by every model and route module. */
module Common {

  /** A document id (a MongoDB ObjectId). The store hands out fresh ones. */
  type Id = nat

  /** The id of an authenticated user (`req.user._id`). */
  type UserId = nat

  datatype Option<+T> = None | Some(value: T) {
    function GetOr(default: T): T {
      match this
      case Some(v) => v
      case None => default
    }
  }

  datatype Result<+T, +E> = Ok(value: T) | Err(error: E)

  /** Positions `i` and `j` of a column hold different ids. The pair is named
      so that `Distinct` is only instantiated on pairs a proof asks about. */
  predicate Apart(s: seq<Id>, i: int, j: int)
    requires 0 <= i < |s| && 0 <= j < |s|
  {
    s[i] != s[j]
  }

  /** No id occurs twice: what a unique index on `_id` guarantees. */
  predicate Distinct(s: seq<Id>) {
    forall i, j :: 0 <= i < j < |s| ==> Apart(s, i, j)
  }

  /** Any two positions of a column without duplicates differ. */
  lemma DistinctAt(s: seq<Id>, i: nat, j: nat)
    requires Distinct(s) && i < |s| && j < |s| && i != j
    ensures s[i] != s[j]
  {
    if i < j { assert Apart(s, i, j); } else { assert Apart(s, j, i); }
  }

  /** A fresh id keeps a column free of duplicates. */
  lemma DistinctAppend(s: seq<Id>, x: Id)
    requires Distinct(s) && x !in s
    ensures Distinct(s + [x])
  {
    forall i, j | 0 <= i < j < |s| + 1 ensures Apart(s + [x], i, j) {
      if j < |s| {
        assert Apart(s, i, j);
      } else {
        assert s[i] in s;
      }
    }
  }

  /** The position of the first occurrence of `x`, the way a lookup on an id
      column answers. */
  function IndexOf(s: seq<Id>, x: Id): (r: Option<nat>)
    ensures r.Some? ==> r.value < |s| && s[r.value] == x
    ensures r.None? <==> x !in s
  {
    if s == [] then None
    else if s[0] == x then Some(0)
    else
      assert s == [s[0]] + s[1..];
      match IndexOf(s[1..], x)
      case None => None
      case Some(k) => Some(k + 1)
  }

  /** The lookup answers the first occurrence. */
  lemma {:induction false} IndexOfFirst(s: seq<Id>, x: Id)
    requires x in s
    ensures forall i :: 0 <= i < IndexOf(s, x).value ==> s[i] != x
  {
    if s[0] != x {
      assert s == [s[0]] + s[1..];
      IndexOfFirst(s[1..], x);
    }
  }

  /** On a column without duplicates the lookup finds the one position holding `x`. */
  lemma IndexOfDistinct(s: seq<Id>, i: nat)
    requires Distinct(s) && i < |s|
    ensures IndexOf(s, s[i]) == Some(i)
  {
    var r := IndexOf(s, s[i]);
    assert s[i] in s;
    if r.value != i {
      DistinctAt(s, r.value, i);
    }
  }

  /** Appending a new id does not move the ones already there. */
  lemma {:induction false} IndexOfAppend(s: seq<Id>, y: Id, x: Id)
    requires x in s
    ensures IndexOf(s + [y], x) == IndexOf(s, x)
  {
    assert s != [];
    if s[0] != x {
      assert (s + [y])[1..] == s[1..] + [y];
      assert x in s[1..] by { assert s == [s[0]] + s[1..]; }
      IndexOfAppend(s[1..], y, x);
    }
  }

  /** A freshly appended id is found at the end. */
  lemma {:induction false} IndexOfAppendNew(s: seq<Id>, y: Id)
    requires y !in s
    ensures IndexOf(s + [y], y) == Some(|s|)
  {
    if s != [] {
      assert (s + [y])[1..] == s[1..] + [y];
      assert y !in s[1..] by { assert s == [s[0]] + s[1..]; }
      IndexOfAppendNew(s[1..], y);
    }
  }
}
