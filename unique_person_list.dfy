/**
 * The person list behind EduDex, as a sequence: at most one entry per identity, lookups by
 * identity (`contains`) and by strong equality (`indexOf`, `remove`), and the filtered view.
 */
module UniquePersons {
  import opened Wrappers
  import opened Persons

  /** No two entries satisfy `isSamePerson`. */
  ghost predicate Unique(ps: seq<Person>) {
    forall i, j :: 0 <= i < j < |ps| ==> !IsSamePerson(ps[i], Some(ps[j]))
  }

  /** `contains`: some entry has the same identity as `p`. */
  function Contains(ps: seq<Person>, p: Person): (b: bool)
    ensures b <==> exists i :: 0 <= i < |ps| && IsSamePerson(p, Some(ps[i]))
  {
    if ps == [] then false
    else IsSamePerson(p, Some(ps[0])) || Contains(ps[1..], p)
  }

  /** `indexOf`: the first position holding a person that `equals` `t`, or -1. */
  function IndexOf(ps: seq<Person>, t: Person): (k: int)
    ensures -1 <= k < |ps|
    ensures k >= 0 ==> Equals(ps[k], Some(t)) && forall j :: 0 <= j < k ==> !Equals(ps[j], Some(t))
    ensures k == -1 ==> forall j :: 0 <= j < |ps| ==> !Equals(ps[j], Some(t))
  {
    if ps == [] then -1
    else if Equals(ps[0], Some(t)) then 0
    else
      var k := IndexOf(ps[1..], t);
      if k == -1 then -1 else k + 1
  }

  function RemoveAt(ps: seq<Person>, k: nat): (r: seq<Person>)
    requires k < |ps|
    ensures |r| == |ps| - 1
    ensures forall j :: 0 <= j < k ==> r[j] == ps[j]
    ensures forall j :: k <= j < |r| ==> r[j] == ps[j + 1]
  {
    ps[..k] + ps[k + 1..]
  }

  /** A person present by strong equality is found by `indexOf`. */
  lemma IndexOfFinds(ps: seq<Person>, i: nat)
    requires i < |ps|
    ensures IndexOf(ps, ps[i]) >= 0
  {
  }

  /** Appending a person of a new identity keeps the list unique and makes it present. */
  lemma AddKeepsUnique(ps: seq<Person>, p: Person)
    requires Unique(ps) && !Contains(ps, p)
    ensures Unique(ps + [p]) && Contains(ps + [p], p)
  {
    var r := ps + [p];
    assert r[|ps|] == p;
    forall i, j | 0 <= i < j < |r| ensures !IsSamePerson(r[i], Some(r[j])) {
      if j == |ps| {
        assert r[i] == ps[i];
        assert !IsSamePerson(p, Some(ps[i]));
      }
    }
  }

  /**
   * Overwriting entry `k` keeps the list unique when the new person keeps the old identity,
   * or when no entry has the new identity.
   */
  lemma ReplaceKeepsUnique(ps: seq<Person>, k: nat, e: Person)
    requires Unique(ps) && k < |ps|
    requires IsSamePerson(ps[k], Some(e)) || !Contains(ps, e)
    ensures Unique(ps[k := e])
  {
    var r := ps[k := e];
    forall i, j | 0 <= i < j < |r| ensures !IsSamePerson(r[i], Some(r[j])) {
      if i == k {
        assert !IsSamePerson(e, Some(ps[j]));
      } else if j == k {
        assert !IsSamePerson(e, Some(ps[i]));
      }
    }
  }

  /** Removing an entry keeps the list unique, and no entry of the removed identity remains. */
  lemma RemoveKeepsUnique(ps: seq<Person>, k: nat)
    requires Unique(ps) && k < |ps|
    ensures Unique(RemoveAt(ps, k))
    ensures !Contains(RemoveAt(ps, k), ps[k])
  {
    var r := RemoveAt(ps, k);
    forall i, j | 0 <= i < j < |r| ensures !IsSamePerson(r[i], Some(r[j])) {
      var i' := if i < k then i else i + 1;
      var j' := if j < k then j else j + 1;
      assert r[i] == ps[i'] && r[j] == ps[j'] && i' < j';
    }
    forall i | 0 <= i < |r| ensures !IsSamePerson(ps[k], Some(r[i])) {
      var i' := if i < k then i else i + 1;
      assert r[i] == ps[i'];
    }
  }

  /** Java `List.equals` on two person lists: same length and pairwise `Person.equals`. */
  predicate ListEquals(a: seq<Person>, b: seq<Person>) {
    |a| == |b| && forall i :: 0 <= i < |a| ==> Equals(a[i], Some(b[i]))
  }

  /** List equality is an equivalence that identical sequences satisfy, but it ignores subjects. */
  lemma ListEqualsIsEquivalence(a: seq<Person>, b: seq<Person>, c: seq<Person>)
    ensures ListEquals(a, a)
    ensures ListEquals(a, b) ==> ListEquals(b, a)
    ensures ListEquals(a, b) && ListEquals(b, c) ==> ListEquals(a, c)
  {
  }

  // ---- the filtered view ----

  /** The entries satisfying `q`, in list order (JavaFX `FilteredList`). */
  function Filter(ps: seq<Person>, q: Person -> bool): (r: seq<Person>)
    ensures |r| <= |ps|
    ensures forall x :: x in r ==> x in ps && q(x)
    ensures forall i :: 0 <= i < |ps| && q(ps[i]) ==> ps[i] in r
  {
    if ps == [] then []
    else if q(ps[0]) then [ps[0]] + Filter(ps[1..], q)
    else Filter(ps[1..], q)
  }

  /** Filtering distributes over concatenation, so the view keeps the list's order. */
  lemma {:induction false} FilterConcat(a: seq<Person>, b: seq<Person>, q: Person -> bool)
    ensures Filter(a + b, q) == Filter(a, q) + Filter(b, q)
  {
    if a == [] {
      assert a + b == b;
    } else {
      assert (a + b)[0] == a[0];
      assert (a + b)[1..] == a[1..] + b;
      FilterConcat(a[1..], b, q);
    }
  }

  /** A predicate that accepts everyone shows the whole list. */
  lemma {:induction false} FilterAll(ps: seq<Person>, q: Person -> bool)
    requires forall p :: q(p)
    ensures Filter(ps, q) == ps
  {
    if ps != [] {
      FilterAll(ps[1..], q);
    }
  }
}
