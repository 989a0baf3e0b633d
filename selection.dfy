/** Id lists used as selections by the comparison and export dialogs:
    removing an id with `filter(id => id !== x)`, the absence of
    duplicates, and order-preserving sublists. */
module Selection {

  /** Scenario and premise ids. */
  type Id = string

  /** No id occurs twice. */
  predicate NoDuplicates(s: seq<Id>)
  {
    forall i, j :: 0 <= i < j < |s| ==> s[i] != s[j]
  }

  /** `a` is `b` with some elements dropped, order kept. */
  predicate IsSublist<T(==)>(a: seq<T>, b: seq<T>)
    decreases |b|
  {
    a == [] || (b != [] && ((a[0] == b[0] && IsSublist(a[1..], b[1..])) || IsSublist(a, b[1..])))
  }

  /** s.filter(y => y !== x) */
  function Without(s: seq<Id>, x: Id): (r: seq<Id>)
    ensures forall y :: y in r <==> y in s && y != x
    ensures x !in s ==> r == s
    ensures |r| <= |s|
    ensures multiset(r) == multiset(s)[x := 0]
    ensures IsSublist(r, s)
  {
    if s == [] then []
    else if s[0] == x then
      assert s == [s[0]] + s[1..];
      Without(s[1..], x)
    else
      assert s == [s[0]] + s[1..];
      [s[0]] + Without(s[1..], x)
  }

  /** Dropping elements keeps a list free of duplicates. */
  lemma {:induction false} SublistNoDuplicates(a: seq<Id>, b: seq<Id>)
    requires IsSublist(a, b) && NoDuplicates(b)
    ensures NoDuplicates(a)
    ensures forall y :: y in a ==> y in b
    decreases |b|
  {
    if a != [] {
      if a[0] == b[0] && IsSublist(a[1..], b[1..]) {
        SublistNoDuplicates(a[1..], b[1..]);
        assert a == [a[0]] + a[1..] && b == [b[0]] + b[1..];
        forall j | 0 < j < |a|
          ensures a[0] != a[j]
        {
          assert a[j] == a[1..][j - 1];
          assert a[j] in b[1..];
          var k :| 0 <= k < |b[1..]| && b[1..][k] == a[j];
          assert b[k + 1] == a[j];
        }
      } else {
        SublistNoDuplicates(a, b[1..]);
      }
    }
  }

  /** Removing an id keeps a list free of duplicates. */
  lemma {:induction false} WithoutNoDuplicates(s: seq<Id>, x: Id)
    requires NoDuplicates(s)
    ensures NoDuplicates(Without(s, x))
  {
    SublistNoDuplicates(Without(s, x), s);
  }

  /** Appending an id that is not there keeps a list free of duplicates,
      and removing it again gives the list back. */
  lemma {:induction false} AppendThenRemove(s: seq<Id>, x: Id)
    requires x !in s
    ensures NoDuplicates(s) ==> NoDuplicates(s + [x])
    ensures Without(s + [x], x) == s
    decreases |s|
  {
    if s == [] {
      assert [x][1..] == [];
    } else {
      assert (s + [x])[1..] == s[1..] + [x];
      AppendThenRemove(s[1..], x);
    }
  }
}
