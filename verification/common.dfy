/** Small building blocks shared by every module of the model: an optional
    value and order-preserving filtering of sequences. */
module Common {

  /** An optional value: `undefined` / absent fields and `Array.find` misses
      on the TypeScript side. */
  datatype Option<+T> = None | Some(value: T)

  /** `r` can be obtained from `s` by deleting elements, without reordering
      the ones that remain. */
  ghost predicate IsSubsequence<T>(r: seq<T>, s: seq<T>)
    decreases |s|
  {
    if r == [] then true
    else if s == [] then false
    else if r[0] == s[0] then IsSubsequence(r[1..], s[1..])
    else IsSubsequence(r, s[1..])
  }

  /** The elements of `s` that satisfy `keep`, in their original order,
      as `Array.prototype.filter` returns them. */
  function Filter<T(!new)>(keep: T -> bool, s: seq<T>): (r: seq<T>)
    ensures |r| <= |s|
    ensures forall i :: 0 <= i < |r| ==> keep(r[i])
    ensures forall y {:trigger multiset(r)[y]} :: multiset(r)[y] == if keep(y) then multiset(s)[y] else 0
    ensures forall i :: 0 <= i < |r| ==> r[i] in s
    ensures forall i :: 0 <= i < |s| && keep(s[i]) ==> s[i] in r
    ensures (forall i :: 0 <= i < |s| ==> keep(s[i])) ==> r == s
    ensures IsSubsequence(r, s)
  {
    if s == [] then []
    else
      var rest := Filter(keep, s[1..]);
      assert multiset(s) == multiset{s[0]} + multiset(s[1..]) by {
        assert s == [s[0]] + s[1..];
      }
      var r := if keep(s[0]) then [s[0]] + rest else rest;
      assert multiset([s[0]] + rest) == multiset{s[0]} + multiset(rest);
      KeptCountsGiveMembership(keep, r, s);
      r
  }

  /** The test and membership in both directions follow from the element counts of a
      filtered sequence. */
  lemma KeptCountsGiveMembership<T(!new)>(keep: T -> bool, r: seq<T>, s: seq<T>)
    requires forall y {:trigger multiset(r)[y]} :: multiset(r)[y] == if keep(y) then multiset(s)[y] else 0
    ensures forall i :: 0 <= i < |r| ==> keep(r[i])
    ensures forall i :: 0 <= i < |r| ==> r[i] in s
    ensures forall i :: 0 <= i < |s| && keep(s[i]) ==> s[i] in r
  {
    forall i | 0 <= i < |r|
      ensures keep(r[i]) && r[i] in s
    {
      assert r[i] in multiset(r);
    }
    forall i | 0 <= i < |s| && keep(s[i])
      ensures s[i] in r
    {
      assert s[i] in multiset(s);
      assert multiset(r)[s[i]] == multiset(s)[s[i]];
    }
  }

  /** Filtering commutes with concatenation: each part is filtered on its own. */
  lemma {:induction false} FilterAppend<T(!new)>(keep: T -> bool, a: seq<T>, b: seq<T>)
    ensures Filter(keep, a + b) == Filter(keep, a) + Filter(keep, b)
    decreases |a|
  {
    if a == [] {
      assert a + b == b;
    } else {
      assert (a + b)[1..] == a[1..] + b;
      FilterAppend(keep, a[1..], b);
    }
  }

  /** Deletes every occurrence of `x`, keeping the rest in order. */
  function Remove<T(==,!new)>(s: seq<T>, x: T): (r: seq<T>)
    ensures x !in r
    ensures forall i :: 0 <= i < |r| ==> r[i] in s
    ensures forall i :: 0 <= i < |s| && s[i] != x ==> s[i] in r
    ensures x !in s ==> r == s
    ensures IsSubsequence(r, s)
    ensures forall y :: y != x ==> multiset(r)[y] == multiset(s)[y]
  {
    Filter(y => y != x, s)
  }

  /** Removing from a concatenation removes from each part. */
  lemma RemoveAppend<T(!new)>(a: seq<T>, b: seq<T>, x: T)
    ensures Remove(a + b, x) == Remove(a, x) + Remove(b, x)
  {
    FilterAppend(y => y != x, a, b);
  }

  function Min(a: int, b: int): (m: int)
    ensures m <= a && m <= b
    ensures m == a || m == b
  {
    if a <= b then a else b
  }
}
