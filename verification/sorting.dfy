/** The id sort applied to both sequences before they are compared:
    `sort((a, b) => a.id > b.id ? 1 : -1)`. */
module Sorting {
  import opened Entities

  /** The script's comparator. It never answers 0: for equal ids it claims
      `a` comes first whichever way round it is asked. */
  function Compare(a: Entity, b: Entity): int
  {
    if a.id > b.id then 1 else -1
  }

  predicate SortedById(s: seq<Entity>)
  {
    forall i, j :: 0 <= i < j < |s| ==> s[i].id <= s[j].id
  }

  /** `sorted` is an ordering of `s` that is non-decreasing by id. Nothing is
      said about the order of entities with equal ids. */
  predicate IsIdSorting(s: seq<Entity>, sorted: seq<Entity>)
  {
    multiset(sorted) == multiset(s) && SortedById(sorted)
  }

  /** The ids of a sequence, in order. */
  function Ids(s: seq<Entity>): seq<int>
  {
    seq(|s|, i requires 0 <= i < |s| => s[i].id)
  }

  /** Places `x` before the first element the comparator does not put it after. */
  function Insert(x: Entity, s: seq<Entity>): (r: seq<Entity>)
    requires SortedById(s)
    ensures SortedById(r)
    ensures multiset(r) == multiset(s) + multiset{x}
    ensures |r| > 0 && (r[0] == x || (|s| > 0 && r[0] == s[0]))
  {
    if |s| == 0 then [x]
    else if Compare(x, s[0]) > 0 then
      var rest := Insert(x, s[1..]);
      assert s == [s[0]] + s[1..];
      assert multiset(s) == multiset{s[0]} + multiset(s[1..]);
      PrependSorted(s[0], rest);
      [s[0]] + rest
    else
      PrependSorted(x, s);
      [x] + s
  }

  lemma PrependSorted(y: Entity, s: seq<Entity>)
    requires SortedById(s)
    requires |s| > 0 ==> y.id <= s[0].id
    ensures SortedById([y] + s)
  {
  }

  /** The model's choice of sort: insertion sort driven by `Compare`. Any
      ordering allowed by `IsIdSorting` could stand in its place; the lemmas
      about the differ and the decision are stated for all of them. */
  function SortById(s: seq<Entity>): (r: seq<Entity>)
    ensures IsIdSorting(s, r)
  {
    if |s| == 0 then []
    else
      assert s == [s[0]] + s[1..];
      Insert(s[0], SortById(s[1..]))
  }

  /** Sorting an id-sorted sequence changes nothing, so sorting twice is
      sorting once. */
  lemma {:induction false} SortByIdOfSorted(s: seq<Entity>)
    requires SortedById(s)
    ensures SortById(s) == s
  {
    if |s| > 0 {
      var tail := s[1..];
      assert SortedById(tail) by {
        forall i, j | 0 <= i < j < |tail|
          ensures tail[i].id <= tail[j].id
        {
          assert tail[i] == s[i + 1] && tail[j] == s[j + 1];
        }
      }
      SortByIdOfSorted(tail);
      assert SortById(s) == Insert(s[0], tail);
      if |tail| > 0 {
        assert s[0].id <= s[1].id;
        assert Compare(s[0], tail[0]) < 0;
      }
      assert [s[0]] + tail == s;
    }
  }

  lemma SortByIdIdempotent(s: seq<Entity>)
    ensures SortById(SortById(s)) == SortById(s)
  {
    SortByIdOfSorted(SortById(s));
  }

  lemma IdsConcat(p: seq<Entity>, q: seq<Entity>)
    ensures Ids(p + q) == Ids(p) + Ids(q)
  {
  }

  /** Permuting entities permutes their ids. */
  lemma {:induction false} IdsPermutation(a: seq<Entity>, b: seq<Entity>)
    requires multiset(a) == multiset(b)
    ensures multiset(Ids(a)) == multiset(Ids(b))
    decreases |a|
  {
    if |a| == 0 {
      assert |b| == |multiset(b)| == 0;
    } else {
      var x := a[0];
      assert x in multiset(b);
      var j :| 0 <= j < |b| && b[j] == x;
      var b' := b[..j] + b[j + 1..];
      RemoveOne(a, b, j);
      IdsPermutation(a[1..], b');
      IdsSplit(a, b, j);
    }
  }

  /** The ids of `a` are its first id followed by the rest; those of `b` are
      split around position `j` the same way. */
  lemma IdsSplit(a: seq<Entity>, b: seq<Entity>, j: nat)
    requires |a| > 0 && j < |b| && b[j] == a[0]
    requires multiset(Ids(a[1..])) == multiset(Ids(b[..j] + b[j + 1..]))
    ensures multiset(Ids(a)) == multiset(Ids(b))
  {
    var x := a[0];
    assert a == [x] + a[1..];
    assert b == b[..j] + [x] + b[j + 1..];
    IdsConcat([x], a[1..]);
    IdsConcat(b[..j] + [x], b[j + 1..]);
    IdsConcat(b[..j], [x]);
    IdsConcat(b[..j], b[j + 1..]);
    assert Ids([x]) == [x.id];
  }

  /** Removing the first element of `a` and an equal element of `b` keeps the
      two sequences permutations of each other. */
  lemma RemoveOne(a: seq<Entity>, b: seq<Entity>, j: nat)
    requires multiset(a) == multiset(b) && |a| > 0 && j < |b| && b[j] == a[0]
    ensures multiset(a[1..]) == multiset(b[..j] + b[j + 1..])
  {
    assert a == [a[0]] + a[1..];
    assert b == b[..j] + [b[j]] + b[j + 1..];
    assert multiset(a[1..]) == multiset(a) - multiset{a[0]};
    assert multiset(b[..j] + b[j + 1..]) == multiset(b) - multiset{b[j]};
  }

  /** Two non-decreasing integer sequences with the same elements are equal. */
  lemma {:induction false} SortedIntsUnique(a: seq<int>, b: seq<int>)
    requires forall i, j :: 0 <= i < j < |a| ==> a[i] <= a[j]
    requires forall i, j :: 0 <= i < j < |b| ==> b[i] <= b[j]
    requires multiset(a) == multiset(b)
    ensures a == b
    decreases |a|
  {
    if |a| == 0 {
      assert |b| == |multiset(b)| == 0;
    } else {
      assert |b| == |multiset(b)| == |multiset(a)| == |a|;
      SortedHeadIsLeast(a, b[0]);
      SortedHeadIsLeast(b, a[0]);
      TailsPermutation(a, b);
      SortedIntsUnique(a[1..], b[1..]);
      assert a == [a[0]] + a[1..];
      assert b == [b[0]] + b[1..];
    }
  }

  /** The head of a non-decreasing sequence is at most each of its elements. */
  lemma SortedHeadIsLeast(a: seq<int>, x: int)
    requires forall i, j :: 0 <= i < j < |a| ==> a[i] <= a[j]
    requires x in multiset(a)
    ensures a[0] <= x
  {
    var k :| 0 <= k < |a| && a[k] == x;
  }

  lemma TailsPermutation(a: seq<int>, b: seq<int>)
    requires |a| > 0 && |b| > 0 && a[0] == b[0] && multiset(a) == multiset(b)
    ensures multiset(a[1..]) == multiset(b[1..])
  {
    assert a == [a[0]] + a[1..];
    assert b == [b[0]] + b[1..];
    assert multiset(a[1..]) == multiset(a) - multiset{a[0]};
    assert multiset(b[1..]) == multiset(b) - multiset{b[0]};
  }

  /** Whatever tie order a sort picks, every id-sorting of the same input has
      the same id at every position; only the order of entities sharing an id
      can differ. */
  lemma IdSortingsAgreeOnIds(s: seq<Entity>, a: seq<Entity>, b: seq<Entity>)
    requires IsIdSorting(s, a) && IsIdSorting(s, b)
    ensures Ids(a) == Ids(b)
  {
    IdsPermutation(a, b);
    SortedIntsUnique(Ids(a), Ids(b));
  }

  /** With strictly ascending ids an id-sorting is unique: the sort is then
      fully determined. */
  lemma IdSortingUnique(s: seq<Entity>, a: seq<Entity>, b: seq<Entity>)
    requires IsIdSorting(s, a) && IsIdSorting(s, b)
    requires forall i, j :: 0 <= i < j < |a| ==> a[i].id < a[j].id
    ensures a == b
  {
    IdSortingsAgreeOnIds(s, a, b);
    assert |a| == |multiset(a)| == |multiset(b)| == |b|;
    forall i | 0 <= i < |a|
      ensures a[i] == b[i]
    {
      assert Ids(a)[i] == Ids(b)[i];
      assert a[i] in multiset(b);
      var j :| 0 <= j < |b| && b[j] == a[i];
      assert Ids(a)[j] == Ids(b)[j] == a[i].id;
    }
  }
}
