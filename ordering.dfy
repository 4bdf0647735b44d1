/** The newest-first order in which findAll and findByAccountId list
    records: a comparator on createdAt, reversed. */
module Ordering {
  import opened TransactionModel

  /** Newest first: createdAt never increases along the list. */
  predicate SortedDesc(s: seq<Txn>) {
    forall i, j :: 0 <= i < j < |s| ==> CreatedAt(s[i]) >= CreatedAt(s[j])
  }

  /** Inserts x in front of the first element that is strictly older, so x
      precedes every element of equal createdAt: the sort is stable. */
  function InsertDesc(x: Txn, s: seq<Txn>): (r: seq<Txn>)
    requires SortedDesc(s)
    ensures SortedDesc(r)
    ensures multiset(r) == multiset(s) + multiset{x}
    ensures |r| == |s| + 1
    ensures r[0] == x || (s != [] && r[0] == s[0])
  {
    if s == [] || CreatedAt(x) >= CreatedAt(s[0]) then [x] + s
    else
      var rest := InsertDesc(x, s[1..]);
      assert s == [s[0]] + s[1..];
      assert forall j :: 0 <= j < |rest| ==> CreatedAt(rest[j]) <= CreatedAt(rest[0]);
      [s[0]] + rest
  }

  /** Stream.sorted with the newest-first comparator: a stable insertion sort. */
  function SortDesc(s: seq<Txn>): (r: seq<Txn>)
    ensures SortedDesc(r)
    ensures multiset(r) == multiset(s)
    ensures |r| == |s|
  {
    if s == [] then []
    else
      assert s == [s[0]] + s[1..];
      InsertDesc(s[0], SortDesc(s[1..]))
  }

  /** A list that is already newest-first comes back unchanged. */
  lemma {:induction false} SortDescOfSorted(s: seq<Txn>)
    requires SortedDesc(s)
    ensures SortDesc(s) == s
  {
    if s != [] {
      SortDescOfSorted(s[1..]);
    }
  }

  /** Newest first in a[..hi + 1], except that a[j] may be newer than the
      elements before it: the state while a[j] moves to its place. */
  predicate SortedExcept(s: seq<Txn>, hi: int, j: int)
    requires 0 <= j <= hi < |s|
  {
    && (forall p, q :: 0 <= p < q <= hi && q != j ==> CreatedAt(s[p]) >= CreatedAt(s[q]))
    && (0 < j < hi ==> CreatedAt(s[j - 1]) >= CreatedAt(s[j + 1]))
  }

  /** Exchanges a[j - 1] and a[j]. */
  method Swap(a: array<Txn>, j: int)
    requires 0 < j < a.Length
    modifies a
    ensures a[..] == old(a[..])[j - 1 := old(a[j])][j := old(a[j - 1])]
    ensures multiset(a[..]) == multiset(old(a[..]))
  {
    a[j - 1], a[j] := a[j], a[j - 1];
  }

  /** Moving a newer a[j] one place to the left keeps the insertion state. */
  lemma SwapStep(s: seq<Txn>, hi: int, j: int)
    requires 0 < j <= hi < |s|
    requires SortedExcept(s, hi, j)
    requires CreatedAt(s[j - 1]) < CreatedAt(s[j])
    ensures SortedExcept(s[j - 1 := s[j]][j := s[j - 1]], hi, j - 1)
  {
  }

  /** List.sort on the copied list, in place: an insertion sort by adjacent
      swaps. */
  method SortInPlace(a: array<Txn>)
    modifies a
    ensures SortedDesc(a[..])
    ensures multiset(a[..]) == multiset(old(a[..]))
  {
    if a.Length == 0 {
      return;
    }
    var i := 1;
    while i < a.Length
      invariant 1 <= i <= a.Length
      invariant SortedDesc(a[..i])
      invariant multiset(a[..]) == multiset(old(a[..]))
    {
      var j := i;
      assert SortedExcept(a[..], i, j);
      while j > 0 && CreatedAt(a[j - 1]) < CreatedAt(a[j])
        invariant 0 <= j <= i < a.Length
        invariant SortedExcept(a[..], i, j)
        invariant multiset(a[..]) == multiset(old(a[..]))
      {
        SwapStep(a[..], i, j);
        Swap(a, j);
        j := j - 1;
      }
      i := i + 1;
    }
  }
}
