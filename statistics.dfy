/** getStatistics: record count, exact amount sum, counts per transaction type
    and per status, and the HALF_UP average, computed from a snapshot of the
    store. */
module Statistics {
  import opened Wrappers
  import opened Exceptions
  import opened Collections
  import opened TransactionModel

  // ---------------------------------------------------------------------------
  // Sum and average
  // ---------------------------------------------------------------------------

  /** reduce(BigDecimal.ZERO, BigDecimal::add), left to right. */
  function Sum(amounts: seq<real>): real {
    if amounts == [] then 0.0 else Sum(amounts[..|amounts| - 1]) + amounts[|amounts| - 1]
  }

  /** divide(n, 2, ROUND_HALF_UP): x to two fraction digits, as a count of
      hundredths, with halves rounded away from zero. */
  function RoundHalfUp(x: real): (r: int)
    ensures x >= 0.0 ==> r >= 0
  {
    if x >= 0.0 then (x * 100.0 + 0.5).Floor else -((-x * 100.0 + 0.5).Floor)
  }

  /** The rounded value is within half a hundredth of x. */
  lemma RoundHalfUpIsNearest(x: real)
    ensures -0.5 <= RoundHalfUp(x) as real - x * 100.0 <= 0.5
  {
  }

  /** A value that already has two fraction digits is unchanged. */
  lemma RoundHalfUpExact(n: int)
    ensures RoundHalfUp(n as real / 100.0) == n
  {
    if n < 0 {
      assert -(n as real / 100.0) * 100.0 + 0.5 == (-n) as real + 0.5;
    } else {
      assert (n as real / 100.0) * 100.0 + 0.5 == n as real + 0.5;
    }
  }

  /** A half hundredth rounds away from zero, on both sides. */
  lemma RoundHalfUpTiesAwayFromZero(n: nat)
    ensures RoundHalfUp((n as real + 0.5) / 100.0) == n + 1
    ensures RoundHalfUp(-(n as real + 0.5) / 100.0) == -(n + 1)
  {
    assert ((n as real + 0.5) / 100.0) * 100.0 + 0.5 == (n + 1) as real;
    assert (-(-(n as real + 0.5) / 100.0)) * 100.0 + 0.5 == (n + 1) as real;
  }

  /** HALF_UP is symmetric about zero. */
  lemma RoundHalfUpOdd(x: real)
    ensures RoundHalfUp(-x) == -RoundHalfUp(x)
  {
    if x == 0.0 {
      assert RoundHalfUp(0.0) == 0 by {
        assert 0.0 * 100.0 + 0.5 == 0.5;
      }
    }
  }

  /** averageAmount: the Integer 0 for an empty store, otherwise a BigDecimal
      of scale 2, given by its count of hundredths. */
  datatype Average = IntegerZero | Hundredths(value: int)

  // ---------------------------------------------------------------------------
  // Group counts
  // ---------------------------------------------------------------------------

  function Count(values: seq<string>, k: string): nat {
    if values == [] then 0
    else Count(values[..|values| - 1], k) + (if values[|values| - 1] == k then 1 else 0)
  }

  /** groupingBy(key, counting()) over non-null keys, visiting the values in
      order. */
  function CountBy(values: seq<string>): map<string, int> {
    if values == [] then map[]
    else
      var m := CountBy(values[..|values| - 1]);
      var x := values[|values| - 1];
      m[x := (if x in m then m[x] else 0) + 1]
  }

  /** Each value that occurs is a key, mapped to its number of occurrences. */
  lemma {:induction false} CountByCounts(values: seq<string>, k: string)
    ensures k in CountBy(values) <==> Count(values, k) > 0
    ensures k in CountBy(values) ==> CountBy(values)[k] == Count(values, k)
  {
    if values != [] {
      CountByCounts(values[..|values| - 1], k);
    }
  }

  lemma {:induction false} CountPositiveIffOccurs(values: seq<string>, k: string)
    ensures Count(values, k) > 0 <==> k in values
  {
    if values != [] {
      var prefix := values[..|values| - 1];
      assert values == prefix + [values[|values| - 1]];
      CountPositiveIffOccurs(prefix, k);
    }
  }

  /** The keys are exactly the values that occur. */
  lemma CountByKeys(values: seq<string>)
    ensures forall k :: k in CountBy(values) <==> k in values
  {
    forall k ensures k in CountBy(values) <==> k in values {
      CountByCounts(values, k);
      CountPositiveIffOccurs(values, k);
    }
  }

  /** The sum of m's values over the keys in order. */
  function SumOver(order: seq<string>, m: map<string, int>): int
    requires forall i :: 0 <= i < |order| ==> order[i] in m
  {
    if order == [] then 0 else m[order[0]] + SumOver(order[1..], m)
  }

  function SumCount(values: seq<string>, order: seq<string>): int {
    if order == [] then 0 else Count(values, order[0]) + SumCount(values, order[1..])
  }

  function Occurrences(order: seq<string>, x: string): nat {
    if order == [] then 0 else (if order[0] == x then 1 else 0) + Occurrences(order[1..], x)
  }

  lemma {:induction false} SumCountSnoc(values: seq<string>, x: string, order: seq<string>)
    ensures SumCount(values + [x], order) == SumCount(values, order) + Occurrences(order, x)
  {
    assert (values + [x])[..|values|] == values;
    if order != [] {
      SumCountSnoc(values, x, order[1..]);
    }
  }

  lemma {:induction false} OccurrencesOfDistinct(order: seq<string>, x: string)
    requires forall i, j :: 0 <= i < j < |order| ==> order[i] != order[j]
    ensures Occurrences(order, x) == if x in order then 1 else 0
  {
    if order != [] {
      OccurrencesOfDistinct(order[1..], x);
      assert x in order <==> order[0] == x || x in order[1..];
    }
  }

  lemma {:induction false} SumCountOfCover(values: seq<string>, order: seq<string>)
    requires forall i, j :: 0 <= i < j < |order| ==> order[i] != order[j]
    requires forall i :: 0 <= i < |values| ==> values[i] in order
    ensures SumCount(values, order) == |values|
  {
    if values == [] {
      SumCountOfEmpty(order);
    } else {
      var prefix, x := values[..|values| - 1], values[|values| - 1];
      assert values == prefix + [x];
      SumCountOfCover(prefix, order);
      SumCountSnoc(prefix, x, order);
      OccurrencesOfDistinct(order, x);
    }
  }

  lemma {:induction false} SumCountOfEmpty(order: seq<string>)
    ensures SumCount([], order) == 0
  {
    if order != [] {
      SumCountOfEmpty(order[1..]);
    }
  }

  lemma {:induction false} SumOverCountBy(values: seq<string>, order: seq<string>)
    requires forall i :: 0 <= i < |order| ==> order[i] in CountBy(values)
    ensures SumOver(order, CountBy(values)) == SumCount(values, order)
  {
    if order != [] {
      CountByCounts(values, order[0]);
      SumOverCountBy(values, order[1..]);
    }
  }

  /** Whatever order the HashMap lists them in, the group counts add up to the
      number of values grouped. */
  lemma CountsAddUp(values: seq<string>, order: seq<string>)
    requires IsKeyOrder(order, CountBy(values))
    ensures SumOver(order, CountBy(values)) == |values|
  {
    CountByKeys(values);
    SumOverCountBy(values, order);
    SumCountOfCover(values, order);
  }

  // ---------------------------------------------------------------------------
  // The statistics map
  // ---------------------------------------------------------------------------

  datatype Stats = Stats(
    totalTransactions: int,
    totalAmount: real,
    byType: map<string, int>,
    byStatus: map<string, int>,
    averageAmount: Average)

  predicate AllAmounts(records: seq<Txn>) {
    forall i | 0 <= i < |records| :: records[i].amount.Some?
  }

  predicate AllTypes(records: seq<Txn>) {
    forall i | 0 <= i < |records| :: records[i].transactionType.Some?
  }

  predicate AllStatuses(records: seq<Txn>) {
    forall i | 0 <= i < |records| :: records[i].status.Some?
  }

  function Amounts(records: seq<Txn>): (r: seq<real>)
    requires AllAmounts(records)
    ensures |r| == |records|
    ensures forall i :: 0 <= i < |r| ==> r[i] == records[i].amount.value
  {
    seq(|records|, i requires 0 <= i < |records| => records[i].amount.value)
  }

  function Types(records: seq<Txn>): (r: seq<string>)
    requires AllTypes(records)
    ensures |r| == |records|
  {
    seq(|records|, i requires 0 <= i < |records| => records[i].transactionType.value)
  }

  function Statuses(records: seq<Txn>): (r: seq<string>)
    requires AllStatuses(records)
    ensures |r| == |records|
  {
    seq(|records|, i requires 0 <= i < |records| => records[i].status.value)
  }

  /** The message Collectors.groupingBy throws with when a key is null. */
  const NullKeyMessage: string := "element cannot be mapped to a null key"

  /** getStatistics over the records in the order the store lists them. The
      amount sum runs first, then the two groupings, so a null amount throws
      before a null type or status. */
  function StatisticsOf(records: seq<Txn>): (r: Result<Stats, Exception>)
    ensures r.Failure? <==> !(AllAmounts(records) && AllTypes(records) && AllStatuses(records))
    ensures r.Failure? ==> r.error.Unhandled? && r.error.kind == NullPointer
    ensures !AllAmounts(records) ==> r == Failure(Unhandled(NullPointer, None))
    ensures r.Success? ==> r.value.totalTransactions == |records|
  {
    if !AllAmounts(records) then Failure(Unhandled(NullPointer, None))
    else if !AllTypes(records) then Failure(Unhandled(NullPointer, Some(NullKeyMessage)))
    else if !AllStatuses(records) then Failure(Unhandled(NullPointer, Some(NullKeyMessage)))
    else
      var sum := Sum(Amounts(records));
      Success(Stats(
        |records|,
        sum,
        CountBy(Types(records)),
        CountBy(Statuses(records)),
        if records == [] then IntegerZero else Hundredths(RoundHalfUp(sum / |records| as real))))
  }

  /** The statistics exist iff every record has an amount, a type and a
      status; then the count is the number of records, every type and every
      status that occurs is a key, and the average is the integer 0 exactly
      when there are no records and otherwise within half a hundredth of the
      exact mean. */
  lemma StatisticsSpec(records: seq<Txn>)
    ensures StatisticsOf(records).Success? <==>
      AllAmounts(records) && AllTypes(records) && AllStatuses(records)
    ensures StatisticsOf(records).Success? ==>
      var st := StatisticsOf(records).value;
      && st.totalTransactions == |records|
      && st.totalAmount == Sum(Amounts(records))
      && (forall i :: 0 <= i < |records| ==> records[i].transactionType.value in st.byType)
      && (forall i :: 0 <= i < |records| ==> records[i].status.value in st.byStatus)
      && (st.averageAmount.IntegerZero? <==> records == [])
      && (records != [] ==>
            -0.5 <= st.averageAmount.value as real - st.totalAmount / |records| as real * 100.0 <= 0.5)
  {
    if StatisticsOf(records).Success? {
      var st := StatisticsOf(records).value;
      CountByKeys(Types(records));
      CountByKeys(Statuses(records));
      assert forall i :: 0 <= i < |records| ==> Types(records)[i] == records[i].transactionType.value;
      assert forall i :: 0 <= i < |records| ==> Statuses(records)[i] == records[i].status.value;
      if records != [] {
        RoundHalfUpIsNearest(st.totalAmount / |records| as real);
      }
    }
  }

  /** The per-type and the per-status counts each add up to the number of
      records, whatever order the maps are listed in. */
  lemma GroupCountsAddUp(records: seq<Txn>, typeOrder: seq<string>, statusOrder: seq<string>)
    requires StatisticsOf(records).Success?
    requires IsKeyOrder(typeOrder, StatisticsOf(records).value.byType)
    requires IsKeyOrder(statusOrder, StatisticsOf(records).value.byStatus)
    ensures SumOver(typeOrder, StatisticsOf(records).value.byType) == StatisticsOf(records).value.totalTransactions
    ensures SumOver(statusOrder, StatisticsOf(records).value.byStatus) == StatisticsOf(records).value.totalTransactions
  {
    CountsAddUp(Types(records), typeOrder);
    CountsAddUp(Statuses(records), statusOrder);
  }

  /** A record appended to the snapshot adds its amount to the total. */
  lemma AppendAddsToTotal(records: seq<Txn>, t: Txn)
    requires StatisticsOf(records).Success?
    requires StatisticsOf(records + [t]).Success?
    ensures StatisticsOf(records + [t]).value.totalAmount
         == StatisticsOf(records).value.totalAmount + t.amount.value
  {
    var rs := records + [t];
    assert Amounts(rs) == Amounts(records) + [t.amount.value];
    assert Amounts(rs)[..|rs| - 1] == Amounts(records);
  }
}
