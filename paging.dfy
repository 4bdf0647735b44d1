/** The offset/size paging of findAll and findByAccountId: a Pageable's offset,
    the window [start, end) cut from the sorted list, and ArrayList.subList's
    range check. */
module Paging {
  import opened Wrappers
  import opened Text
  import opened Exceptions

  const Int32Max: int := 0x7FFF_FFFF
  const Int32Modulus: int := 0x1_0000_0000

  /** A PageRequest: page number at least 0 and page size at least 1, both Java
      ints. PageRequest.of rejects anything else before the service sees it. */
  predicate PageableOk(page: int, size: int) {
    0 <= page <= Int32Max && 1 <= size <= Int32Max
  }

  /** Pageable.getOffset: page * size computed as a long, which cannot overflow
      for two int factors. */
  function Offset(page: int, size: int): int {
    page * size
  }

  /** Java's narrowing to int (a cast, or the result of an int addition): the
      value modulo 2^32, read as a signed 32-bit number. */
  function ToInt32(x: int): (r: int)
    ensures -Int32Max - 1 <= r <= Int32Max
    ensures (x - r) % Int32Modulus == 0
    ensures -Int32Max - 1 <= x <= Int32Max ==> r == x
  {
    var m := x % Int32Modulus;
    if m > Int32Max then m - Int32Modulus else m
  }

  function Min(a: int, b: int): int { if a <= b then a else b }

  /** The half-open range of the sorted list that forms the page. */
  datatype Window = Window(start: int, end: int)

  /** ArrayList.subList(from, to) on a list of `size` elements: the range
      checks in the order the JDK makes them. */
  function SubList(from: int, to: int, size: int): (r: Result<Window, Exception>)
    ensures r.Success? <==> 0 <= from <= to <= size
    ensures r.Success? ==> r.value == Window(from, to)
  {
    if from < 0 then
      Failure(Unhandled(IndexOutOfBounds, Some("fromIndex = " + IntToString(from))))
    else if to > size then
      Failure(Unhandled(IndexOutOfBounds, Some("toIndex = " + IntToString(to))))
    else if from > to then
      Failure(IllegalArgument("fromIndex(" + IntToString(from) + ") > toIndex(" + IntToString(to) + ")"))
    else Success(Window(from, to))
  }

  /** The paging of the service as written: `int start = (int) offset` and
      `Math.min(start + size, total)` with int arithmetic. */
  function PageWindowAsWritten(page: int, size: int, total: nat): (r: Result<Window, Exception>)
    requires PageableOk(page, size)
    ensures r.Success? ==> r.value.start == ToInt32(Offset(page, size)) && 0 <= r.value.start <= r.value.end <= total
    ensures ToInt32(Offset(page, size)) < 0 ==> r.Failure? && r.error.Unhandled? && r.error.kind == IndexOutOfBounds
  {
    var start := ToInt32(Offset(page, size));
    var end := Min(ToInt32(start + size), total);
    SubList(start, end, total)
  }

  /** The paging with the offset kept exact: the page starts at page * size
      and holds at most size elements. */
  function PageWindow(page: int, size: int, total: nat): (r: Result<Window, Exception>)
    requires PageableOk(page, size)
    ensures r.Success? <==> Offset(page, size) <= total
    ensures r.Success? ==> r.value.start == Offset(page, size) && r.value.end <= total
    ensures r.Failure? ==> r.error.IllegalArgument?
  {
    var start := Offset(page, size);
    var end := Min(start + size, total);
    SubList(start, end, total)
  }

  /** A page exists iff its offset is at most the number of elements; it then
      holds the next min(size, total - offset) elements, so an offset equal
      to the total gives an empty page and an offset past it fails with the
      IllegalArgumentException of subList. */
  lemma PageWindowSpec(page: int, size: int, total: nat)
    requires PageableOk(page, size)
    ensures var r := PageWindow(page, size, total);
      && (r.Success? <==> Offset(page, size) <= total)
      && (r.Success? ==>
            && r.value.start == Offset(page, size)
            && r.value.start <= r.value.end <= total
            && r.value.end - r.value.start == Min(size, total - Offset(page, size)))
      && (r.Failure? ==> r.error.IllegalArgument?)
  {
  }

  /** Consecutive pages of the same size tile the list: a full page ends where
      the next one starts. */
  lemma PagesTile(page: int, size: int, total: nat)
    requires PageableOk(page, size) && PageableOk(page + 1, size)
    requires PageWindow(page, size, total).Success? && PageWindow(page + 1, size, total).Success?
    ensures PageWindow(page, size, total).value.end == PageWindow(page + 1, size, total).value.start
  {
  }

  /** As long as offset + size fits in an int, the code as written gives
      the same window as the corrected paging. */
  lemma AsWrittenAgreesBelowOverflow(page: int, size: int, total: nat)
    requires PageableOk(page, size)
    requires Offset(page, size) + size <= Int32Max
    ensures PageWindowAsWritten(page, size, total) == PageWindow(page, size, total)
  {
  }

  /** The cast wraps: page 42949673 of size 100 has offset 4294967300, which
      the cast turns into 4, so the code returns elements 4 to 19 of a
      20-element list for a page far past its end. */
  lemma AsWrittenWrapsToEarlyPage()
    ensures PageableOk(42949673, 100)
    ensures Offset(42949673, 100) == 4294967300
    ensures PageWindowAsWritten(42949673, 100, 20) == Success(Window(4, 20))
    ensures PageWindow(42949673, 100, 20).Failure?
  {
  }

  /** A wrap to a negative start makes subList throw
      IndexOutOfBoundsException instead. */
  lemma AsWrittenWrapsNegative(page: int, size: int, total: nat)
    requires page == 21474837 && size == 100 && total == 20
    ensures PageableOk(page, size)
    ensures PageWindowAsWritten(page, size, total).Failure?
    ensures PageWindowAsWritten(page, size, total).error.Unhandled?
    ensures PageWindowAsWritten(page, size, total).error.kind == IndexOutOfBounds
  {
    assert Offset(page, size) == 2147483700;
    assert ToInt32(2147483700) == 2147483700 - Int32Modulus;
  }
}
