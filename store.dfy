/** The state of TransactionService as a value, and what each of its
    operations does to it: the record map keyed by id and the id counter. The
    class TransactionService is proved against these functions. */
module TransactionStore {
  import opened Wrappers
  import opened Text
  import opened Exceptions
  import opened TransactionModel
  import opened Ordering
  import opened Paging
  import opened Statistics
  import EH = ExceptionHandling

  datatype Store = Store(repository: map<int, Txn>, nextId: int)

  /** Every stored record sits under its own id, below the counter, with a
      version and a creation time. */
  predicate StoreValid(s: Store) {
    && s.nextId >= 1
    && forall k :: k in s.repository ==>
         && 1 <= k < s.nextId
         && s.repository[k].id == Some(k)
         && s.repository[k].version.Some?
         && s.repository[k].createdAt.Some?
  }

  // ---------------------------------------------------------------------------
  // The snapshot `new ArrayList<>(transactionRepository.values())`
  // ---------------------------------------------------------------------------

  /** The records with ids 1..n, in ascending id order. */
  function SnapshotUpTo(repo: map<int, Txn>, n: int): seq<Txn>
    decreases n
  {
    if n <= 0 then [] else SnapshotUpTo(repo, n - 1) + (if n in repo then [repo[n]] else [])
  }

  function Snapshot(s: Store): seq<Txn> {
    SnapshotUpTo(s.repository, s.nextId - 1)
  }

  function IdsUpTo(repo: map<int, Txn>, n: int): set<int> {
    set k | k in repo && 1 <= k <= n
  }

  /** The snapshot holds one entry per stored id. */
  lemma {:induction false} SnapshotUpToSize(repo: map<int, Txn>, n: int)
    ensures |SnapshotUpTo(repo, n)| == |IdsUpTo(repo, n)|
    decreases n
  {
    if n <= 0 {
      assert IdsUpTo(repo, n) == {};
    } else {
      SnapshotUpToSize(repo, n - 1);
      if n in repo {
        assert IdsUpTo(repo, n) == IdsUpTo(repo, n - 1) + {n};
      } else {
        assert IdsUpTo(repo, n) == IdsUpTo(repo, n - 1);
      }
    }
  }

  /** Every element of the snapshot is a stored record, and every stored
      record with an id in range is in it. */
  lemma {:induction false} SnapshotUpToMembers(repo: map<int, Txn>, n: int)
    ensures forall t :: t in SnapshotUpTo(repo, n) ==> exists k :: k in repo && 1 <= k <= n && repo[k] == t
    ensures forall k :: k in repo && 1 <= k <= n ==> repo[k] in SnapshotUpTo(repo, n)
    decreases n
  {
    if n > 0 {
      SnapshotUpToMembers(repo, n - 1);
    }
  }

  /** Two maps that agree on ids 1..n give the same snapshot. */
  lemma {:induction false} SnapshotUpToAgree(r1: map<int, Txn>, r2: map<int, Txn>, n: int)
    requires forall k :: 1 <= k <= n ==> (k in r1 <==> k in r2)
    requires forall k :: 1 <= k <= n && k in r1 ==> r1[k] == r2[k]
    ensures SnapshotUpTo(r1, n) == SnapshotUpTo(r2, n)
    decreases n
  {
    if n > 0 {
      SnapshotUpToAgree(r1, r2, n - 1);
    }
  }

  /** The snapshot of a valid store lists all its records, one per id. */
  lemma SnapshotSize(s: Store)
    requires StoreValid(s)
    ensures |Snapshot(s)| == |s.repository|
  {
    SnapshotUpToSize(s.repository, s.nextId - 1);
    assert IdsUpTo(s.repository, s.nextId - 1) == s.repository.Keys;
  }

  // ---------------------------------------------------------------------------
  // create and processTransaction
  // ---------------------------------------------------------------------------

  /** What create leaves in the caller's record, and whether it returned it or
      rethrew. */
  datatype Outcome = Created(record: Txn) | CreateFailed(record: Txn, error: Exception)

  const ApprovalLimit: real := 10000.0

  /** The message the JDK gives the NullPointerException of compareTo on a null
      amount. */
  const NullAmountMessage: string :=
    "Cannot invoke \"java.math.BigDecimal.compareTo(java.math.BigDecimal)\" because the return value of \"com.bankcore.model.Transaction.getAmount()\" is null"

  const InterruptedMessage: string := "Processing interrupted"

  /** The three separate readings of LocalDateTime.now() that create makes:
      createdAt, updatedAt and, after the processing delay, processedAt. The
      initializer reads the clock three times per sample record as well. */
  datatype ClockReadings = ClockReadings(created: Timestamp, updated: Timestamp, processed: Timestamp)

  /** create with the id drawn from the counter. `interrupted` says whether the
      processing delay's sleep was interrupted. The record is stamped with the
      id, version 0 and the first two clock readings whatever happens next;
      processing succeeds iff the sleep was not interrupted and there is an
      amount, and a failure marks the record FAILED with the exception's
      message. */
  function Process(t: Txn, id: int, clock: ClockReadings, interrupted: bool): (o: Outcome)
    ensures o.record.id == Some(id) && o.record.version == Some(0)
    ensures o.record.createdAt == Some(clock.created) && o.record.updatedAt == Some(clock.updated)
    ensures o.Created? <==> !interrupted && t.amount.Some?
    ensures o.CreateFailed? ==>
      && o.error.Unhandled?
      && o.record.status == Some("FAILED")
      && o.record.message == o.error.exceptionMessage
  {
    var base := t.(id := Some(id), createdAt := Some(clock.created), updatedAt := Some(clock.updated), version := Some(0));
    if interrupted then
      CreateFailed(base.(status := Some("FAILED"), message := Some(InterruptedMessage)),
                   Unhandled(Runtime, Some(InterruptedMessage)))
    else if base.amount.None? then
      CreateFailed(base.(status := Some("FAILED"), message := Some(NullAmountMessage)),
                   Unhandled(NullPointer, Some(NullAmountMessage)))
    else if base.amount.value > ApprovalLimit then
      Created(base.(status := Some("PENDING_APPROVAL")))
    else
      Created(base.(status := Some("COMPLETED"), processedAt := Some(clock.processed)))
  }

  /** The counter advances even when processing throws; only a processed
      record is stored, under the drawn id, and no other id changes. */
  function AfterCreate(s: Store, t: Txn, clock: ClockReadings, interrupted: bool): (r: Store)
    ensures r.nextId == s.nextId + 1
    ensures r.repository.Keys == s.repository.Keys
              + (if Process(t, s.nextId, clock, interrupted).Created? then {s.nextId} else {})
    ensures forall k | k in s.repository && k != s.nextId :: r.repository[k] == s.repository[k]
  {
    var o := Process(t, s.nextId, clock, interrupted);
    Store(if o.Created? then s.repository[s.nextId := o.record] else s.repository, s.nextId + 1)
  }

  /** A processed record carries the drawn id, version 0 and the first two
      clock readings; amounts above 10000 wait for approval with processedAt
      untouched, all others (10000 included) complete with processedAt set
      to the third reading. Account, amount, currency and every other field
      keep the caller's values. */
  lemma ProcessThreshold(t: Txn, id: int, clock: ClockReadings, a: real)
    requires t.amount == Some(a)
    ensures var o := Process(t, id, clock, false);
      && o.Created?
      && o.record.id == Some(id) && o.record.version == Some(0)
      && o.record.createdAt == Some(clock.created) && o.record.updatedAt == Some(clock.updated)
      && o.record.accountId == t.accountId && o.record.amount == t.amount && o.record.currency == t.currency
      && (a > 10000.0 ==> o.record.status == Some("PENDING_APPROVAL") && o.record.processedAt == t.processedAt)
      && (a <= 10000.0 ==> o.record.status == Some("COMPLETED") && o.record.processedAt == Some(clock.processed))
      && o.record.(id := t.id, createdAt := t.createdAt, updatedAt := t.updatedAt, version := t.version,
                   status := t.status, processedAt := t.processedAt) == t
  {
  }

  /** Exactly 10000 is not a large amount. */
  lemma TenThousandCompletes(t: Txn, id: int, clock: ClockReadings)
    requires t.amount == Some(10000.0)
    ensures Process(t, id, clock, false).record.status == Some("COMPLETED")
  {
  }

  /** A record without an amount makes processing throw the
      NullPointerException: create marks it FAILED with the exception's
      message, rethrows, stores nothing, and the id is used up. */
  lemma NullAmountFails(s: Store, t: Txn, clock: ClockReadings)
    requires t.amount.None?
    ensures var o := Process(t, s.nextId, clock, false);
      && o == CreateFailed(o.record, Unhandled(NullPointer, Some(NullAmountMessage)))
      && o.record.status == Some("FAILED") && o.record.message == Some(NullAmountMessage)
      && o.record.id == Some(s.nextId)
    ensures AfterCreate(s, t, clock, false) == Store(s.repository, s.nextId + 1)
  {
  }

  /** create never rejects a non-positive amount: a zero or negative amount is
      stored as COMPLETED. */
  lemma NonPositiveAmountIsStored(s: Store, t: Txn, clock: ClockReadings, a: real)
    requires t.amount == Some(a) && a <= 0.0
    ensures var after := AfterCreate(s, t, clock, false);
      && s.nextId in after.repository
      && after.repository[s.nextId].status == Some("COMPLETED")
  {
  }

  /** create keeps the store valid, stores the processed record under the
      drawn id and leaves every other id as it was. */
  lemma CreateSpec(s: Store, t: Txn, clock: ClockReadings, interrupted: bool)
    requires StoreValid(s)
    ensures var after := AfterCreate(s, t, clock, interrupted);
      var o := Process(t, s.nextId, clock, interrupted);
      && StoreValid(after)
      && after.nextId == s.nextId + 1
      && s.nextId !in s.repository
      && (o.Created? ==> FindById(after, s.nextId) == Some(o.record))
      && (o.CreateFailed? ==> FindById(after, s.nextId) == None)
      && (forall k :: k != s.nextId ==> FindById(after, k) == FindById(s, k))
  {
  }

  /** A stored record is appended at the end of the snapshot, so it adds its
      amount to the total of the statistics. */
  lemma CreateAppendsToSnapshot(s: Store, t: Txn, clock: ClockReadings, interrupted: bool)
    requires StoreValid(s)
    requires Process(t, s.nextId, clock, interrupted).Created?
    ensures Snapshot(AfterCreate(s, t, clock, interrupted)) == Snapshot(s) + [Process(t, s.nextId, clock, interrupted).record]
  {
    var after := AfterCreate(s, t, clock, interrupted);
    SnapshotUpToAgree(after.repository, s.repository, s.nextId - 1);
  }

  lemma CreateAddsToTotal(s: Store, t: Txn, clock: ClockReadings, interrupted: bool)
    requires StoreValid(s)
    requires Process(t, s.nextId, clock, interrupted).Created?
    requires GetStatistics(s).Success? && GetStatistics(AfterCreate(s, t, clock, interrupted)).Success?
    ensures GetStatistics(AfterCreate(s, t, clock, interrupted)).value.totalAmount
         == GetStatistics(s).value.totalAmount + t.amount.value
  {
    CreateAppendsToSnapshot(s, t, clock, interrupted);
    AppendAddsToTotal(Snapshot(s), Process(t, s.nextId, clock, interrupted).record);
  }

  // ---------------------------------------------------------------------------
  // update
  // ---------------------------------------------------------------------------

  const ConcurrentModificationMessage: string := "Transaction was modified by another process"

  /** update(id, u): the stored record, changed in place, or the exception.
      It succeeds iff the id is stored with a version equal to the submitted
      one, and the updated record then has the next version. */
  function UpdateResult(s: Store, id: int, u: Txn, now: Timestamp): (r: Result<Txn, Exception>)
    ensures r.Success? <==>
      id in s.repository && s.repository[id].version.Some? && u.version == s.repository[id].version
    ensures r.Success? ==>
      r.value.version == Some(s.repository[id].version.value + 1) && r.value.id == s.repository[id].id
  {
    if id !in s.repository then
      Failure(IllegalArgument("Transaction not found: " + IntToString(id)))
    else
      var existing := s.repository[id];
      if existing.version.None? then Failure(Unhandled(NullPointer, None))
      else if existing.version != u.version then
        Failure(OptimisticLockingFailure(ConcurrentModificationMessage))
      else
        Success(existing.(amount := u.amount, description := u.description, status := u.status,
                          updatedAt := Some(now), version := Some(existing.version.value + 1)))
  }

  /** Only the updated id's record can change; the ids and the counter stay. */
  function AfterUpdate(s: Store, id: int, u: Txn, now: Timestamp): (r: Store)
    ensures r.nextId == s.nextId && r.repository.Keys == s.repository.Keys
    ensures forall k | k in s.repository && k != id :: r.repository[k] == s.repository[k]
  {
    var r := UpdateResult(s, id, u, now);
    if r.Success? then s.(repository := s.repository[id := r.value]) else s
  }

  /** An unknown id is an IllegalArgumentException naming it. */
  lemma UpdateMissingId(s: Store, id: int, u: Txn, now: Timestamp)
    requires id !in s.repository
    ensures UpdateResult(s, id, u, now) == Failure(IllegalArgument("Transaction not found: " + IntToString(id)))
    ensures AfterUpdate(s, id, u, now) == s
  {
  }

  /** A submitted version that differs from the stored one, a missing version
      included, is an optimistic-locking failure and changes nothing. */
  lemma UpdateStaleVersion(s: Store, id: int, u: Txn, now: Timestamp)
    requires StoreValid(s)
    requires id in s.repository && u.version != s.repository[id].version
    ensures UpdateResult(s, id, u, now) == Failure(OptimisticLockingFailure(ConcurrentModificationMessage))
    ensures AfterUpdate(s, id, u, now) == s
  {
  }

  /** A matching version replaces amount, description and status (null ones
      too), refreshes updatedAt and increments the version; id, account, type,
      currency, createdAt, processedAt and the other ids stay as they were. */
  lemma UpdateSuccess(s: Store, id: int, u: Txn, now: Timestamp)
    requires StoreValid(s)
    requires id in s.repository && u.version == s.repository[id].version
    ensures var old_ := s.repository[id];
      var r := UpdateResult(s, id, u, now);
      && r.Success?
      && r.value.amount == u.amount && r.value.description == u.description && r.value.status == u.status
      && r.value.updatedAt == Some(now)
      && r.value.version == Some(old_.version.value + 1)
      && r.value.id == old_.id && r.value.accountId == old_.accountId
      && r.value.transactionType == old_.transactionType && r.value.currency == old_.currency
      && r.value.createdAt == old_.createdAt && r.value.processedAt == old_.processedAt
      && AfterUpdate(s, id, u, now).repository == s.repository[id := r.value]
      && AfterUpdate(s, id, u, now).nextId == s.nextId
  {
  }

  /** After a successful update, the same request, carrying the old version,
      is rejected. */
  lemma SecondUpdateWithOldVersionFails(s: Store, id: int, u: Txn, now1: Timestamp, now2: Timestamp)
    requires StoreValid(s)
    requires UpdateResult(s, id, u, now1).Success?
    ensures UpdateResult(AfterUpdate(s, id, u, now1), id, u, now2)
         == Failure(OptimisticLockingFailure(ConcurrentModificationMessage))
  {
  }

  /** An update of an unknown id reaches the client as 400 INVALID_ARGUMENT,
      not as 404 TRANSACTION_NOT_FOUND. */
  lemma UpdateMissingIdIsBadRequest(s: Store, id: int, u: Txn, now: Timestamp,
                                    description: string, traceId: Option<string>, at: Timestamp)
    requires id !in s.repository
    ensures var r := EH.Handle(UpdateResult(s, id, u, now).error, description, traceId, at, []);
      && r.status == 400 && r.code == "INVALID_ARGUMENT"
      && r.details == "Transaction not found: " + IntToString(id)
  {
  }

  // ---------------------------------------------------------------------------
  // delete and findById
  // ---------------------------------------------------------------------------

  /** Optional.ofNullable(transactionRepository.get(id)): present iff the id
      is stored, and in a valid store the record found carries that id. */
  function FindById(s: Store, id: int): (r: Option<Txn>)
    ensures r.Some? <==> id in s.repository
    ensures r.Some? && StoreValid(s) ==> r.value.id == Some(id) && r.value in s.repository.Values
  {
    if id in s.repository then Some(s.repository[id]) else None
  }

  /** delete's answer: whether remove found a record under the id. */
  function Deleted(s: Store, id: int): (r: bool)
    ensures r <==> FindById(s, id).Some?
  {
    id in s.repository
  }

  /** The store after delete: the id is gone, every other id keeps its
      record, and the counter is not touched. */
  function AfterDelete(s: Store, id: int): (r: Store)
    ensures r.repository.Keys == s.repository.Keys - {id}
    ensures forall k | k in r.repository :: r.repository[k] == s.repository[k]
    ensures r.nextId == s.nextId
  {
    s.(repository := s.repository - {id})
  }

  /** delete answers true iff the id was stored, removes it whatever its
      version, and leaves the other ids and the counter alone; a second delete
      answers false and the id is then not found. */
  lemma DeleteSpec(s: Store, id: int)
    ensures Deleted(s, id) <==> FindById(s, id).Some?
    ensures FindById(AfterDelete(s, id), id) == None
    ensures forall k :: k != id ==> FindById(AfterDelete(s, id), k) == FindById(s, k)
    ensures AfterDelete(s, id).nextId == s.nextId
    ensures !Deleted(AfterDelete(s, id), id)
    ensures AfterDelete(AfterDelete(s, id), id) == AfterDelete(s, id)
  {
  }

  lemma UpdatePreservesValid(s: Store, id: int, u: Txn, now: Timestamp)
    requires StoreValid(s)
    ensures StoreValid(AfterUpdate(s, id, u, now))
  {
  }

  lemma DeletePreservesValid(s: Store, id: int)
    requires StoreValid(s)
    ensures StoreValid(AfterDelete(s, id))
  {
  }

  // ---------------------------------------------------------------------------
  // findByAccountId and getStatistics
  // ---------------------------------------------------------------------------

  /** A page of records with the size of the full list. */
  datatype Page = Page(content: seq<Txn>, totalElements: int)

  predicate AllAccountIds(records: seq<Txn>) {
    forall i | 0 <= i < |records| :: records[i].accountId.Some?
  }

  /** filter(t -> t.getAccountId().equals(accountId)): every record of the
      account, as often as it occurs, and no other. */
  function OfAccount(records: seq<Txn>, accountId: string): (r: seq<Txn>)
    ensures forall i :: 0 <= i < |r| ==> r[i].accountId == Some(accountId)
    ensures multiset(r) <= multiset(records)
    ensures forall x :: multiset(r)[x] == if x.accountId == Some(accountId) then multiset(records)[x] else 0
  {
    if records == [] then []
    else
      var rest := OfAccount(records[1..], accountId);
      assert records == [records[0]] + records[1..];
      if records[0].accountId == Some(accountId) then [records[0]] + rest else rest
  }

  /** findByAccountId: the account's records newest first, sliced to the page;
      a stored record without an account id makes the filter throw. It
      succeeds iff every record has an account id and the page's offset is
      at most the number of the account's records. */
  function FindByAccountId(s: Store, accountId: string, page: int, size: int): (r: Result<Page, Exception>)
    requires StoreValid(s)
    requires PageableOk(page, size)
    ensures r.Success? <==>
      AllAccountIds(Snapshot(s)) && Offset(page, size) <= |OfAccount(Snapshot(s), accountId)|
    ensures r.Success? ==> r.value.totalElements == |OfAccount(Snapshot(s), accountId)|
  {
    var records := Snapshot(s);
    if !AllAccountIds(records) then Failure(Unhandled(NullPointer, None))
    else AccountPage(records, accountId, page, size)
  }

  /** The records of one account, newest first, cut to the page: there is a
      page iff its offset is at most the number of the account's records, and
      it then reports that number as its total and holds at most `size`
      records. */
  function AccountPage(records: seq<Txn>, accountId: string, page: int, size: int): (r: Result<Page, Exception>)
    requires PageableOk(page, size)
    ensures r.Success? <==> Offset(page, size) <= |OfAccount(records, accountId)|
    ensures r.Failure? ==> r.error.IllegalArgument?
    ensures r.Success? ==> r.value.totalElements == |OfAccount(records, accountId)| && |r.value.content| <= size
  {
    var matching := SortDesc(OfAccount(records, accountId));
    var w := PageWindow(page, size, |matching|);
    if w.Failure? then Failure(w.error)
    else Success(Page(matching[w.value.start..w.value.end], |matching|))
  }

  /** findByAccountId's page is the window of the account's records, newest
      first, that the page number and size select; it lists only that
      account's records, newest first, and no more than `size`; and it fails
      exactly when a stored record has no account id or the window does not
      exist. */
  lemma FindByAccountIdSpec(s: Store, accountId: string, page: int, size: int)
    requires StoreValid(s)
    requires PageableOk(page, size)
    ensures var r := FindByAccountId(s, accountId, page, size);
      var matching := SortDesc(OfAccount(Snapshot(s), accountId));
      var w := PageWindow(page, size, |matching|);
      && (r.Success? <==> AllAccountIds(Snapshot(s)) && w.Success?)
      && (!AllAccountIds(Snapshot(s)) ==> r == Failure(Unhandled(NullPointer, None)))
      && (r.Success? ==>
            && r.value.content == matching[w.value.start..w.value.end]
            && r.value.totalElements == |matching|
            && (forall i :: 0 <= i < |r.value.content| ==> r.value.content[i].accountId == Some(accountId))
            && SortedDesc(r.value.content)
            && |r.value.content| <= size
            && multiset(r.value.content) <= multiset(Snapshot(s)))
  {
    if AllAccountIds(Snapshot(s)) {
      AccountPageSpec(Snapshot(s), accountId, page, size);
    }
  }

  /** The page is the window of the account's records, newest first; it
      exists iff the window does; every record of the account is in the
      sorted list it is cut from, and the window's records belong to the
      account, keep the newest-first order and are drawn from the input. */
  lemma AccountPageSpec(records: seq<Txn>, accountId: string, page: int, size: int)
    requires PageableOk(page, size)
    ensures var r := AccountPage(records, accountId, page, size);
      var matching := SortDesc(OfAccount(records, accountId));
      var w := PageWindow(page, size, |matching|);
      && (r.Success? <==> w.Success?)
      && (forall x :: multiset(matching)[x] == if x.accountId == Some(accountId) then multiset(records)[x] else 0)
      && (r.Success? ==>
            && r.value.content == matching[w.value.start..w.value.end]
            && r.value.totalElements == |matching|
            && (forall i :: 0 <= i < |r.value.content| ==> r.value.content[i].accountId == Some(accountId))
            && SortedDesc(r.value.content)
            && |r.value.content| <= size
            && multiset(r.value.content) <= multiset(records))
  {
    if AccountPage(records, accountId, page, size).Success? {
      AccountPageContent(records, accountId, page, size);
    }
  }

  /** A page that exists holds the account's records of its window, newest
      first, drawn from the input. */
  lemma AccountPageContent(records: seq<Txn>, accountId: string, page: int, size: int)
    requires PageableOk(page, size)
    requires AccountPage(records, accountId, page, size).Success?
    ensures var c := AccountPage(records, accountId, page, size).value.content;
      && (forall i :: 0 <= i < |c| ==> c[i].accountId == Some(accountId))
      && SortedDesc(c)
      && multiset(c) <= multiset(records)
  {
    var ofAccount := OfAccount(records, accountId);
    var matching := SortDesc(ofAccount);
    var w := PageWindow(page, size, |matching|).value;
    var c := matching[w.start..w.end];
    assert AccountPage(records, accountId, page, size).value.content == c;
    SliceOfSorted(matching, w.start, w.end);
    assert multiset(c) <= multiset(ofAccount) <= multiset(records);
    forall i | 0 <= i < |c| ensures c[i].accountId == Some(accountId) {
      assert c[i] in multiset(ofAccount);
    }
  }

  /** A slice of a newest-first list is newest first and draws on its
      elements. */
  lemma SliceOfSorted(s: seq<Txn>, a: int, b: int)
    requires 0 <= a <= b <= |s|
    requires SortedDesc(s)
    ensures SortedDesc(s[a..b])
    ensures multiset(s[a..b]) <= multiset(s)
  {
    assert s == s[..a] + s[a..b] + s[b..];
  }

  /** getStatistics over the stored records: it throws a NullPointerException
      exactly when a stored record lacks an amount, a type or a status, and
      otherwise counts every stored record. */
  function GetStatistics(s: Store): (r: Result<Stats, Exception>)
    ensures r.Failure? <==> !(AllAmounts(Snapshot(s)) && AllTypes(Snapshot(s)) && AllStatuses(Snapshot(s)))
    ensures r.Failure? ==> r.error.Unhandled? && r.error.kind == NullPointer
    ensures r.Success? ==> r.value.totalTransactions == |Snapshot(s)|
  {
    StatisticsOf(Snapshot(s))
  }

  /** totalTransactions is the number of stored records. */
  lemma StatisticsCountAll(s: Store)
    requires StoreValid(s)
    requires GetStatistics(s).Success?
    ensures GetStatistics(s).value.totalTransactions == |s.repository|
  {
    SnapshotSize(s);
    StatisticsSpec(Snapshot(s));
  }

  // ---------------------------------------------------------------------------
  // The sample data of the constructor
  // ---------------------------------------------------------------------------

  const SampleCount: nat := 20

  /** The i-th sample record (i from 0): its type and amount are random in the
      service and are parameters here, and each of its three timestamps is a
      reading of the clock moved back by i days. */
  function SampleRecord(i: nat, transactionType: string, amount: real, clock: ClockReadings): (t: Txn)
    ensures t.id == Some(i + 1) && t.version == Some(0)
    ensures t.status == Some("COMPLETED") && t.currency == Some("USD")
    ensures t.transactionType == Some(transactionType) && t.amount == Some(amount)
    ensures t.accountId.Some? && |t.accountId.value| >= 13 && t.accountId.value[..3] == "ACC"
    ensures t.createdAt == Some(clock.created - i * MillisPerDay)
    ensures t.updatedAt == Some(clock.updated - i * MillisPerDay)
    ensures t.processedAt == Some(clock.processed - i * MillisPerDay)
  {
    var back := i * MillisPerDay;
    NewTxn().(
      id := Some(i + 1),
      accountId := Some("ACC" + ZeroPad(NatToString(i % 5), 10)),
      transactionType := Some(transactionType),
      amount := Some(amount),
      currency := Some("USD"),
      description := Some("Sample transaction " + NatToString(i)),
      status := Some("COMPLETED"),
      createdAt := Some(clock.created - back),
      updatedAt := Some(clock.updated - back),
      processedAt := Some(clock.processed - back),
      version := Some(0))
  }

  /** The sample stored under id k. */
  function SampleEntry(k: int, types: seq<string>, amounts: seq<real>, clocks: seq<ClockReadings>): Txn
    requires 1 <= k <= |types| && k <= |amounts| && k <= |clocks|
  {
    SampleRecord(k - 1, types[k - 1], amounts[k - 1], clocks[k - 1])
  }

  function SampleRepository(n: nat, types: seq<string>, amounts: seq<real>, clocks: seq<ClockReadings>): map<int, Txn>
    requires n <= |types| && n <= |amounts| && n <= |clocks|
  {
    map k | 1 <= k <= n :: SampleEntry(k, types, amounts, clocks)
  }

  /** Storing sample i under id i + 1 extends the first i samples. */
  lemma SampleRepositoryStep(i: nat, types: seq<string>, amounts: seq<real>, clocks: seq<ClockReadings>)
    requires i < |types| && i < |amounts| && i < |clocks|
    ensures SampleRepository(i + 1, types, amounts, clocks)
         == SampleRepository(i, types, amounts, clocks)[i + 1 := SampleRecord(i, types[i], amounts[i], clocks[i])]
  {
  }

  /** The service right after its constructor. */
  function SampleStore(types: seq<string>, amounts: seq<real>, clocks: seq<ClockReadings>): (s: Store)
    requires |types| == SampleCount && |amounts| == SampleCount && |clocks| == SampleCount
    ensures s.nextId == SampleCount + 1
    ensures forall k :: k in s.repository <==> 1 <= k <= SampleCount
    ensures forall k | k in s.repository :: s.repository[k] == SampleRecord(k - 1, types[k - 1], amounts[k - 1], clocks[k - 1])
  {
    Store(SampleRepository(SampleCount, types, amounts, clocks), SampleCount + 1)
  }

  /** The constructor stores twenty COMPLETED, version-0 USD records under ids
      1 to 20 and leaves the counter at 21, so the first create draws id 21. */
  lemma SampleStoreSpec(types: seq<string>, amounts: seq<real>, clocks: seq<ClockReadings>, t: Txn, later: ClockReadings)
    requires |types| == SampleCount && |amounts| == SampleCount && |clocks| == SampleCount
    ensures var s := SampleStore(types, amounts, clocks);
      && StoreValid(s)
      && (forall k :: k in s.repository <==> 1 <= k <= 20)
      && (forall k :: k in s.repository ==>
            && s.repository[k].status == Some("COMPLETED")
            && s.repository[k].version == Some(0)
            && s.repository[k].currency == Some("USD"))
      && Process(t, s.nextId, later, false).record.id == Some(21)
  {
  }

  /** Sample i belongs to account "ACC" followed by i mod 5 padded to ten
      digits, a 13-character id that passes the entity's constraint; a sample
      whose random type and amount are in range is a valid entity. */
  lemma SampleRecordValid(i: nat, transactionType: string, amount: real, clock: ClockReadings)
    requires i < SampleCount
    requires transactionType in TransactionTypes
    requires MinAmount <= amount <= MaxAmount
    ensures Utf16Length(SampleRecord(i, transactionType, amount, clock).accountId.value) == 13
    ensures EntityValid(SampleRecord(i, transactionType, amount, clock))
  {
    var t := SampleRecord(i, transactionType, amount, clock);
    var id := t.accountId.value;
    NotBlankWitness(id, 0);
    NotBlankWitness(transactionType, 0);
    NotBlankWitness("USD", 0);
    NotBlankWitness("COMPLETED", 0);
    assert |NatToString(i % 5)| == 1;
    assert |NatToString(i)| <= 2;
    assert forall k :: 0 <= k < |id| ==> IsBmp(id[k]) by {
      var pad := ZeroPad(NatToString(i % 5), 10);
      assert id == "ACC" + pad;
      assert forall k :: 0 <= k < |pad| ==> IsDigit(pad[k]) by {
        assert pad[9..] == NatToString(i % 5);
      }
    }
    Utf16LengthOfBmp(id);
  }

  // ---------------------------------------------------------------------------
  // The @Recover methods, which no retry proxy calls
  // ---------------------------------------------------------------------------

  const RecoverCreateMessage: string := "System temporarily unavailable, please try again later"

  /** recoverCreateTransaction: the record is returned marked FAILED. */
  function RecoverCreate(t: Txn): (r: Txn)
    ensures r.status == Some("FAILED") && r.message == Some(RecoverCreateMessage)
    ensures r.(status := t.status, message := t.message) == t
  {
    t.(status := Some("FAILED"), message := Some(RecoverCreateMessage))
  }

  /** recoverUpdateTransaction never returns: it throws an IllegalStateException
      with a fixed text, which no dedicated handler catches. */
  function RecoverUpdate(id: int, t: Txn): (e: Exception)
    ensures e.Unhandled? && e.kind == IllegalState
    ensures e.exceptionMessage == Some("Transaction was modified by another process. Please refresh and try again.")
  {
    Unhandled(IllegalState, Some("Transaction was modified by another process. Please refresh and try again."))
  }

  /** The IllegalStateException of recoverUpdateTransaction would reach the
      client as 500 INTERNAL_ERROR, not 409. */
  lemma RecoverUpdateIsInternalError(id: int, t: Txn, description: string, traceId: Option<string>, at: Timestamp)
    ensures EH.Handle(RecoverUpdate(id, t), description, traceId, at, []).status == 500
    ensures EH.Handle(RecoverUpdate(id, t), description, traceId, at, []).code == "INTERNAL_ERROR"
  {
  }
}
