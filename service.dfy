/** TransactionService: the in-memory record map and the id counter, updated in
    place by the constructor, create, update and delete. Each method is proved
    against the matching function of TransactionStore. */
module TransactionServiceModel {
  import opened Wrappers
  import opened Text
  import opened Exceptions
  import opened TransactionModel
  import opened Ordering
  import opened Paging
  import opened Statistics
  import opened TransactionStore

  class TransactionService {
    /** transactionRepository */
    var repository: map<int, Txn>
    /** idGenerator: the id the next create draws */
    var nextId: int

    function State(): Store
      reads this
    {
      Store(repository, nextId)
    }

    ghost predicate Valid()
      reads this
    {
      StoreValid(State())
    }

    /** The constructor's initializeSampleData: the counter starts at 1 and
        the loop stores samples 0..19 under the ids it draws. The random types
        and amounts and the clock readings are parameters. */
    constructor (types: seq<string>, amounts: seq<real>, clocks: seq<ClockReadings>)
      requires |types| == SampleCount && |amounts| == SampleCount && |clocks| == SampleCount
      ensures Valid()
      ensures State() == SampleStore(types, amounts, clocks)
    {
      repository := map[];
      nextId := 1;
      new;
      for i := 0 to SampleCount
        invariant nextId == i + 1
        invariant repository == SampleRepository(i, types, amounts, clocks)
      {
        var t := SampleRecord(i, types[i], amounts[i], clocks[i]);
        var id := nextId;
        nextId := nextId + 1;
        SampleRepositoryStep(i, types, amounts, clocks);
        repository := repository[id := t];
      }
      SampleStoreSpec(types, amounts, clocks, NewTxn(), clocks[0]);
    }

    /** create: draws an id, stamps the record, processes it and stores it;
        if processing throws, the record is marked FAILED, nothing is stored
        and the id stays used. */
    method Create(t: Txn, clock: ClockReadings, interrupted: bool) returns (outcome: Outcome)
      requires Valid()
      modifies this
      ensures Valid()
      ensures outcome == Process(t, old(nextId), clock, interrupted)
      ensures State() == AfterCreate(old(State()), t, clock, interrupted)
    {
      var id := nextId;
      nextId := nextId + 1;
      var record := t.(id := Some(id), createdAt := Some(clock.created), updatedAt := Some(clock.updated), version := Some(0));
      if interrupted {
        record := record.(status := Some("FAILED"), message := Some(InterruptedMessage));
        return CreateFailed(record, Unhandled(Runtime, Some(InterruptedMessage)));
      }
      if record.amount.None? {
        record := record.(status := Some("FAILED"), message := Some(NullAmountMessage));
        return CreateFailed(record, Unhandled(NullPointer, Some(NullAmountMessage)));
      }
      if record.amount.value > ApprovalLimit {
        record := record.(status := Some("PENDING_APPROVAL"));
      } else {
        record := record.(status := Some("COMPLETED"), processedAt := Some(clock.processed));
      }
      repository := repository[id := record];
      outcome := Created(record);
    }

    /** update: the version check, then amount, description and status are
        copied onto the stored record, whose version goes up by one. */
    method Update(id: int, u: Txn, now: Timestamp) returns (r: Result<Txn, Exception>)
      requires Valid()
      modifies this
      ensures Valid()
      ensures r == UpdateResult(old(State()), id, u, now)
      ensures State() == AfterUpdate(old(State()), id, u, now)
    {
      if id !in repository {
        return Failure(IllegalArgument("Transaction not found: " + IntToString(id)));
      }
      var existing := repository[id];
      if existing.version != u.version {
        return Failure(OptimisticLockingFailure(ConcurrentModificationMessage));
      }
      existing := existing.(amount := u.amount, description := u.description, status := u.status);
      existing := existing.(updatedAt := Some(now), version := Some(existing.version.value + 1));
      repository := repository[id := existing];
      r := Success(existing);
    }

    /** delete: removes the record whatever its version. */
    method Delete(id: int) returns (deleted: bool)
      requires Valid()
      modifies this
      ensures Valid()
      ensures deleted == Deleted(old(State()), id)
      ensures State() == AfterDelete(old(State()), id)
    {
      deleted := id in repository;
      repository := repository - {id};
    }

    /** findAll: copies the records into a list, sorts it newest first in
        place and cuts the page out of it. `arranged` is the sorted list; the
        order among records created at the same instant is left open. */
    method FindAll(page: int, size: int) returns (r: Result<Page, Exception>, ghost arranged: seq<Txn>)
      requires Valid() && PageableOk(page, size)
      ensures SortedDesc(arranged)
      ensures multiset(arranged) == multiset(Snapshot(State()))
      ensures |arranged| == |repository|
      ensures PageWindow(page, size, |arranged|).Failure? ==>
                r == Failure(PageWindow(page, size, |arranged|).error)
      ensures PageWindow(page, size, |arranged|).Success? ==>
                var w := PageWindow(page, size, |arranged|).value;
                r == Success(Page(arranged[w.start..w.end], |repository|))
    {
      var records := Snapshot(State());
      var a := new Txn[|records|](i requires 0 <= i < |records| => records[i]);
      assert a[..] == records;
      SortInPlace(a);
      arranged := a[..];
      SnapshotSize(State());
      assert |multiset(arranged)| == |multiset(records)|;
      var w := PageWindow(page, size, a.Length);
      if w.Failure? {
        return Failure(w.error), arranged;
      }
      r := Success(Page(a[w.value.start..w.value.end], a.Length));
    }

    function FindById(id: int): Option<Txn>
      reads this
    {
      TransactionStore.FindById(State(), id)
    }

    /** findByAccountId on the current state: it fails exactly when a stored
        record has no account id or the page starts past the account's
        records, and otherwise returns the page's window of the account's
        records, newest first, with their count as the total. */
    function FindByAccountId(accountId: string, page: int, size: int): (r: Result<Page, Exception>)
      reads this
      requires Valid()
      requires PageableOk(page, size)
      ensures r.Success? <==>
        AllAccountIds(Snapshot(State())) && Offset(page, size) <= |OfAccount(Snapshot(State()), accountId)|
      ensures r.Success? ==> r.value.totalElements == |OfAccount(Snapshot(State()), accountId)|
      ensures r.Success? ==>
        var matching := SortDesc(OfAccount(Snapshot(State()), accountId));
        var w := PageWindow(page, size, |matching|);
        w.Success? && r.value.content == matching[w.value.start..w.value.end]
      ensures r == TransactionStore.FindByAccountId(State(), accountId, page, size)
    {
      FindByAccountIdSpec(State(), accountId, page, size);
      TransactionStore.FindByAccountId(State(), accountId, page, size)
    }

    /** getStatistics on the current state: a NullPointerException exactly
        when a stored record lacks an amount, a type or a status, and
        otherwise one count per stored record. */
    function GetStatistics(): (r: Result<Stats, Exception>)
      reads this
      requires Valid()
      ensures r.Failure? <==>
        !(AllAmounts(Snapshot(State())) && AllTypes(Snapshot(State())) && AllStatuses(Snapshot(State())))
      ensures r.Success? ==> r.value.totalTransactions == |repository|
    {
      SnapshotSize(State());
      TransactionStore.GetStatistics(State())
    }
  }

  /** The first create after construction stores its record under id 21,
      where findById then finds it. */
  method FirstCreateGetsId21(types: seq<string>, amounts: seq<real>, clocks: seq<ClockReadings>, t: Txn, later: ClockReadings)
    returns (service: TransactionService, outcome: Outcome)
    requires |types| == SampleCount && |amounts| == SampleCount && |clocks| == SampleCount
    requires t.amount.Some?
    ensures outcome.Created? && outcome.record.id == Some(21)
    ensures service.FindById(21) == Some(outcome.record)
  {
    service := new TransactionService(types, amounts, clocks);
    outcome := service.Create(t, later, false);
  }
}
