# BankCore transaction core in Dafny

BankCore is a Spring Boot demo of a banking back end. At its centre is
`TransactionService`, an in-memory transaction store. It keeps a map from id
to `Transaction` and an id counter that starts at 1. It fills itself with 20
sample records, then creates, updates (with an optimistic version check),
deletes, looks up, pages and summarises records. Around it sit:

- the bean-validation rules of the `Transaction` entity and the stricter ones
  of the `TransactionRequest` DTO;
- `GlobalExceptionHandler`, which turns every exception into an HTTP status,
  an error code and details;
- `AuditService`, a log of audit entries keyed by ids that are never reused;
- `BankingEventHandler`, which decides which audits, notifications,
  compliance checks and account freezes an event sets off;
- the lookups and defaults of `BankingConfigProperties`;
- the request helpers of `AuditAspect`: client IP, user agent, current user,
  and the test that flags a failure as suspicious.

The project is made of these modules:

- `TransactionModel` (transaction.dfy): the entity as a datatype with `Option`
  fields for the nullable Java fields, its validation, and `prePersist`.
- `TransactionRequestModel` (request.dfy): the DTO. Amounts are exact
  `BigDecimal`s, written as unscaled value and scale, because `@Digits` looks at
  the scale.
- `TransactionStore` (store.dfy): the service as functions on a `Store` value.
  This module holds the specification of every operation and the lemmas about
  them.
- `TransactionServiceModel` (service.dfy): the service as a class. The
  repository map and the counter are fields, updated in place by the
  constructor, `Create`, `Update` and `Delete`. Each method is proved against
  the matching `TransactionStore` function. `FindAll` copies the records into
  an array and sorts it in place.
- `Ordering`, `Paging` and `Statistics`: the newest-first sort, the offset page
  window, and `getStatistics` (sum, grouping counts, HALF_UP average).
- `ExceptionHandling` (error_handler.dfy): every `handle*` method as one
  function from the exception to the response.
- `Audit` (audit_service.dfy): `AuditService` as a class, plus its log as a
  value.
- `EventHandling` (events.dfy): each handler as the list of downstream calls it
  makes. The handlers call one another directly, so one event's calls happen
  in order, and an exception stops the list.
- `BankingConfig` (config.dfy) and `AuditAspectHelpers` (aspect.dfy).
- `Text`, `Wrappers`, `Exceptions`, `Collections`: Java string operations,
  Option/Result, the exception classes, and map iteration orders.

Values the program gets from the clock, from `Math.random`, from the fraud
model, from the servlet request or from the security context are parameters of
the model.

Where the code and its written description disagree, the model follows the
code. Four such places:

- The controller validates the `Transaction` entity, not the
  `TransactionRequest` DTO. The two disagree on the account id: the entity
  allows 10–20 characters, the DTO 10–34.
- `create` itself accepts amounts of zero or less. Only the test helper refuses
  them.
- An amount of exactly 10000 starts the compliance chain, yet `create` stores
  that amount as COMPLETED without approval.
- The default `dataRetentionDays` of 2555 breaks its own `@Max(365)`.
  Whether Spring refuses it depends on binding: the bounds are checked when
  the nested compliance settings (banking.compliance.*) are bound from
  properties, so a deployment that sets nothing under that prefix may keep
  the unchecked default.

## Model

Source paths are relative to the repository root.

| member | source | states |
|---|---|---|
| TransactionServiceModel.TransactionService.constructor | app/src/main/java/com/bankcore/service/TransactionService.java:292-313 | the loop leaves the store equal to the 20 sample records under ids 1..20 with the counter at 21, and the store invariant holds |
| TransactionStore.SampleStoreSpec | app/src/main/java/com/bankcore/service/TransactionService.java:292-313 | the sample store holds exactly ids 1..20, every record COMPLETED, version 0, USD, and the next create gets id 21 |
| TransactionStore.SampleRecordValid | app/src/main/java/com/bankcore/service/TransactionService.java:296-307 | a sample record's account id ("ACC" plus ten digits) is 13 UTF-16 units long, and the record passes the entity's validation when its random type and amount are in range |
| TransactionStore.SampleRecord | app/src/main/java/com/bankcore/service/TransactionService.java:296-307 | sample i gets id i+1, version 0, COMPLETED, USD, the given type and amount, an account id starting "ACC", and each timestamp is its own clock reading moved back i days |
| TransactionStore.SampleStore | app/src/main/java/com/bankcore/service/TransactionService.java:292-313 | the constructed store holds exactly ids 1..20, each id k holding sample k-1, and the counter is 21 |
| TransactionStore.SampleRepositoryStep | app/src/main/java/com/bankcore/service/TransactionService.java:295-310 | one loop turn adds sample i under id i+1 and keeps the earlier samples |
| TransactionServiceModel.FirstCreateGetsId21 | app/src/test/java/com/bankcore/service/TransactionServiceTest.java:33-57 | after construction, a create with an amount stores its record under id 21, where findById finds it |
| TransactionServiceModel.TransactionService.Create | app/src/main/java/com/bankcore/service/TransactionService.java:88-117 | the answer is Process with the drawn id, the counter advances by one even when processing throws, and only a processed record is stored |
| TransactionStore.Process | app/src/main/java/com/bankcore/service/TransactionService.java:92-116 | the record gets the drawn id, version 0, and createdAt and updatedAt from their own clock readings; it is created iff the delay is not interrupted and the amount is present; otherwise the exception escapes and the record is FAILED carrying that exception's message |
| TransactionStore.AfterCreate | app/src/main/java/com/bankcore/service/TransactionService.java:92-103 | the counter advances by one; the drawn id is added to the stored ids iff processing succeeded; every other stored record is unchanged |
| TransactionStore.ProcessThreshold | app/src/main/java/com/bankcore/service/TransactionService.java:263-277 | a created record has the drawn id, version 0, createdAt and updatedAt from two separate clock readings; above 10000 it is PENDING_APPROVAL with processedAt untouched, otherwise COMPLETED with processedAt from a third reading; account, amount, currency and every other field are the caller's |
| TransactionStore.TenThousandCompletes | app/src/main/java/com/bankcore/service/TransactionService.java:268 | an amount of exactly 10000 is COMPLETED, because the comparison is strict |
| TransactionStore.NullAmountFails | app/src/main/java/com/bankcore/service/TransactionService.java:109-116 | a null amount throws a NullPointerException; the record is marked FAILED with that message and carries the drawn id; nothing is stored and the counter has still advanced |
| TransactionStore.NonPositiveAmountIsStored | app/src/main/java/com/bankcore/service/TransactionService.java:88-107 | create stores an amount of zero or less as COMPLETED: the service has no positivity check |
| TransactionStore.CreateSpec | app/src/main/java/com/bankcore/service/TransactionService.java:92-102 | create keeps the store invariant and advances the counter by one; the drawn id was free; findById then answers the record on success and nothing on failure; every other id answers as before |
| TransactionStore.CreateAppendsToSnapshot | app/src/main/java/com/bankcore/service/TransactionService.java:102 | a stored create appends its record to the end of the store's listing |
| TransactionStore.CreateAddsToTotal | app/src/main/java/com/bankcore/service/TransactionService.java:209-211 | after a stored create, totalAmount grows by exactly the new amount |
| TransactionServiceModel.TransactionService.Update | app/src/main/java/com/bankcore/service/TransactionService.java:128-158 | the answer and the new store are UpdateResult and AfterUpdate of the old store; the invariant holds |
| TransactionStore.UpdateResult | app/src/main/java/com/bankcore/service/TransactionService.java:128-158 | update succeeds iff the id is stored with a version and the submitted version equals it; the result keeps the id and carries the version plus one |
| TransactionStore.AfterUpdate | app/src/main/java/com/bankcore/service/TransactionService.java:143-148 | update keeps the counter and the set of stored ids, and changes no record but the one updated |
| TransactionStore.UpdateMissingId | app/src/main/java/com/bankcore/service/TransactionService.java:132-135 | an unknown id throws IllegalArgumentException "Transaction not found: " + id, and the store is unchanged |
| TransactionStore.UpdateStaleVersion | app/src/main/java/com/bankcore/service/TransactionService.java:137-141 | a submitted version that differs from the stored one, a null one included, throws OptimisticLockingFailureException and changes nothing |
| TransactionStore.UpdateSuccess | app/src/main/java/com/bankcore/service/TransactionService.java:143-151 | a matching version replaces exactly amount, description and status (nulls included), sets updatedAt, adds one to the version and keeps id, account, type, currency, createdAt, processedAt and the counter |
| TransactionStore.SecondUpdateWithOldVersionFails | app/src/test/java/com/bankcore/service/TransactionServiceTest.java:138-171 | repeating a successful update with the same old version fails with the optimistic-locking exception |
| TransactionStore.UpdatePreservesValid | app/src/main/java/com/bankcore/service/TransactionService.java:143-148 | update keeps the store invariant |
| TransactionStore.UpdateMissingIdIsBadRequest | app/src/main/java/com/bankcore/service/TransactionService.java:134 | an update of a missing id reaches the client as 400 INVALID_ARGUMENT whose details name the id, not as 404 |
| TransactionServiceModel.TransactionService.Delete | app/src/main/java/com/bankcore/service/TransactionService.java:163-177 | the answer is whether the id was stored; the new store is the old one without that id |
| TransactionStore.DeleteSpec | app/src/main/java/com/bankcore/service/TransactionService.java:163-177 | delete answers true iff findById found the id, removes it whatever its version, leaves other ids and the counter alone; a second delete answers false and changes nothing |
| TransactionStore.Deleted | app/src/main/java/com/bankcore/service/TransactionService.java:167-168 | delete answers true iff findById finds the id |
| TransactionStore.AfterDelete | app/src/main/java/com/bankcore/service/TransactionService.java:167 | the removal drops exactly the id, keeps every other record as it was and does not touch the counter |
| TransactionStore.DeletePreservesValid | app/src/main/java/com/bankcore/service/TransactionService.java:167 | delete keeps the store invariant |
| TransactionStore.FindById | app/src/main/java/com/bankcore/service/TransactionService.java:73-76 | findById answers a record iff the id is stored; in a consistent store that record carries the id and is one of the stored records |
| TransactionServiceModel.TransactionService.FindAll | app/src/main/java/com/bankcore/service/TransactionService.java:56-67 | the page is a slice of a newest-first permutation of all records; total is the store size; a page that starts past the end fails (the corrected paging, see Findings) |
| Ordering.SortInPlace | app/src/main/java/com/bankcore/service/TransactionService.java:60 | the array ends sorted by createdAt, newest first, and is a permutation of what it held |
| Ordering.Swap | app/src/main/java/com/bankcore/service/TransactionService.java:60 | exchanging two neighbours changes exactly those two cells and keeps the multiset |
| Ordering.SwapStep | app/src/main/java/com/bankcore/service/TransactionService.java:60 | one swap moves the out-of-place element one step left and keeps the rest sorted |
| Ordering.InsertDesc | app/src/main/java/com/bankcore/service/TransactionService.java:188 | inserting into a newest-first list keeps it sorted and adds exactly the new element |
| Ordering.SortDesc | app/src/main/java/com/bankcore/service/TransactionService.java:188 | the stream sort returns a newest-first permutation of its input |
| Ordering.SortDescOfSorted | app/src/main/java/com/bankcore/service/TransactionService.java:188 | sorting an already sorted list changes nothing |
| Paging.SubList | app/src/main/java/com/bankcore/service/TransactionService.java:65 | subList succeeds iff 0 <= from <= to <= size, and then yields that range |
| Paging.PageWindow | app/src/main/java/com/bankcore/service/TransactionService.java:62-65 | the corrected window exists iff the offset is at most the total; it starts at the offset and ends within the total; otherwise IllegalArgumentException |
| Paging.PageWindowAsWritten | app/src/main/java/com/bankcore/service/TransactionService.java:62-65 | the window as written starts at the offset narrowed to int and lies within the total; a negative narrowed offset throws IndexOutOfBoundsException |
| Paging.ToInt32 | app/src/main/java/com/bankcore/service/TransactionService.java:62 | the narrowing to int lands in the int range, agrees with its input modulo 2^32, and is the identity inside the range |
| Paging.PageWindowSpec | app/src/main/java/com/bankcore/service/TransactionService.java:62-65 | a page exists iff its offset is at most the total; it then starts at the offset and holds min(size, total - offset) elements; otherwise subList throws IllegalArgumentException |
| Paging.PagesTile | app/src/main/java/com/bankcore/service/TransactionService.java:62-63 | consecutive pages meet: one ends where the next starts |
| Paging.AsWrittenAgreesBelowOverflow | app/src/main/java/com/bankcore/service/TransactionService.java:62-63 | while offset + size fits in an int, the code as written computes the same window as the corrected one |
| Paging.AsWrittenWrapsToEarlyPage | app/src/main/java/com/bankcore/service/TransactionService.java:62-65 | page 42949673 of size 100 over 20 records returns elements [4, 20) as written, where no such page exists |
| Paging.AsWrittenWrapsNegative | app/src/main/java/com/bankcore/service/TransactionService.java:62-65 | page 21474837 of size 100 wraps to a negative start, and subList throws IndexOutOfBoundsException |
| TransactionStore.OfAccount | app/src/main/java/com/bankcore/service/TransactionService.java:186-187 | the filter keeps every record of the account, as often as it occurs in the input, and no other record |
| TransactionStore.FindByAccountId | app/src/main/java/com/bankcore/service/TransactionService.java:183-196 | in a valid store, findByAccountId succeeds iff every record has an account id and the offset is at most the number of the account's records; total is that number |
| TransactionStore.AccountPage | app/src/main/java/com/bankcore/service/TransactionService.java:186-195 | over listed records, the page exists iff the offset is at most the number of matching records; otherwise subList throws IllegalArgumentException; a page holds at most size records, and total is the number of matches |
| TransactionServiceModel.TransactionService.FindByAccountId | app/src/main/java/com/bankcore/service/TransactionService.java:183-196 | on a valid state, fails iff a stored record has no account id or the offset is past the account's records; otherwise the content is exactly the page's window of the account's records sorted newest first and the total is their count; the same answer as TransactionStore.FindByAccountId, so FindByAccountIdSpec applies |
| TransactionStore.FindByAccountIdSpec | app/src/main/java/com/bankcore/service/TransactionService.java:183-196 | in a valid store, the call fails iff some record has a null account id (NullPointerException) or the corrected page window fails; on success the content is exactly that window of the account's records sorted newest first, total is their number, and the items belong to the account, are sorted, at most the page size and drawn from the store |
| TransactionStore.AccountPageSpec | app/src/main/java/com/bankcore/service/TransactionService.java:186-195 | over listed records: the page fails iff the window fails; the matching list holds every record of the account as often as listed and no other; on success the content is exactly the window of that list sorted newest first, with total its length |
| TransactionStore.AccountPageContent | app/src/main/java/com/bankcore/service/TransactionService.java:186-194 | an existing page holds only the account's records, newest first, drawn from the input |
| TransactionStore.SliceOfSorted | app/src/main/java/com/bankcore/service/TransactionService.java:194 | a slice of a sorted list is sorted and drawn from the list |
| TransactionStore.SnapshotSize | app/src/main/java/com/bankcore/service/TransactionService.java:59 | the listing of the records has one entry per stored id |
| TransactionStore.SnapshotUpToSize | app/src/main/java/com/bankcore/service/TransactionService.java:59 | the listing up to n has as many entries as there are stored ids up to n |
| TransactionStore.SnapshotUpToMembers | app/src/main/java/com/bankcore/service/TransactionService.java:59 | the listing holds exactly the stored records |
| TransactionStore.SnapshotUpToAgree | app/src/main/java/com/bankcore/service/TransactionService.java:59 | two stores that agree on ids 1..n list the same records |
| TransactionStore.StatisticsCountAll | app/src/main/java/com/bankcore/service/TransactionService.java:208 | totalTransactions equals the store size |
| TransactionStore.GetStatistics | app/src/main/java/com/bankcore/service/TransactionService.java:202-228 | throws a NullPointerException iff a stored record lacks an amount, a type or a status; otherwise counts every stored record |
| TransactionServiceModel.TransactionService.GetStatistics | app/src/main/java/com/bankcore/service/TransactionService.java:202-228 | on a valid state, fails iff a stored record lacks an amount, a type or a status; otherwise totalTransactions is the number of stored records |
| Statistics.StatisticsOf | app/src/main/java/com/bankcore/service/TransactionService.java:202-228 | getStatistics throws a NullPointerException iff some record lacks an amount, a type or a status, a missing amount first; otherwise totalTransactions is the number of records |
| Statistics.StatisticsSpec | app/src/main/java/com/bankcore/service/TransactionService.java:201-228 | statistics exist iff every record has an amount, type and status; then the count is the number of records, totalAmount the exact sum, every type and status a key, and the average the integer 0 exactly when empty and otherwise within half a hundredth of the mean |
| Statistics.GroupCountsAddUp | app/src/main/java/com/bankcore/service/TransactionService.java:213-219 | the byType counts and the byStatus counts each add up to totalTransactions |
| Statistics.AppendAddsToTotal | app/src/main/java/com/bankcore/service/TransactionService.java:209-211 | appending a record adds its amount to totalAmount |
| Statistics.CountByCounts | app/src/main/java/com/bankcore/service/TransactionService.java:213-219 | groupingBy-counting has a key iff the value occurs, mapped to its number of occurrences |
| Statistics.CountPositiveIffOccurs | app/src/main/java/com/bankcore/service/TransactionService.java:214 | a value's count is positive iff it occurs |
| Statistics.CountByKeys | app/src/main/java/com/bankcore/service/TransactionService.java:213-219 | the keys of the grouping are exactly the values that occur |
| Statistics.CountsAddUp | app/src/main/java/com/bankcore/service/TransactionService.java:213-219 | the grouping's counts, summed in any key order, equal the number of values |
| Statistics.SumOverCountBy | app/src/main/java/com/bankcore/service/TransactionService.java:214 | summing the grouping equals counting each key in the values |
| Statistics.SumCountOfCover | app/src/main/java/com/bankcore/service/TransactionService.java:214 | counting every value over distinct keys that cover them gives the number of values |
| Statistics.SumCountSnoc | app/src/main/java/com/bankcore/service/TransactionService.java:214 | one more value adds its number of occurrences among the keys |
| Statistics.OccurrencesOfDistinct | app/src/main/java/com/bankcore/service/TransactionService.java:214 | a key occurs at most once in a list of distinct keys |
| Statistics.SumCountOfEmpty | app/src/main/java/com/bankcore/service/TransactionService.java:214 | no values count to zero |
| Statistics.RoundHalfUp | app/src/main/java/com/bankcore/service/TransactionService.java:225 | rounding a non-negative value gives a non-negative count of hundredths |
| Statistics.RoundHalfUpIsNearest | app/src/main/java/com/bankcore/service/TransactionService.java:225 | the rounded hundredths are within half a hundredth of the value |
| Statistics.RoundHalfUpExact | app/src/main/java/com/bankcore/service/TransactionService.java:225 | a value with two fraction digits is kept exactly |
| Statistics.RoundHalfUpTiesAwayFromZero | app/src/main/java/com/bankcore/service/TransactionService.java:225 | halves round away from zero on both signs |
| Statistics.RoundHalfUpOdd | app/src/main/java/com/bankcore/service/TransactionService.java:225 | rounding commutes with negation |
| TransactionStore.RecoverCreate | app/src/main/java/com/bankcore/service/TransactionService.java:233-246 | the record comes back FAILED with the fixed "temporarily unavailable" message, otherwise unchanged |
| TransactionStore.RecoverUpdateIsInternalError | app/src/main/java/com/bankcore/service/TransactionService.java:248-258 | the IllegalStateException thrown there would reach the client as 500 INTERNAL_ERROR |
| TransactionStore.RecoverUpdate | app/src/main/java/com/bankcore/service/TransactionService.java:248-258 | recoverUpdateTransaction throws an IllegalStateException with the fixed "modified by another process" text, never a domain exception |
| TransactionModel.NewTxn | app/src/main/java/com/bankcore/model/Transaction.java:65-67 | a new record has status "PENDING" and each of its other eighteen fields null |
| TransactionModel.EntityValid | app/src/main/java/com/bankcore/model/Transaction.java:35-67 | a record is valid iff no field's constraint fails |
| TransactionModel.Violations | app/src/main/java/com/bankcore/model/Transaction.java:35-67 | a valid record has no violations, and there are at most eleven |
| TransactionModel.ValidIffNoViolations | app/src/main/java/com/bankcore/model/Transaction.java:35-67 | a record is valid iff bean validation reports no violation |
| TransactionModel.ViolatedFieldsAreInvalidFields | app/src/main/java/com/bankcore/model/Transaction.java:35-67 | the fields named by the violations are exactly the fields whose constraints fail |
| TransactionModel.AccountIdViolationFields | app/src/main/java/com/bankcore/model/Transaction.java:35-38 | accountId is reported iff it is null, blank, or outside 10..20 UTF-16 code units |
| TransactionModel.TransactionTypeViolationFields | app/src/main/java/com/bankcore/model/Transaction.java:40-43 | transactionType is reported iff it is not exactly DEPOSIT, WITHDRAWAL or TRANSFER |
| TransactionModel.AmountViolationFields | app/src/main/java/com/bankcore/model/Transaction.java:45-49 | amount is reported iff it is null or outside 0.01..1000000.00 inclusive |
| TransactionModel.CurrencyViolationFields | app/src/main/java/com/bankcore/model/Transaction.java:51-54 | currency is reported iff it is not exactly USD, EUR or GBP |
| TransactionModel.DescriptionStatusViolationFields | app/src/main/java/com/bankcore/model/Transaction.java:56-67 | description is reported iff longer than 255 UTF-16 code units; status iff null or blank |
| TransactionModel.FieldsOfConcat | app/src/main/java/com/bankcore/model/Transaction.java:35-67 | the fields reported by two lists of violations are the union of each |
| TransactionModel.FieldsOfSingleton | app/src/main/java/com/bankcore/model/Transaction.java:35-67 | one violation reports its own field |
| TransactionModel.FieldsOfSix | app/src/main/java/com/bankcore/model/Transaction.java:35-67 | the fields of the six field checks together are the union of each |
| TransactionModel.IntegrationTestBodyInvalidFields | app/src/test/java/com/bankcore/integration/BankingIntegrationTest.java:104-130 | the integration test's body (status set, description within bounds) fails exactly on accountId, transactionType, amount and currency |
| TransactionModel.NotBlankWitness | app/src/main/java/com/bankcore/model/Transaction.java:35 | a string with a character above the space is not blank |
| TransactionModel.PrePersistAssignsReference | app/src/main/java/com/bankcore/model/Transaction.java:107-112 | prePersist gives a missing reference number one that starts "TXN-", keeps an existing one, and changes no other field |
| TransactionModel.PrePersistIdempotent | app/src/main/java/com/bankcore/model/Transaction.java:107-112 | applying prePersist a second time, at any time, changes nothing |
| TransactionModel.PrePersist | app/src/main/java/com/bankcore/model/Transaction.java:107-112 | after prePersist the reference number is present, and a record that already had one is left as it was |
| TransactionModel.ShortAccountIdInvalid | app/src/main/java/com/bankcore/model/Transaction.java:35-38 | an account id of fewer than 10 Basic Multilingual Plane characters is refused |
| TransactionModel.NonBmpAccountIdTooLong | app/src/main/java/com/bankcore/model/Transaction.java:36 | 11 characters outside the Basic Multilingual Plane count as 22 UTF-16 units, so that account id is refused although it has 11 characters |
| Text.Utf16Length | app/src/main/java/com/bankcore/model/Transaction.java:36 | a string's UTF-16 length lies between its character count and twice that |
| Text.Utf16LengthOfBmp | app/src/main/java/com/bankcore/model/Transaction.java:36 | a string of Basic Multilingual Plane characters has one UTF-16 unit per character |
| Text.Utf16LengthOutsideBmp | app/src/main/java/com/bankcore/model/Transaction.java:36 | a string of characters outside the Basic Multilingual Plane has two UTF-16 units per character |
| TransactionRequestModel.ToTransaction | app/src/test/java/com/bankcore/service/TransactionServiceTest.java:259-273 | the copy fails with "Amount must be positive" iff an amount is present and not above zero; otherwise it keeps account, currency and the presence of the amount, with status PENDING |
| TransactionRequestModel.RequestValid | app/src/main/java/com/bankcore/dto/TransactionRequest.java:19-103 | a valid request has a known type, a known currency and a description the entity also accepts |
| TransactionRequestModel.DigitsOk | app/src/main/java/com/bankcore/dto/TransactionRequest.java:48 | an amount that passes @Digits with a non-negative scale has an unscaled value below 10 to the power of the integer digits plus the scale |
| TransactionRequestModel.ValidRequestGivesValidEntity | app/src/main/java/com/bankcore/dto/TransactionRequest.java:19-103 | a valid request whose account id has at most 20 UTF-16 code units copies into a valid entity |
| TransactionRequestModel.LongAccountIdPassesRequestOnly | app/src/main/java/com/bankcore/dto/TransactionRequest.java:19-31 | a 21-character account id passes the request's 10..34 bound and fails the entity's 10..20 |
| TransactionRequestModel.DigitsBoundMagnitude | app/src/main/java/com/bankcore/dto/TransactionRequest.java:48 | an amount with at most 7 integer digits is below 10^7 in absolute value |
| TransactionRequestModel.IntegerBound | app/src/main/java/com/bankcore/dto/TransactionRequest.java:48 | a negative scale with at most 7 integer digits keeps the value below 10^7 |
| TransactionRequestModel.FractionBound | app/src/main/java/com/bankcore/dto/TransactionRequest.java:48 | a value with up to 2 fraction digits and 7 + scale digits is below 10^7 |
| TransactionRequestModel.NumDigitsBound | app/src/main/java/com/bankcore/dto/TransactionRequest.java:48 | a number is below 10 to the power of its digit count |
| TransactionRequestModel.Pow10 | app/src/main/java/com/bankcore/dto/TransactionRequest.java:48 | powers of ten are at least 1 |
| TransactionRequestModel.NumDigits | app/src/main/java/com/bankcore/dto/TransactionRequest.java:48 | every number, zero included, has at least one digit |
| TransactionRequestModel.Pow10Monotone | app/src/main/java/com/bankcore/dto/TransactionRequest.java:48 | powers of ten grow with the exponent |
| TransactionRequestModel.Pow10Add | app/src/main/java/com/bankcore/dto/TransactionRequest.java:48 | 10^(a+b) = 10^a * 10^b |
| TransactionRequestModel.ThreeFractionDigitsRejected | app/src/main/java/com/bankcore/dto/TransactionRequest.java:48 | 1.001 is rejected for its third fraction digit |
| TransactionRequestModel.TrailingZerosCount | app/src/main/java/com/bankcore/dto/TransactionRequest.java:48 | 1.000 and 1 have the same value, yet 1.000 is rejected and 1 accepted, because @Digits reads the scale |
| TransactionRequestModel.MaxAmountAccepted | app/src/main/java/com/bankcore/dto/TransactionRequest.java:45-48 | 1000000.00 is accepted: both bounds are inclusive and it has 7 integer digits |
| TransactionRequestModel.LowerCaseUuidAccepted | app/src/main/java/com/bankcore/dto/TransactionRequest.java:93-103 | a lower-case UUID is a valid idempotency key |
| TransactionRequestModel.UpperCaseUuidRejected | app/src/main/java/com/bankcore/dto/TransactionRequest.java:93-103 | the same UUID in upper case is refused |
| TransactionRequestModel.EmptyTargetAccountAccepted | app/src/main/java/com/bankcore/dto/TransactionRequest.java:81-91 | the empty target account passes |
| ExceptionHandling.Handle | app/src/main/java/com/bankcore/exception/GlobalExceptionHandler.java:26-209 | every response carries the path, the trace id and the time, and has validation errors iff it answers a bean-validation or constraint failure |
| ExceptionHandling.StatusFollowsCode | app/src/main/java/com/bankcore/exception/GlobalExceptionHandler.java:26-209 | the code fixes the status (402, 404, 409, 409, 503, 400, 400, 400, 500); the status is 4xx exactly for client-fault exceptions and 5xx otherwise |
| ExceptionHandling.CodeIdentifiesHandler | app/src/main/java/com/bankcore/exception/GlobalExceptionHandler.java:26-209 | the code of a response names the handler that produced it |
| ExceptionHandling.HandlerOfEachCode | app/src/main/java/com/bankcore/exception/GlobalExceptionHandler.java:26-209 | each of the nine codes reads back to its own handler |
| ExceptionHandling.InsufficientFundsDetails | app/src/main/java/com/bankcore/exception/GlobalExceptionHandler.java:26-44 | 402 INSUFFICIENT_FUNDS with details exactly "Available balance: " + available + ", Requested amount: " + requested, which therefore start with the balance and end with the requested amount |
| ExceptionHandling.IllegalArgumentKeepsMessage | app/src/main/java/com/bankcore/exception/GlobalExceptionHandler.java:173-189 | 400 INVALID_ARGUMENT with the exception message as details |
| ExceptionHandling.InternalErrorHidesException | app/src/main/java/com/bankcore/exception/GlobalExceptionHandler.java:191-209 | every unhandled exception gives the same 500 response, whatever its class or message |
| ExceptionHandling.CollectValidationErrors | app/src/main/java/com/bankcore/exception/GlobalExceptionHandler.java:122-127 | the loop of puts builds exactly the validation map |
| ExceptionHandling.ValidationErrorMapKeys | app/src/main/java/com/bankcore/exception/GlobalExceptionHandler.java:122-127 | the map has one key per failing field |
| ExceptionHandling.ValidationErrorMapLastWins | app/src/main/java/com/bankcore/exception/GlobalExceptionHandler.java:122-127 | each field maps to the message of its last error |
| ExceptionHandling.LaterErrorOverwrites | app/src/main/java/com/bankcore/exception/GlobalExceptionHandler.java:126 | two errors on one field leave the second message |
| ExceptionHandling.ValidationAnswer | app/src/main/java/com/bankcore/exception/GlobalExceptionHandler.java:118-145 | bean-validation failure gives 400 VALIDATION_FAILED with the validation map |
| ExceptionHandling.InvalidEntityAnswer | app/src/main/java/com/bankcore/exception/GlobalExceptionHandler.java:118-145 | an invalid entity gives 400 VALIDATION_FAILED whose keys are exactly its invalid fields, and at least one |
| ExceptionHandling.PathStripsUriPrefix | app/src/main/java/com/bankcore/exception/GlobalExceptionHandler.java:40 | "uri=" + path gives back the path |
| ExceptionHandling.PathMayStillContainUri | app/src/main/java/com/bankcore/exception/GlobalExceptionHandler.java:40 | a single left-to-right pass of removals can leave "uri=" behind |
| ExceptionHandling.PathOf | app/src/main/java/com/bankcore/exception/GlobalExceptionHandler.java:40 | the path is never longer than the description, and equals it exactly when "uri=" does not occur in it |
| ExceptionHandling.ValidationErrorMap | app/src/main/java/com/bankcore/exception/GlobalExceptionHandler.java:122-127 | the map has at most one entry per error, and the last error's field maps to its message |
| ExceptionHandling.JoinEntries | app/src/main/java/com/bankcore/exception/GlobalExceptionHandler.java:134-137 | the joined "key: value" text is empty iff there are no fields, begins with the first field's entry and ends with the last one's |
| Text.RemoveAllChangesIffOccurs | app/src/main/java/com/bankcore/exception/GlobalExceptionHandler.java:40 | removing changes the string iff the pattern occurs in it |
| Text.RemoveAll | app/src/main/java/com/bankcore/exception/GlobalExceptionHandler.java:40 | removing occurrences never lengthens the string, and a string that starts with the pattern loses at least the pattern's length |
| Text.RemoveAllWithoutOccurrence | app/src/main/java/com/bankcore/exception/GlobalExceptionHandler.java:40 | a string without the pattern is unchanged |
| Text.RemoveAllLeadingOccurrence | app/src/main/java/com/bankcore/exception/GlobalExceptionHandler.java:40 | a leading occurrence is removed, and the rest kept |
| Audit.AuditService.constructor | app/src/main/java/com/bankcore/service/AuditService.java:18-19 | the log starts empty with the counter at 1 |
| Audit.AuditService.Append | app/src/main/java/com/bankcore/service/AuditService.java:24-36 | the new log is Record of the old one, and the total grows by one |
| Audit.AuditService.RecordMethodEntry | app/src/main/java/com/bankcore/service/AuditService.java:22-38 | one METHOD_ENTRY entry is recorded under a fresh id |
| Audit.AuditService.RecordMethodSuccess | app/src/main/java/com/bankcore/service/AuditService.java:40-56 | one METHOD_SUCCESS entry is recorded under a fresh id |
| Audit.AuditService.RecordMethodFailure | app/src/main/java/com/bankcore/service/AuditService.java:58-74 | one METHOD_FAILURE entry is recorded under a fresh id |
| Audit.AuditService.RecordDataModificationAttempt | app/src/main/java/com/bankcore/service/AuditService.java:77-91 | one DATA_MODIFICATION_ATTEMPT entry is recorded under a fresh id |
| Audit.AuditService.RecordDataModificationSuccess | app/src/main/java/com/bankcore/service/AuditService.java:93-106 | one DATA_MODIFICATION_SUCCESS entry is recorded under a fresh id |
| Audit.AuditService.RecordDataModificationFailure | app/src/main/java/com/bankcore/service/AuditService.java:108-123 | one DATA_MODIFICATION_FAILURE entry is recorded under a fresh id |
| Audit.AuditService.RecordSecurityCheck | app/src/main/java/com/bankcore/service/AuditService.java:126-141 | one SECURITY_CHECK entry is recorded under a fresh id |
| Audit.AuditService.RecordSecurityViolation | app/src/main/java/com/bankcore/service/AuditService.java:143-160 | one SECURITY_VIOLATION entry with severity HIGH is recorded under a fresh id |
| Audit.AuditService.RecordSecurityAlert | app/src/main/java/com/bankcore/service/AuditService.java:162-178 | one SECURITY_ALERT entry with the caller's severity is recorded under a fresh id |
| Audit.AuditService.RecordLoggedEvent | app/src/main/java/com/bankcore/service/AuditService.java:181-214 | the seven event-specific methods leave the log and the counter unchanged |
| Audit.AuditService.ClearAuditLog | app/src/main/java/com/bankcore/service/AuditService.java:217-224 | the log is emptied, the total becomes 0, and the counter keeps its value |
| Audit.RecordAddsOne | app/src/main/java/com/bankcore/service/AuditService.java:22-38 | recording adds exactly one entry, under the decimal key of the id the counter held, which no earlier entry has; earlier entries stay; the counter goes up by one |
| Audit.ClearKeepsCounter | app/src/main/java/com/bankcore/service/AuditService.java:221-224 | after a clear the log is empty, and the next entry's id exceeds that of every entry recorded before the clear |
| Audit.SeverityRules | app/src/main/java/com/bankcore/service/AuditService.java:143-178 | a violation is always HIGH, an alert keeps the caller's severity, and the two have different event types |
| Audit.MethodEntryEntry | app/src/main/java/com/bankcore/service/AuditService.java:24-34 | METHOD_ENTRY with the method, arguments, user, client ip, user agent, trace id and time; no id yet and no severity |
| Audit.MethodSuccessEntry | app/src/main/java/com/bankcore/service/AuditService.java:42-51 | METHOD_SUCCESS with the method, result, duration, user, trace id and time; no id yet and no severity |
| Audit.MethodFailureEntry | app/src/main/java/com/bankcore/service/AuditService.java:60-69 | METHOD_FAILURE with the method, error, duration, user, trace id and time; no id yet and no severity |
| Audit.DataModificationAttemptEntry | app/src/main/java/com/bankcore/service/AuditService.java:79-87 | DATA_MODIFICATION_ATTEMPT with the method, arguments, user, client ip and the caller's timestamp; no severity |
| Audit.DataModificationSuccessEntry | app/src/main/java/com/bankcore/service/AuditService.java:95-102 | DATA_MODIFICATION_SUCCESS with the method, result, user and the caller's timestamp; no severity |
| Audit.DataModificationFailureEntry | app/src/main/java/com/bankcore/service/AuditService.java:110-118 | DATA_MODIFICATION_FAILURE with the method, error, error type, user and the caller's timestamp; no severity |
| Audit.SecurityCheckEntry | app/src/main/java/com/bankcore/service/AuditService.java:128-136 | SECURITY_CHECK with the method, user, client ip, check type and the caller's timestamp; no severity |
| Audit.SecurityViolationEntry | app/src/main/java/com/bankcore/service/AuditService.java:145-155 | SECURITY_VIOLATION with the violation type, method, user, client ip and details, and severity HIGH whatever the caller |
| Audit.SecurityAlertEntry | app/src/main/java/com/bankcore/service/AuditService.java:164-173 | SECURITY_ALERT with the alert type, message, user, client ip, and the caller's severity |
| Audit.Record | app/src/main/java/com/bankcore/service/AuditService.java:24-36 | the entry goes under the decimal key of the counter with that id, the key set grows by exactly that key, other entries stay, the counter goes up by one |
| Audit.Clear | app/src/main/java/com/bankcore/service/AuditService.java:221-223 | the log becomes empty and the counter is kept, so a valid log stays valid |
| Audit.ClearThenRecord | app/src/main/java/com/bankcore/service/AuditService.java:221-224 | two records, a clear and a third record leave one entry, under key "3" |
| Text.NatToStringInjective | app/src/main/java/com/bankcore/service/AuditService.java:36 | distinct ids have distinct decimal keys |
| Text.ParseNatToString | app/src/main/java/com/bankcore/service/AuditService.java:36 | reading the decimal key back gives the id |
| Text.NatToString | app/src/main/java/com/bankcore/service/AuditService.java:36 | an id's key is a non-empty string of digits |
| EventHandling.CreatedAuditsAndAlerts | app/src/main/java/com/bankcore/event/BankingEventHandler.java:36-56 | a created event with an amount and a creation time is audited first and alerted last, without an exception |
| EventHandling.CreatedWithoutAmountThrows | app/src/main/java/com/bankcore/event/BankingEventHandler.java:41-44 | without an amount or without a creation time, the risk-score computation throws a NullPointerException right after the audit: no fraud chain, no compliance call, no alert |
| EventHandling.FraudChainRule | app/src/main/java/com/bankcore/event/BankingEventHandler.java:44-47 | the fraud chain runs iff the score is above 0.7; its event copies id, account and amount and takes createdAt as detectedAt; the account is frozen iff the score is above 0.9 |
| EventHandling.ComplianceChainRule | app/src/main/java/com/bankcore/event/BankingEventHandler.java:50-52 | the compliance chain runs iff the amount is at least 10000, always as an AML check, never KYC or FATCA |
| EventHandling.TenThousandCheckedYetCompleted | app/src/main/java/com/bankcore/event/BankingEventHandler.java:50 | 10000 triggers the AML check although create stores that amount COMPLETED |
| EventHandling.RejectedRule | app/src/main/java/com/bankcore/event/BankingEventHandler.java:71-82 | a rejection is audited and notified; alternatives are suggested iff the code is INSUFFICIENT_FUNDS; a null code does not throw |
| EventHandling.ApprovedRule | app/src/main/java/com/bankcore/event/BankingEventHandler.java:61-66 | an approved event is audited, then notified, and nothing else |
| EventHandling.TransferRule | app/src/main/java/com/bankcore/event/BankingEventHandler.java:121-135 | a transfer-initiated event is audited, then confirmed, and nothing else |
| EventHandling.FraudSuspectedRule | app/src/main/java/com/bankcore/event/BankingEventHandler.java:87-99 | a fraud event is audited and alerted; the account is frozen iff the score is above 0.9 |
| EventHandling.ComplianceDispatch | app/src/main/java/com/bankcore/event/BankingEventHandler.java:104-116 | the check is always audited; AML, KYC and FATCA reach their own check, any other type none, and a null type throws after the audit |
| EventHandling.BalanceRule | app/src/main/java/com/bankcore/event/BankingEventHandler.java:140-150 | the change is audited; a low-balance alert goes out iff the new balance is below 100; a null balance throws |
| EventHandling.HandleTransactionCreated | app/src/main/java/com/bankcore/event/BankingEventHandler.java:36-56 | the event is audited first, and the handler throws iff the amount or the creation time is missing |
| EventHandling.CreatedRun | app/src/main/java/com/bankcore/event/BankingEventHandler.java:36-56 | with an amount and a creation time nothing throws, and the calls are the audit, the fraud chain, the compliance chain and the alert, in that order |
| EventHandling.FraudChainCalls | app/src/main/java/com/bankcore/event/BankingEventHandler.java:44-47 | the fraud chain makes no call at or below 0.7; above it, it audits and alerts the derived event, and freezes the account above 0.9 |
| EventHandling.ComplianceChainCalls | app/src/main/java/com/bankcore/event/BankingEventHandler.java:50-52 | the compliance chain makes no call below 10000; from 10000 on, it audits the derived event and runs its AML check |
| EventHandling.FraudEventOf | app/src/main/java/com/bankcore/event/BankingEventHandler.java:153-166 | the fraud event copies the transaction id, account id and amount, takes detectedAt from createdAt, carries the score, "Automated risk analysis" and "ML_MODEL" |
| EventHandling.ComplianceEventOf | app/src/main/java/com/bankcore/event/BankingEventHandler.java:168-180 | the compliance event copies the transaction id, account id, amount and type, sets regulation "AML" and triggeredAt to createdAt |
| EventHandling.HandleTransactionApproved | app/src/main/java/com/bankcore/event/BankingEventHandler.java:61-66 | the approval is audited first and nothing throws |
| EventHandling.HandleTransactionRejected | app/src/main/java/com/bankcore/event/BankingEventHandler.java:71-82 | the rejection is audited first and nothing throws, whatever the code |
| EventHandling.HandleFraudSuspected | app/src/main/java/com/bankcore/event/BankingEventHandler.java:87-99 | the event is audited, then alerted; the handler throws iff the risk score is missing |
| EventHandling.HandleComplianceCheckRequired | app/src/main/java/com/bankcore/event/BankingEventHandler.java:104-116 | the check is audited first and at most one check follows; the handler throws iff the regulation type is missing |
| EventHandling.HandleTransferInitiated | app/src/main/java/com/bankcore/event/BankingEventHandler.java:121-135 | the transfer is audited first and nothing throws |
| EventHandling.HandleBalanceUpdated | app/src/main/java/com/bankcore/event/BankingEventHandler.java:140-150 | the change is audited first; the handler throws iff the new balance is missing |
| BankingConfig.DefaultsMatchHardCodedLimits | app/src/main/java/com/bankcore/config/BankingConfigProperties.java:46-49 | the defaults equal the limits hard-coded elsewhere: 10000 for approval and AML, 1000000.00 as maximum, 0.7 for fraud |
| BankingConfig.DefaultRetentionOutOfBounds | app/src/main/java/com/bankcore/config/BankingConfigProperties.java:228-230 | the defaults break the declared bounds, only through dataRetentionDays = 2555 |
| BankingConfig.Defaults | app/src/main/java/com/bankcore/config/BankingConfigProperties.java:27-40 | the initial settings: the transaction, security, audit and monitoring groups meet their declared constraints, the compliance group does not |
| BankingConfig.DefaultTransaction | app/src/main/java/com/bankcore/config/BankingConfigProperties.java:43-77 | the transaction defaults meet their @NotEmpty/@Min/@Max constraints; 10000.00, 1000000.00, the binary64 0.7 and 3 retries |
| BankingConfig.DefaultSecurity | app/src/main/java/com/bankcore/config/BankingConfigProperties.java:80-121 | the security defaults meet their constraints; 3600 s tokens and 5 login attempts |
| BankingConfig.DefaultAudit | app/src/main/java/com/bankcore/config/BankingConfigProperties.java:124-157 | the audit defaults meet their constraints; the four sensitive field names |
| BankingConfig.DefaultMonitoring | app/src/main/java/com/bankcore/config/BankingConfigProperties.java:160-204 | the monitoring defaults meet their constraints, with metrics, tracing and health checks on |
| BankingConfig.DefaultCompliance | app/src/main/java/com/bankcore/config/BankingConfigProperties.java:207-253 | the compliance defaults break @Max(365) through dataRetentionDays 2555 and meet every other constraint; AML at 10000.00 and the two country lists, each starting with "" |
| BankingConfig.LookupsIgnoreCase | app/src/main/java/com/bankcore/config/BankingConfigProperties.java:256-277 | feature and compliance lookups ignore case, and an unknown name is off whatever the settings |
| BankingConfig.DefaultsEnableAll | app/src/main/java/com/bankcore/config/BankingConfigProperties.java:256-277 | with the defaults a feature or compliance type is on iff its lower-cased name is one of the six (five) known ones |
| BankingConfig.DefaultSensitiveFields | app/src/main/java/com/bankcore/config/BankingConfigProperties.java:279-281 | with the default list a field is sensitive iff its lower-cased name is "password" or "ssn" |
| BankingConfig.CountryLookups | app/src/main/java/com/bankcore/config/BankingConfigProperties.java:283-289 | country lookups ignore case; the empty code is restricted and watchlisted; "af" is restricted but not watchlisted; "kp" is watchlisted |
| BankingConfig.IsFeatureEnabled | app/src/main/java/com/bankcore/config/BankingConfigProperties.java:256-266 | each of the six feature names, in any case, reads its own flag (fraud_detection, idempotency_check, csrf_protection, https_only, real_time_alerts, automatic_reporting), and any other name is off |
| BankingConfig.IsComplianceRequired | app/src/main/java/com/bankcore/config/BankingConfigProperties.java:268-277 | each of the five compliance types, in any case, reads its own flag (pci, sox, gdpr, kyc, aml), and any other type is not required |
| BankingConfig.IsSensitiveField | app/src/main/java/com/bankcore/config/BankingConfigProperties.java:279-281 | a field is sensitive only through a configured entry of the same length without upper-case letters |
| BankingConfig.IsRestrictedCountry | app/src/main/java/com/bankcore/config/BankingConfigProperties.java:283-285 | a code is restricted only through a configured entry of the same length without lower-case letters |
| BankingConfig.IsWatchlistCountry | app/src/main/java/com/bankcore/config/BankingConfigProperties.java:287-289 | a code is watchlisted only through a configured entry of the same length without lower-case letters |
| Text.FoldForgetsOtherCase | app/src/main/java/com/bankcore/config/BankingConfigProperties.java:256-289 | lower-casing forgets an earlier upper-casing, and the reverse |
| Text.ToLowerNeverEqualsUpperCased | app/src/main/java/com/bankcore/config/BankingConfigProperties.java:280 | a lower-cased string never equals one holding an upper-case letter |
| Text.ToUpperNeverEqualsLowerCased | app/src/main/java/com/bankcore/config/BankingConfigProperties.java:284 | an upper-cased string never equals one holding a lower-case letter |
| Text.ToLower | app/src/main/java/com/bankcore/config/BankingConfigProperties.java:257 | each character is lower-cased, the length kept |
| Text.ToUpper | app/src/main/java/com/bankcore/config/BankingConfigProperties.java:284 | each character is upper-cased, the length kept |
| Text.ToLowerIdempotent | app/src/main/java/com/bankcore/config/BankingConfigProperties.java:257 | lower-casing twice is lower-casing once |
| Text.ToUpperIdempotent | app/src/main/java/com/bankcore/config/BankingConfigProperties.java:284 | upper-casing twice is upper-casing once |
| AuditAspectHelpers.ClientIpPrecedence | app/src/main/java/com/bankcore/aspect/AuditAspect.java:298-312 | no request gives "unknown"; a non-empty X-Forwarded-For wins with its first field trimmed, and one made only of commas throws; then a non-empty X-Real-IP; then the remote address |
| AuditAspectHelpers.ClientIp | app/src/main/java/com/bankcore/aspect/AuditAspect.java:298-312 | no request gives "unknown"; the only failure is ArrayIndexOutOfBoundsException, from a request that has an X-Forwarded-For header |
| AuditAspectHelpers.JavaSplit | app/src/main/java/com/bankcore/aspect/AuditAspect.java:303 | a string without a comma splits into itself; otherwise the last field, if any, is not empty |
| AuditAspectHelpers.CommaOnlyForwardedForThrows | app/src/main/java/com/bankcore/aspect/AuditAspect.java:303 | X-Forwarded-For "," makes getClientIP throw |
| AuditAspectHelpers.JavaSplitSpec | app/src/main/java/com/bankcore/aspect/AuditAspect.java:303 | split(",") of a non-empty string is empty iff it holds only commas, and otherwise starts with the text before the first comma |
| AuditAspectHelpers.SplitCommaFirst | app/src/main/java/com/bankcore/aspect/AuditAspect.java:303 | the first field is the text before the first comma |
| AuditAspectHelpers.SplitCommaHasText | app/src/main/java/com/bankcore/aspect/AuditAspect.java:303 | some field is non-empty iff some character is not a comma |
| AuditAspectHelpers.DropTrailingEmptyEmpty | app/src/main/java/com/bankcore/aspect/AuditAspect.java:303 | dropping trailing empty fields leaves nothing iff every field is empty |
| AuditAspectHelpers.SplitComma | app/src/main/java/com/bankcore/aspect/AuditAspect.java:303 | splitting gives at least one field |
| AuditAspectHelpers.DropTrailingEmpty | app/src/main/java/com/bankcore/aspect/AuditAspect.java:303 | dropping trailing empties leaves a prefix of the fields that does not end in an empty one, and every dropped field was empty |
| AuditAspectHelpers.FirstField | app/src/main/java/com/bankcore/aspect/AuditAspect.java:303 | the first field is a comma-free prefix that ends at a comma or at the end |
| Text.Trim | app/src/main/java/com/bankcore/aspect/AuditAspect.java:303 | the trimmed string neither starts nor ends with a character at or below the space |
| Text.TrimStart | app/src/main/java/com/bankcore/aspect/AuditAspect.java:303 | only leading characters at or below the space are dropped |
| Text.TrimEnd | app/src/main/java/com/bankcore/aspect/AuditAspect.java:303 | only trailing characters at or below the space are dropped |
| Text.TrimIdempotent | app/src/main/java/com/bankcore/aspect/AuditAspect.java:303 | trimming twice is trimming once |
| Text.BlankIffAllTrimmable | app/src/main/java/com/bankcore/model/Transaction.java:35 | blank means every character is at or below the space |
| Text.ZeroPad | app/src/main/java/com/bankcore/service/TransactionService.java:298 | padding reaches the width and keeps the text at the end |
| AuditAspectHelpers.UserAgent | app/src/main/java/com/bankcore/aspect/AuditAspect.java:314-317 | no request gives "unknown"; otherwise exactly the raw User-Agent header value, absent when the request lacks it |
| AuditAspectHelpers.CurrentUserId | app/src/main/java/com/bankcore/aspect/AuditAspect.java:319-329 | the principal's name when authenticated, else "system" |
| AuditAspectHelpers.SuspiciousFailureRule | app/src/main/java/com/bankcore/aspect/AuditAspect.java:331-337 | security and illegal-argument failures are suspicious whatever their message; any other is suspicious iff its lower-cased message mentions injection or unauthorized, regardless of case, and throws without a message |
| AuditAspectHelpers.IsSuspiciousFailure | app/src/main/java/com/bankcore/aspect/AuditAspect.java:331-337 | security and illegal-argument failures are suspicious; the check throws a NullPointerException iff another throwable has no message |

## Left out

- Concurrency: `ConcurrentHashMap`, `AtomicLong` and the `@Async` listeners are modelled sequentially, one call at a time.
- `@Retryable` and `@Transactional` timeouts, retries and backoff are proxy behaviour; no `@EnableRetry` is present, so create and update are single attempts. The `@Recover` methods are plain functions.
- `simulateProcessingDelay`: the random sleep is left out; whether it is interrupted is a parameter of `Create`.
- The sample data's random types and amounts, the clock, `prePersist`'s `Math.random` text, and `generateTraceId` are parameters or left out, because they are randomness and time.
- Micrometer counters and all logging are observability only.
- Aliasing: `create` and `update` return the very object stored in the map. The model stores values, so a caller that later mutates a returned object is not modelled.
- The iteration order of `ConcurrentHashMap.values()` is taken as ascending id. `FindAll` states only "newest first and a permutation", which leaves the order of equal timestamps open.
- `PageRequest` arguments outside page >= 0, size >= 1 are refused before the service runs. `Pageable.unpaged()` is not modelled.
- Case folding covers ASCII letters only. Java's `toLowerCase` and `toUpperCase` depend on the locale and on Unicode.
- The texts of JDK exception messages are modelled where the model states them: create's FAILED record copies the NullPointerException text or "Processing interrupted"; `Paging.SubList` carries ArrayList.subList's "fromIndex = …", "toIndex = …" and "fromIndex(…) > toIndex(…)" texts; `AuditAspectHelpers.ClientIp`'s ArrayIndexOutOfBoundsException carries "Index 0 out of bounds for length 0"; and `Statistics.StatisticsOf`'s grouping by a null key carries "element cannot be mapped to a null key". Elsewhere the message is left open.
- Null string arguments to the audit `record*` methods, and null names, types, fields or country codes given to the configuration lookups (which throw NullPointerException), are not modelled.
- Servlet header names are case-insensitive. The model looks headers up by exact name.
- A throwable whose class extends SecurityException or IllegalArgumentException is modelled as that class.
- The value of FraudDetectionService's risk score is an input `real`, because it adds `Random.nextDouble`; only the NullPointerException it throws on a missing amount or creation time is modelled. ComplianceService's random pass rate and NotificationService's logging stubs are not modelled.
- Durations in the configuration are held as whole seconds. The JWT secret, allowed origins and algorithm names are not modelled.
- The `AuditAspect` advice methods around the helpers are not modelled. They weave the helpers into the audit calls at runtime through proxies.
- TransactionServiceModel.TransactionService.FindAll: pages with the corrected window; the int wrap-around of the offset and the end is modelled only in Paging.PageWindowAsWritten (see Findings).
- TransactionStore.AccountPage: pages with the corrected window, as FindAll does; the same wrap-around applies as written.
- TransactionStore.FindByAccountId: pages through TransactionStore.AccountPage, with the same corrected window.
- TransactionServiceModel.TransactionService.FindByAccountId: answers what TransactionStore.FindByAccountId answers, so it pages with the corrected window; the int wrap-around of the offset and the end is modelled only in Paging.PageWindowAsWritten (see Findings).
- The Hibernate Validator order of violations is not specified; `Violations` fixes one order, and only the set of reported fields is stated.
- TransactionRequestModel.ToTransaction: states the refused amounts and the copied account, currency and amount presence, not every copied field.

## Findings

| source | as written | input that shows it | evidently intended | confidence | as-written member | corrected member |
|---|---|---|---|---|---|---|
| app/src/main/java/com/bankcore/service/TransactionService.java:62-65 | the cast of the long page offset to int and the int addition of start and page size both wrap around modulo 2^32; findByAccountId repeats them at lines 191-192 | page 42949673, size 100, 20 records: the offset 4294967300 wraps to 4, so elements 4..19 come back for a page far past the end (Paging.AsWrittenWrapsToEarlyPage); page 21474837 wraps to a negative start and subList throws IndexOutOfBoundsException (Paging.AsWrittenWrapsNegative) | the offset and the end computed without overflow, so a page past the end fails like any other such page (Paging.PageWindowSpec) | not executed | Paging.PageWindowAsWritten | Paging.PageWindow |
