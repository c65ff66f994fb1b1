# ServerQueue in Dafny

This project models the core of ServerQueue, a durable work queue kept in a
SQL Server database through Entity Framework 6. An item moves from the
enqueued table to the acquired table. From there it is either released back
to the queue or dequeued into the history table. Each move is recorded in a
queue log. The model covers the following:

- **The queue engine, `DrpServerQueueDataContext`** (`data_context.dfy`, `queries.dfy`).
  - The five tables are sequences in scan order: active items, enqueued markers, acquired markers, history rows and the queue log.
  - The read-only queries are pure functions: the three `Peak` variants, `PeakItemId`, the counts and the two stale listings.
  - Each state-changing operation is a function from the tables before the operation to its result and the tables after it. A class `QueueDataContext`, whose fields are the five tables, performs each operation as a method proved equal to that function:
    - the C# post-processing of Enqueue, Acquire, Release and Dequeue;
    - `EnsureAcquireSucceeded` with its orphan clean-up;
    - `WriteQueueLogEntry`;
    - `RequeueAcquiredItem`;
    - the sweep `RequeueStaleAcquiredItems`, a loop proved against the recursive function `RequeueEach`.
  - The stored procedures that move an item between tables are not part of this model. The tables a method starts from are the tables as the procedure left them. The state id and queue item id the procedure returned are arguments.
  - The clock, fresh Guids, whether a requeue transaction can begin and the outcome of each `SaveChanges` are inputs, bundled in `Env`.
- **The record builders** (`records.dfy`). These are the copy constructors of the marker and history classes, plus the item constructor, which bounds field lengths.
- **The item fields** (`item_data.dfy`). This covers `EnsureMaxLength`, and `Acquire` and `Release` on a loaded item entity.
- **The context cache of `ServerQueueDataContext`** (`context_cache.dfy`). It hands out one database context and replaces it after 1000 calls.
- **The log-level filter** (`log_level.dfy`).

The shared vocabulary is in `primitives.dfy`:
- nullable strings;
- Guids as naturals, with `Guid.Empty` as 0;
- `DateTimeOffset` as UTC ticks and `TimeSpan` as signed 64-bit ticks;
- `Char.IsWhiteSpace`;
- case-insensitive comparison through an abstract case mapping.

`tables.dfy` holds the LINQ shapes over sequences: first match, least key, count, select and delete one row.

Source paths below are relative to the repository root.

## Model

| member | source | states |
|---|---|---|
| ItemData.EnsureMaxLength | src/Drp.ServerQueue/Models/DrpServerQueueItemData.cs:40-47 | A null, whitespace-only or short enough value is returned as is. Any other value becomes its prefix of exactly maxLength characters, or throws ArgumentOutOfRange when maxLength is negative. The result is null exactly when the input is. |
| ItemData.EnsureMaxLengthIdempotent | src/Drp.ServerQueue/Models/DrpServerQueueItemData.cs:40-47 | For maxLength >= 0 the call never throws, and applying it twice gives the same result as applying it once. |
| ItemData.LongWhitespaceIsKept | src/Drp.ServerQueue/Models/DrpServerQueueItemData.cs:42-46 | A whitespace-only string longer than maxLength comes back untruncated. |
| ItemData.Released | src/Drp.ServerQueue/Models/DrpServerQueueItemData.cs:107-111 | A released row has no AcquiredBy and no Acquired. Every other field is kept. |
| ItemData.ItemEntity.Acquire | src/Drp.ServerQueue/Models/DrpServerQueueItemData.cs:98-102 | Sets AcquiredBy to the acquirer and Acquired to now. Id, type, user id, data, metadata and Created are unchanged. |
| ItemData.ItemEntity.Release | src/Drp.ServerQueue/Models/DrpServerQueueItemData.cs:107-111 | The entity's row becomes Released of its old row. |
| ItemData.AcquireThenRelease | src/Drp.ServerQueue/Models/DrpServerQueueItemData.cs:98-111 | Release after Acquire leaves the row as before the acquisition, with both acquisition fields null. |
| Records.NewItem | src/Drp.ServerQueue/Models/DrpServerQueueItem.cs:37-45 | A blank itemId is stored as Guid.Empty in "P" form. Any other itemId is stored through EnsureMaxLength(_, 255), so ItemId is never null, never longer than 255 and a prefix of the input. ItemType goes through EnsureMaxLength(_, 255). Data and metadata are copied, Created is now, and the item is unacquired. |
| Records.AcquiredFromEnqueued | src/Drp.ServerQueue/Models/DrpServerQueueAcquiredItem.cs:36-42 | The new marker has a fresh id. It keeps the queue item id, the type and the enqueue-time Created. Acquired and AcquiredBy keep their defaults. |
| Records.RequeuedFromAcquired | src/Drp.ServerQueue/Models/DrpServerQueueEnqueuedItem.cs:29-39 | The new marker has a fresh id and the same queue item id and type. Created is reset to now. |
| Records.DequeuedFromAcquired | src/Drp.ServerQueue/Models/DrpServerQueueDequeuedItem.cs:31-40 | The snapshot has a fresh id and HistoryCreated = now. It copies the queue item id, type, Created, Acquired and AcquiredBy. |
| Records.HistoryFromItem | src/Drp.ServerQueue/Models/DrpServerQueueHistoryItem.cs:37-49 | The history row keeps the item's own Id and copies every item field. HistoryCreated is now. |
| Records.AcquireRequeueAcquire | src/Drp.ServerQueue/Models/DrpServerQueueEnqueuedItem.cs:33-39 | Acquire, then requeue, then acquire again: the queue item id and type survive, and Created becomes the requeue time. |
| QueueQueries.HistoryLookupFindsSnapshot | src/Drp.ServerQueue/Models/DrpServerQueueHistoryItem.cs:40 | Because the history row keeps the item's id, looking that id up after the snapshot is added finds exactly the snapshot. |
| QueueQueries.PeakWhere | src/Drp.ServerQueue/Models/DrpServerQueueDataContext.cs:610-613 | The result is an existing item behind the unique queue head: least Created, with ties going to the first in scan order. The result is null exactly when no head's item exists. |
| QueueQueries.Peak | src/Drp.ServerQueue/Models/DrpServerQueueDataContext.cs:479-503 | An empty queue gives null. A returned item is behind a marker of least Created. When every marker names an item, a non-empty queue always yields one. |
| QueueQueries.PeakOfType | src/Drp.ServerQueue/Models/DrpServerQueueDataContext.cs:510-543 | A blank type gives Peak(). Otherwise the result is behind the earliest marker whose type equals the argument ignoring case. It is null when no marker's type matches, and non-null when some marker matches and every marker names an existing item. |
| QueueQueries.PeakOfTypeAgreesWithPeak | src/Drp.ServerQueue/Models/DrpServerQueueDataContext.cs:510-543 | When the head of the whole queue has the requested type, Peak(type) equals Peak(). |
| QueueQueries.PeakQueueItem | src/Drp.ServerQueue/Models/DrpServerQueueDataContext.cs:551-575 | Peak(Guid) gives the item with that id when an enqueued marker names it, and null otherwise. |
| QueueQueries.AcquiredItemIsNotPeaked | src/Drp.ServerQueue/Models/DrpServerQueueDataContext.cs:551-575 | In consistent tables, Peak(Guid) of an acquired item is null. |
| QueueQueries.PeakItemId | src/Drp.ServerQueue/Models/DrpServerQueueDataContext.cs:583-603 | A null itemId gives null. Otherwise the result is an item whose ItemId equals the argument ignoring case and none of those was created earlier. The result is null exactly when no item matches. |
| QueueQueries.QueueCountOfItemType | src/Drp.ServerQueue/Models/DrpServerQueueDataContext.cs:283-342 | A blank type counts all active items (QueueCount). Any other type gives exactly the number of rows whose type is ordinally equal to it, so 0 when none match and the table size when all match. |
| QueueQueries.EnqueuedCountOfItemType | src/Drp.ServerQueue/Models/DrpServerQueueDataContext.cs:298-360 | A blank type counts all enqueued markers (EnqueuedCount). Any other type gives exactly the number of markers whose type is ordinally equal to it, so 0 when none match. |
| QueueQueries.AcquiredCountOfItemType | src/Drp.ServerQueue/Models/DrpServerQueueDataContext.cs:367-378 | A blank type returns the enqueued count. Any other type gives exactly the number of acquired markers whose type is ordinally equal to it, so 0 when none match. |
| QueueQueries.BlankAcquiredCountIsEnqueuedCount | src/Drp.ServerQueue/Models/DrpServerQueueDataContext.cs:369-372 | One enqueued marker and no acquired marker give an acquired count of 1 for a blank type. |
| QueueQueries.StaleAcquired | src/Drp.ServerQueue/Models/DrpServerQueueDataContext.cs:1077-1131 | The call throws FormatException exactly when the query fails or now - period leaves the DateTimeOffset range. Otherwise a Guid is listed exactly when some acquired marker with it passes the case-insensitive type filter and, for a positive period, has Acquired >= now - period. The listing holds one id per such marker: its length is the number of matching markers. |
| QueueQueries.StaleAcquiredListsAll | src/Drp.ServerQueue/Models/DrpServerQueueDataContext.cs:1082-1090 | For a period <= 0 and a blank type, the listing is every acquired marker's queue item id, in table order. |
| QueueQueries.StaleAcquiredListsRecent | src/Drp.ServerQueue/Models/DrpServerQueueDataContext.cs:1099-1117 | For a positive period, a marker acquired at now is listed, and a marker acquired before now - period is not. |
| QueueQueries.AbsPeriod | src/Drp.ServerQueue/Models/DrpServerQueueDataContext.cs:1278-1281 | A negative period is negated. TimeSpan.MinValue overflows, and only it does. |
| QueueQueries.StaleEnqueued | src/Drp.ServerQueue/Models/DrpServerQueueDataContext.cs:1273-1312 | The call throws FormatException exactly when the period is TimeSpan.MinValue, the query fails, or now - abs(period) leaves the range. Otherwise a Guid is listed exactly when some enqueued marker with it passes the type filter and has Created >= now - abs(period). The listing holds one id per such marker: its length is the number of matching markers. |
| QueueQueries.StaleEnqueuedIgnoresSign | src/Drp.ServerQueue/Models/DrpServerQueueDataContext.cs:1278-1281 | The enqueued listing for -period equals the listing for period. |
| QueueQueries.NegativePeriodListingsDiffer | src/Drp.ServerQueue/Models/DrpServerQueueDataContext.cs:1082-1289 | For a negative period, an old acquired marker is listed, while an enqueued marker as old is not. |
| QueueQueries.RequeueGoesLast | src/Drp.ServerQueue/Models/DrpServerQueueEnqueuedItem.cs:29-38 | Appending a marker requeued at now to a non-empty queue created no later than now leaves Peak() unchanged. |
| DataContext.WriteLog | src/Drp.ServerQueue/Models/DrpServerQueueDataContext.cs:126-149 | Only the log changes. One entry with the given source, destination, item and category is appended exactly when its save succeeds and its key is free. Otherwise nothing changes and nothing is reported. Log keys stay unique. |
| DataContext.AcquiredItem | src/Drp.ServerQueue/Models/DrpServerQueueDataContext.cs:622-634 | The check accepts an item exactly when the state id is non-empty, the acquirer is non-null, and an item with the id has AcquiredBy equal to the acquirer ignoring case. The accepted item is that item. |
| DataContext.AcquirerCaseIgnored | src/Drp.ServerQueue/Models/DrpServerQueueDataContext.cs:630-632 | Two acquirers equal ignoring case get the same answer from the check. |
| DataContext.WithoutAcquired | src/Drp.ServerQueue/Models/DrpServerQueueDataContext.cs:643-650 | With no row of that id the table is unchanged. Otherwise exactly one row goes, no remaining row has the id, and keys stay unique. |
| DataContext.EnsureAcquired | src/Drp.ServerQueue/Models/DrpServerQueueDataContext.cs:622-665 | Returns the accepted item. When the check fails for a non-empty state id and the save succeeds, the acquired row with the state id is deleted. Otherwise nothing changes. Keys are preserved. |
| DataContext.OrphanIsGone | src/Drp.ServerQueue/Models/DrpServerQueueDataContext.cs:634-652 | After a failed check whose clean-up saved, no acquired row has the state id. |
| DataContext.AcquirePost | src/Drp.ServerQueue/Models/DrpServerQueueDataContext.cs:763-776 | Acquire returns the accepted item. An accepted item is logged from Guid.Empty to the state id. A rejected one writes no log and leaves the tables as EnsureAcquireSucceeded left them. Keys are preserved. |
| DataContext.ReleasePost | src/Drp.ServerQueue/Models/DrpServerQueueDataContext.cs:947-964 | The result is non-null exactly when the state id is non-empty and the item exists. A non-null result is that item, and it is logged. A null result changes nothing. |
| DataContext.DequeuePost | src/Drp.ServerQueue/Models/DrpServerQueueDataContext.cs:1041-1057 | The same as ReleasePost, with the history row that has the item's id. |
| DataContext.DequeueReturnsSnapshot | src/Drp.ServerQueue/Models/DrpServerQueueDataContext.cs:1041-1057 | After the procedure adds the snapshot of an item new to history, Dequeue returns exactly that snapshot. |
| DataContext.EnqueuePost | src/Drp.ServerQueue/Models/DrpServerQueueDataContext.cs:390-473 | The result is non-null exactly when the procedure returned a row. It is built from the arguments as given and the returned queue item id, unacquired, with default Created, and the enqueue is logged. A null result changes nothing. |
| DataContext.RequeueAcquired | src/Drp.ServerQueue/Models/DrpServerQueueDataContext.cs:1143-1216 | The result is non-null exactly when an acquired marker and the item exist, the transaction begins and the save succeeds. It is the released item, and the item row is replaced by its released form. The marker's row is deleted, one marker requeued at now with a fresh id is appended, and the move is logged from the old marker id to the new one. History is unchanged. A null result changes no table. The transaction fails to begin (and the call throws) exactly when both rows exist and beginning is refused. |
| DataContext.RequeueKeepsKeys | src/Drp.ServerQueue/Models/DrpServerQueueDataContext.cs:1176-1187 | Every primary key and unique QueueItemId index stays intact. |
| DataContext.RequeueStepKeepsConsistent | src/Drp.ServerQueue/Models/DrpServerQueueDataContext.cs:1182-1186 | Releasing the item, appending its marker and deleting its acquired row keep the tables consistent. |
| DataContext.RequeueKeepsConsistent | src/Drp.ServerQueue/Models/DrpServerQueueDataContext.cs:1143-1216 | A requeue keeps the tables consistent. Consistent means: no item is both enqueued and acquired, markers name existing items, and Acquired is set exactly on items with an acquired marker. |
| DataContext.RequeuedItemIsPeakable | src/Drp.ServerQueue/Models/DrpServerQueueDataContext.cs:1143-1216 | After a successful requeue, Peak(Guid) returns exactly the released item. |
| DataContext.RequeueAppends | src/Drp.ServerQueue/Models/DrpServerQueueDataContext.cs:1183-1185 | A successful requeue grows the enqueued table by one row for the item, keeping the old rows as a prefix. |
| DataContext.RequeueEach | src/Drp.ServerQueue/Models/DrpServerQueueDataContext.cs:1238-1245 | Requeueing ids in order: successes are at most the ids, and fewer than the ids when a requeue threw. Each success moves one row from the acquired table to the end of the enqueued table. History is unchanged. |
| DataContext.RequeueEachStep | src/Drp.ServerQueue/Models/DrpServerQueueDataContext.cs:1238-1245 | One more id, after a prefix that did not throw: either its transaction cannot begin and the sweep throws with the tables unchanged, or the sweep adds that id's requeue and counts it when it succeeds. |
| DataContext.RequeueEachStopsAfterThrow | src/Drp.ServerQueue/Models/DrpServerQueueDataContext.cs:1238-1245 | Once the requeue of one id has thrown, the ids after it are not attempted: the sweep over all ids equals the sweep up to that one. |
| DataContext.RequeueEachThrowKeepsPrefix | src/Drp.ServerQueue/Models/DrpServerQueueDataContext.cs:1176-1178 | A sweep that threw did so at one id n: the requeues of the ids before n did not throw, the transaction for id n could not begin, and the tables afterwards are those the requeues before n committed. |
| DataContext.RequeueEachKeepsInvariants | src/Drp.ServerQueue/Models/DrpServerQueueDataContext.cs:1238-1245 | The sequence of requeues keeps keys and consistency. |
| DataContext.RequeueEachAllSucceeded | src/Drp.ServerQueue/Models/DrpServerQueueDataContext.cs:1228-1229 | When every requeue succeeded, every id has an enqueued row afterwards. |
| DataContext.RequeueStale | src/Drp.ServerQueue/Models/DrpServerQueueDataContext.cs:1231-1262 | A listing that throws gives (-1, -1) and no change. Otherwise the counters are (-1, -1) exactly when some requeue threw, and then the requeues before it stay committed: the tables afterwards are those of `RequeueEach` over the listing, which `RequeueEachThrowKeepsPrefix` shows stops at the throwing id. If no requeue threw, counterAll is the listing's length and countSuccess is the number of non-null requeues counted by `RequeueEach`, so 0 <= countSuccess <= counterAll. Each success moves one row from acquired to enqueued, rows are conserved across the two tables, and existing enqueued rows stay in front. |
| DataContext.AllStaleRequeued | src/Drp.ServerQueue/Models/DrpServerQueueDataContext.cs:1228-1229 | When countSuccess == counterAll >= 0, every acquired marker meeting the criteria has an enqueued row afterwards. |
| DataContext.QueueDataContext.WriteQueueLogEntry | src/Drp.ServerQueue/Models/DrpServerQueueDataContext.cs:126-149 | The new tables are WriteLog of the old ones. Keys are kept. |
| DataContext.QueueDataContext.EnsureAcquireSucceeded | src/Drp.ServerQueue/Models/DrpServerQueueDataContext.cs:622-665 | The result and the new tables are EnsureAcquired of the old ones. |
| DataContext.QueueDataContext.Acquire | src/Drp.ServerQueue/Models/DrpServerQueueDataContext.cs:857-869 | Both overloads: the result and the new tables are AcquirePost of the old ones. |
| DataContext.QueueDataContext.Release | src/Drp.ServerQueue/Models/DrpServerQueueDataContext.cs:947-964 | The result and the new tables are ReleasePost of the old ones. |
| DataContext.QueueDataContext.Dequeue | src/Drp.ServerQueue/Models/DrpServerQueueDataContext.cs:1041-1057 | The result and the new tables are DequeuePost of the old ones. |
| DataContext.QueueDataContext.Enqueue | src/Drp.ServerQueue/Models/DrpServerQueueDataContext.cs:461-470 | The result and the new tables are EnqueuePost of the old ones. |
| DataContext.QueueDataContext.RequeueAcquiredItem | src/Drp.ServerQueue/Models/DrpServerQueueDataContext.cs:1143-1216 | The entity is loaded and released in place. The result and the new tables are RequeueAcquired of the old ones, and keys are kept. The call reports a throw exactly when the transaction cannot begin. |
| DataContext.QueueDataContext.RequeueStaleAcquiredItems | src/Drp.ServerQueue/Models/DrpServerQueueDataContext.cs:1231-1262 | The foreach loop's counters and the new tables are RequeueStale of the old ones. The loop invariant is RequeueEach over the ids processed so far, and a requeue that throws leaves the loop with (-1, -1). |
| ContextCache.ServerQueueDataContext.constructor | src/Drp.ServerQueue/ServerQueueDataContext.cs:67-72 | Opens a fresh context, saves the connection string and starts the count at 0. |
| ContextCache.ServerQueueDataContext.GetDbContext | src/Drp.ServerQueue/ServerQueueDataContext.cs:25-61 | The result is never null and never disposed. The count stays within [0, 1000] and the connection string is unchanged. Below the maximum, the count goes up by one and the cached context is returned. At the maximum, the cached context is disposed, the count restarts at 0 and a new context is returned. |
| ContextCache.ContextLifetime | src/Drp.ServerQueue/ServerQueueDataContext.cs:43-61 | From a fresh start, 1000 calls share one context. The 1001st call disposes it, hands out a different one and leaves the count at 0. |
| LogLevels.Ordinal | src/Drp.ServerQueue/Types/DrpApplicationLogLevel.cs:19-25 | The enumeration's underlying values (Information, Warning, Error, Critical in declaration order), bounded by 3. |
| LogLevels.LevelsWrittenUnder | src/Drp.ServerQueue/Types/DrpApplicationLogLevel.cs:33-42 | The levels written under each setting, listed explicitly. A setting includes itself and Critical. |
| LogLevels.WriteThisLogEntryMatchesList | src/Drp.ServerQueue/Types/DrpApplicationLogLevel.cs:39-42 | The comparison holds exactly for the listed levels. |
| LogLevels.WriteThisLogEntryBounds | src/Drp.ServerQueue/Types/DrpApplicationLogLevel.cs:39-42 | Every level passes itself. Critical passes every setting. Every level passes Information. |
| LogLevels.WriteThisLogEntryMonotone | src/Drp.ServerQueue/Types/DrpApplicationLogLevel.cs:39-42 | Raising the entry's level or lowering the setting keeps an entry written. |
| LogLevels.WriteThisLogEntryAntisymmetric | src/Drp.ServerQueue/Types/DrpApplicationLogLevel.cs:39-42 | Of two levels, at least one passes the other, and both pass each other only when equal. |

## Documentation and code

Where the doc comments and the code disagree, the model follows the code.

- Both stale listings keep the rows acquired, or created, at or after now - period. These are the recent rows (DrpServerQueueDataContext.cs:1107, 1114, 1289, 1296), although the comment at line 1068 promises the rows acquired "longer than" the period ago. `StaleAcquiredListsRecent` states the code's behaviour.
- `AcquiredCountOfItemType` with a blank type returns the enqueued count (line 371). `BlankAcquiredCountIsEnqueuedCount` exhibits it.
- The acquire check compares AcquiredBy ignoring case (line 631), although the Acquire documentation calls the comparison case sensitive (line 790). `AcquirerCaseIgnored` states the code's behaviour.
- The comments of both requeue operations promise a StaleAcquireCount increment (lines 1138, 1224). No such field exists, and nothing is incremented.
- The handlers of both stale listings format their message with a `{1}` placeholder but pass one argument (lines 1125, 1306). `String.Format` then throws FormatException, so a failing listing throws instead of returning the empty list. `StaleAcquired` and `StaleEnqueued` model the throw. `RequeueStale` shows the sweep's own handler turning it into (-1, -1).
- In `GetStaleServerQueueAcquiredItems` a negative period disables the time filter, whereas `GetStaleServerQueueEnqueuedItems` negates it (`NegativePeriodListingsDiffer`).

## Left out

- The stored procedures `spQueueItemEnqueue`, `spQueueItemAcquire`, `spQueueItemAcquireSpecific`, `spQueueItemRelease` and `spQueueItemDequeue`, with their retry loop, are not part of this model. Their results are inputs and the tables they leave behind are the starting state.
- The database plumbing is left out: `SqlCommand`, connections, `OnModelCreating`, creating the procedures, and database initialisation. These are foreign calls.
- Concurrency is left out: other processes acting between the procedure and the C# check, and multi-process races. Operations run one at a time.
- Application logging, debugging, tracing and exception logging (`WriteAppLogEntry`, `DrpLogging`, `DrpDebugging`, `DrpExceptionHandler`) are I/O and have no effect in the model. The free-text entry of a queue-log row is not modelled.
- `DrpGuidExtensions` is left out. Only the "P" string of `Guid.Empty` appears, as a constant.
- The facades `ServerQueue`, `ServerQueueState` and `ServerQueueAdministration`, the interfaces, and the load generator `DrpServerQueueUser` contain no queue logic of their own.
- The timeout table is left out; it is never used.
- The dequeued-marker table is not held as a collection. No C# code writes or reads it; its `DbSet` is only declared (DrpServerQueueDataContext.cs:105). Only its builder `DequeuedFromAcquired` is modelled.
- Reading the clock is not modelled: `now` is a parameter. That includes the time read inside the stale listings.
- Culture-aware case-insensitive comparison is the abstract case mapping `fold`. `InvariantCultureIgnoreCase` and `OrdinalIgnoreCase` share it. Ordinal comparison is exact equality.
- The ORM's own behaviour is not modelled:
  - whether LINQ to Entities translates a `StringComparison` argument;
  - removing an entity read with `AsNoTracking`;
  - the change tracker keeping a released entity after a rolled-back transaction.

  Each `SaveChanges` outcome is an input instead.
- The catch paths of the peeks and of `PeakItemId` for database read failures are not modelled; only reads that succeed are. A failing database read inside the stale listings is modelled, as `queryFails`.
- Counts and string lengths are unbounded integers. Int32 overflow of a count is not modelled. String lengths count characters, not UTF-16 code units.
- DataContext.RequeueAcquired: the requeue save fails exactly when `env.saveOk` is false or the new marker would break the enqueued table's primary key or unique QueueItemId index. A refused `BeginTransaction` (line 1178) is outside the method's try and is modelled as a throw through `env.beginOk`. Other database failures inside the try are folded into `env.saveOk`.
- DataContext.WriteLog: the `BeginTransaction` of `WriteQueueLogEntry` (DrpServerQueueDataContext.cs:128) is outside its try, so a refusal there would throw to the caller. The model assumes the log transaction always begins; only the save outcome `env.logSaveOk` is an input.
- ContextCache.ServerQueueDataContext.constructor: the saved connection string is the one passed in. The source saves the string the opened connection reports, which the database may have completed.
- ContextCache.DbContext stands for a whole `DrpServerQueueDataContext` instance. Only its connection string and whether it is disposed are modelled.
