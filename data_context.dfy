/** DrpServerQueueDataContext: the queue engine over the active item, enqueued,
    acquired, history and queue-log tables. The stored procedures that move an
    item between tables run before the C# code sees their result; the model
    takes the tables as they are after the procedure and the row the
    procedure returned, and states what the C# code then does. */
module DataContext {
  import opened Primitives
  import opened Tables
  import opened ItemData
  import opened Records
  import opened QueueQueries

  /** A row of the queue log table (DrpServerQueueLogEntry) without its
      free-text entry. */
  datatype LogEntry = LogEntry(
    logEntryId: Guid,
    source: Guid,
    destination: Guid,
    queueItemId: Guid,
    logDateTime: Instant,
    category: string)

  /** What the runtime supplies to one operation: the clock and a fresh Guid
      for a new marker, whether the operation's transaction can begin, whether
      its SaveChanges succeeds, and for its queue-log write a fresh Guid, the
      clock and whether that SaveChanges succeeds. */
  datatype Env = Env(now: Instant, newId: Guid, beginOk: bool, saveOk: bool,
                     logEntryId: Guid, logTime: Instant, logSaveOk: bool)

  /** The five tables. */
  datatype Store = Store(
    items: seq<ItemRow>,
    enqueued: seq<EnqueuedMarker>,
    acquired: seq<AcquiredMarker>,
    history: seq<HistoryRow>,
    log: seq<LogEntry>)

  /** What an operation returns (null or a row) and the tables after it. */
  datatype Outcome<T> = Outcome(result: Option<T>, after: Store)

  const AcquireSuccess: string := "[Acquire].[Success]"
  const ReleaseSuccess: string := "[Release].[Success]"
  const DequeueSuccess: string := "[Dequeue].[Success]"
  const EnqueueSuccess: string := "[Enqueue].[Success]"
  const RequeueSuccess: string := "[RequeueAquiredItem].[Success]"

  predicate LogKeys(log: seq<LogEntry>) {
    forall i, j :: 0 <= i < j < |log| ==> log[i].logEntryId != log[j].logEntryId
  }

  /** The primary keys and unique indexes of all five tables. */
  predicate StoreKeys(s: Store) {
    ItemKeys(s.items) && EnqueuedKeys(s.enqueued) && AcquiredKeys(s.acquired) &&
    HistoryKeys(s.history) && LogKeys(s.log)
  }

  predicate LogIdFree(log: seq<LogEntry>, id: Guid) {
    forall i :: 0 <= i < |log| ==> log[i].logEntryId != id
  }

  // ---------------------------------------------------------------------
  // WriteQueueLogEntry

  /** WriteQueueLogEntry: the entry is added and saved inside a transaction;
      when saving fails (a failing database, or a clashing primary key) the
      transaction is rolled back and the failure swallowed, so the log is
      unchanged and nothing is reported to the caller. */
  function WriteLog(s: Store, source: Guid, destination: Guid, queueItemId: Guid, category: string, env: Env): (t: Store)
    ensures t.items == s.items && t.enqueued == s.enqueued && t.acquired == s.acquired && t.history == s.history
    ensures t.log == s.log || t.log == s.log + [LogEntry(env.logEntryId, source, destination, queueItemId, env.logTime, category)]
    ensures t.log != s.log <==> env.logSaveOk && LogIdFree(s.log, env.logEntryId)
    ensures LogKeys(s.log) ==> LogKeys(t.log)
  {
    if env.logSaveOk && LogIdFree(s.log, env.logEntryId) then
      s.(log := s.log + [LogEntry(env.logEntryId, source, destination, queueItemId, env.logTime, category)])
    else s
  }

  // ---------------------------------------------------------------------
  // EnsureAcquireSucceeded and the Acquire post-processing

  function OwnedBy(fold: CaseFold, queueItemId: Guid, acquirerId: string): ItemRow -> bool {
    (x: ItemRow) => x.id == queueItemId && MatchesIgnoringCase(fold, acquirerId, x.acquiredBy)
  }

  /** The item the acquire check accepts: none for an empty state id or a null
      acquirer, otherwise the item with that id whose AcquiredBy equals the
      acquirer ignoring case. */
  function AcquiredItem(items: seq<ItemRow>, fold: CaseFold, stateId: Guid, queueItemId: Guid, acquirerId: NString): (r: Option<ItemRow>)
    ensures r.Some? <==>
      && stateId != EmptyGuid && acquirerId.Some?
      && exists k :: 0 <= k < |items| && items[k].id == queueItemId &&
           MatchesIgnoringCase(fold, acquirerId.value, items[k].acquiredBy)
    ensures r.Some? ==>
      r.value in items && r.value.id == queueItemId && MatchesIgnoringCase(fold, acquirerId.value, r.value.acquiredBy)
  {
    if stateId == EmptyGuid || acquirerId.None? then None
    else FirstWhere(items, OwnedBy(fold, queueItemId, acquirerId.value))
  }

  /** The check does not distinguish two acquirers that differ only in case. */
  lemma AcquirerCaseIgnored(items: seq<ItemRow>, fold: CaseFold, stateId: Guid, queueItemId: Guid, a: string, b: string)
    requires EqualsIgnoreCase(fold, a, b)
    ensures AcquiredItem(items, fold, stateId, queueItemId, Some(a)) == AcquiredItem(items, fold, stateId, queueItemId, Some(b))
  {
    forall k | 0 <= k < |items|
      ensures OwnedBy(fold, queueItemId, a)(items[k]) <==> OwnedBy(fold, queueItemId, b)(items[k])
    {
      if items[k].acquiredBy.Some? {
        var c := items[k].acquiredBy.value;
        if EqualsIgnoreCase(fold, a, c) {
          assert forall i :: 0 <= i < |b| ==> fold(b[i]) == fold(a[i]) == fold(c[i]);
        }
        if EqualsIgnoreCase(fold, b, c) {
          assert forall i :: 0 <= i < |a| ==> fold(a[i]) == fold(b[i]) == fold(c[i]);
        }
      }
    }
    IndexWhereCongruent(items, OwnedBy(fold, queueItemId, a), OwnedBy(fold, queueItemId, b));
  }

  function MarkerHasId(id: Guid): AcquiredMarker -> bool {
    (m: AcquiredMarker) => m.id == id
  }

  /** The acquired table after deleting the row whose primary key is id. */
  function WithoutAcquired(acquired: seq<AcquiredMarker>, id: Guid): (r: seq<AcquiredMarker>)
    ensures (forall i :: 0 <= i < |acquired| ==> acquired[i].id != id) ==> r == acquired
    ensures (exists i :: 0 <= i < |acquired| && acquired[i].id == id) ==> |r| == |acquired| - 1
    ensures forall i :: 0 <= i < |r| ==> r[i] in acquired
    ensures AcquiredKeys(acquired) ==> AcquiredKeys(r) && forall i :: 0 <= i < |r| ==> r[i].id != id
  {
    match IndexWhere(acquired, MarkerHasId(id))
    case None => acquired
    case Some(j) =>
      assert forall i :: 0 <= i < |acquired| - 1 ==> RemoveAt(acquired, j)[i] == acquired[if i < j then i else i + 1];
      RemoveAt(acquired, j)
  }

  /** EnsureAcquireSucceeded: with an empty state id nothing happens; an item
      owned by the acquirer is returned and nothing changes; otherwise the
      orphaned acquired row with the state id is deleted, provided its
      SaveChanges succeeds. */
  function EnsureAcquired(s: Store, fold: CaseFold, stateId: Guid, queueItemId: Guid, acquirerId: NString, saveOk: bool): (o: Outcome<ItemRow>)
    ensures o.result == AcquiredItem(s.items, fold, stateId, queueItemId, acquirerId)
    ensures o.after.items == s.items && o.after.enqueued == s.enqueued
    ensures o.after.history == s.history && o.after.log == s.log
    ensures o.result.Some? || stateId == EmptyGuid || !saveOk ==> o.after == s
    ensures o.result.None? && stateId != EmptyGuid && saveOk ==> o.after.acquired == WithoutAcquired(s.acquired, stateId)
    ensures StoreKeys(s) ==> StoreKeys(o.after)
  {
    var item := AcquiredItem(s.items, fold, stateId, queueItemId, acquirerId);
    if item.None? && stateId != EmptyGuid && saveOk then
      Outcome(None, s.(acquired := WithoutAcquired(s.acquired, stateId)))
    else Outcome(item, s)
  }

  /** After a failed check whose cleanup saved, no acquired row keeps the
      state id. */
  lemma OrphanIsGone(s: Store, fold: CaseFold, stateId: Guid, queueItemId: Guid, acquirerId: NString)
    requires StoreKeys(s) && stateId != EmptyGuid
    requires AcquiredItem(s.items, fold, stateId, queueItemId, acquirerId).None?
    ensures var t := EnsureAcquired(s, fold, stateId, queueItemId, acquirerId, true).after;
      forall i :: 0 <= i < |t.acquired| ==> t.acquired[i].id != stateId
  {
  }

  /** Acquire (by type, lines 763-776, and by Guid, lines 857-869): the
      procedure's state id and queue item id go through the acquire check, and
      an accepted item is logged from Guid.Empty to the state id. */
  function AcquirePost(s: Store, fold: CaseFold, acquirerId: NString, stateId: Guid, queueItemId: Guid, env: Env): (o: Outcome<ItemRow>)
    ensures o.result == AcquiredItem(s.items, fold, stateId, queueItemId, acquirerId)
    ensures o.result.Some? ==> o.after == WriteLog(s, EmptyGuid, stateId, queueItemId, AcquireSuccess, env)
    ensures o.result.None? ==> o.after == EnsureAcquired(s, fold, stateId, queueItemId, acquirerId, env.saveOk).after
    ensures o.result.None? ==> o.after.log == s.log
    ensures StoreKeys(s) ==> StoreKeys(o.after)
  {
    var checked := EnsureAcquired(s, fold, stateId, queueItemId, acquirerId, env.saveOk);
    if checked.result.Some? then
      Outcome(checked.result, WriteLog(checked.after, EmptyGuid, stateId, checked.result.value.id, AcquireSuccess, env))
    else checked
  }

  // ---------------------------------------------------------------------
  // Release, Dequeue and Enqueue post-processing

  /** Release: with a non-empty state id from the procedure the active item is
      read back by id; a found item is logged from Guid.Empty to the state id.
      The acquirer is not checked here. */
  function ReleasePost(s: Store, stateId: Guid, queueItemId: Guid, env: Env): (o: Outcome<ItemRow>)
    ensures o.result.Some? <==>
      stateId != EmptyGuid && exists k :: 0 <= k < |s.items| && s.items[k].id == queueItemId
    ensures o.result.Some? ==> o.result.value in s.items && o.result.value.id == queueItemId
    ensures o.result.Some? ==> o.after == WriteLog(s, EmptyGuid, stateId, queueItemId, ReleaseSuccess, env)
    ensures o.result.None? ==> o.after == s
  {
    var item := if stateId == EmptyGuid then None else FindItem(s.items, queueItemId);
    if item.Some? then Outcome(item, WriteLog(s, EmptyGuid, stateId, item.value.id, ReleaseSuccess, env))
    else Outcome(None, s)
  }

  /** Dequeue: with a non-empty state id the history row with the queue item's
      id is read back; a found row is logged from Guid.Empty to the state id. */
  function DequeuePost(s: Store, stateId: Guid, queueItemId: Guid, env: Env): (o: Outcome<HistoryRow>)
    ensures o.result.Some? <==>
      stateId != EmptyGuid && exists k :: 0 <= k < |s.history| && s.history[k].id == queueItemId
    ensures o.result.Some? ==> o.result.value in s.history && o.result.value.id == queueItemId
    ensures o.result.Some? ==> o.after == WriteLog(s, EmptyGuid, stateId, queueItemId, DequeueSuccess, env)
    ensures o.result.None? ==> o.after == s
  {
    var row := if stateId == EmptyGuid then None else FindHistory(s.history, queueItemId);
    if row.Some? then Outcome(row, WriteLog(s, EmptyGuid, stateId, row.value.id, DequeueSuccess, env))
    else Outcome(None, s)
  }

  /** Dequeue finds the snapshot the procedure wrote: when the history did not
      hold the item's id before, the returned row is HistoryFromItem of the
      item. */
  lemma DequeueReturnsSnapshot(s: Store, item: ItemRow, stateId: Guid, now: Instant, env: Env)
    requires stateId != EmptyGuid
    requires forall k :: 0 <= k < |s.history| ==> s.history[k].id != item.id
    ensures DequeuePost(s.(history := s.history + [HistoryFromItem(item, now)]), stateId, item.id, env).result
         == Some(HistoryFromItem(item, now))
  {
    HistoryLookupFindsSnapshot(s.history, item, now);
  }

  /** The row the enqueue procedure returned: the new state id and the new
      queue item id. */
  datatype EnqueueRow = EnqueueRow(stateId: Guid, queueItemId: Guid)

  /** Enqueue: when the procedure returned a row, the caller gets an item built
      from the arguments as given and the returned queue item id (not read
      back, so neither cut to length nor defaulted, with Created left at its
      default), and the enqueue is logged from Guid.Empty to the state id. */
  function EnqueuePost(s: Store, itemType: NString, dataId: NString, data: NString, metadata: NString,
                       returned: Option<EnqueueRow>, env: Env): (o: Outcome<ItemRow>)
    ensures o.result.Some? <==> returned.Some?
    ensures o.result.Some? ==>
      && o.result.value.id == returned.value.queueItemId
      && o.result.value.itemType == itemType && o.result.value.itemId == dataId
      && o.result.value.itemData == data && o.result.value.itemMetadata == metadata
      && o.result.value.created == MinTicks
      && o.result.value.acquiredBy.None? && o.result.value.acquired.None?
    ensures o.result.Some? ==>
      o.after == WriteLog(s, EmptyGuid, returned.value.stateId, returned.value.queueItemId, EnqueueSuccess, env)
    ensures o.result.None? ==> o.after == s
  {
    match returned
    case None => Outcome(None, s)
    case Some(row) =>
      Outcome(Some(ItemRow(row.queueItemId, itemType, dataId, data, metadata, MinTicks, None, None)),
              WriteLog(s, EmptyGuid, row.stateId, row.queueItemId, EnqueueSuccess, env))
  }

  // ---------------------------------------------------------------------
  // RequeueAcquiredItem

  function AcquiredForItem(queueItemId: Guid): AcquiredMarker -> bool {
    (m: AcquiredMarker) => m.queueItemId == queueItemId
  }

  /** The requeue's SaveChanges succeeds: the database is up and the new
      enqueued row clashes with neither the primary key nor the unique
      QueueItemId index. */
  predicate RequeueSaves(enqueued: seq<EnqueuedMarker>, queueItemId: Guid, env: Env) {
    env.saveOk && forall i :: 0 <= i < |enqueued| ==>
      enqueued[i].id != env.newId && enqueued[i].queueItemId != queueItemId
  }

  /** The requeue finds an acquired row and an active item for the id, but its
      transaction cannot begin. BeginTransaction is outside the requeue's own
      handlers, so the exception reaches the caller. */
  predicate RequeueBeginFails(s: Store, queueItemId: Guid, env: Env) {
    && !env.beginOk
    && IndexWhere(s.acquired, AcquiredForItem(queueItemId)).Some?
    && IndexWhere(s.items, HasId(queueItemId)).Some?
  }

  /** RequeueAcquiredItem: when an acquired row and an active item exist for the
      id, the item is released, a new enqueued row created now is added, the
      acquired row is deleted and, once saved, the move is logged from the old
      row's id to the new one; otherwise, or when saving fails and is rolled
      back, or when the transaction cannot begin (and the call throws), the
      result is null and no table changes. */
  function RequeueAcquired(s: Store, queueItemId: Guid, env: Env): (o: Outcome<ItemRow>)
    ensures o.result.Some? <==>
      HasAcquiredMarker(s.acquired, queueItemId) && HasItem(s.items, queueItemId) &&
      env.beginOk && RequeueSaves(s.enqueued, queueItemId, env)
    ensures RequeueBeginFails(s, queueItemId, env) <==>
      !env.beginOk && HasAcquiredMarker(s.acquired, queueItemId) && HasItem(s.items, queueItemId)
    ensures o.result.None? ==> o.after == s
    ensures o.result.Some? ==>
      && o.result.value.id == queueItemId
      && o.result.value.acquiredBy.None? && o.result.value.acquired.None?
      && o.result == Some(Released(FindItem(s.items, queueItemId).value))
    ensures o.result.Some? ==>
      var j := IndexWhere(s.acquired, AcquiredForItem(queueItemId)).value;
      && s.acquired[j].queueItemId == queueItemId
      && o.after.acquired == RemoveAt(s.acquired, j)
      && o.after.enqueued == s.enqueued + [RequeuedFromAcquired(s.acquired[j], env.newId, env.now)]
      && o.after.log == WriteLog(s, s.acquired[j].id, env.newId, queueItemId, RequeueSuccess, env).log
    ensures o.result.Some? ==>
      var k := IndexWhere(s.items, HasId(queueItemId)).value;
      o.after.items == s.items[k := Released(s.items[k])]
    ensures o.after.history == s.history
  {
    var j := IndexWhere(s.acquired, AcquiredForItem(queueItemId));
    var k := IndexWhere(s.items, HasId(queueItemId));
    if j.None? || k.None? || !env.beginOk || !RequeueSaves(s.enqueued, queueItemId, env) then Outcome(None, s)
    else
      var toRelease := s.acquired[j.value];
      var released := Released(s.items[k.value]);
      var saved := Store(
        s.items[k.value := released],
        s.enqueued + [RequeuedFromAcquired(toRelease, env.newId, env.now)],
        RemoveAt(s.acquired, j.value),
        s.history,
        s.log);
      Outcome(Some(released), WriteLog(saved, toRelease.id, env.newId, queueItemId, RequeueSuccess, env))
  }

  /** The requeue keeps every primary key and unique index intact. */
  lemma RequeueKeepsKeys(s: Store, queueItemId: Guid, env: Env)
    requires StoreKeys(s)
    ensures StoreKeys(RequeueAcquired(s, queueItemId, env).after)
  {
    var o := RequeueAcquired(s, queueItemId, env);
    if o.result.Some? {
      var j := IndexWhere(s.acquired, AcquiredForItem(queueItemId)).value;
      var k := IndexWhere(s.items, HasId(queueItemId)).value;
      assert o.after.items == s.items[k := Released(s.items[k])];
      assert o.after.acquired == RemoveAt(s.acquired, j);
      assert forall i :: 0 <= i < |s.acquired| - 1 ==>
        o.after.acquired[i] == s.acquired[if i < j then i else i + 1];
    }
  }

  /** Releasing item k keeps every item id, so the same ids are found. */
  lemma ReleaseKeepsIds(items: seq<ItemRow>, k: int, x: Guid)
    requires 0 <= k < |items|
    ensures HasItem(items[k := Released(items[k])], x) <==> HasItem(items, x)
  {
    var t := items[k := Released(items[k])];
    if HasItem(items, x) {
      var m :| 0 <= m < |items| && items[m].id == x;
      assert t[m].id == x;
    }
    if HasItem(t, x) {
      var m :| 0 <= m < |t| && t[m].id == x;
      assert items[m].id == x;
    }
  }

  /** Deleting acquired row j drops exactly the marker of its queue item. */
  lemma RemoveAcquiredMarker(acquired: seq<AcquiredMarker>, j: int, x: Guid)
    requires AcquiredKeys(acquired) && 0 <= j < |acquired|
    ensures HasAcquiredMarker(RemoveAt(acquired, j), x) <==>
      (x != acquired[j].queueItemId && HasAcquiredMarker(acquired, x))
  {
    var t := RemoveAt(acquired, j);
    if HasAcquiredMarker(t, x) {
      var i :| 0 <= i < |t| && t[i].queueItemId == x;
      var i' := if i < j then i else i + 1;
      assert t[i] == acquired[i'];
    }
    if x != acquired[j].queueItemId && HasAcquiredMarker(acquired, x) {
      var i :| 0 <= i < |acquired| && acquired[i].queueItemId == x;
      var i' := if i < j then i else i - 1;
      assert t[i'] == acquired[i];
    }
  }

  /** The three table changes of a committed requeue keep the tables
      consistent. */
  lemma RequeueStepKeepsConsistent(items: seq<ItemRow>, enqueued: seq<EnqueuedMarker>, acquired: seq<AcquiredMarker>,
                                   j: int, k: int, marker: EnqueuedMarker)
    requires ItemKeys(items) && AcquiredKeys(acquired) && Consistent(items, enqueued, acquired)
    requires 0 <= j < |acquired| && 0 <= k < |items|
    requires items[k].id == acquired[j].queueItemId && marker.queueItemId == acquired[j].queueItemId
    ensures Consistent(items[k := Released(items[k])], enqueued + [marker], RemoveAt(acquired, j))
  {
    var items' := items[k := Released(items[k])];
    var enqueued' := enqueued + [marker];
    var acquired' := RemoveAt(acquired, j);
    var x := acquired[j].queueItemId;
    forall y | true
      ensures HasItem(items', y) <==> HasItem(items, y)
      ensures HasAcquiredMarker(acquired', y) <==> (y != x && HasAcquiredMarker(acquired, y))
    {
      ReleaseKeepsIds(items, k, y);
      RemoveAcquiredMarker(acquired, j, y);
    }
    forall a | 0 <= a < |acquired'|
      ensures acquired'[a].queueItemId != x && acquired'[a] in acquired
    {
      assert acquired'[a] == acquired[if a < j then a else a + 1];
    }
    assert Exclusive(enqueued', acquired') by {
      forall e, a | 0 <= e < |enqueued'| && 0 <= a < |acquired'|
        ensures enqueued'[e].queueItemId != acquired'[a].queueItemId
      {
        var a' :| 0 <= a' < |acquired| && acquired[a'] == acquired'[a];
        if e < |enqueued| {
          assert enqueued'[e] == enqueued[e];
        }
      }
    }
    assert Referenced(enqueued', items') by {
      forall e | 0 <= e < |enqueued'|
        ensures HasItem(items', enqueued'[e].queueItemId)
      {
        if e < |enqueued| {
          assert enqueued'[e] == enqueued[e];
        } else {
          assert HasItem(items, x) by { assert items[k].id == x; }
        }
      }
    }
    assert AcquiredReferenced(acquired', items') by {
      forall a | 0 <= a < |acquired'|
        ensures HasItem(items', acquired'[a].queueItemId)
      {
        var a' :| 0 <= a' < |acquired| && acquired[a'] == acquired'[a];
      }
    }
    assert Ownership(items', acquired') by {
      forall m | 0 <= m < |items'|
        ensures items'[m].acquired.Some? <==> HasAcquiredMarker(acquired', items'[m].id)
      {
        if m != k {
          assert items'[m] == items[m];
          assert items[m].id != x;
        }
      }
    }
  }

  /** The requeue keeps the tables consistent: the item leaves the acquired
      table, enters the enqueued table and loses its acquisition fields. */
  lemma RequeueKeepsConsistent(s: Store, queueItemId: Guid, env: Env)
    requires StoreKeys(s) && Consistent(s.items, s.enqueued, s.acquired)
    ensures var t := RequeueAcquired(s, queueItemId, env).after;
      Consistent(t.items, t.enqueued, t.acquired)
  {
    var o := RequeueAcquired(s, queueItemId, env);
    if o.result.Some? {
      var j := IndexWhere(s.acquired, AcquiredForItem(queueItemId)).value;
      var k := IndexWhere(s.items, HasId(queueItemId)).value;
      RequeueStepKeepsConsistent(s.items, s.enqueued, s.acquired, j, k,
        RequeuedFromAcquired(s.acquired[j], env.newId, env.now));
    }
  }

  /** After a successful requeue the item is in the queue again: Peak(Guid)
      finds it, released. */
  lemma RequeuedItemIsPeakable(s: Store, queueItemId: Guid, env: Env)
    requires StoreKeys(s)
    requires RequeueAcquired(s, queueItemId, env).result.Some?
    ensures var o := RequeueAcquired(s, queueItemId, env);
      PeakQueueItem(o.after.enqueued, o.after.items, queueItemId) == o.result
  {
    var o := RequeueAcquired(s, queueItemId, env);
    var k := IndexWhere(s.items, HasId(queueItemId)).value;
    var t := o.after;
    assert t.items == s.items[k := Released(s.items[k])];
    assert t.enqueued[|t.enqueued| - 1].queueItemId == queueItemId;
    assert t.items[k].id == queueItemId;
    assert forall i :: 0 <= i < k ==> t.items[i].id != queueItemId;
    assert IndexWhere(t.items, HasId(queueItemId)) == Some(k);
  }

  // ---------------------------------------------------------------------
  // RequeueStaleAcquiredItems

  /** The successes so far, the tables, and whether a requeue threw. */
  datatype Swept = Swept(count: nat, after: Store, threw: bool)

  /** Requeue each id in turn, the i-th with envs(i), and count the successes;
      a requeue that throws ends the sweep, keeping what was committed before
      it. */
  function RequeueEach(s: Store, ids: seq<Guid>, envs: nat -> Env): (w: Swept)
    ensures w.count <= |ids|
    ensures w.threw ==> w.count < |ids|
    ensures w.after.history == s.history
    ensures |w.after.acquired| + w.count == |s.acquired|
    ensures |w.after.enqueued| == |s.enqueued| + w.count
    ensures s.enqueued <= w.after.enqueued
  {
    if |ids| == 0 then Swept(0, s, false)
    else
      var before := RequeueEach(s, ids[..|ids| - 1], envs);
      if before.threw then before
      else if RequeueBeginFails(before.after, ids[|ids| - 1], envs(|ids| - 1)) then
        Swept(before.count, before.after, true)
      else
        var o := RequeueAcquired(before.after, ids[|ids| - 1], envs(|ids| - 1));
        Swept(before.count + (if o.result.Some? then 1 else 0), o.after, false)
  }

  /** One more id: the sweep over the first n + 1 ids either throws at the
      last one, keeping the tables, or adds that id's requeue. */
  lemma RequeueEachStep(s: Store, ids: seq<Guid>, n: nat, envs: nat -> Env)
    requires n < |ids| && !RequeueEach(s, ids[..n], envs).threw
    ensures var before := RequeueEach(s, ids[..n], envs);
      if RequeueBeginFails(before.after, ids[n], envs(n)) then
        RequeueEach(s, ids[..n + 1], envs) == Swept(before.count, before.after, true)
      else
        var o := RequeueAcquired(before.after, ids[n], envs(n));
        RequeueEach(s, ids[..n + 1], envs) == Swept(before.count + (if o.result.Some? then 1 else 0), o.after, false)
  {
    assert ids[..n + 1][..n] == ids[..n];
  }

  /** Once a requeue has thrown, the ids after it are not attempted. */
  lemma {:induction false} RequeueEachStopsAfterThrow(s: Store, ids: seq<Guid>, n: nat, envs: nat -> Env)
    requires n <= |ids| && RequeueEach(s, ids[..n], envs).threw
    ensures RequeueEach(s, ids, envs) == RequeueEach(s, ids[..n], envs)
    decreases |ids|
  {
    if n < |ids| {
      var front := ids[..|ids| - 1];
      assert front[..n] == ids[..n];
      RequeueEachStopsAfterThrow(s, front, n, envs);
    } else {
      assert ids[..n] == ids;
    }
  }

  /** The sweep throws at the n-th id: the requeues before it did not throw,
      this one could not begin, and the tables are those the earlier requeues
      committed. */
  predicate ThrewAt(s: Store, ids: seq<Guid>, envs: nat -> Env, n: int) {
    && 0 <= n < |ids|
    && !RequeueEach(s, ids[..n], envs).threw
    && RequeueBeginFails(RequeueEach(s, ids[..n], envs).after, ids[n], envs(n))
    && RequeueEach(s, ids, envs).after == RequeueEach(s, ids[..n], envs).after
  }

  /** A sweep that threw did so at one id, and the requeues before it stay
      committed. */
  lemma {:induction false} RequeueEachThrowKeepsPrefix(s: Store, ids: seq<Guid>, envs: nat -> Env)
    requires RequeueEach(s, ids, envs).threw
    ensures exists n :: ThrewAt(s, ids, envs, n)
  {
    var front := ids[..|ids| - 1];
    var before := RequeueEach(s, front, envs);
    if before.threw {
      RequeueEachThrowKeepsPrefix(s, front, envs);
      var n :| ThrewAt(s, front, envs, n);
      assert front[..n] == ids[..n] && front[n] == ids[n];
      assert ThrewAt(s, ids, envs, n);
    } else {
      assert ThrewAt(s, ids, envs, |ids| - 1);
    }
  }

  /** Requeueing one by one keeps keys and consistency. */
  lemma {:induction false} RequeueEachKeepsInvariants(s: Store, ids: seq<Guid>, envs: nat -> Env)
    requires StoreKeys(s)
    ensures StoreKeys(RequeueEach(s, ids, envs).after)
    ensures Consistent(s.items, s.enqueued, s.acquired) ==>
      var t := RequeueEach(s, ids, envs).after;
      Consistent(t.items, t.enqueued, t.acquired)
  {
    if |ids| > 0 {
      RequeueEachKeepsInvariants(s, ids[..|ids| - 1], envs);
      var before := RequeueEach(s, ids[..|ids| - 1], envs).after;
      RequeueKeepsKeys(before, ids[|ids| - 1], envs(|ids| - 1));
      if Consistent(s.items, s.enqueued, s.acquired) {
        RequeueKeepsConsistent(before, ids[|ids| - 1], envs(|ids| - 1));
      }
    }
  }

  /** A successful requeue appends one enqueued row for the item. */
  lemma RequeueAppends(s: Store, queueItemId: Guid, env: Env)
    requires RequeueAcquired(s, queueItemId, env).result.Some?
    ensures var t := RequeueAcquired(s, queueItemId, env).after;
      |t.enqueued| == |s.enqueued| + 1 && s.enqueued <= t.enqueued &&
      t.enqueued[|s.enqueued|].queueItemId == queueItemId
  {
  }

  predicate HasEnqueuedMarker(enqueued: seq<EnqueuedMarker>, queueItemId: Guid) {
    exists i :: 0 <= i < |enqueued| && enqueued[i].queueItemId == queueItemId
  }

  /** An enqueued row stays found when rows are appended after it. */
  lemma EnqueuedMarkerKept(enqueued: seq<EnqueuedMarker>, longer: seq<EnqueuedMarker>, queueItemId: Guid)
    requires enqueued <= longer && HasEnqueuedMarker(enqueued, queueItemId)
    ensures HasEnqueuedMarker(longer, queueItemId)
  {
    var i :| 0 <= i < |enqueued| && enqueued[i].queueItemId == queueItemId;
    assert longer[i] == enqueued[i];
  }

  /** An element of a sequence other than its last one is in the front part. */
  lemma InFront(ids: seq<Guid>, g: Guid)
    requires g in ids && g != ids[|ids| - 1]
    ensures g in ids[..|ids| - 1]
  {
    var n :| 0 <= n < |ids| && ids[n] == g;
    assert ids[..|ids| - 1][n] == g;
  }

  /** When every requeue succeeded, every id has an enqueued row. */
  lemma {:induction false} RequeueEachAllSucceeded(s: Store, ids: seq<Guid>, envs: nat -> Env)
    requires RequeueEach(s, ids, envs).count == |ids|
    ensures forall g :: g in ids ==> HasEnqueuedMarker(RequeueEach(s, ids, envs).after.enqueued, g)
  {
    if |ids| > 0 {
      var front := ids[..|ids| - 1];
      var last := ids[|ids| - 1];
      var before := RequeueEach(s, front, envs);
      var o := RequeueAcquired(before.after, last, envs(|ids| - 1));
      var w := RequeueEach(s, ids, envs);
      assert !before.threw && !RequeueBeginFails(before.after, last, envs(|ids| - 1));
      assert w.count == before.count + (if o.result.Some? then 1 else 0);
      assert w.after.enqueued == o.after.enqueued;
      assert o.result.Some? && before.count == |front|;
      RequeueAppends(before.after, last, envs(|ids| - 1));
      RequeueEachAllSucceeded(s, front, envs);
      var t := o.after.enqueued;
      assert HasEnqueuedMarker(t, last) by {
        assert t[|before.after.enqueued|].queueItemId == last;
      }
      forall g | g in ids
        ensures HasEnqueuedMarker(t, g)
      {
        if g != last {
          InFront(ids, g);
          EnqueuedMarkerKept(before.after.enqueued, t, g);
        }
      }
    }
  }

  /** The outcome of RequeueStaleAcquiredItems: the success count, the count of
      listed ids, and the tables after. */
  datatype SweepOutcome = SweepOutcome(countSuccess: int, counterAll: int, after: Store)

  /** RequeueStaleAcquiredItems: every id of the stale listing is requeued in
      order. A listing that throws is caught and reported as (-1, -1) with no
      table changed; a requeue that throws is caught the same way, after the
      requeues before it have been committed. */
  function RequeueStale(s: Store, fold: CaseFold, itemType: NString, period: Span, now: Instant,
                        queryFails: bool, envs: nat -> Env): (o: SweepOutcome)
    ensures var listing := StaleAcquired(s.acquired, fold, itemType, period, now, queryFails);
      && (listing.Threw? ==> o == SweepOutcome(-1, -1, s))
      && (listing.Ok? ==> (o.counterAll == -1 <==> RequeueEach(s, listing.value, envs).threw))
      && (listing.Ok? && o.counterAll != -1 ==> o.counterAll == |listing.value| && 0 <= o.countSuccess <= o.counterAll)
    ensures var listing := StaleAcquired(s.acquired, fold, itemType, period, now, queryFails);
      listing.Ok? ==>
        && o.after == RequeueEach(s, listing.value, envs).after
        && (o.counterAll != -1 ==> o.countSuccess == RequeueEach(s, listing.value, envs).count)
    ensures o.countSuccess == -1 <==> o.counterAll == -1
    ensures |o.after.acquired| + |o.after.enqueued| == |s.acquired| + |s.enqueued|
    ensures s.enqueued <= o.after.enqueued
    ensures o.countSuccess >= 0 ==> |o.after.enqueued| == |s.enqueued| + o.countSuccess
    ensures o.after.history == s.history
  {
    var listing := StaleAcquired(s.acquired, fold, itemType, period, now, queryFails);
    if listing.Threw? then SweepOutcome(-1, -1, s)
    else
      var w := RequeueEach(s, listing.value, envs);
      if w.threw then SweepOutcome(-1, -1, w.after)
      else SweepOutcome(w.count, |listing.value|, w.after)
  }

  /** countSuccess == counterAll means every item meeting the criteria is back
      in the enqueued table. */
  lemma AllStaleRequeued(s: Store, fold: CaseFold, itemType: NString, period: Span, now: Instant,
                         queryFails: bool, envs: nat -> Env)
    requires var o := RequeueStale(s, fold, itemType, period, now, queryFails, envs);
      o.countSuccess == o.counterAll >= 0
    ensures var o := RequeueStale(s, fold, itemType, period, now, queryFails, envs);
      forall i ::
        (0 <= i < |s.acquired| && TypeFilter(fold, itemType, s.acquired[i].itemType) &&
         (period <= 0 || s.acquired[i].acquired >= now - period)) ==>
        HasEnqueuedMarker(o.after.enqueued, s.acquired[i].queueItemId)
  {
    var listing := StaleAcquired(s.acquired, fold, itemType, period, now, queryFails);
    assert listing.Ok?;
    RequeueEachAllSucceeded(s, listing.value, envs);
  }

  // ---------------------------------------------------------------------
  // The data context

  class QueueDataContext {
    /** The case mapping of the culture the context runs under. */
    const fold: CaseFold
    var items: seq<ItemRow>
    var enqueued: seq<EnqueuedMarker>
    var acquired: seq<AcquiredMarker>
    var history: seq<HistoryRow>
    var log: seq<LogEntry>

    function Tables(): Store
      reads this
    {
      Store(items, enqueued, acquired, history, log)
    }

    ghost predicate Valid()
      reads this
    {
      StoreKeys(Tables())
    }

    /** A context over a database whose tables are given. */
    constructor (fold: CaseFold, tables: Store)
      requires StoreKeys(tables)
      ensures Valid() && Tables() == tables && this.fold == fold
    {
      this.fold := fold;
      items, enqueued, acquired := tables.items, tables.enqueued, tables.acquired;
      history, log := tables.history, tables.log;
    }

    method WriteQueueLogEntry(source: Guid, destination: Guid, queueItemId: Guid, category: string, env: Env)
      requires Valid()
      modifies this
      ensures Valid()
      ensures Tables() == WriteLog(old(Tables()), source, destination, queueItemId, category, env)
    {
      var entry := LogEntry(env.logEntryId, source, destination, queueItemId, env.logTime, category);
      if env.logSaveOk && LogIdFree(log, entry.logEntryId) {
        log := log + [entry];
      }
    }

    method EnsureAcquireSucceeded(stateId: Guid, queueItemId: Guid, acquirerId: NString, env: Env)
      returns (r: Option<ItemRow>)
      requires Valid()
      modifies this
      ensures Valid()
      ensures Outcome(r, Tables()) == EnsureAcquired(old(Tables()), fold, stateId, queueItemId, acquirerId, env.saveOk)
    {
      r := None;
      if stateId != EmptyGuid {
        r := AcquiredItem(items, fold, stateId, queueItemId, acquirerId);
        if r.None? {
          var orphan := IndexWhere(acquired, MarkerHasId(stateId));
          if orphan.Some? && env.saveOk {
            acquired := RemoveAt(acquired, orphan.value);
          }
        }
      }
    }

    /** The C# part of both Acquire overloads, after the procedure returned
        stateId and queueItemId (Guid.Empty when it returned nothing). */
    method Acquire(acquirerId: NString, stateId: Guid, queueItemId: Guid, env: Env) returns (r: Option<ItemRow>)
      requires Valid()
      modifies this
      ensures Valid()
      ensures Outcome(r, Tables()) == AcquirePost(old(Tables()), fold, acquirerId, stateId, queueItemId, env)
    {
      r := EnsureAcquireSucceeded(stateId, queueItemId, acquirerId, env);
      if r.Some? {
        WriteQueueLogEntry(EmptyGuid, stateId, r.value.id, AcquireSuccess, env);
      }
    }

    method Release(stateId: Guid, queueItemId: Guid, env: Env) returns (r: Option<ItemRow>)
      requires Valid()
      modifies this
      ensures Valid()
      ensures Outcome(r, Tables()) == ReleasePost(old(Tables()), stateId, queueItemId, env)
    {
      r := None;
      if stateId != EmptyGuid {
        r := FindItem(items, queueItemId);
      }
      if r.Some? {
        WriteQueueLogEntry(EmptyGuid, stateId, r.value.id, ReleaseSuccess, env);
      }
    }

    method Dequeue(stateId: Guid, queueItemId: Guid, env: Env) returns (r: Option<HistoryRow>)
      requires Valid()
      modifies this
      ensures Valid()
      ensures Outcome(r, Tables()) == DequeuePost(old(Tables()), stateId, queueItemId, env)
    {
      r := None;
      if stateId != EmptyGuid {
        r := FindHistory(history, queueItemId);
      }
      if r.Some? {
        WriteQueueLogEntry(EmptyGuid, stateId, r.value.id, DequeueSuccess, env);
      }
    }

    method Enqueue(itemType: NString, dataId: NString, data: NString, metadata: NString,
                   returned: Option<EnqueueRow>, env: Env) returns (r: Option<ItemRow>)
      requires Valid()
      modifies this
      ensures Valid()
      ensures Outcome(r, Tables()) == EnqueuePost(old(Tables()), itemType, dataId, data, metadata, returned, env)
    {
      r := None;
      if returned.Some? {
        r := Some(ItemRow(returned.value.queueItemId, itemType, dataId, data, metadata, MinTicks, None, None));
        WriteQueueLogEntry(EmptyGuid, returned.value.stateId, r.value.id, EnqueueSuccess, env);
      }
    }

    /** threw: the call ends in the exception of a transaction that could
        not begin. */
    method RequeueAcquiredItem(queueItemId: Guid, env: Env) returns (r: Option<ItemRow>, threw: bool)
      requires Valid()
      modifies this
      ensures Valid()
      ensures Outcome(r, Tables()) == RequeueAcquired(old(Tables()), queueItemId, env)
      ensures threw == RequeueBeginFails(old(Tables()), queueItemId, env)
    {
      RequeueKeepsKeys(Tables(), queueItemId, env);
      r, threw := None, false;
      var j := IndexWhere(acquired, AcquiredForItem(queueItemId));
      if j.None? {
        return;
      }
      var k := IndexWhere(items, HasId(queueItemId));
      if k.None? {
        return;
      }
      if !env.beginOk {
        threw := true;
        return;
      }
      var toRelease := acquired[j.value];
      var queueItem := new ItemEntity.Load(items[k.value]);
      queueItem.Release();
      var toEnqueue := RequeuedFromAcquired(toRelease, env.newId, env.now);
      if RequeueSaves(enqueued, queueItemId, env) {
        items := items[k.value := queueItem.Row()];
        enqueued := enqueued + [toEnqueue];
        acquired := RemoveAt(acquired, j.value);
        WriteQueueLogEntry(toRelease.id, toEnqueue.id, queueItemId, RequeueSuccess, env);
        r := Some(queueItem.Row());
      }
    }

    method RequeueStaleAcquiredItems(itemType: NString, period: Span, now: Instant, queryFails: bool, envs: nat -> Env)
      returns (countSuccess: int, counterAll: int)
      requires Valid()
      modifies this
      ensures Valid()
      ensures SweepOutcome(countSuccess, counterAll, Tables())
           == RequeueStale(old(Tables()), fold, itemType, period, now, queryFails, envs)
    {
      var listing := StaleAcquired(acquired, fold, itemType, period, now, queryFails);
      if listing.Threw? {
        return -1, -1;
      }
      var ids := listing.value;
      countSuccess, counterAll := 0, 0;
      while counterAll < |ids|
        invariant 0 <= counterAll <= |ids|
        invariant Valid()
        invariant RequeueEach(old(Tables()), ids[..counterAll], envs) == Swept(countSuccess, Tables(), false)
      {
        RequeueEachStep(old(Tables()), ids, counterAll, envs);
        counterAll := counterAll + 1;
        var r, threw := RequeueAcquiredItem(ids[counterAll - 1], envs(counterAll - 1));
        if threw {
          RequeueEachStopsAfterThrow(old(Tables()), ids, counterAll, envs);
          return -1, -1;
        }
        if r.Some? {
          countSuccess := countSuccess + 1;
        }
      }
      assert ids[..counterAll] == ids;
    }
  }
}
