/** The read-only queries of DrpServerQueueDataContext over its tables: the
    FIFO peeks, the counts and the stale listings, together with the table
    invariants that the state-changing operations keep. */
module QueueQueries {
  import opened Primitives
  import opened Tables
  import opened ItemData
  import opened Records

  // ---------------------------------------------------------------------
  // Lookups by key

  function HasId(id: Guid): ItemRow -> bool {
    (x: ItemRow) => x.id == id
  }

  /** `ServerQueueItems.Find(id)` and `Where(Id == id).FirstOrDefault()`. */
  function FindItem(items: seq<ItemRow>, id: Guid): (r: Option<ItemRow>)
    ensures r.Some? ==> r.value in items && r.value.id == id
    ensures r.None? <==> forall k :: 0 <= k < |items| ==> items[k].id != id
  {
    FirstWhere(items, HasId(id))
  }

  function HistoryHasId(id: Guid): HistoryRow -> bool {
    (h: HistoryRow) => h.id == id
  }

  /** `ServerQueueHistoryItems.Where(Id == id).FirstOrDefault()`. */
  function FindHistory(history: seq<HistoryRow>, id: Guid): (r: Option<HistoryRow>)
    ensures r.Some? ==> r.value in history && r.value.id == id
    ensures r.None? <==> forall k :: 0 <= k < |history| ==> history[k].id != id
  {
    FirstWhere(history, HistoryHasId(id))
  }

  /** A history row keeps the active item's own id, so once Dequeue has moved
      an item whose id the history did not yet hold, looking that id up finds
      exactly the snapshot. */
  lemma HistoryLookupFindsSnapshot(history: seq<HistoryRow>, item: ItemRow, now: Instant)
    requires forall k :: 0 <= k < |history| ==> history[k].id != item.id
    ensures FindHistory(history + [HistoryFromItem(item, now)], item.id) == Some(HistoryFromItem(item, now))
  {
    FirstWhereAppend(history, HistoryHasId(item.id), HistoryFromItem(item, now));
  }

  // ---------------------------------------------------------------------
  // FIFO order: `ServerQueueEnqueuedItems.OrderBy(Created)`

  function ByCreated(m: EnqueuedMarker): int {
    m.created
  }

  function AnyMarker(): EnqueuedMarker -> bool {
    (m: EnqueuedMarker) => true
  }

  /** The type filter of Peak(type): `ItemType.Equals(itemType, ...IgnoreCase)`. */
  function MarkerOfType(fold: CaseFold, itemType: string): EnqueuedMarker -> bool {
    (m: EnqueuedMarker) => MatchesIgnoringCase(fold, itemType, m.itemType)
  }

  function MarkerForItem(queueItemId: Guid): EnqueuedMarker -> bool {
    (m: EnqueuedMarker) => m.queueItemId == queueItemId
  }

  /** Marker i heads the queue among the markers satisfying p: none of them
      was created earlier, and every one before it in scan order was created
      later. */
  predicate IsHeadAt(enqueued: seq<EnqueuedMarker>, p: EnqueuedMarker -> bool, i: int) {
    && 0 <= i < |enqueued| && p(enqueued[i])
    && (forall j :: 0 <= j < |enqueued| && p(enqueued[j]) ==> enqueued[i].created <= enqueued[j].created)
    && (forall j :: 0 <= j < i && p(enqueued[j]) ==> enqueued[i].created < enqueued[j].created)
  }

  lemma HeadIsUnique(enqueued: seq<EnqueuedMarker>, p: EnqueuedMarker -> bool, i: int, j: int)
    requires IsHeadAt(enqueued, p, i) && IsHeadAt(enqueued, p, j)
    ensures i == j
  {
  }

  /** The item behind the queue head among the markers satisfying p, looked up
      by primary key; null when no marker matches or the item is missing. */
  function PeakWhere(enqueued: seq<EnqueuedMarker>, items: seq<ItemRow>, p: EnqueuedMarker -> bool): (r: Option<ItemRow>)
    ensures r.Some? ==>
      r.value in items && exists i :: IsHeadAt(enqueued, p, i) && enqueued[i].queueItemId == r.value.id
    ensures r.None? <==> forall i :: IsHeadAt(enqueued, p, i) ==> FindItem(items, enqueued[i].queueItemId).None?
  {
    var head := FirstByKey(enqueued, ByCreated, p);
    if head.None? then None
    else
      var i :| 0 <= i < |enqueued| && enqueued[i] == head.value &&
        forall j :: 0 <= j < i && p(enqueued[j]) ==> ByCreated(head.value) < ByCreated(enqueued[j]);
      assert IsHeadAt(enqueued, p, i);
      assert forall i' :: IsHeadAt(enqueued, p, i') ==> i' == i by {
        forall i' | IsHeadAt(enqueued, p, i') {
          HeadIsUnique(enqueued, p, i, i');
        }
      }
      FindItem(items, head.value.queueItemId)
  }

  predicate HasItem(items: seq<ItemRow>, id: Guid) {
    exists k :: 0 <= k < |items| && items[k].id == id
  }

  /** Every enqueued marker names an existing item. */
  predicate Referenced(enqueued: seq<EnqueuedMarker>, items: seq<ItemRow>) {
    forall i :: 0 <= i < |enqueued| ==> HasItem(items, enqueued[i].queueItemId)
  }

  /** Peak(): the item behind the earliest-created enqueued marker. */
  function Peak(enqueued: seq<EnqueuedMarker>, items: seq<ItemRow>): (r: Option<ItemRow>)
    ensures |enqueued| == 0 ==> r.None?
    ensures r.Some? ==>
      && r.value in items
      && exists i :: 0 <= i < |enqueued| && enqueued[i].queueItemId == r.value.id &&
           forall j :: 0 <= j < |enqueued| ==> enqueued[i].created <= enqueued[j].created
    ensures Referenced(enqueued, items) && |enqueued| > 0 ==> r.Some?
  {
    var r := PeakWhere(enqueued, items, AnyMarker());
    assert |enqueued| > 0 ==> FirstByKey(enqueued, ByCreated, AnyMarker()).Some?;
    r
  }

  /** Peak(type): a blank type peeks the whole queue; any other type peeks the
      markers whose type equals it ignoring case. */
  function PeakOfType(enqueued: seq<EnqueuedMarker>, items: seq<ItemRow>, fold: CaseFold, itemType: NString): (r: Option<ItemRow>)
    ensures IsNullOrWhiteSpace(itemType) ==> r == Peak(enqueued, items)
    ensures !IsNullOrWhiteSpace(itemType) && r.Some? ==>
      && r.value in items
      && exists i :: 0 <= i < |enqueued| && enqueued[i].queueItemId == r.value.id &&
           MatchesIgnoringCase(fold, itemType.value, enqueued[i].itemType) &&
           forall j :: 0 <= j < |enqueued| && MatchesIgnoringCase(fold, itemType.value, enqueued[j].itemType) ==>
             enqueued[i].created <= enqueued[j].created
    ensures (!IsNullOrWhiteSpace(itemType) &&
             forall i :: 0 <= i < |enqueued| ==> !MatchesIgnoringCase(fold, itemType.value, enqueued[i].itemType))
            ==> r.None?
    ensures (&& !IsNullOrWhiteSpace(itemType) && Referenced(enqueued, items)
             && exists i :: 0 <= i < |enqueued| && MatchesIgnoringCase(fold, itemType.value, enqueued[i].itemType))
            ==> r.Some?
  {
    if IsNullOrWhiteSpace(itemType) then Peak(enqueued, items)
    else
      var p := MarkerOfType(fold, itemType.value);
      assert (exists i :: 0 <= i < |enqueued| && p(enqueued[i])) ==> FirstByKey(enqueued, ByCreated, p).Some?;
      PeakWhere(enqueued, items, p)
  }

  /** When the head of the whole queue has the requested type, Peak(type) and
      Peak() agree. */
  lemma PeakOfTypeAgreesWithPeak(enqueued: seq<EnqueuedMarker>, items: seq<ItemRow>, fold: CaseFold, itemType: string, i: int)
    requires IsHeadAt(enqueued, AnyMarker(), i)
    requires MatchesIgnoringCase(fold, itemType, enqueued[i].itemType)
    ensures PeakOfType(enqueued, items, fold, Some(itemType)) == Peak(enqueued, items)
  {
    var head := FirstByKey(enqueued, ByCreated, AnyMarker());
    var h :| 0 <= h < |enqueued| && enqueued[h] == head.value &&
      forall j :: 0 <= j < h ==> ByCreated(head.value) < ByCreated(enqueued[j]);
    assert IsHeadAt(enqueued, AnyMarker(), h);
    HeadIsUnique(enqueued, AnyMarker(), i, h);
    FirstByKeyNarrow(enqueued, ByCreated, AnyMarker(), MarkerOfType(fold, itemType));
    if !IsNullOrWhiteSpace(Some(itemType)) {
      assert PeakOfType(enqueued, items, fold, Some(itemType))
          == PeakWhere(enqueued, items, MarkerOfType(fold, itemType));
    }
  }

  /** Peak(Guid): the item, provided an enqueued marker for it exists; an item
      that is acquired (has no enqueued marker) is not found. */
  function PeakQueueItem(enqueued: seq<EnqueuedMarker>, items: seq<ItemRow>, queueItemId: Guid): (r: Option<ItemRow>)
    ensures r == if exists i :: 0 <= i < |enqueued| && enqueued[i].queueItemId == queueItemId
                 then FindItem(items, queueItemId) else None
  {
    var head := FirstByKey(enqueued, ByCreated, MarkerForItem(queueItemId));
    if head.None? then None else FindItem(items, head.value.queueItemId)
  }

  function ItemCreated(x: ItemRow): int {
    x.created
  }

  function ItemIdMatches(fold: CaseFold, itemId: string): ItemRow -> bool {
    (x: ItemRow) => MatchesIgnoringCase(fold, itemId, x.itemId)
  }

  /** PeakItemId: among the active items whose user id equals itemId ignoring
      case, one created first; a null itemId finds nothing. */
  function PeakItemId(items: seq<ItemRow>, fold: CaseFold, itemId: NString): (r: Option<ItemRow>)
    ensures itemId.None? ==> r.None?
    ensures r.Some? ==> r.value in items && MatchesIgnoringCase(fold, itemId.value, r.value.itemId)
    ensures r.Some? ==> forall k :: 0 <= k < |items| && MatchesIgnoringCase(fold, itemId.value, items[k].itemId) ==>
      r.value.created <= items[k].created
    ensures itemId.Some? && r.None? ==> forall k :: 0 <= k < |items| ==> !MatchesIgnoringCase(fold, itemId.value, items[k].itemId)
  {
    if itemId.None? then None
    else FirstByKey(items, ItemCreated, ItemIdMatches(fold, itemId.value))
  }

  // ---------------------------------------------------------------------
  // Counts (the type filters compare ordinally)

  function ItemOfType(itemType: string): ItemRow -> bool {
    (x: ItemRow) => x.itemType == Some(itemType)
  }

  function EnqueuedOfType(itemType: string): EnqueuedMarker -> bool {
    (m: EnqueuedMarker) => m.itemType == Some(itemType)
  }

  function AcquiredOfType(itemType: string): AcquiredMarker -> bool {
    (m: AcquiredMarker) => m.itemType == Some(itemType)
  }

  /** QueueCountOfItemType: active items of the type; a blank type counts them
      all (QueueCount). */
  function QueueCountOfItemType(items: seq<ItemRow>, itemType: NString): (n: nat)
    ensures n <= |items|
    ensures IsNullOrWhiteSpace(itemType) ==> n == |items|
    ensures !IsNullOrWhiteSpace(itemType) ==>
      (n == 0 <==> forall k :: 0 <= k < |items| ==> items[k].itemType != itemType)
    ensures !IsNullOrWhiteSpace(itemType) ==>
      (n == |items| <==> forall k :: 0 <= k < |items| ==> items[k].itemType == itemType)
    ensures !IsNullOrWhiteSpace(itemType) ==>
      n == |set k | 0 <= k < |items| && items[k].itemType == itemType|
  {
    if IsNullOrWhiteSpace(itemType) then |items|
    else
      var p := ItemOfType(itemType.value);
      CountWhereIsIndexCount(items, p);
      assert IndicesWhere(items, p) == set k | 0 <= k < |items| && items[k].itemType == itemType;
      CountWhere(items, p)
  }

  /** EnqueuedCountOfItemType: enqueued markers of the type; a blank type
      counts them all (EnqueuedCount). */
  function EnqueuedCountOfItemType(enqueued: seq<EnqueuedMarker>, itemType: NString): (n: nat)
    ensures n <= |enqueued|
    ensures IsNullOrWhiteSpace(itemType) ==> n == |enqueued|
    ensures !IsNullOrWhiteSpace(itemType) ==>
      (n == 0 <==> forall k :: 0 <= k < |enqueued| ==> enqueued[k].itemType != itemType)
    ensures !IsNullOrWhiteSpace(itemType) ==>
      n == |set k | 0 <= k < |enqueued| && enqueued[k].itemType == itemType|
  {
    if IsNullOrWhiteSpace(itemType) then |enqueued|
    else
      var p := EnqueuedOfType(itemType.value);
      CountWhereIsIndexCount(enqueued, p);
      assert IndicesWhere(enqueued, p) == set k | 0 <= k < |enqueued| && enqueued[k].itemType == itemType;
      CountWhere(enqueued, p)
  }

  /** AcquiredCountOfItemType: acquired markers of the type, but a blank type
      yields the count of the enqueued table. */
  function AcquiredCountOfItemType(enqueued: seq<EnqueuedMarker>, acquired: seq<AcquiredMarker>, itemType: NString): (n: nat)
    ensures IsNullOrWhiteSpace(itemType) ==> n == |enqueued|
    ensures !IsNullOrWhiteSpace(itemType) ==> n <= |acquired|
    ensures !IsNullOrWhiteSpace(itemType) ==>
      (n == 0 <==> forall k :: 0 <= k < |acquired| ==> acquired[k].itemType != itemType)
    ensures !IsNullOrWhiteSpace(itemType) ==>
      n == |set k | 0 <= k < |acquired| && acquired[k].itemType == itemType|
  {
    if IsNullOrWhiteSpace(itemType) then |enqueued|
    else
      var p := AcquiredOfType(itemType.value);
      CountWhereIsIndexCount(acquired, p);
      assert IndicesWhere(acquired, p) == set k | 0 <= k < |acquired| && acquired[k].itemType == itemType;
      CountWhere(acquired, p)
  }

  /** A blank type does not count acquired markers at all: with one enqueued
      and no acquired marker it reports one acquired item. */
  lemma BlankAcquiredCountIsEnqueuedCount(m: EnqueuedMarker)
    ensures var noneAcquired: seq<AcquiredMarker> := [];
      AcquiredCountOfItemType([m], noneAcquired, None) == 1 && |noneAcquired| == 0
  {
  }

  // ---------------------------------------------------------------------
  // Stale listings

  /** The optional type filter: a blank type matches every row. */
  predicate TypeFilter(fold: CaseFold, itemType: NString, column: NString) {
    IsNullOrWhiteSpace(itemType) || MatchesIgnoringCase(fold, itemType.value, column)
  }

  function AcquiredQueueItemId(m: AcquiredMarker): Guid {
    m.queueItemId
  }

  function EnqueuedQueueItemId(m: EnqueuedMarker): Guid {
    m.queueItemId
  }

  /** The filter of GetStaleServerQueueAcquiredItems: the type filter and, for
      a positive period, `Acquired >= now - period`. */
  function StaleAcquiredFilter(fold: CaseFold, itemType: NString, period: Span, now: Instant): AcquiredMarker -> bool {
    (m: AcquiredMarker) => TypeFilter(fold, itemType, m.itemType) && (period <= 0 || m.acquired >= now - period)
  }

  /** GetStaleServerQueueAcquiredItems. Any failure inside the query (the
      subtraction leaving the DateTimeOffset range, or the database read,
      given by queryFails) reaches a handler whose own message formatting
      throws, so the call throws instead of returning an empty list. */
  function StaleAcquired(acquired: seq<AcquiredMarker>, fold: CaseFold, itemType: NString,
                         period: Span, now: Instant, queryFails: bool): (r: Result<seq<Guid>>)
    ensures r.Threw? <==> queryFails || (period > 0 && now - period < MinTicks)
    ensures r.Threw? ==> r.exception == Format
    ensures r.Ok? ==> |r.value| <= |acquired|
    ensures r.Ok? ==> |r.value| == CountWhere(acquired, StaleAcquiredFilter(fold, itemType, period, now))
    ensures r.Ok? ==> forall g :: g in r.value <==>
      exists i :: 0 <= i < |acquired| && acquired[i].queueItemId == g &&
        TypeFilter(fold, itemType, acquired[i].itemType) &&
        (period <= 0 || acquired[i].acquired >= now - period)
  {
    if period > 0 && now - period < MinTicks then Threw(Format)
    else if queryFails then Threw(Format)
    else Ok(SelectWhere(acquired, StaleAcquiredFilter(fold, itemType, period, now), AcquiredQueueItemId))
  }

  /** With no positive period and no type, every acquired marker is listed, in
      table order. */
  lemma StaleAcquiredListsAll(acquired: seq<AcquiredMarker>, fold: CaseFold, itemType: NString, period: Span, now: Instant)
    requires period <= 0 && IsNullOrWhiteSpace(itemType)
    ensures StaleAcquired(acquired, fold, itemType, period, now, false).Ok?
    ensures var ids := StaleAcquired(acquired, fold, itemType, period, now, false).value;
      |ids| == |acquired| && forall i :: 0 <= i < |acquired| ==> ids[i] == acquired[i].queueItemId
  {
    SelectAllIsProjection(acquired, StaleAcquiredFilter(fold, itemType, period, now), AcquiredQueueItemId);
  }

  /** The listing keeps the recently acquired markers: one acquired at now is
      listed for every positive period that keeps now - period in range, and
      one acquired before now - period is not. */
  lemma StaleAcquiredListsRecent(m: AcquiredMarker, fold: CaseFold, period: Span, now: Instant)
    requires 0 < period <= now
    ensures StaleAcquired([m.(acquired := now)], fold, None, period, now, false) == Ok([m.queueItemId])
    ensures m.acquired < now - period ==> StaleAcquired([m], fold, None, period, now, false) == Ok([])
  {
    assert SelectWhere([m.(acquired := now)], StaleAcquiredFilter(fold, None, period, now), AcquiredQueueItemId)
        == [m.queueItemId];
    assert [m][1..] == [];
  }

  /** The period the enqueued listing uses: a negative period is negated, which
      overflows for TimeSpan.MinValue. */
  function AbsPeriod(period: Span): (r: Result<Span>)
    ensures r.Threw? <==> period == MinSpan
    ensures r.Ok? ==> r.value >= 0 && (r.value == period || r.value == -period)
  {
    if period < 0 then
      if period == MinSpan then Threw(Overflow) else Ok(-period)
    else Ok(period)
  }

  function StaleEnqueuedFilter(fold: CaseFold, itemType: NString, since: int): EnqueuedMarker -> bool {
    (m: EnqueuedMarker) => TypeFilter(fold, itemType, m.itemType) && m.created >= since
  }

  /** GetStaleServerQueueEnqueuedItems: the enqueued markers created at or after
      now - |period| that pass the type filter. Every failure, the negation
      overflow included, ends in the throwing handler. */
  function StaleEnqueued(enqueued: seq<EnqueuedMarker>, fold: CaseFold, itemType: NString,
                         period: Span, now: Instant, queryFails: bool): (r: Result<seq<Guid>>)
    ensures r.Threw? <==>
      (period == MinSpan || queryFails || now - (if period < 0 then -period else period) < MinTicks)
    ensures r.Threw? ==> r.exception == Format
    ensures r.Ok? ==> |r.value| <= |enqueued|
    ensures r.Ok? ==>
      |r.value| == CountWhere(enqueued, StaleEnqueuedFilter(fold, itemType, now - (if period < 0 then -period else period)))
    ensures r.Ok? ==> forall g :: g in r.value <==>
      exists i :: 0 <= i < |enqueued| && enqueued[i].queueItemId == g &&
        TypeFilter(fold, itemType, enqueued[i].itemType) &&
        enqueued[i].created >= now - (if period < 0 then -period else period)
  {
    var abs := AbsPeriod(period);
    if abs.Threw? then Threw(Format)
    else if now - abs.value < MinTicks then Threw(Format)
    else if queryFails then Threw(Format)
    else Ok(SelectWhere(enqueued, StaleEnqueuedFilter(fold, itemType, now - abs.value), EnqueuedQueueItemId))
  }

  /** The sign of the period does not matter to the enqueued listing. */
  lemma StaleEnqueuedIgnoresSign(enqueued: seq<EnqueuedMarker>, fold: CaseFold, itemType: NString,
                                 period: Span, now: Instant, queryFails: bool)
    requires period != MinSpan
    ensures StaleEnqueued(enqueued, fold, itemType, period, now, queryFails)
         == StaleEnqueued(enqueued, fold, itemType, -period, now, queryFails)
  {
  }

  /** For a negative period the two listings differ: the acquired listing drops
      the time filter, the enqueued one uses the negated period. */
  lemma NegativePeriodListingsDiffer(a: AcquiredMarker, e: EnqueuedMarker, fold: CaseFold, now: Instant)
    requires now >= 1 && a.acquired == 0 && e.created == 0 && e.queueItemId != 0
    ensures StaleAcquired([a], fold, None, -1, now, false) == Ok([a.queueItemId])
    ensures now > 1 ==> StaleEnqueued([e], fold, None, -1, now, false) == Ok([])
  {
    assert SelectWhere([a], StaleAcquiredFilter(fold, None, -1, now), AcquiredQueueItemId) == [a.queueItemId];
    assert [e][1..] == [];
  }

  // ---------------------------------------------------------------------
  // Requeueing and FIFO order

  /** A requeued item goes to the back of the queue: its marker, created now,
      does not displace the head of a non-empty queue whose markers were all
      created no later than now. */
  lemma RequeueGoesLast(enqueued: seq<EnqueuedMarker>, items: seq<ItemRow>, a: AcquiredMarker, freshId: Guid, now: Instant)
    requires |enqueued| > 0
    requires forall i :: 0 <= i < |enqueued| ==> enqueued[i].created <= now
    ensures Peak(enqueued + [RequeuedFromAcquired(a, freshId, now)], items) == Peak(enqueued, items)
  {
    assert AnyMarker()(enqueued[0]);
    FirstByKeyAppendLater(enqueued, ByCreated, AnyMarker(), RequeuedFromAcquired(a, freshId, now));
  }

  // ---------------------------------------------------------------------
  // Table invariants

  /** Primary keys and the unique QueueItemId index of each marker table. */
  predicate EnqueuedKeys(enqueued: seq<EnqueuedMarker>) {
    forall i, j :: 0 <= i < j < |enqueued| ==>
      enqueued[i].id != enqueued[j].id && enqueued[i].queueItemId != enqueued[j].queueItemId
  }

  predicate AcquiredKeys(acquired: seq<AcquiredMarker>) {
    forall i, j :: 0 <= i < j < |acquired| ==>
      acquired[i].id != acquired[j].id && acquired[i].queueItemId != acquired[j].queueItemId
  }

  predicate ItemKeys(items: seq<ItemRow>) {
    forall i, j :: 0 <= i < j < |items| ==> items[i].id != items[j].id
  }

  predicate HistoryKeys(history: seq<HistoryRow>) {
    forall i, j :: 0 <= i < j < |history| ==> history[i].id != history[j].id
  }

  /** An item is enqueued or acquired, not both. */
  predicate Exclusive(enqueued: seq<EnqueuedMarker>, acquired: seq<AcquiredMarker>) {
    forall i, j :: 0 <= i < |enqueued| && 0 <= j < |acquired| ==> enqueued[i].queueItemId != acquired[j].queueItemId
  }

  /** Every acquired marker names an existing item. */
  predicate AcquiredReferenced(acquired: seq<AcquiredMarker>, items: seq<ItemRow>) {
    forall j :: 0 <= j < |acquired| ==> HasItem(items, acquired[j].queueItemId)
  }

  predicate HasAcquiredMarker(acquired: seq<AcquiredMarker>, id: Guid) {
    exists j :: 0 <= j < |acquired| && acquired[j].queueItemId == id
  }

  /** An item carries an acquisition time exactly when it has an acquired
      marker, and an owner only with an acquisition time. */
  predicate Ownership(items: seq<ItemRow>, acquired: seq<AcquiredMarker>) {
    && (forall k :: 0 <= k < |items| ==> (items[k].acquired.Some? <==> HasAcquiredMarker(acquired, items[k].id)))
    && (forall k :: 0 <= k < |items| && items[k].acquiredBy.Some? ==> items[k].acquired.Some?)
  }

  /** How the three active tables fit together. */
  predicate Consistent(items: seq<ItemRow>, enqueued: seq<EnqueuedMarker>, acquired: seq<AcquiredMarker>) {
    && Exclusive(enqueued, acquired)
    && Referenced(enqueued, items)
    && AcquiredReferenced(acquired, items)
    && Ownership(items, acquired)
  }

  /** An acquired item is not found by Peak(Guid). */
  lemma AcquiredItemIsNotPeaked(items: seq<ItemRow>, enqueued: seq<EnqueuedMarker>, acquired: seq<AcquiredMarker>, j: int)
    requires Consistent(items, enqueued, acquired)
    requires 0 <= j < |acquired|
    ensures PeakQueueItem(enqueued, items, acquired[j].queueItemId).None?
  {
  }
}
