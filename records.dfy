/** The state markers and history rows, and the constructors that build each
    record from the one before it in an item's life: which fields survive
    each transition and which are set afresh. */
module Records {
  import opened Primitives
  import opened ItemData

  /** A row of the enqueued table: the item waits in the queue, in order of
      created. */
  datatype EnqueuedMarker = EnqueuedMarker(id: Guid, queueItemId: Guid, itemType: NString, created: Instant)

  /** A row of the acquired table. */
  datatype AcquiredMarker = AcquiredMarker(
    id: Guid, queueItemId: Guid, itemType: NString, created: Instant,
    acquired: Instant, acquiredBy: NString)

  /** A row of the dequeued table. */
  datatype DequeuedMarker = DequeuedMarker(
    id: Guid, queueItemId: Guid, itemType: NString, created: Instant,
    acquired: Instant, acquiredBy: NString, historyCreated: Instant)

  /** A row of the history item table: the item as it was when dequeued. */
  datatype HistoryRow = HistoryRow(
    id: Guid,
    historyCreated: Instant,
    itemType: NString,
    itemId: NString,
    itemData: NString,
    itemMetadata: NString,
    created: Instant,
    acquiredBy: NString,
    acquired: Option<Instant>)

  /** The four-argument DrpServerQueueItem constructor. The Id is not assigned
      and keeps the default Guid.Empty. */
  function NewItem(itemType: NString, itemId: NString, itemData: NString, itemMetadata: NString, now: Instant): (r: ItemRow)
    ensures IsNullOrWhiteSpace(itemId) ==> r.itemId == Some(EmptyGuidP)
    ensures !IsNullOrWhiteSpace(itemId) ==> r.itemId.Some? && (r.itemId == itemId || |r.itemId.value| == QueueItemIdMaxSize)
    ensures r.itemId.Some? && |r.itemId.value| <= QueueItemIdMaxSize
    ensures r.itemId.Some? && r.itemId != Some(EmptyGuidP) ==> r.itemId.value <= itemId.value
    ensures r.itemType == EnsureMaxLength(itemType, QueueItemTypeMaxSize).value
    ensures r.itemType.Some? ==> r.itemType.value <= itemType.value
    ensures !IsNullOrWhiteSpace(itemType) ==> |r.itemType.value| <= QueueItemTypeMaxSize
    ensures r.itemData == itemData && r.itemMetadata == itemMetadata && r.created == now
    ensures r.acquiredBy.None? && r.acquired.None? && r.id == EmptyGuid
  {
    var storedId := if IsNullOrWhiteSpace(itemId) then Some(EmptyGuidP)
                    else EnsureMaxLength(itemId, QueueItemIdMaxSize).value;
    ItemRow(EmptyGuid, EnsureMaxLength(itemType, QueueItemTypeMaxSize).value, storedId,
            itemData, itemMetadata, now, None, None)
  }

  /** The DrpServerQueueAcquiredItem copy constructor from an enqueued marker:
      a new marker id; the queue item, its type and the enqueue time are kept;
      the acquisition fields keep their defaults (MinValue and null). */
  function AcquiredFromEnqueued(e: EnqueuedMarker, freshId: Guid): (a: AcquiredMarker)
    ensures a.id == freshId
    ensures a.queueItemId == e.queueItemId && a.itemType == e.itemType
    ensures a.created == e.created
    ensures a.acquired == MinTicks && a.acquiredBy.None?
  {
    AcquiredMarker(freshId, e.queueItemId, e.itemType, e.created, MinTicks, None)
  }

  /** The DrpServerQueueEnqueuedItem copy constructor from an acquired marker:
      a new marker id, the same queue item and type, and created reset to now
      so that the item goes to the back of the queue. */
  function RequeuedFromAcquired(a: AcquiredMarker, freshId: Guid, now: Instant): (e: EnqueuedMarker)
    ensures e.id == freshId
    ensures e.queueItemId == a.queueItemId && e.itemType == a.itemType
    ensures e.created == now
  {
    EnqueuedMarker(freshId, a.queueItemId, a.itemType, now)
  }

  /** The DrpServerQueueDequeuedItem copy constructor: a snapshot of the
      acquired marker, ownership included, stamped with now. */
  function DequeuedFromAcquired(a: AcquiredMarker, freshId: Guid, now: Instant): (d: DequeuedMarker)
    ensures d.id == freshId && d.historyCreated == now
    ensures d.queueItemId == a.queueItemId && d.itemType == a.itemType && d.created == a.created
    ensures d.acquired == a.acquired && d.acquiredBy == a.acquiredBy
  {
    DequeuedMarker(freshId, a.queueItemId, a.itemType, a.created, a.acquired, a.acquiredBy, now)
  }

  /** The DrpServerQueueHistoryItem copy constructor: the active item under its
      own id, every field copied, stamped with now. */
  function HistoryFromItem(item: ItemRow, now: Instant): (h: HistoryRow)
    ensures h.id == item.id && h.historyCreated == now
    ensures h.itemId == item.itemId && h.itemType == item.itemType
    ensures h.itemData == item.itemData && h.itemMetadata == item.itemMetadata
    ensures h.created == item.created
    ensures h.acquired == item.acquired && h.acquiredBy == item.acquiredBy
  {
    HistoryRow(item.id, now, item.itemType, item.itemId, item.itemData, item.itemMetadata,
               item.created, item.acquiredBy, item.acquired)
  }

  /** Acquire, requeue, acquire again: the queue item and its type survive
      both moves, while the enqueue time is the requeue time. */
  lemma AcquireRequeueAcquire(e: EnqueuedMarker, id1: Guid, id2: Guid, id3: Guid, now: Instant)
    ensures var a := AcquiredFromEnqueued(RequeuedFromAcquired(AcquiredFromEnqueued(e, id1), id2, now), id3);
      a.queueItemId == e.queueItemId && a.itemType == e.itemType && a.created == now
  {
  }
}
