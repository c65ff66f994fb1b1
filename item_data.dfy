/** The fields shared by active and history queue items, their length bounds,
    and the acquisition setters of DrpServerQueueItemData. */
module ItemData {
  import opened Primitives

  const QueueItemTypeMaxSize: int := 255
  const QueueItemIdMaxSize: int := 255
  const AcquiredByMaxSize: int := 255

  /** EnsureMaxLength: a null, whitespace-only or short enough value is kept;
      any other value is cut to its first maxLength characters, which throws
      when maxLength is negative. */
  function EnsureMaxLength(value: NString, maxLength: int): (r: Result<NString>)
    ensures IsNullOrWhiteSpace(value) ==> r == Ok(value)
    ensures value.Some? && |value.value| <= maxLength ==> r == Ok(value)
    ensures r.Threw? <==> !IsNullOrWhiteSpace(value) && maxLength < 0
    ensures r.Ok? ==> (r.value.None? <==> value.None?)
    ensures r.Ok? && value.Some? ==> r.value.value <= value.value
    ensures r.Ok? && r.value != value ==> |r.value.value| == maxLength < |value.value|
    ensures r.Ok? && !IsNullOrWhiteSpace(value) ==> |r.value.value| <= maxLength
  {
    if !IsNullOrWhiteSpace(value) && |value.value| > maxLength then
      if maxLength < 0 then Threw(ArgumentOutOfRange)
      else Ok(Some(value.value[..maxLength]))
    else Ok(value)
  }

  /** Cutting twice is cutting once. */
  lemma EnsureMaxLengthIdempotent(value: NString, maxLength: int)
    requires maxLength >= 0
    ensures EnsureMaxLength(value, maxLength).Ok?
    ensures EnsureMaxLength(EnsureMaxLength(value, maxLength).value, maxLength)
         == EnsureMaxLength(value, maxLength)
  {
  }

  /** A whitespace-only value is kept however long it is. */
  lemma {:induction false} LongWhitespaceIsKept(n: nat, maxLength: int)
    requires maxLength < n
    ensures var v := Some(seq(n, _ => ' '));
      |v.value| > maxLength && EnsureMaxLength(v, maxLength) == Ok(v)
  {
    var v := seq(n, _ => ' ');
    assert forall i :: 0 <= i < |v| ==> IsWhiteSpace(v[i]);
  }

  /** A row of the active item table (DrpServerQueueItem) as the database
      holds it. */
  datatype ItemRow = ItemRow(
    id: Guid,
    itemType: NString,
    itemId: NString,
    itemData: NString,
    itemMetadata: NString,
    created: Instant,
    acquiredBy: NString,
    acquired: Option<Instant>)

  /** The row an item has once its acquisition fields are cleared. */
  function Released(r: ItemRow): (q: ItemRow)
    ensures q.acquiredBy.None? && q.acquired.None?
    ensures q.id == r.id && q.itemType == r.itemType && q.itemId == r.itemId
    ensures q.itemData == r.itemData && q.itemMetadata == r.itemMetadata && q.created == r.created
  {
    r.(acquiredBy := None, acquired := None)
  }

  /** An item the data context has loaded from its table and may change before
      saving it back. */
  class ItemEntity {
    var id: Guid
    var itemType: NString
    var itemId: NString
    var itemData: NString
    var itemMetadata: NString
    var created: Instant
    var acquiredBy: NString
    var acquired: Option<Instant>

    /** The row this entity would save. */
    function Row(): ItemRow
      reads this
    {
      ItemRow(id, itemType, itemId, itemData, itemMetadata, created, acquiredBy, acquired)
    }

    /** Loads an entity from a row of the table. */
    constructor Load(r: ItemRow)
      ensures Row() == r
    {
      id, itemType, itemId, itemData, itemMetadata := r.id, r.itemType, r.itemId, r.itemData, r.itemMetadata;
      created, acquiredBy, acquired := r.created, r.acquiredBy, r.acquired;
    }

    /** Acquire: records who acquired the item and when. */
    method Acquire(acquirer: NString, now: Instant)
      modifies this
      ensures acquiredBy == acquirer && acquired == Some(now)
      ensures id == old(id) && itemType == old(itemType) && itemId == old(itemId) && created == old(created)
      ensures itemData == old(itemData) && itemMetadata == old(itemMetadata)
    {
      acquiredBy := acquirer;
      acquired := Some(now);
    }

    /** Release: clears both acquisition fields and nothing else. */
    method Release()
      modifies this
      ensures Row() == Released(old(Row()))
    {
      acquiredBy := None;
      acquired := None;
    }
  }

  /** Releasing an acquired item leaves it as it was before the acquisition,
      apart from the acquisition fields, which are both cleared. */
  method AcquireThenRelease(e: ItemEntity, acquirer: NString, now: Instant)
    modifies e
    ensures e.Row() == Released(old(e.Row()))
    ensures e.acquiredBy.None? && e.acquired.None?
  {
    e.Acquire(acquirer, now);
    e.Release();
  }
}
