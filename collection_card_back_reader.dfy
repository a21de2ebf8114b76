/** The card-back reader: scans the `NetCache` service's value slots for the
    `NetCacheCardBacks` entry and emits one card back per slot of its set. */
module CollectionCardBackReader {
  import opened Wrappers
  import opened Graph

  /** An owned card back. */
  datatype CollectionCardBack = CollectionCardBack(cardBackId: int32)

  /** `value?.TypeDefinition?.Name == "NetCacheCardBacks"`: a null value or an
      unnamed type never matches. */
  predicate IsCardBacks(v: Option<CacheValue>) {
    v.Some? && v.value.typeName == Some("NetCacheCardBacks")
  }

  /** Every matching value has its card-back set and that set's `_slots`
      (both are dereferenced without `?.`). */
  predicate SlotsPresent(values: seq<Option<CacheValue>>) {
    forall i :: 0 <= i < |values| && IsCardBacks(values[i]) ==> values[i].value.cardBackSlots.Some?
  }

  /** One card back per slot, carrying the slot's `value`, in slot order. */
  function SlotBacks(slots: seq<HashSlot>): (r: seq<CollectionCardBack>)
    ensures |r| == |slots|
    ensures forall j :: 0 <= j < |slots| ==> r[j].cardBackId == slots[j].value
  {
    seq(|slots|, j requires 0 <= j < |slots| => CollectionCardBack(slots[j].value))
  }

  /** What one value slot contributes. */
  function BacksOf(v: Option<CacheValue>): seq<CollectionCardBack>
    requires IsCardBacks(v) ==> v.value.cardBackSlots.Some?
  {
    if IsCardBacks(v) then SlotBacks(v.value.cardBackSlots.value) else []
  }

  /** The card backs emitted for `values`, value by value. */
  function CardBacksOf(values: seq<Option<CacheValue>>): seq<CollectionCardBack>
    requires SlotsPresent(values)
    decreases |values|
  {
    if values == [] then []
    else CardBacksOf(values[..|values| - 1]) + BacksOf(values[|values| - 1])
  }

  /** The number of physical slots over the matching values. */
  function SlotCount(values: seq<Option<CacheValue>>): nat
    requires SlotsPresent(values)
    decreases |values|
  {
    if values == [] then 0
    else
      var v := values[|values| - 1];
      SlotCount(values[..|values| - 1]) + (if IsCardBacks(v) then |v.value.cardBackSlots.value| else 0)
  }

  /** The output has one card back per slot of every matching value. */
  lemma {:induction false} CardBacksLength(values: seq<Option<CacheValue>>)
    requires SlotsPresent(values)
    ensures |CardBacksOf(values)| == SlotCount(values)
    decreases |values|
  {
    if values != [] {
      CardBacksLength(values[..|values| - 1]);
    }
  }

  /** Output order follows value-slot order: the card backs of a concatenation
      are those of the first part followed by those of the second. */
  lemma {:induction false} CardBacksAppend(a: seq<Option<CacheValue>>, b: seq<Option<CacheValue>>)
    requires SlotsPresent(a) && SlotsPresent(b)
    ensures SlotsPresent(a + b)
    ensures CardBacksOf(a + b) == CardBacksOf(a) + CardBacksOf(b)
    decreases |b|
  {
    assert forall i :: 0 <= i < |a + b| ==> (a + b)[i] == if i < |a| then a[i] else b[i - |a|];
    if b == [] {
      assert a + b == a;
    } else {
      var b' := b[..|b| - 1];
      assert (a + b)[..|a + b| - 1] == a + b';
      assert (a + b)[|a + b| - 1] == b[|b| - 1];
      CardBacksAppend(a, b');
    }
  }

  /** A card back is emitted exactly when some slot of some matching value carries its id. */
  lemma {:induction false} CardBackEmitted(values: seq<Option<CacheValue>>, id: int32)
    requires SlotsPresent(values)
    ensures CollectionCardBack(id) in CardBacksOf(values) <==>
            exists i, j :: 0 <= i < |values| && IsCardBacks(values[i]) &&
                           0 <= j < |values[i].value.cardBackSlots.value| &&
                           values[i].value.cardBackSlots.value[j].value == id
    decreases |values|
  {
    if values != [] {
      var p := values[..|values| - 1];
      var v := values[|values| - 1];
      CardBackEmitted(p, id);
      assert forall i :: 0 <= i < |p| ==> p[i] == values[i];
      if CollectionCardBack(id) in BacksOf(v) {
        var j :| 0 <= j < |BacksOf(v)| && BacksOf(v)[j] == CollectionCardBack(id);
        assert values[|values| - 1] == v;
      }
      if exists j :: IsCardBacks(v) && 0 <= j < |v.value.cardBackSlots.value| && v.value.cardBackSlots.value[j].value == id {
        var j :| IsCardBacks(v) && 0 <= j < |v.value.cardBackSlots.value| && v.value.cardBackSlots.value[j].value == id;
        assert BacksOf(v)[j] == CollectionCardBack(id);
      }
    }
  }

  /** `image.GetService("NetCache")?["m_netCache"]?["valueSlots"]`. */
  function ValueSlots(image: Image): Option<seq<Option<CacheValue>>> {
    match image.netCacheService
    case None => None
    case Some(service) =>
      match service.netCache
      case None => None
      case Some(table) => table.valueSlots
  }

  /** `CollectionCardBackReader.ReadCollection`: a null image throws; a missing
      service, `m_netCache` or `valueSlots` gives no card backs; otherwise one
      card back per `_slots` element of every matching value. */
  method ReadCollection(image: Option<Image>) returns (r: Result<seq<CollectionCardBack>>)
    requires image.Some? && ValueSlots(image.value).Some? ==> SlotsPresent(ValueSlots(image.value).value)
    ensures image.None? <==> r.ArgumentNull?
    ensures image.Some? && ValueSlots(image.value).None? ==> r == Ok([])
    ensures image.Some? && ValueSlots(image.value).Some? ==>
              r == Ok(CardBacksOf(ValueSlots(image.value).value))
  {
    if image.None? {
      return ArgumentNull;
    }
    var collectionCardBacks: seq<CollectionCardBack> := [];
    var netCacheValues := ValueSlots(image.value);
    if netCacheValues.None? {
      return Ok(collectionCardBacks);
    }
    var values := netCacheValues.value;
    for k := 0 to |values|
      invariant collectionCardBacks == CardBacksOf(values[..k])
    {
      assert values[..k + 1][..k] == values[..k];
      assert values[..k + 1][k] == values[k];
      var value := values[k];
      if value.Some? && value.value.typeName == Some("NetCacheCardBacks") {
        var slots := value.value.cardBackSlots.value;
        for i := 0 to |slots|
          invariant collectionCardBacks == CardBacksOf(values[..k]) + SlotBacks(slots[..i])
        {
          assert SlotBacks(slots[..i + 1]) == SlotBacks(slots[..i]) + [CollectionCardBack(slots[i].value)];
          var cardBack := slots[i];
          collectionCardBacks := collectionCardBacks + [CollectionCardBack(cardBack.value)];
        }
        assert slots[..|slots|] == slots;
      }
    }
    assert values[..|values|] == values;
    r := Ok(collectionCardBacks);
  }
}
