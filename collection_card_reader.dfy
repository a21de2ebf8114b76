/** The collection reader: folds the entries of
    `CollectionManager.s_instance.m_collectibleCards` into one card per card id,
    and computes the legacy "collection size" aggregate. */
module CollectionCardReader {
  import opened Wrappers
  import opened Graph

  /** A card of the collection: its id and the owned counts per premium kind. */
  datatype CollectionCard = CollectionCard(cardId: string, count: int32, premiumCount: int32, diamondCount: int32)

  /** The count field an entry is routed to. */
  datatype CountField = Base | Premium | Diamond

  /** Premium tag 1 routes to the premium count, 2 to the diamond count, and
      every other tag (0 and unknown ones alike) to the base count. */
  function FieldFor(premiumType: int32): (f: CountField)
    ensures f == Premium <==> premiumType == 1
    ensures f == Diamond <==> premiumType == 2
    ensures f == Base <==> premiumType != 1 && premiumType != 2
  {
    if premiumType == 1 then Premium else if premiumType == 2 then Diamond else Base
  }

  function Get(c: CollectionCard, f: CountField): int32 {
    match f
    case Base => c.count
    case Premium => c.premiumCount
    case Diamond => c.diamondCount
  }

  /** Assigns (not adds) `v` to one field; the id and the other fields keep their values. */
  function Put(c: CollectionCard, f: CountField, v: int32): (r: CollectionCard)
    ensures Get(r, f) == v && r.cardId == c.cardId
    ensures forall g :: g != f ==> Get(r, g) == Get(c, g)
  {
    match f
    case Base => c.(count := v)
    case Premium => c.(premiumCount := v)
    case Diamond => c.(diamondCount := v)
  }

  /** A card as first added to the dictionary: only its id is set. */
  function NewCard(id: string): (c: CollectionCard)
    ensures c.cardId == id && forall f :: Get(c, f) == 0
  {
    CollectionCard(id, 0, 0, 0)
  }

  /** `!string.IsNullOrEmpty(cardId)`. */
  predicate Identified(e: CardEntry) {
    e.cardId.Some? && e.cardId.value != ""
  }

  /** Every identified entry has its owned count and premium tag; casting a
      null field to `int` would throw. */
  predicate Countable(es: seq<CardEntry>) {
    forall i :: 0 <= i < |es| && Identified(es[i]) ==> es[i].ownedCount.Some? && es[i].premiumType.Some?
  }

  /** The non-empty card ids among `es`. */
  function IdSet(es: seq<CardEntry>): set<string> {
    set i | 0 <= i < |es| && Identified(es[i]) :: es[i].cardId.value
  }

  /** Entry `e` writes its count into field `f` of card `id`. */
  predicate RoutesTo(e: CardEntry, id: string, f: CountField) {
    Identified(e) && e.cardId.value == id && e.premiumType.Some? && FieldFor(e.premiumType.value) == f
  }

  /** The dictionary being built, with its keys in insertion order. */
  datatype Tally = Tally(cards: map<string, CollectionCard>, order: seq<string>)

  /** The keys are listed once each, in `order`, and every card is stored under its own id. */
  ghost predicate Coherent(t: Tally) {
    && (forall i, j :: 0 <= i < j < |t.order| ==> t.order[i] != t.order[j])
    && (forall k :: k in t.cards <==> k in t.order)
    && (forall k :: k in t.cards ==> t.cards[k].cardId == k)
  }

  /** One iteration of the loop: skip an unidentified entry; otherwise look up
      or add the card, then route the count by the premium tag. */
  function Step(t: Tally, e: CardEntry): Tally
    requires Identified(e) ==> e.ownedCount.Some? && e.premiumType.Some?
  {
    if !Identified(e) then t
    else
      var id := e.cardId.value;
      var card := if id in t.cards then t.cards[id] else NewCard(id);
      Tally(t.cards[id := Put(card, FieldFor(e.premiumType.value), e.ownedCount.value)],
            if id in t.cards then t.order else t.order + [id])
  }

  lemma IdSetSnoc(es: seq<CardEntry>, e: CardEntry)
    ensures IdSet(es + [e]) == IdSet(es) + (if Identified(e) then {e.cardId.value} else {})
  {
    var s := es + [e];
    forall k | k in IdSet(s) ensures k in IdSet(es) + (if Identified(e) then {e.cardId.value} else {}) {
      var i :| 0 <= i < |s| && Identified(s[i]) && s[i].cardId.value == k;
      if i < |es| { assert s[i] == es[i]; }
    }
    forall k | k in IdSet(es) ensures k in IdSet(s) {
      var i :| 0 <= i < |es| && Identified(es[i]) && es[i].cardId.value == k;
      assert s[i] == es[i];
    }
    if Identified(e) { assert s[|es|] == e; }
  }

  /** The dictionary after the loop has visited `es`: it holds exactly the
      non-empty ids, each once, each card under its own id. */
  function Fold(es: seq<CardEntry>): (t: Tally)
    requires Countable(es)
    ensures Coherent(t)
    ensures t.cards.Keys == IdSet(es)
    decreases |es|
  {
    if es == [] then Tally(map[], [])
    else
      var t := Fold(es[..|es| - 1]);
      assert es == es[..|es| - 1] + [es[|es| - 1]];
      IdSetSnoc(es[..|es| - 1], es[|es| - 1]);
      Step(t, es[|es| - 1])
  }

  /** The loop's step from `es[..i]` to `es[..i + 1]`. */
  lemma FoldSnoc(es: seq<CardEntry>, i: int)
    requires Countable(es) && 0 <= i < |es|
    ensures Countable(es[..i]) && Countable(es[..i + 1])
    ensures Fold(es[..i + 1]) == Step(Fold(es[..i]), es[i])
  {
    assert es[..i + 1][..i] == es[..i];
  }

  /** `collectionCards.Values.ToArray()`, in insertion order. */
  function Cards(t: Tally): (cs: seq<CollectionCard>)
    requires Coherent(t)
    ensures |cs| == |t.order|
    ensures forall i :: 0 <= i < |cs| ==> cs[i] == t.cards[t.order[i]]
  {
    seq(|t.order|, i requires 0 <= i < |t.order| => t.cards[t.order[i]])
  }

  /** The cards the reader returns for entries `es`: at most one card per id,
      and every non-empty id of `es` has one. */
  function CollectionOf(es: seq<CardEntry>): (cs: seq<CollectionCard>)
    requires Countable(es)
    ensures forall i, j :: 0 <= i < j < |cs| ==> cs[i].cardId != cs[j].cardId
    ensures forall i :: 0 <= i < |cs| ==> cs[i].cardId in IdSet(es)
    ensures forall k :: k in IdSet(es) ==> exists i :: 0 <= i < |cs| && cs[i].cardId == k
  {
    var t := Fold(es);
    var cs := Cards(t);
    assert forall k :: k in IdSet(es) ==> k in t.order;
    cs
  }

  /** Reference definition: the count of the last entry routed to field `f`
      of card `id`, or 0 (the value a new card starts with) when none is. */
  function LastCount(es: seq<CardEntry>, id: string, f: CountField): int32
    requires Countable(es)
    decreases |es|
  {
    if es == [] then 0
    else if RoutesTo(es[|es| - 1], id, f) then es[|es| - 1].ownedCount.value
    else LastCount(es[..|es| - 1], id, f)
  }

  /** Routing assigns: each field of each card holds the last count routed to it. */
  lemma {:induction false} FoldIsLastWrite(es: seq<CardEntry>, id: string, f: CountField)
    requires Countable(es)
    requires id in Fold(es).cards
    ensures Get(Fold(es).cards[id], f) == LastCount(es, id, f)
    decreases |es|
  {
    var p := es[..|es| - 1];
    var e := es[|es| - 1];
    if id in Fold(p).cards {
      FoldIsLastWrite(p, id, f);
    } else {
      assert Identified(e) && e.cardId.value == id;
      LastCountAbsent(p, id, f);
    }
  }

  /** An id that no entry carries has no count routed to it. */
  lemma {:induction false} LastCountAbsent(es: seq<CardEntry>, id: string, f: CountField)
    requires Countable(es)
    requires id !in IdSet(es)
    ensures LastCount(es, id, f) == 0
    decreases |es|
  {
    if es != [] {
      var p := es[..|es| - 1];
      assert es == p + [es[|es| - 1]];
      IdSetSnoc(p, es[|es| - 1]);
      LastCountAbsent(p, id, f);
    }
  }

  /** `LastCount` is the count of the last entry routed to the field. */
  lemma {:induction false} LastCountIsLast(es: seq<CardEntry>, id: string, f: CountField, j: int)
    requires Countable(es)
    requires 0 <= j < |es| && RoutesTo(es[j], id, f)
    requires forall k :: j < k < |es| ==> !RoutesTo(es[k], id, f)
    ensures LastCount(es, id, f) == es[j].ownedCount.value
    decreases |es|
  {
    if j < |es| - 1 {
      var p := es[..|es| - 1];
      assert p[j] == es[j];
      LastCountIsLast(p, id, f, j);
    }
  }

  /** `LastCount` is 0 when no entry is routed to the field. */
  lemma {:induction false} LastCountNone(es: seq<CardEntry>, id: string, f: CountField)
    requires Countable(es)
    requires forall k :: 0 <= k < |es| ==> !RoutesTo(es[k], id, f)
    ensures LastCount(es, id, f) == 0
    decreases |es|
  {
    if es != [] {
      var p := es[..|es| - 1];
      assert forall k :: 0 <= k < |p| ==> p[k] == es[k];
      LastCountNone(p, id, f);
    }
  }

  /** Field `f` of the `i`-th returned card: the count of the last entry routed
      to it, or 0 when no entry was. Entries routed elsewhere never touch it. */
  lemma CardFieldIsLastWrite(es: seq<CardEntry>, i: int, f: CountField)
    requires Countable(es)
    requires 0 <= i < |CollectionOf(es)|
    ensures var c := CollectionOf(es)[i];
            (forall k :: 0 <= k < |es| ==> !RoutesTo(es[k], c.cardId, f)) ==> Get(c, f) == 0
    ensures var c := CollectionOf(es)[i];
            forall j :: 0 <= j < |es| && RoutesTo(es[j], c.cardId, f) &&
                        (forall k :: j < k < |es| ==> !RoutesTo(es[k], c.cardId, f))
                        ==> Get(c, f) == es[j].ownedCount.value
  {
    var t := Fold(es);
    var c := CollectionOf(es)[i];
    assert c == t.cards[t.order[i]] && c.cardId == t.order[i];
    FoldIsLastWrite(es, c.cardId, f);
    if forall k :: 0 <= k < |es| ==> !RoutesTo(es[k], c.cardId, f) {
      LastCountNone(es, c.cardId, f);
    }
    forall j | 0 <= j < |es| && RoutesTo(es[j], c.cardId, f) &&
               (forall k :: j < k < |es| ==> !RoutesTo(es[k], c.cardId, f))
      ensures Get(c, f) == es[j].ownedCount.value
    {
      LastCountIsLast(es, c.cardId, f, j);
    }
  }

  /** `image["CollectionManager"]?["s_instance"]?["m_collectibleCards"]`. */
  function CollectibleCards(image: Image): Option<ArrayList<CardEntry>> {
    match image.collectionManager
    case None => None
    case Some(cm) => cm.collectibleCards
  }

  /** What `ReadCollection` needs of a present list: its `_size` within
      `_items`, and the counts of identified entries present. */
  predicate CardsReadable(image: Image) {
    match CollectibleCards(image)
    case None => true
    case Some(l) => Readable(l) && Countable(Live(l))
  }

  /** The premium-tag dispatch of the loop body: tag 1 sets the premium count,
      tag 2 the diamond count, any other tag the base count; nothing else changes. */
  method RouteCount(card: CollectionCard, premium: int32, count: int32) returns (routed: CollectionCard)
    ensures routed == Put(card, FieldFor(premium), count)
    ensures Get(routed, FieldFor(premium)) == count
    ensures routed.cardId == card.cardId && forall g :: g != FieldFor(premium) ==> Get(routed, g) == Get(card, g)
  {
    if premium == 1 {
      routed := card.(premiumCount := count);
    } else if premium == 2 {
      routed := card.(diamondCount := count);
    } else {
      routed := card.(count := count);
    }
  }

  /** The loop body for an identified entry: look the card up, or add a new
      one at the end of the insertion order, then route the count. */
  method AddEntry(cards: map<string, CollectionCard>, order: seq<string>, entry: CardEntry)
    returns (cards': map<string, CollectionCard>, order': seq<string>)
    requires Identified(entry) && entry.ownedCount.Some? && entry.premiumType.Some?
    ensures Tally(cards', order') == Step(Tally(cards, order), entry)
  {
    var cardId := entry.cardId.value;
    var count := entry.ownedCount.value;
    var premium := entry.premiumType.value;
    // The dictionary holds the card object itself; writing the routed value
    // back under its id stands for updating that object in place.
    var card: CollectionCard;
    order' := order;
    if cardId in cards {
      card := cards[cardId];
    } else {
      card := CollectionCard(cardId, 0, 0, 0);
      order' := order + [cardId];
    }
    card := RouteCount(card, premium, count);
    cards' := cards[cardId := card];
  }

  /** `CollectionCardReader.ReadCollection`: a null image throws; an absent
      list gives no cards; otherwise the first `_size` entries are folded. */
  method ReadCollection(image: Option<Image>) returns (r: Result<seq<CollectionCard>>)
    requires image.Some? ==> CardsReadable(image.value)
    ensures image.None? <==> r.ArgumentNull?
    ensures image.Some? && CollectibleCards(image.value).None? ==> r == Ok([])
    ensures image.Some? && CollectibleCards(image.value).Some? ==>
              r == Ok(CollectionOf(Live(CollectibleCards(image.value).value)))
  {
    if image.None? {
      return ArgumentNull;
    }
    var cardsNode := CollectibleCards(image.value);
    if cardsNode.None? {
      return Ok([]);
    }
    var items := cardsNode.value.items;
    var size := cardsNode.value.size;
    ghost var es := Live(cardsNode.value);
    var cards: map<string, CollectionCard> := map[];
    var order: seq<string> := [];
    var index := 0;
    while index < size
      invariant 0 <= index && (index <= size || index == 0)
      invariant index <= |es| && items[..index] == es[..index]
      invariant Countable(es[..index]) && Tally(cards, order) == Fold(es[..index])
    {
      assert items[index] == es[index];
      FoldSnoc(es, index);
      var entry := items[index];
      if entry.cardId.None? || entry.cardId.value == "" {
        index := index + 1;
        continue;
      }
      cards, order := AddEntry(cards, order, entry);
      index := index + 1;
    }
    assert es[..index] == es;
    r := Ok(Cards(Tally(cards, order)));
  }

  /** The legacy size metric over unbounded integers: owned count plus
      premium tag of every identified entry, null read as 0. */
  function SizeSum(es: seq<CardEntry>): int
    decreases |es|
  {
    if es == [] then 0
    else
      var e := es[|es| - 1];
      SizeSum(es[..|es| - 1]) + (if Identified(e) then e.ownedCount.GetOr(0) + e.premiumType.GetOr(0) else 0)
  }

  /** The metric is additive over concatenation. */
  lemma {:induction false} SizeSumAppend(a: seq<CardEntry>, b: seq<CardEntry>)
    ensures SizeSum(a + b) == SizeSum(a) + SizeSum(b)
    decreases |b|
  {
    if b == [] {
      assert a + b == a;
    } else {
      var b' := b[..|b| - 1];
      assert (a + b)[..|a + b| - 1] == a + b';
      assert (a + b)[|a + b| - 1] == b[|b| - 1];
      SizeSumAppend(a, b');
    }
  }

  /** Entries without a card id add nothing, whatever their counts. */
  lemma {:induction false} SizeSumSkipsUnidentified(es: seq<CardEntry>)
    requires forall i :: 0 <= i < |es| ==> !Identified(es[i])
    ensures SizeSum(es) == 0
    decreases |es|
  {
    if es != [] {
      var p := es[..|es| - 1];
      assert forall i :: 0 <= i < |p| ==> p[i] == es[i];
      SizeSumSkipsUnidentified(p);
    }
  }

  /** The size loop's step from `es[..i]` to `es[..i + 1]`. */
  lemma SizeSumSnoc(es: seq<CardEntry>, i: int)
    requires 0 <= i < |es|
    ensures SizeSum(es[..i + 1]) ==
            SizeSum(es[..i]) + (if Identified(es[i]) then es[i].ownedCount.GetOr(0) + es[i].premiumType.GetOr(0) else 0)
  {
    assert es[..i + 1][..i] == es[..i];
  }

  /** Two wrapped additions onto a wrapped total are one wrap of the exact sum. */
  lemma WrapTwice(total: int32, sum: int, count: int, premium: int)
    requires total == Wrap32(sum)
    ensures Wrap32(Wrap32(total + count) + premium) == Wrap32(sum + count + premium)
  {
    Wrap32Add(sum, count);
    Wrap32Add(sum + count, premium);
  }

  /** What `ReadCollectionSize` needs: the list present (it is dereferenced
      without `?.`) and its `_size` within `_items`. */
  predicate SizeReadable(image: Image) {
    CollectibleCards(image).Some? && Readable(CollectibleCards(image).value)
  }

  /** `CollectionCardReader.ReadCollectionSize`: a null image throws; otherwise
      the metric over the first `_size` entries, wrapped to 32 bits as the
      unchecked `+=` does. */
  method ReadCollectionSize(image: Option<Image>) returns (r: Result<int32>)
    requires image.Some? ==> SizeReadable(image.value)
    ensures image.None? <==> r.ArgumentNull?
    ensures image.Some? ==> r == Ok(Wrap32(SizeSum(Live(CollectibleCards(image.value).value))))
  {
    if image.None? {
      return ArgumentNull;
    }
    var cardsNode := CollectibleCards(image.value).value;
    var items := cardsNode.items;
    var size := cardsNode.size;
    ghost var es := Live(cardsNode);
    var totalCards: int32 := 0;
    var index := 0;
    while index < size
      invariant 0 <= index && (index <= size || index == 0)
      invariant index <= |es| && items[..index] == es[..index]
      invariant totalCards == Wrap32(SizeSum(es[..index]))
    {
      assert es[index] == items[index];
      SizeSumSnoc(es, index);
      var entry := items[index];
      if entry.cardId.None? || entry.cardId.value == "" {
        index := index + 1;
        continue;
      }
      var count := entry.ownedCount.GetOr(0);
      var premium := entry.premiumType.GetOr(0);
      WrapTwice(totalCards, SizeSum(es[..index]), count, premium);
      totalCards := Wrap32(totalCards + count);
      totalCards := Wrap32(totalCards + premium);
      index := index + 1;
    }
    assert es[..index] == es;
    r := Ok(totalCards);
  }
}
