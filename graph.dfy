/** The decoded view of the Hearthstone process memory that the readers walk.
    Every record here is what the graph accessor yields for one managed object;
    a field that the readers reach through `?.` or `??` is an `Option`, a field
    they dereference unconditionally is a plain value. */
module Graph {
  import opened Wrappers

  /** C# `int` and `uint`. */
  type int32 = x: int | -0x8000_0000 <= x < 0x8000_0000
  type uint32 = x: int | 0 <= x < 0x1_0000_0000

  /** Two's-complement wrap-around of an unbounded sum into an `int`. */
  function Wrap32(x: int): (r: int32)
    ensures -0x8000_0000 <= x < 0x8000_0000 ==> r == x
  {
    (x + 0x8000_0000) % 0x1_0000_0000 - 0x8000_0000
  }

  /** Wrapping after every addition is the same as wrapping once at the end. */
  lemma Wrap32Add(a: int, b: int)
    ensures Wrap32(Wrap32(a) + b) == Wrap32(a + b)
  {
    var m := 0x1_0000_0000;
    var x := a + 0x8000_0000;
    var q := x / m;
    assert x == q * m + x % m;
    assert x + b == q * m + (x % m + b);
    ModMultipleAdd(q, x % m + b);
  }

  lemma ModMultipleAdd(q: int, y: int)
    ensures (q * 0x1_0000_0000 + y) % 0x1_0000_0000 == y % 0x1_0000_0000
  {
  }

  /** `uint` increment as C# computes it (unchecked): 2^32 - 1 wraps to 0. */
  function Succ32(x: uint32): (r: uint32)
    ensures x < 0xFFFF_FFFF ==> r == x + 1
    ensures x == 0xFFFF_FFFF ==> r == 0
  {
    (x + 1) % 0x1_0000_0000
  }

  /** Array-list encoding of `List<T>`: the backing `_items` array and the
      logical `_size`; only the first `_size` items are elements. */
  datatype ArrayList<T> = ArrayList(items: seq<T>, size: int)

  /** The loop `for (i = 0; i < _size; i++) _items[i]` stays within the
      backing array (a larger `_size` would throw on the first index past it). */
  predicate Readable<T>(l: ArrayList<T>) {
    l.size <= |l.items|
  }

  /** The elements a `for (i = 0; i < _size; i++)` loop visits. */
  function Live<T>(l: ArrayList<T>): (r: seq<T>)
    requires Readable(l)
    ensures |r| == if l.size < 0 then 0 else l.size
    ensures forall i :: 0 <= i < |r| ==> r[i] == l.items[i]
  {
    if l.size <= 0 then [] else l.items[..l.size]
  }

  // ---------------------------------------------------------------- collection

  /** One element of `CollectionManager.s_instance.m_collectibleCards`:
      `m_EntityDef.m_cardIdInternal`, `<OwnedCount>k__BackingField`, `m_PremiumType`. */
  datatype CardEntry = CardEntry(cardId: Option<string>, ownedCount: Option<int32>, premiumType: Option<int32>)

  /** One element of a `HashSet<int>._slots` array. */
  datatype HashSlot = HashSlot(value: int32)

  /** One element of the net cache's `valueSlots`: the runtime type name
      (`TypeDefinition.Name`) and, for `NetCacheCardBacks`, the `_slots`
      array of its `<CardBacks>k__BackingField` set. */
  datatype CacheValue = CacheValue(typeName: Option<string>, cardBackSlots: Option<seq<HashSlot>>)

  /** `m_netCache` of the `NetCache` service. */
  datatype NetCacheTable = NetCacheTable(valueSlots: Option<seq<Option<CacheValue>>>)

  /** The `NetCache` service. */
  datatype NetCacheService = NetCacheService(netCache: Option<NetCacheTable>)

  // --------------------------------------------------------------- mercenaries

  /** An element of an ability's `m_tierList`: `m_tier`, `m_cardId`. */
  datatype TierEntry = TierEntry(tier: int32, cardId: string)

  /** An element of `m_abilityList`: `m_unlockLevel`, `m_tier`, `m_tierList`. */
  datatype AbilityInfo = AbilityInfo(unlockLevel: int32, tier: int32, tierList: seq<TierEntry>)

  /** An element of `m_equipmentList`. */
  datatype EquipmentInfo = EquipmentInfo(id: int32, cardType: int32, isEquipped: bool, owned: bool, tier: int32)

  /** An element of `m_artVariations`; `m_premium` may read as null. */
  datatype ArtVariation = ArtVariation(premium: Option<int32>)

  /** A collectible mercenary (`LettuceMercenary`). */
  datatype MercenaryInfo = MercenaryInfo(
    id: int32,
    level: int32,
    abilityList: ArrayList<AbilityInfo>,
    equipmentList: ArrayList<EquipmentInfo>,
    artVariations: ArrayList<ArtVariation>,
    attack: int32,
    health: int32,
    currencyAmount: int32,
    experience: int32,
    isFullyUpgraded: bool,
    owned: bool,
    rarity: int32,
    role: int32)

  /** A player-defined team: `ID`, `m_name`, `m_lettuceMercs`. */
  datatype TeamRecord = TeamRecord(id: int32, name: string, lettuceMercs: ArrayList<MercenaryInfo>)

  /** Slot-map encoding of `m_teams`: `valueSlots` and the logical `count`. */
  datatype TeamMap = TeamMap(valueSlots: seq<TeamRecord>, count: int)

  /** `CollectionManager.s_instance`. */
  datatype CollectionManager = CollectionManager(
    collectibleCards: Option<ArrayList<CardEntry>>,
    collectibleMercenaries: ArrayList<MercenaryInfo>,
    teams: Option<TeamMap>)

  /** The `NetCacheMercenariesPlayerInfo` cache entry. */
  datatype PlayerInfo = PlayerInfo(pvpRating: int32)

  /** An element of the map's `_PlayerData`: `_TeamId`, `_TeamName` and the
      ids of `_TeamList._Mercenaries` (absent when either link is null). */
  datatype PlayerDataItem = PlayerDataItem(teamId: int32, teamName: string, teamMercenaries: Option<ArrayList<int32>>)

  /** An element of the map's `_Nodes`: `_NodeState_` and `_Row`. */
  datatype MapNode = MapNode(state: int32, row: uint32)

  /** An element of `_TreasureAssignmentList._TreasureAssignments`. */
  datatype TreasureAssignment = TreasureAssignment(assignedMercenary: int32, treasureCard: int32)

  /** `_PendingTreasureSelection`: `_MercenaryId` and `_TreasureOptions`. */
  datatype PendingSelection = PendingSelection(mercenaryId: int32, treasureOptions: Option<ArrayList<int32>>)

  /** The `<Map>k__BackingField` of the `NetCacheLettuceMap` cache entry. The
      dead-mercenary list holds, per group, the `_Mercenaries` id list. */
  datatype LettuceMap = LettuceMap(
    bountyId: int32,
    mapId: int32,
    seed: int32,
    playerData: ArrayList<Option<PlayerDataItem>>,
    deadMercenaries: ArrayList<ArrayList<int32>>,
    nodes: ArrayList<MapNode>,
    pendingTreasureSelection: Option<PendingSelection>,
    treasureAssignments: Option<ArrayList<TreasureAssignment>>)

  /** `_ActiveTaskState` of a village visitor. */
  datatype TaskState = TaskState(taskId: int32, progress: int32, status: int32)

  /** An element of `<VisitorStates>k__BackingField`. */
  datatype VisitorState = VisitorState(visitorId: int32, activeTaskState: Option<TaskState>, taskChainProgress: int32)

  /** `m_gameEntity.<RatingChangeData>k__BackingField` of a game state. */
  datatype RatingChangeData = RatingChangeData(newRating: int32)
  datatype GameEntity = GameEntity(ratingChangeData: Option<RatingChangeData>)
  datatype GameState = GameState(gameEntity: Option<GameEntity>)

  // -------------------------------------------------------------------- image

  /** The Hearthstone image as the readers reach it: one optional entry per
      static field, service or net-cache entry they look up by name. */
  datatype Image = Image(
    collectionManager: Option<CollectionManager>,
    netCacheService: Option<NetCacheService>,
    playerInfo: Option<PlayerInfo>,
    lettuceMap: Option<LettuceMap>,
    visitorStates: Option<ArrayList<VisitorState>>)
}
