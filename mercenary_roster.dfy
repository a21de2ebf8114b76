/** The roster builder shared by the mercenaries readers: turns an array-list of
    collectible mercenaries into `Mercenary` snapshots (optionally restricted to
    a list of ids), then attaches the map's treasure assignments to them. */
module MercenaryRoster {
  import opened Wrappers
  import opened Graph

  datatype MercenaryAbility = MercenaryAbility(cardId: string, tier: int32)

  datatype MercenaryEquipment = MercenaryEquipment(id: int32, cardType: int32, equipped: bool, owned: bool, tier: int32)

  datatype Mercenary = Mercenary(
    id: int32,
    level: int32,
    abilities: seq<MercenaryAbility>,
    equipments: seq<MercenaryEquipment>,
    treasureCardDbfIds: seq<int32>,
    attack: int32,
    health: int32,
    currencyAmount: int32,
    experience: int32,
    isFullyUpgraded: bool,
    owned: bool,
    premium: int32,
    rarity: int32,
    role: int32)

  // ------------------------------------------------------------------ tiers

  /** The first entry of `tiers` whose `m_tier` is `tierId`, or none. */
  function FirstTier(tiers: seq<TierEntry>, tierId: int32): Option<TierEntry>
    decreases |tiers|
  {
    if tiers == [] then None
    else if tiers[0].tier == tierId then Some(tiers[0])
    else FirstTier(tiers[1..], tierId)
  }

  /** `FirstTier` is none exactly when no entry has the tier, and otherwise
      an entry with that tier that no earlier entry shares. */
  lemma {:induction false} FirstTierIsFirst(tiers: seq<TierEntry>, tierId: int32)
    ensures FirstTier(tiers, tierId).None? <==> forall j :: 0 <= j < |tiers| ==> tiers[j].tier != tierId
    ensures FirstTier(tiers, tierId).Some? ==>
              exists k :: 0 <= k < |tiers| && tiers[k] == FirstTier(tiers, tierId).value &&
                          FirstTier(tiers, tierId).value.tier == tierId &&
                          forall j :: 0 <= j < k ==> tiers[j].tier != tierId
    decreases |tiers|
  {
    if tiers != [] && tiers[0].tier != tierId {
      FirstTierIsFirst(tiers[1..], tierId);
      assert forall j :: 1 <= j < |tiers| ==> tiers[j] == tiers[1..][j - 1];
      if FirstTier(tiers, tierId).Some? {
        var k :| 0 <= k < |tiers[1..]| && tiers[1..][k] == FirstTier(tiers, tierId).value &&
                 forall j :: 0 <= j < k ==> tiers[1..][j].tier != tierId;
        assert tiers[k + 1] == FirstTier(tiers, tierId).value;
      }
    }
  }

  /** `GetTier`: the loop over the tier list that returns the first entry with
      the requested tier, or null when there is none. */
  method GetTier(tierList: seq<TierEntry>, tierId: int32) returns (r: Option<TierEntry>)
    ensures r == FirstTier(tierList, tierId)
  {
    for i := 0 to |tierList|
      invariant FirstTier(tierList, tierId) == FirstTier(tierList[i..], tierId)
    {
      assert tierList[i..][1..] == tierList[i + 1..];
      if tierList[i].tier == tierId {
        return Some(tierList[i]);
      }
    }
    assert tierList[|tierList|..] == [];
    return None;
  }

  // -------------------------------------------------------------- abilities

  /** `mercLevel < unlockLevel` skips the ability; reaching the level unlocks it. */
  predicate Unlocked(a: AbilityInfo, level: int32) {
    a.unlockLevel <= level
  }

  /** Every unlocked ability has a tier-list entry for its current tier (the
      source dereferences the result of `GetTier` unconditionally). */
  predicate Resolvable(abilities: seq<AbilityInfo>, level: int32) {
    forall j :: 0 <= j < |abilities| && Unlocked(abilities[j], level) ==> FirstTier(abilities[j].tierList, abilities[j].tier).Some?
  }

  /** The ability as `GetTier` resolves it: card id and tier of the first
      tier-list entry whose `m_tier` is the ability's `m_tier`. */
  function Resolve(a: AbilityInfo): (r: MercenaryAbility)
    requires FirstTier(a.tierList, a.tier).Some?
    ensures r.tier == a.tier
    ensures exists k :: 0 <= k < |a.tierList| && a.tierList[k].tier == a.tier && r.cardId == a.tierList[k].cardId &&
                        forall j :: 0 <= j < k ==> a.tierList[j].tier != a.tier
  {
    FirstTierIsFirst(a.tierList, a.tier);
    var t := FirstTier(a.tierList, a.tier).value;
    MercenaryAbility(t.cardId, t.tier)
  }

  /** The abilities of a mercenary at `level`: the unlocked ones, resolved
      through their tier list, in list order. */
  function Abilities(abilities: seq<AbilityInfo>, level: int32): seq<MercenaryAbility>
    requires Resolvable(abilities, level)
    decreases |abilities|
  {
    if abilities == [] then []
    else
      var p := abilities[..|abilities| - 1];
      var a := abilities[|abilities| - 1];
      assert forall j :: 0 <= j < |p| ==> p[j] == abilities[j];
      Abilities(p, level) + (if Unlocked(a, level) then [Resolve(a)] else [])
  }

  /** An ability is in the list iff it is unlocked (`m_unlockLevel <= m_level`,
      so one unlocking exactly at the mercenary's level is included), with the
      card id and tier of the first tier entry matching its `m_tier`. */
  lemma {:induction false} AbilityIncluded(abilities: seq<AbilityInfo>, level: int32)
    requires Resolvable(abilities, level)
    ensures forall j :: 0 <= j < |abilities| && Unlocked(abilities[j], level) ==>
                        Resolve(abilities[j]) in Abilities(abilities, level)
    ensures forall x :: x in Abilities(abilities, level) ==>
                        exists j :: 0 <= j < |abilities| && Unlocked(abilities[j], level) && x == Resolve(abilities[j])
    decreases |abilities|
  {
    if abilities != [] {
      var p := abilities[..|abilities| - 1];
      assert forall j :: 0 <= j < |p| ==> p[j] == abilities[j];
      AbilityIncluded(p, level);
    }
  }

  /** The locked abilities are the ones left out: the list holds one entry per unlocked ability. */
  function UnlockedCount(abilities: seq<AbilityInfo>, level: int32): nat
    decreases |abilities|
  {
    if abilities == [] then 0
    else UnlockedCount(abilities[..|abilities| - 1], level) + (if Unlocked(abilities[|abilities| - 1], level) then 1 else 0)
  }

  lemma {:induction false} AbilitiesLength(abilities: seq<AbilityInfo>, level: int32)
    requires Resolvable(abilities, level)
    ensures |Abilities(abilities, level)| == UnlockedCount(abilities, level)
    decreases |abilities|
  {
    if abilities != [] {
      var p := abilities[..|abilities| - 1];
      assert forall j :: 0 <= j < |p| ==> p[j] == abilities[j];
      AbilitiesLength(p, level);
    }
  }

  /** The ability loop of `BuildMercenariesList`. */
  method BuildAbilities(abilityList: ArrayList<AbilityInfo>, mercLevel: int32) returns (mercAbilities: seq<MercenaryAbility>)
    requires Readable(abilityList) && Resolvable(Live(abilityList), mercLevel)
    ensures mercAbilities == Abilities(Live(abilityList), mercLevel)
  {
    ghost var live := Live(abilityList);
    mercAbilities := [];
    var j := 0;
    while j < abilityList.size
      invariant 0 <= j && (j <= abilityList.size || j == 0)
      invariant j <= |live| && abilityList.items[..j] == live[..j]
      invariant mercAbilities == Abilities(live[..j], mercLevel)
    {
      assert live[..j + 1][..j] == live[..j];
      assert live[j] == abilityList.items[j];
      var ability := abilityList.items[j];
      var unlockLevel := ability.unlockLevel;
      if mercLevel < unlockLevel {
        j := j + 1;
        continue;
      }
      var tier := GetTier(ability.tierList, ability.tier);
      mercAbilities := mercAbilities + [MercenaryAbility(tier.value.cardId, tier.value.tier)];
      j := j + 1;
    }
    assert live[..j] == live;
  }

  // ------------------------------------------------------------- equipments

  function Equipment(e: EquipmentInfo): MercenaryEquipment {
    MercenaryEquipment(e.id, e.cardType, e.isEquipped, e.owned, e.tier)
  }

  /** The equipment loop of `BuildMercenariesList`: every entry, field for field. */
  method BuildEquipments(equipmentList: ArrayList<EquipmentInfo>) returns (mercEquipments: seq<MercenaryEquipment>)
    requires Readable(equipmentList)
    ensures |mercEquipments| == |Live(equipmentList)|
    ensures forall j :: 0 <= j < |mercEquipments| ==> mercEquipments[j] == Equipment(equipmentList.items[j])
  {
    mercEquipments := [];
    var j := 0;
    while j < equipmentList.size
      invariant 0 <= j && (j <= equipmentList.size || j == 0)
      invariant |mercEquipments| == j
      invariant forall k :: 0 <= k < j ==> mercEquipments[k] == Equipment(equipmentList.items[k])
    {
      mercEquipments := mercEquipments + [Equipment(equipmentList.items[j])];
      j := j + 1;
    }
  }

  /** The equipments a snapshot holds: one per live entry, in order. */
  function Equipments(es: seq<EquipmentInfo>): seq<MercenaryEquipment>
  {
    seq(|es|, j requires 0 <= j < |es| => Equipment(es[j]))
  }

  // ---------------------------------------------------------------- premium

  /** `variation["m_premium"] ?? 0`. */
  function VariationPremium(v: ArtVariation): int32 {
    v.premium.GetOr(0)
  }

  /** The premium of a mercenary: the largest of 0 and every art variation's premium. */
  function MaxPremium(vs: seq<ArtVariation>): (r: int32)
    ensures r >= 0
    decreases |vs|
  {
    if vs == [] then 0
    else
      var m := MaxPremium(vs[..|vs| - 1]);
      var v := VariationPremium(vs[|vs| - 1]);
      if m < v then v else m
  }

  /** The premium bounds every variation's premium and is either 0 or one of them. */
  lemma {:induction false} MaxPremiumIsMax(vs: seq<ArtVariation>)
    ensures forall j :: 0 <= j < |vs| ==> VariationPremium(vs[j]) <= MaxPremium(vs)
    ensures MaxPremium(vs) == 0 || exists j :: 0 <= j < |vs| && VariationPremium(vs[j]) == MaxPremium(vs)
    decreases |vs|
  {
    if vs != [] {
      var p := vs[..|vs| - 1];
      MaxPremiumIsMax(p);
      assert forall j :: 0 <= j < |p| ==> p[j] == vs[j];
    }
  }

  /** The premium loop of `BuildMercenariesList`. */
  method ReadPremium(artVariations: ArrayList<ArtVariation>) returns (premium: int32)
    requires Readable(artVariations)
    ensures premium == MaxPremium(Live(artVariations))
  {
    ghost var live := Live(artVariations);
    premium := 0;
    var j := 0;
    while j < artVariations.size
      invariant 0 <= j && (j <= artVariations.size || j == 0)
      invariant j <= |live| && artVariations.items[..j] == live[..j]
      invariant premium == MaxPremium(live[..j])
    {
      assert live[..j + 1][..j] == live[..j];
      assert live[j] == artVariations.items[j];
      var variation := artVariations.items[j];
      var p := variation.premium.GetOr(0);
      premium := if premium < p then p else premium;
      j := j + 1;
    }
    assert live[..j] == live;
  }

  // ----------------------------------------------------------------- roster

  /** What building a snapshot of `info` needs: its three lists readable and
      its unlocked abilities resolvable. */
  predicate ValidInfo(info: MercenaryInfo) {
    && Readable(info.abilityList)
    && Readable(info.equipmentList)
    && Readable(info.artVariations)
    && Resolvable(Live(info.abilityList), info.level)
  }

  /** Every mercenary the roster loop builds can be built: a mercenary that
      `mercIds` leaves out is read only for its id, so nothing is asked of it. */
  predicate ValidInfos(infos: seq<MercenaryInfo>, mercIds: Option<seq<int32>>) {
    forall i :: 0 <= i < |infos| && Selected(infos[i], mercIds) ==> ValidInfo(infos[i])
  }

  predicate ValidList(root: ArrayList<MercenaryInfo>, mercIds: Option<seq<int32>>) {
    Readable(root) && ValidInfos(Live(root), mercIds)
  }

  /** The snapshot of one mercenary, before treasures are attached. */
  function Snapshot(info: MercenaryInfo): (m: Mercenary)
    requires ValidInfo(info)
    ensures m.id == info.id && m.treasureCardDbfIds == [] && m.premium >= 0
  {
    Mercenary(
      id := info.id,
      level := info.level,
      abilities := Abilities(Live(info.abilityList), info.level),
      equipments := Equipments(Live(info.equipmentList)),
      treasureCardDbfIds := [],
      attack := info.attack,
      health := info.health,
      currencyAmount := info.currencyAmount,
      experience := info.experience,
      isFullyUpgraded := info.isFullyUpgraded,
      owned := info.owned,
      premium := MaxPremium(Live(info.artVariations)),
      rarity := info.rarity,
      role := info.role)
  }

  /** `mercIds == null || mercIds.Contains(mercId)`. */
  predicate Selected(info: MercenaryInfo, mercIds: Option<seq<int32>>) {
    mercIds.None? || info.id in mercIds.value
  }

  /** The roster before the treasure pass: a snapshot of every selected mercenary, in list order. */
  function Roster(infos: seq<MercenaryInfo>, mercIds: Option<seq<int32>>): seq<Mercenary>
    requires ValidInfos(infos, mercIds)
    decreases |infos|
  {
    if infos == [] then []
    else
      var p := infos[..|infos| - 1];
      var info := infos[|infos| - 1];
      assert forall i :: 0 <= i < |p| ==> p[i] == infos[i];
      Roster(p, mercIds) + (if Selected(info, mercIds) then [Snapshot(info)] else [])
  }

  /** The roster loop's step from `infos[..i]` to `infos[..i + 1]`. */
  lemma RosterSnoc(infos: seq<MercenaryInfo>, i: int, mercIds: Option<seq<int32>>)
    requires ValidInfos(infos, mercIds) && 0 <= i < |infos|
    ensures ValidInfos(infos[..i], mercIds) && ValidInfos(infos[..i + 1], mercIds)
    ensures Roster(infos[..i + 1], mercIds) ==
            Roster(infos[..i], mercIds) + (if Selected(infos[i], mercIds) then [Snapshot(infos[i])] else [])
  {
    assert infos[..i + 1][..i] == infos[..i];
  }

  /** The mercenaries of `ms` whose id is in `ids`, in order. */
  function WithIds(ms: seq<Mercenary>, ids: seq<int32>): seq<Mercenary>
    decreases |ms|
  {
    if ms == [] then []
    else WithIds(ms[..|ms| - 1], ids) + (if ms[|ms| - 1].id in ids then [ms[|ms| - 1]] else [])
  }

  /** Without an id list the roster has one snapshot per mercenary, in order. */
  lemma {:induction false} RosterUnfiltered(infos: seq<MercenaryInfo>)
    requires ValidInfos(infos, None)
    ensures |Roster(infos, None)| == |infos|
    ensures forall i :: 0 <= i < |infos| ==> Roster(infos, None)[i] == Snapshot(infos[i])
    decreases |infos|
  {
    if infos != [] {
      var n := |infos| - 1;
      var p := infos[..n];
      RosterSnoc(infos, n, None);
      assert infos[..n + 1] == infos;
      RosterUnfiltered(p);
      var r, rp := Roster(infos, None), Roster(p, None);
      forall i | 0 <= i < |infos| ensures r[i] == Snapshot(infos[i]) {
        if i < n {
          assert r[i] == rp[i] && p[i] == infos[i];
        }
      }
    }
  }

  /** With an id list the roster is the unfiltered roster restricted to those
      ids: the same snapshots, field for field, in the same order. */
  lemma {:induction false} RosterFiltered(infos: seq<MercenaryInfo>, ids: seq<int32>)
    requires ValidInfos(infos, None)
    ensures Roster(infos, Some(ids)) == WithIds(Roster(infos, None), ids)
    decreases |infos|
  {
    if infos != [] {
      var n := |infos| - 1;
      var p := infos[..n];
      assert infos[..n + 1] == infos;
      ValidInfosUnfiltered(infos, Some(ids));
      RosterSnoc(infos, n, None);
      RosterSnoc(infos, n, Some(ids));
      RosterFiltered(p, ids);
      var full := Roster(infos, None);
      assert full == Roster(p, None) + [Snapshot(infos[n])];
      assert full[..|full| - 1] == Roster(p, None);
    }
  }

  /** A list whose every mercenary can be built can be built under any selection. */
  lemma ValidInfosUnfiltered(infos: seq<MercenaryInfo>, mercIds: Option<seq<int32>>)
    requires ValidInfos(infos, None)
    ensures ValidInfos(infos, mercIds)
  {
  }

  /** `WithIds` keeps exactly the members whose id is listed. */
  lemma {:induction false} WithIdsMembers(ms: seq<Mercenary>, ids: seq<int32>)
    ensures forall m :: m in WithIds(ms, ids) <==> m in ms && m.id in ids
    decreases |ms|
  {
    if ms != [] {
      var p := ms[..|ms| - 1];
      WithIdsMembers(p, ids);
      assert ms == p + [ms[|ms| - 1]];
    }
  }

  // -------------------------------------------------------------- treasures

  /** `mercenaries.Find(merc => merc.Id == mercId)`, as an index: the first
      member with that id, or none. */
  function FindById(ms: seq<Mercenary>, id: int32): Option<nat>
    decreases |ms|
  {
    if ms == [] then None
    else if ms[0].id == id then Some(0)
    else
      match FindById(ms[1..], id)
      case None => None
      case Some(k) => Some(k + 1)
  }

  /** `FindById` is none exactly when no member has the id, and otherwise the
      index of a member with it that no earlier member shares. */
  lemma {:induction false} FindByIdIsFirst(ms: seq<Mercenary>, id: int32)
    ensures FindById(ms, id).None? <==> forall k :: 0 <= k < |ms| ==> ms[k].id != id
    ensures FindById(ms, id).Some? ==>
              var i := FindById(ms, id).value;
              i < |ms| && ms[i].id == id && forall k :: 0 <= k < i ==> ms[k].id != id
    decreases |ms|
  {
    if ms != [] && ms[0].id != id {
      FindByIdIsFirst(ms[1..], id);
      assert forall k :: 1 <= k < |ms| ==> ms[k] == ms[1..][k - 1];
    }
  }

  /** Two rosters with the same ids in the same places. */
  predicate SameIds(a: seq<Mercenary>, b: seq<Mercenary>) {
    |a| == |b| && forall k :: 0 <= k < |a| ==> a[k].id == b[k].id
  }

  /** The lookup depends on the ids alone. */
  lemma {:induction false} SameIdsFind(a: seq<Mercenary>, b: seq<Mercenary>, id: int32)
    requires SameIds(a, b)
    ensures FindById(a, id) == FindById(b, id)
    decreases |a|
  {
    if a != [] && a[0].id != id {
      assert SameIds(a[1..], b[1..]) by {
        assert forall k :: 0 <= k < |a[1..]| ==> a[1..][k] == a[k + 1] && b[1..][k] == b[k + 1];
      }
      SameIdsFind(a[1..], b[1..], id);
    }
  }

  /** One assignment: append its card to the first member with its id, if any. */
  function AssignOne(ms: seq<Mercenary>, t: TreasureAssignment): seq<Mercenary>
  {
    FindByIdIsFirst(ms, t.assignedMercenary);
    match FindById(ms, t.assignedMercenary)
    case None => ms
    case Some(k) => ms[k := ms[k].(treasureCardDbfIds := ms[k].treasureCardDbfIds + [t.treasureCard])]
  }

  /** The post-pass: every assignment in turn. */
  function AssignAll(ms: seq<Mercenary>, ts: seq<TreasureAssignment>): seq<Mercenary>
    decreases |ts|
  {
    if ts == [] then ms
    else AssignOne(AssignAll(ms, ts[..|ts| - 1]), ts[|ts| - 1])
  }

  /** Reference definition: the cards of the assignments whose first matching
      member is member `k`, in assignment order. */
  function TreasuresFor(ms: seq<Mercenary>, ts: seq<TreasureAssignment>, k: nat): seq<int32>
    decreases |ts|
  {
    if ts == [] then []
    else
      var t := ts[|ts| - 1];
      TreasuresFor(ms, ts[..|ts| - 1], k) + (if FindById(ms, t.assignedMercenary) == Some(k) then [t.treasureCard] else [])
  }

  /** One assignment touches only the treasure list of the member it finds. */
  lemma AssignOneEffect(ms: seq<Mercenary>, t: TreasureAssignment)
    ensures |AssignOne(ms, t)| == |ms|
    ensures forall k :: 0 <= k < |ms| ==>
              AssignOne(ms, t)[k] ==
                if FindById(ms, t.assignedMercenary) == Some(k)
                then ms[k].(treasureCardDbfIds := ms[k].treasureCardDbfIds + [t.treasureCard])
                else ms[k]
  {
    FindByIdIsFirst(ms, t.assignedMercenary);
  }

  /** The post-pass changes nothing but treasure lists: member `k` gains,
      in order, the cards of the assignments that find it first; an assignment
      whose id matches no member is dropped. */
  lemma {:induction false} AssignAllEffect(ms: seq<Mercenary>, ts: seq<TreasureAssignment>)
    ensures |AssignAll(ms, ts)| == |ms|
    ensures forall k :: 0 <= k < |ms| ==>
              AssignAll(ms, ts)[k] == ms[k].(treasureCardDbfIds := ms[k].treasureCardDbfIds + TreasuresFor(ms, ts, k))
    decreases |ts|
  {
    if ts == [] {
      forall k | 0 <= k < |ms| ensures ms[k].treasureCardDbfIds + [] == ms[k].treasureCardDbfIds { }
    } else {
      var p := ts[..|ts| - 1];
      var t := ts[|ts| - 1];
      AssignAllEffect(ms, p);
      var before := AssignAll(ms, p);
      SameIdsFind(ms, before, t.assignedMercenary);
      AssignOneEffect(before, t);
      forall k | 0 <= k < |ms|
        ensures AssignAll(ms, ts)[k] == ms[k].(treasureCardDbfIds := ms[k].treasureCardDbfIds + TreasuresFor(ms, ts, k))
      {
        var old_k := ms[k].treasureCardDbfIds + TreasuresFor(ms, p, k);
        assert before[k] == ms[k].(treasureCardDbfIds := old_k);
        if FindById(ms, t.assignedMercenary) == Some(k) {
          assert old_k + [t.treasureCard] == ms[k].treasureCardDbfIds + (TreasuresFor(ms, p, k) + [t.treasureCard]);
        }
      }
    }
  }

  /** The treasure post-pass of `BuildMercenariesList`. */
  method AssignTreasures(mercenaries: seq<Mercenary>, treasureAssignments: ArrayList<TreasureAssignment>) returns (r: seq<Mercenary>)
    requires Readable(treasureAssignments)
    ensures r == AssignAll(mercenaries, Live(treasureAssignments))
  {
    ghost var live := Live(treasureAssignments);
    r := mercenaries;
    var i := 0;
    while i < treasureAssignments.size
      invariant 0 <= i && (i <= treasureAssignments.size || i == 0)
      invariant i <= |live| && treasureAssignments.items[..i] == live[..i]
      invariant r == AssignAll(mercenaries, live[..i])
    {
      assert live[..i + 1][..i] == live[..i];
      assert live[i] == treasureAssignments.items[i];
      var treasure := treasureAssignments.items[i];
      var mercId := treasure.assignedMercenary;
      var cardDbfId := treasure.treasureCard;
      var teamMerc := FindById(r, mercId);
      FindByIdIsFirst(r, mercId);
      if teamMerc.Some? {
        var k := teamMerc.value;
        r := r[k := r[k].(treasureCardDbfIds := r[k].treasureCardDbfIds + [cardDbfId])];
      }
      i := i + 1;
    }
    assert live[..i] == live;
  }

  /** `image.GetNetCacheService("NetCacheLettuceMap")?["<Map>k__BackingField"]
      ?["_TreasureAssignmentList"]?["_TreasureAssignments"]`. */
  function TreasureList(image: Image): Option<ArrayList<TreasureAssignment>> {
    match image.lettuceMap
    case None => None
    case Some(m) => m.treasureAssignments
  }

  predicate TreasuresReadable(image: Image) {
    TreasureList(image).Some? ==> Readable(TreasureList(image).value)
  }

  /** The assignments the post-pass visits (none when the list is absent). */
  function Assignments(image: Image): seq<TreasureAssignment>
    requires TreasuresReadable(image)
  {
    match TreasureList(image)
    case None => []
    case Some(l) => Live(l)
  }

  /** What `BuildMercenariesList` returns for `root`. */
  function MercenariesList(image: Image, root: ArrayList<MercenaryInfo>, mercIds: Option<seq<int32>>): seq<Mercenary>
    requires ValidList(root, mercIds) && TreasuresReadable(image)
  {
    AssignAll(Roster(Live(root), mercIds), Assignments(image))
  }

  /** The returned list is the roster with the treasure lists filled in: it
      holds the selected snapshots in list order, each with every other field
      as built and with the cards of the assignments that matched it. */
  lemma MercenariesListShape(image: Image, root: ArrayList<MercenaryInfo>, mercIds: Option<seq<int32>>)
    requires ValidList(root, mercIds) && TreasuresReadable(image)
    ensures var roster := Roster(Live(root), mercIds);
            var r := MercenariesList(image, root, mercIds);
            |r| == |roster| &&
            forall k :: 0 <= k < |r| ==>
              r[k] == roster[k].(treasureCardDbfIds := TreasuresFor(roster, Assignments(image), k))
  {
    var roster := Roster(Live(root), mercIds);
    AssignAllEffect(roster, Assignments(image));
    RosterTreasuresEmpty(Live(root), mercIds);
  }

  /** Treasure lists start empty. */
  lemma {:induction false} RosterTreasuresEmpty(infos: seq<MercenaryInfo>, mercIds: Option<seq<int32>>)
    requires ValidInfos(infos, mercIds)
    ensures forall k :: 0 <= k < |Roster(infos, mercIds)| ==> Roster(infos, mercIds)[k].treasureCardDbfIds == []
    decreases |infos|
  {
    if infos != [] {
      var p := infos[..|infos| - 1];
      assert forall i :: 0 <= i < |p| ==> p[i] == infos[i];
      RosterTreasuresEmpty(p, mercIds);
    }
  }

  /** The body of the roster loop for one selected mercenary: its abilities,
      equipments and premium, and an empty treasure list. */
  method BuildMercenary(mercInfo: MercenaryInfo) returns (mercenary: Mercenary)
    requires ValidInfo(mercInfo)
    ensures mercenary == Snapshot(mercInfo)
  {
    var mercId := mercInfo.id;
    var mercLevel := mercInfo.level;
    var mercAbilities := BuildAbilities(mercInfo.abilityList, mercLevel);
    var mercEquipments := BuildEquipments(mercInfo.equipmentList);
    var premium := ReadPremium(mercInfo.artVariations);
    assert mercEquipments == Equipments(Live(mercInfo.equipmentList));
    mercenary := Mercenary(
      id := mercId,
      level := mercLevel,
      abilities := mercAbilities,
      equipments := mercEquipments,
      treasureCardDbfIds := [],
      attack := mercInfo.attack,
      health := mercInfo.health,
      currencyAmount := mercInfo.currencyAmount,
      experience := mercInfo.experience,
      isFullyUpgraded := mercInfo.isFullyUpgraded,
      owned := mercInfo.owned,
      premium := premium,
      rarity := mercInfo.rarity,
      role := mercInfo.role);
  }

  /** `BuildMercenariesList`: the roster loop, then the treasure post-pass. */
  method BuildMercenariesList(image: Image, mercenariesRoot: ArrayList<MercenaryInfo>, mercIds: Option<seq<int32>>)
    returns (mercenaries: seq<Mercenary>)
    requires ValidList(mercenariesRoot, mercIds) && TreasuresReadable(image)
    ensures mercenaries == MercenariesList(image, mercenariesRoot, mercIds)
  {
    ghost var live := Live(mercenariesRoot);
    mercenaries := [];
    var i := 0;
    while i < mercenariesRoot.size
      invariant 0 <= i && (i <= mercenariesRoot.size || i == 0)
      invariant i <= |live| && mercenariesRoot.items[..i] == live[..i]
      invariant ValidInfos(live[..i], mercIds) && mercenaries == Roster(live[..i], mercIds)
    {
      assert live[i] == mercenariesRoot.items[i];
      RosterSnoc(live, i, mercIds);
      var mercInfo := mercenariesRoot.items[i];
      var mercId := mercInfo.id;
      if mercIds.Some? && mercId !in mercIds.value {
        i := i + 1;
        continue;
      }
      var mercenary := BuildMercenary(mercInfo);
      mercenaries := mercenaries + [mercenary];
      i := i + 1;
    }
    assert live[..i] == live;
    var treasureAssignments := TreasureList(image);
    if treasureAssignments.Some? {
      mercenaries := AssignTreasures(mercenaries, treasureAssignments.value);
    }
  }

  /** `BuildFullTeam`: the roster of `m_collectibleMercenaries`. */
  method BuildFullTeam(image: Image, mercIds: Option<seq<int32>>) returns (mercenaries: seq<Mercenary>)
    requires image.collectionManager.Some?
    requires ValidList(image.collectionManager.value.collectibleMercenaries, mercIds) && TreasuresReadable(image)
    ensures mercenaries == MercenariesList(image, image.collectionManager.value.collectibleMercenaries, mercIds)
  {
    mercenaries := BuildMercenariesList(image, image.collectionManager.value.collectibleMercenaries, mercIds);
  }
}
