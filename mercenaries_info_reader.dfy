/** The mercenaries readers: the active bounty map with its progress, the
    collection of mercenaries, teams and village visitors, and the pending
    treasure choice. */
module MercenariesInfoReader {
  import opened Wrappers
  import opened Graph
  import opened MercenaryRoster

  datatype MercenariesMap = MercenariesMap(
    bountyId: int32,
    mapId: int32,
    seed: int32,
    playerTeamId: Option<int32>,
    playerTeamName: Option<string>,
    playerTeamMercIds: seq<int32>,
    deadMercIds: seq<int32>,
    playerTeam: seq<Mercenary>,
    currentStep: uint32,
    maxStep: uint32)

  datatype MercenariesInfo = MercenariesInfo(pvpRating: int32, mapInfo: Option<MercenariesMap>)

  datatype MercenariesTeam = MercenariesTeam(id: int32, name: string, mercenaries: seq<Mercenary>)

  datatype MercenariesVisitor = MercenariesVisitor(visitorId: int32, taskId: int32, taskChainProgress: int32, taskProgress: int32, status: int32)

  datatype MercenariesCollection = MercenariesCollection(
    mercenaries: seq<Mercenary>,
    teams: seq<MercenariesTeam>,
    visitors: seq<MercenariesVisitor>)

  datatype MercenariesPendingTreasureSelection = MercenariesPendingTreasureSelection(mercenaryId: int32, options: seq<int32>)

  /** A `for (i = 0; i < _size; i++) list.Add(_items[i])` copy of an id list. */
  method ReadIntList(l: ArrayList<int32>) returns (ids: seq<int32>)
    requires Readable(l)
    ensures ids == Live(l)
  {
    ids := [];
    var i := 0;
    while i < l.size
      invariant 0 <= i && (i <= l.size || i == 0)
      invariant i <= |l.items| && ids == l.items[..i]
    {
      assert l.items[..i + 1] == l.items[..i] + [l.items[i]];
      ids := ids + [l.items[i]];
      i := i + 1;
    }
  }

  // ------------------------------------------------------------- player team

  /** `playerDataSize > 0 ? playerData["_items"][0] : null`. */
  function FirstPlayerData(m: LettuceMap): Option<PlayerDataItem>
    requires Readable(m.playerData)
  {
    if m.playerData.size > 0 then m.playerData.items[0] else None
  }

  /** `playerDataItem?["_TeamList"]?["_Mercenaries"]`. */
  function TeamList(m: LettuceMap): Option<ArrayList<int32>>
    requires Readable(m.playerData)
  {
    match FirstPlayerData(m)
    case None => None
    case Some(item) => item.teamMercenaries
  }

  /** The ids of the player's team: the first `_size` ids of the first
      player-data item's team; none when there is no such item or team. */
  function TeamIds(m: LettuceMap): (ids: seq<int32>)
    requires Readable(m.playerData) && (TeamList(m).Some? ==> Readable(TeamList(m).value))
    ensures m.playerData.size <= 0 ==> ids == []
    ensures TeamList(m).None? ==> ids == []
    ensures TeamList(m).Some? ==> |ids| == (if TeamList(m).value.size < 0 then 0 else TeamList(m).value.size)
    ensures TeamList(m).Some? ==> forall k :: 0 <= k < |ids| ==> ids[k] == TeamList(m).value.items[k]
  {
    match TeamList(m)
    case None => []
    case Some(l) => Live(l)
  }

  // ---------------------------------------------------------- dead mercenaries

  predicate GroupsReadable(groups: seq<ArrayList<int32>>) {
    forall g :: 0 <= g < |groups| ==> Readable(groups[g])
  }

  /** The number of ids a group contributes: its `_size`, or 0 when negative. */
  function GroupSize(g: ArrayList<int32>): nat {
    if g.size < 0 then 0 else g.size
  }

  /** The dead-mercenary ids: each group's live ids, group after group. */
  function Flatten(groups: seq<ArrayList<int32>>): seq<int32>
    requires GroupsReadable(groups)
    decreases |groups|
  {
    if groups == [] then []
    else Flatten(groups[..|groups| - 1]) + Live(groups[|groups| - 1])
  }

  function SizeTotal(groups: seq<ArrayList<int32>>): nat
    decreases |groups|
  {
    if groups == [] then 0 else SizeTotal(groups[..|groups| - 1]) + GroupSize(groups[|groups| - 1])
  }

  /** The flattened list has as many ids as the groups' sizes add up to. */
  lemma {:induction false} FlattenLength(groups: seq<ArrayList<int32>>)
    requires GroupsReadable(groups)
    ensures |Flatten(groups)| == SizeTotal(groups)
    decreases |groups|
  {
    if groups != [] {
      FlattenLength(groups[..|groups| - 1]);
    }
  }

  /** Flattening keeps group order: the ids of a concatenation are those of
      the first groups followed by those of the rest. */
  lemma {:induction false} FlattenAppend(a: seq<ArrayList<int32>>, b: seq<ArrayList<int32>>)
    requires GroupsReadable(a) && GroupsReadable(b)
    ensures GroupsReadable(a + b)
    ensures Flatten(a + b) == Flatten(a) + Flatten(b)
    decreases |b|
  {
    assert forall i :: 0 <= i < |a + b| ==> (a + b)[i] == if i < |a| then a[i] else b[i - |a|];
    if b == [] {
      assert a + b == a;
    } else {
      var b' := b[..|b| - 1];
      assert (a + b)[..|a + b| - 1] == a + b';
      assert (a + b)[|a + b| - 1] == b[|b| - 1];
      FlattenAppend(a, b');
    }
  }

  /** The dead-mercenary loops of `ReadMercenariesInfo`. */
  method ReadDeadMercenaries(deadMercsList: ArrayList<ArrayList<int32>>) returns (deadMercs: seq<int32>)
    requires Readable(deadMercsList) && GroupsReadable(Live(deadMercsList))
    ensures deadMercs == Flatten(Live(deadMercsList))
  {
    ghost var groups := Live(deadMercsList);
    deadMercs := [];
    var i := 0;
    while i < deadMercsList.size
      invariant 0 <= i && (i <= deadMercsList.size || i == 0)
      invariant i <= |groups| && deadMercsList.items[..i] == groups[..i]
      invariant GroupsReadable(groups[..i]) && deadMercs == Flatten(groups[..i])
    {
      assert groups[..i + 1][..i] == groups[..i];
      assert groups[i] == deadMercsList.items[i];
      var deadMercsItem := deadMercsList.items[i];
      var size := deadMercsItem.size;
      var j := 0;
      while j < size
        invariant 0 <= j && (j <= size || j == 0)
        invariant j <= |Live(deadMercsItem)|
        invariant deadMercs == Flatten(groups[..i]) + Live(deadMercsItem)[..j]
      {
        assert Live(deadMercsItem)[..j + 1] == Live(deadMercsItem)[..j] + [deadMercsItem.items[j]];
        deadMercs := deadMercs + [deadMercsItem.items[j]];
        j := j + 1;
      }
      assert Live(deadMercsItem)[..j] == Live(deadMercsItem);
      i := i + 1;
    }
    assert groups[..i] == groups;
  }

  // ----------------------------------------------------------- step progress

  /** A completed node in row N puts the player at step N + 1 (a `uint`
      increment); the current step is the largest such step, 0 if none. */
  function CurrentStep(nodes: seq<MapNode>, complete: int): uint32
    decreases |nodes|
  {
    if nodes == [] then 0
    else
      var c := CurrentStep(nodes[..|nodes| - 1], complete);
      var n := nodes[|nodes| - 1];
      if n.state == complete && c < Succ32(n.row) then Succ32(n.row) else c
  }

  /** The largest row over all nodes, whatever their state; 0 if there are none. */
  function MaxStep(nodes: seq<MapNode>): uint32
    decreases |nodes|
  {
    if nodes == [] then 0
    else
      var c := MaxStep(nodes[..|nodes| - 1]);
      var n := nodes[|nodes| - 1];
      if c < n.row then n.row else c
  }

  lemma {:induction false} MaxStepIsMax(nodes: seq<MapNode>)
    ensures forall j :: 0 <= j < |nodes| ==> nodes[j].row <= MaxStep(nodes)
    ensures nodes == [] ==> MaxStep(nodes) == 0
    ensures nodes != [] ==> exists j :: 0 <= j < |nodes| && nodes[j].row == MaxStep(nodes)
    decreases |nodes|
  {
    if nodes != [] {
      var p := nodes[..|nodes| - 1];
      MaxStepIsMax(p);
      assert forall j :: 0 <= j < |p| ==> p[j] == nodes[j];
      if p == [] || MaxStep(p) < nodes[|nodes| - 1].row {
        assert nodes[|nodes| - 1].row == MaxStep(nodes);
      } else {
        var j :| 0 <= j < |p| && p[j].row == MaxStep(p);
        assert nodes[j].row == MaxStep(nodes);
      }
    }
  }

  lemma {:induction false} CurrentStepIsMax(nodes: seq<MapNode>, complete: int)
    ensures forall j :: 0 <= j < |nodes| && nodes[j].state == complete ==> Succ32(nodes[j].row) <= CurrentStep(nodes, complete)
    ensures CurrentStep(nodes, complete) == 0 ||
            exists j :: 0 <= j < |nodes| && nodes[j].state == complete && Succ32(nodes[j].row) == CurrentStep(nodes, complete)
    decreases |nodes|
  {
    if nodes != [] {
      var p := nodes[..|nodes| - 1];
      var n := nodes[|nodes| - 1];
      CurrentStepIsMax(p, complete);
      assert forall j :: 0 <= j < |p| ==> p[j] == nodes[j];
      if n.state == complete && CurrentStep(p, complete) < Succ32(n.row) {
        assert Succ32(n.row) == CurrentStep(nodes, complete);
      } else if CurrentStep(p, complete) != 0 {
        var j :| 0 <= j < |p| && p[j].state == complete && Succ32(p[j].row) == CurrentStep(p, complete);
        assert nodes[j].state == complete && Succ32(nodes[j].row) == CurrentStep(nodes, complete);
      }
    }
  }

  /** The current step is at most one past the largest row. */
  lemma {:induction false} CurrentStepWithinMax(nodes: seq<MapNode>, complete: int)
    ensures CurrentStep(nodes, complete) <= MaxStep(nodes) + 1
  {
    CurrentStepIsMax(nodes, complete);
    MaxStepIsMax(nodes);
  }

  /** The current step is 0 exactly when no completed node has a row below
      2^32 - 1 (a completed node in the last `uint` row wraps to step 0). */
  lemma {:induction false} CurrentStepZero(nodes: seq<MapNode>, complete: int)
    ensures CurrentStep(nodes, complete) == 0 <==>
            forall j :: 0 <= j < |nodes| && nodes[j].state == complete ==> nodes[j].row == 0xFFFF_FFFF
  {
    CurrentStepIsMax(nodes, complete);
  }

  /** With rows below 2^32 - 1, the current step is 0 exactly when no node is complete. */
  lemma {:induction false} CurrentStepZeroIffNoneComplete(nodes: seq<MapNode>, complete: int)
    requires forall j :: 0 <= j < |nodes| ==> nodes[j].row < 0xFFFF_FFFF
    ensures CurrentStep(nodes, complete) == 0 <==> forall j :: 0 <= j < |nodes| ==> nodes[j].state != complete
  {
    CurrentStepZero(nodes, complete);
  }

  /** The node loop of `ReadMercenariesInfo`. */
  method ReadStepProgress(nodes: ArrayList<MapNode>, complete: int) returns (currentRow: uint32, maxRow: uint32)
    requires Readable(nodes)
    ensures currentRow == CurrentStep(Live(nodes), complete)
    ensures maxRow == MaxStep(Live(nodes))
  {
    ghost var live := Live(nodes);
    currentRow, maxRow := 0, 0;
    var i := 0;
    while i < nodes.size
      invariant 0 <= i && (i <= nodes.size || i == 0)
      invariant i <= |live| && nodes.items[..i] == live[..i]
      invariant currentRow == CurrentStep(live[..i], complete)
      invariant maxRow == MaxStep(live[..i])
    {
      assert live[..i + 1][..i] == live[..i];
      assert live[i] == nodes.items[i];
      var node := nodes.items[i];
      if node.state == complete {
        var next := Succ32(node.row);
        currentRow := if currentRow < next then next else currentRow;
      }
      maxRow := if maxRow < node.row then node.row else maxRow;
      i := i + 1;
    }
    assert live[..i] == live;
  }

  // ------------------------------------------------------------ map and info

  /** What `ReadMercenariesInfo` dereferences unconditionally on a present map. */
  predicate MapReadable(m: LettuceMap) {
    && Readable(m.playerData)
    && (TeamList(m).Some? ==> Readable(TeamList(m).value))
    && Readable(m.deadMercenaries)
    && GroupsReadable(Live(m.deadMercenaries))
    && Readable(m.nodes)
  }

  predicate InfoReadable(image: Image) {
    image.lettuceMap.Some? ==>
      && MapReadable(image.lettuceMap.value)
      && image.collectionManager.Some?
      && ValidList(image.collectionManager.value.collectibleMercenaries, Some(TeamIds(image.lettuceMap.value)))
      && TreasuresReadable(image)
  }

  /** The map snapshot of a present `NetCacheLettuceMap` map. */
  function MapOf(image: Image, complete: int): MercenariesMap
    requires image.lettuceMap.Some? && InfoReadable(image)
  {
    var m := image.lettuceMap.value;
    var item := FirstPlayerData(m);
    MercenariesMap(
      bountyId := m.bountyId,
      mapId := m.mapId,
      seed := m.seed,
      playerTeamId := if item.Some? then Some(item.value.teamId) else None,
      playerTeamName := if item.Some? then Some(item.value.teamName) else None,
      playerTeamMercIds := TeamIds(m),
      deadMercIds := Flatten(Live(m.deadMercenaries)),
      playerTeam := MercenariesList(image, image.collectionManager.value.collectibleMercenaries, Some(TeamIds(m))),
      currentStep := CurrentStep(Live(m.nodes), complete),
      maxStep := MaxStep(Live(m.nodes)))
  }

  /** `ReadMercenariesInfo`; `complete` is the value of `NodeState.COMPLETE`.
      The rating defaults to 0 without the player-info cache; the map is
      absent exactly when the `NetCacheLettuceMap` map is. */
  method ReadMercenariesInfo(image: Image, complete: int) returns (r: MercenariesInfo)
    requires InfoReadable(image)
    ensures r.pvpRating == if image.playerInfo.Some? then image.playerInfo.value.pvpRating else 0
    ensures r.mapInfo.None? <==> image.lettuceMap.None?
    ensures r.mapInfo.Some? ==> r.mapInfo.value == MapOf(image, complete)
  {
    var netCacheMercenaries := image.playerInfo;
    var pvpRating := if netCacheMercenaries.Some? then Some(netCacheMercenaries.value.pvpRating) else None;

    var netCacheMercenariesMap := image.lettuceMap;
    var mapInfo: Option<MercenariesMap> := None;
    if netCacheMercenariesMap.Some? {
      var m := netCacheMercenariesMap.value;
      var playerDataItem := if m.playerData.size > 0 then m.playerData.items[0] else None;
      var playerTeamList := if playerDataItem.Some? then playerDataItem.value.teamMercenaries else None;
      var teamList: seq<int32> := [];
      if playerTeamList.Some? {
        teamList := ReadIntList(playerTeamList.value);
      }
      var deadMercs := ReadDeadMercenaries(m.deadMercenaries);
      var currentRow, maxRow := ReadStepProgress(m.nodes, complete);
      var fullTeam := BuildFullTeam(image, Some(teamList));
      mapInfo := Some(MercenariesMap(
        bountyId := m.bountyId,
        mapId := m.mapId,
        seed := m.seed,
        playerTeamId := if playerDataItem.Some? then Some(playerDataItem.value.teamId) else None,
        playerTeamName := if playerDataItem.Some? then Some(playerDataItem.value.teamName) else None,
        playerTeamMercIds := teamList,
        deadMercIds := deadMercs,
        playerTeam := fullTeam,
        currentStep := currentRow,
        maxStep := maxRow));
    }
    r := MercenariesInfo(pvpRating := pvpRating.GetOr(0), mapInfo := mapInfo);
  }

  /** The player team of the map holds exactly the collectible mercenaries
      whose id is on the team list, in collection order, each as the
      unfiltered roster builds it (treasures aside). */
  lemma PlayerTeamMembers(image: Image, complete: int)
    requires image.lettuceMap.Some? && InfoReadable(image)
    requires ValidList(image.collectionManager.value.collectibleMercenaries, None)
    ensures var mp := MapOf(image, complete);
            var full := Roster(Live(image.collectionManager.value.collectibleMercenaries), None);
            var team := WithIds(full, mp.playerTeamMercIds);
            |mp.playerTeam| == |team| &&
            (forall k :: 0 <= k < |team| ==> mp.playerTeam[k].(treasureCardDbfIds := []) == team[k]) &&
            (forall m :: m in team <==> m in full && m.id in mp.playerTeamMercIds)
  {
    var root := image.collectionManager.value.collectibleMercenaries;
    var ids := TeamIds(image.lettuceMap.value);
    RosterFiltered(Live(root), ids);
    MercenariesListShape(image, root, Some(ids));
    RosterTreasuresEmpty(Live(root), Some(ids));
    WithIdsMembers(Roster(Live(root), None), ids);
  }

  // -------------------------------------------------------------- collection

  /** `m_teams` read as `valueSlots[0 .. count)`; no teams when absent. */
  function TeamSlots(cm: CollectionManager): seq<TeamRecord>
    requires cm.teams.Some? ==> cm.teams.value.count <= |cm.teams.value.valueSlots|
  {
    match cm.teams
    case None => []
    case Some(t) => if t.count <= 0 then [] else t.valueSlots[..t.count]
  }

  /** `<VisitorStates>k__BackingField` read as an array-list; none when absent. */
  function VisitorList(image: Image): seq<VisitorState>
    requires image.visitorStates.Some? ==> Readable(image.visitorStates.value)
  {
    match image.visitorStates
    case None => []
    case Some(l) => Live(l)
  }

  predicate TeamsValid(slots: seq<TeamRecord>) {
    forall i :: 0 <= i < |slots| ==> ValidList(slots[i].lettuceMercs, None)
  }

  /** What `ReadMercenariesCollectionInfo` dereferences unconditionally. */
  predicate CollectionReadable(image: Image) {
    && image.collectionManager.Some?
    && ValidList(image.collectionManager.value.collectibleMercenaries, None)
    && TreasuresReadable(image)
    && (image.collectionManager.value.teams.Some? ==>
          image.collectionManager.value.teams.value.count <= |image.collectionManager.value.teams.value.valueSlots|)
    && TeamsValid(TeamSlots(image.collectionManager.value))
    && (image.visitorStates.Some? ==> Readable(image.visitorStates.value))
  }

  /** A team snapshot: its id, its name and the unfiltered roster of its own
      mercenaries, with the map's treasures attached. */
  function Team(image: Image, slot: TeamRecord): MercenariesTeam
    requires ValidList(slot.lettuceMercs, None) && TreasuresReadable(image)
  {
    MercenariesTeam(slot.id, slot.name, MercenariesList(image, slot.lettuceMercs, None))
  }

  /** A visitor snapshot: `_ActiveTaskState?[...] ?? default` gives task -1,
      progress 0 and status 0 without an active task. */
  function Visitor(v: VisitorState): MercenariesVisitor {
    match v.activeTaskState
    case None => MercenariesVisitor(v.visitorId, -1, v.taskChainProgress, 0, 0)
    case Some(t) => MercenariesVisitor(v.visitorId, t.taskId, v.taskChainProgress, t.progress, t.status)
  }

  /** The body of the team loop: one team with its own roster. */
  method ReadTeam(image: Image, memTeam: TeamRecord) returns (team: MercenariesTeam)
    requires ValidList(memTeam.lettuceMercs, None) && TreasuresReadable(image)
    ensures team == Team(image, memTeam)
  {
    var mercenaries := BuildMercenariesList(image, memTeam.lettuceMercs, None);
    team := MercenariesTeam(memTeam.id, memTeam.name, mercenaries);
  }

  /** The team loop of `ReadMercenariesCollectionInfo`: one team per live slot
      of `m_teams`, each with the unfiltered roster of its own mercenaries. */
  method ReadTeams(image: Image, cm: CollectionManager) returns (teams: seq<MercenariesTeam>)
    requires cm.teams.Some? ==> cm.teams.value.count <= |cm.teams.value.valueSlots|
    requires TeamsValid(TeamSlots(cm)) && TreasuresReadable(image)
    ensures |teams| == |TeamSlots(cm)|
    ensures forall i :: 0 <= i < |teams| ==> teams[i] == Team(image, TeamSlots(cm)[i])
  {
    ghost var slots := TeamSlots(cm);
    var teamsNode := cm.teams;
    var teamsCount := if teamsNode.Some? then teamsNode.value.count else 0;
    teams := [];
    var i := 0;
    while i < teamsCount
      invariant 0 <= i && (i <= teamsCount || i == 0)
      invariant i <= |slots| && |teams| == i
      invariant forall k :: 0 <= k < i ==> teams[k] == Team(image, slots[k])
    {
      var memTeam := teamsNode.value.valueSlots[i];
      assert memTeam == slots[i];
      var team := ReadTeam(image, memTeam);
      teams := teams + [team];
      i := i + 1;
    }
  }

  /** The visitor loop of `ReadMercenariesCollectionInfo`. */
  method ReadVisitors(image: Image) returns (visitors: seq<MercenariesVisitor>)
    requires image.visitorStates.Some? ==> Readable(image.visitorStates.value)
    ensures |visitors| == |VisitorList(image)|
    ensures forall i :: 0 <= i < |visitors| ==> visitors[i] == Visitor(VisitorList(image)[i])
  {
    ghost var vs := VisitorList(image);
    visitors := [];
    var visitorsInfo := image.visitorStates;
    var visitorsCount := if visitorsInfo.Some? then visitorsInfo.value.size else 0;
    var j := 0;
    while j < visitorsCount
      invariant 0 <= j && (j <= visitorsCount || j == 0)
      invariant j <= |vs| && |visitors| == j
      invariant forall k :: 0 <= k < j ==> visitors[k] == Visitor(vs[k])
    {
      var visitorInfo := visitorsInfo.value.items[j];
      assert visitorInfo == vs[j];
      var active := visitorInfo.activeTaskState;
      visitors := visitors + [MercenariesVisitor(
        visitorId := visitorInfo.visitorId,
        taskId := if active.Some? then active.value.taskId else -1,
        taskChainProgress := visitorInfo.taskChainProgress,
        taskProgress := if active.Some? then active.value.progress else 0,
        status := if active.Some? then active.value.status else 0)];
      j := j + 1;
    }
  }

  /** `ReadMercenariesCollectionInfo`: the full roster, one team per live slot
      of `m_teams` with its own roster, and one visitor per visitor state,
      with task -1, progress 0 and status 0 when it has no active task. */
  method ReadMercenariesCollectionInfo(image: Image) returns (r: MercenariesCollection)
    requires CollectionReadable(image)
    ensures r.mercenaries == MercenariesList(image, image.collectionManager.value.collectibleMercenaries, None)
    ensures var slots := TeamSlots(image.collectionManager.value);
            |r.teams| == |slots| &&
            forall i :: 0 <= i < |slots| ==>
              r.teams[i] == MercenariesTeam(slots[i].id, slots[i].name, MercenariesList(image, slots[i].lettuceMercs, None))
    ensures var vs := VisitorList(image);
            |r.visitors| == |vs| &&
            forall i :: 0 <= i < |vs| ==>
              && r.visitors[i].visitorId == vs[i].visitorId
              && r.visitors[i].taskChainProgress == vs[i].taskChainProgress
              && (vs[i].activeTaskState.None? ==>
                    r.visitors[i].taskId == -1 && r.visitors[i].taskProgress == 0 && r.visitors[i].status == 0)
              && (vs[i].activeTaskState.Some? ==>
                    var t := vs[i].activeTaskState.value;
                    r.visitors[i].taskId == t.taskId && r.visitors[i].taskProgress == t.progress &&
                    r.visitors[i].status == t.status)
  {
    var mercList := BuildFullTeam(image, None);
    var teams := ReadTeams(image, image.collectionManager.value);
    var visitors := ReadVisitors(image);
    r := MercenariesCollection(mercenaries := mercList, teams := teams, visitors := visitors);
  }

  // ------------------------------------------------------ pending treasures

  /** `ReadPendingTreasureSelection`: absent when the image, the map, the
      pending selection or its options list is absent, or the options `_size`
      is 0; otherwise the selected mercenary and the first `_size` options. */
  method ReadPendingTreasureSelection(image: Option<Image>) returns (r: Option<MercenariesPendingTreasureSelection>)
    requires image.Some? && image.value.lettuceMap.Some? &&
             image.value.lettuceMap.value.pendingTreasureSelection.Some? &&
             image.value.lettuceMap.value.pendingTreasureSelection.value.treasureOptions.Some? ==>
               Readable(image.value.lettuceMap.value.pendingTreasureSelection.value.treasureOptions.value)
    ensures r.None? <==>
              || image.None?
              || image.value.lettuceMap.None?
              || image.value.lettuceMap.value.pendingTreasureSelection.None?
              || image.value.lettuceMap.value.pendingTreasureSelection.value.treasureOptions.None?
              || image.value.lettuceMap.value.pendingTreasureSelection.value.treasureOptions.value.size == 0
    ensures r.Some? ==>
              var pending := image.value.lettuceMap.value.pendingTreasureSelection.value;
              r.value.mercenaryId == pending.mercenaryId && r.value.options == Live(pending.treasureOptions.value)
  {
    if image.None? {
      return None;
    }
    var netCacheMercenariesMap := image.value.lettuceMap;
    if netCacheMercenariesMap.None? {
      return None;
    }
    var pendingTreasureSelection := netCacheMercenariesMap.value.pendingTreasureSelection;
    if pendingTreasureSelection.None? {
      return None;
    }
    var options := pendingTreasureSelection.value.treasureOptions;
    if options.None? {
      return None;
    }
    var numberOfOptions := options.value.size;
    if numberOfOptions == 0 {
      return None;
    }
    var optionDbfIds := ReadIntList(options.value);
    return Some(MercenariesPendingTreasureSelection(pendingTreasureSelection.value.mercenaryId, optionDbfIds));
  }

  // ------------------------------------------------------------- new rating

  /** `ReadNewRating`: the null chain to `_NewRating`, defaulting to -1. */
  function ReadNewRating(gameState: Option<GameState>): (r: int32)
    ensures gameState.None? ==> r == -1
    ensures gameState.Some? && gameState.value.gameEntity.None? ==> r == -1
    ensures gameState.Some? && gameState.value.gameEntity.Some? && gameState.value.gameEntity.value.ratingChangeData.None? ==> r == -1
    ensures gameState.Some? && gameState.value.gameEntity.Some? && gameState.value.gameEntity.value.ratingChangeData.Some? ==>
              r == gameState.value.gameEntity.value.ratingChangeData.value.newRating
  {
    match gameState
    case None => -1
    case Some(state) =>
      match state.gameEntity
      case None => -1
      case Some(entity) =>
        match entity.ratingChangeData
        case None => -1
        case Some(data) => data.newRating
  }
}
