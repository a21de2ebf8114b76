# Hearthstone collection and mercenaries readers, in Dafny

This project models the extraction layer of a Hearthstone memory reader.
The layer walks the object graph read out of the game process and folds raw
records into the snapshots the library returns. Three readers are modelled:

- **Collection cards.** `CollectionCardReader.ReadCollection` groups the
  `m_collectibleCards` entries by card id. It routes each entry's owned count
  into the base, premium or diamond count by its premium tag.
  `ReadCollectionSize` computes the legacy size sum, with the 32-bit
  wrap-around of C#'s unchecked `+=`.
- **Card backs.** `CollectionCardBackReader.ReadCollection` scans the net
  cache's `valueSlots` for `NetCacheCardBacks` values. It emits one card back
  per element of their `_slots` array.
- **Mercenaries.**
  - `ReadMercenariesInfo` reads the PvP rating and the bounty map: player
    team ids, dead-mercenary ids, current and maximum step, and the player
    team.
  - `ReadMercenariesCollectionInfo` reads the full roster, the player-defined
    teams and the village visitors.
  - `ReadPendingTreasureSelection` reads the pending treasure choice.
  - `ReadNewRating` reads the rating after a game.
  - The roster builder behind these (`BuildMercenariesList`,
    `BuildFullTeam`, `GetTier`) is in module `MercenaryRoster`.

The object graph is represented by decoded records (module `Graph`):

- A field reached through `?.` or `??` is an `Option`.
- A .NET `List<T>` is an `ArrayList(items, size)`. `Readable` (`size <= |items|`)
  is the condition under which an index loop up to `_size` stays in bounds.
  `Live` is the elements such a loop visits.
- C# `int` and `uint` are the subset types `int32` and `uint32`.

Every loop of the source is a method proved equal to a specification function
of its inputs. Most of those functions recur on the prefix, so most loop
invariants read `acc == F(items[..i])`. The loops that build one output per
input (`BuildEquipments`, `ReadTeams`, `ReadVisitors`, `ReadIntList`) carry
per-index invariants instead. Lemmas then state what the specification
functions mean: first match, maximum, last write, concatenation, and so on.

A null `image` passed to a reader that throws `ArgumentNullException`
yields `Result.ArgumentNull`. Implicit failures become preconditions: a null
dereference, a cast of null to `int`, or an index past `_items`. Files:

| file | module |
|---|---|
| `wrappers.dfy` | `Wrappers`: `Option`, `Result` |
| `graph.dfy` | `Graph`: decoded records, `ArrayList`, `int32`/`uint32` wrap-around |
| `collection_card_reader.dfy` | `CollectionCardReader` |
| `collection_card_back_reader.dfy` | `CollectionCardBackReader` |
| `mercenary_roster.dfy` | `MercenaryRoster`: `BuildMercenariesList`, `BuildFullTeam`, `GetTier` |
| `mercenaries_info_reader.dfy` | `MercenariesInfoReader`: the public mercenaries readers and `ReadNewRating` |

## Model

| member | source | states |
|---|---|---|
| Graph.Live | UnitySpy.HearthstoneLib/Detail/Collection/CollectionCardReader.cs:34-36 | an index loop up to `_size` visits exactly the first `max(0, _size)` items of `_items`, in order |
| Graph.Wrap32 | UnitySpy.HearthstoneLib/Detail/Collection/CollectionCardReader.cs:91-92 | the result is an `int`, and equals the exact value whenever that value fits in an `int` |
| Graph.Wrap32Add | UnitySpy.HearthstoneLib/Detail/Collection/CollectionCardReader.cs:91-92 | wrapping after every addition equals wrapping the exact sum once |
| Graph.Succ32 | UnitySpy.HearthstoneLib/Detail/Mercenaries/MercenariesInfoReader.cs:56 | `uint` increment: x + 1 below 2^32 - 1, and 2^32 - 1 wraps to 0 |
| CollectionCardReader.FieldFor | UnitySpy.HearthstoneLib/Detail/Collection/CollectionCardReader.cs:53-64 | tag 1 routes to the premium count, tag 2 to the diamond count, any other tag (0 and unknown ones) to the base count, each as an iff |
| CollectionCardReader.Put | UnitySpy.HearthstoneLib/Detail/Collection/CollectionCardReader.cs:53-64 | routing assigns the count to the one field; id and the other two fields unchanged |
| CollectionCardReader.NewCard | UnitySpy.HearthstoneLib/Detail/Collection/CollectionCardReader.cs:47-51 | a card added to the dictionary carries its id and all counts 0 |
| CollectionCardReader.Fold | UnitySpy.HearthstoneLib/Detail/Collection/CollectionCardReader.cs:26-65 | the dictionary after the loop: each key listed once in insertion order, each card stored under its own id, keys exactly the non-empty ids of the examined entries |
| CollectionCardReader.Cards | UnitySpy.HearthstoneLib/Detail/Collection/CollectionCardReader.cs:67 | `Values.ToArray()`: one card per key, in insertion order |
| CollectionCardReader.CollectionOf | UnitySpy.HearthstoneLib/Detail/Collection/CollectionCardReader.cs:26-67 | the result has at most one card per id, no card for a null or empty id, and a card for every non-empty id among the first `_size` entries |
| CollectionCardReader.FoldIsLastWrite | UnitySpy.HearthstoneLib/Detail/Collection/CollectionCardReader.cs:49-64 | each field of each card equals the reference `LastCount`: the last count routed to that field, or 0 |
| CollectionCardReader.LastCountAbsent | UnitySpy.HearthstoneLib/Detail/Collection/CollectionCardReader.cs:38-42 | an id no identified entry carries has nothing routed to it |
| CollectionCardReader.LastCountIsLast | UnitySpy.HearthstoneLib/Detail/Collection/CollectionCardReader.cs:53-64 | when entry j is the last one routed to field f of card id, `LastCount` is entry j's count |
| CollectionCardReader.LastCountNone | UnitySpy.HearthstoneLib/Detail/Collection/CollectionCardReader.cs:49 | with no entry routed to a field it stays 0 |
| CollectionCardReader.CardFieldIsLastWrite | UnitySpy.HearthstoneLib/Detail/Collection/CollectionCardReader.cs:49-64 | for every returned card and field: 0 if no entry routed there, otherwise the count of the last entry that did (assignment, not accumulation) |
| CollectionCardReader.RouteCount | UnitySpy.HearthstoneLib/Detail/Collection/CollectionCardReader.cs:53-64 | the if/else chain sets exactly the field `FieldFor` picks and leaves the rest |
| CollectionCardReader.AddEntry | UnitySpy.HearthstoneLib/Detail/Collection/CollectionCardReader.cs:47-64 | one identified entry: look up or add (new id appended to the insertion order), then route, as one `Step` of the fold |
| CollectionCardReader.ReadCollection | UnitySpy.HearthstoneLib/Detail/Collection/CollectionCardReader.cs:10-68 | null image gives `ArgumentNull` (and only then); absent `m_collectibleCards` gives an empty list; otherwise `CollectionOf` the first `_size` entries |
| CollectionCardReader.SizeSumAppend | UnitySpy.HearthstoneLib/Detail/Collection/CollectionCardReader.cs:81-93 | the size metric is additive over concatenation of entry lists |
| CollectionCardReader.SizeSumSkipsUnidentified | UnitySpy.HearthstoneLib/Detail/Collection/CollectionCardReader.cs:83-87 | entries without a card id contribute nothing, whatever their counts |
| CollectionCardReader.ReadCollectionSize | UnitySpy.HearthstoneLib/Detail/Collection/CollectionCardReader.cs:70-95 | null image gives `ArgumentNull` (and only then); otherwise the sum over identified entries of count plus premium tag (null read as 0), wrapped to 32 bits |
| CollectionCardBackReader.SlotBacks | UnitySpy.HearthstoneLib/Detail/Collection/CollectionCardBackReader.cs:33-42 | one card back per `_slots` element, in order, each carrying the slot's `value` |
| CollectionCardBackReader.CardBacksLength | UnitySpy.HearthstoneLib/Detail/Collection/CollectionCardBackReader.cs:28-43 | the output length is the sum of the physical `_slots` lengths of the matching values |
| CollectionCardBackReader.CardBacksAppend | UnitySpy.HearthstoneLib/Detail/Collection/CollectionCardBackReader.cs:28-43 | output order follows `valueSlots` order: the card backs of a concatenation are those of its parts, in order |
| CollectionCardBackReader.CardBackEmitted | UnitySpy.HearthstoneLib/Detail/Collection/CollectionCardBackReader.cs:30-41 | a card back is emitted iff some slot of some value whose type is exactly `NetCacheCardBacks` carries its id (null values never match) |
| CollectionCardBackReader.ReadCollection | UnitySpy.HearthstoneLib/Detail/Collection/CollectionCardBackReader.cs:10-47 | null image gives `ArgumentNull` (and only then); a missing service, `m_netCache` or `valueSlots` gives an empty list; otherwise `CardBacksOf(valueSlots)` |
| MercenaryRoster.FirstTierIsFirst | UnitySpy.HearthstoneLib/Detail/Mercenaries/MercenariesInfoReader.cs:276-290 | the lookup finds nothing iff no entry has the tier, and otherwise an entry with the tier that no earlier entry shares |
| MercenaryRoster.GetTier | UnitySpy.HearthstoneLib/Detail/Mercenaries/MercenariesInfoReader.cs:276-290 | the loop with early return computes `FirstTier` |
| MercenaryRoster.Resolve | UnitySpy.HearthstoneLib/Detail/Mercenaries/MercenariesInfoReader.cs:205-212 | an ability's card id is that of the first tier-list entry with the ability's `m_tier`, and its tier is that tier |
| MercenaryRoster.AbilityIncluded | UnitySpy.HearthstoneLib/Detail/Mercenaries/MercenariesInfoReader.cs:197-213 | an ability is listed iff `m_unlockLevel <= m_level` (both directions), resolved through its tier list |
| MercenaryRoster.AbilitiesLength | UnitySpy.HearthstoneLib/Detail/Mercenaries/MercenariesInfoReader.cs:197-213 | one listed ability per unlocked ability |
| MercenaryRoster.BuildAbilities | UnitySpy.HearthstoneLib/Detail/Mercenaries/MercenariesInfoReader.cs:194-213 | the ability loop computes `Abilities` of the first `_size` abilities |
| MercenaryRoster.BuildEquipments | UnitySpy.HearthstoneLib/Detail/Mercenaries/MercenariesInfoReader.cs:215-229 | one equipment per live entry, in order, field for field |
| MercenaryRoster.MaxPremium | UnitySpy.HearthstoneLib/Detail/Mercenaries/MercenariesInfoReader.cs:233-238 | the premium is never negative |
| MercenaryRoster.MaxPremiumIsMax | UnitySpy.HearthstoneLib/Detail/Mercenaries/MercenariesInfoReader.cs:233-238 | the premium bounds every variation's `m_premium` (null read as 0) and is 0 or one of them |
| MercenaryRoster.ReadPremium | UnitySpy.HearthstoneLib/Detail/Mercenaries/MercenariesInfoReader.cs:231-238 | the premium loop computes `MaxPremium` of the first `_size` variations |
| MercenaryRoster.Snapshot | UnitySpy.HearthstoneLib/Detail/Mercenaries/MercenariesInfoReader.cs:239-255 | a snapshot keeps the mercenary's id, starts with no treasures and has a non-negative premium |
| MercenaryRoster.RosterUnfiltered | UnitySpy.HearthstoneLib/Detail/Mercenaries/MercenariesInfoReader.cs:183-190 | without an id list the roster holds one snapshot per mercenary, in source order |
| MercenaryRoster.RosterFiltered | UnitySpy.HearthstoneLib/Detail/Mercenaries/MercenariesInfoReader.cs:186-190 | with an id list the roster is the unfiltered roster restricted to the listed ids, order kept |
| MercenaryRoster.WithIdsMembers | UnitySpy.HearthstoneLib/Detail/Mercenaries/MercenariesInfoReader.cs:187 | the restriction keeps exactly the members whose id is listed |
| MercenaryRoster.FindByIdIsFirst | UnitySpy.HearthstoneLib/Detail/Mercenaries/MercenariesInfoReader.cs:267 | `Find` yields nothing iff no member has the id, otherwise the first member that has it |
| MercenaryRoster.SameIdsFind | UnitySpy.HearthstoneLib/Detail/Mercenaries/MercenariesInfoReader.cs:267 | `Find` depends on the members' ids alone, so earlier treasure appends do not change later lookups |
| MercenaryRoster.AssignOneEffect | UnitySpy.HearthstoneLib/Detail/Mercenaries/MercenariesInfoReader.cs:264-268 | one assignment appends its card to the member `Find` returns and changes nothing else |
| MercenaryRoster.AssignAllEffect | UnitySpy.HearthstoneLib/Detail/Mercenaries/MercenariesInfoReader.cs:258-270 | after the post-pass each member has gained, in assignment order, the cards of the assignments that find it first; unmatched assignments are dropped; no other field changes |
| MercenaryRoster.AssignTreasures | UnitySpy.HearthstoneLib/Detail/Mercenaries/MercenariesInfoReader.cs:261-269 | the treasure loop computes `AssignAll` over the first `_size` assignments |
| MercenaryRoster.RosterTreasuresEmpty | UnitySpy.HearthstoneLib/Detail/Mercenaries/MercenariesInfoReader.cs:245 | treasure lists start empty |
| MercenaryRoster.MercenariesListShape | UnitySpy.HearthstoneLib/Detail/Mercenaries/MercenariesInfoReader.cs:178-274 | the returned list is the roster with only the treasure lists filled in, each holding exactly its member's assigned cards |
| MercenaryRoster.BuildMercenary | UnitySpy.HearthstoneLib/Detail/Mercenaries/MercenariesInfoReader.cs:192-255 | the loop body builds `Snapshot` of the mercenary |
| MercenaryRoster.BuildMercenariesList | UnitySpy.HearthstoneLib/Detail/Mercenaries/MercenariesInfoReader.cs:178-274 | the roster loop then the treasure post-pass compute `MercenariesList`; only the mercenaries `mercIds` selects need readable lists and resolvable abilities, the others are read for their id alone |
| MercenaryRoster.BuildFullTeam | UnitySpy.HearthstoneLib/Detail/Mercenaries/MercenariesInfoReader.cs:171-176 | the list built from `m_collectibleMercenaries`, requiring buildable entries only among the selected mercenaries |
| MercenariesInfoReader.ReadIntList | UnitySpy.HearthstoneLib/Detail/Mercenaries/MercenariesInfoReader.cs:25-30 | an id-list copy is exactly the first `_size` items, in order |
| MercenariesInfoReader.TeamIds | UnitySpy.HearthstoneLib/Detail/Mercenaries/MercenariesInfoReader.cs:20-30 | the player team ids are empty when player data has size 0 or less or the team list is absent, otherwise exactly the team list's first `_size` items, in order |
| MercenariesInfoReader.FlattenLength | UnitySpy.HearthstoneLib/Detail/Mercenaries/MercenariesInfoReader.cs:32-44 | the dead-mercenary list is as long as the group sizes add up to |
| MercenariesInfoReader.FlattenAppend | UnitySpy.HearthstoneLib/Detail/Mercenaries/MercenariesInfoReader.cs:32-44 | the dead-mercenary ids keep group order: groups concatenated give id lists concatenated |
| MercenariesInfoReader.ReadDeadMercenaries | UnitySpy.HearthstoneLib/Detail/Mercenaries/MercenariesInfoReader.cs:32-44 | the nested loop computes `Flatten` of the first `_size` groups |
| MercenariesInfoReader.MaxStepIsMax | UnitySpy.HearthstoneLib/Detail/Mercenaries/MercenariesInfoReader.cs:49-58 | the max step bounds every row, is 0 with no nodes, and is some node's row otherwise |
| MercenariesInfoReader.CurrentStepIsMax | UnitySpy.HearthstoneLib/Detail/Mercenaries/MercenariesInfoReader.cs:48-57 | the current step bounds `row + 1` of every complete node and is 0 or attained by one |
| MercenariesInfoReader.CurrentStepWithinMax | UnitySpy.HearthstoneLib/Detail/Mercenaries/MercenariesInfoReader.cs:48-58 | the current step is at most the max step plus one |
| MercenariesInfoReader.CurrentStepZero | UnitySpy.HearthstoneLib/Detail/Mercenaries/MercenariesInfoReader.cs:48-57 | the current step is 0 iff every complete node sits in row 2^32 - 1 (whose `+ 1` wraps) |
| MercenariesInfoReader.CurrentStepZeroIffNoneComplete | UnitySpy.HearthstoneLib/Detail/Mercenaries/MercenariesInfoReader.cs:48-57 | with rows below 2^32 - 1, the current step is 0 iff no node is complete |
| MercenariesInfoReader.ReadStepProgress | UnitySpy.HearthstoneLib/Detail/Mercenaries/MercenariesInfoReader.cs:46-59 | the node loop computes `CurrentStep` and `MaxStep` of the first `_size` nodes |
| MercenariesInfoReader.ReadMercenariesInfo | UnitySpy.HearthstoneLib/Detail/Mercenaries/MercenariesInfoReader.cs:10-82 | the rating defaults to 0 without the player-info cache; the map is absent iff `NetCacheLettuceMap`'s map is, and otherwise is `MapOf` the image; of the collectible mercenaries only the team members must be buildable |
| MercenariesInfoReader.PlayerTeamMembers | UnitySpy.HearthstoneLib/Detail/Mercenaries/MercenariesInfoReader.cs:22-61 | the map's player team is the full roster restricted to the team ids (treasures aside) and holds exactly those members |
| MercenariesInfoReader.ReadTeam | UnitySpy.HearthstoneLib/Detail/Mercenaries/MercenariesInfoReader.cs:93-99 | one team's id, name and unfiltered roster |
| MercenariesInfoReader.ReadTeams | UnitySpy.HearthstoneLib/Detail/Mercenaries/MercenariesInfoReader.cs:88-100 | one team per slot below `count` (0 when `m_teams` is absent), slot `i` giving team `i` |
| MercenariesInfoReader.ReadVisitors | UnitySpy.HearthstoneLib/Detail/Mercenaries/MercenariesInfoReader.cs:102-116 | one visitor per live visitor state (none when the cache is absent), in order |
| MercenariesInfoReader.ReadMercenariesCollectionInfo | UnitySpy.HearthstoneLib/Detail/Mercenaries/MercenariesInfoReader.cs:84-124 | the full roster, the teams, and the visitors, where a visitor without an active task has task -1, progress 0 and status 0 |
| MercenariesInfoReader.ReadPendingTreasureSelection | UnitySpy.HearthstoneLib/Detail/Mercenaries/MercenariesInfoReader.cs:127-169 | null iff the image, the map, the pending selection or its options are absent or the options `_size` is 0; otherwise the mercenary id and exactly the first `_size` options |
| MercenariesInfoReader.ReadNewRating | UnitySpy.HearthstoneLib/Detail/Mercenaries/MercenariesInfoReader.cs:292-303 | the new rating when the chain `m_gameEntity`, `RatingChangeData` is present, -1 otherwise |

## Left out

- UnitySpy/Util/Native.cs: Win32 process and module calls; these are foreign calls and I/O with nothing to verify.
- The graph accessor: `image[...]`, `GetService`, `GetNetCacheService`, `TypeDefinition.Name` and the conversions of dynamic values are not modelled. Their results are the decoded records of module `Graph`. Each service looked up by name is one `Option` field of `Image`.
- Runtime-binder failures and reads torn by the game mutating its memory are preconditions, not modelled exceptions. This covers a null dereferenced without `?.`, an index past `_items`, and a null cast to `int`.
- `GetTier` returning null: the caller dereferences the result, so the model requires a matching tier for every unlocked ability of every mercenary the roster loop builds, that is of every mercenary `mercIds` selects (`Resolvable` inside `ValidInfos`); skipped mercenaries are unconstrained. `GetTier` itself returns `None` when nothing matches.
- `ReadNewRating`'s `try`/`catch`: no exception can arise in the model, so only the null chain with its -1 default is kept.
- Dead-mercenary groups: a null group makes the source throw at `deadMercsItem["_size"]`, so each group is modelled as present.
- The `NodeState.COMPLETE` value is not shown; it is the parameter `complete` of `ReadMercenariesInfo` and the step functions.
- `_Row` is taken to be a `uint`, the type of the `currentRow` and `maxRow` it is combined with, so `_Row + 1` wraps at 2^32.
- CurrentStepZeroIffNoneComplete: stated only for rows below 2^32 - 1, because a complete node in the last `uint` row contributes step 0 (`CurrentStepZero` states the general case).
- The exact types of `PlayerTeamId` and `PlayerTeamName` are not shown; they are `Option` values, absent when there is no player-data item.
- Dictionary order: `Values.ToArray()` is modelled as insertion order, which holds for a dictionary that never removes keys but is not promised by .NET.
- Objects updated in place (a `CollectionCard` in the dictionary, a mercenary's `TreasureCardDbfIds`) are modelled as values written back into a map or sequence. Nothing else holds a reference to them while the readers run.
- Card variants, the dbf-id cache, dust values and hero-skin joins are not part of this model. Unknown premium tags overwrite `Count`, as the code does; they do not accumulate into it.
