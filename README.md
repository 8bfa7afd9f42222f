# Custom TTRPG rules engine in Dafny

This project models the rules engine of the Custom TTRPG system for Foundry VTT and proves properties about it:

- **Character pipeline** (`Actor/Actor.js`). A character record gets its defaults, then its derived stats:
  - the class base (HP, attack, defense, damage, dice, crit);
  - class resources;
  - equipment and set bonuses;
  - feat bonuses.
- **Resource merge** (`module/init.js`). When a character's class or level changes, the resource template is rebuilt and current usage is carried over, capped to the new maxima.
- **Combat tracker** (`module/applications/combat-tracker.js`):
  - initiative order, turn and round;
  - hit points, damage types and status effects.
- **Character sheet** (`module/sheets/character-sheet.js`):
  - slot compatibility and resource buttons;
  - level-up;
  - auto-equip scoring and preferred-equipment fill;
  - set-bonus summaries and equip deltas;
  - adding compendium items to the inventory.
- **Compendium loader** (`module/compendium-loader.js`):
  - item queries, search and filter options;
  - the time-limited cache.
- **Inventory manager** (`module/applications/inventory-manager.js`):
  - carrying capacity and weight;
  - adding, removing and equipping items;
  - currency.

## How it is modelled

Files and their roles:

- `common.dfy`: shared vocabulary.
  - `Option`.
  - The JavaScript `parseInt(x) || d` idiom (`ParsedOr`).
  - Ordered dictionaries (`Dict`): JavaScript objects that the source iterates. `Get` finds the first entry with a key; `Put` replaces that entry or appends a new one, as property assignment does.
  - ASCII lower-casing, substring search and string ordering.
- `sorting.dfy`: a stable insertion sort, the model of `Array.prototype.sort` with a comparator.
- `schema.dfy`: the character record and the reference data.
- `feats.dfy`: feat-benefit parsing, including the first `[+-]?\d+` match.
- The other files, one per source file:
  - `actor.dfy`
  - `resources.dfy` (`module/init.js`)
  - `combat.dfy`
  - `sheet.dfy`
  - `compendium.dfy`
  - `inventory.dfy`

Objects whose fields the source updates in place are Dafny classes:

- `CustomActor`, holding the `system` record;
- `CombatTracker`;
- `CharacterSheet`;
- `InventoryManager`;
- the compendium `Cache`.

Each state-changing method is proved equal to a specification function of the old state. The properties are then proved about those functions.

Inputs the source takes from the host are parameters:

- dice totals;
- dialog entries, already passed through `parseInt`;
- confirmations;
- fresh random ids;
- the current time;
- fetched or parsed JSON;
- the class catalog, the set-bonus table and the `hpMultiplier` setting.

## Model

| member | source | states |
|---|---|---|
| Actor.Normalize | Actor/Actor.js:21-68 | after base preparation every defaulted field is present |
| Actor.NormalizeKeepsPresent | Actor/Actor.js:22-68 | a present field is never overwritten; an absent one gets exactly its default: class "Fighter", level 1, the attribute block (10/10 HP, 8/8 abilities, crit 20), the combat block, empty preferences, eleven empty equipment slots, or zero equipment bonuses; other fields are untouched |
| Actor.NormalizeFixpoint | Actor/Actor.js:12-69 | base preparation leaves a record unchanged exactly when it is already normalised, so it is idempotent |
| Actor.CustomActor.PrepareBaseData | Actor/Actor.js:12-69 | the record after the in-place defaulting is the normalised old record |
| Actor.AbilityBonus | Actor/Actor.js:183-184 | the ability modifier is floor((v-10)/2), negative below 10 and never floored at zero |
| Actor.BaseHpMax | Actor/Actor.js:170-175 | the class HP maximum is the larger of 1 and (Health or 10) + modifier(end) * multiplier: at least both, and equal to one of them |
| Actor.CustomActor.CalculateDerivedStats | Actor/Actor.js:165-203 | the record after the in-place class pass equals the derived-stats function of the old record |
| Actor.AddMissingKeeps | Actor/Actor.js:209-211 | an existing resource is never overwritten by class initialisation |
| Actor.AddMissingSeeds | Actor/Actor.js:211-218 | a missing class resource is created with the class's description, value, max and colour |
| Actor.AddMissingAbsent | Actor/Actor.js:209-220 | no resource appears that neither the record nor the class has |
| Actor.AddMissingPrefix | Actor/Actor.js:209-220 | existing resources keep their order; new ones are appended |
| Actor.AddMissingIdempotent | Actor/Actor.js:205-221 | initialising class resources twice is the same as once |
| Actor.AddMissingNoOp | Actor/Actor.js:211 | when every class resource is present, nothing changes |
| Actor.CustomActor.InitializeClassResources | Actor/Actor.js:205-221 | the in-place loop produces the class-resource function of the old record |
| Actor.SetCountsSpec | Actor/Actor.js:130-134 | each set tag's count is exactly the number of equipped slots carrying that tag, and untagged items are not counted |
| Actor.SetCountsDistinct | Actor/Actor.js:123-133 | set counts have one entry per tag |
| Actor.ThresholdsMonotone | Actor/Actor.js:139-146 | with non-negative bonuses, more equipped pieces never give a smaller set bonus |
| Actor.ThresholdsAllReached | Actor/Actor.js:141-145 | when the count reaches every threshold, all of them apply, not only the highest |
| Actor.EquipmentTotals | Actor/Actor.js:118-148 | the equipment bonus map has exactly the ten tracked keys; unknown stat keys are dropped |
| Actor.ApplyStats | Actor/Actor.js:124-129 | each tracked key gains the sum of the item's numeric values for it, non-numbers counting 0, and the key set is unchanged |
| Actor.SumSlots | Actor/Actor.js:130-136 | the slot loop adds every slot's stats and builds the set counts |
| Actor.AddSetBonuses | Actor/Actor.js:138-146 | the set loop adds every reached threshold of every equipped set |
| Actor.AddThresholds | Actor/Actor.js:141-145 | one set's thresholds add exactly the reached thresholds' stats |
| Actor.EquipmentPass | Actor/Actor.js:118-148 | the loops compute the equipment totals and set counts |
| Actor.ApplyHealthBonus | Actor/Actor.js:158-162 | the HP maximum grows by exactly the health bonus, the current HP becomes the smaller of itself and the new maximum, and nothing else in the block changes; the result is `EquipHp`, which the recalculation uses |
| Actor.CustomActor.RecalculateEquipmentBonuses | Actor/Actor.js:116-163 | the in-place equipment pass equals the equipment function of the old record |
| Actor.SumFeatBonuses | Actor/Actor.js:94-108 | the feat loop totals the bonuses of the enabled feats |
| Actor.AddBenefits | Actor/Actor.js:99-107 | the benefit loop adds each benefit's parsed bonus |
| Actor.CustomActor.ApplyFeatBonuses | Actor/Actor.js:92-114 | the in-place feat pass equals the feat function of the old record |
| Actor.CustomActor.PrepareDerivedData | Actor/Actor.js:71-90 | the whole derived pass equals the composed specification (class, resources, equipment, feats) |
| Actor.DeriveLayers | Actor/Actor.js:71-203 | with a class: attack = str mod + level/2 + equipment attack + feat attack; defense = 10 + dex mod + level/3 + equipment defense + feat defense; damage = str mod + max(0, equipment attack) + feat damage; HP max = class max + equipment health; current HP never exceeds the pre-equipment max |
| Actor.DeriveHpClamped | Actor/Actor.js:158-180 | after the pass, current HP never exceeds the maximum |
| Actor.DerivedStatsStable | Actor/Actor.js:170-188 | the class pass overwrites HP max and the combat block from scratch |
| Actor.EquipmentStable | Actor/Actor.js:147-162 | equipment bonuses and set counts are replaced wholesale, not merged |
| Actor.FeatsStable | Actor/Actor.js:109-113 | the stored feat bonuses do not influence a new feat pass |
| Actor.DeriveIdempotent | Actor/Actor.js:71-90 | with a class definition, running the pass twice gives the same record |
| Actor.DeriveAccumulatesWithoutClass | Actor/Actor.js:77-113 | without a class definition, a second pass adds the equipment and feat attack bonuses again |
| Feats.FirstMatchFromIsLeftmost | Actor/Actor.js:102 | the number read from a benefit is the leftmost `[+-]?\d+` match, and there is none only when no position matches |
| Feats.ReadsRenderedNumber | Actor/Actor.js:102-103 | a decimal number after non-digit text is read back exactly |
| Feats.DisabledFeatsIgnored | Actor/Actor.js:98 | feats explicitly disabled contribute nothing; a missing flag counts as enabled |
| Feats.EnabledFlagDecides | Actor/Actor.js:98 | a single "+n attack" feat gives n attack unless its flag is false |
| Feats.FeatTotalsAppend | Actor/Actor.js:96-108 | feat bonuses add up over concatenated feat lists |
| Feats.AttackBonusIsDefenseBonus | Actor/Actor.js:104-105 | any benefit that adds to attack adds the same amount to defense, because "attack" contains "ac" |
| Feats.AttackBenefit | Actor/Actor.js:101-106 | "+n attack" gives n attack, n defense and 0 damage |
| Schema.StatTotalLookup | Actor/Actor.js:126-127 | with distinct keys, a stat map contributes its numeric value for the key, 0 when absent or not a number |
| Resources.ClampPool | module/init.js:211-212 | a carried-over pool keeps the template max, takes min(new max, old value), and keeps template values for a missing key |
| Resources.MergedPoolsGet | module/init.js:209-226 | each sub-key of a shaped resource merges independently against the template |
| Resources.Merged | module/init.js:205-206 | the merge has exactly the template's keys, in order |
| Resources.MergedGet | module/init.js:206-229 | each template resource merges with the current resource of the same name |
| Resources.MergeAbsentKeepsTemplate | module/init.js:207-208 | a template resource missing from the current state is returned unchanged |
| Resources.MergeEntry | module/init.js:205-229 | only `.value` fields differ from the template; every max and every other field comes from the clone |
| Resources.MergeFlat | module/init.js:227-229 | for numeric flat resources, value = min(new max, old value) and everything else comes from the template |
| Resources.FlatExamples | module/init.js:227-229 | 3/5 merged into a 6-max template gives 3/6; into a 2-max template, 2/2 |
| Resources.MergePrecedence | module/init.js:209-227 | shape dispatch is slots, then abilities, then types, then flat; only the first matching shape changes |
| Resources.EntryStable | module/init.js:203-232 | merging an already merged resource against the same well-formed template changes nothing |
| Resources.MergeStable | module/init.js:203-232 | merging twice against the same well-formed template is the same as once |
| Resources.MergePools | module/init.js:210-214 | the sub-key loop computes the pool merge |
| Resources.MergeResources | module/init.js:203-232 | the in-place merge over a deep clone equals the merge function |
| Resources.OnCreateActor | module/init.js:168-182 | resources are initialised only for characters whose resources are missing or empty, and only when the builder exists |
| Resources.OnUpdateActor | module/init.js:185-201 | the merge runs exactly for characters whose update touches class, level or progression level |
| Resources.UpdateHookStable | module/init.js:185-201 | replaying the same update on the merged resources changes nothing |
| Tracker.Advance | module/applications/combat-tracker.js:109-115 | the next turn is the following index, stays in range, wraps to 0 exactly after the last combatant, and the round grows exactly then |
| Tracker.Retreat | module/applications/combat-tracker.js:131-136 | the previous turn stays in range: one index back with the round unchanged, or from 0 to the last index with the round max(1, round - 1), so it never drops below 1 |
| Tracker.RetreatUndoesAdvance | module/applications/combat-tracker.js:109-136 | going back undoes going forward |
| Tracker.AdvanceUndoesRetreat | module/applications/combat-tracker.js:109-136 | going forward undoes going back, except at turn 0 of round 1, where the round floor is hit |
| Tracker.FullRound | module/applications/combat-tracker.js:109-115 | n advances return to the same turn one round later |
| Tracker.CombatTracker.constructor | module/applications/combat-tracker.js:19-26 | a new tracker is empty and inactive, at turn 0 of round 1 |
| Tracker.CombatTracker.StartCombat | module/applications/combat-tracker.js:64-87 | refuses without combatants; otherwise applies the rolls, sorts by initiative descending (sorted, a permutation, and combatants with equal initiative keep their order) and starts at turn 0, round 1 |
| Tracker.CombatTracker.RollInitiative | module/applications/combat-tracker.js:456-465 | every combatant's initiative becomes its rolled total |
| Tracker.InitiativeOrder | module/applications/combat-tracker.js:76 | the initiative comparator is a total preorder, so the sort is well defined |
| Tracker.CombatTracker.EndCombat | module/applications/combat-tracker.js:89-99 | ending combat clears the combatants and resets to an inactive turn 0, round 1 |
| Tracker.CombatTracker.NextTurn | module/applications/combat-tracker.js:101-124 | does nothing when inactive or empty; otherwise runs end-of-turn effects for the current combatant, advances the clock, and expires effects when a round wraps |
| Tracker.CombatTracker.PreviousTurn | module/applications/combat-tracker.js:126-139 | does nothing when inactive or empty; otherwise steps the clock back |
| Tracker.CombatTracker.AddCombatant | module/applications/combat-tracker.js:180-194 | appends a combatant at full HP with the parsed max HP (default 20), bonus (0) and AC (10) |
| Tracker.WithoutId | module/applications/combat-tracker.js:218 | removal keeps exactly the combatants with other ids |
| Tracker.WithoutIdAppend | module/applications/combat-tracker.js:218 | removal from a concatenation is the concatenation of the removals, so the remaining combatants keep their turn order |
| Tracker.WithoutIdOne | module/applications/combat-tracker.js:218 | a single combatant stays exactly when its id differs |
| Tracker.RepairTurn | module/applications/combat-tracker.js:221-223 | the turn stays put when still valid, else becomes the last index, or 0 for an empty list |
| Tracker.CombatTracker.RemoveCombatant | module/applications/combat-tracker.js:205-228 | on confirmation, removes every entry with the id and repairs the turn |
| Tracker.FindIndex | module/applications/combat-tracker.js:235 | the lookup finds the first combatant with the id, or none exists |
| Tracker.CombatTracker.EditInitiative | module/applications/combat-tracker.js:230-282 | sets initiative to roll + bonus; when active, re-sorts and keeps the turn with the combatant whose turn it was (corrected, see Findings) |
| Tracker.Damaged | module/applications/combat-tracker.js:324 | HP after damage is exactly max(0, HP - d): at least both, equal to one; it never rises for d >= 0 and keeps 0 <= HP <= max; nothing else changes |
| Tracker.CombatTracker.Damage | module/applications/combat-tracker.js:284-339 | damages the first combatant with the id by the parsed amount (default 1); nothing else changes |
| Tracker.Healed | module/applications/combat-tracker.js:369 | HP after healing is exactly min(max, HP + h): at most both, equal to one; it never falls for h >= 0 and keeps the bounds; nothing else changes |
| Tracker.CombatTracker.Heal | module/applications/combat-tracker.js:341-379 | heals the first combatant with the id by the parsed amount (default 1) |
| Tracker.CombatTracker.AddStatus | module/applications/combat-tracker.js:381-437 | appends an effect recording the current round and the parsed duration (default 1) |
| Tracker.CombatTracker.RemoveStatus | module/applications/combat-tracker.js:439-454 | removes the indexed effect when it exists, otherwise nothing changes |
| Tracker.Expire | module/applications/combat-tracker.js:469-472 | an effect survives iff round - appliedRound < duration |
| Tracker.ExpireAppend | module/applications/combat-tracker.js:469-472 | expiry of a concatenation is the concatenation of the expiries, so the surviving effects keep their order |
| Tracker.ExpireOne | module/applications/combat-tracker.js:469-472 | a single effect stays exactly while round - appliedRound < duration |
| Tracker.EffectLifetime | module/applications/combat-tracker.js:423-472 | an effect added in round r with duration d is kept exactly while the round is before r + d |
| Tracker.CombatTracker.UpdateStatusEffects | module/applications/combat-tracker.js:467-474 | every combatant's effects are filtered by expiry |
| Tracker.AfterPoisonBounds | module/applications/combat-tracker.js:483-488 | poison ticks never take HP below 0 and never raise it when the damage is non-negative |
| Tracker.PoisonTicks | module/applications/combat-tracker.js:483-488 | the poison loop computes the poison function |
| Tracker.EndOfTurnBounded | module/applications/combat-tracker.js:476-496 | poison and regeneration keep HP within [0, max] and change nothing else |
| Tracker.CombatTracker.ProcessEndOfTurnEffects | module/applications/combat-tracker.js:476-496 | end-of-turn effects apply to the current combatant only |
| Tracker.FinalDamage | module/applications/combat-tracker.js:589-598 | resistance halves (floor), otherwise vulnerability doubles; resistance wins; non-negative damage stays within [0, 2d] |
| Tracker.Struck | module/applications/combat-tracker.js:600-610 | HP becomes HP - f when that is positive and 0 otherwise (0 exactly when f >= HP), and reaching 0 appends an unconscious effect (duration 999) |
| Tracker.CombatTracker.ApplyDamage | module/applications/combat-tracker.js:585-614 | returns the final damage for a known id, applies it, and changes nothing for an unknown id |
| Sheet.UnknownSlotIncompatible | module/sheets/character-sheet.js:402-418 | no item fits a slot outside the eleven known ones |
| Sheet.CompatibleIgnoresCase | module/sheets/character-sheet.js:416-417 | compatibility compares the lower-cased item type |
| Sheet.WeaponSlots | module/sheets/character-sheet.js:412-414 | "weapon" items fit exactly the main-hand, off-hand and ranged slots |
| Sheet.ArmorSlots | module/sheets/character-sheet.js:404-407 | "armor" items fit exactly head, chest, legs and feet |
| Sheet.AccessorySlots | module/sheets/character-sheet.js:408-411 | "accessory" items fit exactly the rings, the trinket and the magic item slot |
| Sheet.Step | module/sheets/character-sheet.js:255-260 | increase iff below max, decrease iff above 0; a refused press (increase at or above max or without one, decrease at or below 0) leaves the value unchanged, as does any other action; a value in [0, max] stays there |
| Sheet.StepUndo | module/sheets/character-sheet.js:255-260 | inside the bounds, increase then decrease (or the reverse) restores the value |
| Sheet.CharacterSheet.constructor | module/sheets/character-sheet.js:640-642 | a new sheet has not applied preferred equipment yet |
| Sheet.CharacterSheet.ResourceChange | module/sheets/character-sheet.js:245-265 | the named resource's value is stepped and nothing else changes |
| Sheet.LevelledMax | module/sheets/character-sheet.js:290 | the new maximum is base + floor(level/2), capped at 20 |
| Sheet.RefilledGet | module/sheets/character-sheet.js:286-293 | every class resource gets the levelled maximum and is refilled to it; other resources are untouched |
| Sheet.LevelUpRefills | module/sheets/character-sheet.js:288-293 | after level-up every class resource is full and its max is at most 20 |
| Sheet.CharacterSheet.LevelUp | module/sheets/character-sheet.js:267-299 | refuses, changing nothing, when the next level has no progression entry; otherwise raises the level and refills the class resources |
| Sheet.Compatibles | module/sheets/character-sheet.js:536-539 | the candidates are exactly the compatible inventory items |
| Sheet.CollectItems | module/sheets/character-sheet.js:535-538 | the flattening loop lists every inventory item in category order |
| Sheet.ScoreOrder | module/sheets/character-sheet.js:549 | the score comparator is a total preorder |
| Sheet.BestIsMaximal | module/sheets/character-sheet.js:539-550 | nothing is chosen iff no item is compatible; otherwise the choice is a compatible inventory item with maximal score |
| Sheet.CharacterSheet.AutoEquip | module/sheets/character-sheet.js:531-562 | with no candidate nothing changes; otherwise the best item is equipped in the slot and recorded as preferred by id or name |
| Sheet.FindIn | module/sheets/character-sheet.js:652 | the search returns the first item matching the preference by id or name, or none matches |
| Sheet.FindInAppend | module/sheets/character-sheet.js:650-654 | searching two lists in turn finds what searching their concatenation finds |
| Sheet.FindPreferredFirst | module/sheets/character-sheet.js:649-655 | the category-by-category search returns the first match of the whole inventory; a result is an inventory item, and no result means no item of any category has that id or name |
| Sheet.FillKeepsOccupied | module/sheets/character-sheet.js:647-658 | occupied slots never change; a changed slot was empty and now holds a compatible item |
| Sheet.FillOnlyPreferred | module/sheets/character-sheet.js:647-658 | a slot without a preference is untouched |
| Sheet.FillTakesPreferred | module/sheets/character-sheet.js:647-658 | a changed slot holds exactly the item the search for that slot's preference found |
| Sheet.FillFillsEmpty | module/sheets/character-sheet.js:647-658 | an empty slot whose preference finds a compatible item is filled with that item |
| Sheet.FillUnchanged | module/sheets/character-sheet.js:646-660 | when nothing is reported changed, the equipment is unchanged |
| Sheet.CharacterSheet.ApplyPreferredEquipment | module/sheets/character-sheet.js:640-661 | runs at most once per sheet; the slot loop fills empty slots from the preferences |
| Sheet.DeltasSumToScoreChange | module/sheets/character-sheet.js:460-468 | the per-stat deltas add up to the change in score |
| Sheet.DeltasAntisymmetric | module/sheets/character-sheet.js:425-433 | swapping the items negates every delta; comparing an item with itself gives zeros |
| Sheet.SetDescriptions | module/sheets/character-sheet.js:65-73 | one description per counted set, with its name and count |
| Sheet.RowsOrdered | module/sheets/character-sheet.js:67-71 | threshold rows are ascending, each is active iff count >= threshold, and the active rows form a prefix |
| Sheet.RowsCoverThresholds | module/sheets/character-sheet.js:67-71 | every row is a threshold of the set with that threshold's description, and every threshold has a row |
| Sheet.CategoryFor | module/sheets/character-sheet.js:342 | an existing item category wins; otherwise weapon goes to "weapons", armor to "armor", consumable to "consumables" and any other type to "equipment" |
| Sheet.NewItem | module/sheets/character-sheet.js:343-354 | the copy keeps the item's id (or takes the fresh one when empty), quantity (1 when 0), type ("equipment" when empty), name, stats, weight, value and description; it is unequipped, in its category, without a set tag |
| Sheet.CharacterSheet.AddItemToActor | module/sheets/character-sheet.js:338-360 | the normalised item is appended to its category, which is created if missing |
| Sheet.AddedItemLands | module/sheets/character-sheet.js:338-357 | the copy ends its category's list, other categories are unchanged, and the carried weight grows by the copy's weight |
| Compendium.Where | module/compendium-loader.js:89-109 | a filter keeps exactly the listings that pass it |
| Compendium.WhereAppend | module/compendium-loader.js:89-109 | filtering a concatenation filters each part, so the kept listings stay in order |
| Compendium.WhereOne | module/compendium-loader.js:89-109 | a single listing is kept exactly when it passes |
| Compendium.GetItemsSpec | module/compendium-loader.js:73-111 | an unknown category or subcategory gives []; otherwise a listing is returned iff it is in that subcategory and passes the search and the active filters |
| Compendium.FilteredSubset | module/compendium-loader.js:89-109 | filtering only removes items |
| Compendium.GetItem | module/compendium-loader.js:116-130 | an item is found iff its id is a key of the subcategory; it is that entry, tagged with its category |
| Compendium.GetItemListed | module/compendium-loader.js:116-130 | a single item is among the unfiltered items of its subcategory |
| Compendium.ListingsOf | module/compendium-loader.js:139-141 | the traversal reaches exactly the listings stored under their own category and subcategory |
| Compendium.SelectedMembers | module/compendium-loader.js:142-168 | the search keeps exactly the listings that hit the term and pass the filters |
| Compendium.SearchAllAgreesWithGetItems | module/compendium-loader.js:135-175 | with a non-empty term, searching everything gives the same listings as querying each subcategory |
| Compendium.SearchAll | module/compendium-loader.js:135-175 | the triple loop returns the selected listings in traversal order |
| Compendium.SearchCategory | module/compendium-loader.js:140-171 | one category's loop adds its selected listings |
| Compendium.SearchEntries | module/compendium-loader.js:141-169 | one subcategory's loop adds its selected listings |
| Compendium.CollectAllSpec | module/compendium-loader.js:186-194 | the seen rarities, levels and types are duplicate-free and are exactly the truthy values present |
| Compendium.RarityOptions | module/compendium-loader.js:196-197 | rarity options are "all", then the distinct rarities, sorted |
| Compendium.TypeOptions | module/compendium-loader.js:196-199 | type options are "all", then the distinct types, sorted |
| Compendium.LevelOptions | module/compendium-loader.js:190-198 | level options are "all", then the distinct non-zero levels in strictly ascending numeric order |
| Compendium.GetFilterOptions | module/compendium-loader.js:180-201 | the loops and sets produce the options of all listings |
| Compendium.CountIsListings | module/compendium-loader.js:245-255 | a category's count is the number of its listings |
| Compendium.CategoryCount | module/compendium-loader.js:245-255 | a missing category counts 0; otherwise the sum of its subcategory sizes |
| Compendium.LoadWindow | module/compendium-loader.js:7-31 | after a successful fetch at t, every load before t + five minutes serves that data without fetching, and the first load from then on fetches again |
| Compendium.Cache.constructor | module/compendium-loader.js:6-7 | the cache starts empty with load time 0 |
| Compendium.Cache.Load | module/compendium-loader.js:14-38 | fresh cache: return it unchanged; otherwise a successful fetch is cached with its time, and a failure returns {} and leaves the cache alone; the step is `Loaded` |
| Compendium.Cache.Clear | module/compendium-loader.js:206-209 | after clearing, the cache is never fresh |
| Compendium.Cache.Import | module/compendium-loader.js:222-233 | a parse succeeds iff the data replaces the cache, stamped now and fresh; a failure changes nothing |
| Inventory.CapacityPerPoint | module/applications/inventory-manager.js:51-54 | capacity is 0 without strength and each strength point adds 15 |
| Inventory.CapacityMonotone | module/applications/inventory-manager.js:51-54 | more strength never lowers capacity |
| Inventory.CurrentWeight | module/applications/inventory-manager.js:56-64 | the nested loops sum weight * (quantity or 1) over every item |
| Inventory.AppendedWeight | module/applications/inventory-manager.js:167-176 | adding an item raises the total weight by exactly that item's weight |
| Inventory.AppendedGet | module/applications/inventory-manager.js:169-176 | the item is appended to its category, created if missing; other categories are untouched |
| Inventory.DialogItem | module/applications/inventory-manager.js:147-156 | a dialog item has the given id, name, description and category, is unequipped, keeps a parsed non-zero quantity (else 1), and a parsed non-zero weight and value (else 0) |
| Inventory.Without | module/applications/inventory-manager.js:205 | removal keeps exactly the items with other ids |
| Inventory.WithoutAppend | module/applications/inventory-manager.js:205 | removal from a concatenation is the concatenation of the removals, so the remaining items keep their order |
| Inventory.WithoutOne | module/applications/inventory-manager.js:205 | a single item stays exactly when its id differs |
| Inventory.WithoutWeight | module/applications/inventory-manager.js:205 | removal takes off exactly the weight of the removed items |
| Inventory.ToggleTwice | module/applications/inventory-manager.js:230-232 | equipping twice restores the category |
| Inventory.ToggleWeight | module/applications/inventory-manager.js:232 | equipping does not change the weight |
| Inventory.RemoveAndToggleWeight | module/applications/inventory-manager.js:200-236 | over the whole inventory, removal lowers the weight by the removed items and toggling keeps it |
| Inventory.CurrencySingleKey | module/applications/inventory-manager.js:255-259 | a currency change sets only that coin, to the parsed value or 0, starting from gold/silver/copper 0 when absent |
| Inventory.InventoryManager.constructor | module/applications/inventory-manager.js:19-23 | a new manager has no selected item |
| Inventory.InventoryManager.SelectItem | module/applications/inventory-manager.js:86-99 | selecting a known item records it with its category; an unknown one changes nothing |
| Inventory.InventoryManager.AddItemToInventory | module/applications/inventory-manager.js:167-184 | the item is appended to its category, starting from the default inventory when none exists |
| Inventory.InventoryManager.RemoveItem | module/applications/inventory-manager.js:186-215 | with a selection, a confirmation and its category present, removes every item with the selected id and clears the selection; otherwise nothing changes |
| Inventory.InventoryManager.EquipItem | module/applications/inventory-manager.js:217-249 | toggles the selected item's equipped flag in the inventory and in the selection when it is found; otherwise nothing changes |
| Inventory.InventoryManager.CurrencyChange | module/applications/inventory-manager.js:251-264 | the currency record gets the one changed coin |
| Sorting.SortBySorted | module/applications/combat-tracker.js:76 | sorting with a total preorder yields a sorted sequence |
| Sorting.SortByPerm | module/applications/combat-tracker.js:76 | sorting is a permutation |
| Sorting.SortByStable | module/applications/combat-tracker.js:76 | elements the comparator ranks equal come out in their input order |

## Left out

- Rendering, dialogs, HTML tables and notifications are not modelled. Dialog results are parameters.
- Host persistence is modelled as a direct state change. This covers `actor.update`, the `createActor` and `updateActor` hooks' writes, and the `try`/`catch` around them.
- Dice rolls become given totals:
  - `_rollInitiative` takes the rolls as a parameter;
  - `rollAttack`, `rollDamage` and `rollSavingThrow` are not modelled;
  - neither is `rollBulkInitiative` (module/applications/combat-tracker.js:654-669), which rolls initiative for chosen ids and re-sorts.
- Start-of-turn effects and the timed auto-skip are not modelled (module/applications/combat-tracker.js:498-522). They are notices plus a `setTimeout` that calls the next-turn handler.
- The notices of `_processRoundEnd` are not modelled (module/applications/combat-tracker.js:524-546). Its one state change, expiring status effects, is modelled in `NextTurn`.
- `module/resources/tracker.js` is not part of this model. Its resource builder `game.resources.initializeActorResources` is an input to the hooks.
- `fetch`, `JSON.parse` and `Date.now` are parameters:
  - a failed fetch or parse is `None`;
  - the time is an integer in milliseconds.
- `getCategories`, `getSubcategories`, `_capitalize` and `exportData` of the compendium loader are presentation helpers and are not modelled.
- `getData` of the tracker and the inventory manager is not modelled. This covers the current combatant, the next combatant and the weight percentages, which are floating point.
- JavaScript numbers are modelled as unbounded integers. Where the source parses with `parseInt(x) || d` or reads `Number(v) || 0`, an unparsable value (NaN) gives the default, as in the source. Fields the source reads with a plain `x || d` (such as an item's weight and quantity) are integers in the model; a truthy non-number there, which would make the source's arithmetic NaN, is not modelled.
- Item weights are integers (tenths of a pound); the source parses them with `parseFloat`.
- Compendium levels are integers. The level filter compares their decimal rendering with the filter string.
- Set-bonus thresholds are integer keys; non-numeric threshold keys are not modelled.
- A threshold without `desc` shows its stats through `JSON.stringify`. The model gives such a row no description.
- Lower-casing is ASCII only. JavaScript's Unicode `toLowerCase` is not modelled.
- Object aliasing is not modelled: combatants and items are values.
  - The source mutates a combatant found with `find`, so it changes the first entry with that id; so does the model.
  - An item reached from two places is not modelled.
- A prototype key used as a slot name (such as "toString") makes `_isItemCompatibleWithSlot` throw. The model treats it as an unknown slot.
- Actor.CustomActor.PrepareDerivedData: requires a combat block, and an attributes block when the class is known. The source throws without them. Base preparation always supplies both.
- Actor.CustomActor.CalculateDerivedStats, Actor.CustomActor.RecalculateEquipmentBonuses and Actor.CustomActor.ApplyFeatBonuses require the blocks they write to, for the same reason.
- Actor.Normalize: `notes`, `resources`, `unlockedFeatures`, `availableSpells` and `feats` default to empty values. Their empty model default is the same as absence, so the model does not change them.
- Inventory.InventoryManager.RemoveItem: when the inventory or the selected category is missing, the source throws. The model changes nothing.
- Inventory.InventoryManager.EquipItem: when the inventory or the selected category is missing, the source throws. The model changes nothing.
- Resources.MergeStable: requires every template entry to have at most one shape, with distinct sub-keys, and every template value at most its maximum. A template value above its maximum survives a first merge that has no current entry for it, and the second merge clamps it. A template holding two shapes merges only the first, so a second merge can differ.
- Resources.OnUpdateActor: the hook does nothing when the builder is missing. The model returns `None` for "no write" in that case.
- Compendium.SearchAllAgreesWithGetItems: the term must be non-empty. With an empty term `getItems` skips the text search, while `searchAll` still needs a name, description or type to be present. It also requires distinct keys, which JavaScript objects always have.
- Tracker.CombatTracker.StartCombat: takes one roll per combatant. The roll itself is not modelled.
- Sheet.StatValue: a stat that is not a number is read as 0. The sheet's `Number(stats[k] || 0)` gives `NaN` there, which then makes `Score`, the deltas of `Deltas` and the auto-equip sort order differ from the model.
- Strings are sequences of code points. JavaScript compares and measures strings in UTF-16 code units, which differ outside the Basic Multilingual Plane.
- Object key order is insertion order throughout. JavaScript lists integer-like keys first, in ascending order; the model does not.
- Compendium item ids: both `getItems` and `getItem` spread the item after `id`, so an item's own `id` field wins over its key. The model follows the code.

## Findings

| source | as written | input that shows it | evidently intended | confidence | as-written member | corrected member |
|---|---|---|---|---|---|---|
| module/applications/combat-tracker.js:270-271 | after editing an initiative during combat, the turn moves to the edited combatant's new position | combatants a (20), b (15), c (10) with a to act; c's initiative is edited to 25; the order becomes c, a, b, and the turn goes to c instead of a | the turn stays with the combatant whose turn it was (the comment says "current combatant") | not executed | Tracker.EditInitiativeMovesTurn | Tracker.CombatTracker.EditInitiative |
