/** The rules inside the character sheet of
    `module/sheets/character-sheet.js`: which item types fit which equipment
    slot, the resource +/- buttons, level-up resource scaling, auto-equip,
    the one-time preferred-equipment fill, the set-bonus summary, the
    stat-delta preview and how a dropped item enters the inventory.

    Every `actor.update` is a direct change of the actor's record; the
    re-derivation and hooks that the host runs after an update are modelled
    in their own modules. */
module Sheet {
  import opened Common
  import opened Schema
  import opened Sorting
  import opened Actor
  import opened Inventory

  // ---------------------------------------------------------------------------
  // Slot compatibility (_isItemCompatibleWithSlot)

  /** The item types each slot accepts; an unknown slot accepts none. */
  function AllowList(slot: string): seq<string> {
    if slot == "head" then ["armor", "helmet", "head"]
    else if slot == "chest" then ["armor", "chest", "chestplate"]
    else if slot == "legs" then ["armor", "legs", "greaves"]
    else if slot == "feet" then ["armor", "feet", "boots"]
    else if slot == "ring1" || slot == "ring2" then ["accessory", "ring"]
    else if slot == "trinket1" then ["accessory", "trinket"]
    else if slot == "magicItem" then ["magic", "accessory", "trinket", "magic"]
    else if slot == "mainHand" then ["weapon", "sword", "axe", "mace", "staff", "wand"]
    else if slot == "offHand" then ["weapon", "shield", "sword", "axe", "mace", "staff", "wand"]
    else if slot == "ranged" then ["weapon", "bow", "crossbow", "gun", "ranged"]
    else []
  }

  predicate Compatible(item: Item, slot: string) {
    ToLower(item.itemType) in AllowList(slot)
  }

  /** A slot outside the eleven equipment slots accepts nothing. */
  lemma UnknownSlotIncompatible(item: Item, slot: string)
    requires slot !in EquipmentSlots
    ensures !Compatible(item, slot)
  {
    assert AllowList(slot) == [];
  }

  lemma LowerIdempotent(s: string)
    ensures ToLower(ToLower(s)) == ToLower(s)
  {
    assert forall i :: 0 <= i < |s| ==> LowerChar(LowerChar(s[i])) == LowerChar(s[i]);
  }

  /** Compatibility does not depend on the case of the item type. */
  lemma CompatibleIgnoresCase(item: Item, slot: string)
    ensures Compatible(item.(itemType := ToLower(item.itemType)), slot) == Compatible(item, slot)
  {
    LowerIdempotent(item.itemType);
  }

  /** Weapons go to the two hands and the ranged slot. */
  lemma WeaponSlots(slot: string)
    ensures "weapon" in AllowList(slot) <==> slot == "mainHand" || slot == "offHand" || slot == "ranged"
  {
  }

  /** Armor goes to the four body slots. */
  lemma ArmorSlots(slot: string)
    ensures "armor" in AllowList(slot) <==> slot == "head" || slot == "chest" || slot == "legs" || slot == "feet"
  {
  }

  /** Accessories go to the rings, the trinket and the magic item. */
  lemma AccessorySlots(slot: string)
    ensures "accessory" in AllowList(slot) <==>
              slot == "ring1" || slot == "ring2" || slot == "trinket1" || slot == "magicItem"
  {
  }

  // ---------------------------------------------------------------------------
  // Resource buttons (_onResourceChange)

  /** One press of `+` or `-`: up only below the maximum, down only above 0.
      A missing value (or maximum) makes the comparison false. */
  function Step(value: Option<int>, max: Option<int>, action: string): (r: Option<int>)
    ensures r.Some? == value.Some?
    ensures value.Some? ==> value.value - 1 <= r.value <= value.value + 1
    ensures value.Some? && action == "increase" ==>
              (r.value == value.value + 1 <==> max.Some? && value.value < max.value)
    ensures value.Some? && action == "decrease" ==> (r.value == value.value - 1 <==> value.value > 0)
    ensures value.Some? && action == "increase" && !(max.Some? && value.value < max.value) ==> r == value
    ensures value.Some? && action == "decrease" && value.value <= 0 ==> r == value
    ensures action != "increase" && action != "decrease" ==> r == value
    ensures value.Some? && max.Some? && 0 <= value.value <= max.value ==> 0 <= r.value <= max.value
  {
    if value.None? then value
    else if action == "increase" && max.Some? && value.value < max.value then Some(value.value + 1)
    else if action == "decrease" && value.value > 0 then Some(value.value - 1)
    else value
  }

  /** Below the maximum, `-` undoes `+`; above 0, `+` undoes `-`. */
  lemma StepUndo(v: int, max: int)
    ensures 0 <= v < max ==> Step(Step(Some(v), Some(max), "increase"), Some(max), "decrease") == Some(v)
    ensures 0 < v <= max ==> Step(Step(Some(v), Some(max), "decrease"), Some(max), "increase") == Some(v)
  {
  }

  function WithStep(s: SystemData, name: string, action: string): SystemData {
    match Get(s.resources, name)
    case None => s
    case Some(r) => s.(resources := Put(s.resources, name, r.(value := Step(r.value, r.max, action))))
  }

  // ---------------------------------------------------------------------------
  // Level-up (_onLevelUp)

  /** `Math.min(20, max + Math.floor(newLevel / 2))` */
  function LevelledMax(base: int, newLevel: int): (r: int)
    ensures r <= 20
    ensures r == 20 || r == base + newLevel / 2
    ensures r <= base + newLevel / 2
  {
    Min(20, base + newLevel / 2)
  }

  /** Writing `resources.<name>.max` and `.value`: an absent resource comes
      into being with just these two fields. */
  function Refill(cur: Option<Resource>, m: int): Resource {
    match cur
    case None => Resource("", "", Some(m), Some(m), None, None, None)
    case Some(r) => r.(max := Some(m), value := Some(m))
  }

  /** The resources after the level-up updates, class resource by class resource. */
  function Refilled(res: Dict<Resource>, cls: Dict<ClassResource>, newLevel: int): Dict<Resource> {
    if cls == [] then res
    else
      var prev := Refilled(res, cls[..|cls| - 1], newLevel);
      var e := cls[|cls| - 1];
      Put(prev, e.key, Refill(Get(prev, e.key), LevelledMax(e.val.max, newLevel)))
  }

  /** Every class resource is refilled to its new maximum; every other
      resource is unchanged. */
  lemma {:induction false} RefilledGet(res: Dict<Resource>, cls: Dict<ClassResource>, newLevel: int, k: string)
    requires DistinctKeys(cls)
    ensures Get(Refilled(res, cls, newLevel), k) ==
            match Get(cls, k)
            case None => Get(res, k)
            case Some(c) => Some(Refill(Get(res, k), LevelledMax(c.max, newLevel)))
  {
    if cls != [] {
      var init := cls[..|cls| - 1];
      var e := cls[|cls| - 1];
      var prev := Refilled(res, init, newLevel);
      assert DistinctKeys(init);
      RefilledGet(res, init, newLevel, k);
      GetPut(prev, e.key, Refill(Get(prev, e.key), LevelledMax(e.val.max, newLevel)), k);
      if e.key == k {
        assert !HasKey(init, k);
        RefilledGet(res, init, newLevel, k);
        IndexOfFirst(cls, k, |cls| - 1);
      } else {
        GetInitOther(cls, k);
      }
    }
  }

  /** Looking up a key other than the last entry's ignores the last entry. */
  lemma GetInitOther<V>(d: Dict<V>, k: string)
    requires d != [] && d[|d| - 1].key != k
    ensures Get(d, k) == Get(d[..|d| - 1], k)
  {
    var init := d[..|d| - 1];
    match IndexOf(init, k)
    case Some(m) =>
      IndexOfFirst(d, k, m);
    case None =>
      assert !HasKey(d, k) by {
        forall m | 0 <= m < |d| ensures d[m].key != k {
          if m < |init| { assert d[m] == init[m]; }
        }
      }
  }

  /** Level-up refused without a class definition or without a progression
      entry for the next level. */
  predicate CanLevelUp(s: SystemData, catalog: map<string, ClassInfo>) {
    s.className in catalog && s.level + 1 in catalog[s.className].progressionLevels
  }

  function LevelledUp(s: SystemData, ci: ClassInfo): SystemData {
    s.(level := s.level + 1, resources := Refilled(s.resources, ci.resources, s.level + 1))
  }

  /** After a level-up no class resource exceeds 20 and each is full. */
  lemma LevelUpRefills(s: SystemData, ci: ClassInfo, k: string)
    requires DistinctKeys(ci.resources) && HasKey(ci.resources, k)
    ensures Get(LevelledUp(s, ci).resources, k).Some?
    ensures Get(LevelledUp(s, ci).resources, k).value.max == Get(LevelledUp(s, ci).resources, k).value.value
    ensures Get(LevelledUp(s, ci).resources, k).value.max.Some?
    ensures Get(LevelledUp(s, ci).resources, k).value.max.value <= 20
  {
    RefilledGet(s.resources, ci.resources, s.level + 1, k);
  }

  // ---------------------------------------------------------------------------
  // Item scores, auto-equip and the delta preview

  /** `Number(stats[k] || 0)` for a value that is a number or missing; a
      stat that is not a number (where the sheet would get `NaN`) is taken
      as 0 here. */
  function StatValue(item: Option<Item>, k: string): int {
    if item.None? then 0
    else match Get(item.value.stats, k)
      case None => 0
      case Some(v) => NumberOr0(v)
  }

  /** Sum of the item's values over `keys`. */
  function SumStats(keys: seq<string>, item: Option<Item>): int {
    if keys == [] then 0 else SumStats(keys[..|keys| - 1], item) + StatValue(item, keys[|keys| - 1])
  }

  /** The auto-equip score: the sum over the ten stat keys, missing ones 0. */
  function Score(item: Item): int {
    SumStats(StatKeys, Some(item))
  }

  function ScoreFirst(a: Item, b: Item): bool {
    Score(a) >= Score(b)
  }

  /** `Object.values(inventory)` flattened in category order. */
  function AllItems(inv: Dict<seq<Item>>): seq<Item> {
    if inv == [] then [] else AllItems(inv[..|inv| - 1]) + inv[|inv| - 1].val
  }

  function Compatibles(items: seq<Item>, slot: string): (r: seq<Item>)
    ensures forall it :: it in r <==> it in items && Compatible(it, slot)
  {
    if items == [] then []
    else (if Compatible(items[0], slot) then [items[0]] else []) + Compatibles(items[1..], slot)
  }

  /** The item auto-equip picks: the head of the candidates sorted by score,
      highest first. */
  function BestFor(items: seq<Item>, slot: string): Option<Item> {
    var cs := Compatibles(items, slot);
    if cs == [] then None else
      var sorted := SortBy(cs, ScoreFirst);
      if sorted == [] then None else Some(sorted[0])
  }

  lemma ScoreOrder()
    ensures TotalPreorder(ScoreFirst)
  {
  }

  /** Auto-equip finds an item exactly when the inventory holds a compatible
      one, and the item it finds is compatible, held, and scores at least as
      high as every compatible item. */
  lemma BestIsMaximal(items: seq<Item>, slot: string)
    ensures BestFor(items, slot).None? <==> forall it :: it in items ==> !Compatible(it, slot)
    ensures BestFor(items, slot).Some? ==>
              && BestFor(items, slot).value in items
              && Compatible(BestFor(items, slot).value, slot)
              && forall it :: it in items && Compatible(it, slot) ==> Score(it) <= Score(BestFor(items, slot).value)
  {
    var cs := Compatibles(items, slot);
    if cs != [] {
      var sorted := SortBy(cs, ScoreFirst);
      ScoreOrder();
      SortByPerm(cs, ScoreFirst);
      SortBySorted(cs, ScoreFirst);
      SortByMembers(cs, ScoreFirst, sorted[0]);
      forall it | it in items && Compatible(it, slot) ensures Score(it) <= Score(sorted[0]) {
        SortByMembers(cs, ScoreFirst, it);
        var j :| 0 <= j < |sorted| && sorted[j] == it;
        if j > 0 {
          assert ScoreFirst(sorted[0], sorted[j]);
        }
      }
    } else {
      assert forall it :: it in items ==> !Compatible(it, slot) by {
        forall it | it in items ensures !Compatible(it, slot) {
          assert it !in cs;
        }
      }
    }
  }

  /** The stat rows of the equip preview: per stat key, new minus current,
      missing stats (or a missing item) reading 0. */
  function Deltas(cur: Option<Item>, nxt: Option<Item>): (r: seq<int>)
    ensures |r| == |StatKeys|
  {
    seq(|StatKeys|, i requires 0 <= i < |StatKeys| => StatValue(nxt, StatKeys[i]) - StatValue(cur, StatKeys[i]))
  }

  function Sum(xs: seq<int>): int {
    if xs == [] then 0 else Sum(xs[..|xs| - 1]) + xs[|xs| - 1]
  }

  lemma {:induction false} SumDeltasPrefix(cur: Option<Item>, nxt: Option<Item>, n: nat)
    requires n <= |StatKeys|
    ensures Sum(Deltas(cur, nxt)[..n]) == SumStats(StatKeys[..n], nxt) - SumStats(StatKeys[..n], cur)
  {
    if n > 0 {
      SumDeltasPrefix(cur, nxt, n - 1);
      var d := Deltas(cur, nxt);
      var keys := StatKeys[..n];
      assert d[..n][..n - 1] == d[..n - 1];
      assert keys[..n - 1] == StatKeys[..n - 1];
      assert Sum(d[..n]) == Sum(d[..n - 1]) + d[n - 1];
      assert SumStats(keys, nxt) == SumStats(StatKeys[..n - 1], nxt) + StatValue(nxt, StatKeys[n - 1]);
      assert SumStats(keys, cur) == SumStats(StatKeys[..n - 1], cur) + StatValue(cur, StatKeys[n - 1]);
    }
  }

  /** The preview's deltas add up to the change in auto-equip score. */
  lemma DeltasSumToScoreChange(cur: Item, nxt: Item)
    ensures Sum(Deltas(Some(cur), Some(nxt))) == Score(nxt) - Score(cur)
  {
    SumDeltasPrefix(Some(cur), Some(nxt), |StatKeys|);
    assert Deltas(Some(cur), Some(nxt))[..|StatKeys|] == Deltas(Some(cur), Some(nxt));
    assert StatKeys[..|StatKeys|] == StatKeys;
  }

  /** Swapping the two items negates every row; an item against itself shows no change. */
  lemma DeltasAntisymmetric(a: Option<Item>, b: Option<Item>)
    ensures forall i :: 0 <= i < |StatKeys| ==> Deltas(a, b)[i] == -Deltas(b, a)[i]
    ensures forall i :: 0 <= i < |StatKeys| ==> Deltas(a, a)[i] == 0
  {
  }

  // ---------------------------------------------------------------------------
  // Preferred equipment (_applyPreferredEquipment)

  predicate Matches(it: Item, pref: string) {
    it.id == pref || it.name == pref
  }

  /** `items.find(...)`: the first item matching by id or name. */
  function FindIn(items: seq<Item>, pref: string): (r: Option<Item>)
    ensures r.Some? ==> exists i :: 0 <= i < |items| && items[i] == r.value && Matches(items[i], pref)
                          && forall j :: 0 <= j < i ==> !Matches(items[j], pref)
    ensures r.None? ==> forall it :: it in items ==> !Matches(it, pref)
  {
    if items == [] then None
    else if Matches(items[0], pref) then Some(items[0])
    else
      var r := FindIn(items[1..], pref);
      if r.Some? then
        var i :| 0 <= i < |items[1..]| && items[1..][i] == r.value && Matches(items[1..][i], pref)
                 && forall j :: 0 <= j < i ==> !Matches(items[1..][j], pref);
        assert items[i + 1] == r.value && forall j :: 0 <= j < i + 1 ==> !Matches(items[j], pref) by {
          forall j | 0 < j < i + 1 ensures !Matches(items[j], pref) {
            assert items[j] == items[1..][j - 1];
          }
        }
        r
      else r
  }

  /** Searching a concatenation: a match in the first part wins. */
  lemma {:induction false} FindInAppend(a: seq<Item>, b: seq<Item>, pref: string)
    ensures FindIn(a + b, pref) == if FindIn(a, pref).Some? then FindIn(a, pref) else FindIn(b, pref)
  {
    if a != [] {
      assert (a + b)[1..] == a[1..] + b;
      FindInAppend(a[1..], b, pref);
    } else {
      assert a + b == b;
    }
  }

  /** The first category holding a match decides; its first match is taken. */
  function FindPreferred(inv: Dict<seq<Item>>, pref: string): (r: Option<Item>)
    ensures r.Some? ==> Matches(r.value, pref)
  {
    if inv == [] then None
    else match FindIn(inv[0].val, pref)
      case Some(it) => Some(it)
      case None => FindPreferred(inv[1..], pref)
  }

  lemma {:induction false} AllItemsCons(inv: Dict<seq<Item>>)
    requires inv != []
    ensures AllItems(inv) == inv[0].val + AllItems(inv[1..])
  {
    if |inv| == 1 {
      assert inv[..0] == [] && inv[1..] == [];
    } else {
      var init := inv[..|inv| - 1];
      assert init[0] == inv[0] && init[1..] == inv[1..][..|inv[1..]| - 1];
      AllItemsCons(init);
      assert inv[1..][|inv[1..]| - 1] == inv[|inv| - 1];
    }
  }

  /** The category-by-category search finds the first match of the flattened
      inventory: it comes from the inventory, and no match means no item of
      any category has that id or name. */
  lemma {:induction false} FindPreferredFirst(inv: Dict<seq<Item>>, pref: string)
    ensures FindPreferred(inv, pref) == FindIn(AllItems(inv), pref)
    ensures FindPreferred(inv, pref).Some? ==> FindPreferred(inv, pref).value in AllItems(inv)
    ensures FindPreferred(inv, pref).None? ==> forall it :: it in AllItems(inv) ==> !Matches(it, pref)
  {
    if inv != [] {
      AllItemsCons(inv);
      FindInAppend(inv[0].val, AllItems(inv[1..]), pref);
      FindPreferredFirst(inv[1..], pref);
    }
  }

  /** `equipment[slot]` is truthy: the slot holds an item. */
  predicate Occupied(eq: Dict<Option<Item>>, slot: string) {
    Get(eq, slot).Some? && Get(eq, slot).value.Some?
  }

  datatype Fill = Fill(equipment: Dict<Option<Item>>, changed: bool)

  /** The fill loop over the preferred entries in order. */
  function FillPreferred(eq: Dict<Option<Item>>, prefs: Dict<string>, inv: Dict<seq<Item>>): Fill {
    if prefs == [] then Fill(eq, false)
    else
      var prev := FillPreferred(eq, prefs[..|prefs| - 1], inv);
      var slot := prefs[|prefs| - 1].key;
      var found := FindPreferred(inv, prefs[|prefs| - 1].val);
      if Occupied(prev.equipment, slot) then prev
      else if found.Some? && Compatible(found.value, slot) then Fill(Put(prev.equipment, slot, found), true)
      else prev
  }

  /** The fill never touches an occupied slot, and a slot it changes was
      empty and now holds a compatible item. */
  lemma {:induction false} FillKeepsOccupied(eq: Dict<Option<Item>>, prefs: Dict<string>, inv: Dict<seq<Item>>, slot: string)
    ensures Occupied(eq, slot) ==> Get(FillPreferred(eq, prefs, inv).equipment, slot) == Get(eq, slot)
    ensures Get(FillPreferred(eq, prefs, inv).equipment, slot) != Get(eq, slot) ==>
              && !Occupied(eq, slot)
              && Occupied(FillPreferred(eq, prefs, inv).equipment, slot)
              && Compatible(Get(FillPreferred(eq, prefs, inv).equipment, slot).value.value, slot)
  {
    if prefs != [] {
      var init := prefs[..|prefs| - 1];
      var prev := FillPreferred(eq, init, inv);
      var s := prefs[|prefs| - 1].key;
      var found := FindPreferred(inv, prefs[|prefs| - 1].val);
      FillKeepsOccupied(eq, init, inv, slot);
      if !Occupied(prev.equipment, s) && found.Some? && Compatible(found.value, s) {
        GetPut(prev.equipment, s, found, slot);
      }
    }
  }

  /** A slot without a preference is left as it was. */
  lemma {:induction false} FillOnlyPreferred(eq: Dict<Option<Item>>, prefs: Dict<string>, inv: Dict<seq<Item>>, slot: string)
    requires !HasKey(prefs, slot)
    ensures Get(FillPreferred(eq, prefs, inv).equipment, slot) == Get(eq, slot)
  {
    if prefs != [] {
      var init := prefs[..|prefs| - 1];
      var prev := FillPreferred(eq, init, inv);
      var s := prefs[|prefs| - 1].key;
      var found := FindPreferred(inv, prefs[|prefs| - 1].val);
      assert !HasKey(init, slot) by {
        forall i | 0 <= i < |init| ensures init[i].key != slot {
          assert init[i] == prefs[i];
        }
      }
      FillOnlyPreferred(eq, init, inv, slot);
      GetPut(prev.equipment, s, found, slot);
    }
  }

  /** A slot the fill changes now holds exactly what the search for that
      slot's preference found. */
  lemma {:induction false} FillTakesPreferred(eq: Dict<Option<Item>>, prefs: Dict<string>, inv: Dict<seq<Item>>, slot: string)
    requires DistinctKeys(prefs)
    ensures Get(FillPreferred(eq, prefs, inv).equipment, slot) != Get(eq, slot) ==>
              && HasKey(prefs, slot)
              && Get(FillPreferred(eq, prefs, inv).equipment, slot) == Some(FindPreferred(inv, Get(prefs, slot).value))
  {
    if prefs != [] {
      var n := |prefs| - 1;
      var init := prefs[..n];
      var prev := FillPreferred(eq, init, inv);
      var s := prefs[n].key;
      var found := FindPreferred(inv, prefs[n].val);
      GetPut(prev.equipment, s, found, slot);
      if s == slot {
        GetAt(prefs, n);
        assert !HasKey(init, slot) by {
          forall i | 0 <= i < |init| ensures init[i].key != slot {
            assert init[i] == prefs[i];
          }
        }
        FillOnlyPreferred(eq, init, inv, slot);
      } else {
        assert DistinctKeys(init);
        FillTakesPreferred(eq, init, inv, slot);
        GetInitOther(prefs, slot);
        if HasKey(init, slot) {
          var i :| 0 <= i < |init| && init[i].key == slot;
          assert prefs[i].key == slot;
        }
      }
    }
  }

  /** The last preference entry touches only its own slot, and fills it when
      it is empty and the search finds a compatible item. */
  lemma FillLastStep(eq: Dict<Option<Item>>, prefs: Dict<string>, inv: Dict<seq<Item>>, slot: string)
    requires prefs != []
    ensures var prev := FillPreferred(eq, prefs[..|prefs| - 1], inv).equipment;
            var found := FindPreferred(inv, prefs[|prefs| - 1].val);
            var r := FillPreferred(eq, prefs, inv).equipment;
            && (slot != prefs[|prefs| - 1].key ==> Get(r, slot) == Get(prev, slot))
            && (slot == prefs[|prefs| - 1].key && !Occupied(prev, slot) && found.Some? && Compatible(found.value, slot) ==>
                  Get(r, slot) == Some(found))
  {
    var prev := FillPreferred(eq, prefs[..|prefs| - 1], inv).equipment;
    GetPut(prev, prefs[|prefs| - 1].key, FindPreferred(inv, prefs[|prefs| - 1].val), slot);
  }

  /** The case where the last preference entry is the slot's own. */
  lemma FillFillsEmptyLast(eq: Dict<Option<Item>>, prefs: Dict<string>, inv: Dict<seq<Item>>, slot: string, it: Item)
    requires DistinctKeys(prefs) && prefs != [] && prefs[|prefs| - 1].key == slot && !Occupied(eq, slot)
    requires FindPreferred(inv, prefs[|prefs| - 1].val) == Some(it) && Compatible(it, slot)
    ensures Get(FillPreferred(eq, prefs, inv).equipment, slot) == Some(Some(it))
  {
    var init := prefs[..|prefs| - 1];
    assert !HasKey(init, slot) by {
      forall i | 0 <= i < |init| ensures init[i].key != slot {
        assert init[i] == prefs[i];
      }
    }
    FillOnlyPreferred(eq, init, inv, slot);
    FillLastStep(eq, prefs, inv, slot);
  }

  /** Every empty slot with a preference whose search finds a compatible item
      is filled with that item. */
  lemma {:induction false} FillFillsEmpty(eq: Dict<Option<Item>>, prefs: Dict<string>, inv: Dict<seq<Item>>, slot: string, it: Item)
    requires DistinctKeys(prefs) && HasKey(prefs, slot) && !Occupied(eq, slot)
    requires FindPreferred(inv, Get(prefs, slot).value) == Some(it) && Compatible(it, slot)
    ensures Get(FillPreferred(eq, prefs, inv).equipment, slot) == Some(Some(it))
  {
    var n := |prefs| - 1;
    if prefs[n].key == slot {
      GetAt(prefs, n);
      FillFillsEmptyLast(eq, prefs, inv, slot, it);
    } else {
      var init := prefs[..n];
      assert DistinctKeys(init);
      GetInitOther(prefs, slot);
      assert HasKey(init, slot) by {
        var i :| 0 <= i < |prefs| && prefs[i].key == slot;
        assert i < n && init[i].key == slot;
      }
      FillFillsEmpty(eq, init, inv, slot, it);
      FillLastStep(eq, prefs, inv, slot);
    }
  }

  /** Without a change the equipment is returned as it was. */
  lemma {:induction false} FillUnchanged(eq: Dict<Option<Item>>, prefs: Dict<string>, inv: Dict<seq<Item>>)
    ensures !FillPreferred(eq, prefs, inv).changed ==> FillPreferred(eq, prefs, inv).equipment == eq
  {
    if prefs != [] {
      FillUnchanged(eq, prefs[..|prefs| - 1], inv);
    }
  }

  // ---------------------------------------------------------------------------
  // Set-bonus summary (getData)

  datatype ThresholdRow = ThresholdRow(threshold: int, desc: Option<string>, active: bool)
  datatype SetDescription = SetDescription(name: string, count: int, rows: seq<ThresholdRow>)

  function ThresholdFirst(a: Threshold, b: Threshold): bool {
    a.count <= b.count
  }

  /** `defs[th]?.desc`; the JSON rendering of the stats, used when there is
      no description, is not modelled (`None`). */
  function DescOf(d: ThresholdDef): Option<string> {
    match d
    case WithStats(_, desc) => desc
    case Bare(_) => None
  }

  /** The thresholds of one set in ascending order, each active when the
      equipped count reaches it. */
  function Rows(ths: seq<Threshold>, count: int): (r: seq<ThresholdRow>)
    ensures |r| == |ths|
  {
    SortByPerm(ths, ThresholdFirst);
    var sorted := SortBy(ths, ThresholdFirst);
    seq(|sorted|, i requires 0 <= i < |sorted| =>
      ThresholdRow(sorted[i].count, DescOf(sorted[i].def), count >= sorted[i].count))
  }

  /** `setDescriptions`: one entry per counted set, in count order. */
  function SetDescriptions(counts: Dict<int>, table: SetTable): (r: seq<SetDescription>)
    ensures |r| == |counts|
    ensures forall i :: 0 <= i < |r| ==> r[i].name == counts[i].key && r[i].count == counts[i].val
  {
    seq(|counts|, i requires 0 <= i < |counts| =>
      SetDescription(counts[i].key, counts[i].val, Rows(ThresholdsOf(table, counts[i].key), counts[i].val)))
  }

  /** The rows are in ascending threshold order, each is active exactly when
      the count reaches it, so the active rows are a prefix, and every row
      is one of the set's thresholds. */
  lemma RowsOrdered(ths: seq<Threshold>, count: int)
    ensures forall i, j :: 0 <= i < j < |ths| ==> Rows(ths, count)[i].threshold <= Rows(ths, count)[j].threshold
    ensures forall i :: 0 <= i < |ths| ==> (Rows(ths, count)[i].active <==> count >= Rows(ths, count)[i].threshold)
    ensures forall i, j :: 0 <= i < j < |ths| && Rows(ths, count)[j].active ==> Rows(ths, count)[i].active
  {
    SortByPerm(ths, ThresholdFirst);
    SortBySorted(ths, ThresholdFirst);
  }

  /** Every row is one of the set's thresholds with its own description, and
      every threshold has its row. */
  lemma RowsCoverThresholds(ths: seq<Threshold>, count: int)
    ensures forall i :: 0 <= i < |ths| ==>
              exists th :: th in ths && th.count == Rows(ths, count)[i].threshold && DescOf(th.def) == Rows(ths, count)[i].desc
    ensures forall th :: th in ths ==>
              exists i :: 0 <= i < |ths| && Rows(ths, count)[i].threshold == th.count && Rows(ths, count)[i].desc == DescOf(th.def)
  {
    var sorted := SortBy(ths, ThresholdFirst);
    var rows := Rows(ths, count);
    SortByPerm(ths, ThresholdFirst);
    forall i | 0 <= i < |ths|
      ensures exists th :: th in ths && th.count == rows[i].threshold && DescOf(th.def) == rows[i].desc
    {
      SortByMembers(ths, ThresholdFirst, sorted[i]);
      assert sorted[i] in ths;
    }
    forall th | th in ths
      ensures exists i :: 0 <= i < |ths| && rows[i].threshold == th.count && rows[i].desc == DescOf(th.def)
    {
      SortByMembers(ths, ThresholdFirst, th);
      var i :| 0 <= i < |sorted| && sorted[i] == th;
      assert rows[i].threshold == th.count && rows[i].desc == DescOf(th.def);
    }
  }

  // ---------------------------------------------------------------------------
  // Adding a dropped item (_addItemToActor)

  /** The item's own category when the inventory has it, otherwise by type:
      weapon, armor and consumable to their lists, anything else to equipment. */
  function CategoryFor(inv: Dict<seq<Item>>, item: Item): (r: string)
    ensures item.category != "" && HasKey(inv, item.category) ==> r == item.category
    ensures !(item.category != "" && HasKey(inv, item.category)) ==>
              && (item.itemType == "weapon" ==> r == "weapons")
              && (item.itemType == "armor" ==> r == "armor")
              && (item.itemType == "consumable" ==> r == "consumables")
              && (item.itemType !in ["weapon", "armor", "consumable"] ==> r == "equipment")
    ensures r == item.category || r in ["weapons", "armor", "consumables", "equipment"]
  {
    if item.category != "" && HasKey(inv, item.category) then item.category
    else if item.itemType == "weapon" then "weapons"
    else if item.itemType == "armor" then "armor"
    else if item.itemType == "consumable" then "consumables"
    else "equipment"
  }

  /** The stored copy: id (or a fresh one), defaults quantity 1, weight 0,
      value 0, description "", type "equipment", not equipped. The set tag
      is not copied. */
  function NewItem(item: Item, category: string, freshId: string): (r: Item)
    ensures item.id != "" ==> r.id == item.id
    ensures item.id == "" ==> r.id == freshId
    ensures item.quantity != 0 ==> r.quantity == item.quantity
    ensures item.quantity == 0 ==> r.quantity == 1
    ensures item.itemType != "" ==> r.itemType == item.itemType
    ensures item.itemType == "" ==> r.itemType == "equipment"
    ensures r.name == item.name && r.stats == item.stats && r.description == item.description
    ensures r.weight == item.weight && r.value == item.value
    ensures !r.equipped && r.category == category && r.setTag == ""
  {
    Item(if item.id != "" then item.id else freshId, item.name,
         if item.itemType != "" then item.itemType else "equipment", category, "",
         item.stats, if item.quantity != 0 then item.quantity else 1, item.weight, item.value,
         item.description, false)
  }

  function WithAddedItem(s: SystemData, item: Item, freshId: string): SystemData {
    var inv := s.inventory.GetOr(DefaultInventory);
    var category := CategoryFor(inv, item);
    s.(inventory := Some(Appended(inv, category, NewItem(item, category, freshId))))
  }

  /** The new copy lands at the end of its category, which exists
      afterwards; every other category is unchanged and the carried weight
      grows by the copy's weight. */
  lemma AddedItemLands(s: SystemData, item: Item, freshId: string, k: string)
    ensures var inv := s.inventory.GetOr(DefaultInventory);
            var category := CategoryFor(inv, item);
            var added := WithAddedItem(s, item, freshId).inventory.value;
            && Get(added, k) == (if k == category then Some(Get(inv, category).GetOr([]) + [NewItem(item, category, freshId)])
                                 else Get(inv, k))
            && TotalWeight(added) == TotalWeight(inv) + ItemWeight(NewItem(item, category, freshId))
  {
    var inv := s.inventory.GetOr(DefaultInventory);
    var category := CategoryFor(inv, item);
    AppendedGet(inv, category, NewItem(item, category, freshId), k);
    AppendedWeight(inv, category, NewItem(item, category, freshId));
  }

  // ---------------------------------------------------------------------------
  // The sheet

  class CharacterSheet {
    const actor: CustomActor
    /** `_appliedPrefs`: the preferred-equipment fill has run. */
    var appliedPrefs: bool

    constructor (actor: CustomActor)
      ensures this.actor == actor && !appliedPrefs
    {
      this.actor := actor;
      appliedPrefs := false;
    }

    /** `_onResourceChange`: a missing resource changes nothing. */
    method ResourceChange(name: string, action: string)
      modifies actor
      ensures actor.system == WithStep(old(actor.system), name, action)
    {
      var found := Get(actor.system.resources, name);
      if found.None? {
        return;
      }
      var resource := found.value;
      var newValue := resource.value;
      if newValue.Some? {
        var v := newValue.value;
        if action == "increase" && resource.max.Some? && v < resource.max.value {
          v := v + 1;
        } else if action == "decrease" && v > 0 {
          v := v - 1;
        }
        newValue := Some(v);
      }
      actor.system := actor.system.(resources := Put(actor.system.resources, name, resource.(value := newValue)));
    }

    /** `_onLevelUp`: refused (nothing changes) without a progression entry
        for the next level; otherwise the level goes up and every class
        resource is refilled to its new maximum. */
    method LevelUp(catalog: map<string, ClassInfo>) returns (levelled: bool)
      modifies actor
      ensures levelled <==> CanLevelUp(old(actor.system), catalog)
      ensures !levelled ==> actor.system == old(actor.system)
      ensures levelled ==> actor.system == LevelledUp(old(actor.system), catalog[old(actor.system).className])
    {
      if !CanLevelUp(actor.system, catalog) {
        return false;
      }
      var ci := catalog[actor.system.className];
      var newLevel := actor.system.level + 1;
      var resources := actor.system.resources;
      var cls := ci.resources;
      var i := 0;
      while i < |cls|
        invariant 0 <= i <= |cls|
        invariant resources == Refilled(actor.system.resources, cls[..i], newLevel)
      {
        assert cls[..i + 1][..i] == cls[..i];
        var newMax := Min(20, cls[i].val.max + newLevel / 2);
        resources := Put(resources, cls[i].key, Refill(Get(resources, cls[i].key), newMax));
        i := i + 1;
      }
      assert cls[..i] == cls;
      actor.system := actor.system.(level := newLevel, resources := resources);
      return true;
    }

    /** `_onAutoEquip`: with no compatible item only a warning; otherwise the
        best item is remembered as the slot's preference (its id, or its
        name without one) and equipped. */
    method AutoEquip(slot: string) returns (best: Option<Item>)
      modifies actor
      ensures best == BestFor(AllItems(old(actor.system).inventory.GetOr([])), slot)
      ensures best.None? ==> actor.system == old(actor.system)
      ensures best.Some? ==> actor.system == old(actor.system).(
                preferences := Some(Put(old(actor.system).preferences.GetOr([]), slot,
                                        if best.value.id != "" then best.value.id else best.value.name)),
                equipment := Some(Put(old(actor.system).equipment.GetOr([]), slot, best)))
    {
      var items := CollectItems(actor.system.inventory.GetOr([]));
      best := BestFor(items, slot);
      if best.None? {
        return;
      }
      var item := best.value;
      var prefs := actor.system.preferences.GetOr([]);
      prefs := Put(prefs, slot, if item.id != "" then item.id else item.name);
      actor.system := actor.system.(preferences := Some(prefs));
      var equipment := actor.system.equipment.GetOr([]);
      equipment := Put(equipment, slot, best);
      actor.system := actor.system.(equipment := Some(equipment));
    }

    /** `_applyPreferredEquipment`: runs once per sheet; fills each empty slot
        that has a preference with the first matching inventory item when that
        item fits, and writes the equipment only when something was filled. */
    method ApplyPreferredEquipment()
      modifies this, actor
      ensures appliedPrefs
      ensures old(appliedPrefs) ==> actor.system == old(actor.system)
      ensures !old(appliedPrefs) ==>
                var fill := FillPreferred(old(actor.system).equipment.GetOr([]), old(actor.system).preferences.GetOr([]),
                                          old(actor.system).inventory.GetOr([]));
                actor.system == if fill.changed then old(actor.system).(equipment := Some(fill.equipment)) else old(actor.system)
    {
      if appliedPrefs {
        return;
      }
      appliedPrefs := true;
      var prefs := actor.system.preferences.GetOr([]);
      var inv := actor.system.inventory.GetOr([]);
      var start := actor.system.equipment.GetOr([]);
      var equipment := start;
      var changed := false;
      var i := 0;
      while i < |prefs|
        invariant 0 <= i <= |prefs|
        invariant Fill(equipment, changed) == FillPreferred(start, prefs[..i], inv)
      {
        assert prefs[..i + 1][..i] == prefs[..i];
        var slot := prefs[i].key;
        if !Occupied(equipment, slot) {
          var found := FindPreferred(inv, prefs[i].val);
          if found.Some? && Compatible(found.value, slot) {
            equipment := Put(equipment, slot, found);
            changed := true;
          }
        }
        i := i + 1;
      }
      assert prefs[..i] == prefs;
      if changed {
        actor.system := actor.system.(equipment := Some(equipment));
      }
    }

    /** `_addItemToActor`. */
    method AddItemToActor(item: Item, freshId: string)
      modifies actor
      ensures actor.system == WithAddedItem(old(actor.system), item, freshId)
    {
      var inventory := actor.system.inventory.GetOr(DefaultInventory);
      var category := CategoryFor(inventory, item);
      var newItem := NewItem(item, category, freshId);
      inventory := Appended(inventory, category, newItem);
      actor.system := actor.system.(inventory := Some(inventory));
    }
  }

  /** The candidate loop: every category's items, in order. */
  method CollectItems(inv: Dict<seq<Item>>) returns (items: seq<Item>)
    ensures items == AllItems(inv)
  {
    items := [];
    var i := 0;
    while i < |inv|
      invariant 0 <= i <= |inv|
      invariant items == AllItems(inv[..i])
    {
      assert inv[..i + 1][..i] == inv[..i];
      items := items + inv[i].val;
      i := i + 1;
    }
    assert inv[..i] == inv;
  }
}
