/** The bookkeeping of the inventory manager window in
    `module/applications/inventory-manager.js`: carrying capacity, carried
    weight, the per-category item lists, the selected item and the purse.
    Weights are whole numbers of the smallest unit used (tenths of a pound,
    say); dialogs, notifications and re-rendering are not modelled. */
module Inventory {
  import opened Common
  import opened Schema
  import opened Actor

  type Inv = Dict<seq<Item>>

  /** `_initializeInventory`: the five empty categories. */
  const DefaultInventory: Inv :=
    [Entry("weapons", []), Entry("armor", []), Entry("equipment", []), Entry("consumables", []), Entry("valuables", [])]

  /** The purse used when the actor has none. */
  const DefaultCurrency: Dict<int> := [Entry("gold", 0), Entry("silver", 0), Entry("copper", 0)]

  // ---------------------------------------------------------------------------
  // Capacity and weight

  /** 15 units per point of strength; no attributes block counts as 0. */
  function CarryingCapacity(s: SystemData): int {
    match s.attributes
    case None => 0
    case Some(a) => a.str.value * 15
  }

  /** Capacity grows with strength. */
  lemma CapacityMonotone(s: SystemData, t: SystemData)
    requires s.attributes.Some? && t.attributes.Some?
    requires s.attributes.value.str.value <= t.attributes.value.str.value
    ensures CarryingCapacity(s) <= CarryingCapacity(t)
  {
  }

  /** Capacity starts at 0 with no strength and each point of strength adds
      15 units. */
  lemma CapacityPerPoint(s: SystemData)
    ensures s.attributes.None? || s.attributes.value.str.value == 0 ==> CarryingCapacity(s) == 0
    ensures s.attributes.Some? ==>
              var a := s.attributes.value;
              CarryingCapacity(s.(attributes := Some(a.(str := a.str.(value := a.str.value + 1)))))
                == CarryingCapacity(s) + 15
  {
  }

  /** `(weight || 0) * (quantity || 1)`: a zero quantity counts once. */
  function ItemWeight(item: Item): int {
    item.weight * (if item.quantity == 0 then 1 else item.quantity)
  }

  function CategoryWeight(items: seq<Item>): int {
    if items == [] then 0 else CategoryWeight(items[..|items| - 1]) + ItemWeight(items[|items| - 1])
  }

  function TotalWeight(inv: Inv): int {
    if inv == [] then 0 else TotalWeight(inv[..|inv| - 1]) + CategoryWeight(inv[|inv| - 1].val)
  }

  /** `_calculateCurrentWeight`: the nested loops over categories and items. */
  method CurrentWeight(inv: Inv) returns (weight: int)
    ensures weight == TotalWeight(inv)
  {
    weight := 0;
    var i := 0;
    while i < |inv|
      invariant 0 <= i <= |inv|
      invariant weight == TotalWeight(inv[..i])
    {
      assert inv[..i + 1][..i] == inv[..i];
      var items := inv[i].val;
      ghost var before := weight;
      var k := 0;
      while k < |items|
        invariant 0 <= k <= |items|
        invariant weight == before + CategoryWeight(items[..k])
      {
        assert items[..k + 1][..k] == items[..k];
        weight := weight + ItemWeight(items[k]);
        k := k + 1;
      }
      assert items[..k] == items;
      i := i + 1;
    }
    assert inv[..i] == inv;
  }

  lemma CategoryWeightAppend(items: seq<Item>, x: Item)
    ensures CategoryWeight(items + [x]) == CategoryWeight(items) + ItemWeight(x)
  {
    assert (items + [x])[..|items|] == items;
  }

  /** Replacing one category's list changes the total by the difference of
      the two lists' weights. */
  lemma {:induction false} WeightUpdate(inv: Inv, i: nat, e: Entry<seq<Item>>)
    requires i < |inv|
    ensures TotalWeight(inv[i := e]) == TotalWeight(inv) - CategoryWeight(inv[i].val) + CategoryWeight(e.val)
  {
    var init := inv[..|inv| - 1];
    assert inv[i := e][..|inv| - 1] == if i == |inv| - 1 then init else init[i := e];
    if i < |inv| - 1 {
      WeightUpdate(init, i, e);
    }
  }

  /** Writing `inventory[k] = v` changes the total by the weight of `v` less
      the weight of the list it replaces. */
  lemma WeightPut(inv: Inv, k: string, v: seq<Item>)
    ensures TotalWeight(Put(inv, k, v)) == TotalWeight(inv) - CategoryWeight(Get(inv, k).GetOr([])) + CategoryWeight(v)
  {
    match IndexOf(inv, k)
    case Some(i) =>
      WeightUpdate(inv, i, Entry(k, v));
    case None =>
      assert (inv + [Entry(k, v)])[..|inv|] == inv;
  }

  // ---------------------------------------------------------------------------
  // Adding

  /** `inventory[category] = inventory[category] || []; inventory[category].push(x)` */
  function Appended(inv: Inv, category: string, x: Item): Inv {
    Put(inv, category, Get(inv, category).GetOr([]) + [x])
  }

  /** The item lands at the end of its category, which exists afterwards;
      every other category is unchanged. */
  lemma AppendedGet(inv: Inv, category: string, x: Item, k: string)
    ensures Get(Appended(inv, category, x), k) ==
            if k == category then Some(Get(inv, category).GetOr([]) + [x]) else Get(inv, k)
  {
    GetPut(inv, category, Get(inv, category).GetOr([]) + [x], k);
  }

  /** Adding an item adds exactly its weight. */
  lemma AppendedWeight(inv: Inv, category: string, x: Item)
    ensures TotalWeight(Appended(inv, category, x)) == TotalWeight(inv) + ItemWeight(x)
  {
    var current := Get(inv, category).GetOr([]);
    WeightPut(inv, category, current + [x]);
    CategoryWeightAppend(current, x);
  }

  /** The item the add dialog builds: quantity and value parsed as integers
      (1 and 0 when unparsable or zero), weight 0 when unparsable, not
      equipped. */
  function DialogItem(id: string, name: string, category: string, quantity: Option<int>, weight: Option<int>,
                      value: Option<int>, description: string): (r: Item)
    ensures r.quantity != 0 && !r.equipped && r.category == category
    ensures quantity.Some? && quantity.value != 0 ==> r.quantity == quantity.value
    ensures quantity.None? || quantity == Some(0) ==> r.quantity == 1
    ensures weight.Some? && weight.value != 0 ==> r.weight == weight.value
    ensures weight.None? || weight == Some(0) ==> r.weight == 0
    ensures value.Some? && value.value != 0 ==> r.value == value.value
    ensures value.None? || value == Some(0) ==> r.value == 0
    ensures r.id == id && r.name == name && r.description == description
    ensures r.itemType == "" && r.setTag == "" && r.stats == []
  {
    Item(id, name, "", category, "", [], ParsedOr(quantity, 1), ParsedOr(weight, 0), ParsedOr(value, 0), description, false)
  }

  // ---------------------------------------------------------------------------
  // Removing and equipping

  /** `items.filter(item => item.id !== id)` */
  function Without(items: seq<Item>, id: string): (r: seq<Item>)
    ensures forall x :: x in r <==> x in items && x.id != id
    ensures |r| <= |items|
  {
    if items == [] then [] else Without(items[..|items| - 1], id) + if items[|items| - 1].id != id then [items[|items| - 1]] else []
  }

  /** Removal keeps the remaining items in order: it works piece by piece,
      and one item stays exactly when its id differs. */
  lemma {:induction false} WithoutAppend(a: seq<Item>, b: seq<Item>, id: string)
    ensures Without(a + b, id) == Without(a, id) + Without(b, id)
  {
    WithoutIsKeep(a + b, id);
    WithoutIsKeep(a, id);
    WithoutIsKeep(b, id);
    KeepAppend(a, b, (x: Item) => x.id != id);
  }

  lemma WithoutOne(x: Item, id: string)
    ensures Without([x], id) == if x.id != id then [x] else []
  {
    assert [x][..0] == [];
  }

  lemma {:induction false} WithoutIsKeep(items: seq<Item>, id: string)
    ensures Without(items, id) == Keep(items, (x: Item) => x.id != id)
  {
    if items != [] {
      var n := |items| - 1;
      WithoutIsKeep(items[..n], id);
      KeepSnoc(items, (x: Item) => x.id != id);
    }
  }


  /** The items carrying `id`. */
  function Matching(items: seq<Item>, id: string): seq<Item> {
    if items == [] then [] else Matching(items[..|items| - 1], id) + if items[|items| - 1].id == id then [items[|items| - 1]] else []
  }

  /** Removing by id takes away exactly the weight of the removed items. */
  lemma {:induction false} WithoutWeight(items: seq<Item>, id: string)
    ensures CategoryWeight(items) == CategoryWeight(Without(items, id)) + CategoryWeight(Matching(items, id))
  {
    if items != [] {
      var init := items[..|items| - 1];
      var last := items[|items| - 1];
      WithoutWeight(init, id);
      if last.id != id {
        assert Without(items, id) == Without(init, id) + [last];
        assert Matching(items, id) == Matching(init, id);
        CategoryWeightAppend(Without(init, id), last);
      } else {
        assert Without(items, id) == Without(init, id);
        assert Matching(items, id) == Matching(init, id) + [last];
        CategoryWeightAppend(Matching(init, id), last);
      }
    }
  }

  /** Position of the first item with `id` (`Array.prototype.find`). */
  function FindId(items: seq<Item>, id: string): (r: Option<nat>)
    ensures r.Some? ==> r.value < |items| && items[r.value].id == id
    ensures r.Some? ==> forall j :: 0 <= j < r.value ==> items[j].id != id
    ensures r.None? ==> forall j :: 0 <= j < |items| ==> items[j].id != id
  {
    if items == [] then None
    else if items[0].id == id then Some(0)
    else match FindId(items[1..], id)
      case None => None
      case Some(i) => Some(i + 1)
  }

  /** `item.equipped = !item.equipped` on the item at `i`. */
  function Toggled(items: seq<Item>, i: nat): (r: seq<Item>)
    requires i < |items|
    ensures |r| == |items|
  {
    items[i := items[i].(equipped := !items[i].equipped)]
  }

  /** Equip and unequip are one toggle: twice restores the list, and the ids,
      hence the item the next toggle finds, do not change. */
  lemma ToggleTwice(items: seq<Item>, id: string)
    requires FindId(items, id).Some?
    ensures FindId(Toggled(items, FindId(items, id).value), id) == FindId(items, id)
    ensures Toggled(Toggled(items, FindId(items, id).value), FindId(items, id).value) == items
  {
    var i := FindId(items, id).value;
    var t := Toggled(items, i);
    FindIdSameIds(items, t, id);
  }

  lemma {:induction false} FindIdSameIds(a: seq<Item>, b: seq<Item>, id: string)
    requires |a| == |b| && forall j :: 0 <= j < |a| ==> a[j].id == b[j].id
    ensures FindId(a, id) == FindId(b, id)
  {
    if a != [] {
      FindIdSameIds(a[1..], b[1..], id);
    }
  }

  /** Toggling leaves the weight alone. */
  lemma {:induction false} ToggleWeight(items: seq<Item>, i: nat)
    requires i < |items|
    ensures CategoryWeight(Toggled(items, i)) == CategoryWeight(items)
  {
    var init := items[..|items| - 1];
    if i < |items| - 1 {
      assert Toggled(items, i)[..|items| - 1] == Toggled(init, i);
      ToggleWeight(init, i);
    } else {
      assert Toggled(items, i)[..|items| - 1] == init;
    }
  }

  /** Removing by id lowers the carried weight by exactly the weight of the
      removed items; toggling `equipped` leaves it as it was. */
  lemma RemoveAndToggleWeight(inv: Inv, category: string, id: string)
    requires Get(inv, category).Some?
    ensures TotalWeight(Put(inv, category, Without(Get(inv, category).value, id))) ==
            TotalWeight(inv) - CategoryWeight(Matching(Get(inv, category).value, id))
    ensures FindId(Get(inv, category).value, id).Some? ==>
              TotalWeight(Put(inv, category, Toggled(Get(inv, category).value, FindId(Get(inv, category).value, id).value))) ==
              TotalWeight(inv)
  {
    var items := Get(inv, category).value;
    WithoutWeight(items, id);
    WeightPut(inv, category, Without(items, id));
    if FindId(items, id).Some? {
      ToggleWeight(items, FindId(items, id).value);
      WeightPut(inv, category, Toggled(items, FindId(items, id).value));
    }
  }

  // ---------------------------------------------------------------------------
  // The purse

  /** `currency[type] = parseInt(input) || 0` on the actor's purse (or the
      default one). */
  function WithCurrency(currency: Option<Dict<int>>, currencyType: string, parsed: Option<int>): Dict<int> {
    Put(currency.GetOr(DefaultCurrency), currencyType, ParsedOr(parsed, 0))
  }

  /** Only the named coin changes; unparsable input stores 0. */
  lemma CurrencySingleKey(currency: Option<Dict<int>>, currencyType: string, parsed: Option<int>, k: string)
    ensures Get(WithCurrency(currency, currencyType, parsed), k) ==
            if k == currencyType then Some(ParsedOr(parsed, 0)) else Get(currency.GetOr(DefaultCurrency), k)
    ensures parsed.None? ==> Get(WithCurrency(currency, currencyType, parsed), currencyType) == Some(0)
  {
    GetPut(currency.GetOr(DefaultCurrency), currencyType, ParsedOr(parsed, 0), k);
    GetPut(currency.GetOr(DefaultCurrency), currencyType, ParsedOr(parsed, 0), currencyType);
  }

  // ---------------------------------------------------------------------------
  // The window

  class InventoryManager {
    const actor: CustomActor
    /** `selectedItem`: a copy of the chosen item with its category. */
    var selected: Option<Item>

    constructor (actor: CustomActor)
      ensures this.actor == actor && selected.None?
    {
      this.actor := actor;
      selected := None;
    }

    /** `_onItemSelect`: selects a copy of the first item with the id in the
        named category; nothing happens when there is none. */
    method SelectItem(itemId: string, category: string)
      modifies this
      ensures var items := Get(old(actor.system).inventory.GetOr(DefaultInventory), category);
              if items.Some? && FindId(items.value, itemId).Some?
              then selected == Some(items.value[FindId(items.value, itemId).value].(category := category))
              else selected == old(selected)
    {
      var items := Get(actor.system.inventory.GetOr(DefaultInventory), category);
      if items.None? {
        return;
      }
      var found := FindId(items.value, itemId);
      if found.Some? {
        selected := Some(items.value[found.value].(category := category));
      }
    }

    /** `_addItemToInventory`: appends to the item's category, creating it
        (and the default inventory) when missing. */
    method AddItemToInventory(item: Item)
      modifies actor
      ensures actor.system == old(actor.system).(inventory :=
                Some(Appended(old(actor.system).inventory.GetOr(DefaultInventory), item.category, item)))
    {
      var inventory := actor.system.inventory.GetOr(DefaultInventory);
      var category := item.category;
      var items := Get(inventory, category).GetOr([]);
      inventory := Put(inventory, category, items + [item]);
      actor.system := actor.system.(inventory := Some(inventory));
    }

    /** `_onRemoveItem`: needs a selection and a confirmation; removes every
        item with the selected id from the selected item's category only,
        then clears the selection. Without an inventory or that category the
        handler throws before changing anything. */
    method RemoveItem(confirmed: bool) returns (removed: bool)
      modifies this, actor
      ensures removed <==> && old(selected).Some? && confirmed
                           && old(actor.system).inventory.Some?
                           && HasKey(old(actor.system).inventory.value, old(selected).value.category)
      ensures !removed ==> actor.system == old(actor.system) && selected == old(selected)
      ensures removed ==>
                var inv := old(actor.system).inventory.value;
                var sel := old(selected).value;
                && selected.None?
                && actor.system == old(actor.system).(inventory :=
                     Some(Put(inv, sel.category, Without(Get(inv, sel.category).value, sel.id))))
    {
      if selected.None? || !confirmed {
        return false;
      }
      var sel := selected.value;
      if actor.system.inventory.None? {
        return false;
      }
      var inventory := actor.system.inventory.value;
      var items := Get(inventory, sel.category);
      GetSome(inventory, sel.category);
      if items.None? {
        return false;
      }
      inventory := Put(inventory, sel.category, Without(items.value, sel.id));
      actor.system := actor.system.(inventory := Some(inventory));
      selected := None;
      return true;
    }

    /** `_onEquipItem` (and `_onUnequipItem`): toggles `equipped` on the first
        item with the selected id in the selected category, and the selection
        takes the new flag. No selection or no such item: nothing changes. */
    method EquipItem() returns (toggled: bool)
      modifies this, actor
      ensures toggled <==> && old(selected).Some?
                           && old(actor.system).inventory.Some?
                           && Get(old(actor.system).inventory.value, old(selected).value.category).Some?
                           && FindId(Get(old(actor.system).inventory.value, old(selected).value.category).value,
                                     old(selected).value.id).Some?
      ensures !toggled ==> actor.system == old(actor.system) && selected == old(selected)
      ensures toggled ==>
                var inv := old(actor.system).inventory.value;
                var sel := old(selected).value;
                var items := Get(inv, sel.category).value;
                var i := FindId(items, sel.id).value;
                && actor.system == old(actor.system).(inventory := Some(Put(inv, sel.category, Toggled(items, i))))
                && selected == Some(sel.(equipped := !items[i].equipped))
    {
      if selected.None? || actor.system.inventory.None? {
        return false;
      }
      var sel := selected.value;
      var inventory := actor.system.inventory.value;
      var items := Get(inventory, sel.category);
      if items.None? {
        return false;
      }
      var found := FindId(items.value, sel.id);
      if found.None? {
        return false;
      }
      var i := found.value;
      var item: Item := items.value[i];
      item := item.(equipped := !item.equipped);
      inventory := Put(inventory, sel.category, items.value[i := item]);
      actor.system := actor.system.(inventory := Some(inventory));
      selected := Some(sel.(equipped := item.equipped));
      return true;
    }

    /** `_onCurrencyChange`; `parsed` is `parseInt` of the input. */
    method CurrencyChange(currencyType: string, parsed: Option<int>)
      modifies actor
      ensures actor.system == old(actor.system).(currency := Some(WithCurrency(old(actor.system).currency, currencyType, parsed)))
    {
      var value := ParsedOr(parsed, 0);
      var currency := actor.system.currency.GetOr(DefaultCurrency);
      currency := Put(currency, currencyType, value);
      actor.system := actor.system.(currency := Some(currency));
    }
  }
}
