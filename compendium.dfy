/** Queries over the compendium of `module/compendium-loader.js`: a nested
    `category -> subcategory -> id -> item` object, keyed lookup, the
    case-insensitive search, the `'all'`-aware filters, the filter options
    and the time-stamped cache. The loaded JSON is a parameter; the clock is
    a `now` parameter in milliseconds. */
module Compendium {
  import opened Common
  import opened Sorting

  /** The fields of a compendium entry the queries read; an absent field is
      `None`. */
  datatype CompItem = CompItem(
    id: Option<string>,
    name: Option<string>,
    description: Option<string>,
    itemType: Option<string>,
    rarity: Option<string>,
    level: Option<int>)

  type Subcategory = Dict<CompItem>
  type Category = Dict<Subcategory>
  type Data = Dict<Category>

  /** `{id, ...item, category, subcategory}`: an `id` of the item's own
      overrides its key. */
  datatype Listing = Listing(id: string, item: CompItem, category: string, subcategory: string)

  /** The filter object; an absent filter is the empty string. */
  datatype Filters = Filters(search: string, rarity: string, level: string, itemType: string)

  const NoFilters := Filters("", "", "", "")

  function Listed(entries: Subcategory, category: string, subcategory: string): (r: seq<Listing>)
    ensures |r| == |entries|
    ensures forall i :: 0 <= i < |r| ==>
              && r[i].item == entries[i].val && r[i].category == category && r[i].subcategory == subcategory
              && (entries[i].val.id.Some? ==> r[i].id == entries[i].val.id.value)
              && (entries[i].val.id.None? ==> r[i].id == entries[i].key)
  {
    seq(|entries|, i requires 0 <= i < |entries| =>
      Listing(entries[i].val.id.GetOr(entries[i].key), entries[i].val, category, subcategory))
  }

  // ---------------------------------------------------------------------------
  // Search and filters

  predicate FieldHit(field: Option<string>, needle: string) {
    field.Some? && Contains(ToLower(field.value), needle)
  }

  /** The search test: the lower-cased term occurs in the lower-cased name,
      description or type. */
  predicate Hit(item: CompItem, term: string) {
    var needle := ToLower(term);
    FieldHit(item.name, needle) || FieldHit(item.description, needle) || FieldHit(item.itemType, needle)
  }

  /** A filter is applied unless empty or `'all'`. */
  predicate Active(f: string) {
    f != "" && f != "all"
  }

  predicate RarityPass(l: Listing, f: Filters) {
    !Active(f.rarity) || l.item.rarity == Some(f.rarity)
  }

  /** The level filter compares the level's decimal text. */
  predicate LevelPass(l: Listing, f: Filters) {
    !Active(f.level) || (l.item.level.Some? && IntToString(l.item.level.value) == f.level)
  }

  predicate TypePass(l: Listing, f: Filters) {
    !Active(f.itemType) || l.item.itemType == Some(f.itemType)
  }

  predicate Filtered(l: Listing, f: Filters) {
    RarityPass(l, f) && LevelPass(l, f) && TypePass(l, f)
  }

  /** Everything `getItems` lets through: the search (when given) and the
      three filters. */
  predicate Accepted(l: Listing, f: Filters) {
    (f.search == "" || Hit(l.item, f.search)) && Filtered(l, f)
  }

  /** `Array.prototype.filter`. */
  function Where(ls: seq<Listing>, p: Listing -> bool): (r: seq<Listing>)
    ensures forall l :: l in r <==> l in ls && p(l)
    ensures |r| <= |ls|
  {
    if ls == [] then [] else (if p(ls[0]) then [ls[0]] else []) + Where(ls[1..], p)
  }

  /** The filter keeps order: filtering a concatenation filters each part. */
  lemma {:induction false} WhereAppend(a: seq<Listing>, b: seq<Listing>, p: Listing -> bool)
    ensures Where(a + b, p) == Where(a, p) + Where(b, p)
  {
    WhereIsKeep(a + b, p);
    WhereIsKeep(a, p);
    WhereIsKeep(b, p);
    KeepAppend(a, b, p);
  }

  lemma {:induction false} WhereIsKeep(ls: seq<Listing>, p: Listing -> bool)
    ensures Where(ls, p) == Keep(ls, p)
  {
    if ls != [] {
      WhereIsKeep(ls[1..], p);
    }
  }

  /** A single listing is kept exactly when it passes. */
  lemma WhereOne(l: Listing, p: Listing -> bool)
    ensures Where([l], p) == if p(l) then [l] else []
  {
    assert [l][1..] == [];
  }

  function Lookup(data: Data, category: string, subcategory: string): Option<Subcategory> {
    match Get(data, category)
    case None => None
    case Some(c) => Get(c, subcategory)
  }

  /** `getItems`: the listings of one subcategory through the filter chain. */
  function GetItems(data: Data, category: string, subcategory: string, f: Filters): seq<Listing> {
    match Lookup(data, category, subcategory)
    case None => []
    case Some(entries) =>
      var items := Listed(entries, category, subcategory);
      var searched := if f.search != "" then Where(items, (l: Listing) => Hit(l.item, f.search)) else items;
      var byRarity := if Active(f.rarity) then Where(searched, (l: Listing) => RarityPass(l, f)) else searched;
      var byLevel := if Active(f.level) then Where(byRarity, (l: Listing) => LevelPass(l, f)) else byRarity;
      if Active(f.itemType) then Where(byLevel, (l: Listing) => TypePass(l, f)) else byLevel
  }

  /** An unknown category or subcategory gives no items; otherwise the
      result holds exactly the subcategory's listings the search and the
      filters accept, each tagged with the looked-up category and
      subcategory. */
  lemma GetItemsSpec(data: Data, category: string, subcategory: string, f: Filters, l: Listing)
    ensures Lookup(data, category, subcategory).None? ==> GetItems(data, category, subcategory, f) == []
    ensures l in GetItems(data, category, subcategory, f) <==>
              && Lookup(data, category, subcategory).Some?
              && l in Listed(Lookup(data, category, subcategory).value, category, subcategory)
              && Accepted(l, f)
    ensures l in GetItems(data, category, subcategory, f) ==> l.category == category && l.subcategory == subcategory
  {
  }

  /** Filtering only removes: a filtered result is part of the unfiltered one. */
  lemma FilteredSubset(data: Data, category: string, subcategory: string, f: Filters)
    ensures forall l :: l in GetItems(data, category, subcategory, f) ==> l in GetItems(data, category, subcategory, NoFilters)
  {
    forall l | l in GetItems(data, category, subcategory, f)
      ensures l in GetItems(data, category, subcategory, NoFilters)
    {
      GetItemsSpec(data, category, subcategory, f, l);
      GetItemsSpec(data, category, subcategory, NoFilters, l);
    }
  }

  /** `getItem`: the entry under `id`, or null. */
  function GetItem(data: Data, category: string, subcategory: string, id: string): (r: Option<Listing>)
    ensures r.Some? <==> Lookup(data, category, subcategory).Some? && HasKey(Lookup(data, category, subcategory).value, id)
    ensures r.Some? ==> r.value.category == category && r.value.subcategory == subcategory
    ensures r.Some? ==> Some(r.value.item) == Get(Lookup(data, category, subcategory).value, id)
    ensures r.Some? ==> r.value.id == r.value.item.id.GetOr(id)
  {
    match Lookup(data, category, subcategory)
    case None => None
    case Some(entries) =>
      GetSome(entries, id);
      match Get(entries, id)
      case None => None
      case Some(item) => Some(Listing(item.id.GetOr(id), item, category, subcategory))
  }

  /** The item `getItem` finds is among the unfiltered `getItems`. */
  lemma GetItemListed(data: Data, category: string, subcategory: string, id: string)
    requires GetItem(data, category, subcategory, id).Some?
    ensures GetItem(data, category, subcategory, id).value in GetItems(data, category, subcategory, NoFilters)
  {
    var entries := Lookup(data, category, subcategory).value;
    var i := IndexOf(entries, id).value;
    assert Listed(entries, category, subcategory)[i] == GetItem(data, category, subcategory, id).value;
  }

  // ---------------------------------------------------------------------------
  // Walking the whole compendium

  /** Every listing of a category, subcategory by subcategory. */
  function SubListings(subs: Category, category: string): seq<Listing> {
    if subs == [] then []
    else SubListings(subs[..|subs| - 1], category) + Listed(subs[|subs| - 1].val, category, subs[|subs| - 1].key)
  }

  /** Every listing of the compendium, category by category. */
  function AllListings(data: Data): seq<Listing> {
    if data == [] then []
    else AllListings(data[..|data| - 1]) + SubListings(data[|data| - 1].val, data[|data| - 1].key)
  }

  lemma {:induction false} SubListingsMembers(subs: Category, category: string, l: Listing)
    ensures l in SubListings(subs, category) <==>
              exists j :: 0 <= j < |subs| && l in Listed(subs[j].val, category, subs[j].key)
  {
    if subs != [] {
      var init := subs[..|subs| - 1];
      var last := subs[|subs| - 1];
      SubListingsMembers(init, category, l);
      assert SubListings(subs, category) == SubListings(init, category) + Listed(last.val, category, last.key);
      if l in SubListings(init, category) {
        var j :| 0 <= j < |init| && l in Listed(init[j].val, category, init[j].key);
        assert subs[j] == init[j];
      } else if l in Listed(last.val, category, last.key) {
        assert subs[|subs| - 1] == last;
      }
      if exists j :: 0 <= j < |subs| && l in Listed(subs[j].val, category, subs[j].key) {
        var j :| 0 <= j < |subs| && l in Listed(subs[j].val, category, subs[j].key);
        if j < |init| {
          assert init[j] == subs[j];
        }
      }
    }
  }

  lemma {:induction false} AllListingsMembers(data: Data, l: Listing)
    ensures l in AllListings(data) <==>
              exists i :: 0 <= i < |data| && l in SubListings(data[i].val, data[i].key)
  {
    if data != [] {
      var init := data[..|data| - 1];
      var last := data[|data| - 1];
      AllListingsMembers(init, l);
      assert AllListings(data) == AllListings(init) + SubListings(last.val, last.key);
      if l in AllListings(init) {
        var i :| 0 <= i < |init| && l in SubListings(init[i].val, init[i].key);
        assert data[i] == init[i];
      } else if l in SubListings(last.val, last.key) {
        assert data[|data| - 1] == last;
      }
      if exists i :: 0 <= i < |data| && l in SubListings(data[i].val, data[i].key) {
        var i :| 0 <= i < |data| && l in SubListings(data[i].val, data[i].key);
        if i < |init| {
          assert init[i] == data[i];
        }
      }
    }
  }

  /** With distinct keys, a listing of the whole compendium is found under its
      own category and subcategory tags. */
  lemma ListingFound(data: Data, l: Listing)
    requires DistinctKeys(data)
    requires forall i :: 0 <= i < |data| ==> DistinctKeys(data[i].val)
    requires l in AllListings(data)
    ensures Lookup(data, l.category, l.subcategory).Some?
    ensures l in Listed(Lookup(data, l.category, l.subcategory).value, l.category, l.subcategory)
  {
    AllListingsMembers(data, l);
    var i :| 0 <= i < |data| && l in SubListings(data[i].val, data[i].key);
    SubListingsMembers(data[i].val, data[i].key, l);
    var j :| 0 <= j < |data[i].val| && l in Listed(data[i].val[j].val, data[i].key, data[i].val[j].key);
    GetAt(data, i);
    GetAt(data[i].val, j);
  }

  /** Conversely, a listing of a subcategory is reached by the traversal. */
  lemma ListingReached(data: Data, l: Listing)
    requires Lookup(data, l.category, l.subcategory).Some?
    requires l in Listed(Lookup(data, l.category, l.subcategory).value, l.category, l.subcategory)
    ensures l in AllListings(data)
  {
    var i := IndexOf(data, l.category).value;
    var j := IndexOf(data[i].val, l.subcategory).value;
    SubListingsMembers(data[i].val, data[i].key, l);
    AllListingsMembers(data, l);
  }

  /** With distinct keys, the listings of the whole compendium tagged with a
      category and subcategory are exactly that subcategory's listings. */
  lemma ListingsOf(data: Data, l: Listing)
    requires DistinctKeys(data)
    requires forall i :: 0 <= i < |data| ==> DistinctKeys(data[i].val)
    ensures l in AllListings(data) <==>
              && Lookup(data, l.category, l.subcategory).Some?
              && l in Listed(Lookup(data, l.category, l.subcategory).value, l.category, l.subcategory)
  {
    if l in AllListings(data) {
      ListingFound(data, l);
    } else if Lookup(data, l.category, l.subcategory).Some? {
      if l in Listed(Lookup(data, l.category, l.subcategory).value, l.category, l.subcategory) {
        ListingReached(data, l);
      }
    }
  }

  /** `searchAll`'s result: every listing that hits the search term and
      passes the filters, in compendium order. */
  function Selected(ls: seq<Listing>, term: string, f: Filters): seq<Listing> {
    if ls == [] then []
    else
      var l := ls[|ls| - 1];
      Selected(ls[..|ls| - 1], term, f) + if Hit(l.item, term) && Filtered(l, f) then [l] else []
  }

  lemma {:induction false} SelectedMembers(ls: seq<Listing>, term: string, f: Filters, l: Listing)
    ensures l in Selected(ls, term, f) <==> l in ls && Hit(l.item, term) && Filtered(l, f)
  {
    if ls != [] {
      SelectedMembers(ls[..|ls| - 1], term, f, l);
      assert ls == ls[..|ls| - 1] + [ls[|ls| - 1]];
    }
  }

  /** A non-empty search across the compendium finds, within one
      subcategory, exactly what `getItems` with that search finds there. */
  lemma SearchAllAgreesWithGetItems(data: Data, term: string, f: Filters, l: Listing)
    requires term != ""
    requires DistinctKeys(data)
    requires forall i :: 0 <= i < |data| ==> DistinctKeys(data[i].val)
    ensures l in Selected(AllListings(data), term, f) <==>
              l in GetItems(data, l.category, l.subcategory, f.(search := term))
  {
    SelectedMembers(AllListings(data), term, f, l);
    ListingsOf(data, l);
    GetItemsSpec(data, l.category, l.subcategory, f.(search := term), l);
  }

  lemma {:induction false} SelectedAppend(a: seq<Listing>, b: seq<Listing>, term: string, f: Filters)
    ensures Selected(a + b, term, f) == Selected(a, term, f) + Selected(b, term, f)
  {
    if b != [] {
      var init := b[..|b| - 1];
      SelectedAppend(a, init, term, f);
      assert (a + b)[..|a + b| - 1] == a + init;
      assert (a + b)[|a + b| - 1] == b[|b| - 1];
    } else {
      assert a + b == a;
    }
  }

  lemma ListedSnoc(entries: Subcategory, k: nat, category: string, subcategory: string)
    requires k < |entries|
    ensures Listed(entries[..k + 1], category, subcategory) ==
            Listed(entries[..k], category, subcategory) +
            [Listing(entries[k].val.id.GetOr(entries[k].key), entries[k].val, category, subcategory)]
  {
  }

  lemma SubListingsSnoc(subs: Category, j: nat, category: string)
    requires j < |subs|
    ensures SubListings(subs[..j + 1], category) ==
            SubListings(subs[..j], category) + Listed(subs[j].val, category, subs[j].key)
  {
    assert subs[..j + 1][..j] == subs[..j];
  }

  lemma AllListingsSnoc(data: Data, i: nat)
    requires i < |data|
    ensures AllListings(data[..i + 1]) == AllListings(data[..i]) + SubListings(data[i].val, data[i].key)
  {
    assert data[..i + 1][..i] == data[..i];
  }

  /** `searchAll`: three nested loops over categories, subcategories and
      items, collecting the hits that pass the filters. */
  method SearchAll(data: Data, term: string, f: Filters) returns (results: seq<Listing>)
    ensures results == Selected(AllListings(data), term, f)
  {
    results := [];
    var i := 0;
    while i < |data|
      invariant 0 <= i <= |data|
      invariant results == Selected(AllListings(data[..i]), term, f)
    {
      var hits := SearchCategory(data[i].val, data[i].key, term, f);
      AllListingsSnoc(data, i);
      SelectedAppend(AllListings(data[..i]), SubListings(data[i].val, data[i].key), term, f);
      results := results + hits;
      i := i + 1;
    }
    assert data[..i] == data;
  }

  /** The middle loop of `searchAll`, over one category's subcategories. */
  method SearchCategory(subs: Category, category: string, term: string, f: Filters) returns (hits: seq<Listing>)
    ensures hits == Selected(SubListings(subs, category), term, f)
  {
    hits := [];
    var j := 0;
    while j < |subs|
      invariant 0 <= j <= |subs|
      invariant hits == Selected(SubListings(subs[..j], category), term, f)
    {
      var more := SearchEntries(subs[j].val, category, subs[j].key, term, f);
      SubListingsSnoc(subs, j, category);
      SelectedAppend(SubListings(subs[..j], category), Listed(subs[j].val, category, subs[j].key), term, f);
      hits := hits + more;
      j := j + 1;
    }
    assert subs[..j] == subs;
  }

  /** The inner loop of `searchAll`, over one subcategory's entries. */
  method SearchEntries(entries: Subcategory, category: string, subcategory: string, term: string, f: Filters)
    returns (hits: seq<Listing>)
    ensures hits == Selected(Listed(entries, category, subcategory), term, f)
  {
    hits := [];
    var k := 0;
    while k < |entries|
      invariant 0 <= k <= |entries|
      invariant hits == Selected(Listed(entries[..k], category, subcategory), term, f)
    {
      var item := entries[k].val;
      var listing := Listing(item.id.GetOr(entries[k].key), item, category, subcategory);
      ListedSnoc(entries, k, category, subcategory);
      SelectedAppend(Listed(entries[..k], category, subcategory), [listing], term, f);
      if Hit(item, term) && Filtered(listing, f) {
        hits := hits + [listing];
      }
      k := k + 1;
    }
    assert entries[..k] == entries;
  }

  // ---------------------------------------------------------------------------
  // Filter options

  /** The three `Set`s of `getFilterOptions` in insertion order. */
  datatype Seen = Seen(rarities: seq<string>, levels: seq<int>, types: seq<string>)

  function AddNew<T(==)>(xs: seq<T>, x: T): seq<T> {
    if x in xs then xs else xs + [x]
  }

  /** Only truthy values are collected: a non-empty rarity or type, a
      non-zero level. */
  function Collect(s: Seen, item: CompItem): Seen {
    Seen(
      if item.rarity.Some? && item.rarity.value != "" then AddNew(s.rarities, item.rarity.value) else s.rarities,
      if item.level.Some? && item.level.value != 0 then AddNew(s.levels, item.level.value) else s.levels,
      if item.itemType.Some? && item.itemType.value != "" then AddNew(s.types, item.itemType.value) else s.types)
  }

  /** The sets after visiting `ls`, starting from `s`. */
  function CollectFrom(s: Seen, ls: seq<Listing>): Seen {
    if ls == [] then s
    else Collect(CollectFrom(s, ls[..|ls| - 1]), ls[|ls| - 1].item)
  }

  function CollectAll(ls: seq<Listing>): Seen {
    CollectFrom(Seen([], [], []), ls)
  }

  lemma {:induction false} CollectFromAppend(s: Seen, a: seq<Listing>, b: seq<Listing>)
    ensures CollectFrom(s, a + b) == CollectFrom(CollectFrom(s, a), b)
  {
    if b != [] {
      var init := b[..|b| - 1];
      CollectFromAppend(s, a, init);
      assert (a + b)[..|a + b| - 1] == a + init;
      assert (a + b)[|a + b| - 1] == b[|b| - 1];
    } else {
      assert a + b == a;
    }
  }

  lemma AddNewSpec<T>(xs: seq<T>, x: T)
    requires NoDups(xs)
    ensures NoDups(AddNew(xs, x))
    ensures forall y :: y in AddNew(xs, x) <==> y in xs || y == x
  {
  }

  /** The collected values are distinct and are exactly the truthy values
      of the listings. */
  lemma {:induction false} CollectAllSpec(ls: seq<Listing>)
    decreases |ls|
    ensures NoDups(CollectAll(ls).rarities) && NoDups(CollectAll(ls).levels) && NoDups(CollectAll(ls).types)
    ensures forall x :: x in CollectAll(ls).rarities <==> x != "" && exists l :: l in ls && l.item.rarity == Some(x)
    ensures forall n :: n in CollectAll(ls).levels <==> n != 0 && exists l :: l in ls && l.item.level == Some(n)
    ensures forall x :: x in CollectAll(ls).types <==> x != "" && exists l :: l in ls && l.item.itemType == Some(x)
  {
    if ls != [] {
      var init := ls[..|ls| - 1];
      var last := ls[|ls| - 1];
      var s := CollectAll(init);
      CollectAllSpec(init);
      assert CollectAll(ls) == Collect(s, last.item);
      assert ls == init + [last];
      if last.item.rarity.Some? && last.item.rarity.value != "" { AddNewSpec(s.rarities, last.item.rarity.value); }
      if last.item.level.Some? && last.item.level.value != 0 { AddNewSpec(s.levels, last.item.level.value); }
      if last.item.itemType.Some? && last.item.itemType.value != "" { AddNewSpec(s.types, last.item.itemType.value); }
    }
  }

  datatype FilterOptions = FilterOptions(rarities: seq<string>, levels: seq<string>, types: seq<string>)

  function IntLe(a: int, b: int): bool {
    a <= b
  }

  function LevelStrings(ns: seq<int>): (r: seq<string>)
    ensures |r| == |ns| && forall i :: 0 <= i < |ns| ==> r[i] == IntToString(ns[i])
  {
    seq(|ns|, i requires 0 <= i < |ns| => IntToString(ns[i]))
  }

  /** `'all'` first, then the collected values: rarities and types in
      character-code order, levels in numeric order. */
  function OptionsOf(s: Seen): FilterOptions {
    FilterOptions(["all"] + SortBy(s.rarities, LexLe),
                  ["all"] + LevelStrings(SortBy(s.levels, IntLe)),
                  ["all"] + SortBy(s.types, LexLe))
  }

  lemma LexOrder()
    ensures TotalPreorder(LexLe)
  {
    forall a, b ensures LexLe(a, b) || LexLe(b, a) {
      LexLeTotal(a, b);
    }
    forall a, b, c | LexLe(a, b) && LexLe(b, c) ensures LexLe(a, c) {
      LexLeTrans(a, b, c);
    }
  }

  lemma SortedStrings(xs: seq<string>)
    requires NoDups(xs)
    ensures SortedBy(SortBy(xs, LexLe), LexLe) && NoDups(SortBy(xs, LexLe))
    ensures forall x :: x in SortBy(xs, LexLe) <==> x in xs
  {
    LexOrder();
    SortBySorted(xs, LexLe);
    SortByNoDups(xs, LexLe);
    forall x ensures x in SortBy(xs, LexLe) <==> x in xs {
      SortByMembers(xs, LexLe, x);
    }
  }

  /** The rarity options: `'all'`, then every non-empty rarity of the
      compendium once, in character-code order. */
  lemma RarityOptions(data: Data)
    ensures OptionsOf(CollectAll(AllListings(data))).rarities[0] == "all"
    ensures SortedBy(OptionsOf(CollectAll(AllListings(data))).rarities[1..], LexLe)
    ensures NoDups(OptionsOf(CollectAll(AllListings(data))).rarities[1..])
    ensures forall x :: x in OptionsOf(CollectAll(AllListings(data))).rarities[1..] <==>
              x != "" && exists l :: l in AllListings(data) && l.item.rarity == Some(x)
  {
    var s := CollectAll(AllListings(data));
    CollectAllSpec(AllListings(data));
    SortedStrings(s.rarities);
    assert OptionsOf(s).rarities[1..] == SortBy(s.rarities, LexLe);
  }

  /** The type options: `'all'`, then every non-empty type once, in
      character-code order. */
  lemma TypeOptions(data: Data)
    ensures OptionsOf(CollectAll(AllListings(data))).types[0] == "all"
    ensures SortedBy(OptionsOf(CollectAll(AllListings(data))).types[1..], LexLe)
    ensures NoDups(OptionsOf(CollectAll(AllListings(data))).types[1..])
    ensures forall x :: x in OptionsOf(CollectAll(AllListings(data))).types[1..] <==>
              x != "" && exists l :: l in AllListings(data) && l.item.itemType == Some(x)
  {
    var s := CollectAll(AllListings(data));
    CollectAllSpec(AllListings(data));
    SortedStrings(s.types);
    assert OptionsOf(s).types[1..] == SortBy(s.types, LexLe);
  }

  /** The level options: `'all'`, then the decimal text of every non-zero
      level once, in ascending numeric order. */
  lemma LevelOptions(data: Data)
    ensures OptionsOf(CollectAll(AllListings(data))).levels[0] == "all"
    ensures var ns := SortBy(CollectAll(AllListings(data)).levels, IntLe);
            && OptionsOf(CollectAll(AllListings(data))).levels[1..] == LevelStrings(ns)
            && (forall i, j :: 0 <= i < j < |ns| ==> ns[i] < ns[j])
            && (forall n :: n in ns <==> n != 0 && exists l :: l in AllListings(data) && l.item.level == Some(n))
  {
    var s := CollectAll(AllListings(data));
    var ns := SortBy(s.levels, IntLe);
    CollectAllSpec(AllListings(data));
    assert TotalPreorder(IntLe);
    SortBySorted(s.levels, IntLe);
    SortByNoDups(s.levels, IntLe);
    forall n ensures n in ns <==> n in s.levels {
      SortByMembers(s.levels, IntLe, n);
    }
    forall i, j | 0 <= i < j < |ns| ensures ns[i] < ns[j] {
      assert IntLe(ns[i], ns[j]);
    }
    assert OptionsOf(s).levels[1..] == LevelStrings(ns);
  }

  /** `getFilterOptions`: three nested loops filling the sets, then the sorts. */
  method GetFilterOptions(data: Data) returns (r: FilterOptions)
    ensures r == OptionsOf(CollectAll(AllListings(data)))
  {
    var seen := Seen([], [], []);
    var i := 0;
    while i < |data|
      invariant 0 <= i <= |data|
      invariant seen == CollectAll(AllListings(data[..i]))
    {
      AllListingsSnoc(data, i);
      CollectFromAppend(Seen([], [], []), AllListings(data[..i]), SubListings(data[i].val, data[i].key));
      seen := CollectCategory(seen, data[i].val, data[i].key);
      i := i + 1;
    }
    assert data[..i] == data;
    r := FilterOptions(["all"] + SortBy(seen.rarities, LexLe),
                       ["all"] + LevelStrings(SortBy(seen.levels, IntLe)),
                       ["all"] + SortBy(seen.types, LexLe));
  }

  /** The middle loop of `getFilterOptions`. */
  method CollectCategory(start: Seen, subs: Category, category: string) returns (seen: Seen)
    ensures seen == CollectFrom(start, SubListings(subs, category))
  {
    seen := start;
    var j := 0;
    while j < |subs|
      invariant 0 <= j <= |subs|
      invariant seen == CollectFrom(start, SubListings(subs[..j], category))
    {
      SubListingsSnoc(subs, j, category);
      CollectFromAppend(start, SubListings(subs[..j], category), Listed(subs[j].val, category, subs[j].key));
      seen := CollectEntries(seen, subs[j].val, category, subs[j].key);
      j := j + 1;
    }
    assert subs[..j] == subs;
  }

  /** The inner loop of `getFilterOptions`: each truthy rarity, level and
      type goes into its set. */
  method CollectEntries(start: Seen, entries: Subcategory, category: string, subcategory: string) returns (seen: Seen)
    ensures seen == CollectFrom(start, Listed(entries, category, subcategory))
  {
    var rarities, levels, types := start.rarities, start.levels, start.types;
    var k := 0;
    while k < |entries|
      invariant 0 <= k <= |entries|
      invariant Seen(rarities, levels, types) == CollectFrom(start, Listed(entries[..k], category, subcategory))
    {
      var item := entries[k].val;
      ListedSnoc(entries, k, category, subcategory);
      assert Listed(entries[..k + 1], category, subcategory)[..k] == Listed(entries[..k], category, subcategory);
      if item.rarity.Some? && item.rarity.value != "" && item.rarity.value !in rarities {
        rarities := rarities + [item.rarity.value];
      }
      if item.level.Some? && item.level.value != 0 && item.level.value !in levels {
        levels := levels + [item.level.value];
      }
      if item.itemType.Some? && item.itemType.value != "" && item.itemType.value !in types {
        types := types + [item.itemType.value];
      }
      k := k + 1;
    }
    assert entries[..k] == entries;
    seen := Seen(rarities, levels, types);
  }

  // ---------------------------------------------------------------------------
  // Category counts

  /** The sum of the subcategory sizes. */
  function CountOf(subs: Category): nat {
    if subs == [] then 0 else CountOf(subs[..|subs| - 1]) + |subs[|subs| - 1].val|
  }

  /** The count is the number of listings the category holds. */
  lemma {:induction false} CountIsListings(subs: Category, category: string)
    ensures CountOf(subs) == |SubListings(subs, category)|
  {
    if subs != [] {
      CountIsListings(subs[..|subs| - 1], category);
    }
  }

  /** `_getCategoryCount`: 0 for a missing category, otherwise a counting loop. */
  method CategoryCount(category: Option<Category>) returns (count: nat)
    ensures category.None? ==> count == 0
    ensures category.Some? ==> count == CountOf(category.value)
  {
    if category.None? {
      return 0;
    }
    var subs := category.value;
    count := 0;
    var j := 0;
    while j < |subs|
      invariant 0 <= j <= |subs|
      invariant count == CountOf(subs[..j])
    {
      assert subs[..j + 1][..j] == subs[..j];
      count := count + |subs[j].val|;
      j := j + 1;
    }
    assert subs[..j] == subs;
  }

  // ---------------------------------------------------------------------------
  // The cache

  /** Five minutes, in milliseconds. */
  const CacheDuration := 5 * 60 * 1000

  /** The cached data is served while it is younger than five minutes. */
  predicate Fresh(cached: Option<Data>, loadedAt: int, now: int) {
    cached.Some? && now - loadedAt < CacheDuration
  }

  /** The cache variables as a value. */
  datatype CacheState = CacheState(cached: Option<Data>, loadedAt: int)

  /** One load at `now` as a value: the new cache state and the data served. */
  function Loaded(st: CacheState, now: int, fetched: Option<Data>): (CacheState, Data) {
    if Fresh(st.cached, st.loadedAt, now) then (st, st.cached.value)
    else if fetched.None? then (st, [])
    else (CacheState(fetched, now), fetched.value)
  }

  /** After a successful fetch at `t`, every load before `t` plus five minutes
      serves the same data without fetching (whatever `fetched2` would be),
      and the first load from then on fetches again. */
  lemma LoadWindow(st: CacheState, t: int, fetched: Option<Data>, t2: int, fetched2: Option<Data>)
    requires !Fresh(st.cached, st.loadedAt, t) && fetched.Some?
    ensures Loaded(st, t, fetched).0 == CacheState(fetched, t) && Loaded(st, t, fetched).1 == fetched.value
    ensures t2 < t + CacheDuration ==> Loaded(Loaded(st, t, fetched).0, t2, fetched2) == Loaded(st, t, fetched)
    ensures t2 >= t + CacheDuration && fetched2.Some? ==>
              Loaded(Loaded(st, t, fetched).0, t2, fetched2) == (CacheState(fetched2, t2), fetched2.value)
  {
  }

  /** The module-level `compendiumCache` and `lastLoadTime`. */
  class Cache {
    var cached: Option<Data>
    var loadedAt: int

    constructor ()
      ensures cached.None? && loadedAt == 0
    {
      cached := None;
      loadedAt := 0;
    }

    /** `loadCompendiumData` at time `now`; `fetched` is the outcome of the
        fetch (`None` when it fails), consulted only when the cache is stale.
        A failed fetch yields the empty object and keeps the cache. */
    method Load(now: int, fetched: Option<Data>) returns (data: Data)
      modifies this
      ensures old(Fresh(cached, loadedAt, now)) ==> data == old(cached).value && unchanged(this)
      ensures !old(Fresh(cached, loadedAt, now)) && fetched.Some? ==>
                data == fetched.value && cached == fetched && loadedAt == now
      ensures !old(Fresh(cached, loadedAt, now)) && fetched.None? ==> data == [] && unchanged(this)
      ensures (CacheState(cached, loadedAt), data) == Loaded(CacheState(old(cached), old(loadedAt)), now, fetched)
    {
      if cached.Some? && now - loadedAt < CacheDuration {
        return cached.value;
      }
      if fetched.None? {
        return [];
      }
      cached := fetched;
      loadedAt := now;
      data := fetched.value;
    }

    /** `clearCache`: the next load fetches, whatever the time. */
    method Clear()
      modifies this
      ensures cached.None? && loadedAt == 0
      ensures forall now :: !Fresh(cached, loadedAt, now)
    {
      cached := None;
      loadedAt := 0;
    }

    /** `importData`; `parsed` is the outcome of `JSON.parse` (`None` when it
        throws). A failed import reports false and keeps the cache. */
    method Import(parsed: Option<Data>, now: int) returns (ok: bool)
      modifies this
      ensures ok <==> parsed.Some?
      ensures ok ==> cached == parsed && loadedAt == now && Fresh(cached, loadedAt, now)
      ensures !ok ==> unchanged(this)
    {
      if parsed.None? {
        return false;
      }
      cached := parsed;
      loadedAt := now;
      return true;
    }
  }
}
