/** The character record (`actor.system`) and the reference data the rules
    engine reads: items, feats, resources, class definitions and set-bonus
    tables.

    Conventions, following how the source reads each field:
    - a field the source reads with `x || default` is a plain `int` or `string`
      in which `0` or `""` stands for "absent" (JavaScript treats them alike);
    - a field whose absence differs from a falsy value is an `Option`;
    - a JavaScript object that is iterated is a `Dict` (ordered entries). */
module Schema {
  import opened Common

  /** The ten stat keys equipment bonuses track, in the source's order. */
  const StatKeys: seq<string> :=
    ["attack", "defense", "magic", "health", "mana", "stamina",
     "critChance", "critDamage", "dodge", "block"]

  const TrackedKeys: set<string> := set k | k in StatKeys

  /** A stat map such as `item.stats`; `None` is a value that is not a number. */
  type Stats = Dict<Option<int>>

  /** `{value, max}` pairs: attributes, hp and resource sub-pools. */
  datatype Pool = Pool(value: int, max: int)

  datatype Attributes = Attributes(
    hp: Pool, str: Pool, dex: Pool, end: Pool, wis: Pool, intellect: Pool, cha: Pool,
    crit: int)

  datatype Combat = Combat(
    attackBonus: int, defense: int, damageBonus: int,
    damageDice: string, utilityDice: string)

  /** An item of the inventory, which is also what an equipment slot holds.
      `setTag` is the item's `set` field, `itemType` its `type`; `quantity`,
      `weight` and `value` are read with `|| 1` / `|| 0`, weight in tenths of
      a pound. */
  datatype Item = Item(
    id: string, name: string, itemType: string, category: string, setTag: string,
    stats: Stats, quantity: int, weight: int, value: int, description: string,
    equipped: bool)

  /** A feat; `enabled` is `None` when the flag is absent. */
  datatype Feat = Feat(id: string, name: string, enabled: Option<bool>, benefits: seq<string>)

  datatype FeatBonuses = FeatBonuses(attack: int, defense: int, damage: int)

  /** A character resource: flat `{value, max}` or one of the shaped forms
      keyed by spell level (`slots`), ability name (`abilities`) or category
      (`types`). */
  datatype Resource = Resource(
    description: string, color: string,
    value: Option<int>, max: Option<int>,
    slots: Option<Dict<Pool>>, abilities: Option<Dict<Pool>>, types: Option<Dict<Pool>>)

  /** The persisted character data. */
  datatype SystemData = SystemData(
    className: string, level: int, experience: int,
    attributes: Option<Attributes>, combat: Option<Combat>,
    notes: string, resources: Dict<Resource>,
    unlockedFeatures: seq<string>, availableSpells: seq<string>,
    feats: seq<Feat>,
    /** `preferences.equipmentPreferred`: slot name to preferred item id or name */
    preferences: Option<Dict<string>>,
    equipment: Option<Dict<Option<Item>>>,
    equipmentBonuses: Option<map<string, int>>,
    setCounts: Dict<int>,
    featBonuses: FeatBonuses,
    inventory: Option<Dict<seq<Item>>>,
    currency: Option<Dict<int>>)

  // ---------------------------------------------------------------------------
  // Reference data

  /** One entry of a class's `resources` table. */
  datatype ClassResource = ClassResource(description: string, value: Option<int>, max: int, color: string)

  /** `baseStats` fields the engine reads; 0 / "" stand for absent. */
  datatype BaseStats = BaseStats(health: int, damageDice: string, utilityDice: string, critRoll: int)

  /** A class definition. `progressionLevels` are the levels that have a
      `levelProgression` entry. */
  datatype ClassInfo = ClassInfo(
    baseStats: BaseStats, resources: Dict<ClassResource>, progressionLevels: set<int>)

  /** One threshold of a set's bonus table: `{stats, desc}` or a bare stat map. */
  datatype ThresholdDef =
    | WithStats(stats: Stats, desc: Option<string>)
    | Bare(bare: Stats)
  {
    /** `def?.stats ?? def` */
    function StatsOf(): Stats {
      match this
      case WithStats(s, _) => s
      case Bare(s) => s
    }
  }

  datatype Threshold = Threshold(count: int, def: ThresholdDef)

  /** `CONFIG.CustomTTRPG.SetBonuses`: set name to its thresholds, in key order. */
  type SetTable = map<string, seq<Threshold>>

  // ---------------------------------------------------------------------------
  // Stat sums

  /** What `applyStats` adds to tracked key `t` for one stat map: every entry
      with that key, non-numbers counting 0. */
  function StatTotal(stats: Stats, t: string): int {
    if stats == [] then 0
    else StatTotal(stats[..|stats| - 1], t)
         + (if stats[|stats| - 1].key == t then NumberOr0(stats[|stats| - 1].val) else 0)
  }

  /** In a stat map with distinct keys the total of a key is its one value. */
  lemma {:induction false} StatTotalLookup(stats: Stats, t: string)
    requires DistinctKeys(stats)
    ensures StatTotal(stats, t) == match Get(stats, t) case None => 0 case Some(v) => NumberOr0(v)
  {
    if stats != [] {
      var init := stats[..|stats| - 1];
      var last := stats[|stats| - 1];
      assert DistinctKeys(init);
      StatTotalLookup(init, t);
      if last.key == t {
        assert !HasKey(init, t);
        IndexOfFirst(stats, t, |stats| - 1);
      } else {
        match IndexOf(init, t)
        case None =>
          assert !HasKey(stats, t) by {
            forall m | 0 <= m < |stats| ensures stats[m].key != t {
              if m < |init| { assert stats[m] == init[m]; }
            }
          }
        case Some(m) =>
          IndexOfFirst(stats, t, m);
      }
    }
  }

  lemma StatTotalAppend(a: Stats, b: Stats, t: string)
    ensures StatTotal(a + b, t) == StatTotal(a, t) + StatTotal(b, t)
    decreases |b|
  {
    if b == [] {
      assert a + b == a;
    } else {
      assert (a + b)[..|a + b| - 1] == a + b[..|b| - 1];
      StatTotalAppend(a, b[..|b| - 1], t);
    }
  }
}
