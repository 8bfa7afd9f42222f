/** The character rules engine of `Actor/Actor.js`: schema defaults
    (`prepareBaseData`) and the derived-stat pass (`prepareDerivedData`), which
    recomputes combat numbers and HP from the class and attributes, seeds
    missing class resources, adds equipment and set bonuses and finally feat
    bonuses.

    The class catalog, the set-bonus table and the `hpMultiplier` setting are
    parameters. Each stage is specified by a function on `SystemData`; the
    methods of `CustomActor` update `system` step by step and are proved equal
    to those functions. */
module Actor {
  import opened Common
  import opened Schema
  import opened Feats

  // ---------------------------------------------------------------------------
  // Defaults (prepareBaseData)

  const DefaultAttributes: Attributes :=
    Attributes(Pool(10, 10), Pool(8, 8), Pool(8, 8), Pool(8, 8), Pool(8, 8), Pool(8, 8), Pool(8, 8), 20)

  const DefaultCombat: Combat := Combat(0, 10, 0, "1d4", "1d4")

  const EquipmentSlots: seq<string> :=
    ["head", "chest", "legs", "feet", "ring1", "ring2", "trinket1", "magicItem",
     "mainHand", "offHand", "ranged"]

  /** The eleven slots, all empty. */
  function EmptyEquipment(): Dict<Option<Item>> {
    seq(|EquipmentSlots|, i requires 0 <= i < |EquipmentSlots| => Entry(EquipmentSlots[i], None))
  }

  /** Every tracked stat key at 0. */
  function ZeroBonuses(): map<string, int> {
    map t | t in TrackedKeys :: 0
  }

  /** Every field that `prepareBaseData` defaults holds a value of its own. */
  predicate Normalized(s: SystemData) {
    && s.className != "" && s.level != 0
    && s.attributes.Some? && s.combat.Some?
    && s.preferences.Some? && s.equipment.Some? && s.equipmentBonuses.Some?
  }

  /** `prepareBaseData`: each absent (or falsy) field gets its default. Strings,
      lists and the resource object whose default is empty are unchanged by
      their `|| ""`, `|| []` and `|| {}`. */
  function Normalize(s: SystemData): (r: SystemData)
    ensures Normalized(r)
  {
    s.(
      className := if s.className == "" then "Fighter" else s.className,
      level := if s.level == 0 then 1 else s.level,
      attributes := if s.attributes.None? then Some(DefaultAttributes) else s.attributes,
      combat := if s.combat.None? then Some(DefaultCombat) else s.combat,
      preferences := if s.preferences.None? then Some([]) else s.preferences,
      equipment := if s.equipment.None? then Some(EmptyEquipment()) else s.equipment,
      equipmentBonuses := if s.equipmentBonuses.None? then Some(ZeroBonuses()) else s.equipmentBonuses)
  }

  /** Normalisation never overwrites a value that is present, and fills
      what is absent with the documented default. */
  lemma NormalizeKeepsPresent(s: SystemData)
    ensures s.className != "" ==> Normalize(s).className == s.className
    ensures s.className == "" ==> Normalize(s).className == "Fighter"
    ensures s.level != 0 ==> Normalize(s).level == s.level
    ensures s.level == 0 ==> Normalize(s).level == 1
    ensures s.attributes.Some? ==> Normalize(s).attributes == s.attributes
    ensures s.attributes.None? ==> Normalize(s).attributes.value.hp == Pool(10, 10)
    ensures s.attributes.None? ==> Normalize(s).attributes == Some(DefaultAttributes)
    ensures s.combat.Some? ==> Normalize(s).combat == s.combat
    ensures s.combat.None? ==> Normalize(s).combat == Some(DefaultCombat)
    ensures s.preferences.Some? ==> Normalize(s).preferences == s.preferences
    ensures s.preferences.None? ==> Normalize(s).preferences == Some([])
    ensures s.equipment.Some? ==> Normalize(s).equipment == s.equipment
    ensures s.equipment.None? ==> Normalize(s).equipment == Some(EmptyEquipment())
    ensures s.equipment.None? ==> |Normalize(s).equipment.value| == 11
    ensures s.equipment.None? ==> forall i :: 0 <= i < 11 ==> Normalize(s).equipment.value[i].val.None?
    ensures s.equipmentBonuses.Some? ==> Normalize(s).equipmentBonuses == s.equipmentBonuses
    ensures s.equipmentBonuses.None? ==> Normalize(s).equipmentBonuses == Some(ZeroBonuses())
    ensures Normalize(s).experience == s.experience && Normalize(s).resources == s.resources
    ensures Normalize(s).feats == s.feats && Normalize(s).inventory == s.inventory
  {
  }

  /** Normalisation changes nothing exactly when the record is already normalised. */
  lemma NormalizeFixpoint(s: SystemData)
    ensures Normalize(s) == s <==> Normalized(s)
  {
  }

  // ---------------------------------------------------------------------------
  // Class and attribute maths (_calculateDerivedStats)

  /** `Math.floor((v - 10) / 2)`: the largest integer whose double does not exceed `v - 10`. */
  function AbilityBonus(v: int): (r: int)
    ensures 2 * r <= v - 10 < 2 * r + 2
  {
    (v - 10) / 2
  }

  /** `game.settings.get(..., "hpMultiplier") || 2` */
  function HpMultiplier(setting: int): int {
    if setting == 0 then 2 else setting
  }

  /** Max HP before equipment: `max(1, (Health || 10) + floor((end - 10) / 2) * multiplier)`. */
  function BaseHpMax(ci: ClassInfo, endValue: int, setting: int): (r: int)
    ensures r >= 1
    ensures r >= (if ci.baseStats.health == 0 then 10 else ci.baseStats.health)
                 + AbilityBonus(endValue) * HpMultiplier(setting)
    ensures r == 1 || r == (if ci.baseStats.health == 0 then 10 else ci.baseStats.health)
                          + AbilityBonus(endValue) * HpMultiplier(setting)
  {
    var baseHealth := if ci.baseStats.health == 0 then 10 else ci.baseStats.health;
    Max(1, baseHealth + AbilityBonus(endValue) * HpMultiplier(setting))
  }

  /** The record after `_calculateDerivedStats`. */
  function WithDerivedStats(s: SystemData, ci: ClassInfo, setting: int): SystemData
    requires s.attributes.Some? && s.combat.Some?
  {
    var a := s.attributes.value;
    var c := s.combat.value;
    var hpMax := BaseHpMax(ci, a.end.value, setting);
    var strBonus := AbilityBonus(a.str.value);
    s.(
      attributes := Some(a.(
        hp := Pool(Min(a.hp.value, hpMax), hpMax),
        crit := if ci.baseStats.critRoll != 0 then ci.baseStats.critRoll else a.crit)),
      combat := Some(Combat(
        strBonus + s.level / 2,
        10 + AbilityBonus(a.dex.value) + s.level / 3,
        strBonus,
        if ci.baseStats.damageDice != "" then ci.baseStats.damageDice else c.damageDice,
        if ci.baseStats.utilityDice != "" then ci.baseStats.utilityDice else c.utilityDice)))
  }

  // ---------------------------------------------------------------------------
  // Class resources (_initializeClassResources)

  /** A character resource seeded from a class entry. */
  function Seed(cr: ClassResource): Resource {
    Resource(cr.description, cr.color, cr.value, Some(cr.max), None, None, None)
  }

  /** `resources` after visiting the class entries in order, adding each one
      that is missing. */
  function AddMissing(res: Dict<Resource>, cls: Dict<ClassResource>): Dict<Resource> {
    if cls == [] then res
    else
      var prev := AddMissing(res, cls[..|cls| - 1]);
      var e := cls[|cls| - 1];
      if HasKey(prev, e.key) then prev else Put(prev, e.key, Seed(e.val))
  }

  /** A resource name absent from both the character and the class stays absent. */
  lemma {:induction false} AddMissingAbsent(res: Dict<Resource>, cls: Dict<ClassResource>, k: string)
    requires !HasKey(res, k) && !HasKey(cls, k)
    ensures !HasKey(AddMissing(res, cls), k)
  {
    if cls != [] {
      var init := cls[..|cls| - 1];
      var e := cls[|cls| - 1];
      HasKeyInit(cls, k);
      AddMissingAbsent(res, init, k);
      KeysPut(AddMissing(res, init), e.key, Seed(e.val));
    }
  }

  /** Existing resources are never overwritten. */
  lemma {:induction false} AddMissingKeeps(res: Dict<Resource>, cls: Dict<ClassResource>, k: string)
    requires HasKey(res, k)
    ensures Get(AddMissing(res, cls), k) == Get(res, k)
  {
    if cls != [] {
      var init := cls[..|cls| - 1];
      var e := cls[|cls| - 1];
      AddMissingKeeps(res, init, k);
      var prev := AddMissing(res, init);
      if !HasKey(prev, e.key) {
        GetSome(res, k);
        GetSome(prev, k);
        GetPut(prev, e.key, Seed(e.val), k);
      }
    }
  }

  /** A resource the class defines and the character lacks is seeded from
      the class's entry of that name. */
  lemma {:induction false} AddMissingSeeds(res: Dict<Resource>, cls: Dict<ClassResource>, k: string)
    requires !HasKey(res, k) && HasKey(cls, k)
    ensures Get(AddMissing(res, cls), k) == Some(Seed(Get(cls, k).value))
  {
    var init := cls[..|cls| - 1];
    var e := cls[|cls| - 1];
    var prev := AddMissing(res, init);
    HasKeyInit(cls, k);
    if HasKey(init, k) {
      AddMissingSeeds(res, init, k);
      GetInit(cls, k);
      if !HasKey(prev, e.key) {
        GetSome(prev, k);
        GetPut(prev, e.key, Seed(e.val), k);
      }
    } else {
      AddMissingAbsent(res, init, k);
      GetPut(prev, e.key, Seed(e.val), k);
      IndexOfFirst(cls, k, |cls| - 1);
    }
  }

  /** Seeding only appends: the existing entries keep their places. */
  lemma {:induction false} AddMissingPrefix(res: Dict<Resource>, cls: Dict<ClassResource>)
    ensures |AddMissing(res, cls)| >= |res| && AddMissing(res, cls)[..|res|] == res
  {
    if cls != [] {
      var init := cls[..|cls| - 1];
      var e := cls[|cls| - 1];
      AddMissingPrefix(res, init);
      var prev := AddMissing(res, init);
      if !HasKey(prev, e.key) {
        assert Put(prev, e.key, Seed(e.val)) == prev + [Entry(e.key, Seed(e.val))];
        assert (prev + [Entry(e.key, Seed(e.val))])[..|res|] == prev[..|res|];
      }
    }
  }

  lemma HasKeyInit<V>(d: Dict<V>, k: string)
    requires d != []
    ensures HasKey(d, k) <==> HasKey(d[..|d| - 1], k) || d[|d| - 1].key == k
  {
    if HasKey(d, k) && d[|d| - 1].key != k {
      var i :| 0 <= i < |d| && d[i].key == k;
      assert d[..|d| - 1][i].key == k;
    }
  }

  lemma GetInit<V>(d: Dict<V>, k: string)
    requires d != [] && HasKey(d[..|d| - 1], k)
    ensures Get(d, k) == Get(d[..|d| - 1], k)
  {
    var m := IndexOf(d[..|d| - 1], k).value;
    IndexOfFirst(d, k, m);
  }

  /** Seeding twice adds nothing the second time. */
  lemma {:induction false} AddMissingIdempotent(res: Dict<Resource>, cls: Dict<ClassResource>)
    ensures AddMissing(AddMissing(res, cls), cls) == AddMissing(res, cls)
  {
    var once := AddMissing(res, cls);
    forall k | HasKey(cls, k) ensures HasKey(once, k) {
      if HasKey(res, k) {
        AddMissingKeeps(res, cls, k);
      } else {
        AddMissingSeeds(res, cls, k);
      }
      GetSome(res, k);
      GetSome(once, k);
    }
    AddMissingNoOp(once, cls);
  }

  /** When every class entry is already present nothing is added. */
  lemma {:induction false} AddMissingNoOp(res: Dict<Resource>, cls: Dict<ClassResource>)
    requires forall k :: HasKey(cls, k) ==> HasKey(res, k)
    ensures AddMissing(res, cls) == res
  {
    if cls != [] {
      var init := cls[..|cls| - 1];
      forall k | HasKey(init, k) ensures HasKey(res, k) {
        HasKeyInit(cls, k);
      }
      AddMissingNoOp(res, init);
      HasKeyInit(cls, cls[|cls| - 1].key);
    }
  }

  /** The record after `_initializeClassResources`. */
  function WithClassResources(s: SystemData, ci: ClassInfo): SystemData {
    s.(resources := AddMissing(s.resources, ci.resources))
  }

  // ---------------------------------------------------------------------------
  // Equipment and set bonuses (_recalculateEquipmentBonuses)

  /** What one slot adds to tracked key `t`; an empty slot adds 0. */
  function SlotStat(v: Option<Item>, t: string): int {
    if v.Some? then StatTotal(v.value.stats, t) else 0
  }

  /** Sum over the slots. */
  function SlotsStat(vals: seq<Option<Item>>, t: string): int {
    if vals == [] then 0 else SlotsStat(vals[..|vals| - 1], t) + SlotStat(vals[|vals| - 1], t)
  }

  /** The set tag of a slot, `""` for none. */
  function TagOf(v: Option<Item>): string {
    if v.Some? then v.value.setTag else ""
  }

  /** `counts[k] = (counts[k] || 0) + 1` */
  function Bump(counts: Dict<int>, k: string): Dict<int> {
    Put(counts, k, Get(counts, k).GetOr(0) + 1)
  }

  /** `setCounts` after visiting the slots in order. */
  function SetCounts(vals: seq<Option<Item>>): Dict<int> {
    if vals == [] then []
    else
      var prev := SetCounts(vals[..|vals| - 1]);
      var tag := TagOf(vals[|vals| - 1]);
      if tag != "" then Bump(prev, tag) else prev
  }

  /** How many slots carry set tag `tag`. */
  function CountTag(vals: seq<Option<Item>>, tag: string): nat {
    if vals == [] then 0
    else CountTag(vals[..|vals| - 1], tag) + (if TagOf(vals[|vals| - 1]) == tag then 1 else 0)
  }

  /** Each set-tagged item adds exactly one to its set's count, and only sets
      that occur are counted. */
  lemma {:induction false} SetCountsSpec(vals: seq<Option<Item>>, tag: string)
    requires tag != ""
    ensures Get(SetCounts(vals), tag) == if CountTag(vals, tag) == 0 then None else Some(CountTag(vals, tag) as int)
  {
    if vals != [] {
      var init := vals[..|vals| - 1];
      var prev := SetCounts(init);
      var t := TagOf(vals[|vals| - 1]);
      var c := CountTag(init, tag);
      SetCountsSpec(init, tag);
      assert CountTag(vals, tag) == c + (if t == tag then 1 else 0);
      if t != "" {
        assert SetCounts(vals) == Bump(prev, t);
        BumpCount(prev, t, tag, c);
      } else {
        assert SetCounts(vals) == prev;
      }
    }
  }

  /** Bumping `t` adds one to the count of `t` and leaves every other count. */
  lemma BumpCount(prev: Dict<int>, t: string, tag: string, c: nat)
    requires Get(prev, tag) == if c == 0 then None else Some(c as int)
    ensures Get(Bump(prev, t), tag) == if t == tag then Some(c as int + 1) else Get(prev, tag)
  {
    GetPut(prev, t, Get(prev, t).GetOr(0) + 1, tag);
  }

  /** Each set is counted under one key. */
  lemma {:induction false} SetCountsDistinct(vals: seq<Option<Item>>)
    ensures DistinctKeys(SetCounts(vals))
  {
    if vals != [] {
      var init := vals[..|vals| - 1];
      var t := TagOf(vals[|vals| - 1]);
      SetCountsDistinct(init);
      if t != "" {
        DistinctPut(SetCounts(init), t, Get(SetCounts(init), t).GetOr(0) + 1);
      }
    }
  }

  /** What the thresholds reached by `count` add to key `t`: every one of them,
      not only the highest. */
  function ThresholdsStat(ths: seq<Threshold>, count: int, t: string): int {
    if ths == [] then 0
    else
      ThresholdsStat(ths[..|ths| - 1], count, t)
      + (if count >= ths[|ths| - 1].count then StatTotal(ths[|ths| - 1].def.StatsOf(), t) else 0)
  }

  function ThresholdsOf(table: SetTable, name: string): seq<Threshold> {
    if name in table then table[name] else []
  }

  /** Sum over the counted sets. */
  function SetsStat(counts: Dict<int>, table: SetTable, t: string): int {
    if counts == [] then 0
    else
      var e := counts[|counts| - 1];
      SetsStat(counts[..|counts| - 1], table, t) + ThresholdsStat(ThresholdsOf(table, e.key), e.val, t)
  }

  /** Set bonuses are cumulative: with non-negative bonus stats, reaching a
      higher count never lowers what the thresholds add. */
  lemma {:induction false} ThresholdsMonotone(ths: seq<Threshold>, c1: int, c2: int, t: string)
    requires c1 <= c2
    requires forall i :: 0 <= i < |ths| ==> StatTotal(ths[i].def.StatsOf(), t) >= 0
    ensures ThresholdsStat(ths, c1, t) <= ThresholdsStat(ths, c2, t)
  {
    if ths != [] {
      ThresholdsMonotone(ths[..|ths| - 1], c1, c2, t);
    }
  }

  /** A count that reaches every threshold collects all of them. */
  lemma {:induction false} ThresholdsAllReached(ths: seq<Threshold>, count: int, t: string)
    requires forall i :: 0 <= i < |ths| ==> ths[i].count <= count
    ensures ThresholdsStat(ths, count, t) == AllThresholdsStat(ths, t)
  {
    if ths != [] {
      ThresholdsAllReached(ths[..|ths| - 1], count, t);
    }
  }

  /** The sum of every threshold's stats. */
  function AllThresholdsStat(ths: seq<Threshold>, t: string): int {
    if ths == [] then 0 else AllThresholdsStat(ths[..|ths| - 1], t) + StatTotal(ths[|ths| - 1].def.StatsOf(), t)
  }

  /** `equipmentBonuses`: for each of the ten keys, the slots' stats plus the
      reached set thresholds. Keys outside the ten are dropped. */
  function EquipmentTotals(vals: seq<Option<Item>>, table: SetTable): (r: map<string, int>)
    ensures r.Keys == TrackedKeys
  {
    map t | t in TrackedKeys :: SlotsStat(vals, t) + SetsStat(SetCounts(vals), table, t)
  }

  /** `bonuses.k || 0` */
  function BonusOf(b: map<string, int>, k: string): int {
    if k in b then b[k] else 0
  }

  /** The equipment slots' contents in slot order; no equipment reads as none. */
  function SlotValues(s: SystemData): seq<Option<Item>> {
    if s.equipment.Some? then Values(s.equipment.value) else []
  }

  /** The record after `_recalculateEquipmentBonuses`. */
  function WithEquipment(s: SystemData, table: SetTable): SystemData
    requires s.combat.Some?
  {
    var vals := SlotValues(s);
    ApplyEquipment(s, EquipmentTotals(vals, table), SetCounts(vals))
  }

  /** Stores the computed bonuses and set counts and adds the bonuses to the
      combat block and to the HP maximum, clamping the current HP. */
  function ApplyEquipment(s: SystemData, b: map<string, int>, counts: Dict<int>): SystemData
    requires s.combat.Some?
  {
    s.(equipmentBonuses := Some(b), setCounts := counts,
       combat := Some(EquipCombat(s.combat.value, b)),
       attributes := EquipHp(s.attributes, b))
  }

  /** Attack and defense gain their bonuses; damage gains the attack bonus
      when it is positive. */
  function EquipCombat(c: Combat, b: map<string, int>): Combat {
    c.(attackBonus := c.attackBonus + BonusOf(b, "attack"),
       defense := c.defense + BonusOf(b, "defense"),
       damageBonus := c.damageBonus + Max(0, BonusOf(b, "attack")))
  }

  /** The health bonus raises the HP maximum and the current HP is clamped to it. */
  function EquipHp(attributes: Option<Attributes>, b: map<string, int>): Option<Attributes> {
    if attributes.None? then None
    else
      var a := attributes.value;
      var hpMax := a.hp.max + BonusOf(b, "health");
      Some(a.(hp := Pool(Min(a.hp.value, hpMax), hpMax)))
  }

  // ---------------------------------------------------------------------------
  // Feats (_applyFeatBonuses)

  /** The record after `_applyFeatBonuses`. */
  function WithFeats(s: SystemData): SystemData
    requires s.combat.Some?
  {
    var f := FeatTotals(s.feats);
    var c := s.combat.value;
    s.(
      featBonuses := f,
      combat := Some(c.(
        attackBonus := c.attackBonus + f.attack,
        defense := c.defense + f.defense,
        damageBonus := c.damageBonus + f.damage)))
  }

  // ---------------------------------------------------------------------------
  // The whole pass (prepareDerivedData)

  /** What `prepareDerivedData` needs: a combat block, and an attributes block
      when the class is known. */
  predicate ReadyForDerive(s: SystemData, catalog: map<string, ClassInfo>) {
    s.combat.Some? && (s.className in catalog ==> s.attributes.Some?)
  }

  function Derive(s: SystemData, catalog: map<string, ClassInfo>, table: SetTable, setting: int): SystemData
    requires ReadyForDerive(s, catalog)
  {
    var s1 :=
      if s.className in catalog then
        WithClassResources(WithDerivedStats(s, catalog[s.className], setting), catalog[s.className])
      else s;
    WithFeats(WithEquipment(s1, table))
  }

  /** The layering with a class: the class base, then equipment, then feats. */
  lemma DeriveLayers(s: SystemData, catalog: map<string, ClassInfo>, table: SetTable, setting: int)
    requires ReadyForDerive(s, catalog) && s.className in catalog
    ensures var r := Derive(s, catalog, table, setting);
            var a := s.attributes.value;
            var b := EquipmentTotals(SlotValues(s), table);
            var f := FeatTotals(s.feats);
            var ci := catalog[s.className];
            && r.combat.value.attackBonus == AbilityBonus(a.str.value) + s.level / 2 + BonusOf(b, "attack") + f.attack
            && r.combat.value.defense == 10 + AbilityBonus(a.dex.value) + s.level / 3 + BonusOf(b, "defense") + f.defense
            && r.combat.value.damageBonus == AbilityBonus(a.str.value) + Max(0, BonusOf(b, "attack")) + f.damage
            && r.attributes.value.hp.max == BaseHpMax(ci, a.end.value, setting) + BonusOf(b, "health")
            && r.attributes.value.hp.value <= BaseHpMax(ci, a.end.value, setting)
            && r.attributes.value.hp.value <= r.attributes.value.hp.max
            && r.equipmentBonuses == Some(b) && r.featBonuses == f
  {
  }

  /** After a pass current HP never exceeds max HP, with or without a class. */
  lemma DeriveHpClamped(s: SystemData, catalog: map<string, ClassInfo>, table: SetTable, setting: int)
    requires ReadyForDerive(s, catalog) && s.attributes.Some?
    ensures var r := Derive(s, catalog, table, setting);
            r.attributes.Some? && r.attributes.value.hp.value <= r.attributes.value.hp.max
  {
  }

  /** Recomputing the class stats of an already derived record: only HP's
      value, already within the base maximum, survives from the record. */
  lemma DerivedStatsStable(x: SystemData, ci: ClassInfo, setting: int, y: SystemData)
    requires x.attributes.Some? && x.combat.Some? && y.attributes.Some? && y.combat.Some?
    requires var d := WithDerivedStats(x, ci, setting);
             && y.level == x.level
             && y.attributes.value == d.attributes.value.(hp := y.attributes.value.hp)
             && y.attributes.value.hp.value <= d.attributes.value.hp.max
             && y.combat.value.damageDice == d.combat.value.damageDice
             && y.combat.value.utilityDice == d.combat.value.utilityDice
    ensures var d := WithDerivedStats(x, ci, setting);
            WithDerivedStats(y, ci, setting)
              == y.(attributes := Some(d.attributes.value.(hp := Pool(y.attributes.value.hp.value, d.attributes.value.hp.max))),
                    combat := d.combat)
  {
  }

  /** The equipment pass overwrites its own outputs: rerun on its own result,
      whatever bonuses, set counts and feat bonuses that result holds, it
      gives the same record, and the current HP it clamped stays as it is. */
  lemma EquipmentStable(x: SystemData, table: SetTable, eb: Option<map<string, int>>, sc: Dict<int>, fb: FeatBonuses)
    requires x.combat.Some? && x.attributes.Some?
    ensures var e := WithEquipment(x, table);
            var y := x.(equipmentBonuses := eb, setCounts := sc, featBonuses := fb,
                        attributes := Some(x.attributes.value.(hp := Pool(e.attributes.value.hp.value, x.attributes.value.hp.max))));
            WithEquipment(y, table) == e.(featBonuses := fb)
  {
    var e := WithEquipment(x, table);
    var y := x.(equipmentBonuses := eb, setCounts := sc, featBonuses := fb,
                attributes := Some(x.attributes.value.(hp := Pool(e.attributes.value.hp.value, x.attributes.value.hp.max))));
    var vals := SlotValues(x);
    assert SlotValues(y) == vals;
    var b := EquipmentTotals(vals, table);
    assert y.combat == x.combat;
    var a := x.attributes.value;
    var m := a.hp.max + BonusOf(b, "health");
    var v := Min(a.hp.value, m);
    var a' := a.(hp := Pool(v, a.hp.max));
    assert y.attributes == Some(a');
    assert EquipHp(y.attributes, b) == Some(a'.(hp := Pool(Min(v, m), m)));
    assert Min(v, m) == v;
    HpReplaced(a, Pool(v, a.hp.max), Pool(v, m));
  }

  lemma HpReplaced(a: Attributes, p: Pool, q: Pool)
    ensures a.(hp := p).(hp := q) == a.(hp := q)
  {
  }

  /** With the class known, a second pass changes nothing: the base values are
      recomputed from scratch and the equipment and feat layers recomputed from
      unchanged inputs. */
  lemma DeriveIdempotent(s: SystemData, catalog: map<string, ClassInfo>, table: SetTable, setting: int)
    requires ReadyForDerive(s, catalog) && s.className in catalog
    ensures ReadyForDerive(Derive(s, catalog, table, setting), catalog)
    ensures Derive(Derive(s, catalog, table, setting), catalog, table, setting) == Derive(s, catalog, table, setting)
  {
    var ci := catalog[s.className];
    var d := WithDerivedStats(s, ci, setting);
    var s1 := WithClassResources(d, ci);
    var e1 := WithEquipment(s1, table);
    var r := WithFeats(e1);
    DerivedStatsStable(s, ci, setting, r);
    var d2 := WithDerivedStats(r, ci, setting);
    AddMissingIdempotent(s.resources, ci.resources);
    var t1 := WithClassResources(d2, ci);
    assert t1 == d2;
    EquipmentStable(s1, table, t1.equipmentBonuses, t1.setCounts, t1.featBonuses);
    var e2 := WithEquipment(t1, table);
    assert e2 == e1.(featBonuses := r.featBonuses);
    FeatsStable(e1, r.featBonuses);
  }

  /** The feat pass overwrites its own output. */
  lemma FeatsStable(x: SystemData, f: FeatBonuses)
    requires x.combat.Some?
    ensures WithFeats(x.(featBonuses := f)) == WithFeats(x)
  {
  }

  /** Without a class definition the pass is not idempotent: every pass adds
      the equipment and feat bonuses on top of the previous result again. */
  lemma DeriveAccumulatesWithoutClass(s: SystemData, catalog: map<string, ClassInfo>, table: SetTable, setting: int)
    requires ReadyForDerive(s, catalog) && s.className !in catalog
    ensures var r := Derive(s, catalog, table, setting);
            var b := EquipmentTotals(SlotValues(s), table);
            var f := FeatTotals(s.feats);
            && ReadyForDerive(r, catalog)
            && Derive(r, catalog, table, setting).combat.value.attackBonus
                 == r.combat.value.attackBonus + BonusOf(b, "attack") + f.attack
  {
    var r := Derive(s, catalog, table, setting);
    assert SlotValues(r) == SlotValues(s);
  }

  // ---------------------------------------------------------------------------
  // The actor

  class CustomActor {
    var system: SystemData

    constructor (initial: SystemData)
      ensures system == initial
    {
      system := initial;
    }

    /** `prepareBaseData` */
    method PrepareBaseData()
      modifies this
      ensures system == Normalize(old(system))
    {
      if system.className == "" {
        system := system.(className := "Fighter");
      }
      if system.level == 0 {
        system := system.(level := 1);
      }
      if system.attributes.None? {
        system := system.(attributes := Some(DefaultAttributes));
      }
      if system.combat.None? {
        system := system.(combat := Some(DefaultCombat));
      }
      if system.preferences.None? {
        system := system.(preferences := Some([]));
      }
      if system.equipment.None? {
        system := system.(equipment := Some(EmptyEquipment()));
      }
      if system.equipmentBonuses.None? {
        system := system.(equipmentBonuses := Some(ZeroBonuses()));
      }
    }

    /** `_calculateDerivedStats` */
    method CalculateDerivedStats(ci: ClassInfo, setting: int)
      requires system.attributes.Some? && system.combat.Some?
      modifies this
      ensures system == WithDerivedStats(old(system), ci, setting)
    {
      var attributes := system.attributes.value;
      var combat := system.combat.value;
      var mult := HpMultiplier(setting);
      var baseHealth := if ci.baseStats.health == 0 then 10 else ci.baseStats.health;
      var endBonus := AbilityBonus(attributes.end.value) * mult;
      attributes := attributes.(hp := attributes.hp.(max := Max(1, baseHealth + endBonus)));
      if attributes.hp.value > attributes.hp.max {
        attributes := attributes.(hp := attributes.hp.(value := attributes.hp.max));
      }
      var strBonus := AbilityBonus(attributes.str.value);
      var dexBonus := AbilityBonus(attributes.dex.value);
      combat := combat.(attackBonus := strBonus + system.level / 2);
      combat := combat.(defense := 10 + dexBonus + system.level / 3);
      combat := combat.(damageBonus := strBonus);
      if ci.baseStats.damageDice != "" {
        combat := combat.(damageDice := ci.baseStats.damageDice);
      }
      if ci.baseStats.utilityDice != "" {
        combat := combat.(utilityDice := ci.baseStats.utilityDice);
      }
      if ci.baseStats.critRoll != 0 {
        attributes := attributes.(crit := ci.baseStats.critRoll);
      }
      system := system.(attributes := Some(attributes), combat := Some(combat));
    }

    /** `_initializeClassResources` */
    method InitializeClassResources(ci: ClassInfo)
      modifies this
      ensures system == WithClassResources(old(system), ci)
    {
      var cls := ci.resources;
      var i := 0;
      while i < |cls|
        invariant 0 <= i <= |cls|
        invariant system == old(system).(resources := AddMissing(old(system).resources, cls[..i]))
      {
        assert cls[..i + 1][..i] == cls[..i];
        var name := cls[i].key;
        if !HasKey(system.resources, name) {
          system := system.(resources := Put(system.resources, name, Seed(cls[i].val)));
        }
        i := i + 1;
      }
      assert cls[..i] == cls;
    }

    /** `_recalculateEquipmentBonuses` */
    method RecalculateEquipmentBonuses(table: SetTable)
      requires system.combat.Some?
      modifies this
      ensures system == WithEquipment(old(system), table)
    {
      var vals := SlotValues(system);
      var bonuses, setCounts := EquipmentPass(vals, table);
      var combat := system.combat.value;
      var baseAttack := combat.attackBonus;
      var baseDefense := combat.defense;
      combat := combat.(attackBonus := baseAttack + BonusOf(bonuses, "attack"));
      combat := combat.(defense := baseDefense + BonusOf(bonuses, "defense"));
      combat := combat.(damageBonus := combat.damageBonus + Max(0, BonusOf(bonuses, "attack")));
      assert combat == EquipCombat(system.combat.value, bonuses);
      var attributes := ApplyHealthBonus(system.attributes, bonuses);
      system := system.(equipmentBonuses := Some(bonuses), setCounts := setCounts,
                        combat := Some(combat), attributes := attributes);
    }

    /** `_applyFeatBonuses` */
    method ApplyFeatBonuses()
      requires system.combat.Some?
      modifies this
      ensures system == WithFeats(old(system))
    {
      var bonuses := SumFeatBonuses(system.feats);
      var combat := system.combat.value;
      combat := combat.(attackBonus := combat.attackBonus + bonuses.attack);
      combat := combat.(defense := combat.defense + bonuses.defense);
      combat := combat.(damageBonus := combat.damageBonus + bonuses.damage);
      system := system.(featBonuses := bonuses, combat := Some(combat));
    }

    /** `prepareDerivedData` */
    method PrepareDerivedData(catalog: map<string, ClassInfo>, table: SetTable, setting: int)
      requires ReadyForDerive(system, catalog)
      modifies this
      ensures system == Derive(old(system), catalog, table, setting)
    {
      if system.className in catalog {
        var ci := catalog[system.className];
        CalculateDerivedStats(ci, setting);
        InitializeClassResources(ci);
      }
      RecalculateEquipmentBonuses(table);
      ApplyFeatBonuses();
    }
  }

  /** The HP step of `_recalculateEquipmentBonuses`: the health bonus raises
      the maximum and a current value above it is lowered to it. */
  method ApplyHealthBonus(attributes: Option<Attributes>, bonuses: map<string, int>) returns (r: Option<Attributes>)
    ensures r == EquipHp(attributes, bonuses)
    ensures r.Some? <==> attributes.Some?
    ensures r.Some? ==> && r.value.hp.max == attributes.value.hp.max + BonusOf(bonuses, "health")
                        && r.value.hp.value == Min(attributes.value.hp.value, r.value.hp.max)
                        && r.value == attributes.value.(hp := r.value.hp)
  {
    r := attributes;
    if attributes.Some? {
      var a := attributes.value;
      var hp := a.hp.(max := a.hp.max + BonusOf(bonuses, "health"));
      if hp.value > hp.max {
        hp := hp.(value := hp.max);
      }
      r := Some(a.(hp := hp));
    }
  }

  /** `applyStats`: adds each entry of `stats` whose key is already a bonus key. */
  method ApplyStats(bonuses: map<string, int>, stats: Stats) returns (r: map<string, int>)
    ensures r.Keys == bonuses.Keys
    ensures forall t :: t in bonuses ==> r[t] == bonuses[t] + StatTotal(stats, t)
  {
    r := bonuses;
    var i := 0;
    while i < |stats|
      invariant 0 <= i <= |stats|
      invariant r.Keys == bonuses.Keys
      invariant forall t :: t in bonuses ==> r[t] == bonuses[t] + StatTotal(stats[..i], t)
    {
      assert stats[..i + 1][..i] == stats[..i];
      var k := stats[i].key;
      if k in r {
        r := r[k := r[k] + NumberOr0(stats[i].val)];
      }
      i := i + 1;
    }
    assert stats[..i] == stats;
  }

  /** One more feat in the running totals: its benefits when enabled, nothing otherwise. */
  lemma FeatsStep(feats: seq<Feat>, i: nat, before: FeatBonuses, after: FeatBonuses)
    requires i < |feats|
    requires before == FeatTotals(feats[..i])
    requires after == if Enabled(feats[i]) then AddBonuses(before, BenefitsTotal(feats[i].benefits)) else before
    ensures after == FeatTotals(feats[..i + 1])
  {
    var p := feats[..i + 1];
    assert p[..|p| - 1] == feats[..i];
    assert FeatTotals(p) == AddBonuses(before, FeatBonus(feats[i]));
    if !Enabled(feats[i]) {
      AddZeroRight(before);
    }
  }

  /** The accumulation loop of `_applyFeatBonuses`: enabled feats only. */
  method SumFeatBonuses(feats: seq<Feat>) returns (bonuses: FeatBonuses)
    ensures bonuses == FeatTotals(feats)
  {
    bonuses := FeatBonuses(0, 0, 0);
    var i := 0;
    while i < |feats|
      invariant 0 <= i <= |feats|
      invariant bonuses == FeatTotals(feats[..i])
    {
      var feat := feats[i];
      var next := bonuses;
      if feat.enabled != Some(false) {
        next := AddBenefits(bonuses, feat.benefits);
      }
      FeatsStep(feats, i, bonuses, next);
      bonuses := next;
      i := i + 1;
    }
    assert feats[..i] == feats;
  }

  /** The inner loop: every benefit text of one feat, each routed by
      `BenefitBonus` to the buckets whose keyword it contains. */
  method AddBenefits(start: FeatBonuses, benefits: seq<string>) returns (bonuses: FeatBonuses)
    ensures bonuses == AddBonuses(start, BenefitsTotal(benefits))
  {
    bonuses := start;
    var j := 0;
    assert benefits[..0] == [];
    AddZeroRight(start);
    while j < |benefits|
      invariant 0 <= j <= |benefits|
      invariant bonuses == AddBonuses(start, BenefitsTotal(benefits[..j]))
    {
      var next := AddBonuses(bonuses, BenefitBonus(benefits[j]));
      BenefitsStep(start, benefits, j, bonuses, next);
      bonuses := next;
      j := j + 1;
    }
    assert benefits[..j] == benefits;
  }

  /** One more benefit text in the running totals. */
  lemma BenefitsStep(start: FeatBonuses, benefits: seq<string>, j: nat, before: FeatBonuses, after: FeatBonuses)
    requires j < |benefits|
    requires before == AddBonuses(start, BenefitsTotal(benefits[..j]))
    requires after == AddBonuses(before, BenefitBonus(benefits[j]))
    ensures after == AddBonuses(start, BenefitsTotal(benefits[..j + 1]))
  {
    var p := benefits[..j + 1];
    assert p[..|p| - 1] == benefits[..j];
    assert BenefitsTotal(p) == AddBonuses(BenefitsTotal(benefits[..j]), BenefitBonus(benefits[j]));
    AddAssoc(start, BenefitsTotal(benefits[..j]), BenefitBonus(benefits[j]));
  }

  /** The bonus computation of `_recalculateEquipmentBonuses`: the slot loop,
      then the set loop. */
  method EquipmentPass(vals: seq<Option<Item>>, table: SetTable) returns (bonuses: map<string, int>, setCounts: Dict<int>)
    ensures bonuses == EquipmentTotals(vals, table)
    ensures setCounts == SetCounts(vals)
  {
    var slotBonuses;
    slotBonuses, setCounts := SumSlots(ZeroBonuses(), vals);
    bonuses := AddSetBonuses(slotBonuses, setCounts, table);
    forall t | t in TrackedKeys
      ensures bonuses[t] == EquipmentTotals(vals, table)[t]
    {
    }
  }

  /** Adding one more slot's stats to the running sums. */
  lemma SlotsStep(vals: seq<Option<Item>>, i: nat, start: map<string, int>, before: map<string, int>, after: map<string, int>)
    requires i < |vals|
    requires before.Keys == start.Keys
    requires forall t :: t in start ==> before[t] == start[t] + SlotsStat(vals[..i], t)
    requires after.Keys == before.Keys
    requires forall t :: t in before ==> after[t] == before[t] + SlotStat(vals[i], t)
    ensures forall t :: t in start ==> after[t] == start[t] + SlotsStat(vals[..i + 1], t)
  {
    var p := vals[..i + 1];
    assert p[..|p| - 1] == vals[..i];
  }

  /** Counting one more slot's set tag. */
  lemma SetCountsStep(vals: seq<Option<Item>>, i: nat, before: Dict<int>, after: Dict<int>)
    requires i < |vals|
    requires before == SetCounts(vals[..i])
    requires after == if TagOf(vals[i]) != "" then Bump(before, TagOf(vals[i])) else before
    ensures after == SetCounts(vals[..i + 1])
  {
    var p := vals[..i + 1];
    assert p[..|p| - 1] == vals[..i];
  }

  /** The slot loop of `_recalculateEquipmentBonuses`: sums the ten stat keys
      over the equipped items and counts set tags. */
  method SumSlots(start: map<string, int>, vals: seq<Option<Item>>) returns (bonuses: map<string, int>, setCounts: Dict<int>)
    ensures bonuses.Keys == start.Keys
    ensures forall t :: t in start ==> bonuses[t] == start[t] + SlotsStat(vals, t)
    ensures setCounts == SetCounts(vals)
  {
    bonuses := start;
    setCounts := [];
    var i := 0;
    while i < |vals|
      invariant 0 <= i <= |vals|
      invariant bonuses.Keys == start.Keys
      invariant forall t :: t in start ==> bonuses[t] == start[t] + SlotsStat(vals[..i], t)
      invariant setCounts == SetCounts(vals[..i])
    {
      var slot := vals[i];
      var counted := setCounts;
      var key := TagOf(slot);
      if key != "" {
        setCounts := Put(setCounts, key, Get(setCounts, key).GetOr(0) + 1);
      }
      SetCountsStep(vals, i, counted, setCounts);
      var summed := bonuses;
      if slot.Some? {
        bonuses := ApplyStats(bonuses, slot.value.stats);
      }
      SlotsStep(vals, i, start, summed, bonuses);
      i := i + 1;
    }
    assert vals[..i] == vals;
  }

  /** The set loop of `_recalculateEquipmentBonuses`: for every counted set,
      every threshold the count reaches. */
  method AddSetBonuses(start: map<string, int>, setCounts: Dict<int>, table: SetTable) returns (bonuses: map<string, int>)
    ensures bonuses.Keys == start.Keys
    ensures forall t :: t in start ==> bonuses[t] == start[t] + SetsStat(setCounts, table, t)
  {
    bonuses := start;
    var j := 0;
    while j < |setCounts|
      invariant 0 <= j <= |setCounts|
      invariant bonuses.Keys == start.Keys
      invariant forall t :: t in start ==> bonuses[t] == start[t] + SetsStat(setCounts[..j], table, t)
    {
      assert setCounts[..j + 1][..j] == setCounts[..j];
      bonuses := AddThresholds(bonuses, ThresholdsOf(table, setCounts[j].key), setCounts[j].val);
      j := j + 1;
    }
    assert setCounts[..j] == setCounts;
  }

  /** The threshold loop for one set with `count` equipped pieces. */
  method AddThresholds(start: map<string, int>, defs: seq<Threshold>, count: int) returns (bonuses: map<string, int>)
    ensures bonuses.Keys == start.Keys
    ensures forall t :: t in start ==> bonuses[t] == start[t] + ThresholdsStat(defs, count, t)
  {
    bonuses := start;
    var k := 0;
    while k < |defs|
      invariant 0 <= k <= |defs|
      invariant bonuses.Keys == start.Keys
      invariant forall t :: t in start ==> bonuses[t] == start[t] + ThresholdsStat(defs[..k], count, t)
    {
      assert defs[..k + 1][..k] == defs[..k];
      if count >= defs[k].count {
        bonuses := ApplyStats(bonuses, defs[k].def.StatsOf());
      }
      k := k + 1;
    }
    assert defs[..k] == defs;
  }
}
