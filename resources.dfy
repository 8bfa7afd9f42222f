/** `mergeResources` of `module/init.js` and the two actor hooks that call it.

    When a character's class or level changes, the resource layer builds a
    fresh template of the character's resources; the merge keeps the
    template's shape and every maximum from it, and carries over the current
    usage (`value`), clamped to the new maximum. A resource is flat
    (`{value, max}`) or keyed by spell level (`slots`), ability (`abilities`)
    or category (`types`).

    The template builder (`initializeActorResources`) is not part of this
    model: its result is a parameter, `None` when the builder is missing. */
module Resources {
  import opened Common
  import opened Schema

  // ---------------------------------------------------------------------------
  // The merge, as functions

  /** One sub-pool: its value becomes `Math.min(max, current value)` when the
      current state has that sub-key, and is the template's otherwise. */
  function ClampPool(p: Pool, cur: Option<Pool>): (r: Pool)
    ensures r.max == p.max
    ensures cur.None? ==> r == p
    ensures cur.Some? ==> r.value <= p.max
    ensures cur.Some? && cur.value.value <= p.max ==> r.value == cur.value.value
    ensures cur.Some? && cur.value.value > p.max ==> r.value == p.max
  {
    if cur.Some? then Pool(Min(p.max, cur.value.value), p.max) else p
  }

  /** The template's sub-pools, each clamped against the current sub-pool of
      the same key; the template's keys in the template's order. */
  function MergedPools(tmpl: Dict<Pool>, cur: Dict<Pool>): (r: Dict<Pool>)
    ensures |r| == |tmpl|
    ensures forall i :: 0 <= i < |r| ==> r[i].key == tmpl[i].key && r[i].val.max == tmpl[i].val.max
  {
    seq(|tmpl|, i requires 0 <= i < |tmpl| => Entry(tmpl[i].key, ClampPool(tmpl[i].val, Get(cur, tmpl[i].key))))
  }

  /** `out[key].max ?? tmpl.max ?? cur.max ?? 0`; the clone's `max` is the template's. */
  function FlatCap(t: Resource, c: Resource): int {
    t.max.GetOr(c.max.GetOr(0))
  }

  /** Same sub-keys in the same order with the same maxima. */
  predicate SamePools(a: Option<Dict<Pool>>, b: Option<Dict<Pool>>) {
    && a.Some? == b.Some?
    && (a.Some? ==> |a.value| == |b.value|)
    && (a.Some? ==> forall i :: 0 <= i < |a.value| ==>
          a.value[i].key == b.value[i].key && a.value[i].val.max == b.value[i].val.max)
  }

  /** `r` differs from `t` at most in the `value` fields. */
  predicate OnlyValuesDiffer(r: Resource, t: Resource) {
    && r.description == t.description && r.color == t.color && r.max == t.max
    && SamePools(r.slots, t.slots) && SamePools(r.abilities, t.abilities) && SamePools(r.types, t.types)
  }

  /** The merged entry for one template resource; `cur` is `current[key]`.
      The first shape both sides have decides: slots, then abilities, then
      types, then a flat numeric value; with none of them the template entry
      is kept. */
  function MergeEntry(t: Resource, cur: Option<Resource>): (r: Resource)
    ensures OnlyValuesDiffer(r, t)
  {
    if cur.None? then t
    else
      var c := cur.value;
      if t.slots.Some? && c.slots.Some? then t.(slots := Some(MergedPools(t.slots.value, c.slots.value)))
      else if t.abilities.Some? && c.abilities.Some? then t.(abilities := Some(MergedPools(t.abilities.value, c.abilities.value)))
      else if t.types.Some? && c.types.Some? then t.(types := Some(MergedPools(t.types.value, c.types.value)))
      else if t.value.Some? && c.value.Some? then t.(value := Some(Min(FlatCap(t, c), c.value.value)))
      else t
  }

  /** `mergeResources(current, template)`: the clone of the template, entry by
      entry merged with the current resource of the same key. Exactly the
      template's keys are present; resources only in `current` are dropped. */
  function Merged(current: Dict<Resource>, template: Dict<Resource>): (r: Dict<Resource>)
    ensures |r| == |template|
    ensures forall i :: 0 <= i < |r| ==> r[i].key == template[i].key
    ensures forall k :: HasKey(r, k) <==> HasKey(template, k)
  {
    var r := seq(|template|, i requires 0 <= i < |template| =>
      Entry(template[i].key, MergeEntry(template[i].val, Get(current, template[i].key))));
    assert forall k :: HasKey(r, k) ==> HasKey(template, k) by {
      forall k | HasKey(r, k) ensures HasKey(template, k) {
        var i :| 0 <= i < |r| && r[i].key == k;
        assert template[i].key == k;
      }
    }
    assert forall k :: HasKey(template, k) ==> HasKey(r, k) by {
      forall k | HasKey(template, k) ensures HasKey(r, k) {
        var i :| 0 <= i < |template| && template[i].key == k;
        assert r[i].key == k;
      }
    }
    r
  }

  // ---------------------------------------------------------------------------
  // What the merge keeps and changes

  /** Looked up by key, the merge result is the template's resource merged
      with the current resource of that key, and nothing for a key the
      template lacks. */
  lemma MergedGet(current: Dict<Resource>, template: Dict<Resource>, k: string)
    ensures Get(Merged(current, template), k) ==
            match Get(template, k)
            case None => None
            case Some(t) => Some(MergeEntry(t, Get(current, k)))
  {
    IndexOfSameKeys(Merged(current, template), template, k);
  }

  /** A template resource the current state lacks comes back unchanged. */
  lemma MergeAbsentKeepsTemplate(current: Dict<Resource>, template: Dict<Resource>, k: string)
    requires !HasKey(current, k)
    ensures Get(Merged(current, template), k) == Get(template, k)
  {
    MergedGet(current, template, k);
    assert Get(current, k) == None;
  }

  /** Looked up by key, a merged sub-pool is the template's sub-pool clamped
      against the current sub-pool of that key: template-only sub-keys keep
      the template's values and current-only sub-keys are dropped. */
  lemma MergedPoolsGet(tmpl: Dict<Pool>, cur: Dict<Pool>, k: string)
    ensures Get(MergedPools(tmpl, cur), k) ==
            match Get(tmpl, k)
            case None => None
            case Some(p) => Some(ClampPool(p, Get(cur, k)))
  {
    IndexOfSameKeys(MergedPools(tmpl, cur), tmpl, k);
  }

  /** A flat resource numeric on both sides keeps the current usage clamped
      to the new maximum; the maximum and the other fields are the template's. */
  lemma MergeFlat(t: Resource, c: Resource)
    requires !(t.slots.Some? && c.slots.Some?)
    requires !(t.abilities.Some? && c.abilities.Some?)
    requires !(t.types.Some? && c.types.Some?)
    requires t.value.Some? && c.value.Some?
    ensures MergeEntry(t, Some(c)).value.Some?
    ensures MergeEntry(t, Some(c)).value.value <= FlatCap(t, c)
    ensures c.value.value <= FlatCap(t, c) ==> MergeEntry(t, Some(c)).value.value == c.value.value
    ensures c.value.value > FlatCap(t, c) ==> MergeEntry(t, Some(c)).value.value == FlatCap(t, c)
    ensures MergeEntry(t, Some(c)) == t.(value := MergeEntry(t, Some(c)).value)
  {
  }

  /** A flat resource at 3/5: a new maximum of 6 gives 3/6, a new maximum of 2 gives 2/2. */
  lemma FlatExamples()
    ensures MergeEntry(Flat(6, 6), Some(Flat(3, 5))) == Flat(3, 6)
    ensures MergeEntry(Flat(2, 2), Some(Flat(3, 5))) == Flat(2, 2)
  {
  }

  function Flat(value: int, max: int): Resource {
    Resource("", "", Some(value), Some(max), None, None, None)
  }

  /** Only the first shape both sides share is merged; every other part of
      the entry is the template's. */
  lemma MergePrecedence(t: Resource, c: Resource)
    ensures MergeEntry(t, Some(c)).slots != t.slots ==> t.slots.Some? && c.slots.Some?
    ensures MergeEntry(t, Some(c)).abilities != t.abilities ==>
              !(t.slots.Some? && c.slots.Some?) && t.abilities.Some? && c.abilities.Some?
    ensures MergeEntry(t, Some(c)).types != t.types ==>
              !(t.slots.Some? && c.slots.Some?) && !(t.abilities.Some? && c.abilities.Some?)
              && t.types.Some? && c.types.Some?
    ensures MergeEntry(t, Some(c)).value != t.value ==>
              !(t.slots.Some? && c.slots.Some?) && !(t.abilities.Some? && c.abilities.Some?)
              && !(t.types.Some? && c.types.Some?) && t.value.Some? && c.value.Some?
  {
  }

  // ---------------------------------------------------------------------------
  // Merging twice with the same template

  /** A template resource of one shape whose values are within their maxima. */
  predicate PoolsWellFormed(p: Option<Dict<Pool>>) {
    p.Some? ==> DistinctKeys(p.value) && forall i :: 0 <= i < |p.value| ==> p.value[i].val.value <= p.value[i].val.max
  }

  predicate OneShape(t: Resource) {
    (if t.slots.Some? then 1 else 0) + (if t.abilities.Some? then 1 else 0)
    + (if t.types.Some? then 1 else 0) + (if t.value.Some? then 1 else 0) <= 1
  }

  predicate WellFormed(t: Resource) {
    && OneShape(t)
    && PoolsWellFormed(t.slots) && PoolsWellFormed(t.abilities) && PoolsWellFormed(t.types)
    && (t.value.Some? ==> t.max.Some? && t.value.value <= t.max.value)
  }

  predicate TemplateWellFormed(template: Dict<Resource>) {
    DistinctKeys(template) && forall i :: 0 <= i < |template| ==> WellFormed(template[i].val)
  }

  /** Merging sub-pools with themselves changes nothing. */
  lemma PoolsSelf(p: Dict<Pool>)
    requires PoolsWellFormed(Some(p))
    ensures MergedPools(p, p) == p
  {
    forall j | 0 <= j < |p| ensures MergedPools(p, p)[j] == p[j] {
      GetAt(p, j);
    }
  }

  /** Merging sub-pools with their own merge result changes nothing. */
  lemma PoolsStable(p: Dict<Pool>, c: Dict<Pool>)
    requires PoolsWellFormed(Some(p))
    ensures MergedPools(p, MergedPools(p, c)) == MergedPools(p, c)
  {
    var m := MergedPools(p, c);
    assert DistinctKeys(m) by {
      forall a, b | 0 <= a < b < |m| ensures m[a].key != m[b].key {
        assert m[a].key == p[a].key && m[b].key == p[b].key;
      }
    }
    forall j | 0 <= j < |p| ensures MergedPools(p, m)[j] == m[j] {
      GetAt(m, j);
    }
  }

  /** For a well-formed template resource, merging it with its own merge
      result gives that result again. */
  lemma EntryStable(t: Resource, cur: Option<Resource>)
    requires WellFormed(t)
    ensures MergeEntry(t, Some(MergeEntry(t, cur))) == MergeEntry(t, cur)
  {
    var m := MergeEntry(t, cur);
    if t.slots.Some? {
      if cur.Some? && cur.value.slots.Some? {
        PoolsStable(t.slots.value, cur.value.slots.value);
      } else {
        PoolsSelf(t.slots.value);
      }
    } else if t.abilities.Some? {
      if cur.Some? && cur.value.abilities.Some? {
        PoolsStable(t.abilities.value, cur.value.abilities.value);
      } else {
        PoolsSelf(t.abilities.value);
      }
    } else if t.types.Some? {
      if cur.Some? && cur.value.types.Some? {
        PoolsStable(t.types.value, cur.value.types.value);
      } else {
        PoolsSelf(t.types.value);
      }
    }
  }

  /** With a well-formed template, merging the merge result again against the
      same template changes nothing: usage carried over once is kept. */
  lemma MergeStable(current: Dict<Resource>, template: Dict<Resource>)
    requires TemplateWellFormed(template)
    ensures Merged(Merged(current, template), template) == Merged(current, template)
  {
    var m := Merged(current, template);
    assert DistinctKeys(m) by {
      forall a, b | 0 <= a < b < |m| ensures m[a].key != m[b].key {
        assert m[a].key == template[a].key && m[b].key == template[b].key;
      }
    }
    forall i | 0 <= i < |template| ensures Merged(m, template)[i] == m[i] {
      GetAt(m, i);
      EntryStable(template[i].val, Get(current, template[i].key));
    }
  }

  // ---------------------------------------------------------------------------
  // The merge, as the source performs it

  /** The inner loop over `Object.keys(tmpl.slots)` (or `abilities`, `types`):
      sub-key `lvl` of the clone is clamped when the current state has it. */
  method MergePools(tmpl: Dict<Pool>, cur: Dict<Pool>) returns (out: Dict<Pool>)
    ensures out == MergedPools(tmpl, cur)
  {
    out := tmpl;
    var j := 0;
    while j < |tmpl|
      invariant 0 <= j <= |tmpl| && |out| == |tmpl|
      invariant forall m :: 0 <= m < j ==> out[m] == MergedPools(tmpl, cur)[m]
      invariant forall m :: j <= m < |tmpl| ==> out[m] == tmpl[m]
    {
      var lvl := tmpl[j].key;
      var c := Get(cur, lvl);
      if c.Some? {
        out := out[j := Entry(lvl, Pool(Min(out[j].val.max, c.value.value), out[j].val.max))];
      }
      j := j + 1;
    }
  }

  /** `mergeResources`: the deep clone of the template, then for every
      template key with a current resource the value fields of the first
      shared shape overwritten. The clone lists the template's keys in the
      template's order, so `out[key]` is its `i`-th entry. */
  method MergeResources(current: Dict<Resource>, template: Dict<Resource>) returns (out: Dict<Resource>)
    ensures out == Merged(current, template)
  {
    out := template;
    var i := 0;
    while i < |template|
      invariant 0 <= i <= |template| && |out| == |template|
      invariant forall m :: 0 <= m < i ==> out[m] == Merged(current, template)[m]
      invariant forall m :: i <= m < |template| ==> out[m] == template[m]
    {
      var key := template[i].key;
      var tmpl := template[i].val;
      var cur := Get(current, key);
      if cur.Some? {
        var c := cur.value;
        var merged := tmpl;
        if tmpl.slots.Some? && c.slots.Some? {
          var pools := MergePools(tmpl.slots.value, c.slots.value);
          merged := tmpl.(slots := Some(pools));
        } else if tmpl.abilities.Some? && c.abilities.Some? {
          var pools := MergePools(tmpl.abilities.value, c.abilities.value);
          merged := tmpl.(abilities := Some(pools));
        } else if tmpl.types.Some? && c.types.Some? {
          var pools := MergePools(tmpl.types.value, c.types.value);
          merged := tmpl.(types := Some(pools));
        } else if tmpl.value.Some? && c.value.Some? {
          merged := tmpl.(value := Some(Min(FlatCap(tmpl, c), c.value.value)));
        }
        out := out[i := Entry(key, merged)];
      }
      i := i + 1;
    }
  }

  // ---------------------------------------------------------------------------
  // The hooks

  /** Which `system` fields an actor update names (`!== undefined`). */
  datatype ActorUpdate = ActorUpdate(setsClass: bool, setsLevel: bool, setsProgressionLevel: bool)

  /** The `createActor` hook: the resources it writes, or `None` when it
      writes nothing. `builder` is the template the resource layer builds,
      `None` when that layer is missing. */
  function OnCreateActor(actorType: string, resources: Option<Dict<Resource>>, builder: Option<Dict<Resource>>): (r: Option<Dict<Resource>>)
    ensures r.Some? <==> actorType == "character" && (resources.None? || resources.value == []) && builder.Some?
    ensures r.Some? ==> r == builder
  {
    if actorType != "character" then None
    else if (resources.None? || |resources.value| == 0) && builder.Some? then builder
    else None
  }

  /** The `updateActor` hook: the merged resources it writes, or `None`. */
  function OnUpdateActor(actorType: string, update: ActorUpdate, resources: Option<Dict<Resource>>,
                         builder: Option<Dict<Resource>>): (r: Option<Dict<Resource>>)
    ensures r.Some? <==> (actorType == "character" && builder.Some?
                          && (update.setsClass || update.setsLevel || update.setsProgressionLevel))
    ensures r.Some? ==> r.value == Merged(resources.GetOr([]), builder.value)
  {
    if actorType != "character" then None
    else if !update.setsClass && !(update.setsLevel || update.setsProgressionLevel) then None
    else if builder.None? then None
    else Some(Merged(resources.GetOr([]), builder.value))
  }

  /** A second class or level update that builds the same well-formed template
      writes the resources the first one wrote. */
  lemma UpdateHookStable(actorType: string, update: ActorUpdate, resources: Option<Dict<Resource>>,
                         builder: Option<Dict<Resource>>)
    requires builder.Some? && TemplateWellFormed(builder.value)
    requires OnUpdateActor(actorType, update, resources, builder).Some?
    ensures OnUpdateActor(actorType, update, OnUpdateActor(actorType, update, resources, builder), builder)
            == OnUpdateActor(actorType, update, resources, builder)
  {
    MergeStable(resources.GetOr([]), builder.value);
  }
}
