/** The combat tracker of `module/applications/combat-tracker.js`: the
    initiative order, whose turn it is, the round counter, hit points and
    status effects.

    Dice results, dialog answers (already passed through `parseInt`, `None`
    for an unparsable entry), random ids and confirmations are parameters.
    Notifications, rendering and the timed auto-skip are not modelled. */
module Tracker {
  import opened Common
  import opened Sorting

  /** A status effect; `damagePerTurn` is 0 when absent. */
  datatype StatusEffect = StatusEffect(name: string, duration: int, appliedRound: int, damagePerTurn: int)

  /** A combatant; `regeneration` is 0 when absent, `resistances` and
      `vulnerabilities` are empty when absent. */
  datatype Combatant = Combatant(
    id: string, name: string, kind: string,
    maxHp: int, currentHp: int,
    initiativeBonus: int, initiative: int, ac: int,
    statusEffects: seq<StatusEffect>,
    regeneration: int, resistances: seq<string>, vulnerabilities: seq<string>)

  // ---------------------------------------------------------------------------
  // Turn order

  /** Whose turn it is and the round number. */
  datatype Clock = Clock(turn: int, round: int)

  /** `_onNextTurn` on the clock: the next index modulo `n`, and one more
      round exactly when the order wraps, which is after the last combatant. */
  function Advance(c: Clock, n: nat): (r: Clock)
    requires 0 <= c.turn < n
    ensures 0 <= r.turn < n
    ensures r.turn == 0 <==> c.turn == n - 1
    ensures c.turn < n - 1 ==> r.turn == c.turn + 1
    ensures r.round == if c.turn == n - 1 then c.round + 1 else c.round
  {
    if c.turn + 1 < n then Clock(c.turn + 1, c.round) else Clock(0, c.round + 1)
  }

  /** `_onPreviousTurn` on the clock: the previous index modulo `n`; landing
      on the last index steps the round back, but never below 1. */
  function Retreat(c: Clock, n: nat): (r: Clock)
    requires 0 <= c.turn < n
    ensures 0 <= r.turn < n
    ensures r.turn == n - 1 <==> c.turn == 0
    ensures c.turn > 0 ==> r == Clock(c.turn - 1, c.round)
    ensures c.turn == 0 ==> r.round == Max(1, c.round - 1)
    ensures c.round >= 1 ==> r.round >= 1
  {
    if c.turn > 0 then Clock(c.turn - 1, c.round) else Clock(n - 1, Max(1, c.round - 1))
  }

  /** `(turn + 1) % n` and `(turn - 1 + n) % n` for a turn in range. */
  lemma TurnArithmetic(turn: int, n: nat)
    requires 0 <= turn < n
    ensures (turn + 1) % n == if turn + 1 < n then turn + 1 else 0
    ensures (turn - 1 + n) % n == if turn > 0 then turn - 1 else n - 1
  {
    if turn + 1 == n {
      assert (turn + 1) % n == 0;
    }
    if turn > 0 {
      assert (turn - 1 + n) % n == ((turn - 1) + n) % n;
    }
  }

  /** Stepping back right after stepping forward restores the clock. */
  lemma RetreatUndoesAdvance(c: Clock, n: nat)
    requires 0 <= c.turn < n && c.round >= 1
    ensures Retreat(Advance(c, n), n) == c
  {
  }

  /** Stepping forward right after stepping back restores the clock, except
      from the first turn of round 1, where the round cannot go lower. */
  lemma AdvanceUndoesRetreat(c: Clock, n: nat)
    requires 0 <= c.turn < n && c.round >= 1
    ensures Advance(Retreat(c, n), n) == c <==> c.turn != 0 || c.round >= 2
  {
  }

  function AdvanceTimes(c: Clock, n: nat, k: nat): Clock
    requires 0 <= c.turn < n
  {
    if k == 0 then c else Advance(AdvanceTimes(c, n, k - 1), n)
  }

  /** After `k <= n` advances the turn has moved `k` places around the order
      and the round has grown by one iff the order wrapped. */
  lemma {:induction false} AdvanceTimesTurn(c: Clock, n: nat, k: nat)
    requires 0 <= c.turn < n && k <= n
    ensures AdvanceTimes(c, n, k).turn == if c.turn + k < n then c.turn + k else c.turn + k - n
    ensures AdvanceTimes(c, n, k).round == if c.turn + k < n then c.round else c.round + 1
  {
    if k > 0 {
      AdvanceTimesTurn(c, n, k - 1);
    }
  }

  /** A full cycle of `n` advances brings the same combatant back, one round later. */
  lemma FullRound(c: Clock, n: nat)
    requires 0 <= c.turn < n
    ensures AdvanceTimes(c, n, n) == Clock(c.turn, c.round + 1)
  {
    AdvanceTimesTurn(c, n, n);
  }

  /** `this.combatants.sort((a, b) => b.initiative - a.initiative)`: higher
      initiative first; the sort is stable, so ties keep their order. */
  function InitiativeFirst(a: Combatant, b: Combatant): bool {
    a.initiative >= b.initiative
  }

  lemma InitiativeOrder()
    ensures TotalPreorder(InitiativeFirst)
  {
  }

  /** `findIndex(c => c.id === id)`. */
  function FindIndex(cs: seq<Combatant>, id: string): (r: Option<nat>)
    ensures r.Some? ==> r.value < |cs| && cs[r.value].id == id
    ensures r.Some? ==> forall j :: 0 <= j < r.value ==> cs[j].id != id
    ensures r.None? <==> forall j :: 0 <= j < |cs| ==> cs[j].id != id
  {
    if cs == [] then None
    else if cs[0].id == id then Some(0)
    else match FindIndex(cs[1..], id)
      case None => None
      case Some(i) => Some(i + 1)
  }

  /** `combatants.filter(c => c.id !== id)`. */
  function WithoutId(cs: seq<Combatant>, id: string): (r: seq<Combatant>)
    ensures |r| <= |cs|
    ensures forall c :: c in r <==> c in cs && c.id != id
  {
    if cs == [] then []
    else (if cs[0].id != id then [cs[0]] else []) + WithoutId(cs[1..], id)
  }

  /** The removal keeps the remaining combatants in their turn order: removing
      from a concatenation removes from each part. */
  lemma {:induction false} WithoutIdAppend(a: seq<Combatant>, b: seq<Combatant>, id: string)
    ensures WithoutId(a + b, id) == WithoutId(a, id) + WithoutId(b, id)
  {
    WithoutIdIsKeep(a + b, id);
    WithoutIdIsKeep(a, id);
    WithoutIdIsKeep(b, id);
    KeepAppend(a, b, (c: Combatant) => c.id != id);
  }

  lemma {:induction false} WithoutIdIsKeep(cs: seq<Combatant>, id: string)
    ensures WithoutId(cs, id) == Keep(cs, (c: Combatant) => c.id != id)
  {
    if cs != [] {
      WithoutIdIsKeep(cs[1..], id);
    }
  }

  /** A single combatant stays exactly when its id differs. */
  lemma WithoutIdOne(c: Combatant, id: string)
    ensures WithoutId([c], id) == if c.id != id then [c] else []
  {
    assert [c][1..] == [];
  }

  /** The turn index after a removal: kept when still in range, else the last
      index, or 0 for an empty order. */
  function RepairTurn(turn: int, n: nat): (r: int)
    requires turn >= 0
    ensures n == 0 ==> r == 0
    ensures n > 0 ==> 0 <= r < n
    ensures turn < n ==> r == turn
  {
    if turn >= n then Max(0, n - 1) else turn
  }

  /** Initiative totals from the dice, one per combatant in order. */
  function WithInitiatives(cs: seq<Combatant>, rolls: seq<int>): (r: seq<Combatant>)
    requires |rolls| == |cs|
    ensures |r| == |cs|
    ensures forall i :: 0 <= i < |cs| ==> r[i] == cs[i].(initiative := rolls[i])
  {
    seq(|cs|, i requires 0 <= i < |cs| => cs[i].(initiative := rolls[i]))
  }

  /** The edit-initiative dialog: `initiative = (roll || 0) + (bonus || 0)`
      and the bonus stored. */
  function Edited(cs: seq<Combatant>, i: nat, roll: Option<int>, bonus: Option<int>): seq<Combatant>
    requires i < |cs|
  {
    cs[i := cs[i].(initiative := ParsedOr(roll, 0) + ParsedOr(bonus, 0), initiativeBonus := ParsedOr(bonus, 0))]
  }

  // ---------------------------------------------------------------------------
  // Hit points

  predicate HpBounded(c: Combatant) {
    0 <= c.currentHp <= c.maxHp
  }

  /** Damage from the damage dialog: `max(0, hp - d)`. */
  function Damaged(c: Combatant, d: int): (r: Combatant)
    ensures r.currentHp >= 0 && r.currentHp >= c.currentHp - d
    ensures r.currentHp == 0 || r.currentHp == c.currentHp - d
    ensures d >= 0 && c.currentHp >= 0 ==> r.currentHp <= c.currentHp
    ensures d >= 0 && HpBounded(c) ==> HpBounded(r)
    ensures r == c.(currentHp := r.currentHp)
  {
    c.(currentHp := Max(0, c.currentHp - d))
  }

  /** Healing: `min(maxHp, hp + h)`. */
  function Healed(c: Combatant, h: int): (r: Combatant)
    ensures r.currentHp <= c.maxHp && r.currentHp <= c.currentHp + h
    ensures r.currentHp == c.maxHp || r.currentHp == c.currentHp + h
    ensures h >= 0 ==> r.currentHp >= c.currentHp || r.currentHp == c.maxHp
    ensures h >= 0 && HpBounded(c) ==> HpBounded(r)
    ensures r == c.(currentHp := r.currentHp)
  {
    c.(currentHp := Min(c.maxHp, c.currentHp + h))
  }

  /** One effect at the end of a turn: a poison with a damage per turn
      lowers hit points, floored at 0. */
  function Tick(e: StatusEffect, hp: int): int {
    if e.name == "poisoned" && e.damagePerTurn != 0 then Max(0, hp - e.damagePerTurn) else hp
  }

  /** Hit points after every effect has ticked, in list order. */
  function AfterPoison(effects: seq<StatusEffect>, hp: int): int {
    if effects == [] then hp else Tick(effects[|effects| - 1], AfterPoison(effects[..|effects| - 1], hp))
  }

  predicate HarmlessPoisons(effects: seq<StatusEffect>) {
    forall i :: 0 <= i < |effects| ==> effects[i].damagePerTurn >= 0
  }

  /** Poison keeps hit points non-negative and, with non-negative damage, never raises them. */
  lemma {:induction false} AfterPoisonBounds(effects: seq<StatusEffect>, hp: int)
    requires hp >= 0
    ensures AfterPoison(effects, hp) >= 0
    ensures HarmlessPoisons(effects) ==> AfterPoison(effects, hp) <= hp
  {
    if effects != [] {
      AfterPoisonBounds(effects[..|effects| - 1], hp);
    }
  }

  /** `_processEndOfTurnEffects` on one combatant: poison ticks, then
      regeneration (when non-zero) capped at the maximum. */
  function EndOfTurn(c: Combatant): Combatant {
    var hp := AfterPoison(c.statusEffects, c.currentHp);
    c.(currentHp := if c.regeneration != 0 then Min(c.maxHp, hp + c.regeneration) else hp)
  }

  /** With non-negative poison damage and regeneration, the end of a turn
      keeps hit points within `[0, maxHp]`. */
  lemma EndOfTurnBounded(c: Combatant)
    requires HpBounded(c) && HarmlessPoisons(c.statusEffects) && c.regeneration >= 0
    ensures HpBounded(EndOfTurn(c))
    ensures EndOfTurn(c) == c.(currentHp := EndOfTurn(c).currentHp)
  {
    AfterPoisonBounds(c.statusEffects, c.currentHp);
  }

  /** `applyDamage`'s final damage: halved (rounded down) with a resistance,
      otherwise doubled with a vulnerability; resistance wins over vulnerability. */
  function FinalDamage(c: Combatant, damage: int, damageType: string): (r: int)
    ensures damageType in c.resistances ==> 2 * r <= damage < 2 * r + 2
    ensures damageType !in c.resistances && damageType in c.vulnerabilities ==> r == 2 * damage
    ensures damageType !in c.resistances && damageType !in c.vulnerabilities ==> r == damage
    ensures damage >= 0 ==> 0 <= r <= 2 * damage
  {
    if damageType in c.resistances then damage / 2
    else if damageType in c.vulnerabilities then damage * 2
    else damage
  }

  function Unconscious(round: int): StatusEffect {
    StatusEffect("unconscious", 999, round, 0)
  }

  /** The combatant after `applyDamage` deals `f`: hit points floored at 0,
      and reaching 0 adds an unconscious effect for 999 rounds. */
  function Struck(c: Combatant, f: int, round: int): (r: Combatant)
    ensures r.currentHp >= 0 && r.currentHp >= c.currentHp - f
    ensures r.currentHp == 0 <==> c.currentHp <= f
    ensures r.currentHp != 0 ==> r.currentHp == c.currentHp - f
    ensures r.statusEffects == if r.currentHp == 0 then c.statusEffects + [Unconscious(round)] else c.statusEffects
    ensures r == c.(currentHp := r.currentHp, statusEffects := r.statusEffects)
  {
    var hp := Max(0, c.currentHp - f);
    c.(currentHp := hp, statusEffects := if hp <= 0 then c.statusEffects + [Unconscious(round)] else c.statusEffects)
  }

  // ---------------------------------------------------------------------------
  // Status effects

  /** `_updateStatusEffects` on one list: an effect stays while fewer rounds
      than its duration have passed since it was applied. */
  function Expire(effects: seq<StatusEffect>, round: int): (r: seq<StatusEffect>)
    ensures |r| <= |effects|
    ensures forall e :: e in r <==> e in effects && round - e.appliedRound < e.duration
  {
    if effects == [] then []
    else
      (if round - effects[0].appliedRound < effects[0].duration then [effects[0]] else [])
      + Expire(effects[1..], round)
  }

  /** Expiry keeps the surviving effects in order: expiring a concatenation
      expires each part. */
  lemma {:induction false} ExpireAppend(a: seq<StatusEffect>, b: seq<StatusEffect>, round: int)
    ensures Expire(a + b, round) == Expire(a, round) + Expire(b, round)
  {
    ExpireIsKeep(a + b, round);
    ExpireIsKeep(a, round);
    ExpireIsKeep(b, round);
    KeepAppend(a, b, (e: StatusEffect) => round - e.appliedRound < e.duration);
  }

  lemma {:induction false} ExpireIsKeep(effects: seq<StatusEffect>, round: int)
    ensures Expire(effects, round) == Keep(effects, (e: StatusEffect) => round - e.appliedRound < e.duration)
  {
    if effects != [] {
      ExpireIsKeep(effects[1..], round);
    }
  }

  /** A single effect stays exactly while it has rounds left. */
  lemma ExpireOne(e: StatusEffect, round: int)
    ensures Expire([e], round) == if round - e.appliedRound < e.duration then [e] else []
  {
    assert [e][1..] == [];
  }

  function ExpireAll(cs: seq<Combatant>, round: int): (r: seq<Combatant>)
    ensures |r| == |cs|
  {
    seq(|cs|, i requires 0 <= i < |cs| => cs[i].(statusEffects := Expire(cs[i].statusEffects, round)))
  }

  /** An effect added in round `a` with duration `d >= 1` survives the
      expiry passes of rounds `a .. a + d - 1` and is gone from round `a + d` on. */
  lemma EffectLifetime(effects: seq<StatusEffect>, e: StatusEffect, round: int)
    requires e in effects
    ensures e in Expire(effects, round) <==> round < e.appliedRound + e.duration
  {
  }

  // ---------------------------------------------------------------------------
  // The tracker

  class CombatTracker {
    var combatants: seq<Combatant>
    var currentTurn: int
    var round: int
    var isActive: bool

    /** The turn index points at a combatant (or is 0 when there is none)
        and the round is at least 1. */
    ghost predicate Valid()
      reads this
    {
      && round >= 1
      && 0 <= currentTurn
      && (combatants != [] ==> currentTurn < |combatants|)
      && (combatants == [] ==> currentTurn == 0)
    }

    constructor()
      ensures Valid()
      ensures combatants == [] && currentTurn == 0 && round == 1 && !isActive
    {
      combatants := [];
      currentTurn := 0;
      round := 1;
      isActive := false;
    }

    /** `_onStartCombat`: refused with no combatants; otherwise every
        combatant takes its rolled initiative, the order is sorted by
        initiative, highest first, and combat starts at turn 0 of round 1. */
    method StartCombat(rolls: seq<int>) returns (started: bool)
      requires Valid() && |rolls| == |combatants|
      modifies this
      ensures Valid()
      ensures started <==> old(combatants) != []
      ensures !started ==> combatants == old(combatants) && currentTurn == old(currentTurn)
                           && round == old(round) && isActive == old(isActive)
      ensures started ==> isActive && currentTurn == 0 && round == 1
      ensures started ==> combatants == SortBy(WithInitiatives(old(combatants), rolls), InitiativeFirst)
      ensures started ==> SortedBy(combatants, InitiativeFirst)
      ensures started ==> multiset(combatants) == multiset(WithInitiatives(old(combatants), rolls))
      ensures started ==> forall k :: TiedWith(combatants, k, InitiativeFirst)
                                      == TiedWith(WithInitiatives(old(combatants), rolls), k, InitiativeFirst)
    {
      if |combatants| == 0 {
        return false;
      }
      RollInitiative(rolls);
      InitiativeOrder();
      SortBySorted(combatants, InitiativeFirst);
      SortByPerm(combatants, InitiativeFirst);
      forall k {
        SortByStable(combatants, k, InitiativeFirst);
      }
      combatants := SortBy(combatants, InitiativeFirst);
      isActive := true;
      currentTurn := 0;
      round := 1;
      return true;
    }

    /** `_rollInitiative`: each combatant's initiative becomes its roll. */
    method RollInitiative(rolls: seq<int>)
      requires |rolls| == |combatants|
      modifies this
      ensures combatants == WithInitiatives(old(combatants), rolls)
      ensures currentTurn == old(currentTurn) && round == old(round) && isActive == old(isActive)
    {
      var i := 0;
      while i < |combatants|
        invariant 0 <= i <= |combatants| == |old(combatants)|
        invariant forall j :: 0 <= j < i ==> combatants[j] == old(combatants)[j].(initiative := rolls[j])
        invariant forall j :: i <= j < |combatants| ==> combatants[j] == old(combatants)[j]
        invariant currentTurn == old(currentTurn) && round == old(round) && isActive == old(isActive)
      {
        combatants := combatants[i := combatants[i].(initiative := rolls[i])];
        i := i + 1;
      }
    }

    /** `_onEndCombat`. */
    method EndCombat()
      modifies this
      ensures Valid()
      ensures !isActive && combatants == [] && currentTurn == 0 && round == 1
    {
      isActive := false;
      combatants := [];
      currentTurn := 0;
      round := 1;
    }

    /** `_onNextTurn`: nothing when combat is not running or empty; otherwise
        the current combatant's end-of-turn effects, the clock advanced, and
        on a new round the status effects expired. */
    method NextTurn()
      requires Valid()
      modifies this
      ensures Valid()
      ensures isActive == old(isActive)
      ensures !old(isActive) || old(combatants) == [] ==>
                combatants == old(combatants) && currentTurn == old(currentTurn) && round == old(round)
      ensures old(isActive) && old(combatants) != [] ==>
                Clock(currentTurn, round) == Advance(Clock(old(currentTurn), old(round)), |old(combatants)|)
      ensures old(isActive) && old(combatants) != [] ==>
                combatants == (var ended := old(combatants)[old(currentTurn) := EndOfTurn(old(combatants)[old(currentTurn)])];
                               if currentTurn == 0 then ExpireAll(ended, round) else ended)
    {
      if !isActive || |combatants| == 0 {
        return;
      }
      ProcessEndOfTurnEffects();
      TurnArithmetic(currentTurn, |combatants|);
      currentTurn := (currentTurn + 1) % |combatants|;
      if currentTurn == 0 {
        round := round + 1;
        UpdateStatusEffects();
      }
    }

    /** `_onPreviousTurn`: the clock stepped back; combatants are untouched. */
    method PreviousTurn()
      requires Valid()
      modifies this
      ensures Valid()
      ensures combatants == old(combatants) && isActive == old(isActive)
      ensures !old(isActive) || old(combatants) == [] ==> currentTurn == old(currentTurn) && round == old(round)
      ensures old(isActive) && old(combatants) != [] ==>
                Clock(currentTurn, round) == Retreat(Clock(old(currentTurn), old(round)), |old(combatants)|)
    {
      if !isActive || |combatants| == 0 {
        return;
      }
      var n := |combatants|;
      TurnArithmetic(currentTurn, n);
      currentTurn := (currentTurn - 1 + n) % n;
      if currentTurn == n - 1 {
        round := Max(1, round - 1);
      }
    }

    /** The dialog of `_onAddCombatant`: appended with full hit points
        (`maxHp || 20`), `bonus || 0`, `ac || 10` and no effects. */
    method AddCombatant(id: string, name: string, kind: string, maxHp: Option<int>, bonus: Option<int>, ac: Option<int>)
      requires Valid()
      modifies this
      ensures Valid()
      ensures combatants == old(combatants) + [Combatant(id, name, kind, ParsedOr(maxHp, 20), ParsedOr(maxHp, 20),
                                                         ParsedOr(bonus, 0), 0, ParsedOr(ac, 10), [], 0, [], [])]
      ensures currentTurn == old(currentTurn) && round == old(round) && isActive == old(isActive)
    {
      var hp := ParsedOr(maxHp, 20);
      combatants := combatants + [Combatant(id, name, kind, hp, hp, ParsedOr(bonus, 0), 0, ParsedOr(ac, 10), [], 0, [], [])];
    }

    /** `_onRemoveCombatant`: after confirmation every entry with the id is
        removed and an index past the end is moved to the last combatant. */
    method RemoveCombatant(id: string, confirmed: bool)
      requires Valid()
      modifies this
      ensures Valid()
      ensures round == old(round) && isActive == old(isActive)
      ensures !confirmed ==> combatants == old(combatants) && currentTurn == old(currentTurn)
      ensures confirmed ==> combatants == WithoutId(old(combatants), id)
      ensures confirmed ==> currentTurn == RepairTurn(old(currentTurn), |combatants|)
    {
      if confirmed {
        combatants := WithoutId(combatants, id);
        if currentTurn >= |combatants| {
          currentTurn := Max(0, |combatants| - 1);
        }
      }
    }

    /** The edit-initiative dialog, with the turn kept on the combatant whose
        turn it was (see the findings in the README): the first combatant
        with the id gets the new initiative; during combat the order is
        re-sorted and the turn follows the current combatant. */
    method EditInitiative(id: string, roll: Option<int>, bonus: Option<int>)
      requires Valid()
      modifies this
      ensures Valid()
      ensures round == old(round) && isActive == old(isActive)
      ensures FindIndex(old(combatants), id).None? ==> combatants == old(combatants) && currentTurn == old(currentTurn)
      ensures FindIndex(old(combatants), id).Some? && !old(isActive) ==>
                combatants == Edited(old(combatants), FindIndex(old(combatants), id).value, roll, bonus)
                && currentTurn == old(currentTurn)
      ensures FindIndex(old(combatants), id).Some? && old(isActive) ==>
                combatants == SortBy(Edited(old(combatants), FindIndex(old(combatants), id).value, roll, bonus), InitiativeFirst)
                && combatants[currentTurn].id == old(combatants)[old(currentTurn)].id
    {
      var found := FindIndex(combatants, id);
      if found.None? {
        return;
      }
      var i := found.value;
      var turnId := combatants[currentTurn].id;
      var edited := Edited(combatants, i, roll, bonus);
      assert edited[currentTurn].id == turnId;
      combatants := edited;
      if isActive {
        var sorted := SortBy(edited, InitiativeFirst);
        SortByPerm(edited, InitiativeFirst);
        SortByMembers(edited, InitiativeFirst, edited[currentTurn]);
        var k :| 0 <= k < |sorted| && sorted[k] == edited[currentTurn];
        combatants := sorted;
        var at := FindIndex(sorted, turnId);
        assert at.Some? by {
          assert sorted[k].id == turnId;
        }
        currentTurn := at.value;
      }
    }

    /** The damage dialog on the first combatant with the id: `max(0, hp - (d || 1))`. */
    method Damage(id: string, amount: Option<int>)
      requires Valid()
      modifies this
      ensures Valid()
      ensures currentTurn == old(currentTurn) && round == old(round) && isActive == old(isActive)
      ensures combatants == match FindIndex(old(combatants), id)
                            case None => old(combatants)
                            case Some(i) => old(combatants)[i := Damaged(old(combatants)[i], ParsedOr(amount, 1))]
    {
      var found := FindIndex(combatants, id);
      if found.Some? {
        var i := found.value;
        combatants := combatants[i := combatants[i].(currentHp := Max(0, combatants[i].currentHp - ParsedOr(amount, 1)))];
      }
    }

    /** The healing dialog on the first combatant with the id: `min(maxHp, hp + (h || 1))`. */
    method Heal(id: string, amount: Option<int>)
      requires Valid()
      modifies this
      ensures Valid()
      ensures currentTurn == old(currentTurn) && round == old(round) && isActive == old(isActive)
      ensures combatants == match FindIndex(old(combatants), id)
                            case None => old(combatants)
                            case Some(i) => old(combatants)[i := Healed(old(combatants)[i], ParsedOr(amount, 1))]
    {
      var found := FindIndex(combatants, id);
      if found.Some? {
        var i := found.value;
        combatants := combatants[i := combatants[i].(currentHp := Min(combatants[i].maxHp, combatants[i].currentHp + ParsedOr(amount, 1)))];
      }
    }

    /** `_onAddStatus`: the effect is appended with `duration || 1` and the
        current round as the round it was applied. */
    method AddStatus(id: string, effect: string, duration: Option<int>)
      requires Valid()
      modifies this
      ensures Valid()
      ensures currentTurn == old(currentTurn) && round == old(round) && isActive == old(isActive)
      ensures combatants == match FindIndex(old(combatants), id)
                            case None => old(combatants)
                            case Some(i) => old(combatants)[i := old(combatants)[i].(statusEffects :=
                                              old(combatants)[i].statusEffects + [StatusEffect(effect, ParsedOr(duration, 1), round, 0)])]
    {
      var found := FindIndex(combatants, id);
      if found.Some? {
        var i := found.value;
        var c := combatants[i];
        combatants := combatants[i := c.(statusEffects := c.statusEffects + [StatusEffect(effect, ParsedOr(duration, 1), round, 0)])];
      }
    }

    /** `_onRemoveStatus`: the effect at the index is spliced out; an unknown
        combatant or an index without an effect changes nothing. */
    method RemoveStatus(id: string, index: Option<int>)
      requires Valid()
      modifies this
      ensures Valid()
      ensures currentTurn == old(currentTurn) && round == old(round) && isActive == old(isActive)
      ensures combatants == match FindIndex(old(combatants), id)
                            case None => old(combatants)
                            case Some(i) =>
                              var effects := old(combatants)[i].statusEffects;
                              if index.Some? && 0 <= index.value < |effects|
                              then old(combatants)[i := old(combatants)[i].(statusEffects := effects[..index.value] + effects[index.value + 1..])]
                              else old(combatants)
    {
      var found := FindIndex(combatants, id);
      if found.None? {
        return;
      }
      var i := found.value;
      var effects := combatants[i].statusEffects;
      if index.None? || index.value < 0 || index.value >= |effects| {
        return;
      }
      var k := index.value;
      combatants := combatants[i := combatants[i].(statusEffects := effects[..k] + effects[k + 1..])];
    }

    /** `_updateStatusEffects`: every combatant's effects filtered by their
        remaining duration in the current round. */
    method UpdateStatusEffects()
      modifies this
      ensures combatants == ExpireAll(old(combatants), round)
      ensures currentTurn == old(currentTurn) && round == old(round) && isActive == old(isActive)
    {
      var i := 0;
      while i < |combatants|
        invariant 0 <= i <= |combatants| == |old(combatants)|
        invariant forall j :: 0 <= j < i ==> combatants[j] == ExpireAll(old(combatants), round)[j]
        invariant forall j :: i <= j < |combatants| ==> combatants[j] == old(combatants)[j]
        invariant currentTurn == old(currentTurn) && round == old(round) && isActive == old(isActive)
      {
        var c := combatants[i];
        combatants := combatants[i := c.(statusEffects := Expire(c.statusEffects, round))];
        i := i + 1;
      }
    }

    /** `_processEndOfTurnEffects` on the current combatant. */
    method ProcessEndOfTurnEffects()
      requires Valid()
      modifies this
      ensures currentTurn == old(currentTurn) && round == old(round) && isActive == old(isActive)
      ensures combatants == if old(combatants) == [] then old(combatants)
                            else old(combatants)[old(currentTurn) := EndOfTurn(old(combatants)[old(currentTurn)])]
    {
      if |combatants| == 0 {
        return;
      }
      var c := combatants[currentTurn];
      var hp := PoisonTicks(c.statusEffects, c.currentHp);
      if c.regeneration != 0 {
        hp := Min(c.maxHp, hp + c.regeneration);
      }
      combatants := combatants[currentTurn := c.(currentHp := hp)];
    }

    /** `applyDamage`: `None` for an unknown combatant; otherwise the final
        damage, which the first combatant with the id takes. */
    method ApplyDamage(id: string, damage: int, damageType: string) returns (r: Option<int>)
      requires Valid()
      modifies this
      ensures Valid()
      ensures currentTurn == old(currentTurn) && round == old(round) && isActive == old(isActive)
      ensures r.None? <==> FindIndex(old(combatants), id).None?
      ensures r.None? ==> combatants == old(combatants)
      ensures r.Some? ==> var i := FindIndex(old(combatants), id).value;
                          && r.value == FinalDamage(old(combatants)[i], damage, damageType)
                          && combatants == old(combatants)[i := Struck(old(combatants)[i], r.value, round)]
    {
      var found := FindIndex(combatants, id);
      if found.None? {
        return None;
      }
      var i := found.value;
      var c := combatants[i];
      var finalDamage := damage;
      if damageType in c.resistances {
        finalDamage := damage / 2;
      } else if damageType in c.vulnerabilities {
        finalDamage := damage * 2;
      }
      var hp := Max(0, c.currentHp - finalDamage);
      var effects := c.statusEffects;
      if hp <= 0 {
        effects := effects + [Unconscious(round)];
      }
      combatants := combatants[i := c.(currentHp := hp, statusEffects := effects)];
      return Some(finalDamage);
    }
  }

  /** The poison loop of `_processEndOfTurnEffects`. */
  method PoisonTicks(effects: seq<StatusEffect>, hp: int) returns (r: int)
    ensures r == AfterPoison(effects, hp)
  {
    r := hp;
    var i := 0;
    while i < |effects|
      invariant 0 <= i <= |effects|
      invariant r == AfterPoison(effects[..i], hp)
    {
      assert effects[..i + 1][..i] == effects[..i];
      var effect := effects[i];
      if effect.name == "poisoned" && effect.damagePerTurn != 0 {
        r := Max(0, r - effect.damagePerTurn);
      }
      i := i + 1;
    }
    assert effects[..i] == effects;
  }

  // ---------------------------------------------------------------------------
  // The edit-initiative turn, as written

  /** The turn the source gives after re-sorting: the position of the
      EDITED combatant, whoever's turn it was. */
  function EditedTurnAsWritten(sorted: seq<Combatant>, editedId: string): Option<nat> {
    FindIndex(sorted, editedId)
  }

  function Fighter(id: string, initiative: int): Combatant {
    Combatant(id, id, "player", 20, 20, 0, initiative, 10, [], 0, [], [])
  }

  /** Three combatants at initiative 20, 15, 10 with the first one to act;
      raising the last one to 25 hands the turn to it under the code as
      written, while the corrected rule keeps it with the first. */
  lemma EditInitiativeMovesTurn()
    ensures var cs := [Fighter("a", 20), Fighter("b", 15), Fighter("c", 10)];
            var sorted := SortBy(Edited(cs, 2, Some(25), None), InitiativeFirst);
            && sorted == [Fighter("c", 25), Fighter("a", 20), Fighter("b", 15)]
            && EditedTurnAsWritten(sorted, "c") == Some(0)
            && sorted[0].id != cs[0].id
            && FindIndex(sorted, cs[0].id) == Some(1)
  {
    var cs := [Fighter("a", 20), Fighter("b", 15), Fighter("c", 10)];
    var edited := Edited(cs, 2, Some(25), None);
    assert edited == [Fighter("a", 20), Fighter("b", 15), Fighter("c", 25)];
    assert edited[1..] == [Fighter("b", 15), Fighter("c", 25)];
    assert edited[2..] == [Fighter("c", 25)];
    assert SortBy(edited[2..], InitiativeFirst) == [Fighter("c", 25)];
    assert Insert(Fighter("b", 15), [Fighter("c", 25)], InitiativeFirst) == [Fighter("c", 25), Fighter("b", 15)];
    assert SortBy(edited[1..], InitiativeFirst) == [Fighter("c", 25), Fighter("b", 15)];
    assert Insert(Fighter("a", 20), [Fighter("b", 15)], InitiativeFirst) == [Fighter("a", 20), Fighter("b", 15)];
    assert Insert(Fighter("a", 20), [Fighter("c", 25), Fighter("b", 15)], InitiativeFirst)
        == [Fighter("c", 25), Fighter("a", 20), Fighter("b", 15)];
  }
}
