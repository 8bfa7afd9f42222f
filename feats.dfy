/** Feat bonuses: each benefit text of an enabled feat is lower-cased, its
    first signed integer (the regular expression `[+\-]?\d+`) is read, and that
    number goes to every bucket whose keyword the text contains. */
module Feats {
  import opened Common
  import opened Schema

  predicate IsDigit(c: char) { '0' <= c <= '9' }

  /** Length of the run of digits at the start of `s`. */
  function DigitRun(s: string): (n: nat)
    ensures n <= |s|
    ensures forall i :: 0 <= i < n ==> IsDigit(s[i])
    ensures n < |s| ==> !IsDigit(s[n])
  {
    if s != [] && IsDigit(s[0]) then 1 + DigitRun(s[1..]) else 0
  }

  /** Decimal value of a string of digits. */
  function DigitsValue(ds: string): int
    requires forall i :: 0 <= i < |ds| ==> IsDigit(ds[i])
  {
    if ds == [] then 0
    else DigitsValue(ds[..|ds| - 1]) * 10 + (ds[|ds| - 1] as int - '0' as int)
  }

  /** The value of the digit run starting at position `i`. */
  function NumberAt(s: string, i: nat): int
    requires i <= |s|
  {
    DigitsValue(s[i..i + DigitRun(s[i..])])
  }

  /** The match of `[+\-]?\d+` that starts at position `i`, as `Number` reads it. */
  function MatchAt(s: string, i: nat): Option<int> {
    if i < |s| && IsDigit(s[i]) then
      Some(NumberAt(s, i))
    else if i + 1 < |s| && (s[i] == '+' || s[i] == '-') && IsDigit(s[i + 1]) then
      Some(if s[i] == '-' then -NumberAt(s, i + 1) else NumberAt(s, i + 1))
    else None
  }

  /** The leftmost match at or after position `from`. */
  function FirstMatchFrom(s: string, from: nat): Option<int>
    decreases |s| - from
  {
    if from >= |s| then None
    else if MatchAt(s, from).Some? then MatchAt(s, from)
    else FirstMatchFrom(s, from + 1)
  }

  /** `text.match(/([+\-]?\d+)/)`, read with `Number`. */
  function FirstSignedInt(text: string): Option<int> {
    FirstMatchFrom(text, 0)
  }

  /** The number found is the one at the leftmost position where the pattern matches. */
  lemma {:induction false} FirstMatchFromIsLeftmost(s: string, from: nat)
    ensures FirstMatchFrom(s, from).Some? <==>
              exists i :: from <= i < |s| && MatchAt(s, i).Some?
    ensures FirstMatchFrom(s, from).Some? ==>
              exists i :: from <= i < |s| && MatchAt(s, i) == FirstMatchFrom(s, from)
                       && forall j :: from <= j < i ==> MatchAt(s, j).None?
    decreases |s| - from
  {
    if from < |s| && MatchAt(s, from).None? {
      FirstMatchFromIsLeftmost(s, from + 1);
      if FirstMatchFrom(s, from).Some? {
        var i :| from + 1 <= i < |s| && MatchAt(s, i) == FirstMatchFrom(s, from + 1)
                 && forall j :: from + 1 <= j < i ==> MatchAt(s, j).None?;
        assert forall j :: from <= j < i ==> MatchAt(s, j).None?;
      }
    }
  }

  lemma {:induction false} DigitsValueRendered(n: nat)
    ensures forall i :: 0 <= i < |NatToString(n)| ==> IsDigit(NatToString(n)[i])
    ensures DigitsValue(NatToString(n)) == n
  {
    if n >= 10 {
      DigitsValueRendered(n / 10);
      var ds := NatToString(n);
      assert ds[..|ds| - 1] == NatToString(n / 10);
    }
  }

  lemma DigitRunPrefix(ds: string, r: string)
    requires forall i :: 0 <= i < |ds| ==> IsDigit(ds[i])
    requires r == [] || !IsDigit(r[0])
    ensures DigitRun(ds + r) == |ds|
    decreases |ds|
  {
    if ds != [] {
      assert (ds + r)[1..] == ds[1..] + r;
      DigitRunPrefix(ds[1..], r);
    }
  }

  /** Positions where nothing matches are skipped. */
  lemma {:induction false} FirstMatchSkip(s: string, from: nat, to: nat)
    requires from <= to <= |s|
    requires forall j :: from <= j < to ==> MatchAt(s, j).None?
    ensures FirstMatchFrom(s, from) == FirstMatchFrom(s, to)
    decreases (to as int) - (from as int)
  {
    if from < to {
      FirstMatchSkip(s, from + 1, to);
    }
  }

  /** The digits of a rendered number, followed by a non-digit, match as that number. */
  lemma MatchRendered(s: string, k: nat, n: nat, after: string)
    requires k <= |s| && s[k..] == NatToString(n) + after
    requires after == [] || !IsDigit(after[0])
    ensures MatchAt(s, k) == Some(n)
    ensures k > 0 && s[k - 1] == '+' ==> MatchAt(s, k - 1) == Some(n)
  {
    var ds := NatToString(n);
    var rest := s[k..];
    DigitsValueRendered(n);
    DigitRunPrefix(ds, after);
    assert DigitRun(rest) == |ds|;
    assert s[k..k + |ds|] == rest[..|ds|] == ds;
    assert s[k..k + DigitRun(s[k..])] == ds;
    assert NumberAt(s, k) == DigitsValue(ds) == n;
    assert s[k] == rest[0] == ds[0];
    assert IsDigit(s[k]);
  }

  /** No match starts inside digit-free text unless a sign stands right before the digits. */
  lemma NoMatchInText(before: string, rest: string, j: nat)
    requires forall i :: 0 <= i < |before| ==> !IsDigit(before[i])
    requires j < |before|
    requires j + 1 == |before| ==> before[j] != '+' && before[j] != '-'
    ensures MatchAt(before + rest, j).None?
  {
    var s := before + rest;
    assert s[j] == before[j];
    if j + 1 < |before| {
      assert s[j + 1] == before[j + 1];
    }
  }

  /** Reading back a rendered number: a benefit text made of words without
      digits, the number, and a word that does not start with a digit yields
      that number (as long as no minus sign stands right before it). */
  lemma ReadsRenderedNumber(before: string, n: nat, after: string)
    requires forall i :: 0 <= i < |before| ==> !IsDigit(before[i])
    requires before == [] || before[|before| - 1] != '-'
    requires after == [] || !IsDigit(after[0])
    ensures FirstSignedInt(before + NatToString(n) + after) == Some(n)
  {
    var ds := NatToString(n);
    var s := before + ds + after;
    var k := |before|;
    assert s == before + (ds + after);
    assert s[k..] == ds + after;
    MatchRendered(s, k, n, after);
    var start := if k > 0 && s[k - 1] == '+' then k - 1 else k;
    forall j: nat | j < start
      ensures MatchAt(s, j).None?
    {
      NoMatchInText(before, ds + after, j);
    }
    FirstMatchSkip(s, 0, start);
  }

  // ---------------------------------------------------------------------------
  // Routing into buckets

  function Zero(): FeatBonuses { FeatBonuses(0, 0, 0) }

  function AddBonuses(a: FeatBonuses, b: FeatBonuses): FeatBonuses {
    FeatBonuses(a.attack + b.attack, a.defense + b.defense, a.damage + b.damage)
  }

  lemma AddZeroLeft(a: FeatBonuses)
    ensures AddBonuses(Zero(), a) == a
  {
  }

  lemma AddZeroRight(a: FeatBonuses)
    ensures AddBonuses(a, Zero()) == a
  {
  }

  lemma AddAssoc(a: FeatBonuses, b: FeatBonuses, c: FeatBonuses)
    ensures AddBonuses(AddBonuses(a, b), c) == AddBonuses(a, AddBonuses(b, c))
  {
  }

  /** What one benefit text contributes: its first number (0 if none) in each
      bucket whose keyword it contains. */
  function BenefitBonus(benefit: string): FeatBonuses {
    var text := ToLower(benefit);
    var v := FirstSignedInt(text).GetOr(0);
    FeatBonuses(
      if Contains(text, "attack") then v else 0,
      if Contains(text, "ac") || Contains(text, "defense") then v else 0,
      if Contains(text, "damage") then v else 0)
  }

  /** Sum over a list of benefit texts. */
  function BenefitsTotal(benefits: seq<string>): FeatBonuses {
    if benefits == [] then Zero()
    else AddBonuses(BenefitsTotal(benefits[..|benefits| - 1]), BenefitBonus(benefits[|benefits| - 1]))
  }

  /** A feat counts unless its flag is exactly `false`. */
  predicate Enabled(f: Feat) { f.enabled != Some(false) }

  function FeatBonus(f: Feat): FeatBonuses {
    if Enabled(f) then BenefitsTotal(f.benefits) else Zero()
  }

  /** `featBonuses`: the sum over all feats. */
  function FeatTotals(feats: seq<Feat>): FeatBonuses {
    if feats == [] then Zero()
    else AddBonuses(FeatTotals(feats[..|feats| - 1]), FeatBonus(feats[|feats| - 1]))
  }

  function EnabledOnly(feats: seq<Feat>): seq<Feat> {
    if feats == [] then []
    else EnabledOnly(feats[..|feats| - 1]) + (if Enabled(feats[|feats| - 1]) then [feats[|feats| - 1]] else [])
  }

  /** Disabled feats contribute nothing: the totals are those of the enabled feats alone. */
  lemma {:induction false} DisabledFeatsIgnored(feats: seq<Feat>)
    ensures FeatTotals(feats) == FeatTotals(EnabledOnly(feats))
  {
    if feats != [] {
      var init := feats[..|feats| - 1];
      var last := feats[|feats| - 1];
      DisabledFeatsIgnored(init);
      var e := EnabledOnly(feats);
      if Enabled(last) {
        assert e == EnabledOnly(init) + [last];
        assert e[..|e| - 1] == EnabledOnly(init);
        assert e[|e| - 1] == last;
      } else {
        assert e == EnabledOnly(init) + [];
        assert e == EnabledOnly(init);
        AddZeroRight(FeatTotals(init));
      }
    }
  }

  /** The feats kept are exactly the enabled ones. */
  lemma {:induction false} EnabledOnlyMembers(feats: seq<Feat>, f: Feat)
    ensures f in EnabledOnly(feats) <==> f in feats && Enabled(f)
  {
    if feats != [] {
      var init := feats[..|feats| - 1];
      EnabledOnlyMembers(init, f);
      assert feats == init + [feats[|feats| - 1]];
    }
  }

  /** Appending feats adds their bonuses. */
  lemma {:induction false} FeatTotalsAppend(a: seq<Feat>, b: seq<Feat>)
    ensures FeatTotals(a + b) == AddBonuses(FeatTotals(a), FeatTotals(b))
    decreases |b|
  {
    if b == [] {
      assert a + b == a;
      AddZeroRight(FeatTotals(a));
    } else {
      var b' := b[..|b| - 1];
      var last := b[|b| - 1];
      var ab := a + b;
      assert ab[..|ab| - 1] == a + b';
      assert ab[|ab| - 1] == last;
      var x, y, z := FeatTotals(a), FeatTotals(b'), FeatBonus(last);
      assert FeatTotals(ab) == AddBonuses(FeatTotals(a + b'), z);
      FeatTotalsAppend(a, b');
      assert FeatTotals(b) == AddBonuses(y, z);
      AddAssoc(x, y, z);
    }
  }

  /** Every text naming "attack" also contains "ac", so it also counts for defense. */
  lemma AttackTextAlsoDefense(text: string)
    requires Contains(text, "attack")
    ensures Contains(text, "ac")
  {
    ContainsAt(text, "attack");
    var i :| OccursAt(text, "attack", i);
    assert text[i + 3] == 'a' && text[i + 4] == 'c' by {
      assert text[i..i + 6] == "attack";
      assert text[i + 3] == text[i..i + 6][3];
      assert text[i + 4] == text[i..i + 6][4];
    }
    assert text[i + 3..i + 5] == "ac";
    assert OccursAt(text, "ac", i + 3);
    ContainsAt(text, "ac");
  }

  /** So an attack bonus is always a defense bonus of the same size. */
  lemma AttackBonusIsDefenseBonus(benefit: string)
    ensures BenefitBonus(benefit).attack != 0 ==> BenefitBonus(benefit).defense == BenefitBonus(benefit).attack
  {
    var text := ToLower(benefit);
    if Contains(text, "attack") {
      AttackTextAlsoDefense(text);
    }
  }

  /** Text without upper-case letters is left as it is by lower-casing. */
  lemma LowerUnchanged(s: string)
    requires forall i :: 0 <= i < |s| ==> !('A' <= s[i] <= 'Z')
    ensures ToLower(s) == s
  {
  }

  /** A pattern occurring in `t` occurs in every text ending with `t`. */
  lemma {:induction false} ContainsInSuffix(s: string, t: string, pat: string)
    requires Contains(t, pat)
    ensures Contains(s + t, pat)
    decreases |s|
  {
    if s != [] {
      assert (s + t)[1..] == s[1..] + t;
      ContainsInSuffix(s[1..], t, pat);
    } else {
      assert s + t == t;
    }
  }

  /** A text in which the first character of `pat` never appears does not contain `pat`. */
  lemma {:induction false} MissingFirstChar(s: string, pat: string)
    requires pat != []
    requires forall i :: 0 <= i < |s| ==> s[i] != pat[0]
    ensures !Contains(s, pat)
    decreases |s|
  {
    if s != [] {
      assert s[0] != pat[0];
      MissingFirstChar(s[1..], pat);
    }
  }

  /** The benefit text "+n attack", for a natural number n. */
  function AttackText(n: nat): string {
    "+" + NatToString(n) + " attack"
  }

  /** The characters of "+n attack": the sign, digits, and those of " attack". */
  lemma AttackTextChars(n: nat)
    ensures forall i :: 0 <= i < |AttackText(n)| ==>
              AttackText(n)[i] == '+' || IsDigit(AttackText(n)[i]) || AttackText(n)[i] in " attack"
  {
    var ds := NatToString(n);
    var word := " attack";
    var text := "+" + ds + word;
    forall i | 0 <= i < |text|
      ensures text[i] == '+' || IsDigit(text[i]) || text[i] in word
    {
      if i == 0 {
      } else if i <= |ds| {
        assert text[i] == ds[i - 1];
      } else {
        assert text[i] == word[i - 1 - |ds|];
      }
    }
  }

  /** "+n attack" has no upper-case letter. */
  lemma AttackTextLower(n: nat)
    ensures ToLower(AttackText(n)) == AttackText(n)
  {
    AttackTextChars(n);
    LowerUnchanged(AttackText(n));
  }

  /** "+n attack" reads as n. */
  lemma AttackTextNumber(n: nat)
    ensures FirstSignedInt(AttackText(n)) == Some(n)
  {
    ReadsRenderedNumber("+", n, " attack");
  }

  /** "+n attack" names attack and does not name damage. */
  lemma AttackTextWords(n: nat)
    ensures Contains(AttackText(n), "attack") && !Contains(AttackText(n), "damage")
  {
    var word := " attack";
    assert Contains(word, "attack") by { assert word[1..] == "attack"; }
    ContainsInSuffix("+" + NatToString(n), word, "attack");
    AttackTextChars(n);
    MissingFirstChar(AttackText(n), "damage");
  }

  /** "+n attack" gives n to attack and, through the "ac" inside "attack",
      n to defense; it names no damage. */
  lemma AttackBenefit(n: nat)
    ensures BenefitBonus(AttackText(n)) == FeatBonuses(n, n, 0)
  {
    AttackTextLower(n);
    AttackTextNumber(n);
    AttackTextWords(n);
    AttackTextAlsoDefense(AttackText(n));
  }

  /** One feat adds its benefits' total when enabled and nothing when its
      flag is exactly `false`. */
  lemma SingleFeat(f: Feat)
    ensures FeatTotals([f]) == if f.enabled == Some(false) then Zero() else BenefitsTotal(f.benefits)
  {
    var s := [f];
    assert s[..0] == [];
    assert FeatTotals(s) == AddBonuses(Zero(), FeatBonus(f));
    AddZeroLeft(FeatBonus(f));
  }

  lemma SingleBenefit(b: string)
    ensures BenefitsTotal([b]) == BenefitBonus(b)
  {
    var s := [b];
    assert s[..0] == [];
    assert BenefitsTotal(s) == AddBonuses(Zero(), BenefitBonus(b));
    AddZeroLeft(BenefitBonus(b));
  }

  /** A feat whose one benefit is "+n attack" adds nothing to attack when
      disabled and n when enabled or when the flag is absent. */
  lemma EnabledFlagDecides(f: Feat, n: nat)
    requires f.benefits == [AttackText(n)]
    ensures FeatTotals([f]).attack == if f.enabled == Some(false) then 0 else n
  {
    AttackBenefit(n);
    SingleBenefit(f.benefits[0]);
    SingleFeat(f);
  }
}
