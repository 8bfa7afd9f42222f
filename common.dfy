/** Values shared by every part of the model: an optional value, the ordered
    string-keyed dictionaries that stand for JavaScript objects, and the few
    string and number conversions the rules engine relies on. */
module Common {

  datatype Option<T> = None | Some(value: T) {
    function GetOr(default: T): T {
      match this
      case Some(v) => v
      case None => default
    }
  }

  /** JavaScript `parseInt(text) || d`: `None` stands for an unparsable input
      (NaN); NaN and 0 are both falsy, so both give the default. */
  function ParsedOr(parsed: Option<int>, d: int): (r: int)
    ensures parsed == None ==> r == d
    ensures parsed == Some(0) ==> r == d
    ensures parsed.Some? && parsed.value != 0 ==> r == parsed.value
  {
    if parsed.Some? && parsed.value != 0 then parsed.value else d
  }

  /** JavaScript `Number(v) || 0` for a stat value; `None` is a value that is
      not a number. */
  function NumberOr0(v: Option<int>): int {
    v.GetOr(0)
  }

  // ---------------------------------------------------------------------------
  // Ordered dictionaries (JavaScript objects with string keys).
  // Iteration order is insertion order; assignment to an existing key keeps
  // its position, assignment to a new key appends.

  datatype Entry<V> = Entry(key: string, val: V)
  type Dict<V> = seq<Entry<V>>

  function Keys<V>(d: Dict<V>): seq<string> {
    seq(|d|, i requires 0 <= i < |d| => d[i].key)
  }

  /** `Object.values(obj)`. */
  function Values<V>(d: Dict<V>): (r: seq<V>)
    ensures |r| == |d| && forall i :: 0 <= i < |d| ==> r[i] == d[i].val
  {
    seq(|d|, i requires 0 <= i < |d| => d[i].val)
  }

  predicate HasKey<V>(d: Dict<V>, k: string) {
    exists i :: 0 <= i < |d| && d[i].key == k
  }

  /** Keys of a JavaScript object are distinct. */
  predicate DistinctKeys<V>(d: Dict<V>) {
    forall i, j :: 0 <= i < j < |d| ==> d[i].key != d[j].key
  }

  /** Position of the (first) entry with key `k`. */
  function IndexOf<V>(d: Dict<V>, k: string): (r: Option<nat>)
    ensures r.Some? ==> r.value < |d| && d[r.value].key == k
    ensures r.Some? ==> forall j :: 0 <= j < r.value ==> d[j].key != k
    ensures r.None? <==> !HasKey(d, k)
  {
    if d == [] then None
    else if d[0].key == k then Some(0)
    else match IndexOf(d[1..], k)
      case None => None
      case Some(i) => Some(i + 1)
  }

  /** `obj[k]`, with `None` for a missing key. */
  function Get<V>(d: Dict<V>, k: string): Option<V> {
    match IndexOf(d, k)
    case None => None
    case Some(i) => Some(d[i].val)
  }

  /** `obj[k] = v`. */
  function Put<V>(d: Dict<V>, k: string, v: V): Dict<V> {
    match IndexOf(d, k)
    case Some(i) => d[i := Entry(k, v)]
    case None => d + [Entry(k, v)]
  }

  /** The first position holding a key is the one `IndexOf` reports. */
  lemma IndexOfFirst<V>(d: Dict<V>, k: string, i: nat)
    requires i < |d| && d[i].key == k
    requires forall j :: 0 <= j < i ==> d[j].key != k
    ensures IndexOf(d, k) == Some(i)
  {
    assert HasKey(d, k);
  }

  /** Two dictionaries with the same keys at the same positions find a key at
      the same position. */
  lemma IndexOfSameKeys<V, W>(d: Dict<V>, e: Dict<W>, k: string)
    requires |d| == |e|
    requires forall i :: 0 <= i < |d| ==> d[i].key == e[i].key
    ensures IndexOf(d, k) == IndexOf(e, k)
  {
    match IndexOf(d, k)
    case Some(i) =>
      IndexOfFirst(e, k, i);
    case None =>
      assert !HasKey(e, k) by {
        forall m | 0 <= m < |e| ensures e[m].key != k {
          assert d[m].key == e[m].key;
        }
      }
  }

  lemma GetPut<V>(d: Dict<V>, k: string, v: V, j: string)
    ensures Get(Put(d, k, v), j) == if j == k then Some(v) else Get(d, j)
  {
    var p := Put(d, k, v);
    match IndexOf(d, k)
    case Some(i) =>
      if j == k {
        IndexOfFirst(p, j, i);
      } else {
        match IndexOf(d, j)
        case None =>
          assert !HasKey(p, j);
        case Some(m) =>
          IndexOfFirst(p, j, m);
      }
    case None =>
      if j == k {
        IndexOfFirst(p, j, |d|);
      } else {
        match IndexOf(d, j)
        case None =>
          assert !HasKey(p, j) by {
            forall m | 0 <= m < |p| ensures p[m].key != j {
              if m < |d| { assert p[m] == d[m]; }
            }
          }
        case Some(m) =>
          IndexOfFirst(p, j, m);
      }
  }

  lemma KeysPut<V>(d: Dict<V>, k: string, v: V)
    ensures Keys(Put(d, k, v)) == if HasKey(d, k) then Keys(d) else Keys(d) + [k]
    ensures HasKey(Put(d, k, v), k)
    ensures forall j :: HasKey(Put(d, k, v), j) <==> HasKey(d, j) || j == k
  {
    var p := Put(d, k, v);
    match IndexOf(d, k)
    case Some(i) =>
      assert Keys(p) == Keys(d);
      assert p[i].key == k;
      forall j ensures HasKey(p, j) <==> HasKey(d, j) || j == k {
        if HasKey(d, j) {
          var m :| 0 <= m < |d| && d[m].key == j;
          assert p[m].key == j;
        }
        if HasKey(p, j) {
          var m :| 0 <= m < |p| && p[m].key == j;
          assert d[m].key == j;
        }
      }
    case None =>
      assert Keys(p) == Keys(d) + [k];
      assert p[|d|].key == k;
      forall j ensures HasKey(p, j) <==> HasKey(d, j) || j == k {
        if HasKey(d, j) {
          var m :| 0 <= m < |d| && d[m].key == j;
          assert p[m].key == j;
        }
        if HasKey(p, j) && j != k {
          var m :| 0 <= m < |p| && p[m].key == j;
          assert d[m].key == j;
        }
      }
  }

  lemma DistinctPut<V>(d: Dict<V>, k: string, v: V)
    requires DistinctKeys(d)
    ensures DistinctKeys(Put(d, k, v))
  {
    var p := Put(d, k, v);
    match IndexOf(d, k)
    case Some(i) =>
    case None =>
      forall a, b | 0 <= a < b < |p| ensures p[a].key != p[b].key {
        if b == |d| {
          assert p[a] == d[a];
          assert !HasKey(d, k);
        }
      }
  }

  lemma GetSome<V>(d: Dict<V>, k: string)
    ensures Get(d, k).Some? <==> HasKey(d, k)
  {
  }

  /** In a dictionary with distinct keys the entry at a position is the one `Get` finds. */
  lemma GetAt<V>(d: Dict<V>, i: nat)
    requires DistinctKeys(d) && i < |d|
    ensures Get(d, d[i].key) == Some(d[i].val)
  {
    var r := IndexOf(d, d[i].key);
    assert r.Some?;
  }

  // ---------------------------------------------------------------------------
  // Strings

  /** One character of `String.prototype.toLowerCase` (ASCII letters). */
  function LowerChar(c: char): char {
    if 'A' <= c <= 'Z' then (c as int + 32) as char else c
  }

  function ToLower(s: string): string {
    seq(|s|, i requires 0 <= i < |s| => LowerChar(s[i]))
  }

  /** `String.prototype.includes`: does `pat` occur in `s`? */
  predicate Contains(s: string, pat: string)
    decreases |s|
  {
    pat <= s || (s != [] && Contains(s[1..], pat))
  }

  /** `pat` occurs in `s` starting at position `i`. */
  predicate OccursAt(s: string, pat: string, i: int) {
    0 <= i <= |s| - |pat| && s[i..i + |pat|] == pat
  }

  /** `Contains` is the occurrence of `pat` at some position of `s`. */
  lemma {:induction false} ContainsAt(s: string, pat: string)
    ensures Contains(s, pat) <==> exists i :: OccursAt(s, pat, i)
    decreases |s|
  {
    if pat <= s {
      assert OccursAt(s, pat, 0);
    } else if s == [] {
    } else {
      ContainsAt(s[1..], pat);
      if Contains(s[1..], pat) {
        var i :| OccursAt(s[1..], pat, i);
        assert s[1..][i..i + |pat|] == s[i + 1..i + 1 + |pat|];
        assert OccursAt(s, pat, i + 1);
      }
      if exists i :: OccursAt(s, pat, i) {
        var i :| OccursAt(s, pat, i);
        assert i > 0;
        assert s[1..][i - 1..i - 1 + |pat|] == s[i..i + |pat|];
        assert OccursAt(s[1..], pat, i - 1);
      }
    }
  }

  /** Occurrence in a prefix is occurrence in the whole. */
  lemma ContainsInPrefix(s: string, t: string, pat: string)
    requires Contains(s, pat)
    ensures Contains(s + t, pat)
  {
    ContainsAt(s, pat);
    ContainsAt(s + t, pat);
    var i :| OccursAt(s, pat, i);
    assert (s + t)[i..i + |pat|] == s[i..i + |pat|];
    assert OccursAt(s + t, pat, i);
  }

  /** Lexicographic order by character code, reflexive (`a` may come before
      or equal `b`), as JavaScript's default `Array.prototype.sort` compares
      strings. */
  predicate LexLe(a: string, b: string)
    decreases |a|
  {
    a == [] || (b != [] && (a[0] < b[0] || (a[0] == b[0] && LexLe(a[1..], b[1..]))))
  }

  lemma {:induction false} LexLeTotal(a: string, b: string)
    ensures LexLe(a, b) || LexLe(b, a)
    decreases |a|
  {
    if a != [] && b != [] && a[0] == b[0] {
      LexLeTotal(a[1..], b[1..]);
    }
  }

  lemma {:induction false} LexLeTrans(a: string, b: string, c: string)
    requires LexLe(a, b) && LexLe(b, c)
    ensures LexLe(a, c)
    decreases |a|
  {
    if a != [] && b != [] && c != [] && a[0] == b[0] && b[0] == c[0] {
      LexLeTrans(a[1..], b[1..], c[1..]);
    }
  }

  lemma {:induction false} LexLeAntisym(a: string, b: string)
    requires LexLe(a, b) && LexLe(b, a)
    ensures a == b
    decreases |a|
  {
    if a != [] && b != [] {
      LexLeAntisym(a[1..], b[1..]);
      assert a == [a[0]] + a[1..];
      assert b == [b[0]] + b[1..];
    }
  }

  /** Decimal rendering of a number (`Number.prototype.toString`). */
  function NatToString(n: nat): (r: string)
    ensures |r| >= 1
    ensures forall i :: 0 <= i < |r| ==> '0' <= r[i] <= '9'
  {
    if n < 10 then [DigitChar(n)] else NatToString(n / 10) + [DigitChar(n % 10)]
  }

  function DigitChar(d: nat): (c: char)
    requires d < 10
    ensures '0' <= c <= '9'
  {
    ('0' as int + d) as char
  }

  function IntToString(n: int): string {
    if n < 0 then "-" + NatToString(-n) else NatToString(n)
  }

  function Max(a: int, b: int): int { if a >= b then a else b }
  function Min(a: int, b: int): int { if a <= b then a else b }
  // ---------------------------------------------------------------------------
  // Filtering

  /** `Array.prototype.filter` as a reference: the elements passing `p`, in
      their order. */
  function Keep<T>(s: seq<T>, p: T -> bool): seq<T> {
    if s == [] then [] else (if p(s[0]) then [s[0]] else []) + Keep(s[1..], p)
  }

  /** Filtering a concatenation filters each part, so the kept elements keep
      their order. */
  lemma {:induction false} KeepAppend<T>(a: seq<T>, b: seq<T>, p: T -> bool)
    ensures Keep(a + b, p) == Keep(a, p) + Keep(b, p)
  {
    if a == [] {
      assert a + b == b;
    } else {
      assert a + b == [a[0]] + (a[1..] + b);
      KeepAppend(a[1..], b, p);
      KeepCons(a[0], a[1..] + b, p);
    }
  }

  lemma KeepCons<T>(x: T, s: seq<T>, p: T -> bool)
    ensures Keep([x] + s, p) == (if p(x) then [x] else []) + Keep(s, p)
  {
    assert ([x] + s)[0] == x && ([x] + s)[1..] == s;
  }

  lemma KeepSnoc<T>(s: seq<T>, p: T -> bool)
    requires s != []
    ensures Keep(s, p) == Keep(s[..|s| - 1], p) + (if p(s[|s| - 1]) then [s[|s| - 1]] else [])
  {
    assert s == s[..|s| - 1] + [s[|s| - 1]];
    KeepAppend(s[..|s| - 1], [s[|s| - 1]], p);
    KeepOne(s[|s| - 1], p);
  }

  lemma KeepOne<T>(x: T, p: T -> bool)
    ensures Keep([x], p) == if p(x) then [x] else []
  {
    assert [x][1..] == [];
  }
}
