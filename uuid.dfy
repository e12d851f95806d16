/** The id generator `uuidv4`: a string replace over a fixed template in which
    every `x` becomes a random hex digit and the single `y` becomes one of
    `8`, `9`, `a`, `b`. The random draws are an input: one nibble per
    placeholder, consumed in template order, exactly as the replace callback
    draws one value per match. */
module Uuid {

  /** A value of `Math.floor(Math.random() * 16)`. */
  type Nibble = n: int | 0 <= n < 16

  /** The template the generator fills in. */
  const Template: string := "xxxxxxxx-xxxx-4xxx-yxxx-xxxxxxxxxxxx"

  /** Characters matched by the pattern `/[xy]/g`. */
  predicate IsPlaceholder(c: char) {
    c == 'x' || c == 'y'
  }

  predicate IsLowerHex(c: char) {
    '0' <= c <= '9' || 'a' <= c <= 'f'
  }

  /** `v.toString(16)` for a value below 16: a single lower-case digit. */
  function HexDigit(v: Nibble): (c: char)
    ensures IsLowerHex(c)
  {
    if v < 10 then '0' + v as char else 'a' + (v - 10) as char
  }

  /** Reads a lower-case hex digit back. */
  function HexValue(c: char): (v: Nibble)
    requires IsLowerHex(c)
    ensures HexDigit(v) == c
  {
    if c <= '9' then (c - '0') as int else (c - 'a') as int + 10
  }

  lemma HexDigitInjective(a: Nibble, b: Nibble)
    ensures HexDigit(a) == HexDigit(b) <==> a == b
  {
    if HexDigit(a) == HexDigit(b) {
      assert a == HexValue(HexDigit(a));
    }
  }

  /** The replace callback: `c === "x" ? r : (r % 4) + 8`, printed in base 16. */
  function Replacement(c: char, r: Nibble): (d: char)
    requires IsPlaceholder(c)
    ensures IsLowerHex(d) && HexValue(d) == if c == 'x' then r else r % 4 + 8
    ensures c == 'y' ==> d in {'8', '9', 'a', 'b'}
  {
    HexDigit(if c == 'x' then r else r % 4 + 8)
  }

  /** The characters `/[xy]/g` matches in `t`, in order; one random draw each. */
  function Matches(t: string): (m: string)
    ensures |m| <= |t|
    ensures forall k :: 0 <= k < |m| ==> IsPlaceholder(m[k])
  {
    if t == [] then []
    else if IsPlaceholder(t[0]) then [t[0]] + Matches(t[1..])
    else Matches(t[1..])
  }

  /** `t.replace(/[xy]/g, callback)` with the callback's draws given by `rs`. */
  function Fill(t: string, rs: seq<Nibble>): (r: string)
    requires |rs| == |Matches(t)|
    ensures |r| == |t|
    ensures forall i :: 0 <= i < |t| && !IsPlaceholder(t[i]) ==> r[i] == t[i]
    ensures forall i :: 0 <= i < |t| && t[i] == 'x' ==> IsLowerHex(r[i])
    ensures forall i :: 0 <= i < |t| && t[i] == 'y' ==> r[i] in {'8', '9', 'a', 'b'}
  {
    if t == [] then []
    else if IsPlaceholder(t[0]) then [Replacement(t[0], rs[0])] + Fill(t[1..], rs[1..])
    else [t[0]] + Fill(t[1..], rs)
  }

  /** Two draw sequences give the same replacement for every match. */
  predicate SameReplacements(m: string, a: seq<Nibble>, b: seq<Nibble>)
    requires forall k :: 0 <= k < |m| ==> IsPlaceholder(m[k])
    requires |a| == |b| == |m|
  {
    forall k :: 0 <= k < |m| ==> Replacement(m[k], a[k]) == Replacement(m[k], b[k])
  }

  /** Filling a template gives the same string exactly when every match is
      replaced by the same digit: the output determines the digits drawn. */
  lemma {:induction false} FillSameExactly(t: string, a: seq<Nibble>, b: seq<Nibble>)
    requires |a| == |b| == |Matches(t)|
    ensures Fill(t, a) == Fill(t, b) <==> SameReplacements(Matches(t), a, b)
  {
    if t != [] {
      var m, ra, rb := Matches(t), Fill(t, a), Fill(t, b);
      if IsPlaceholder(t[0]) {
        FillSameExactly(t[1..], a[1..], b[1..]);
        assert m == [t[0]] + Matches(t[1..]);
        if ra == rb {
          assert ra[1..] == Fill(t[1..], a[1..]) && rb[1..] == Fill(t[1..], b[1..]);
          forall k | 0 <= k < |m|
            ensures Replacement(m[k], a[k]) == Replacement(m[k], b[k])
          {
            if k > 0 {
              assert Replacement(m[1..][k - 1], a[1..][k - 1]) == Replacement(m[1..][k - 1], b[1..][k - 1]);
            } else {
              assert ra[0] == rb[0];
            }
          }
        }
        if SameReplacements(m, a, b) {
          forall k | 0 <= k < |m| - 1
            ensures Replacement(m[1..][k], a[1..][k]) == Replacement(m[1..][k], b[1..][k])
          {
            assert Replacement(m[k + 1], a[k + 1]) == Replacement(m[k + 1], b[k + 1]);
          }
        }
      } else {
        FillSameExactly(t[1..], a, b);
        if ra == rb {
          assert ra[1..] == Fill(t[1..], a) && rb[1..] == Fill(t[1..], b);
        }
      }
    }
  }

  /** Positions of the four group separators of the 8-4-4-4-12 layout. */
  predicate IsDashPosition(i: int) {
    i == 8 || i == 13 || i == 18 || i == 23
  }

  /** The layout of the template: the separators, the version digit `4`,
      the variant placeholder `y`, and `x` everywhere else. */
  predicate IsV4Template(t: string) {
    |t| == 36 &&
    (forall i :: 0 <= i < 36 && IsDashPosition(i) ==> t[i] == '-') &&
    t[14] == '4' && t[19] == 'y' &&
    (forall i :: 0 <= i < 36 && !IsDashPosition(i) && i != 14 && i != 19 ==> t[i] == 'x')
  }

  lemma TemplateLayout()
    ensures IsV4Template(Template)
  {
    assert Template == "xxxxxxxx" + "-" + "xxxx" + "-4" + "xxx" + "-y" + "xxx" + "-" + "xxxxxxxxxxxx";
  }

  /** Number of separators at or after position `i`. */
  function DashesFrom(i: int): int {
    (if i <= 8 then 1 else 0) + (if i <= 13 then 1 else 0) +
    (if i <= 18 then 1 else 0) + (if i <= 23 then 1 else 0)
  }

  /** Number of placeholders at or after position `i` of the layout. */
  function PlaceholdersFrom(i: int): int {
    (36 - i) - DashesFrom(i) - (if i <= 14 then 1 else 0)
  }

  /** The matches in the suffix of the layout from position `i`: how many,
      and that the only `y` among them comes after the placeholders before
      position 19. */
  lemma {:induction false} LayoutSuffixMatches(t: string, i: nat)
    requires IsV4Template(t) && i <= 36
    ensures |Matches(t[i..])| == PlaceholdersFrom(i)
    ensures forall k :: 0 <= k < |Matches(t[i..])| ==>
      Matches(t[i..])[k] == if i <= 19 && k == PlaceholdersFrom(i) - PlaceholdersFrom(19) then 'y' else 'x'
    decreases 36 - i
  {
    if i < 36 {
      LayoutSuffixMatches(t, i + 1);
      assert t[i..][1..] == t[i + 1..];
    }
  }

  /** A template of this layout draws 31 random values: draw 15 is for the
      `y`, every other draw is for an `x`. */
  lemma LayoutMatches(t: string)
    requires IsV4Template(t)
    ensures |Matches(t)| == 31
    ensures Matches(t)[15] == 'y'
    ensures forall k :: 0 <= k < 31 && k != 15 ==> Matches(t)[k] == 'x'
  {
    LayoutSuffixMatches(t, 0);
    assert t[0..] == t;
  }

  /** The textual layout of a version-4 UUID in section 4.4 of RFC 4122:
      groups of 8-4-4-4-12 lower-case hex digits, version digit `4`, and a
      variant digit whose two high bits are `10`. */
  predicate IsUuidV4(s: string) {
    |s| == 36 &&
    (forall i :: 0 <= i < 36 && IsDashPosition(i) ==> s[i] == '-') &&
    (forall i :: 0 <= i < 36 && !IsDashPosition(i) ==> IsLowerHex(s[i])) &&
    s[14] == '4' &&
    s[19] in {'8', '9', 'a', 'b'}
  }

  /** `uuidv4()`, given the 31 values its callback draws. */
  function Uuid4(rs: seq<Nibble>): (id: string)
    requires |rs| == 31
    ensures IsUuidV4(id)
  {
    TemplateLayout();
    LayoutMatches(Template);
    FillV4Template(Template, rs);
    Fill(Template, rs)
  }

  /** Filling a template of this layout gives a version-4 UUID, whatever
      is drawn. */
  lemma FillV4Template(t: string, rs: seq<Nibble>)
    requires IsV4Template(t) && |rs| == |Matches(t)|
    ensures IsUuidV4(Fill(t, rs))
  {
  }

  /** Two fills of a template of this layout are equal exactly when the
      draws agree on every `x` and agree modulo 4 on the `y` (draw 15). */
  lemma LayoutSameExactly(t: string, a: seq<Nibble>, b: seq<Nibble>)
    requires IsV4Template(t) && |a| == |b| == |Matches(t)| == 31
    ensures Fill(t, a) == Fill(t, b) <==>
      (forall k :: 0 <= k < 31 && k != 15 ==> a[k] == b[k]) && a[15] % 4 == b[15] % 4
  {
    LayoutMatches(t);
    var m := Matches(t);
    FillSameExactly(t, a, b);
    forall k | 0 <= k < 31
      ensures Replacement(m[k], a[k]) == Replacement(m[k], b[k]) <==>
              if k == 15 then a[k] % 4 == b[k] % 4 else a[k] == b[k]
    {
      if k == 15 {
        HexDigitInjective(a[k] % 4 + 8, b[k] % 4 + 8);
      } else {
        HexDigitInjective(a[k], b[k]);
      }
    }
  }

  /** Two runs give the same id exactly when they drew the same values for
      every `x` and the same value modulo 4 for the `y` (draw 15): the id
      carries 30 * 4 + 2 = 122 random bits. */
  lemma Uuid4SameExactly(a: seq<Nibble>, b: seq<Nibble>)
    requires |a| == |b| == 31
    ensures Uuid4(a) == Uuid4(b) <==>
      (forall k :: 0 <= k < 31 && k != 15 ==> a[k] == b[k]) && a[15] % 4 == b[15] % 4
  {
    TemplateLayout();
    LayoutMatches(Template);
    LayoutSameExactly(Template, a, b);
  }
}
