/**
 * The two regular expressions the lint stage reads its rating with:
 *
 *   phrase pattern    `rated at\s+(-?\d+(?:\.\d+)?)\s*\/\s*10`   (IGNORECASE)
 *   fraction pattern  `(-?\d+(?:\.\d+)?)\s*\/\s*10`
 *
 * A match of either pattern is described by a datatype whose text is the
 * matched substring (`PlainText`, `RatedText`). The greedy scanners `PlainAt`
 * and `RatedAt` are proved to find a match at a position exactly when such a
 * text occurs there, so at a fixed position each pattern matches in at most
 * one way; `FirstRated` and `FirstPlain` search for the leftmost position.
 */
module RatingPatterns {
  import opened Outcomes
  import opened Text

  // ---------------------------------------------------------------- syntax

  /** `-?\d+(?:\.\d+)?`: optional minus, whole digits, optional fraction digits. */
  datatype Numeral = Numeral(negative: bool, whole: string, fraction: Option<string>)

  /** A numeral, optional whitespace, a slash, optional whitespace and `10`: the fraction pattern. */
  datatype PlainMatch = PlainMatch(num: Numeral, spaceBefore: string, spaceAfter: string)

  /** `rated at\s+` in any ASCII case, followed by a fraction-pattern match. */
  datatype RatedMatch = RatedMatch(phrase: string, gap: string, rating: PlainMatch)

  const Phrase: string := "rated at"

  predicate ValidNumeral(n: Numeral)
  {
    && |n.whole| > 0 && AllDigits(n.whole)
    && (n.fraction.Some? ==> |n.fraction.value| > 0 && AllDigits(n.fraction.value))
  }

  predicate ValidPlain(m: PlainMatch)
  {
    ValidNumeral(m.num) && AllSpace(m.spaceBefore) && AllSpace(m.spaceAfter)
  }

  predicate ValidRated(m: RatedMatch)
  {
    CaselessEq(m.phrase, Phrase) && |m.gap| > 0 && AllSpace(m.gap) && ValidPlain(m.rating)
  }

  function SignText(negative: bool): string
  {
    if negative then "-" else ""
  }

  function FractionText(fraction: Option<string>): string
  {
    if fraction.Some? then "." + fraction.value else ""
  }

  function NumeralText(n: Numeral): string
  {
    SignText(n.negative) + n.whole + FractionText(n.fraction)
  }

  /** What follows the numeral in a fraction match: `\s*\/\s*10`. */
  function TailText(before: string, after: string): string
  {
    before + "/" + after + "10"
  }

  function PlainText(m: PlainMatch): string
  {
    NumeralText(m.num) + TailText(m.spaceBefore, m.spaceAfter)
  }

  function RatedText(m: RatedMatch): string
  {
    m.phrase + m.gap + PlainText(m.rating)
  }

  // ----------------------------------------------------------- occurrences

  /** `t` occurs in `s` starting at index `i`. */
  predicate OccursAt(s: string, i: nat, t: string)
  {
    i + |t| <= |s| && s[i..i + |t|] == t
  }

  /** Two texts occurring back to back form an occurrence of their concatenation. */
  lemma OccursConcat(s: string, i: nat, a: string, b: string)
    requires OccursAt(s, i, a) && OccursAt(s, i + |a|, b)
    ensures OccursAt(s, i, a + b)
  {
    assert s[i..i + |a + b|] == s[i..i + |a|] + s[i + |a|..i + |a| + |b|];
  }

  /** An occurrence of a concatenation is an occurrence of each part, back to back. */
  lemma OccursSplit(s: string, i: nat, a: string, b: string)
    requires OccursAt(s, i, a + b)
    ensures OccursAt(s, i, a) && OccursAt(s, i + |a|, b)
  {
    var t := s[i..i + |a + b|];
    assert t[..|a|] == s[i..i + |a|];
    assert t[|a|..] == s[i + |a|..i + |a| + |b|];
  }

  /** The character at the start of an occurrence. */
  lemma OccursFirst(s: string, i: nat, t: string)
    requires OccursAt(s, i, t) && |t| > 0
    ensures s[i] == t[0]
  {
    assert s[i..i + |t|][0] == t[0];
  }

  /** Every character of an occurrence can be read back from `s`. */
  lemma OccursChars(s: string, i: nat, t: string)
    requires OccursAt(s, i, t)
    ensures forall k :: i <= k < i + |t| ==> s[k] == t[k - i]
  {
    forall k | i <= k < i + |t|
      ensures s[k] == t[k - i]
    {
      assert s[i..i + |t|][k - i] == t[k - i];
    }
  }

  /** `s[a..b]` occurs at `a`. */
  lemma SliceOccurs(s: string, a: nat, b: nat)
    requires a <= b <= |s|
    ensures OccursAt(s, a, s[a..b])
  {
  }

  // ----------------------------------------------------------------- value

  function DigitValue(c: char): nat
  {
    if IsDigit(c) then c as int - '0' as int else 0
  }

  /** The decimal number a digit string denotes. */
  function DigitsValue(d: string): nat
  {
    if |d| == 0 then 0 else 10 * DigitsValue(d[..|d| - 1]) + DigitValue(d[|d| - 1])
  }

  function Pow10(k: nat): (p: nat)
    ensures p >= 1
  {
    if k == 0 then 1 else 10 * Pow10(k - 1)
  }

  /** What Python's `float` makes of a numeral's text, as an exact real. */
  function NumeralValue(n: Numeral): real
  {
    var frac := if n.fraction.Some?
      then DigitsValue(n.fraction.value) as real / Pow10(|n.fraction.value|) as real
      else 0.0;
    var magnitude := DigitsValue(n.whole) as real + frac;
    if n.negative then -magnitude else magnitude
  }

  /** `k` digits denote less than `10^k`. */
  lemma {:induction false} DigitsBelow(d: string)
    ensures DigitsValue(d) < Pow10(|d|)
  {
    if |d| > 0 {
      DigitsBelow(d[..|d| - 1]);
    }
  }

  /** A proper fraction: a value below a positive denominator divides to less than one. */
  lemma ProperFraction(x: real, p: real)
    requires 0.0 <= x < p
    ensures 0.0 <= x / p < 1.0
  {
    var q := x / p;
    assert q * p == x;
  }

  /**
   * The minus sign negates the value, and the magnitude lies between the
   * whole digits' value and the next integer: a fraction part adds less than one.
   */
  lemma NumeralMagnitude(n: Numeral)
    ensures n.negative ==> NumeralValue(n) == -NumeralValue(n.(negative := false))
    ensures DigitsValue(n.whole) as real <= NumeralValue(n.(negative := false)) < DigitsValue(n.whole) as real + 1.0
    ensures n.fraction.None? ==> NumeralValue(n.(negative := false)) == DigitsValue(n.whole) as real
  {
    if n.fraction.Some? {
      var f := n.fraction.value;
      DigitsBelow(f);
      ProperFraction(DigitsValue(f) as real, Pow10(|f|) as real);
    }
  }

  // -------------------------------------------------------------- scanners

  /** An optional minus at `i` and a run of digits up to `b` form a numeral without fraction. */
  lemma WholeOccurs(s: string, i: nat, negative: bool, b: nat)
    requires negative ==> i < |s| && s[i] == '-'
    requires var a := i + |SignText(negative)|;
      a < b <= |s| && forall k :: a <= k < b ==> IsDigit(s[k])
    ensures var n := Numeral(negative, s[i + |SignText(negative)|..b], None);
      ValidNumeral(n) && OccursAt(s, i, NumeralText(n)) && |NumeralText(n)| == b - i
  {
    var sign := SignText(negative);
    var a := i + |sign|;
    var w := s[a..b];
    assert OccursAt(s, i, sign) by {
      if negative {
        assert s[i..i + 1] == [s[i]];
      }
    }
    SliceOccurs(s, a, b);
    OccursConcat(s, i, sign, w);
    assert AllDigits(w) by {
      OccursChars(s, a, w);
    }
    assert NumeralText(Numeral(negative, w, None)) == sign + w;
  }

  /** ... and followed by a dot and a run of digits from `b + 1` up to `c`, they form a numeral with fraction. */
  lemma FractionOccurs(s: string, i: nat, negative: bool, b: nat, c: nat)
    requires negative ==> i < |s| && s[i] == '-'
    requires var a := i + |SignText(negative)|;
      a < b <= |s| && forall k :: a <= k < b ==> IsDigit(s[k])
    requires b < |s| && s[b] == '.'
    requires b + 1 < c <= |s| && forall k :: b + 1 <= k < c ==> IsDigit(s[k])
    ensures var n := Numeral(negative, s[i + |SignText(negative)|..b], Some(s[b + 1..c]));
      ValidNumeral(n) && OccursAt(s, i, NumeralText(n)) && |NumeralText(n)| == c - i
  {
    var a := i + |SignText(negative)|;
    WholeOccurs(s, i, negative, b);
    var head := SignText(negative) + s[a..b];
    var frac := s[b + 1..c];
    assert NumeralText(Numeral(negative, s[a..b], None)) == head;
    assert s[b..b + 1] == ".";
    SliceOccurs(s, b + 1, c);
    OccursConcat(s, b, ".", frac);
    OccursConcat(s, i, head, "." + frac);
    assert AllDigits(frac) by {
      OccursChars(s, b + 1, frac);
    }
    assert NumeralText(Numeral(negative, s[a..b], Some(frac))) == head + ("." + frac);
  }

  /** The numeral starting at `i`, if any, with the index just past it. */
  function ScanNumeral(s: string, i: nat): (r: Option<(Numeral, nat)>)
    requires i <= |s|
    ensures r.Some? ==> i < r.value.1 <= |s|
  {
    var negative := i < |s| && s[i] == '-';
    var a := i + |SignText(negative)|;
    var b := Run(s, a, IsDigit);
    if b == a then None
    else if b + 1 < |s| && s[b] == '.' && IsDigit(s[b + 1]) then
      var c := Run(s, b + 1, IsDigit);
      Some((Numeral(negative, s[a..b], Some(s[b + 1..c])), c))
    else
      Some((Numeral(negative, s[a..b], None), b))
  }

  /** What `ScanNumeral` finds is a valid numeral whose text occurs at `i` and ends at the index returned. */
  lemma ScanNumeralSound(s: string, i: nat)
    requires i <= |s|
    ensures ScanNumeral(s, i).Some? ==>
      var (n, j) := ScanNumeral(s, i).value;
      ValidNumeral(n) && OccursAt(s, i, NumeralText(n)) && j == i + |NumeralText(n)|
  {
    var negative := i < |s| && s[i] == '-';
    var a := i + |SignText(negative)|;
    var b := Run(s, a, IsDigit);
    if b == a {
      assert ScanNumeral(s, i).None?;
    } else if b + 1 < |s| && s[b] == '.' && IsDigit(s[b + 1]) {
      var c := Run(s, b + 1, IsDigit);
      assert ScanNumeral(s, i) == Some((Numeral(negative, s[a..b], Some(s[b + 1..c])), c));
      FractionOccurs(s, i, negative, b, c);
    } else {
      assert ScanNumeral(s, i) == Some((Numeral(negative, s[a..b], None), b));
      WholeOccurs(s, i, negative, b);
    }
  }

  /** Whitespace from `j` to `k`, a slash, whitespace up to `l` and `10` form a tail. */
  lemma TailOccurs(s: string, j: nat, k: nat, l: nat)
    requires j <= k < l + 2 <= |s| && k < l + 1
    requires forall m :: j <= m < k ==> IsSpace(s[m])
    requires s[k] == '/'
    requires forall m :: k + 1 <= m < l ==> IsSpace(s[m])
    requires s[l] == '1' && s[l + 1] == '0'
    ensures AllSpace(s[j..k]) && AllSpace(s[k + 1..l])
    ensures OccursAt(s, j, TailText(s[j..k], s[k + 1..l]))
  {
    var before := s[j..k];
    var after := s[k + 1..l];
    SliceOccurs(s, j, k);
    SliceOccurs(s, k + 1, l);
    OccursChars(s, j, before);
    OccursChars(s, k + 1, after);
    assert s[k..k + 1] == "/";
    OccursConcat(s, j, before, "/");
    OccursConcat(s, j, before + "/", after);
    assert s[l..l + 2] == "10";
    OccursConcat(s, j, before + "/" + after, "10");
  }

  /** Whitespace, a slash, whitespace and `10` at `j`: the two whitespace runs around the slash. */
  function ScanTail(s: string, j: nat): Option<(string, string)>
    requires j <= |s|
  {
    var k := Run(s, j, IsSpace);
    if k < |s| && s[k] == '/' then
      var l := Run(s, k + 1, IsSpace);
      if l + 2 <= |s| && s[l] == '1' && s[l + 1] == '0' then
        Some((s[j..k], s[k + 1..l]))
      else None
    else None
  }

  /** What `ScanTail` finds is two whitespace runs whose tail text occurs at `j`. */
  lemma ScanTailSound(s: string, j: nat)
    requires j <= |s|
    ensures ScanTail(s, j).Some? ==>
      var (before, after) := ScanTail(s, j).value;
      AllSpace(before) && AllSpace(after) && OccursAt(s, j, TailText(before, after))
  {
    var k := Run(s, j, IsSpace);
    if k < |s| && s[k] == '/' {
      var l := Run(s, k + 1, IsSpace);
      if l + 2 <= |s| && s[l] == '1' && s[l + 1] == '0' {
        assert ScanTail(s, j) == Some((s[j..k], s[k + 1..l]));
        TailOccurs(s, j, k, l);
      } else {
        assert ScanTail(s, j).None?;
      }
    } else {
      assert ScanTail(s, j).None?;
    }
  }

  /** The fraction pattern tried at index `i`. */
  function PlainAt(s: string, i: nat): Option<PlainMatch>
  {
    if i > |s| then None
    else match ScanNumeral(s, i)
      case None => None
      case Some((n, j)) =>
        match ScanTail(s, j)
        case None => None
        case Some((before, after)) => Some(PlainMatch(n, before, after))
  }

  /** Soundness of the fraction pattern: what `PlainAt` finds is a valid match whose text occurs at `i`. */
  lemma PlainAtSound(s: string, i: nat)
    ensures PlainAt(s, i).Some? ==> ValidPlain(PlainAt(s, i).value) && OccursAt(s, i, PlainText(PlainAt(s, i).value))
  {
    if PlainAt(s, i).Some? {
      var m := PlainAt(s, i).value;
      var j := ScanNumeral(s, i).value.1;
      ScanNumeralSound(s, i);
      ScanTailSound(s, j);
      OccursConcat(s, i, NumeralText(m.num), TailText(m.spaceBefore, m.spaceAfter));
    }
  }

  /** The phrase pattern tried at index `i`. */
  function RatedAt(s: string, i: nat): Option<RatedMatch>
  {
    if i + |Phrase| <= |s| && CaselessEq(s[i..i + |Phrase|], Phrase) then
      var g := Run(s, i + |Phrase|, IsSpace);
      if g == i + |Phrase| then None
      else match PlainAt(s, g)
        case None => None
        case Some(m) => Some(RatedMatch(s[i..i + |Phrase|], s[i + |Phrase|..g], m))
    else None
  }

  /** A phrase, a whitespace gap up to `g` and a fraction match at `g` form a phrase match at `i`. */
  lemma RatedOccurs(s: string, i: nat, g: nat, m: PlainMatch)
    requires i + |Phrase| < g <= |s| && CaselessEq(s[i..i + |Phrase|], Phrase)
    requires forall k :: i + |Phrase| <= k < g ==> IsSpace(s[k])
    requires ValidPlain(m) && OccursAt(s, g, PlainText(m))
    ensures var rm := RatedMatch(s[i..i + |Phrase|], s[i + |Phrase|..g], m);
      ValidRated(rm) && OccursAt(s, i, RatedText(rm))
  {
    var p := |Phrase|;
    var phrase := s[i..i + p];
    var gap := s[i + p..g];
    assert AllSpace(gap) by {
      SliceOccurs(s, i + p, g);
      OccursChars(s, i + p, gap);
    }
    assert OccursAt(s, i, phrase + gap) by {
      SliceOccurs(s, i, i + p);
      SliceOccurs(s, i + p, g);
      OccursConcat(s, i, phrase, gap);
    }
    OccursConcat(s, i, phrase + gap, PlainText(m));
  }

  /** Soundness of the phrase pattern: what `RatedAt` finds is a valid match whose text occurs at `i`. */
  lemma RatedAtSound(s: string, i: nat)
    ensures RatedAt(s, i).Some? ==> ValidRated(RatedAt(s, i).value) && OccursAt(s, i, RatedText(RatedAt(s, i).value))
  {
    var p := |Phrase|;
    if i + p <= |s| && CaselessEq(s[i..i + p], Phrase) {
      var g := Run(s, i + p, IsSpace);
      if g != i + p && PlainAt(s, g).Some? {
        PlainAtSound(s, g);
        RatedOccurs(s, i, g, PlainAt(s, g).value);
      }
    }
  }

  // ---------------------------------------------------------- completeness

  /** A character that may follow a numeral inside a match: whitespace or the slash. */
  predicate Delimiter(c: char)
  {
    c == '/' || IsSpace(c)
  }

  /** A numeral's text starts with its minus sign or its first digit. */
  lemma NumeralHead(n: Numeral)
    requires ValidNumeral(n)
    ensures |NumeralText(n)| > 0
    ensures NumeralText(n)[0] == (if n.negative then '-' else n.whole[0])
  {
    assert NumeralText(n) == SignText(n.negative) + (n.whole + FractionText(n.fraction));
  }

  /** A tail's text starts with whitespace or the slash. */
  lemma TailHead(before: string, after: string)
    requires AllSpace(before)
    ensures |TailText(before, after)| > 0 && Delimiter(TailText(before, after)[0])
  {
    assert TailText(before, after) == before + ("/" + after + "10");
  }

  /** The whole digits of a numeral found at `i`: where they lie and what follows them. */
  lemma WholeLayout(s: string, i: nat, n: Numeral)
    requires ValidNumeral(n) && OccursAt(s, i, NumeralText(n))
    ensures (i < |s| && s[i] == '-') == n.negative
    ensures var a := i + |SignText(n.negative)|;
      OccursAt(s, a, n.whole) && OccursAt(s, a + |n.whole|, FractionText(n.fraction))
  {
    var sign := SignText(n.negative);
    OccursSplit(s, i, sign + n.whole, FractionText(n.fraction));
    OccursSplit(s, i, sign, n.whole);
    NumeralHead(n);
    OccursFirst(s, i, NumeralText(n));
  }

  /** A text of characters satisfying `p` that occurs at `i`, not followed by another such character, is the run from `i`. */
  lemma RunOver(s: string, i: nat, t: string, p: char -> bool)
    requires OccursAt(s, i, t) && forall k :: 0 <= k < |t| ==> p(t[k])
    requires i + |t| == |s| || !p(s[i + |t|])
    ensures Run(s, i, p) == i + |t|
  {
    OccursChars(s, i, t);
    RunEnd(s, i, p, i + |t|);
  }

  /** A digit string occurring at `i` and not followed by a digit is the digit run from `i`. */
  lemma DigitsOver(s: string, i: nat, t: string)
    requires OccursAt(s, i, t) && AllDigits(t)
    requires i + |t| == |s| || !IsDigit(s[i + |t|])
    ensures Run(s, i, IsDigit) == i + |t|
  {
    RunOver(s, i, t, IsDigit);
  }

  /** A whitespace string occurring at `i` and not followed by whitespace is the whitespace run from `i`. */
  lemma SpacesOver(s: string, i: nat, t: string)
    requires OccursAt(s, i, t) && AllSpace(t)
    requires i + |t| == |s| || !IsSpace(s[i + |t|])
    ensures Run(s, i, IsSpace) == i + |t|
  {
    RunOver(s, i, t, IsSpace);
  }

  /** What `ScanNumeral` returns once the sign and the digit runs are known. */
  lemma ScanNumeralIs(s: string, i: nat, n: Numeral, b: nat, c: nat)
    requires i <= |s| && (i < |s| && s[i] == '-') == n.negative
    requires var a := i + |SignText(n.negative)|;
      a < b <= |s| && Run(s, a, IsDigit) == b && s[a..b] == n.whole
    requires n.fraction.Some? ==>
      b + 1 < c <= |s| && s[b] == '.' && Run(s, b + 1, IsDigit) == c && s[b + 1..c] == n.fraction.value
    requires n.fraction.None? ==> c == b && !(b + 1 < |s| && s[b] == '.' && IsDigit(s[b + 1]))
    ensures ScanNumeral(s, i) == Some((n, c))
  {
  }

  /** The fraction part of a numeral found at `b`: a dot, then a maximal run of digits. */
  lemma FractionLayout(s: string, b: nat, f: string)
    requires OccursAt(s, b, "." + f) && |f| > 0 && AllDigits(f)
    requires b + 1 + |f| < |s| && !IsDigit(s[b + 1 + |f|])
    ensures s[b] == '.' && IsDigit(s[b + 1]) && s[b + 1..b + 1 + |f|] == f
    ensures Run(s, b + 1, IsDigit) == b + 1 + |f|
  {
    OccursSplit(s, b, ".", f);
    OccursFirst(s, b, ".");
    OccursFirst(s, b + 1, f);
    DigitsOver(s, b + 1, f);
  }

  /** A valid numeral followed by whitespace or a slash is read back whole by `ScanNumeral`. */
  lemma ScanNumeralComplete(s: string, i: nat, n: Numeral)
    requires ValidNumeral(n) && OccursAt(s, i, NumeralText(n))
    requires i + |NumeralText(n)| < |s| && Delimiter(s[i + |NumeralText(n)|])
    ensures ScanNumeral(s, i) == Some((n, i + |NumeralText(n)|))
  {
    var a := i + |SignText(n.negative)|;
    var b := a + |n.whole|;
    var j := b + |FractionText(n.fraction)|;
    assert j == i + |NumeralText(n)|;
    WholeLayout(s, i, n);
    if n.fraction.Some? {
      FractionLayout(s, b, n.fraction.value);
    }
    DigitsOver(s, a, n.whole);
    ScanNumeralIs(s, i, n, b, j);
  }

  /** What `ScanTail` returns once both whitespace runs are known. */
  lemma ScanTailIs(s: string, j: nat, k: nat, l: nat, before: string, after: string)
    requires k == j + |before| && l == k + 1 + |after| && l + 2 <= |s|
    requires Run(s, j, IsSpace) == k && OccursAt(s, j, before) && s[k] == '/'
    requires Run(s, k + 1, IsSpace) == l && OccursAt(s, k + 1, after)
    requires s[l] == '1' && s[l + 1] == '0'
    ensures ScanTail(s, j) == Some((before, after))
  {
  }

  /** A tail of whitespace, slash, whitespace and `10` is read back whole by `ScanTail`. */
  lemma ScanTailComplete(s: string, j: nat, before: string, after: string)
    requires AllSpace(before) && AllSpace(after)
    requires OccursAt(s, j, TailText(before, after))
    ensures ScanTail(s, j) == Some((before, after))
  {
    var k := j + |before|;
    var l := k + 1 + |after|;
    assert OccursAt(s, j, before) && OccursAt(s, k, "/") && OccursAt(s, k + 1, after) && OccursAt(s, l, "10") by {
      OccursSplit(s, j, before + "/" + after, "10");
      OccursSplit(s, j, before + "/", after);
      OccursSplit(s, j, before, "/");
    }
    assert s[k] == '/' && s[l] == '1' && s[l + 1] == '0' by {
      OccursFirst(s, k, "/");
      OccursChars(s, l, "10");
    }
    SpacesOver(s, j, before);
    SpacesOver(s, k + 1, after);
    ScanTailIs(s, j, k, l, before, after);
  }

  /** What `PlainAt` returns once the numeral and the tail are known. */
  lemma PlainAtIs(s: string, i: nat, n: Numeral, j: nat, before: string, after: string)
    requires i <= |s| && ScanNumeral(s, i) == Some((n, j))
    requires ScanTail(s, j) == Some((before, after))
    ensures PlainAt(s, i) == Some(PlainMatch(n, before, after))
  {
  }

  /** Completeness and uniqueness of the fraction pattern at a position. */
  lemma PlainAtComplete(s: string, i: nat, m: PlainMatch)
    requires ValidPlain(m) && OccursAt(s, i, PlainText(m))
    ensures PlainAt(s, i) == Some(m)
  {
    var tail := TailText(m.spaceBefore, m.spaceAfter);
    var j := i + |NumeralText(m.num)|;
    assert OccursAt(s, i, NumeralText(m.num)) && OccursAt(s, j, tail) by {
      OccursSplit(s, i, NumeralText(m.num), tail);
    }
    assert j < |s| && Delimiter(s[j]) by {
      TailHead(m.spaceBefore, m.spaceAfter);
      OccursFirst(s, j, tail);
    }
    assert ScanNumeral(s, i) == Some((m.num, j)) by {
      ScanNumeralComplete(s, i, m.num);
    }
    assert ScanTail(s, j) == Some((m.spaceBefore, m.spaceAfter)) by {
      ScanTailComplete(s, j, m.spaceBefore, m.spaceAfter);
    }
    PlainAtIs(s, i, m.num, j, m.spaceBefore, m.spaceAfter);
  }

  /** What `RatedAt` returns once the phrase, the gap and the fraction match are known. */
  lemma RatedAtIs(s: string, i: nat, g: nat, m: RatedMatch)
    requires i + |Phrase| < g <= |s| && CaselessEq(s[i..i + |Phrase|], Phrase)
    requires Run(s, i + |Phrase|, IsSpace) == g && PlainAt(s, g) == Some(m.rating)
    requires m.phrase == s[i..i + |Phrase|] && m.gap == s[i + |Phrase|..g]
    ensures RatedAt(s, i) == Some(m)
  {
  }

  /** Completeness and uniqueness of the phrase pattern at a position. */
  lemma RatedAtComplete(s: string, i: nat, m: RatedMatch)
    requires ValidRated(m) && OccursAt(s, i, RatedText(m))
    ensures RatedAt(s, i) == Some(m)
  {
    var p := |Phrase|;
    var g := i + p + |m.gap|;
    var num := NumeralText(m.rating.num);
    OccursSplit(s, i, m.phrase + m.gap, PlainText(m.rating));
    OccursSplit(s, i, m.phrase, m.gap);
    assert g < |s| && !IsSpace(s[g]) by {
      OccursSplit(s, g, num, TailText(m.rating.spaceBefore, m.rating.spaceAfter));
      NumeralHead(m.rating.num);
      OccursFirst(s, g, num);
    }
    SpacesOver(s, i + p, m.gap);
    PlainAtComplete(s, g, m.rating);
    RatedAtIs(s, i, g, m);
  }

  // ---------------------------------------------------------------- search

  /** The first position in `from..last` (inclusive) where `at` finds something, as `re.search` scans. */
  function Leftmost<M>(at: nat -> Option<M>, from: nat, last: nat): (r: Option<(nat, M)>)
    ensures r.Some? ==> from <= r.value.0 <= last && at(r.value.0) == Some(r.value.1)
    ensures r.Some? ==> forall k :: from <= k < r.value.0 ==> at(k).None?
    ensures r.None? ==> forall k :: from <= k <= last ==> at(k).None?
    decreases last + 1 - from
  {
    if from > last then None
    else if at(from).Some? then Some((from, at(from).value))
    else Leftmost(at, from + 1, last)
  }

  /** `re.search` with the phrase pattern: its leftmost match in `s`. */
  function FirstRated(s: string): (r: Option<(nat, RatedMatch)>)
    ensures r.Some? ==> r.value.0 <= |s| && RatedAt(s, r.value.0) == Some(r.value.1)
    ensures r.Some? ==> forall k :: 0 <= k < r.value.0 ==> RatedAt(s, k).None?
    ensures r.None? ==> forall k :: 0 <= k <= |s| ==> RatedAt(s, k).None?
  {
    var at := (k: nat) => RatedAt(s, k);
    assert forall k: nat :: at(k) == RatedAt(s, k);
    Leftmost(at, 0, |s|)
  }

  /** `re.search` with the fraction pattern: its leftmost match in `s`. */
  function FirstPlain(s: string): (r: Option<(nat, PlainMatch)>)
    ensures r.Some? ==> r.value.0 <= |s| && PlainAt(s, r.value.0) == Some(r.value.1)
    ensures r.Some? ==> forall k :: 0 <= k < r.value.0 ==> PlainAt(s, k).None?
    ensures r.None? ==> forall k :: 0 <= k <= |s| ==> PlainAt(s, k).None?
  {
    var at := (k: nat) => PlainAt(s, k);
    assert forall k: nat :: at(k) == PlainAt(s, k);
    Leftmost(at, 0, |s|)
  }

  /** A match found with nothing before it is the one the search returns. */
  lemma FirstRatedIs(s: string, i: nat, m: RatedMatch)
    requires RatedAt(s, i) == Some(m)
    requires forall k :: 0 <= k < i ==> RatedAt(s, k).None?
    ensures FirstRated(s) == Some((i, m))
  {
  }

  lemma FirstPlainIs(s: string, i: nat, m: PlainMatch)
    requires PlainAt(s, i) == Some(m)
    requires forall k :: 0 <= k < i ==> PlainAt(s, k).None?
    ensures FirstPlain(s) == Some((i, m))
  {
  }
}
