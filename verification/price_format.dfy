/** frontend/src/lib/price-format.ts: prices are text, and a change of unit moves
    the decimal point in the text, so that no money value meets a float. */
module PriceFormat {
  import opened Common

  /* ---------- Text helpers the source takes from JavaScript ---------- */

  predicate IsDigit(c: char) {
    '0' <= c <= '9'
  }

  predicate AllDigits(s: string) {
    forall i | 0 <= i < |s| :: IsDigit(s[i])
  }

  /** WhiteSpace and LineTerminator of section 12 of ECMA-262, which trim() removes. */
  predicate IsSpace(c: char) {
    || '\U{09}' <= c <= '\U{0D}'
    || c in {' ', '\U{A0}', '\U{1680}', '\U{2028}', '\U{2029}', '\U{202F}', '\U{205F}', '\U{3000}', '\U{FEFF}'}
    || '\U{2000}' <= c <= '\U{200A}'
  }

  function Trim(s: string): string
    decreases |s|
  {
    if s == "" then ""
    else if IsSpace(s[0]) then Trim(s[1..])
    else if IsSpace(s[|s| - 1]) then Trim(s[..|s| - 1])
    else s
  }

  /** replace(c, ""): drops the first occurrence only. */
  function RemoveFirst(s: string, c: char): string {
    var k := IndexOf(s, c);
    if k < |s| then s[..k] + s[k + 1..] else s
  }

  function Zeros(n: nat): (z: string)
    ensures |z| == n && forall i | 0 <= i < n :: z[i] == '0'
  {
    seq(n, _ => '0')
  }

  function PadStart(s: string, n: nat): string {
    if |s| >= n then s else Zeros(n - |s|) + s
  }

  function PadEnd(s: string, n: nat): string {
    if |s| >= n then s else s + Zeros(n - |s|)
  }

  /** replace(/^0+(?=\d)/, ""): all leading zeros that some digit still follows. */
  function DropLeadingZeros(s: string): string {
    if |s| > 1 && s[0] == '0' && IsDigit(s[1]) then DropLeadingZeros(s[1..]) else s
  }

  /** replace(/0+$/, "") */
  function DropTrailingZeros(s: string): string {
    if s != "" && s[|s| - 1] == '0' then DropTrailingZeros(s[..|s| - 1]) else s
  }

  /** replace(/(\.\d*?)0+$/, "$1"), on text with at most one point. */
  function DropFractionZeros(s: string): string {
    var k := IndexOf(s, '.');
    if k < |s| && AllDigits(s[k + 1..]) then s[..k] + ("." + DropTrailingZeros(s[k + 1..])) else s
  }

  /** replace(/\.$/, "") */
  function DropBarePoint(s: string): string {
    if s != "" && s[|s| - 1] == '.' then s[..|s| - 1] else s
  }

  /** (neg ? "-" : "") + s */
  function Signed(neg: bool, s: string): string {
    if neg then "-" + s else s
  }

  /* ---------- The format test ---------- */

  predicate IsNegative(v: string) {
    "-" <= v
  }

  /** The text after the sign. */
  function Unsigned(v: string): string {
    if IsNegative(v) then v[1..] else v
  }

  /** split(".")[0] */
  function Whole(v: string): string {
    var u := Unsigned(v);
    u[..IndexOf(u, '.')]
  }

  /** split(".")[1], or "" when there is no point */
  function Fraction(v: string): string {
    var u := Unsigned(v);
    var k := IndexOf(u, '.');
    if k < |u| then u[k + 1..] else ""
  }

  /** /^-?\d*\.?\d+$/.test(v), decided without backtracking. */
  predicate PassesFormatTest(v: string) {
    var u := Unsigned(v);
    && AllDigits(Whole(v))
    && AllDigits(Fraction(v))
    && (if IndexOf(u, '.') < |u| then Fraction(v) != "" else u != "")
  }

  function Assemble(neg: bool, whole: string, point: bool, rest: string): string {
    Signed(neg, whole + ((if point then "." else "") + rest))
  }

  /** The regular expression itself: some way to cut v into -?, \d*, \.? and \d+. */
  ghost predicate MatchesRegex(v: string) {
    exists neg, whole, point, rest ::
      && AllDigits(whole) && AllDigits(rest) && rest != ""
      && v == Assemble(neg, whole, point, rest)
  }

  lemma IndexOfAbsent(s: string, c: char)
    requires c !in s
    ensures IndexOf(s, c) == |s|
  {
  }

  lemma FormatTestIsTheRegex(v: string)
    ensures PassesFormatTest(v) <==> MatchesRegex(v)
  {
    if PassesFormatTest(v) {
      var u := Unsigned(v);
      var k := IndexOf(u, '.');
      if k < |u| {
        assert v == Assemble(IsNegative(v), Whole(v), true, Fraction(v));
      } else {
        assert v == Assemble(IsNegative(v), "", false, u);
      }
    }
    if MatchesRegex(v) {
      var neg, whole, point, rest :|
        && AllDigits(whole) && AllDigits(rest) && rest != ""
        && v == Assemble(neg, whole, point, rest);
      AssembledPasses(neg, whole, point, rest);
    }
  }

  lemma AssembledPasses(neg: bool, whole: string, point: bool, rest: string)
    requires AllDigits(whole) && AllDigits(rest) && rest != ""
    ensures var v := Assemble(neg, whole, point, rest);
      && PassesFormatTest(v)
      && IsNegative(v) == neg
      && (point ==> Whole(v) == whole && Fraction(v) == rest)
      && (!point ==> Whole(v) == whole + rest && Fraction(v) == "")
  {
    var v := Assemble(neg, whole, point, rest);
    var u := whole + ((if point then "." else "") + rest);
    assert Unsigned(v) == u by {
      if neg {
        assert v == "-" + u;
      } else {
        assert v == u && v[0] != '-';
      }
    }
    if point {
      PointFound(whole, rest);
    } else {
      IndexOfAbsent(u, '.');
      assert u == whole + rest;
    }
  }

  /* ---------- What a price text means ---------- */

  function Digit(c: char): nat
    requires IsDigit(c)
  {
    c as int - '0' as int
  }

  /** The digits before the point, read from the right. */
  function IntValue(s: string): nat
    requires AllDigits(s)
  {
    if s == "" then 0 else 10 * IntValue(s[..|s| - 1]) + Digit(s[|s| - 1])
  }

  /** The digits after the point, read from the left. */
  function FracValue(s: string): real
    requires AllDigits(s)
  {
    if s == "" then 0.0 else (Digit(s[0]) as real + FracValue(s[1..])) / 10.0
  }

  function Magnitude(v: string): real
    requires PassesFormatTest(v)
  {
    IntValue(Whole(v)) as real + FracValue(Fraction(v))
  }

  function Value(v: string): real
    requires PassesFormatTest(v)
  {
    if IsNegative(v) then -Magnitude(v) else Magnitude(v)
  }

  /** The one spelling of a signed value that has no spare zeros and no bare point. */
  predicate IsCanonical(v: string) {
    && PassesFormatTest(v)
    && Whole(v) != ""
    && (|Whole(v)| > 1 ==> Whole(v)[0] != '0')
    && (Fraction(v) != "" ==> Fraction(v)[|Fraction(v)| - 1] != '0')
  }

  /** t spells the value of v times the factor, with the sign of v, and no shorter spelling exists. */
  predicate Spells(t: string, v: string, factor: real)
    requires PassesFormatTest(v)
  {
    IsCanonical(t) && IsNegative(t) == IsNegative(v) && Value(t) == Value(v) * factor
  }

  /* ---------- The two conversions ---------- */

  /** Three places to the left: pad, cut, clean up. */
  function ShiftLeft(whole: string, frac: string): string {
    var digits := whole + frac;
    var pointFromRight := |frac| + 3;
    var padded := PadStart(digits, pointFromRight + 1);
    var cut := |padded| - pointFromRight;
    DropBarePoint(DropFractionZeros(DropLeadingZeros(padded[..cut] + ("." + padded[cut..]))))
  }

  /** Three places to the right. */
  function ShiftRight(whole: string, fracRaw: string): string {
    var frac := PadEnd(fracRaw, 3);
    var moved := DropLeadingZeros(whole + frac[..3]);
    var rest := DropTrailingZeros(frac[3..]);
    var out := if rest != "" then moved + "." + rest else moved;
    if out != "" then out else "0"
  }

  function Per1mToPer1k(value: string): string {
    var v := Trim(value);
    if !PassesFormatTest(v) then value
    else
      var body := RemoveFirst(v, '-');
      Signed(IsNegative(v), ShiftLeft(Whole(body), Fraction(body)))
  }

  function Per1kToPer1m(value: string): string {
    var v := Trim(value);
    if !PassesFormatTest(v) then value
    else
      var body := RemoveFirst(v, '-');
      Signed(IsNegative(v), ShiftRight(Whole(body), Fraction(body)))
  }

  datatype PriceUnit = Per1k | Per1m

  function DisplayPrice(per1k: string, unit: PriceUnit): string {
    if unit.Per1m? then Per1kToPer1m(per1k) else per1k
  }

  /* ---------- Moving the point ---------- */

  lemma {:induction false} LeadingZeroWorthless(s: string)
    requires AllDigits(s)
    ensures IntValue("0" + s) == IntValue(s)
  {
    if s != "" {
      LeadingZeroWorthless(s[..|s| - 1]);
      assert ("0" + s)[..|s|] == "0" + s[..|s| - 1];
    } else {
      assert ("0" + s)[..0] == "";
    }
  }

  lemma {:induction false} PaddingWorthless(n: nat, s: string)
    requires AllDigits(s)
    ensures AllDigits(Zeros(n) + s) && IntValue(Zeros(n) + s) == IntValue(s)
  {
    if n == 0 {
      assert Zeros(0) + s == s;
    } else {
      PaddingWorthless(n - 1, s);
      assert Zeros(n) + s == "0" + (Zeros(n - 1) + s);
      LeadingZeroWorthless(Zeros(n - 1) + s);
    }
  }

  lemma {:induction false} TrailingZeroWorthless(s: string)
    requires AllDigits(s)
    ensures AllDigits(s + "0") && FracValue(s + "0") == FracValue(s)
  {
    if s != "" {
      TrailingZeroWorthless(s[1..]);
      assert (s + "0")[1..] == s[1..] + "0";
    } else {
      assert (s + "0")[1..] == "";
    }
  }

  lemma {:induction false} EndPaddingWorthless(s: string, n: nat)
    requires AllDigits(s)
    ensures AllDigits(s + Zeros(n)) && FracValue(s + Zeros(n)) == FracValue(s)
  {
    if n == 0 {
      assert s + Zeros(0) == s;
    } else {
      EndPaddingWorthless(s, n - 1);
      assert s + Zeros(n) == (s + Zeros(n - 1)) + "0";
      TrailingZeroWorthless(s + Zeros(n - 1));
    }
  }

  /** One place: a digit that crosses the point is worth ten times less. */
  lemma PointMovesOnePlace(w: string, c: char, f: string)
    requires AllDigits(w) && IsDigit(c) && AllDigits(f)
    ensures AllDigits(w + [c]) && AllDigits([c] + f)
    ensures IntValue(w + [c]) as real + FracValue(f) == 10.0 * (IntValue(w) as real + FracValue([c] + f))
  {
    assert (w + [c])[..|w|] == w;
    assert ([c] + f)[1..] == f;
  }

  lemma PointMovesThreePlaces(w: string, t: string, f: string)
    requires AllDigits(w) && AllDigits(t) && |t| == 3 && AllDigits(f)
    ensures AllDigits(w + t) && AllDigits(t + f)
    ensures IntValue(w + t) as real + FracValue(f) == 1000.0 * (IntValue(w) as real + FracValue(t + f))
  {
    assert t == [t[0]] + [t[1]] + [t[2]];
    PointMovesOnePlace(w, t[0], [t[1]] + ([t[2]] + f));
    PointMovesOnePlace(w + [t[0]], t[1], [t[2]] + f);
    PointMovesOnePlace(w + [t[0]] + [t[1]], t[2], f);
    assert w + t == w + [t[0]] + [t[1]] + [t[2]];
    assert t + f == [t[0]] + ([t[1]] + ([t[2]] + f));
  }

  /* ---------- Cleaning up ---------- */

  lemma {:induction false} DropLeadingZerosKeepsValue(s: string)
    requires AllDigits(s)
    ensures var t := DropLeadingZeros(s);
      AllDigits(t) && IntValue(t) == IntValue(s) && (s != "" ==> t != "") && (|t| > 1 ==> t[0] != '0')
  {
    if |s| <= 1 || s[0] != '0' {
    } else {
      DropLeadingZerosKeepsValue(s[1..]);
      LeadingZeroWorthless(s[1..]);
      assert s == "0" + s[1..];
    }
  }

  lemma {:induction false} DropTrailingZerosKeepsValue(s: string)
    requires AllDigits(s)
    ensures var t := DropTrailingZeros(s);
      AllDigits(t) && FracValue(t) == FracValue(s) && (t != "" ==> t[|t| - 1] != '0')
  {
    if s == "" || s[|s| - 1] != '0' {
    } else {
      var s' := s[..|s| - 1];
      DropTrailingZerosKeepsValue(s');
      TrailingZeroWorthless(s');
      assert s == s' + "0";
    }
  }

  lemma {:induction false} DropLeadingZerosStopsAtPoint(w: string, l: string)
    requires AllDigits(w) && w != ""
    ensures DropLeadingZeros(w + ("." + l)) == DropLeadingZeros(w) + ("." + l)
  {
    var s := w + ("." + l);
    if |w| > 1 && w[0] == '0' {
      assert s[1..] == w[1..] + ("." + l);
      DropLeadingZerosStopsAtPoint(w[1..], l);
    } else if |w| == 1 {
      assert s[1] == '.';
    }
  }

  /** A cleaned-up text and its parts. */
  function Spelling(whole: string, frac: string): string {
    if frac != "" then whole + ("." + frac) else whole
  }

  lemma CleanUp(w: string, l: string)
    requires AllDigits(w) && w != "" && AllDigits(l)
    ensures DropBarePoint(DropFractionZeros(DropLeadingZeros(w + ("." + l))))
         == Spelling(DropLeadingZeros(w), DropTrailingZeros(l))
  {
    DropLeadingZerosStopsAtPoint(w, l);
    DropLeadingZerosKeepsValue(w);
    DropTrailingZerosKeepsValue(l);
    FractionCleaned(DropLeadingZeros(w), l);
    BarePointDropped(DropLeadingZeros(w), DropTrailingZeros(l));
  }

  lemma FractionCleaned(t: string, l: string)
    requires AllDigits(t) && AllDigits(l)
    ensures DropFractionZeros(t + ("." + l)) == t + ("." + DropTrailingZeros(l))
  {
    PointFound(t, l);
  }

  lemma PointFound(t: string, l: string)
    requires AllDigits(t)
    ensures var s := t + ("." + l);
      |t| < |s| && IndexOf(s, '.') == |t| && s[..|t|] == t && s[|t| + 1..] == l
  {
    IndexOfAt(t + ("." + l), '.', |t|);
  }

  lemma BarePointDropped(t: string, r: string)
    requires AllDigits(r)
    ensures DropBarePoint(t + ("." + r)) == Spelling(t, r)
  {
    var s := t + ("." + r);
    if r == "" {
      assert s == t + "." && s[..|s| - 1] == t;
    } else {
      assert s[|s| - 1] == r[|r| - 1];
    }
  }

  /** A signed spelling is accepted and gives its parts back. */
  lemma SpellingParts(neg: bool, t: string, f: string)
    requires AllDigits(t) && t != "" && AllDigits(f)
    ensures var r := Signed(neg, Spelling(t, f));
      PassesFormatTest(r) && IsNegative(r) == neg && Whole(r) == t && Fraction(r) == f
  {
    if f != "" {
      AssembledPasses(neg, t, true, f);
    } else {
      AssembledPasses(neg, "", false, t);
      EmptyParts(neg, t);
    }
  }

  lemma EmptyParts(neg: bool, t: string)
    ensures Assemble(neg, "", false, t) == Signed(neg, t) && "" + t == t
  {
    assert "" + ("" + t) == t;
  }

  /** Both conversions end in a signed spelling of cleaned-up parts; such a text is
      canonical and keeps the value of the parts. */
  lemma CleanSpellingIsCanonical(neg: bool, w: string, l: string)
    requires AllDigits(w) && w != "" && AllDigits(l)
    ensures var r := Signed(neg, Spelling(DropLeadingZeros(w), DropTrailingZeros(l)));
      IsCanonical(r) && IsNegative(r) == neg && Magnitude(r) == IntValue(w) as real + FracValue(l)
  {
    DropLeadingZerosKeepsValue(w);
    DropTrailingZerosKeepsValue(l);
    SpellingParts(neg, DropLeadingZeros(w), DropTrailingZeros(l));
    CanonicalParts(Signed(neg, Spelling(DropLeadingZeros(w), DropTrailingZeros(l))), w, l);
  }

  lemma CanonicalParts(r: string, w: string, l: string)
    requires AllDigits(w) && w != "" && AllDigits(l) && PassesFormatTest(r)
    requires Whole(r) == DropLeadingZeros(w) && Fraction(r) == DropTrailingZeros(l)
    ensures IsCanonical(r) && Magnitude(r) == IntValue(w) as real + FracValue(l)
  {
    DropLeadingZerosKeepsValue(w);
    DropTrailingZerosKeepsValue(l);
  }

  lemma NoSignLeft(v: string)
    requires PassesFormatTest(v)
    ensures '-' !in Unsigned(v) && Unsigned(v) != ""
  {
    var u := Unsigned(v);
    var k := IndexOf(u, '.');
    forall i | 0 <= i < |u| ensures u[i] != '-' {
      if i < k {
        assert u[i] == Whole(v)[i];
      } else if i > k {
        assert u[i] == Fraction(v)[i - k - 1];
      }
    }
  }

  lemma SignRemoved(v: string)
    requires PassesFormatTest(v)
    ensures RemoveFirst(v, '-') == Unsigned(v)
  {
    NoSignLeft(v);
    if IsNegative(v) {
      IndexOfAt(v, '-', 0);
      assert v[..0] + v[1..] == v[1..];
    } else {
      IndexOfAbsent(v, '-');
    }
  }

  /** The parts both conversions work on are the parts of the accepted text. */
  lemma BodyParts(v: string)
    requires PassesFormatTest(v)
    ensures var body := RemoveFirst(v, '-');
      Whole(body) == Whole(v) && Fraction(body) == Fraction(v)
  {
    SignRemoved(v);
    NoSignLeft(v);
    assert Unsigned(Unsigned(v)) == Unsigned(v);
  }

  /** Parts w.f with the point moved: whole digits hi and fraction lo, hi not empty,
      worth scale times as much. */
  ghost predicate Shifted(out: string, hi: string, lo: string) {
    && AllDigits(hi) && hi != "" && AllDigits(lo)
    && out == Spelling(DropLeadingZeros(hi), DropTrailingZeros(lo))
  }

  lemma PadStartOfParts(w: string, f: string)
    ensures PadStart(w + f, |f| + 4) == PadStart(w, 4) + f
  {
    if |w| < 4 {
      assert Zeros(4 - |w|) + (w + f) == (Zeros(4 - |w|) + w) + f;
    }
  }

  /** The cut falls before the last three digits of the padded whole part. */
  lemma CutBeforeLastThree(w: string, f: string) returns (hi: string, three: string)
    ensures hi != "" && |three| == 3 && hi + three == PadStart(w, 4)
    ensures ShiftLeft(w, f) == DropBarePoint(DropFractionZeros(DropLeadingZeros(hi + ("." + (three + f)))))
  {
    PadStartOfParts(w, f);
    var lead := PadStart(w, 4);
    var cut := |lead| - 3;
    hi, three := lead[..cut], lead[cut..];
    assert (lead + f)[..cut] == hi && (lead + f)[cut..] == three + f;
  }

  lemma PaddedDigits(w: string, hi: string, three: string)
    requires AllDigits(w) && hi + three == PadStart(w, 4)
    ensures AllDigits(hi) && AllDigits(three) && AllDigits(hi + three) && IntValue(hi + three) == IntValue(w)
  {
    if |w| < 4 {
      PaddingWorthless(4 - |w|, w);
    }
    assert AllDigits(hi + three);
    assert hi == (hi + three)[..|hi|] && three == (hi + three)[|hi|..];
  }

  lemma ShiftLeftDivides(w: string, f: string) returns (hi: string, lo: string)
    requires AllDigits(w) && AllDigits(f)
    ensures Shifted(ShiftLeft(w, f), hi, lo)
    ensures IntValue(w) as real + FracValue(f) == 1000.0 * (IntValue(hi) as real + FracValue(lo))
  {
    var three;
    hi, three := CutBeforeLastThree(w, f);
    PaddedDigits(w, hi, three);
    lo := three + f;
    PointMovesThreePlaces(hi, three, f);
    CleanUp(hi, lo);
  }

  lemma ShiftRightMultiplies(w: string, f: string) returns (hi: string, lo: string)
    requires AllDigits(w) && AllDigits(f)
    ensures Shifted(ShiftRight(w, f), hi, lo)
    ensures IntValue(hi) as real + FracValue(lo) == 1000.0 * (IntValue(w) as real + FracValue(f))
  {
    var pad: nat := if |f| >= 3 then 0 else 3 - |f|;
    var frac := PadEnd(f, 3);
    EndPaddingWorthless(f, pad);
    assert frac == f + Zeros(pad);
    var three := frac[..3];
    assert frac == three + frac[3..];
    hi, lo := w + three, frac[3..];
    PointMovesThreePlaces(w, three, lo);
    DropLeadingZerosKeepsValue(hi);
  }

  /* ---------- Main results ---------- */

  /** Per-1M to per-1K divides by exactly 1000, keeps the sign, and spells the
      result canonically, so the other direction accepts it. */
  lemma Per1mToPer1kDivides(value: string)
    requires PassesFormatTest(Trim(value))
    ensures Spells(Per1mToPer1k(value), Trim(value), 0.001)
  {
    var v := Trim(value);
    BodyParts(v);
    var hi, lo := ShiftLeftDivides(Whole(v), Fraction(v));
    CleanSpellingIsCanonical(IsNegative(v), hi, lo);
  }

  /** Per-1K to per-1M multiplies by exactly 1000, in the same sense. */
  lemma Per1kToPer1mMultiplies(value: string)
    requires PassesFormatTest(Trim(value))
    ensures Spells(Per1kToPer1m(value), Trim(value), 1000.0)
  {
    var v := Trim(value);
    BodyParts(v);
    var hi, lo := ShiftRightMultiplies(Whole(v), Fraction(v));
    CleanSpellingIsCanonical(IsNegative(v), hi, lo);
  }

  lemma {:induction false} FracValueBelowOne(s: string)
    requires AllDigits(s)
    ensures 0.0 <= FracValue(s) < 1.0
  {
    if s == "" {
    } else {
      FracValueBelowOne(s[1..]);
    }
  }

  lemma {:induction false} IntSpellingUnique(s: string, t: string)
    requires AllDigits(s) && AllDigits(t) && IntValue(s) == IntValue(t)
    requires s != "" ==> s[0] != '0'
    requires t != "" ==> t[0] != '0'
    ensures s == t
    decreases |s| + |t|
  {
    if s == "" {
      NoLeadingZeroIsPositive(t);
    } else if t == "" {
      NoLeadingZeroIsPositive(s);
    } else {
      IntSpellingUnique(s[..|s| - 1], t[..|t| - 1]);
      assert s == s[..|s| - 1] + [s[|s| - 1]] && t == t[..|t| - 1] + [t[|t| - 1]];
    }
  }

  lemma {:induction false} NoLeadingZeroIsPositive(s: string)
    requires AllDigits(s)
    requires s != "" ==> s[0] != '0'
    ensures s != "" ==> IntValue(s) > 0
  {
    if |s| <= 1 {
    } else {
      NoLeadingZeroIsPositive(s[..|s| - 1]);
    }
  }

  lemma {:induction false} FracSpellingUnique(s: string, t: string)
    requires AllDigits(s) && AllDigits(t) && FracValue(s) == FracValue(t)
    requires s != "" ==> s[|s| - 1] != '0'
    requires t != "" ==> t[|t| - 1] != '0'
    ensures s == t
    decreases |s| + |t|
  {
    if s == "" {
      NoTrailingZeroIsPositive(t);
    } else if t == "" {
      NoTrailingZeroIsPositive(s);
    } else {
      FracValueBelowOne(s[1..]);
      FracValueBelowOne(t[1..]);
      assert Digit(s[0]) == Digit(t[0]);
      FracSpellingUnique(s[1..], t[1..]);
      assert s == [s[0]] + s[1..] && t == [t[0]] + t[1..];
    }
  }

  lemma {:induction false} NoTrailingZeroIsPositive(s: string)
    requires AllDigits(s)
    requires s != "" ==> s[|s| - 1] != '0'
    ensures s != "" ==> FracValue(s) > 0.0
  {
    if s == "" {
    } else {
      FracValueBelowOne(s[1..]);
      NoTrailingZeroIsPositive(s[1..]);
    }
  }

  /** A sign and a value have one canonical spelling. */
  lemma CanonicalSpellingUnique(s: string, t: string)
    requires IsCanonical(s) && IsCanonical(t)
    requires IsNegative(s) == IsNegative(t) && Value(s) == Value(t)
    ensures s == t
  {
    MagnitudeParts(Whole(s), Fraction(s), Whole(t), Fraction(t));
    WholeUnique(Whole(s), Whole(t));
    FracSpellingUnique(Fraction(s), Fraction(t));
    Reassembled(s);
    Reassembled(t);
  }

  lemma MagnitudeParts(w: string, f: string, w': string, f': string)
    requires AllDigits(w) && AllDigits(f) && AllDigits(w') && AllDigits(f')
    requires IntValue(w) as real + FracValue(f) == IntValue(w') as real + FracValue(f')
    ensures IntValue(w) == IntValue(w') && FracValue(f) == FracValue(f')
  {
    FracValueBelowOne(f);
    FracValueBelowOne(f');
  }

  lemma WholeUnique(s: string, t: string)
    requires AllDigits(s) && AllDigits(t) && IntValue(s) == IntValue(t) && s != "" && t != ""
    requires |s| > 1 ==> s[0] != '0'
    requires |t| > 1 ==> t[0] != '0'
    ensures s == t
  {
    var a, b := if s == "0" then "" else s, if t == "0" then "" else t;
    assert IntValue("0") == 0;
    IntSpellingUnique(a, b);
  }

  lemma Reassembled(v: string)
    requires PassesFormatTest(v)
    ensures v == Signed(IsNegative(v), Spelling(Whole(v), Fraction(v)))
  {
    SplitAtSign(v);
    SplitAtPoint(Unsigned(v));
  }

  lemma SplitAtSign(v: string)
    ensures v == Signed(IsNegative(v), Unsigned(v))
  {
  }

  lemma SplitAtPoint(u: string)
    ensures var k := IndexOf(u, '.');
      u == if k < |u| then u[..k] + ("." + u[k + 1..]) else u[..k]
  {
    var k := IndexOf(u, '.');
    if k < |u| {
      TakeDropAround(u, k);
    }
  }

  lemma TakeDropAround(u: string, k: nat)
    requires k < |u|
    ensures u == u[..k] + ([u[k]] + u[k + 1..])
  {
  }

  lemma CanonicalIsTrimmed(v: string)
    requires IsCanonical(v)
    ensures Trim(v) == v
  {
    Reassembled(v);
    SpellingEnds(IsNegative(v), Whole(v), Fraction(v));
    TrimNothing(v);
  }

  lemma SpellingEnds(neg: bool, t: string, f: string)
    requires AllDigits(t) && t != "" && AllDigits(f)
    ensures var v := Signed(neg, Spelling(t, f));
      v != "" && !IsSpace(v[0]) && !IsSpace(v[|v| - 1])
  {
    var s := Spelling(t, f);
    assert IsDigit(s[0]) && IsDigit(s[|s| - 1]) by {
      assert s[0] == t[0];
      assert s[|s| - 1] == if f != "" then f[|f| - 1] else t[|t| - 1];
    }
  }

  lemma TrimNothing(v: string)
    requires v != "" && !IsSpace(v[0]) && !IsSpace(v[|v| - 1])
    ensures Trim(v) == v
  {
  }

  /** Any two texts with the same meaning as v and canonical spelling are one text. */
  lemma CanonicalFormUnique(v: string, s: string, t: string)
    requires PassesFormatTest(v) && Spells(s, v, 1.0) && Spells(t, v, 1.0)
    ensures s == t
  {
    CanonicalSpellingUnique(s, t);
  }

  lemma ScalesCancel(x: real, y: real, z: real)
    requires (y == x * 0.001 && z == y * 1000.0) || (y == x * 1000.0 && z == y * 0.001)
    ensures z == x * 1.0
  {
  }

  /** Down and up again: the canonical spelling of what was entered. */
  lemma DownThenUp(value: string)
    requires PassesFormatTest(Trim(value))
    ensures Spells(Per1kToPer1m(Per1mToPer1k(value)), Trim(value), 1.0)
  {
    Per1mToPer1kDivides(value);
    var r := Per1mToPer1k(value);
    CanonicalIsTrimmed(r);
    Per1kToPer1mMultiplies(r);
    ScalesCancel(Value(Trim(value)), Value(r), Value(Per1kToPer1m(r)));
  }

  /** Up and down again, likewise. */
  lemma UpThenDown(value: string)
    requires PassesFormatTest(Trim(value))
    ensures Spells(Per1mToPer1k(Per1kToPer1m(value)), Trim(value), 1.0)
  {
    Per1kToPer1mMultiplies(value);
    var r := Per1kToPer1m(value);
    CanonicalIsTrimmed(r);
    Per1mToPer1kDivides(r);
    ScalesCancel(Value(Trim(value)), Value(r), Value(Per1mToPer1k(r)));
  }

  /** On text that is canonical already both round trips change nothing. */
  lemma RoundTripsAreIdentities(v: string)
    requires IsCanonical(v)
    ensures Per1kToPer1m(Per1mToPer1k(v)) == v && Per1mToPer1k(Per1kToPer1m(v)) == v
  {
    CanonicalIsTrimmed(v);
    DownThenUp(v);
    UpThenDown(v);
    CanonicalFormUnique(v, Per1kToPer1m(Per1mToPer1k(v)), v);
    CanonicalFormUnique(v, Per1mToPer1k(Per1kToPer1m(v)), v);
  }

  /** What the test rejects comes back untouched, spaces included, from every
      conversion and every composition of conversions. */
  lemma RejectedTextUntouched(value: string)
    requires !MatchesRegex(Trim(value))
    ensures Per1mToPer1k(value) == value && Per1kToPer1m(value) == value
    ensures forall unit :: DisplayPrice(value, unit) == value
  {
    FormatTestIsTheRegex(Trim(value));
  }

  /* ---------- Spaces around a price ---------- */

  predicate AllSpaces(s: string) {
    forall i | 0 <= i < |s| :: IsSpace(s[i])
  }

  predicate NoOuterSpace(v: string) {
    v != "" ==> !IsSpace(v[0]) && !IsSpace(v[|v| - 1])
  }

  /** Trimming takes away the spaces at both ends, all of them and nothing else. */
  lemma {:induction false} TrimInner(lead: string, v: string, trail: string)
    requires AllSpaces(lead) && NoOuterSpace(v) && AllSpaces(trail)
    ensures Trim(lead + v + trail) == v
    decreases |lead| + |trail|
  {
    var s := lead + v + trail;
    if lead != "" {
      assert s[1..] == lead[1..] + v + trail;
      TrimInner(lead[1..], v, trail);
    } else if trail == "" {
      assert s == v;
    } else if v == "" {
      assert s[1..] == "" + "" + trail[1..];
      TrimInner("", "", trail[1..]);
    } else {
      assert s[0] == v[0] && s[..|s| - 1] == "" + v + trail[..|trail| - 1];
      TrimInner("", v, trail[..|trail| - 1]);
    }
  }

  lemma {:induction false} TrimSplits(s: string) returns (lead: string, trail: string)
    ensures AllSpaces(lead) && NoOuterSpace(Trim(s)) && AllSpaces(trail)
    ensures s == lead + Trim(s) + trail
    decreases |s|
  {
    if s == "" || (!IsSpace(s[0]) && !IsSpace(s[|s| - 1])) {
      lead, trail := "", "";
      assert "" + s + "" == s;
    } else if IsSpace(s[0]) {
      lead, trail := TrimSplits(s[1..]);
      SpaceBefore(s[0], lead, Trim(s[1..]), trail);
      assert s == [s[0]] + s[1..];
      lead := [s[0]] + lead;
    } else {
      lead, trail := TrimSplits(s[..|s| - 1]);
      SpaceAfter(lead, Trim(s[..|s| - 1]), trail, s[|s| - 1]);
      assert s == s[..|s| - 1] + [s[|s| - 1]];
      trail := trail + [s[|s| - 1]];
    }
  }

  lemma SpaceBefore(c: char, lead: string, v: string, trail: string)
    requires IsSpace(c) && AllSpaces(lead)
    ensures AllSpaces([c] + lead) && [c] + (lead + v + trail) == [c] + lead + v + trail
  {
  }

  lemma SpaceAfter(lead: string, v: string, trail: string, c: char)
    requires IsSpace(c) && AllSpaces(trail)
    ensures AllSpaces(trail + [c]) && lead + v + trail + [c] == lead + v + (trail + [c])
  {
  }

  lemma PassingHasNoSpace(v: string)
    requires MatchesRegex(v)
    ensures NoOuterSpace(v)
  {
    var neg, whole, point, rest :|
      && AllDigits(whole) && AllDigits(rest) && rest != ""
      && v == Assemble(neg, whole, point, rest);
    EndsOfBody(whole, if point then "." else "", rest);
    EndsOfSigned(neg, whole + ((if point then "." else "") + rest));
  }

  lemma EndsOfBody(whole: string, point: string, rest: string)
    requires AllDigits(whole) && point in {".", ""} && AllDigits(rest) && rest != ""
    ensures NoOuterSpace(whole + (point + rest))
  {
    var body := whole + (point + rest);
    assert body[|body| - 1] == rest[|rest| - 1];
    assert body[0] == if whole != "" then whole[0] else if point != "" then '.' else rest[0];
  }

  lemma EndsOfSigned(neg: bool, body: string)
    requires NoOuterSpace(body) && body != ""
    ensures NoOuterSpace(Signed(neg, body))
  {
    assert Signed(neg, body)[|Signed(neg, body)| - 1] == body[|body| - 1];
  }

  lemma PassingTextTrimmed(lead: string, v: string, trail: string)
    requires AllSpaces(lead) && AllSpaces(trail) && PassesFormatTest(v)
    ensures Trim(lead + v + trail) == v && Trim(v) == v
  {
    FormatTestIsTheRegex(v);
    PassingHasNoSpace(v);
    TrimInner(lead, v, trail);
    TrimInner("", v, "");
    assert "" + v + "" == v;
  }

  /** Spaces around a price make no difference to either conversion. */
  lemma SpacesIgnored(lead: string, v: string, trail: string)
    requires AllSpaces(lead) && AllSpaces(trail) && PassesFormatTest(v)
    ensures Per1mToPer1k(lead + v + trail) == Per1mToPer1k(v)
    ensures Per1kToPer1m(lead + v + trail) == Per1kToPer1m(v)
  {
    PassingTextTrimmed(lead, v, trail);
  }

  /** A stored price per 1K is shown as it is, and per 1M as 1000 times that. */
  lemma DisplayMultiplies(value: string)
    requires PassesFormatTest(Trim(value))
    ensures Spells(DisplayPrice(value, Per1m), Trim(value), 1000.0)
    ensures DisplayPrice(value, Per1k) == value
  {
    Per1kToPer1mMultiplies(value);
  }
}
