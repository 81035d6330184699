/**
 Python's `float()` applied to text, over the decimal notation a spreadsheet
 cell holds: optional surrounding whitespace, an optional sign, digits with at
 most one decimal point, and at least one digit. The result is the exact
 rational the text denotes; binary rounding is not modelled.
 */
module PyFloat {
  import opened Wrappers
  import opened Text

  /** The whitespace `float()` skips around its number. CPython first turns
      every non-ASCII whitespace character into a space and then skips only
      the ASCII whitespace TAB..CR and SPACE, so the ASCII separators FS..US,
      which `str.isspace()` accepts, are kept and rejected. */
  predicate FloatSpace(c: char) {
    IsSpace(c) && !(0x1C <= c as int <= 0x1F)
  }

  predicate AllFloatSpace(s: string) {
    forall i :: 0 <= i < |s| ==> FloatSpace(s[i])
  }

  /** The number of `float()` whitespace characters `s` starts with. */
  function LeadingSpaces(s: string): (k: nat)
    ensures k <= |s| && AllFloatSpace(s[..k])
    ensures k == |s| || !FloatSpace(s[k])
  {
    if |s| > 0 && FloatSpace(s[0]) then 1 + LeadingSpaces(s[1..]) else 0
  }

  /** The number of `float()` whitespace characters `s` ends with. */
  function TrailingSpaces(s: string): (k: nat)
    ensures k <= |s| && AllFloatSpace(s[|s| - k..])
    ensures k == |s| || !FloatSpace(s[|s| - 1 - k])
    decreases |s|
  {
    if |s| > 0 && FloatSpace(s[|s| - 1]) then 1 + TrailingSpaces(s[..|s| - 1]) else 0
  }

  /** The text `float()` reads: `s` without leading and trailing `float()`
      whitespace. The result is a contiguous part of `s`, everything cut off
      is such whitespace, and it neither starts nor ends with it. */
  function Strip(s: string): (t: string)
    ensures exists i, j :: 0 <= i <= j <= |s| && t == s[i..j]
                        && AllFloatSpace(s[..i]) && AllFloatSpace(s[j..])
    ensures t != [] ==> !FloatSpace(t[0]) && !FloatSpace(t[|t| - 1])
    ensures t == [] <==> AllFloatSpace(s)
  {
    var i := LeadingSpaces(s);
    var rest := s[i..];
    var k := TrailingSpaces(rest);
    var j := i + |rest| - k;
    assert rest[|rest| - k..] == s[j..];
    assert i == |s| ==> s[..i] == s;
    assert i < |s| ==> !FloatSpace(s[i]) && i < j && s[i..j][0] == s[i];
    assert i < |s| ==> s[i..j][j - i - 1] == rest[|rest| - 1 - k];
    s[i..j]
  }

  /** `t` with `pre` in front and `post` behind. */
  function Padded(pre: string, t: string, post: string): string {
    pre + t + post
  }

  predicate IsDigit(c: char) {
    '0' <= c <= '9'
  }

  predicate AllDigits(s: string) {
    forall i :: 0 <= i < |s| ==> IsDigit(s[i])
  }

  /** The number a string of decimal digits denotes, most significant first. */
  function DigitsValue(ds: string): nat
    requires AllDigits(ds)
    decreases |ds|
  {
    if ds == [] then 0
    else DigitsValue(ds[..|ds| - 1]) * 10 + (ds[|ds| - 1] as int - '0' as int)
  }

  function Pow10(n: nat): (p: nat)
    ensures p >= 1
  {
    if n == 0 then 1 else 10 * Pow10(n - 1)
  }

  /** The position of the first decimal point of `s`, or `|s|` when it has none. */
  function PointIndex(s: string): (k: nat)
    ensures k <= |s|
    ensures forall i :: 0 <= i < k ==> s[i] != '.'
    ensures k == |s| || s[k] == '.'
  {
    if s == [] || s[0] == '.' then 0 else 1 + PointIndex(s[1..])
  }

  /** The digits in front of the first decimal point. */
  function WholePart(t: string): string {
    t[..PointIndex(t)]
  }

  /** The digits behind the first decimal point; none when there is no point. */
  function FracPart(t: string): string {
    if PointIndex(t) < |t| then t[PointIndex(t) + 1..] else []
  }

  /** The number `whole.frac` denotes. */
  function DecimalMagnitude(whole: string, frac: string): real
    requires AllDigits(whole) && AllDigits(frac)
  {
    DigitsValue(whole) as real + DigitsValue(frac) as real / Pow10(|frac|) as real
  }

  /** An unsigned decimal: whole digits, then optionally a point and fraction
      digits, with at least one digit in all. */
  function ParseUnsigned(t: string): (r: Result<real>)
    ensures r.Success? ==> r.value >= 0.0
    ensures r.Failure? ==> r.error == ValueError
  {
    if AllDigits(WholePart(t)) && AllDigits(FracPart(t)) && |WholePart(t)| + |FracPart(t)| > 0 then
      Success(DecimalMagnitude(WholePart(t), FracPart(t)))
    else
      Failure(ValueError)
  }

  /** Python's `float(s)` for a string: failing with ValueError where Python
      raises it, in particular on blank text. */
  function ParseFloat(s: string): (r: Result<real>)
    ensures r.Failure? ==> r.error == ValueError
    ensures AllFloatSpace(s) ==> r.Failure?
  {
    ParseSigned(Strip(s))
  }

  /** A decimal with an optional leading sign. */
  function ParseSigned(t: string): (r: Result<real>)
    ensures r.Failure? ==> r.error == ValueError
    ensures t == [] ==> r.Failure?
  {
    if |t| > 0 && (t[0] == '+' || t[0] == '-') then
      match ParseUnsigned(t[1..])
      case Success(x) => Success(if t[0] == '-' then -x else x)
      case Failure(e) => Failure(e)
    else
      ParseUnsigned(t)
  }

  /** The sign written in front of a decimal literal, if any. */
  datatype Sign = NoSign | Plus | Minus {
    function Spelling(): string {
      match this
      case NoSign => ""
      case Plus => "+"
      case Minus => "-"
    }
  }

  /** The parts of a decimal literal, the inverse view of `ParseFloat`. */
  datatype Decimal = Decimal(sign: Sign, whole: string, point: bool, frac: string) {

    predicate Valid() {
      AllDigits(whole) && AllDigits(frac) && |whole| + |frac| > 0 && (frac != [] ==> point)
    }

    /** The literal written out: sign, whole digits, then the point and the
        fraction digits when there is a point. */
    function Render(): string {
      sign.Spelling() + Unsigned()
    }

    /** The digits and point of the literal, without its sign. */
    function Unsigned(): string {
      whole + (if point then "." + frac else "")
    }

    function Magnitude(): real
      requires Valid()
    {
      DecimalMagnitude(whole, frac)
    }

    function Value(): real
      requires Valid()
    {
      if sign == Minus then -Magnitude() else Magnitude()
    }
  }

  lemma PointIndexOfDigits(ds: string, rest: string)
    requires AllDigits(ds)
    ensures PointIndex(ds + rest) == |ds| + PointIndex(rest)
    decreases |ds|
  {
    if ds != [] {
      assert (ds + rest)[1..] == ds[1..] + rest;
      PointIndexOfDigits(ds[1..], rest);
    } else {
      assert ds + rest == rest;
    }
  }

  /** The literal's unsigned text splits at its point into its whole and
      fraction digits. */
  lemma PartsOfUnsigned(d: Decimal)
    requires d.Valid()
    ensures WholePart(d.Unsigned()) == d.whole
    ensures FracPart(d.Unsigned()) == d.frac
  {
    var t := d.Unsigned();
    var tail := if d.point then "." + d.frac else "";
    assert t == d.whole + tail;
    PointIndexOfDigits(d.whole, tail);
    assert t[..|d.whole|] == d.whole;
    if d.point {
      assert t[|d.whole| + 1..] == d.frac;
    }
  }

  lemma ParseUnsignedOfDecimal(d: Decimal)
    requires d.Valid()
    ensures ParseUnsigned(d.Unsigned()) == Success(d.Magnitude())
  {
    PartsOfUnsigned(d);
  }

  /** A rendered literal starts with a sign, a digit or the point, and ends
      with a digit or the point. */
  lemma RenderEdges(d: Decimal)
    requires d.Valid()
    ensures var u := d.Unsigned();
            u != [] && u[0] != '+' && u[0] != '-' && !FloatSpace(u[0]) && !FloatSpace(u[|u| - 1])
  {
    var u := d.Unsigned();
    if d.whole == [] {
      assert u[0] == '.';
    } else {
      assert u[0] == d.whole[0];
    }
    if d.point && d.frac != [] {
      assert u[|u| - 1] == d.frac[|d.frac| - 1];
    } else if !d.point {
      assert u[|u| - 1] == d.whole[|d.whole| - 1];
    }
  }

  lemma ParseSignedOfRender(d: Decimal)
    requires d.Valid()
    ensures ParseSigned(d.Render()) == Success(d.Value())
  {
    var u := d.Unsigned();
    ParseUnsignedOfDecimal(d);
    RenderEdges(d);
    if d.sign == NoSign {
      assert d.Render() == u;
      ParseSignedWithoutSign(u);
    } else {
      var c := if d.sign == Plus then '+' else '-';
      assert d.Render() == [c] + u;
      ParseSignedWithSign(c, u);
    }
  }

  /** Text that does not start with a sign is read as unsigned. */
  lemma ParseSignedWithoutSign(u: string)
    requires u == [] || (u[0] != '+' && u[0] != '-')
    ensures ParseSigned(u) == ParseUnsigned(u)
  {
  }

  /** A sign in front negates the unsigned value for "-" and keeps it for
      "+"; a failure of the rest is the failure of the whole. */
  lemma ParseSignedWithSign(c: char, u: string)
    requires c == '+' || c == '-'
    ensures ParseUnsigned(u).Failure? ==> ParseSigned([c] + u) == ParseUnsigned(u)
    ensures ParseUnsigned(u).Success? ==>
              ParseSigned([c] + u) == Success(if c == '-' then -ParseUnsigned(u).value else ParseUnsigned(u).value)
  {
    assert ([c] + u)[1..] == u;
  }

  /** Round trip: a well-formed literal, padded with whitespace that
      `float()` skips, parses back to the number it denotes. */
  lemma ParseFloatOfRender(d: Decimal, pre: string, post: string)
    requires d.Valid()
    requires AllFloatSpace(pre) && AllFloatSpace(post)
    ensures ParseFloat(Padded(pre, d.Render(), post)) == Success(d.Value())
  {
    var lit := d.Render();
    RenderEdges(d);
    assert !FloatSpace(lit[0]) && !FloatSpace(lit[|lit| - 1]) by {
      if d.sign == NoSign {
        assert lit == d.Unsigned();
      } else {
        assert lit == d.sign.Spelling() + d.Unsigned();
      }
    }
    StripOfPadded(pre, lit, post);
    ParseSignedOfRender(d);
  }

  /** The unpadded case of the round trip. */
  lemma ParseFloatOfLiteral(d: Decimal)
    requires d.Valid()
    ensures ParseFloat(d.Render()) == Success(d.Value())
  {
    ParseFloatOfRender(d, [], []);
    assert Padded([], d.Render(), []) == d.Render();
  }

  /** The literal that text accepted by `ParseSigned` spells: its sign, then
      the digits around its first point. */
  function ReadDecimal(t: string): Decimal {
    var sign := if |t| > 0 && t[0] == '-' then Minus else if |t| > 0 && t[0] == '+' then Plus else NoSign;
    var u := if sign == NoSign then t else t[1..];
    Decimal(sign, WholePart(u), PointIndex(u) < |u|, FracPart(u))
  }

  /** Any text is its part before the first point, then the point and the
      part behind it when there is a point. */
  lemma PartsRebuildText(u: string)
    ensures WholePart(u) + (if PointIndex(u) < |u| then "." + FracPart(u) else "") == u
  {
    var k := PointIndex(u);
    if k < |u| {
      SplitAround(u, k);
    } else {
      assert u[..k] == u;
    }
  }

  lemma SplitAround(u: string, k: nat)
    requires k < |u|
    ensures u[..k] + ([u[k]] + u[k + 1..]) == u
  {
    assert [u[k]] + u[k + 1..] == u[k..];
  }

  /** Text that `ParseSigned` accepts is the rendering of a valid literal
      with the parsed value. */
  lemma SignedIsRender(t: string)
    requires ParseSigned(t).Success?
    ensures ReadDecimal(t).Valid()
    ensures ReadDecimal(t).Render() == t
    ensures ReadDecimal(t).Value() == ParseSigned(t).value
  {
    var d := ReadDecimal(t);
    var u := if d.sign == NoSign then t else t[1..];
    PartsRebuildText(u);
    assert d.Unsigned() == u;
    if d.sign != NoSign {
      assert t == [t[0]] + u;
    }
  }

  /** The converse round trip: text `float()` accepts is a valid literal
      padded with whitespace it skips, and the result is that literal's value.
      So "1.2.3", "+-1", "." and "-" are rejected. */
  lemma ParseFloatSuccessIsRender(s: string)
    requires ParseFloat(s).Success?
    ensures exists d: Decimal, pre: string, post: string ::
              && d.Valid() && AllFloatSpace(pre) && AllFloatSpace(post)
              && s == Padded(pre, d.Render(), post)
              && ParseFloat(s).value == d.Value()
  {
    var t := Strip(s);
    var i, j :| 0 <= i <= j <= |s| && t == s[i..j] && AllFloatSpace(s[..i]) && AllFloatSpace(s[j..]);
    SignedIsRender(t);
    var d := ReadDecimal(t);
    SlicesPad(s, i, j);
    assert d.Valid() && AllFloatSpace(s[..i]) && AllFloatSpace(s[j..])
        && s == Padded(s[..i], d.Render(), s[j..]) && ParseFloat(s).value == d.Value();
  }

  lemma SlicesPad(s: string, i: nat, j: nat)
    requires i <= j <= |s|
    ensures s == Padded(s[..i], s[i..j], s[j..])
  {
    assert s[..i] + s[i..j] == s[..j];
  }

  lemma {:induction false} LeadingSpacesOfPadded(pre: string, u: string)
    requires AllFloatSpace(pre)
    requires u == [] || !FloatSpace(u[0])
    ensures LeadingSpaces(pre + u) == |pre|
    decreases |pre|
  {
    if pre == [] {
      assert pre + u == u;
    } else {
      assert (pre + u)[1..] == pre[1..] + u;
      LeadingSpacesOfPadded(pre[1..], u);
    }
  }

  lemma {:induction false} TrailingSpacesOfPadded(u: string, post: string)
    requires AllFloatSpace(post)
    requires u == [] || !FloatSpace(u[|u| - 1])
    ensures TrailingSpaces(u + post) == |post|
    decreases |post|
  {
    if post == [] {
      assert u + post == u;
    } else {
      var s := u + post;
      assert s[..|s| - 1] == u + post[..|post| - 1];
      TrailingSpacesOfPadded(u, post[..|post| - 1]);
    }
  }

  /** Stripping removes exactly the whitespace padding around a string that
      neither starts nor ends with whitespace. */
  lemma StripOfPadded(pre: string, t: string, post: string)
    requires AllFloatSpace(pre) && AllFloatSpace(post)
    requires t != [] && !FloatSpace(t[0]) && !FloatSpace(t[|t| - 1])
    ensures Strip(pre + t + post) == t
  {
    var s := pre + t + post;
    assert s == pre + (t + post);
    LeadingSpacesOfPadded(pre, t + post);
    assert s[|pre|..] == t + post;
    TrailingSpacesOfPadded(t, post);
    assert s[|pre|..|pre| + |t|] == t;
  }

  /** Text holding a character that cannot appear in a decimal literal, away
      from the whitespace padding, is rejected, as with "NS". */
  lemma ParseFloatRejectsLetters(s: string, i: nat)
    requires i < |Strip(s)|
    requires var c := Strip(s)[i]; !IsDigit(c) && c != '.' && c != '+' && c != '-'
    ensures ParseFloat(s) == Failure(ValueError)
  {
    var t := Strip(s);
    if t[0] == '+' || t[0] == '-' {
      assert t[1..][i - 1] == t[i];
      UnsignedRejects(t[1..], i - 1);
    } else {
      UnsignedRejects(t, i);
    }
  }

  lemma UnsignedRejects(t: string, i: nat)
    requires i < |t|
    requires !IsDigit(t[i]) && t[i] != '.'
    ensures ParseUnsigned(t) == Failure(ValueError)
  {
    var k := PointIndex(t);
    if i < k {
      assert t[..k][i] == t[i];
    } else {
      assert i > k;
      assert t[k + 1..][i - k - 1] == t[i];
    }
  }

  /** A file separator (U+001C) is whitespace to `str.split()` but not to
      `float()`: "\x1c1" is rejected. */
  lemma FileSeparatorIsNoFloatSpace()
    ensures IsSpace(0x1C as char)
    ensures ParseFloat([0x1C as char, '1']) == Failure(ValueError)
  {
    var s := [0x1C as char, '1'];
    assert !FloatSpace(s[0]) && !FloatSpace(s[1]);
    StripOfPadded([], s, []);
    assert [] + s + [] == s;
    ParseFloatRejectsLetters(s, 0);
  }

  /** A space in front of a number is skipped: " 1" parses to 1. */
  lemma LeadingSpaceIsSkipped()
    ensures ParseFloat(" 1") == Success(1.0)
  {
    var one := Decimal(NoSign, "1", false, "");
    LiteralOne();
    ParseFloatOfRender(one, " ", []);
    assert Padded(" ", "1", []) == " 1";
  }

  lemma LiteralOne()
    ensures var one := Decimal(NoSign, "1", false, "");
            one.Valid() && one.Render() == "1" && one.Value() == 1.0
  {
    assert DigitsValue("1") == DigitsValue("") * 10 + 1;
  }
}
