/**
 The cell-value clean-up of app.py: `remove_units`,
 `convert_non_detect_to_zero` and `convert_to_float`, each on one value, and
 the three list passes that apply them in that order to a row of
 concentrations.
 */
module Normalise {
  import opened Wrappers
  import opened Text
  import opened PyFloat
  import opened Cells
  import opened Lists

  /** `remove_units`: text keeps only its first whitespace-delimited token
      (the magnitude in front of a unit such as "mg/L"); blank text has no
      token and `split()[0]` raises IndexError; any other value passes. */
  function RemoveUnits(v: Value): (r: Result<Value>)
    ensures !v.Str? ==> r == Success(v)
    ensures v.Str? ==> (r.Failure? <==> AllSpace(v.s))
    ensures r.Failure? ==> r.error == IndexError
    ensures v.Str? && r.Success? ==> r.value.Str? && IsFirstToken(r.value.s, v.s)
  {
    match v
    case Str(s) =>
      var ws := Split(s);
      SplitEmptyIffBlank(s);
      if |ws| == 0 then Failure(IndexError)
      else
        SplitHeadIsFirstToken(s);
        Success(Str(ws[0]))
    case _ => Success(v)
  }

  /** Text that starts with "<", the below-detection-limit convention. */
  predicate IsNonDetect(v: Value) {
    v.Str? && "<" <= v.s
  }

  /** `convert_non_detect_to_zero`: a non-detect becomes the number 0; every
      other value, text included, is returned as it is. */
  function ConvertNonDetectToZero(v: Value): (r: Value)
    ensures IsNonDetect(v) ==> r == Num(0.0)
    ensures !IsNonDetect(v) ==> r == v
  {
    if v.Str? && |v.s| > 0 && v.s[0] == '<' then Num(0.0) else v
  }

  /** `convert_to_float`: an empty cell stays empty; a number stays that
      number; text becomes the number it spells or raises ValueError; any
      other cell type raises TypeError. Text never survives. */
  function ConvertToFloat(v: Value): (r: Result<Value>)
    ensures r == Success(None) <==> v == None
    ensures r.Success? ==> r.value.None? || r.value.Num?
    ensures v.Num? ==> r == Success(v)
    ensures v.Str? ==> (r.Success? <==> ParseFloat(v.s).Success?)
    ensures v.Str? && r.Success? ==> r.value == Num(ParseFloat(v.s).value)
    ensures v.Str? && r.Failure? ==> r.error == ValueError
    ensures v.Other? ==> r == Failure(TypeError)
  {
    match v
    case None => Success(None)
    case Num(x) => Success(Num(x))
    case Str(s) =>
      var p := ParseFloat(s);
      if p.Success? then Success(Num(p.value)) else Failure(ValueError)
    case Other => Failure(TypeError)
  }

  /** The three steps applied to one value, in the script's order. Blank
      text fails in the first step, before it could be converted. */
  function NormaliseValue(v: Value): (r: Result<Value>)
    ensures r.Success? ==> r.value.None? || r.value.Num?
    ensures v.Str? && AllSpace(v.s) ==> r == Failure(IndexError)
    ensures v.None? || v.Num? ==> r == Success(v)
    ensures v.Other? ==> r == Failure(TypeError)
  {
    var a :- RemoveUnits(v);
    ConvertToFloat(ConvertNonDetectToZero(a))
  }

  /** app.py:92-94, three `list(map(...))` passes over the whole list: every
      value has its units removed before any non-detect is replaced, and
      that before any value is converted. */
  function NormaliseValues(vs: seq<Value>): (r: Result<seq<Value>>)
    ensures r.Success? ==> |r.value| == |vs|
    ensures r.Success? ==> forall i :: 0 <= i < |r.value| ==> r.value[i].None? || r.value[i].Num?
  {
    var stripped :- MapResult(vs, RemoveUnits);
    var zeroed := seq(|stripped|, i requires 0 <= i < |stripped| => ConvertNonDetectToZero(stripped[i]));
    MapResult(zeroed, ConvertToFloat)
  }

  /** Removing units from a value it already cleaned changes nothing. */
  lemma RemoveUnitsIdempotent(v: Value)
    requires RemoveUnits(v).Success?
    ensures RemoveUnits(RemoveUnits(v).value) == RemoveUnits(v)
  {
    if v.Str? {
      var w := RemoveUnits(v).value.s;
      assert IsToken(w);
      SplitOfToken(w);
    }
  }

  /** Replacing non-detects twice is replacing them once. */
  lemma ConvertNonDetectToZeroIdempotent(v: Value)
    ensures ConvertNonDetectToZero(ConvertNonDetectToZero(v)) == ConvertNonDetectToZero(v)
  {
  }

  /** A normalised value is empty or a number, and normalising it again
      returns it unchanged. */
  lemma NormaliseValueIdempotent(v: Value)
    requires NormaliseValue(v).Success?
    ensures NormaliseValue(v).value.None? || NormaliseValue(v).value.Num?
    ensures NormaliseValue(NormaliseValue(v).value) == NormaliseValue(v)
  {
  }

  /** The staged passes agree with normalising each value on its own: they
      succeed exactly when every value normalises, keep the length and the
      position of every value, and yield only empty cells and numbers. When
      some value is blank text the run fails with IndexError, whatever the
      later passes would have reported, because all unit removal comes first. */
  lemma {:induction false} NormaliseValuesElementwise(vs: seq<Value>)
    ensures NormaliseValues(vs).Success? <==> forall i :: 0 <= i < |vs| ==> NormaliseValue(vs[i]).Success?
    ensures NormaliseValues(vs).Success? ==>
              && |NormaliseValues(vs).value| == |vs|
              && forall i :: 0 <= i < |vs| ==> NormaliseValues(vs).value[i] == NormaliseValue(vs[i]).value
    ensures NormaliseValues(vs).Failure? && (exists i :: 0 <= i < |vs| && RemoveUnits(vs[i]).Failure?) ==>
              NormaliseValues(vs).error == IndexError
  {
    var s := MapResult(vs, RemoveUnits);
    if s.Success? {
      var stripped := s.value;
      var zeroed := seq(|stripped|, i requires 0 <= i < |stripped| => ConvertNonDetectToZero(stripped[i]));
      assert NormaliseValues(vs) == MapResult(zeroed, ConvertToFloat);
      forall i | 0 <= i < |vs|
        ensures NormaliseValue(vs[i]) == ConvertToFloat(zeroed[i])
      {
      }
    } else {
      forall i | 0 <= i < |vs| && RemoveUnits(vs[i]).Failure?
        ensures NormaliseValues(vs).error == IndexError
      {
      }
      assert !forall i :: 0 <= i < |vs| ==> RemoveUnits(vs[i]).Success?;
      var i :| 0 <= i < |vs| && RemoveUnits(vs[i]).Failure?;
      assert NormaliseValue(vs[i]).Failure?;
    }
  }

  /** A list that is already clean, empty cells and numbers only, passes
      through the three passes unchanged. */
  lemma CleanValuesAreKept(vs: seq<Value>)
    requires forall i :: 0 <= i < |vs| ==> vs[i].None? || vs[i].Num?
    ensures NormaliseValues(vs) == Success(vs)
  {
    NormaliseValuesElementwise(vs);
    assert forall i :: 0 <= i < |vs| ==> NormaliseValue(vs[i]) == Success(vs[i]);
    var r := NormaliseValues(vs).value;
    assert forall i :: 0 <= i < |vs| ==> r[i] == vs[i];
    assert r == vs;
  }

  /** Text keeps exactly its first token when its units are removed. */
  lemma RemoveUnitsKeepsFirstToken(w: string, s: string)
    requires IsFirstToken(w, s)
    ensures RemoveUnits(Str(s)) == Success(Str(w))
  {
    FirstTokenIsSplitHead(w, s);
  }

  /** Unit removal runs first, so text whose first token starts with "<" is
      a non-detect and becomes 0, whatever follows the token: a unit, or the
      number itself after a space, as in "< 2". */
  lemma NonDetectTextIsZero(w: string, s: string)
    requires IsFirstToken(w, s) && "<" <= w
    ensures NormaliseValue(Str(s)) == Success(Num(0.0))
  {
    RemoveUnitsKeepsFirstToken(w, s);
  }

  /** A decimal literal is no non-detect and converts to its value. */
  lemma LiteralConverts(d: Decimal)
    requires d.Valid()
    ensures ConvertToFloat(ConvertNonDetectToZero(Str(d.Render()))) == Success(Num(d.Value()))
  {
    var lit := d.Render();
    RenderEdges(d);
    assert lit[0] != '<' by {
      if d.sign == NoSign { assert lit == d.Unsigned(); } else { assert lit[0] == d.sign.Spelling()[0]; }
    }
    assert ConvertNonDetectToZero(Str(lit)) == Str(lit);
    ParseFloatOfLiteral(d);
  }

  /** Text whose first token is a decimal literal normalises to the number
      it denotes, whatever unit follows. */
  lemma MeasurementTextIsItsMagnitude(d: Decimal, s: string)
    requires d.Valid() && IsFirstToken(d.Render(), s)
    ensures NormaliseValue(Str(s)) == Success(Num(d.Value()))
  {
    RemoveUnitsKeepsFirstToken(d.Render(), s);
    LiteralConverts(d);
  }

  lemma TokenFirst(w: string, rest: string)
    requires IsToken(w) && (rest == [] || IsSpace(rest[0]))
    ensures IsFirstToken(w, w + rest)
  {
    var s := w + rest;
    assert s[..0] == [] && s[0..|w|] == w;
    assert FirstTokenAt(w, s, 0);
  }

  lemma NonDetectWithUnitExample()
    ensures NormaliseValue(Str("<2 mg/L")) == Success(Num(0.0))
  {
    assert "<2 mg/L" == "<2" + " mg/L";
    TokenFirst("<2", " mg/L");
    NonDetectTextIsZero("<2", "<2 mg/L");
  }

  lemma NonDetectWithSpaceExample()
    ensures NormaliseValue(Str("< 2")) == Success(Num(0.0))
  {
    assert "< 2" == "<" + " 2";
    TokenFirst("<", " 2");
    NonDetectTextIsZero("<", "< 2");
  }

  lemma MeasurementWithUnitExample()
    ensures NormaliseValue(Str("5.1 mg/L")) == Success(Num(5.1))
  {
    var d := Decimal(NoSign, "5", true, "1");
    assert d.Render() == "5.1";
    assert d.Value() == 5.1 by {
      assert DigitsValue("5") == 5 && DigitsValue("1") == 1 && Pow10(1) == 10;
    }
    assert "5.1 mg/L" == "5.1" + " mg/L";
    TokenFirst("5.1", " mg/L");
    MeasurementTextIsItsMagnitude(d, "5.1 mg/L");
  }

  /** "NS" is not a number: `float()` raises ValueError on it. */
  lemma NotSampledMarkerFails()
    ensures NormaliseValue(Str("NS")) == Failure(ValueError)
  {
    NotSampledMarkerHasNoUnit();
    NotSampledMarkerIsNoNumber();
  }

  lemma NotSampledMarkerHasNoUnit()
    ensures RemoveUnits(Str("NS")) == Success(Str("NS"))
  {
    SplitOfToken("NS");
  }

  lemma NotSampledMarkerIsNoNumber()
    ensures ParseFloat("NS") == Failure(ValueError)
  {
    assert [] + "NS" + [] == "NS";
    StripOfPadded([], "NS", []);
    ParseFloatRejectsLetters("NS", 0);
  }
}
