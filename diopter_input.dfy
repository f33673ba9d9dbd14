/** The diopter field of the graduation forms. A value is rounded to the
    nearest quarter diopter (the axis to the nearest degree), held within
    the field's bounds, kept at or below zero for a cylinder, and shown
    with two decimals and a "+" before a positive sphere or addition. The
    arrow buttons step by a quarter (a degree for the axis); leaving the
    field reformats what was typed unless it is empty or a lone sign. */
module DiopterInput {
  import opened Common
  import opened JsNumbers

  /** The field's props: optional bounds, and which measure it holds. */
  datatype Settings = Settings(min: Option<real>, max: Option<real>, isCylinder: bool, isAxis: bool)

  /** What formatValue hands back, before numbers are turned into text: the
      empty text, the text "NaN", an axis in whole degrees, or a number with
      two decimals, after a "+" when plus is set. */
  datatype Shown = Blank | NaNText | AxisText(degrees: real) | DecimalText(plus: bool, value: real)

  /** formatValue's argument: a number from a step, or the typed text. */
  datatype Input = Number(x: real) | Text(s: string)

  /** Math.round: halves go up. */
  function RoundHalfUp(x: real): (r: int)
    ensures x - 0.5 < r as real <= x + 0.5
  {
    (x + 0.5).Floor
  }

  predicate IsQuarter(x: real)
  {
    (x * 4.0).Floor as real == x * 4.0
  }

  predicate IsWhole(x: real)
  {
    x.Floor as real == x
  }

  /** Math.round(num * 4) / 4. */
  function QuarterRound(x: real): real
  {
    RoundHalfUp(x * 4.0) as real / 4.0
  }

  function Rounded(x: real, st: Settings): real
  {
    if st.isAxis then RoundHalfUp(x) as real else QuarterRound(x)
  }

  /** The lower bound first, then the upper one. */
  function Clamped(x: real, st: Settings): real
  {
    var a := if st.min.Some? && x < st.min.value then st.min.value else x;
    if st.max.Some? && a > st.max.value then st.max.value else a
  }

  /** The number formatValue shows for x: never above the upper bound,
      never below the lower one when the bounds are in order (and, for a
      cylinder, the lower bound is not above 0), and never positive for a
      cylinder. */
  function Adjusted(x: real, st: Settings): (r: real)
    ensures st.max.Some? ==> r <= st.max.value
    ensures st.min.Some? && (st.max.None? || st.min.value <= st.max.value)
            && (!st.isCylinder || st.min.value <= 0.0)
            ==> st.min.value <= r
    ensures st.isCylinder ==> r <= 0.0
  {
    var c := Clamped(Rounded(x, st), st);
    if st.isCylinder && c > 0.0 then 0.0 else c
  }

  /** What the field shows for an adjusted value: an axis as its whole
      number of degrees; any other value as that number with two decimals,
      signed "+" when it is a positive power outside a cylinder field, so
      that plus and minus lenses read apart. */
  function Render(num: real, st: Settings): (r: Shown)
    ensures st.isAxis ==> r == AxisText(num)
    ensures !st.isAxis ==> r.DecimalText? && r.value == num && (r.plus <==> num > 0.0 && !st.isCylinder)
  {
    if st.isAxis then AxisText(num) else DecimalText(num > 0.0 && !st.isCylinder, num)
  }

  /** formatValue: an empty text, or one Number() rejects, shows as empty;
      a blank text Number() reads as 0 but parseFloat cannot read, and
      shows as NaN; anything else shows its adjusted value. */
  function FormatValue(val: Input, st: Settings): (r: Shown)
    ensures r == Blank <==> val.Text? && (val.s == "" || ToNumber(val.s).None?)
    ensures val.Number? ==> r == Render(Adjusted(val.x, st), st)
  {
    match val
    case Number(x) => Render(Adjusted(x, st), st)
    case Text(t) =>
      if ToNumber(t).None? || t == "" then Blank
      else
        match ParseFloat(t)
        case None => NaNText
        case Some(x) => Render(Adjusted(x, st), st)
  }

  /** handleStep: from the number parseFloat reads in the field (0 when it
      reads none), one step up or down, then formatValue. */
  function HandleStep(value: string, up: bool, st: Settings): (r: Shown)
    ensures r.AxisText? || r.DecimalText?
  {
    var parsed := ParseFloat(value);
    var current := if parsed.None? then 0.0 else parsed.value;
    var step := if st.isAxis then 1.0 else 0.25;
    var newVal := if up then current + step else current - step;
    FormatValue(Number(newVal), st)
  }

  /** handleBlur: nothing happens for an empty text or a lone sign;
      otherwise the field is reformatted. */
  function HandleBlur(currentVal: string, st: Settings): (r: Option<Shown>)
    ensures r.None? <==> currentVal == "-" || currentVal == "+" || currentVal == ""
    ensures r.Some? ==> r.value == FormatValue(Text(currentVal), st)
  {
    if currentVal == "-" || currentVal == "+" || currentVal == "" then None
    else Some(FormatValue(Text(currentVal), st))
  }

  // ---------------------------------------------------------------- lemmas

  /** The number shown for a typed text is the one typed, adjusted; a text
      of white space alone shows NaN. */
  lemma FormatTypedText(t: string, st: Settings)
    requires t != "" && ToNumber(t).Some?
    ensures Trim(t) != "" ==> FormatValue(Text(t), st) == Render(Adjusted(ToNumber(t).value, st), st)
    ensures Trim(t) == "" ==> FormatValue(Text(t), st) == NaNText
  {
    if Trim(t) != "" {
      ToNumberAgrees(t);
    } else {
      TrimStartFirst(t);
      TrimEndPrefix(TrimStart(t));
      assert TrimStart(t) == "";
    }
  }

  /** What TrimStart leaves starts with a non-white-space character. */
  lemma {:induction false} TrimStartFirst(s: string)
    ensures TrimStart(s) == "" || !IsWhiteSpace(TrimStart(s)[0])
  {
    if |s| > 0 && IsWhiteSpace(s[0]) {
      TrimStartFirst(s[1..]);
    }
  }

  /** Rounding to a quarter moves a value by at most an eighth, onto the
      quarter grid. */
  lemma QuarterRoundNearest(x: real)
    ensures x - 0.125 < QuarterRound(x) <= x + 0.125
    ensures IsQuarter(QuarterRound(x))
  {
    var k := RoundHalfUp(x * 4.0);
    assert QuarterRound(x) * 4.0 == k as real;
  }

  /** A value already on the quarter grid is left as it is. */
  lemma QuarterRoundFixes(q: real)
    requires IsQuarter(q)
    ensures QuarterRound(q) == q
  {
    var k := (q * 4.0).Floor;
    assert (k as real + 0.5).Floor == k;
  }

  lemma RoundHalfUpFixes(n: real)
    requires IsWhole(n)
    ensures RoundHalfUp(n) as real == n
  {
    var k := n.Floor;
    assert (k as real + 0.5).Floor == k;
  }

  /** A value inside the bounds moves only by its rounding. */
  lemma AdjustedNearest(x: real, st: Settings)
    requires !st.isAxis && !st.isCylinder
    requires st.min.Some? ==> st.min.value <= QuarterRound(x)
    requires st.max.Some? ==> QuarterRound(x) <= st.max.value
    ensures x - 0.125 < Adjusted(x, st) <= x + 0.125 && IsQuarter(Adjusted(x, st))
  {
    QuarterRoundNearest(x);
  }

  predicate OnGrid(x: real, st: Settings)
  {
    if st.isAxis then IsWhole(x) else IsQuarter(x)
  }

  predicate BoundsOnGrid(st: Settings)
  {
    (st.min.Some? ==> OnGrid(st.min.value, st)) && (st.max.Some? ==> OnGrid(st.max.value, st))
  }

  lemma AdjustedOnGrid(x: real, st: Settings)
    requires BoundsOnGrid(st)
    ensures OnGrid(Adjusted(x, st), st)
  {
    if !st.isAxis {
      QuarterRoundNearest(x);
      assert IsQuarter(0.0);
    } else {
      assert IsWhole(0.0);
    }
  }

  /** Leaving the field a second time changes nothing: the shown number is
      its own adjustment, when the bounds lie on the field's grid. */
  lemma AdjustedIdempotent(x: real, st: Settings)
    requires BoundsOnGrid(st)
    ensures Adjusted(Adjusted(x, st), st) == Adjusted(x, st)
  {
    var a := Adjusted(x, st);
    AdjustedOnGrid(x, st);
    if st.isAxis {
      RoundHalfUpFixes(a);
    } else {
      QuarterRoundFixes(a);
    }
    assert Rounded(a, st) == a;
  }

  /** A step from a value on the quarter grid lands exactly one quarter
      away, unless a bound or the cylinder rule stops it. */
  lemma StepMovesOneQuarter(value: string, up: bool, st: Settings)
    requires !st.isAxis && !st.isCylinder
    requires ParseFloat(value).Some? && IsQuarter(ParseFloat(value).value)
    requires var n := ParseFloat(value).value + (if up then 0.25 else -0.25);
             (st.min.Some? ==> st.min.value <= n) && (st.max.Some? ==> n <= st.max.value)
    ensures HandleStep(value, up, st)
            == DecimalText(ParseFloat(value).value + (if up then 0.25 else -0.25) > 0.0,
                           ParseFloat(value).value + (if up then 0.25 else -0.25))
  {
    var c := ParseFloat(value).value;
    var n := c + (if up then 0.25 else -0.25);
    var k := (c * 4.0).Floor;
    assert n * 4.0 == (k + (if up then 1 else -1)) as real;
    QuarterRoundFixes(n);
  }

  /** A step in an empty field starts from zero. */
  lemma StepFromEmpty(up: bool, st: Settings)
    requires !st.isAxis && !st.isCylinder
    requires st.min.Some? ==> st.min.value <= -0.25
    requires st.max.Some? ==> 0.25 <= st.max.value
    ensures HandleStep("", up, st) == if up then DecimalText(true, 0.25) else DecimalText(false, -0.25)
  {
    EmptyText();
    QuarterRoundFixes(0.25);
    QuarterRoundFixes(-0.25);
  }

  /** An axis steps by one whole degree. */
  lemma AxisStepsOneDegree(value: string, up: bool, st: Settings)
    requires st.isAxis && !st.isCylinder
    requires ParseFloat(value).Some? && IsWhole(ParseFloat(value).value)
    requires var n := ParseFloat(value).value + (if up then 1.0 else -1.0);
             (st.min.Some? ==> st.min.value <= n) && (st.max.Some? ==> n <= st.max.value)
    ensures HandleStep(value, up, st) == AxisText(ParseFloat(value).value + (if up then 1.0 else -1.0))
  {
    var c := ParseFloat(value).value;
    var n := c + (if up then 1.0 else -1.0);
    assert n.Floor == c.Floor + (if up then 1 else -1);
    RoundHalfUpFixes(n);
  }
}
