/** The phone-number formatter of the frontend: a text with exactly ten
    digits is laid out in groups, with a two-digit area code for the three
    metropolitan areas and a three-digit one elsewhere; any other text is
    shown as it was given. */
module FormatUtils {
  import opened Common

  /** The text with every non-digit removed, digits kept in order
      (replace(/\D/g, "")). */
  function Digits(s: string): string
  {
    if s == [] then []
    else (if IsDigit(s[0]) then [s[0]] else []) + Digits(s[1..])
  }

  lemma {:induction false} DigitsAppend(a: string, b: string)
    ensures Digits(a + b) == Digits(a) + Digits(b)
  {
    if a != [] {
      assert (a + b)[1..] == a[1..] + b;
      DigitsAppend(a[1..], b);
    } else {
      assert a + b == b;
    }
  }

  /** The area codes written with two digits. */
  const TwoDigitAreas: seq<string> := ["33", "55", "81"]

  /** formatPhoneNumber. An empty text is falsy and gives the empty text. */
  function FormatPhoneNumber(phone: string): (r: string)
    ensures |Digits(phone)| != 10 ==> r == phone
    ensures |Digits(phone)| == 10 ==> |r| == 16
  {
    if phone == "" then ""
    else
      var cleaned := Digits(phone);
      if |cleaned| != 10 then phone
      else if cleaned[..2] in TwoDigitAreas then
        Join5(cleaned[..2], cleaned[2..4], cleaned[4..6], cleaned[6..8], cleaned[8..10])
      else
        Join5(cleaned[..3], cleaned[3..4], cleaned[4..6], cleaned[6..8], cleaned[8..10])
  }

  // ------------------------------------------------------------- layout

  /** s follows mask: an 'X' of the mask stands for one digit, every other
      character of the mask appears as itself. */
  predicate FitsMask(s: string, mask: string)
  {
    |s| == |mask|
    && forall i :: 0 <= i < |s| ==> if mask[i] == 'X' then IsDigit(s[i]) else s[i] == mask[i]
  }

  const LocalMask: string := "(XX) XX XX XX XX"
  const NationalMask: string := "(XXX) X XX XX XX"

  predicate NoDigits(s: string)
  {
    forall i :: 0 <= i < |s| ==> !IsDigit(s[i])
  }

  lemma MaskAppend(a: string, ma: string, b: string, mb: string)
    requires FitsMask(a, ma) && FitsMask(b, mb)
    ensures FitsMask(a + b, ma + mb)
  {
    forall i | 0 <= i < |a + b|
      ensures if (ma + mb)[i] == 'X' then IsDigit((a + b)[i]) else (a + b)[i] == (ma + mb)[i]
    {
      if i >= |a| {
        assert (a + b)[i] == b[i - |a|] && (ma + mb)[i] == mb[i - |a|];
      }
    }
  }

  lemma DigitsGroupFitsMask(g: string)
    requires AllDigits(g)
    ensures FitsMask(g, seq(|g|, _ => 'X'))
  {
  }

  /** Digits(x + sep + g) for a separator without digits and a group of
      digits. */
  lemma DigitsGlue(x: string, sep: string, g: string)
    requires Digits(sep) == [] && Digits(g) == g
    ensures Digits(x + sep + g) == Digits(x) + g
  {
    DigitsAppend(x + sep, g);
    DigitsAppend(x, sep);
  }

  /** The separators of the layout hold no digits. */
  lemma SeparatorsHaveNoDigits()
    ensures Digits("(") == [] && Digits(") ") == [] && Digits(" ") == []
  {
    assert NoDigits("(") && NoDigits(") ") && NoDigits(" ");
    SeparatorHasNoDigits("(");
    SeparatorHasNoDigits(") ");
    SeparatorHasNoDigits(" ");
  }

  lemma {:induction false} SeparatorHasNoDigits(sep: string)
    requires NoDigits(sep)
    ensures Digits(sep) == []
  {
    if sep != [] {
      assert !IsDigit(sep[0]);
      SeparatorHasNoDigits(sep[1..]);
    }
  }

  lemma {:induction false} GroupIsItsDigits(g: string)
    requires AllDigits(g)
    ensures Digits(g) == g
  {
    if g != [] {
      assert IsDigit(g[0]);
      GroupIsItsDigits(g[1..]);
      assert g == [g[0]] + g[1..];
    }
  }

  lemma {:induction false} DigitsAreDigits(s: string)
    ensures AllDigits(Digits(s))
  {
    if s != [] {
      DigitsAreDigits(s[1..]);
    }
  }

  /** The five groups of a formatted number, joined by the separators. */
  function Join5(g1: string, g2: string, g3: string, g4: string, g5: string): string
  {
    "(" + g1 + ") " + g2 + " " + g3 + " " + g4 + " " + g5
  }

  /** The digits of the joined groups are the groups' digits, in order. */
  lemma {:induction false} DigitsOfJoin5(g1: string, g2: string, g3: string, g4: string, g5: string)
    requires AllDigits(g1) && AllDigits(g2) && AllDigits(g3) && AllDigits(g4) && AllDigits(g5)
    ensures Digits(Join5(g1, g2, g3, g4, g5)) == g1 + g2 + g3 + g4 + g5
  {
    GroupIsItsDigits(g1);
    GroupIsItsDigits(g2);
    GroupIsItsDigits(g3);
    GroupIsItsDigits(g4);
    GroupIsItsDigits(g5);
    SeparatorsHaveNoDigits();
    var s1 := "(" + g1;
    DigitsAppend("(", g1);
    assert Digits(s1) == g1;
    DigitsGlue(s1, ") ", g2);
    var s2 := s1 + ") " + g2;
    assert Digits(s2) == g1 + g2;
    DigitsGlue(s2, " ", g3);
    var s3 := s2 + " " + g3;
    assert Digits(s3) == g1 + g2 + g3;
    DigitsGlue(s3, " ", g4);
    var s4 := s3 + " " + g4;
    assert Digits(s4) == g1 + g2 + g3 + g4;
    DigitsGlue(s4, " ", g5);
    assert Join5(g1, g2, g3, g4, g5) == s4 + " " + g5;
  }

  lemma {:induction false} Join5FitsMask(g1: string, g2: string, g3: string, g4: string, g5: string)
    requires AllDigits(g1) && AllDigits(g2) && AllDigits(g3) && AllDigits(g4) && AllDigits(g5)
    requires |g3| == 2 && |g4| == 2 && |g5| == 2
    ensures FitsMask(Join5(g1, g2, g3, g4, g5),
                     "(" + seq(|g1|, _ => 'X') + ") " + seq(|g2|, _ => 'X') + " XX XX XX")
  {
    var x1, x2, xx := seq(|g1|, _ => 'X'), seq(|g2|, _ => 'X'), seq(2, _ => 'X');
    DigitsGroupFitsMask(g1);
    DigitsGroupFitsMask(g2);
    DigitsGroupFitsMask(g3);
    DigitsGroupFitsMask(g4);
    DigitsGroupFitsMask(g5);
    assert FitsMask("(", "(");
    assert FitsMask(") ", ") ");
    assert FitsMask(" ", " ");
    MaskAppend("(", "(", g1, x1);
    MaskAppend("(" + g1, "(" + x1, ") ", ") ");
    MaskAppend("(" + g1 + ") ", "(" + x1 + ") ", g2, x2);
    var a, m := "(" + g1 + ") " + g2, "(" + x1 + ") " + x2;
    MaskAppend(a, m, " ", " ");
    MaskAppend(a + " ", m + " ", g3, xx);
    MaskAppend(a + " " + g3, m + " " + xx, " ", " ");
    MaskAppend(a + " " + g3 + " ", m + " " + xx + " ", g4, xx);
    MaskAppend(a + " " + g3 + " " + g4, m + " " + xx + " " + xx, " ", " ");
    MaskAppend(a + " " + g3 + " " + g4 + " ", m + " " + xx + " " + xx + " ", g5, xx);
    assert m + " " + xx + " " + xx + " " + xx == "(" + x1 + ") " + x2 + " XX XX XX";
  }

  lemma LocalLayout(d: string)
    requires |d| == 10 && AllDigits(d)
    ensures Digits(Join5(d[..2], d[2..4], d[4..6], d[6..8], d[8..10])) == d
    ensures FitsMask(Join5(d[..2], d[2..4], d[4..6], d[6..8], d[8..10]), LocalMask)
  {
    DigitsOfJoin5(d[..2], d[2..4], d[4..6], d[6..8], d[8..10]);
    assert d[..2] + d[2..4] + d[4..6] + d[6..8] + d[8..10] == d;
    Join5FitsMask(d[..2], d[2..4], d[4..6], d[6..8], d[8..10]);
    assert "(" + seq(2, _ => 'X') + ") " + seq(2, _ => 'X') + " XX XX XX" == LocalMask;
  }

  lemma NationalLayout(d: string)
    requires |d| == 10 && AllDigits(d)
    ensures Digits(Join5(d[..3], d[3..4], d[4..6], d[6..8], d[8..10])) == d
    ensures FitsMask(Join5(d[..3], d[3..4], d[4..6], d[6..8], d[8..10]), NationalMask)
  {
    DigitsOfJoin5(d[..3], d[3..4], d[4..6], d[6..8], d[8..10]);
    assert d[..3] + d[3..4] + d[4..6] + d[6..8] + d[8..10] == d;
    Join5FitsMask(d[..3], d[3..4], d[4..6], d[6..8], d[8..10]);
    assert "(" + seq(3, _ => 'X') + ") " + seq(1, _ => 'X') + " XX XX XX" == NationalMask;
  }

  /** A text with ten digits is laid out by its area code, and formatting
      keeps exactly its digits, in order. */
  lemma FormatPhoneLayout(phone: string)
    requires |Digits(phone)| == 10
    ensures Digits(FormatPhoneNumber(phone)) == Digits(phone)
    ensures Digits(phone)[..2] in TwoDigitAreas ==> FitsMask(FormatPhoneNumber(phone), LocalMask)
    ensures Digits(phone)[..2] !in TwoDigitAreas ==> FitsMask(FormatPhoneNumber(phone), NationalMask)
  {
    DigitsAreDigits(phone);
    assert phone != "";
    if Digits(phone)[..2] in TwoDigitAreas {
      LocalLayout(Digits(phone));
    } else {
      NationalLayout(Digits(phone));
    }
  }

  /** Formatting an already formatted number changes nothing. */
  lemma FormatPhoneIdempotent(phone: string)
    ensures FormatPhoneNumber(FormatPhoneNumber(phone)) == FormatPhoneNumber(phone)
  {
    if |Digits(phone)| == 10 {
      FormatPhoneLayout(phone);
      assert |FormatPhoneNumber(phone)| == 16;
    }
  }
}
