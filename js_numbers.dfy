/** The number conversions the frontend relies on. parseFloat and parseInt
    read the longest number at the start of a text (after leading white
    space) and give NaN when there is none; Number(), which isNaN applies
    to a text, accepts the text only when all of it, trimmed, is a number,
    and reads a blank text as 0. NaN is None here. */
module JsNumbers {
  import opened Common

  /** The longest prefix of s made of digits. */
  function DigitPrefix(s: string): (r: string)
    ensures r <= s && AllDigits(r)
    ensures |r| < |s| ==> !IsDigit(s[|r|])
  {
    if s != [] && IsDigit(s[0]) then [s[0]] + DigitPrefix(s[1..]) else []
  }

  /** A prefix stops at the first non-digit, whatever follows it. */
  lemma {:induction false} DigitPrefixExtend(a: string, b: string)
    requires |DigitPrefix(a)| < |a| || b == [] || !IsDigit(b[0])
    ensures DigitPrefix(a + b) == DigitPrefix(a)
  {
    if a == [] {
      assert a + b == b;
    } else if IsDigit(a[0]) {
      assert (a + b)[1..] == a[1..] + b;
      DigitPrefixExtend(a[1..], b);
    }
  }

  function DigitValue(c: char): nat
    requires IsDigit(c)
  {
    c as int - '0' as int
  }

  /** The value of a string of decimal digits (the empty string reads 0). */
  function NatValue(ds: string): nat
    requires AllDigits(ds)
  {
    if ds == [] then 0 else NatValue(ds[..|ds| - 1]) * 10 + DigitValue(ds[|ds| - 1])
  }

  function Pow10(n: nat): (r: nat)
    ensures r >= 1
  {
    if n == 0 then 1 else 10 * Pow10(n - 1)
  }

  /** An unsigned decimal read at the start of a text: its value and the
      number of characters it takes. */
  datatype Scan = Scan(value: real, length: nat)

  /** Digits, optionally a point and more digits, or a point and digits;
      at least one digit in all. Exponents are not read. */
  function ScanDecimal(t: string): (r: Option<Scan>)
    ensures r.Some? ==> 0 < r.value.length <= |t| && r.value.value >= 0.0
  {
    var ip := DigitPrefix(t);
    ScanAfter(ip, t[|ip|..])
  }

  /** The rest of a decimal whose integer digits ip have been read. */
  function ScanAfter(ip: string, rest: string): (r: Option<Scan>)
    requires AllDigits(ip)
    ensures r.Some? ==> 0 < r.value.length <= |ip| + |rest| && r.value.value >= 0.0
  {
    if rest != [] && rest[0] == '.' then
      var fp := DigitPrefix(rest[1..]);
      if ip == [] && fp == [] then None
      else Some(Scan(NatValue(ip) as real + NatValue(fp) as real / Pow10(|fp|) as real, |ip| + 1 + |fp|))
    else if ip == [] then None
    else Some(Scan(NatValue(ip) as real, |ip|))
  }

  /** The optional sign at the start of a text, and what follows it. */
  function SplitSign(t: string): (r: (int, string))
    ensures r.0 == 1 || r.0 == -1
    ensures r.1 == t || (t != [] && r.1 == t[1..])
  {
    if t != [] && t[0] == '-' then (-1, t[1..])
    else if t != [] && t[0] == '+' then (1, t[1..])
    else (1, t)
  }

  /** The signed decimal at the start of t, if any. */
  function ReadPrefix(t: string): Option<real>
  {
    var (sign, body) := SplitSign(t);
    match ScanDecimal(body)
    case None => None
    case Some(sc) => Some(sign as real * sc.value)
  }

  /** The signed decimal that is all of t, if t is one. */
  function ReadWhole(t: string): Option<real>
  {
    var (sign, body) := SplitSign(t);
    match ScanDecimal(body)
    case Some(sc) => if sc.length == |body| then Some(sign as real * sc.value) else None
    case None => None
  }

  /** parseFloat. */
  function ParseFloat(s: string): (r: Option<real>)
  {
    ReadPrefix(TrimStart(s))
  }

  /** parseInt with the default radix, on decimal text. */
  function ParseInt(s: string): (r: Option<int>)
  {
    var (sign, body) := SplitSign(TrimStart(s));
    var ds := DigitPrefix(body);
    if ds == [] then None else Some(sign * NatValue(ds))
  }

  /** Number(s): a blank text is 0; otherwise the whole trimmed text must be
      a signed decimal. */
  function ToNumber(s: string): (r: Option<real>)
  {
    var t := Trim(s);
    if t == "" then Some(0.0) else ReadWhole(t)
  }

  /** `x || 0` on a parsed number: NaN (and 0) give 0. */
  function OrZero(x: Option<real>): real
  {
    if x.Some? then x.value else 0.0
  }

  // --------------------------------------------------------------- lemmas

  lemma {:induction false} DigitPrefixAll(ds: string)
    requires AllDigits(ds)
    ensures DigitPrefix(ds) == ds
  {
    if ds != [] {
      DigitPrefixAll(ds[1..]);
    }
  }

  /** The empty text a cleared field holds is not a number to parseFloat or
      parseInt, and is 0 to Number(). */
  lemma EmptyText()
    ensures ParseFloat("") == None && ParseInt("") == None && ToNumber("") == Some(0.0)
  {
  }

  /** Leading white space does not change what parseFloat reads. */
  lemma ParseFloatLeadingSpace(pad: string, s: string)
    requires forall i :: 0 <= i < |pad| ==> IsWhiteSpace(pad[i])
    ensures ParseFloat(pad + s) == ParseFloat(s)
    ensures ParseInt(pad + s) == ParseInt(s)
  {
    TrimStartPadding(pad, s);
  }

  /** A plain string of digits reads as its decimal value, to parseFloat,
      parseInt and Number() alike. */
  lemma ParseDigits(ds: string)
    requires ds != [] && AllDigits(ds)
    ensures ParseFloat(ds) == Some(NatValue(ds) as real)
    ensures ParseInt(ds) == Some(NatValue(ds) as int)
    ensures ToNumber(ds) == Some(NatValue(ds) as real)
  {
    assert !IsWhiteSpace(ds[0]) && !IsWhiteSpace(ds[|ds| - 1]);
    assert TrimStart(ds) == ds;
    assert TrimEnd(ds) == ds;
    assert SplitSign(ds) == (1, ds);
    DigitPrefixAll(ds);
    assert ds[|ds|..] == [];
    assert ScanDecimal(ds) == Some(Scan(NatValue(ds) as real, |ds|));
  }

  /** TrimEnd keeps a prefix and removes only white space. */
  lemma {:induction false} TrimEndPrefix(t: string)
    ensures |TrimEnd(t)| <= |t| && TrimEnd(t) == t[..|TrimEnd(t)|]
    ensures forall i :: |TrimEnd(t)| <= i < |t| ==> IsWhiteSpace(t[i])
  {
    if |t| > 0 && IsWhiteSpace(t[|t| - 1]) {
      var u := t[..|t| - 1];
      TrimEndPrefix(u);
      assert TrimEnd(t) == TrimEnd(u);
      forall i | |TrimEnd(u)| <= i < |t| ensures IsWhiteSpace(t[i]) {
        if i < |u| {
          assert t[i] == u[i];
        }
      }
      assert u[..|TrimEnd(u)|] == t[..|TrimEnd(u)|];
    }
  }

  /** A decimal that fills its text reads the same with white space after
      it. */
  lemma ScanExtend(body: string, w: string)
    requires ScanDecimal(body).Some? && ScanDecimal(body).value.length == |body|
    requires w == [] || IsWhiteSpace(w[0])
    ensures ScanDecimal(body + w) == ScanDecimal(body)
  {
    var ip := DigitPrefix(body);
    var rest := body[|ip|..];
    if rest != [] && rest[0] == '.' {
      DigitPrefixExtend(body, w);
      assert (body + w)[|ip|..] == rest + w;
      ScanAfterExtend(ip, rest, w);
    } else {
      assert |ip| == |body|;
      DigitPrefixExtend(body, w);
      assert (body + w)[|ip|..] == w;
    }
  }

  lemma ScanAfterExtend(ip: string, rest: string, w: string)
    requires AllDigits(ip) && rest != [] && rest[0] == '.'
    requires ScanAfter(ip, rest).Some? && ScanAfter(ip, rest).value.length == |ip| + |rest|
    requires w == [] || IsWhiteSpace(w[0])
    ensures ScanAfter(ip, rest + w) == ScanAfter(ip, rest)
  {
    var fp := DigitPrefix(rest[1..]);
    assert |fp| == |rest[1..]|;
    assert (rest + w)[1..] == rest[1..] + w;
    DigitPrefixExtend(rest[1..], w);
  }

  lemma ReadExtend(t: string, w: string)
    requires t != [] && ReadWhole(t).Some?
    requires w == [] || IsWhiteSpace(w[0])
    ensures ReadPrefix(t + w) == ReadWhole(t)
  {
    var body := SplitSign(t).1;
    SplitSignExtend(t, w);
    assert ScanDecimal(body).Some? && ScanDecimal(body).value.length == |body|;
    ScanExtend(body, w);
  }

  /** Text after the number does not change how its sign is read. */
  lemma SplitSignExtend(t: string, w: string)
    requires t != []
    ensures SplitSign(t + w) == (SplitSign(t).0, SplitSign(t).1 + w)
  {
    if t[0] == '-' || t[0] == '+' {
      assert (t + w)[1..] == t[1..] + w;
    }
  }

  /** When isNaN says a non-blank text is a number, parseFloat reads that
      same number from it. */
  lemma ToNumberAgrees(s: string)
    requires ToNumber(s).Some? && Trim(s) != ""
    ensures ParseFloat(s) == ToNumber(s)
  {
    var t := Trim(s);
    TrimEndPrefix(TrimStart(s));
    var w := TrimStart(s)[|t|..];
    assert TrimStart(s) == t + w;
    ReadExtend(t, w);
  }
}
