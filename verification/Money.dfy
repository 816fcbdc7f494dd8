/** Exact money text: decimal amounts in minor units, parsed and printed. */
module Money {
  import opened Wrappers

  const MAX_MINOR: nat := 0x7FFF_FFFF_FFFF_FFFF
  const MAX_SCALE := 18
  const MAX_TEXT := 80

  function Pow10(k: nat): (p: nat)
    ensures p > 0
  {
    if k == 0 then 1 else 10 * Pow10(k - 1)
  }

  /** divmod by the size of a major unit. */
  function Major(m: nat, p: nat): nat
    requires p > 0
  {
    m / p
  }

  function Rest(m: nat, p: nat): (r: nat)
    requires p > 0
    ensures r < p
  {
    m % p
  }

  function Together(w: nat, p: nat, f: nat): nat { w * p + f }

  predicate IsDigit(c: char) { '0' <= c <= '9' }

  predicate AllDigits(s: string) { forall c <- s :: IsDigit(c) }

  function DigitValue(c: char): (d: nat)
    requires IsDigit(c)
    ensures d < 10
  {
    c as int - '0' as int
  }

  function DigitChar(d: nat): (c: char)
    requires d < 10
    ensures IsDigit(c) && DigitValue(c) == d
  {
    '0' + d as char
  }

  lemma CharOfDigit(c: char)
    requires IsDigit(c)
    ensures DigitChar(DigitValue(c)) == c
  {
  }

  /** Python's int on a string of digits, with the empty string as zero. */
  function Value(s: string): nat
    requires AllDigits(s)
  {
    if s == "" then 0 else Value(s[..|s| - 1]) * 10 + DigitValue(s[|s| - 1])
  }

  /** Python's str on a number that is not negative. */
  function Decimal(n: nat): (s: string)
    ensures s != "" && AllDigits(s)
  {
    if n < 10 then [DigitChar(n)] else Decimal(n / 10) + [DigitChar(n % 10)]
  }

  function Zeros(k: nat): (s: string)
    ensures |s| == k && AllDigits(s) && forall i :: 0 <= i < k ==> s[i] == '0'
  {
    seq(k, i => '0')
  }

  /** ljust(width, '0') and zfill(width). */
  function PadRight(s: string, width: nat): string {
    if |s| < width then s + Zeros(width - |s|) else s
  }

  function PadLeft(s: string, width: nat): string {
    if |s| < width then Zeros(width - |s|) + s else s
  }

  /** rstrip('0'). */
  function StripZeros(s: string): (r: string)
    ensures |r| <= |s| && r == s[..|r|]
  {
    if s != "" && s[|s| - 1] == '0' then StripZeros(s[..|s| - 1]) else s
  }

  /** The text up to the first point, and after it. */
  function Whole(s: string): (w: string)
    ensures |w| <= |s|
  {
    if s == "" || s[0] == '.' then "" else [s[0]] + Whole(s[1..])
  }

  function Fraction(s: string): string {
    if s == "" then "" else if s[0] == '.' then s[1..] else Fraction(s[1..])
  }

  /** The accepted pattern: digits, and possibly a point with more digits. */
  predicate Shaped(s: string) {
    && Whole(s) != "" && AllDigits(Whole(s)) && AllDigits(Fraction(s))
    && ('.' in s ==> Fraction(s) != "")
  }

  function Minor(s: string, scale: nat): nat
    requires Shaped(s) && |Fraction(s)| <= scale
  {
    PaddedDigits(Fraction(s), scale);
    Together(Value(Whole(s)), Pow10(scale), Value(PadRight(Fraction(s), scale)))
  }

  /** amount_minor. */
  function Amount(s: string, scale: int): Option<nat> {
    if !(0 <= scale <= MAX_SCALE) || |s| > MAX_TEXT || !Shaped(s) || |Fraction(s)| > scale then None
    else
      var minor := Minor(s, scale);
      if 0 < minor <= MAX_MINOR then Some(minor) else None
  }

  /** display_amount. */
  function Display(minor: int, scale: nat): string {
    var size := if minor < 0 then -minor else minor;
    var whole, fraction := Major(size, Pow10(scale)), Rest(size, Pow10(scale));
    (if minor < 0 then "-" else "") + Decimal(whole)
    + if fraction != 0 then "." + StripZeros(PadLeft(Decimal(fraction), scale)) else ""
  }

  // ---------- digits ----------

  lemma PaddedDigits(s: string, width: nat)
    requires AllDigits(s)
    ensures AllDigits(PadRight(s, width)) && AllDigits(PadLeft(s, width))
  {
  }

  lemma AllDigitsPart(s: string, k: nat)
    requires AllDigits(s) && k <= |s|
    ensures AllDigits(s[..k]) && AllDigits(s[k..])
  {
  }

  lemma ValueSnoc(s: string, c: char)
    requires AllDigits(s) && IsDigit(c)
    ensures AllDigits(s + [c]) && Value(s + [c]) == Value(s) * 10 + DigitValue(c)
  {
    assert (s + [c])[..|s|] == s;
  }

  lemma {:induction false} ValueBound(s: string)
    requires AllDigits(s)
    ensures Value(s) < Pow10(|s|)
    decreases |s|
  {
    if s != "" {
      ValueBound(s[..|s| - 1]);
      assert s[|s| - 1] in s;
    }
  }

  lemma {:induction false} ValueOfDecimal(n: nat)
    ensures Value(Decimal(n)) == n
  {
    if n < 10 {
      ValueSnoc("", DigitChar(n));
      assert "" + [DigitChar(n)] == [DigitChar(n)];
    } else {
      ValueOfDecimal(n / 10);
      ValueSnoc(Decimal(n / 10), DigitChar(n % 10));
    }
  }

  lemma DecimalSnoc(n: nat, d: nat)
    requires d < 10
    ensures Decimal(n * 10 + d) == if n == 0 then [DigitChar(d)] else Decimal(n) + [DigitChar(d)]
    ensures n == 0 ==> Decimal(n) == "0"
  {
    assert (n * 10 + d) / 10 == n && (n * 10 + d) % 10 == d;
  }

  lemma NoValue()
    ensures Value("") == 0
  {
  }

  /** The digits of a number, after leading zeros. */
  predicate Led(s: string, n: nat) {
    |Decimal(n)| <= |s| && s == Zeros(|s| - |Decimal(n)|) + Decimal(n)
  }

  lemma LedOne(c: char)
    requires IsDigit(c)
    ensures AllDigits([c]) && Led([c], Value([c]))
  {
    CharOfDigit(c);
    ValueSnoc("", c);
    NoValue();
    DecimalSnoc(0, DigitValue(c));
    hide Value, Decimal;
    assert "" + [c] == [c] && Zeros(0) + [c] == [c];
  }

  lemma LedMore(init: string, last: char)
    requires AllDigits(init) && IsDigit(last) && Led(init, Value(init))
    ensures AllDigits(init + [last]) && Led(init + [last], Value(init + [last]))
  {
    var n, d := Value(init), DigitValue(last);
    ValueSnoc(init, last);
    CharOfDigit(last);
    DecimalSnoc(n, d);
    hide Value, Decimal, Zeros, IsDigit, DigitValue, DigitChar;
    LeadingZeros(init, last, Decimal(n), Decimal(n * 10 + d));
  }

  /** A string of digits is its number's own text after leading zeros. */
  lemma {:induction false} DecimalOfValue(s: string)
    requires AllDigits(s) && s != ""
    ensures Led(s, Value(s))
    decreases |s|
  {
    var init, last := s[..|s| - 1], s[|s| - 1];
    assert s == init + [last] && last in s;
    AllDigitsPart(s, |s| - 1);
    hide Value, Led;
    if init == "" {
      assert s == [last];
      LedOne(last);
    } else {
      DecimalOfValue(init);
      LedMore(init, last);
    }
  }

  /** One more digit after leading zeros; a lone zero becomes one of them. */
  lemma LeadingZeros(init: string, last: char, text: string, next: string)
    requires |text| <= |init| && init == Zeros(|init| - |text|) + text
    requires next == text + [last] || (text == "0" && next == [last])
    ensures |next| <= |init| + 1 && init + [last] == Zeros(|init| + 1 - |next|) + next
  {
  }

  lemma DecimalShort(n: nat, width: nat)
    requires n < Pow10(width) && width > 0
    ensures |Decimal(n)| <= width
    decreases width
  {
    if width > 1 && n >= 10 { DecimalShort(n / 10, width - 1); }
  }

  lemma {:induction false} ValueZeros(k: nat)
    ensures Value(Zeros(k)) == 0
  {
    if k > 0 {
      ValueZeros(k - 1);
      assert Zeros(k)[..k - 1] == Zeros(k - 1);
    }
  }

  lemma {:induction false} ValueAfterZeros(k: nat, s: string)
    requires AllDigits(s)
    ensures AllDigits(Zeros(k) + s) && Value(Zeros(k) + s) == Value(s)
    decreases |s|
  {
    if s == "" {
      assert Zeros(k) + s == Zeros(k);
      ValueZeros(k);
    } else {
      var init, last := s[..|s| - 1], s[|s| - 1];
      ValueAfterZeros(k, init);
      ValueSnoc(Zeros(k) + init, last);
      assert Zeros(k) + s == Zeros(k) + init + [last];
    }
  }

  /** Digits of one length with one value are the same digits. */
  lemma {:induction false} ValueInjective(s: string, t: string)
    requires AllDigits(s) && AllDigits(t) && |s| == |t| && Value(s) == Value(t)
    ensures s == t
    decreases |s|
  {
    if s != "" {
      var a, b, c, d := s[..|s| - 1], t[..|t| - 1], s[|s| - 1], t[|t| - 1];
      assert c in s && d in t && s == a + [c] && t == b + [d];
      AllDigitsPart(s, |a|);
      AllDigitsPart(t, |b|);
      ValueSnoc(a, c);
      ValueSnoc(b, d);
      CharOfDigit(c);
      CharOfDigit(d);
      hide Value, AllDigits, DigitChar;
      ValueInjective(a, b);
    }
  }

  // ---------- stripping ----------

  lemma {:induction false} StripParts(s: string)
    ensures s == StripZeros(s) + Zeros(|s| - |StripZeros(s)|)
    decreases |s|
  {
    if s != "" && s[|s| - 1] == '0' {
      StripParts(s[..|s| - 1]);
      assert s == s[..|s| - 1] + "0";
    }
  }

  lemma StripSnoc(s: string)
    ensures StripZeros(s + "0") == StripZeros(s)
  {
    assert (s + "0")[..|s|] == s;
  }

  lemma {:induction false} StripPadded(s: string, k: nat)
    ensures StripZeros(s + Zeros(k)) == StripZeros(s)
    decreases k
  {
    if k == 0 {
      assert s + Zeros(0) == s;
    } else {
      StripPadded(s, k - 1);
      assert s + Zeros(k) == s + Zeros(k - 1) + "0";
      StripSnoc(s + Zeros(k - 1));
    }
  }

  lemma StripSome(s: string)
    requires AllDigits(s) && Value(s) > 0
    ensures StripZeros(s) != "" && AllDigits(StripZeros(s))
  {
    StripParts(s);
    ValueZeros(|s|);
    assert "" + Zeros(|s|) == Zeros(|s|);
    AllDigitsPart(s, |StripZeros(s)|);
  }

  // ---------- splitting at the point ----------

  lemma {:induction false} SplitPoint(w: string, f: string)
    requires '.' !in w
    ensures Whole(w + "." + f) == w && Fraction(w + "." + f) == f && '.' in w + "." + f
    decreases |w|
  {
    var s := w + "." + f;
    assert s[|w|] == '.';
    if w == "" {
      assert s[1..] == f;
    } else {
      assert s[1..] == w[1..] + "." + f;
      SplitPoint(w[1..], f);
    }
  }

  lemma {:induction false} SplitNone(w: string)
    requires '.' !in w
    ensures Whole(w) == w && Fraction(w) == ""
    decreases |w|
  {
    if w != "" { SplitNone(w[1..]); }
  }

  lemma {:induction false} JoinPoint(s: string)
    ensures '.' in s ==> s == Whole(s) + "." + Fraction(s)
    ensures '.' !in s ==> s == Whole(s) && Fraction(s) == ""
    ensures '.' !in Whole(s)
    decreases |s|
  {
    if s != "" && s[0] != '.' {
      JoinPoint(s[1..]);
      assert s == [s[0]] + s[1..];
    }
  }

  lemma DigitsNoPoint(s: string)
    requires AllDigits(s)
    ensures '.' !in s
  {
  }

  // ---------- the two directions ----------

  /** The fraction's digits at full width: its number with leading zeros. */
  lemma FullFraction(fraction: nat, scale: nat)
    requires fraction < Pow10(scale) && scale > 0
    ensures var full := PadLeft(Decimal(fraction), scale);
            |full| == scale && AllDigits(full) && Value(full) == fraction
  {
    DecimalShort(fraction, scale);
    ValueOfDecimal(fraction);
    PaddedDigits(Decimal(fraction), scale);
    if |Decimal(fraction)| < scale { ValueAfterZeros(scale - |Decimal(fraction)|, Decimal(fraction)); }
  }

  /** The printed fraction, padded again, is the full fraction. */
  lemma PrintedFraction(fraction: nat, scale: nat)
    requires 0 < fraction < Pow10(scale)
    ensures scale > 0
    ensures var f := StripZeros(PadLeft(Decimal(fraction), scale));
            f != "" && AllDigits(f) && |f| <= scale && AllDigits(PadRight(f, scale)) && Value(PadRight(f, scale)) == fraction
  {
    FullFraction(fraction, scale);
    var full := PadLeft(Decimal(fraction), scale);
    StripSome(full);
    StripParts(full);
    PaddedDigits(StripZeros(full), scale);
    assert PadRight(StripZeros(full), scale) == full;
  }

  lemma MajorRest(m: nat, p: nat)
    requires p > 0
    ensures Together(Major(m, p), p, Rest(m, p)) == m
  {
  }

  /** The text of w major units and f of the p minor ones. */
  function Printed(w: nat, f: nat, scale: nat): string {
    Decimal(w) + if f != 0 then "." + StripZeros(PadLeft(Decimal(f), scale)) else ""
  }

  lemma DisplayParts(minor: nat, scale: nat)
    ensures Display(minor, scale) == Printed(Major(minor, Pow10(scale)), Rest(minor, Pow10(scale)), scale)
  {
    hide Major, Rest, Decimal, StripZeros, PadLeft, Pow10;
    assert "" + Decimal(Major(minor, Pow10(scale))) == Decimal(Major(minor, Pow10(scale)));
  }

  /** What the parser makes of a printed amount. */
  lemma ParsesPrinted(w: nat, f: nat, scale: nat)
    requires f < Pow10(scale)
    ensures var s := Printed(w, f, scale);
            Shaped(s) && |Fraction(s)| <= scale && Minor(s, scale) == Together(w, Pow10(scale), f)
            && |s| <= |Decimal(w)| + 1 + scale
  {
    hide Together, Value, PadLeft, PadRight, StripZeros, Decimal, Pow10;
    ValueOfDecimal(w);
    DigitsNoPoint(Decimal(w));
    PadNothing(scale);
    if f != 0 {
      PrintedFraction(f, scale);
      var t := StripZeros(PadLeft(Decimal(f), scale));
      assert Decimal(w) + ("." + t) == Decimal(w) + "." + t;
      SplitPoint(Decimal(w), t);
    } else {
      assert Decimal(w) + "" == Decimal(w);
      SplitNone(Decimal(w));
    }
  }

  lemma PadNothing(scale: nat)
    ensures AllDigits(PadRight("", scale)) && Value(PadRight("", scale)) == 0
  {
    ValueZeros(scale);
    assert PadRight("", scale) == Zeros(scale);
  }

  lemma MaxDigits()
    ensures MAX_MINOR < Pow10(19)
  {
    assert Pow10(5) == 100000;
    assert Pow10(10) == 10000000000;
    assert Pow10(15) == 1000000000000000;
    assert Pow10(19) == 10000000000000000000;
  }

  /** Every amount reads back from its own text. */
  lemma AmountOfDisplay(minor: nat, scale: nat)
    requires 0 < minor <= MAX_MINOR && scale <= MAX_SCALE
    ensures Amount(Display(minor, scale), scale) == Some(minor)
  {
    DisplayParts(minor, scale);
    MajorRest(minor, Pow10(scale));
    var w, f := Major(minor, Pow10(scale)), Rest(minor, Pow10(scale));
    MaxDigits();
    Smaller(w, Pow10(scale), f);
    hide Together, Major, Rest, Pow10, Display, Printed, Shaped, Minor;
    ParsesPrinted(w, f, scale);
    DecimalShort(w, 19);
  }

  lemma Smaller(w: nat, p: nat, f: nat)
    requires p > 0
    ensures w <= Together(w, p, f)
  {
    assert w * (p - 1) >= 0;
    assert w * p == w + w * (p - 1);
  }

  /** `s` is `text` with zeros in front and, behind, only zeros of a fraction. */
  ghost predicate PaddedForm(s: string, text: string) {
    exists a: nat, b: nat ::
      s == Zeros(a) + text + (if '.' in text then Zeros(b) else if b == 0 then "" else "." + Zeros(b))
  }

  lemma PaddedIntro(s: string, text: string, a: nat, b: nat)
    requires s == Zeros(a) + text + (if '.' in text then Zeros(b) else if b == 0 then "" else "." + Zeros(b))
    ensures PaddedForm(s, text)
  {
  }

  lemma MajorRestUnique(w: nat, f: nat, p: nat)
    requires f < p
    ensures Major(Together(w, p, f), p) == w && Rest(Together(w, p, f), p) == f
  {
    var m := Together(w, p, f);
    var q, r := Major(m, p), Rest(m, p);
    MajorRest(m, p);
    hide Major, Rest;
    assert (w - q) * p == w * p - q * p == r - f;
    SmallMultiple(w - q, p);
  }

  lemma SmallMultiple(d: int, p: int)
    requires p > 0
    ensures -p < d * p < p ==> d == 0
  {
    if d > 0 { assert (d - 1) * p >= 0; }
    if d < 0 { assert (-d - 1) * p >= 0; }
  }

  lemma AmountParts(s: string, scale: nat, minor: nat)
    requires Amount(s, scale) == Some(minor)
    ensures Shaped(s) && |Fraction(s)| <= scale && AllDigits(PadRight(Fraction(s), scale))
    ensures minor == Together(Value(Whole(s)), Pow10(scale), Value(PadRight(Fraction(s), scale)))
  {
    hide Value, PadRight, Pow10, Together;
    if Shaped(s) { PaddedDigits(Fraction(s), scale); }
  }

  /** An accepted text is the printed amount between zeros that mean nothing. */
  lemma AcceptedForm(s: string, scale: nat, minor: nat)
    requires Amount(s, scale) == Some(minor)
    ensures PaddedForm(s, Display(minor, scale))
  {
    hide PaddedForm, AllDigits, Display, Amount, Minor, Value, PadRight, PadLeft, Together, Major, Rest, Pow10, Decimal,
      StripZeros, Zeros, Whole, Fraction;
    AmountParts(s, scale, minor);
    var w, f := Whole(s), Fraction(s);
    FractionForm(f, scale);
    var wn, fn := Value(w), Value(PadRight(f, scale));
    FullBound(f, scale);
    MajorRestUnique(wn, fn, Pow10(scale));
    DisplayParts(minor, scale);
    JoinPoint(s);
    DecimalOfValue(w);
    var a := |w| - |Decimal(wn)|;
    DigitsNoPoint(Decimal(wn));
    if fn == 0 {
      WithoutFraction(s, w, f, a, Decimal(wn));
    } else {
      FractionPoint(s, f, scale);
      WithFraction(s, w, f, a, Decimal(wn), StripZeros(PadLeft(Decimal(fn), scale)));
    }
  }

  lemma FullBound(f: string, scale: nat)
    requires AllDigits(f) && |f| <= scale
    ensures AllDigits(PadRight(f, scale)) && Value(PadRight(f, scale)) < Pow10(scale)
  {
    PaddedDigits(f, scale);
    ValueBound(PadRight(f, scale));
  }

  /** A fraction worth something follows a point. */
  lemma FractionPoint(s: string, f: string, scale: nat)
    requires f == Fraction(s) && AllDigits(f) && AllDigits(PadRight(f, scale)) && Value(PadRight(f, scale)) != 0
    ensures s == Whole(s) + "." + f
  {
    JoinPoint(s);
    PadNothing(scale);
  }

  /** A fraction is the printed one with zeros behind it. */
  lemma FractionForm(f: string, scale: nat)
    requires AllDigits(f) && |f| <= scale
    ensures AllDigits(PadRight(f, scale))
    ensures var n := Value(PadRight(f, scale));
            && (n == 0 ==> f == Zeros(|f|))
            && (n != 0 ==> var t := StripZeros(PadLeft(Decimal(n), scale)); |t| <= |f| && f == t + Zeros(|f| - |t|))
  {
    PaddedDigits(f, scale);
    var full := PadRight(f, scale);
    assert |full| == scale && full == f + Zeros(scale - |f|);
    if Value(full) == 0 {
      NoFraction(f, full);
    } else {
      SomeFraction(f, full, scale);
    }
  }

  lemma NoFraction(f: string, full: string)
    requires AllDigits(full) && Value(full) == 0 && |f| <= |full| && full == f + Zeros(|full| - |f|)
    ensures f == Zeros(|f|)
  {
    ValueZeros(|full|);
    ValueInjective(full, Zeros(|full|));
    assert f == full[..|f|];
  }

  lemma SomeFraction(f: string, full: string, scale: nat)
    requires AllDigits(full) && Value(full) != 0 && |f| <= |full| == scale && full == f + Zeros(scale - |f|)
    ensures var t := StripZeros(PadLeft(Decimal(Value(full)), scale)); |t| <= |f| && f == t + Zeros(|f| - |t|)
  {
    FullIsPadded(full);
    hide Value, Decimal, PadLeft, StripZeros;
    StripPadded(f, scale - |f|);
    StripParts(f);
  }

  /** Digits of full width are their number's text with zeros in front. */
  lemma FullIsPadded(full: string)
    requires AllDigits(full) && Value(full) != 0
    ensures full == PadLeft(Decimal(Value(full)), |full|)
  {
    var n := Value(full);
    ValueBound(full);
    assert full != "";
    hide Value, Decimal, Pow10, PadLeft;
    FullFraction(n, |full|);
    ValueInjective(full, PadLeft(Decimal(n), |full|));
  }

  lemma WithoutFraction(s: string, w: string, f: string, a: nat, text: string)
    requires w == Zeros(a) + text && f == Zeros(|f|) && '.' !in text
    requires s == w + "." + f || (s == w && f == "")
    requires s == w + "." + f ==> f != ""
    ensures PaddedForm(s, text + "")
  {
    assert text + "" == text;
    if s == w + "." + f {
      assert s == Zeros(a) + text + ("." + Zeros(|f|));
      PaddedIntro(s, text, a, |f|);
    } else {
      assert s == Zeros(a) + text + "";
      PaddedIntro(s, text, a, 0);
    }
  }

  lemma WithFraction(s: string, w: string, f: string, a: nat, whole: string, t: string)
    requires w == Zeros(a) + whole && |t| <= |f| && f == t + Zeros(|f| - |t|) && s == w + "." + f
    ensures PaddedForm(s, whole + ("." + t))
  {
    var text := whole + ("." + t);
    assert text[|whole|] == '.';
    assert s == Zeros(a) + text + Zeros(|f| - |t|);
    PaddedIntro(s, text, a, |f| - |t|);
  }

  /** Zeros in front and zeros behind do not change what is read. */
  lemma PaddedAccepted(s: string, scale: nat, minor: nat)
    requires 0 < minor <= MAX_MINOR && scale <= MAX_SCALE && PaddedForm(s, Display(minor, scale))
    requires |s| <= MAX_TEXT && |Fraction(s)| <= scale
    ensures Amount(s, scale) == Some(minor)
  {
    var p := Pow10(scale);
    var w, f := Major(minor, p), Rest(minor, p);
    MajorRest(minor, p);
    DisplayParts(minor, scale);
    DigitsNoPoint(Decimal(w));
    ValueOfDecimal(w);
    var text := Printed(w, f, scale);
    var a: nat, b: nat :| s == Zeros(a) + text + (if '.' in text then Zeros(b) else if b == 0 then "" else "." + Zeros(b));
    ValueAfterZeros(a, Decimal(w));
    DigitsNoPoint(Zeros(a) + Decimal(w));
    if f != 0 {
      PrintedFraction(f, scale);
      var t := StripZeros(PadLeft(Decimal(f), scale));
      PaddedAgain(s, scale, a, b, w, f, t);
    } else {
      PaddedWhole(s, scale, a, b, w);
    }
  }

  lemma PaddedAgain(s: string, scale: nat, a: nat, b: nat, w: nat, f: nat, t: string)
    requires AllDigits(t) && |t| <= scale && AllDigits(PadRight(t, scale)) && Value(PadRight(t, scale)) == f
    requires s == Zeros(a) + (Decimal(w) + ("." + t)) + (if '.' in Decimal(w) + ("." + t) then Zeros(b) else if b == 0 then "" else "." + Zeros(b))
    requires AllDigits(Zeros(a) + Decimal(w)) && Value(Zeros(a) + Decimal(w)) == w && '.' !in Zeros(a) + Decimal(w)
    requires t != "" && |Fraction(s)| <= scale
    ensures Shaped(s) && Minor(s, scale) == Together(w, Pow10(scale), f)
  {
    hide Value, Decimal, Together, Pow10, PadRight;
    assert (Decimal(w) + ("." + t))[|Decimal(w)|] == '.';
    assert s == (Zeros(a) + Decimal(w)) + "." + (t + Zeros(b));
    SplitPoint(Zeros(a) + Decimal(w), t + Zeros(b));
    PadTwice(t, b, scale);
  }

  lemma PadTwice(t: string, b: nat, scale: nat)
    requires |t| + b <= scale
    ensures PadRight(t + Zeros(b), scale) == PadRight(t, scale)
  {
    assert Zeros(b) + Zeros(scale - |t| - b) == Zeros(scale - |t|);
    assert t + Zeros(b) + Zeros(scale - |t| - b) == t + Zeros(scale - |t|);
  }

  lemma PaddedWhole(s: string, scale: nat, a: nat, b: nat, w: nat)
    requires AllDigits(Zeros(a) + Decimal(w)) && Value(Zeros(a) + Decimal(w)) == w && '.' !in Zeros(a) + Decimal(w)
    requires s == Zeros(a) + (Decimal(w) + "") + (if b == 0 then "" else "." + Zeros(b)) && |Fraction(s)| <= scale
    ensures Shaped(s) && Minor(s, scale) == Together(w, Pow10(scale), 0)
  {
    hide Value, Decimal, Together, Pow10, PadRight;
    PadNothing(scale);
    if b == 0 {
      assert s == Zeros(a) + Decimal(w);
      SplitNone(Zeros(a) + Decimal(w));
    } else {
      assert s == (Zeros(a) + Decimal(w)) + "." + Zeros(b);
      SplitPoint(Zeros(a) + Decimal(w), Zeros(b));
      PadTwice("", b, scale);
      assert "" + Zeros(b) == Zeros(b);
    }
  }

  /** The accepted texts of an amount are exactly its padded forms within the limits. */
  lemma AmountIff(s: string, scale: nat, minor: nat)
    requires 0 < minor <= 9223372036854775807 && scale <= 18
    ensures Amount(s, scale) == Some(minor) <==>
            |s| <= 80 && |Fraction(s)| <= scale && PaddedForm(s, Display(minor, scale))
  {
    hide PaddedForm, Display;
    if Amount(s, scale) == Some(minor) {
      AcceptedForm(s, scale, minor);
    } else if |s| <= MAX_TEXT && |Fraction(s)| <= scale && PaddedForm(s, Display(minor, scale)) {
      PaddedAccepted(s, scale, minor);
    }
  }

  /** The printed text is the one shortest text that the parser reads as that amount. */
  lemma DisplayShortest(s: string, scale: nat, minor: nat)
    requires Amount(s, scale) == Some(minor)
    ensures Amount(Display(minor, scale), scale) == Some(minor)
    ensures |Display(minor, scale)| <= |s| && (|s| == |Display(minor, scale)| ==> s == Display(minor, scale))
  {
    AmountOfDisplay(minor, scale);
    AcceptedForm(s, scale, minor);
    var text := Display(minor, scale);
    hide Display, Amount;
    var a: nat, b: nat :| s == Zeros(a) + text + (if '.' in text then Zeros(b) else if b == 0 then "" else "." + Zeros(b));
    if |s| == |text| {
      assert a == 0 && s == Zeros(0) + text + "";
    }
  }

  /** A negative balance is printed with a sign that the parser does not take. */
  lemma NegativeRefused(minor: int, scale: nat)
    requires minor > 0
    ensures Display(-minor, scale) == "-" + Display(minor, scale) && Amount(Display(-minor, scale), scale) == None
  {
    var s := Display(-minor, scale);
    assert s[0] == '-' && Whole(s)[0] == '-';
    assert !IsDigit('-') && Whole(s)[0] in Whole(s);
  }

  /** What the parser can return at all. */
  lemma AmountRange(s: string, scale: int)
    requires Amount(s, scale).Some?
    ensures 0 < Amount(s, scale).value <= 9223372036854775807 && 0 <= scale <= 18 && 1 <= |s| <= 80
    ensures forall c <- s :: '0' <= c <= '9' || c == '.'
  {
    JoinPoint(s);
    var w, f := Whole(s), Fraction(s);
    assert forall c <- w :: IsDigit(c);
    assert forall c <- f :: IsDigit(c);
  }
}
