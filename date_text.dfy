/**
 * Decimal text: Kotlin's `"$n"` string templates, Java's `%0Nd` formatting,
 * `String.toInt()`, and the strict reading of `dd/MM/yyyy` date strings.
 * Digits are ASCII.
 */
module DateText {
  import opened Wrappers
  import opened CivilTime

  predicate IsDigit(c: char) { '0' <= c <= '9' }

  predicate AllDigits(s: string) { forall i :: 0 <= i < |s| ==> IsDigit(s[i]) }

  function DigitChar(n: int): (c: char)
    requires 0 <= n <= 9
    ensures IsDigit(c)
  {
    ('0' as int + n) as char
  }

  function DigitValue(c: char): (n: int)
    requires IsDigit(c)
    ensures 0 <= n <= 9 && DigitChar(n) == c
  {
    c as int - '0' as int
  }

  function Pow10(k: nat): (p: nat)
    ensures p >= 1
  {
    if k == 0 then 1 else 10 * Pow10(k - 1)
  }

  /** The shortest decimal spelling of `n` ("0" for zero). */
  function NatDigits(n: nat): (s: string)
    ensures |s| >= 1 && AllDigits(s)
    decreases n
  {
    if n < 10 then [DigitChar(n)] else NatDigits(n / 10) + [DigitChar(n % 10)]
  }

  /** The number a string of digits spells, most significant first. */
  function DigitsValue(s: string): (n: nat)
    requires AllDigits(s)
    ensures n < Pow10(|s|)
  {
    if s == [] then 0 else 10 * DigitsValue(s[..|s| - 1]) + DigitValue(s[|s| - 1])
  }

  /** `%0wd` of a non-negative number: zeros on the left up to width `w`, never truncated. */
  function ZeroPad(n: nat, w: nat): (s: string)
    ensures AllDigits(s)
  {
    var digits := NatDigits(n);
    Zeros(w - |digits|) + digits
  }

  function Zeros(k: int): (s: string)
    ensures |s| == (if k > 0 then k else 0)
    ensures forall i :: 0 <= i < |s| ==> s[i] == '0'
    decreases k
  {
    if k <= 0 then [] else Zeros(k - 1) + ['0']
  }

  /**
   * Java's `String.format("%0wd", n)`: the sign counts toward the width. A
   * non-negative number is written in digits only, at least `w` of them (the
   * exact width is `ZeroPadRoundTrip`); a negative one starts with '-'.
   */
  function FormatPadded(n: int, w: nat): (s: string)
    ensures n >= 0 ==> AllDigits(s) && |s| >= w
    ensures n < 0 ==> |s| >= 1 && s[0] == '-'
  {
    if n < 0 then "-" + ZeroPad(-n, if w > 0 then w - 1 else 0) else ZeroPad(n, w)
  }

  /** Kotlin's `"$n"` for an `Int`: a '-' exactly for a negative number, then its digits. */
  function IntToString(n: int): (s: string)
    ensures |s| >= 1
    ensures s[0] == '-' <==> n < 0
    ensures n >= 0 ==> AllDigits(s)
    ensures n < 0 ==> AllDigits(s[1..])
  {
    if n < 0 then "-" + NatDigits(-n) else NatDigits(n)
  }

  // --- facts about spelling numbers -------------------------------------

  lemma {:induction false} DigitsValueSnoc(s: string, c: char)
    requires AllDigits(s) && IsDigit(c)
    ensures AllDigits(s + [c]) && DigitsValue(s + [c]) == 10 * DigitsValue(s) + DigitValue(c)
  {
    assert (s + [c])[..|s + [c]| - 1] == s;
  }

  /** Reading back the shortest spelling of `n` gives `n`. */
  lemma {:induction false} NatDigitsRoundTrip(n: nat)
    ensures DigitsValue(NatDigits(n)) == n
    decreases n
  {
    if n < 10 {
      assert NatDigits(n)[..0] == [];
    } else {
      NatDigitsRoundTrip(n / 10);
      DigitsValueSnoc(NatDigits(n / 10), DigitChar(n % 10));
    }
  }

  /** A number below 10^w needs at most `w` digits (and always one). */
  lemma {:induction false} NatDigitsLength(n: nat, w: nat)
    requires n < Pow10(w)
    ensures |NatDigits(n)| <= (if w == 0 then 1 else w)
    decreases n
  {
    if n >= 10 {
      assert w >= 2;
      NatDigitsLength(n / 10, w - 1);
    }
  }

  /** Leading zeros do not change the value. */
  lemma {:induction false} LeadingZeros(k: int, s: string)
    requires AllDigits(s)
    ensures AllDigits(Zeros(k) + s) && DigitsValue(Zeros(k) + s) == DigitsValue(s)
    decreases |s|
  {
    if s == [] {
      ZerosValue(k);
      assert Zeros(k) + s == Zeros(k);
    } else {
      var init, last := s[..|s| - 1], s[|s| - 1];
      LeadingZeros(k, init);
      assert Zeros(k) + s == (Zeros(k) + init) + [last];
      assert s == init + [last];
      DigitsValueSnoc(Zeros(k) + init, last);
      DigitsValueSnoc(init, last);
    }
  }

  lemma {:induction false} ZerosValue(k: int)
    ensures AllDigits(Zeros(k)) && DigitsValue(Zeros(k)) == 0
    decreases k
  {
    if k > 0 {
      ZerosValue(k - 1);
      DigitsValueSnoc(Zeros(k - 1), '0');
    }
  }

  /** `%0wd` of a number below 10^w is exactly `w` digits that read back as the number. */
  lemma ZeroPadRoundTrip(n: nat, w: nat)
    requires 1 <= w && n < Pow10(w)
    ensures |ZeroPad(n, w)| == w && DigitsValue(ZeroPad(n, w)) == n
  {
    ZeroPadLength(n, w);
    ZeroPadValue(n, w);
  }

  lemma ZeroPadLength(n: nat, w: nat)
    requires 1 <= w && n < Pow10(w)
    ensures |ZeroPad(n, w)| == w
  {
    NatDigitsLength(n, w);
  }

  /** Padding never changes the value, whatever the width. */
  lemma ZeroPadValue(n: nat, w: nat)
    ensures DigitsValue(ZeroPad(n, w)) == n
  {
    NatDigitsRoundTrip(n);
    LeadingZeros(w - |NatDigits(n)|, NatDigits(n));
  }

  // --- String.toInt() ----------------------------------------------------

  /**
   * Kotlin's `String.toInt()`: an optional `+` or `-`, then at least one
   * digit, and a value that fits an `Int`; anything else throws
   * `NumberFormatException`, here `None`.
   */
  function ParseInt(s: string): (r: Option<Int32>)
    ensures r.Some? ==> |s| >= 1 && (IsDigit(s[0]) || (|s| >= 2 && (s[0] == '-' || s[0] == '+')))
    ensures r.Some? ==> forall i :: 1 <= i < |s| ==> IsDigit(s[i])
    ensures r.Some? && r.value < 0 ==> s[0] == '-'
    ensures |s| >= 1 && AllDigits(s) && DigitsValue(s) <= INT32_MAX ==> r == Some(DigitsValue(s))
  {
    if |s| == 0 then None
    else
      var negative := s[0] == '-';
      var unsigned := if s[0] == '-' || s[0] == '+' then s[1..] else s;
      if |unsigned| == 0 || !AllDigits(unsigned) then None
      else
        var magnitude: int := DigitsValue(unsigned);
        var v := if negative then 0 - magnitude else magnitude;
        if IsInt32(v) then Some(v) else None
  }

  /** Reading back the template spelling of an `Int` gives it back. */
  lemma IntToStringRoundTrip(n: Int32)
    ensures ParseInt(IntToString(n)) == Some(n)
  {
    if n < 0 {
      var m: int := 0 - n as int;
      NatDigitsRoundTrip(m);
      assert IntToString(n)[1..] == NatDigits(m);
    } else {
      NatDigitsRoundTrip(n);
      assert NatDigits(n)[0] != '-';
    }
  }

  /** A string with a character that is neither a digit nor a leading sign is refused. */
  lemma ParseIntRejectsNonDigit(s: string, i: int)
    requires 0 <= i < |s| && !IsDigit(s[i]) && !(i == 0 && (s[0] == '-' || s[0] == '+'))
    ensures ParseInt(s) == None
  {
    if s[0] == '-' || s[0] == '+' {
      assert s[1..][i - 1] == s[i];
    }
  }

  // --- dd/MM/yyyy ----------------------------------------------------------

  /** The number two digits spell. */
  function Number2(a: char, b: char): nat
    requires IsDigit(a) && IsDigit(b)
  {
    10 * DigitValue(a) + DigitValue(b)
  }

  /** The number four digits spell. */
  function Number4(a: char, b: char, c: char, d: char): nat
    requires IsDigit(a) && IsDigit(b) && IsDigit(c) && IsDigit(d)
  {
    100 * Number2(a, b) + Number2(c, d)
  }

  /**
   * Strict `dd/MM/yyyy`: two digits, '/', two digits, '/', four digits, and
   * the numbers must name a real date.
   */
  function ParseDate(s: string): (r: Option<CivilDate>)
    ensures r.Some? ==> ValidDate(r.value) && |s| == 10 && s[2] == '/' && s[5] == '/'
  {
    if |s| == 10 && s[2] == '/' && s[5] == '/'
       && IsDigit(s[0]) && IsDigit(s[1]) && IsDigit(s[3]) && IsDigit(s[4])
       && IsDigit(s[6]) && IsDigit(s[7]) && IsDigit(s[8]) && IsDigit(s[9])
    then
      var date := CivilDate(Number4(s[6], s[7], s[8], s[9]), Number2(s[3], s[4]), Number2(s[0], s[1]));
      if ValidDate(date) then Some(date) else None
    else None
  }

  /** The `dd/MM/yyyy` spelling of a date: ten characters for every valid one. */
  function FormatDate(d: CivilDate): (s: string)
    ensures ValidDate(d) ==> |s| == 10 && s[2] == '/' && s[5] == '/'
  {
    FormatDateFields(d);
    FormatPadded(d.day, 2) + "/" + FormatPadded(d.month, 2) + "/" + FormatPadded(d.year, 4)
  }

  /** The three fields of a valid date take two, two and four characters. */
  lemma FormatDateFields(d: CivilDate)
    ensures ValidDate(d) ==>
      |FormatPadded(d.day, 2)| == 2 && |FormatPadded(d.month, 2)| == 2 && |FormatPadded(d.year, 4)| == 4
  {
    if ValidDate(d) {
      assert Pow10(2) == 100 && Pow10(4) == 10_000;
      ZeroPadRoundTrip(d.day, 2);
      ZeroPadRoundTrip(d.month, 2);
      ZeroPadRoundTrip(d.year, 4);
    }
  }

  lemma DigitsValue2(t: string)
    requires |t| == 2 && AllDigits(t)
    ensures DigitsValue(t) == Number2(t[0], t[1])
  {
    assert t[..1][..0] == [];
  }

  lemma DigitsValue4(t: string)
    requires |t| == 4 && AllDigits(t)
    ensures DigitsValue(t) == Number4(t[0], t[1], t[2], t[3])
  {
    var t3, t2 := t[..3], t[..2];
    assert t3[..2] == t2;
    DigitsValue2(t2);
    assert DigitsValue(t3) == 10 * DigitsValue(t2) + DigitValue(t[2]);
    assert DigitsValue(t) == 10 * DigitsValue(t3) + DigitValue(t[3]);
  }

  /** Formatting a valid date and parsing it back is lossless. */
  lemma FormatParseRoundTrip(d: CivilDate)
    requires ValidDate(d)
    ensures |FormatDate(d)| == 10
    ensures ParseDate(FormatDate(d)) == Some(d)
  {
    var dd, mm, yyyy := ZeroPad(d.day, 2), ZeroPad(d.month, 2), ZeroPad(d.year, 4);
    assert |dd| == 2 && AllDigits(dd) && Number2(dd[0], dd[1]) == d.day by {
      ZeroPadRoundTrip(d.day, 2);
      DigitsValue2(dd);
    }
    assert |mm| == 2 && AllDigits(mm) && Number2(mm[0], mm[1]) == d.month by {
      ZeroPadRoundTrip(d.month, 2);
      DigitsValue2(mm);
    }
    assert |yyyy| == 4 && AllDigits(yyyy) && Number4(yyyy[0], yyyy[1], yyyy[2], yyyy[3]) == d.year by {
      ZeroPadRoundTrip(d.year, 4);
      DigitsValue4(yyyy);
    }
    assert FormatDate(d) == dd + "/" + mm + "/" + yyyy;
    ParseJoined(dd, mm, yyyy);
  }

  /** The parser reads two, two and four digits joined by slashes as day, month and year. */
  lemma ParseJoined(dd: string, mm: string, yyyy: string)
    requires |dd| == 2 && AllDigits(dd) && |mm| == 2 && AllDigits(mm) && |yyyy| == 4 && AllDigits(yyyy)
    ensures var date := CivilDate(Number4(yyyy[0], yyyy[1], yyyy[2], yyyy[3]), Number2(mm[0], mm[1]), Number2(dd[0], dd[1]));
      |dd + "/" + mm + "/" + yyyy| == 10
      && ParseDate(dd + "/" + mm + "/" + yyyy) == if ValidDate(date) then Some(date) else None
  {
    var s := dd + "/" + mm + "/" + yyyy;
    assert s[0] == dd[0] && s[1] == dd[1] && s[2] == '/' && s[3] == mm[0] && s[4] == mm[1] && s[5] == '/';
    assert s[6] == yyyy[0] && s[7] == yyyy[1] && s[8] == yyyy[2] && s[9] == yyyy[3];
  }

  /** Every string the parser accepts is the spelling of the date it yields. */
  lemma ParseFormatRoundTrip(s: string)
    requires ParseDate(s).Some?
    ensures FormatDate(ParseDate(s).value) == s
  {
    var dd, mm, yyyy := s[0..2], s[3..5], s[6..10];
    ParsedPieces(s);
    var d := ParseDate(s).value;
    assert FormatPadded(d.day, 2) == dd by { Spelling2(dd); }
    assert FormatPadded(d.month, 2) == mm by { Spelling2(mm); }
    assert FormatPadded(d.year, 4) == yyyy by { Spelling4(yyyy); }
  }

  /** An accepted string is two, two and four digits joined by slashes, read as day, month and year. */
  lemma ParsedPieces(s: string)
    requires ParseDate(s).Some?
    ensures var dd, mm, yyyy := s[0..2], s[3..5], s[6..10];
      && s == dd + "/" + mm + "/" + yyyy
      && |dd| == 2 && AllDigits(dd) && |mm| == 2 && AllDigits(mm) && |yyyy| == 4 && AllDigits(yyyy)
      && ParseDate(s).value == CivilDate(Number4(yyyy[0], yyyy[1], yyyy[2], yyyy[3]), Number2(mm[0], mm[1]), Number2(dd[0], dd[1]))
  {
    var dd, mm, yyyy := s[0..2], s[3..5], s[6..10];
    assert s == dd + "/" + mm + "/" + yyyy;
  }

  lemma Spelling2(t: string)
    requires |t| == 2 && AllDigits(t)
    ensures ZeroPad(Number2(t[0], t[1]), 2) == t
  {
    DigitsValue2(t);
    ZeroPadRoundTrip(DigitsValue(t), 2);
    SameWidthSameValue(ZeroPad(DigitsValue(t), 2), t);
  }

  lemma Spelling4(t: string)
    requires |t| == 4 && AllDigits(t)
    ensures ZeroPad(Number4(t[0], t[1], t[2], t[3]), 4) == t
  {
    DigitsValue4(t);
    ZeroPadRoundTrip(DigitsValue(t), 4);
    SameWidthSameValue(ZeroPad(DigitsValue(t), 4), t);
  }

  lemma DecimalDigitUnique(x: int, p: int, y: int, q: int)
    requires 0 <= p <= 9 && 0 <= q <= 9 && 10 * x + p == 10 * y + q
    ensures x == y && p == q
  {
  }

  /** Two digit strings of one width with one value are the same string. */
  lemma {:induction false} SameWidthSameValue(a: string, b: string)
    requires |a| == |b| && AllDigits(a) && AllDigits(b) && DigitsValue(a) == DigitsValue(b)
    ensures a == b
    decreases |a|
  {
    if a != [] {
      var n := |a| - 1;
      var x, y := DigitsValue(a[..n]), DigitsValue(b[..n]);
      var p, q := DigitValue(a[n]), DigitValue(b[n]);
      assert 10 * x + p == 10 * y + q;
      DecimalDigitUnique(x, p, y, q);
      SameWidthSameValue(a[..n], b[..n]);
      assert DigitChar(p) == a[n] && DigitChar(q) == b[n];
      assert a == a[..n] + [a[n]] && b == b[..n] + [b[n]];
    }
  }
}
