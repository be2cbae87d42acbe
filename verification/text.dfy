/** The string handling the cleaning steps perform: digit runs, decimal
    numbers, the `$`/`,` currency format, and Python's `str.title`.
    Characters are handled as ASCII; see the README for what that leaves out. */
module Text {
  import opened Values

  predicate IsDigit(c: char)
  {
    '0' <= c <= '9'
  }

  predicate AllDigits(s: string)
  {
    forall i :: 0 <= i < |s| ==> IsDigit(s[i])
  }

  function DigitValue(c: char): nat
    requires IsDigit(c)
  {
    c as int - '0' as int
  }

  function DigitChar(d: nat): (c: char)
    requires d < 10
    ensures IsDigit(c) && DigitValue(c) == d
  {
    ('0' as int + d) as char
  }

  function Pow10(n: nat): (p: nat)
    ensures p >= 1
  {
    if n == 0 then 1 else 10 * Pow10(n - 1)
  }

  /** The value of a string of decimal digits, most significant first. */
  function ParseDigits(s: string): nat
    requires AllDigits(s)
  {
    if |s| == 0 then 0 else ParseDigits(s[..|s|-1]) * 10 + DigitValue(s[|s|-1])
  }

  /** Reading `a + b` shifts `a` left by the length of `b`. */
  lemma {:induction false} ParseDigitsAppend(a: string, b: string)
    requires AllDigits(a) && AllDigits(b)
    ensures AllDigits(a + b)
    ensures ParseDigits(a + b) == ParseDigits(a) * Pow10(|b|) + ParseDigits(b)
    decreases |b|
  {
    assert AllDigits(a + b) by {
      forall i | 0 <= i < |a + b| ensures IsDigit((a + b)[i]) {
        if i >= |a| {
          assert (a + b)[i] == b[i - |a|];
        }
      }
    }
    if |b| == 0 {
      assert a + b == a;
    } else {
      var b' := b[..|b|-1];
      assert (a + b)[..|a + b| - 1] == a + b';
      ParseDigitsAppend(a, b');
      var x, p, y, d := ParseDigits(a), Pow10(|b'|), ParseDigits(b'), DigitValue(b[|b|-1]);
      assert ParseDigits(a + b) == (x * p + y) * 10 + d;
      assert Pow10(|b|) == p * 10;
      ShiftDigit(x, p, y, d);
    }
  }

  lemma ShiftDigit(x: int, p: int, y: int, d: int)
    ensures (x * p + y) * 10 + d == x * (p * 10) + (y * 10 + d)
  {
  }

  /** The shortest decimal spelling of `n` (Python's `str(n)`). */
  function Digits(n: nat): (s: string)
    ensures |s| >= 1 && AllDigits(s)
    ensures ParseDigits(s) == n
  {
    if n < 10 then [DigitChar(n)]
    else
      var s := Digits(n / 10) + [DigitChar(n % 10)];
      assert s[..|s|-1] == Digits(n / 10);
      s
  }

  /** `n` spelt with exactly `width` digits, zero-padded on the left. */
  function PadDigits(n: nat, width: nat): (s: string)
    requires n < Pow10(width)
    ensures |s| == width && AllDigits(s)
    ensures ParseDigits(s) == n
  {
    if width == 0 then []
    else
      var s := PadDigits(n / 10, width - 1) + [DigitChar(n % 10)];
      assert s[..|s|-1] == PadDigits(n / 10, width - 1);
      s
  }

  /** A string of digits is the zero-padded spelling of its own value. */
  lemma {:induction false} PaddedSpelling(t: string)
    requires AllDigits(t)
    ensures ParseDigits(t) < Pow10(|t|)
    ensures PadDigits(ParseDigits(t), |t|) == t
    decreases |t|
  {
    if |t| > 0 {
      var init, c := t[..|t|-1], t[|t|-1];
      assert AllDigits(init);
      PaddedSpelling(init);
      var n := ParseDigits(t);
      assert n == ParseDigits(init) * 10 + DigitValue(c);
      assert n / 10 == ParseDigits(init) && n % 10 == DigitValue(c);
      assert DigitChar(DigitValue(c)) == c;
      assert t == init + [c];
    }
  }

  /** A spelling is determined by its value: distinct numbers have distinct spellings. */
  lemma DigitsInjective(m: nat, n: nat)
    requires Digits(m) == Digits(n)
    ensures m == n
  {
    assert ParseDigits(Digits(m)) == m;
  }

  // ---------------------------------------------------------------------
  // The first run of digits (`str.extract(r'(\d+)')`).

  /** Length of the longest prefix of `s` made of digits. */
  function LeadingDigitCount(s: string): (n: nat)
    ensures n <= |s|
    ensures forall k :: 0 <= k < n ==> IsDigit(s[k])
    ensures n == |s| || !IsDigit(s[n])
  {
    if |s| == 0 || !IsDigit(s[0]) then 0 else 1 + LeadingDigitCount(s[1..])
  }

  function FirstRunFrom(s: string, i: nat): (span: Option<(nat, nat)>)
    requires i <= |s|
    decreases |s| - i
    ensures span.None? <==> forall k :: i <= k < |s| ==> !IsDigit(s[k])
    ensures span.Some? ==>
      && i <= span.value.0 < span.value.1 <= |s|
      && (forall k :: i <= k < span.value.0 ==> !IsDigit(s[k]))
      && (forall k :: span.value.0 <= k < span.value.1 ==> IsDigit(s[k]))
      && (span.value.1 == |s| || !IsDigit(s[span.value.1]))
  {
    if i == |s| then None
    else if IsDigit(s[i]) then
      var n := LeadingDigitCount(s[i..]);
      assert forall k :: i <= k < i + n ==> s[k] == s[i..][k - i];
      Some((i, i + n))
    else FirstRunFrom(s, i + 1)
  }

  /** The span `[start, end)` of the leftmost maximal run of digits in `s`:
      nothing before it is a digit, everything in it is, and it cannot be
      extended to the right. Absent exactly when `s` holds no digit. */
  function FirstRun(s: string): (span: Option<(nat, nat)>)
    ensures span.None? <==> forall k :: 0 <= k < |s| ==> !IsDigit(s[k])
    ensures span.Some? ==>
      && span.value.0 < span.value.1 <= |s|
      && (forall k :: 0 <= k < span.value.0 ==> !IsDigit(s[k]))
      && (forall k :: span.value.0 <= k < span.value.1 ==> IsDigit(s[k]))
      && (span.value.1 == |s| || !IsDigit(s[span.value.1]))
  {
    FirstRunFrom(s, 0)
  }

  /** `s[i..j]` is the leftmost maximal run of digits in `s`. */
  predicate IsFirstRun(s: string, i: int, j: int)
  {
    && 0 <= i < j <= |s|
    && (forall k :: 0 <= k < i ==> !IsDigit(s[k]))
    && AllDigits(s[i..j])
    && (j == |s| || !IsDigit(s[j]))
  }

  /** The number the regular expression `(\d+)` extracts from `s`: the value
      of its first maximal digit run, or absent when `s` holds no digit. */
  function ExtractNumber(s: string): (r: Option<nat>)
    ensures r.None? <==> forall k :: 0 <= k < |s| ==> !IsDigit(s[k])
    ensures r.Some? ==> exists i, j :: 0 <= i < j <= |s| && AllDigits(s[i..j]) && r.value == ParseDigits(s[i..j])
    ensures r.Some? ==> exists i, j :: IsFirstRun(s, i, j) && r.value == ParseDigits(s[i..j])
  {
    match FirstRun(s)
    case None => None
    case Some((i, j)) =>
      assert AllDigits(s[i..j]) by {
        forall k | 0 <= k < j - i ensures IsDigit(s[i..j][k]) {
          assert s[i..j][k] == s[i + k];
        }
      }
      Some(ParseDigits(s[i..j]))
  }

  /** The first digit run is found wherever it sits: a digit-free prefix, the
      run, and a remainder that does not continue it. */
  lemma ExtractNumberSplit(pre: string, run: string, post: string)
    requires forall k :: 0 <= k < |pre| ==> !IsDigit(pre[k])
    requires |run| > 0 && AllDigits(run)
    requires |post| == 0 || !IsDigit(post[0])
    ensures ExtractNumber(pre + run + post) == Some(ParseDigits(run))
  {
    var s := pre + run + post;
    assert s[|pre|] == run[0];
    var span := FirstRun(s);
    var i, j := span.value.0, span.value.1;
    assert forall k :: 0 <= k < |pre| ==> !IsDigit(s[k]) by {
      assert forall k :: 0 <= k < |pre| ==> s[k] == pre[k];
    }
    assert forall k :: |pre| <= k < |pre| + |run| ==> IsDigit(s[k]) by {
      assert forall k :: |pre| <= k < |pre| + |run| ==> s[k] == run[k - |pre|];
    }
    assert |post| > 0 ==> !IsDigit(s[|pre| + |run|]) by {
      if |post| > 0 { assert s[|pre| + |run|] == post[0]; }
    }
    assert IsDigit(s[|pre|]);
    assert span.Some?;
    assert IsDigit(s[i]);
    assert i == |pre|;
    assert j == |pre| + |run|;
    assert s[i..j] == run;
  }

  // ---------------------------------------------------------------------
  // Character removal (`str.replace(c, '')`) and decimal numbers.

  /** `s` with every occurrence of `c` removed. */
  function Drop(s: string, c: char): (r: string)
    ensures |r| <= |s|
    ensures c !in r
  {
    if |s| == 0 then []
    else
      var rest := Drop(s[1..], c);
      if s[0] == c then rest else [s[0]] + rest
  }

  lemma {:induction false} DropAppend(a: string, b: string, c: char)
    ensures Drop(a + b, c) == Drop(a, c) + Drop(b, c)
    decreases |a|
  {
    if |a| == 0 {
      assert a + b == b;
    } else {
      assert (a + b)[1..] == a[1..] + b;
      DropAppend(a[1..], b, c);
    }
  }

  /** A string without `c` is left as it is. */
  lemma {:induction false} DropAbsent(s: string, c: char)
    requires c !in s
    ensures Drop(s, c) == s
    decreases |s|
  {
    if |s| > 0 {
      DropAbsent(s[1..], c);
      assert s == [s[0]] + s[1..];
    }
  }

  /** The cost clean-up: every `$` removed, then every `,`. */
  function StripCurrency(s: string): (r: string)
    ensures ',' !in r
  {
    Drop(Drop(s, '$'), ',')
  }

  lemma StripAppend(a: string, b: string)
    ensures StripCurrency(a + b) == StripCurrency(a) + StripCurrency(b)
  {
    DropAppend(a, b, '$');
    DropAppend(Drop(a, '$'), Drop(b, '$'), ',');
  }

  /** Strings with neither `$` nor `,` (digits, `.`, `-`) pass through unchanged. */
  lemma StripClean(s: string)
    requires '$' !in s && ',' !in s
    ensures StripCurrency(s) == s
  {
    DropAbsent(s, '$');
    DropAbsent(s, ',');
  }

  /** Position of the first `c` in `s`. */
  function IndexOf(s: string, c: char): (r: Option<nat>)
    ensures r.None? <==> c !in s
    ensures r.Some? ==> r.value < |s| && s[r.value] == c && c !in s[..r.value]
  {
    if |s| == 0 then None
    else if s[0] == c then Some(0)
    else
      match IndexOf(s[1..], c)
      case None => None
      case Some(i) =>
        assert s[..i + 1] == [s[0]] + s[1..][..i];
        Some(i + 1)
  }

  /** The first `c` is found right after a prefix free of `c`. */
  lemma {:induction false} IndexOfFirst(a: string, c: char, b: string)
    requires c !in a
    ensures IndexOf(a + [c] + b, c) == Some(|a|)
    decreases |a|
  {
    if |a| > 0 {
      assert (a + [c] + b)[1..] == a[1..] + [c] + b;
      IndexOfFirst(a[1..], c, b);
    }
  }

  /** A number without sign: digits, optionally a `.` and more digits, with at
      least one digit in all. */
  function ParseUnsigned(s: string): (r: Option<real>)
    ensures r.Some? ==> r.value >= 0.0
  {
    match IndexOf(s, '.')
    case None =>
      if |s| > 0 && AllDigits(s) then Some(ParseDigits(s) as real) else None
    case Some(i) => Pointed(s[..i], s[i + 1..])
  }

  /** The value of the digits `f` read after a decimal point: `0.f`. */
  function FractionValue(f: string): (v: real)
    requires AllDigits(f)
    ensures 0.0 <= v < 1.0
  {
    if |f| == 0 then 0.0 else (DigitValue(f[0]) as real + FractionValue(f[1..])) / 10.0
  }

  /** The value of `whole.frac`; at least one of the two parts must hold a digit. */
  function Pointed(whole: string, frac: string): (r: Option<real>)
    ensures r.Some? ==> r.value >= 0.0
  {
    if AllDigits(whole) && AllDigits(frac) && |whole| + |frac| > 0
    then Some(ParseDigits(whole) as real + FractionValue(frac))
    else None
  }

  /** `float(s)` on plain decimal notation: an optional sign, then an unsigned
      number. Anything else is a parse error (Python raises `ValueError`). */
  function ParseDecimal(s: string): (r: Option<real>)
    ensures |s| == 0 ==> r.None?
    ensures |s| > 0 && AllDigits(s) ==> r == Some(ParseDigits(s) as real)
    ensures |s| > 1 && s[0] == '-' && AllDigits(s[1..]) ==> r == Some(-(ParseDigits(s[1..]) as real))
    ensures |s| > 1 && s[0] == '+' && AllDigits(s[1..]) ==> r == Some(ParseDigits(s[1..]) as real)
    ensures r.Some? && r.value < 0.0 ==> s[0] == '-'
  {
    UnsignedDigits(s);
    if |s| > 0 && s[0] == '-' then
      UnsignedDigits(s[1..]);
      match ParseUnsigned(s[1..])
      case Some(v) => Some(-v)
      case None => None
    else if |s| > 0 && s[0] == '+' then
      UnsignedDigits(s[1..]);
      ParseUnsigned(s[1..])
    else ParseUnsigned(s)
  }

  /** Digits without a point read as a whole number. */
  lemma UnsignedDigits(u: string)
    ensures |u| > 0 && AllDigits(u) ==> ParseUnsigned(u) == Some(ParseDigits(u) as real)
  {
    if |u| > 0 && AllDigits(u) {
      NoSeparators(u);
    }
  }

  /** Plain digit strings read back as their value. */
  lemma ParseDecimalDigits(s: string)
    requires |s| > 0 && AllDigits(s)
    ensures ParseDecimal(s) == Some(ParseDigits(s) as real)
  {
    NoSeparators(s);
  }

  // ---------------------------------------------------------------------
  // The currency format `"${:,.2f}"` and its inverse.

  /** Digits grouped in threes with `,` separators (the `,` format option). */
  function Grouped(n: nat): string
  {
    if n < 1000 then Digits(n) else Grouped(n / 1000) + "," + PadDigits(n % 1000, 3)
  }

  /** `"${:,.2f}".format(cents / 100)`: a dollar sign, a minus for negative
      amounts, the grouped whole part, and two decimals. */
  function FormatCurrency(cents: int): string
  {
    "$" + SignOf(cents) + Amount(if cents < 0 then -cents else cents)
  }

  function SignOf(cents: int): string
  {
    if cents < 0 then "-" else ""
  }

  /** A non-negative number of cents as grouped dollars, a point and two decimals. */
  function Amount(a: nat): string
  {
    Grouped(a / 100) + "." + PadDigits(a % 100, 2)
  }

  lemma NoSeparators(s: string)
    requires AllDigits(s)
    ensures '$' !in s && ',' !in s && '.' !in s && '-' !in s
  {
    forall k | 0 <= k < |s| ensures s[k] != '$' && s[k] != ',' && s[k] != '.' && s[k] != '-' {
      assert IsDigit(s[k]);
    }
  }

  /** A `,` separator disappears, digits after it stay. */
  lemma StripSeparated(hi: string, lo: string)
    requires AllDigits(lo)
    ensures StripCurrency(hi + "," + lo) == StripCurrency(hi) + lo
  {
    StripAppend(hi + ",", lo);
    StripAppend(hi, ",");
    NoSeparators(lo);
    StripClean(lo);
    assert StripCurrency(",") == "";
  }

  /** Stripping the separators off a grouped number leaves plain digits that
      read back as the number. */
  lemma {:induction false} StripGrouped(n: nat)
    ensures AllDigits(StripCurrency(Grouped(n)))
    ensures |StripCurrency(Grouped(n))| > 0
    ensures ParseDigits(StripCurrency(Grouped(n))) == n
    decreases n
  {
    if n < 1000 {
      NoSeparators(Digits(n));
      StripClean(Digits(n));
    } else {
      var hi := Grouped(n / 1000);
      var lo := PadDigits(n % 1000, 3);
      assert Grouped(n) == hi + "," + lo;
      StripGrouped(n / 1000);
      StripSeparated(hi, lo);
      ParseDigitsAppend(StripCurrency(hi), lo);
      assert Pow10(3) == 1000;
    }
  }

  /** Stripping a formatted amount strips only its dollar part. */
  lemma StripFormatted(cents: int)
    ensures StripCurrency(FormatCurrency(cents))
         == SignOf(cents) + StripCurrency(Amount(if cents < 0 then -cents else cents))
  {
    var sign := SignOf(cents);
    StripClean(sign);
    assert StripCurrency("$") == "";
    StripAppend("$" + sign, Amount(if cents < 0 then -cents else cents));
    StripAppend("$", sign);
  }

  /** What stripping leaves of an amount: plain whole digits, the point and
      the two decimals. */
  lemma StripAmount(a: nat)
    ensures StripCurrency(Amount(a)) == StripCurrency(Grouped(a / 100)) + "." + PadDigits(a % 100, 2)
  {
    var whole := Grouped(a / 100);
    var frac := PadDigits(a % 100, 2);
    NoSeparators(frac);
    StripClean(frac);
    StripClean(".");
    StripAppend(whole + ".", frac);
    StripAppend(whole, ".");
  }

  /** `whole.frac` with digit parts splits at its point. */
  lemma ParsePointed(whole: string, frac: string)
    requires AllDigits(whole)
    ensures ParseUnsigned(whole + "." + frac) == Pointed(whole, frac)
  {
    var u := whole + "." + frac;
    NoSeparators(whole);
    IndexOfFirst(whole, '.', frac);
    assert u[..|whole|] == whole;
    assert u[|whole| + 1..] == frac;
  }

  /** The unsigned part of a formatted amount reads back as `a / 100`. */
  lemma UnsignedAmount(a: nat)
    ensures ParseUnsigned(StripCurrency(Grouped(a / 100)) + "." + PadDigits(a % 100, 2)) == Some(a as real / 100.0)
  {
    StripGrouped(a / 100);
    PointedAmount(StripCurrency(Grouped(a / 100)), PadDigits(a % 100, 2), a);
  }

  lemma PointedAmount(w: string, frac: string, a: nat)
    requires AllDigits(w) && AllDigits(frac) && |frac| == 2
    requires ParseDigits(w) == a / 100 && frac == PadDigits(a % 100, 2)
    ensures ParseUnsigned(w + "." + frac) == Some(a as real / 100.0)
  {
    ParsePointed(w, frac);
    Cents(a % 100);
    Hundredths(a);
  }

  /** Two decimals spell hundredths. */
  lemma Cents(r: nat)
    requires r < 100
    ensures FractionValue(PadDigits(r, 2)) == r as real / 100.0
  {
    var p := PadDigits(r, 2);
    assert p == [DigitChar(r / 10), DigitChar(r % 10)];
    assert p[1..] == [DigitChar(r % 10)];
    assert FractionValue(p[1..][1..]) == 0.0;
    assert (r / 10) as real * 10.0 + (r % 10) as real == r as real;
  }

  lemma Hundredths(a: nat)
    ensures (a / 100) as real + (a % 100) as real / 100.0 == a as real / 100.0
  {
    var q, r := a / 100, a % 100;
    assert a == 100 * q + r;
    assert a as real == 100.0 * q as real + r as real;
  }

  /** The cost clean-up inverts the currency format: stripping `$` and `,`
      from a formatted amount and reading it as a decimal gives the amount. */
  lemma CurrencyRoundTrip(cents: int)
    ensures ParseDecimal(StripCurrency(FormatCurrency(cents))) == Some(cents as real / 100.0)
  {
    var a: nat := if cents < 0 then -cents else cents;
    var t := StripCurrency(FormatCurrency(cents));
    var u := StripCurrency(Amount(a));
    assert t == SignOf(cents) + u by { StripFormatted(cents); }
    assert |u| > 0 && IsDigit(u[0]) && ParseUnsigned(u) == Some(a as real / 100.0) by { AmountDigits(a); }
    ReadSigned(cents, a, t, u);
  }

  /** A signed amount reads back as its value in cents over 100. */
  lemma ReadSigned(cents: int, a: nat, t: string, u: string)
    requires a == if cents < 0 then -cents else cents
    requires t == SignOf(cents) + u
    requires |u| > 0 && IsDigit(u[0])
    requires ParseUnsigned(u) == Some(a as real / 100.0)
    ensures ParseDecimal(t) == Some(cents as real / 100.0)
  {
    if cents < 0 {
      ReadNegative(cents, a, t, u);
    } else {
      assert t == u;
      assert t[0] != '-' && t[0] != '+';
      assert ParseDecimal(t) == ParseUnsigned(u);
    }
  }

  lemma ReadNegative(cents: int, a: nat, t: string, u: string)
    requires cents < 0 && a == -cents && t == "-" + u
    requires ParseUnsigned(u) == Some(a as real / 100.0)
    ensures ParseDecimal(t) == Some(cents as real / 100.0)
  {
    assert t[1..] == u;
  }

  /** The stripped amount starts with a digit and reads back as `a / 100`. */
  lemma AmountDigits(a: nat)
    ensures var u := StripCurrency(Amount(a));
      |u| > 0 && IsDigit(u[0]) && ParseUnsigned(u) == Some(a as real / 100.0)
  {
    var w := StripCurrency(Grouped(a / 100));
    var u := w + "." + PadDigits(a % 100, 2);
    StripAmount(a);
    StripGrouped(a / 100);
    UnsignedAmount(a);
    assert u[0] == w[0];
  }

  // ---------------------------------------------------------------------
  // Python's `str.title()`.

  predicate IsUpper(c: char) { 'A' <= c <= 'Z' }
  predicate IsLower(c: char) { 'a' <= c <= 'z' }

  /** Letters are the cased characters: they end a word's start. */
  predicate IsCased(c: char) { IsUpper(c) || IsLower(c) }

  function ToUpper(c: char): char
  {
    if IsLower(c) then (c as int - 32) as char else c
  }

  function ToLower(c: char): char
  {
    if IsUpper(c) then (c as int + 32) as char else c
  }

  function TitleFrom(s: string, afterCased: bool): (r: string)
    ensures |r| == |s|
  {
    if |s| == 0 then []
    else [if afterCased then ToLower(s[0]) else ToUpper(s[0])] + TitleFrom(s[1..], IsCased(s[0]))
  }

  /** `str.title()`: a cased character directly after another cased character
      is lower-cased, every other one upper-cased; the rest is left alone. */
  function TitleCase(s: string): (r: string)
    ensures |r| == |s|
    ensures forall k :: 0 <= k < |s| ==> r[k] == if k > 0 && IsCased(s[k - 1]) then ToLower(s[k]) else ToUpper(s[k])
  {
    forall k | 0 <= k < |s|
      ensures TitleFrom(s, false)[k] == if k > 0 && IsCased(s[k - 1]) then ToLower(s[k]) else ToUpper(s[k])
    {
      TitleFromAt(s, false, k);
    }
    TitleFrom(s, false)
  }

  /** Position `k` of a title-cased text depends only on the character before it. */
  lemma {:induction false} TitleFromAt(s: string, afterCased: bool, k: int)
    requires 0 <= k < |s|
    ensures TitleFrom(s, afterCased)[k] ==
      if (if k == 0 then afterCased else IsCased(s[k - 1])) then ToLower(s[k]) else ToUpper(s[k])
    decreases k
  {
    if k > 0 {
      TitleFromAt(s[1..], IsCased(s[0]), k - 1);
      if k > 1 {
        assert s[1..][k - 2] == s[k - 1];
      }
    }
  }

  /** Title-casing changes case only: every position keeps its letter-ness. */
  lemma {:induction false} TitleKeepsCasedness(s: string, afterCased: bool, k: int)
    requires 0 <= k < |s|
    ensures IsCased(TitleFrom(s, afterCased)[k]) == IsCased(s[k])
    ensures ToLower(TitleFrom(s, afterCased)[k]) == ToLower(s[k])
    decreases k
  {
    if k > 0 {
      TitleKeepsCasedness(s[1..], IsCased(s[0]), k - 1);
    }
  }

  lemma {:induction false} TitleFromIdempotent(s: string, afterCased: bool)
    ensures TitleFrom(TitleFrom(s, afterCased), afterCased) == TitleFrom(s, afterCased)
    decreases |s|
  {
    if |s| > 0 {
      var t := TitleFrom(s, afterCased);
      assert t[1..] == TitleFrom(s[1..], IsCased(s[0]));
      TitleFromIdempotent(s[1..], IsCased(s[0]));
      TitleKeepsCasedness(s, afterCased, 0);
    }
  }

  /** Title-casing twice is title-casing once. */
  lemma TitleCaseIdempotent(s: string)
    ensures TitleCase(TitleCase(s)) == TitleCase(s)
  {
    TitleFromIdempotent(s, false);
  }

  /** Title-casing changes nothing but letter case. */
  lemma TitleCaseOnlyCase(s: string)
    ensures forall k :: 0 <= k < |s| ==> ToLower(TitleCase(s)[k]) == ToLower(s[k])
  {
    forall k | 0 <= k < |s| ensures ToLower(TitleCase(s)[k]) == ToLower(s[k]) {
      TitleKeepsCasedness(s, false, k);
    }
  }
}
