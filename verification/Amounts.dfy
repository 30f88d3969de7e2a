/**
 Exact decimal printing of big integers: `formatTokenAmount` (react/src/utils.ts),
 `formatAtomicAmount` (sdk/src/utils.ts) and `stroopsToXlm` (react/src/hooks.ts),
 against a reader of decimal numerals.
 */
module Amounts {
  import opened Wrappers
  import opened Arithmetic

  // --- Numerals ---

  function DigitChar(d: nat): char
    requires d < 10
  {
    "0123456789"[d]
  }

  predicate IsDigit(c: char) {
    '0' <= c <= '9'
  }

  predicate AllDigits(s: string) {
    forall i :: 0 <= i < |s| ==> IsDigit(s[i])
  }

  /** The decimal numeral of a natural number. */
  function Digits(n: nat): (s: string)
    ensures s != "" && AllDigits(s)
  {
    if n < 10 then [DigitChar(n)] else Digits(n / 10) + [DigitChar(n % 10)]
  }

  function ToString(n: int): string {
    if n < 0 then "-" + Digits(-n) else Digits(n)
  }

  function Abs(n: int): nat {
    if n < 0 then -n else n
  }

  function Zeros(n: nat): (s: string)
    ensures |s| == n && forall i :: 0 <= i < n ==> s[i] == '0'
  {
    if n == 0 then "" else Zeros(n - 1) + "0"
  }

  function PadStart(s: string, length: nat): (r: string)
    ensures |r| == if |s| < length then length else |s|
  {
    if |s| < length then Zeros(length - |s|) + s else s
  }

  function TrimZeros(s: string): (r: string)
    ensures |r| <= |s| && r == s[..|r|]
  {
    if s != "" && s[|s| - 1] == '0' then TrimZeros(s[..|s| - 1]) else s
  }

  // --- The printers ---

  /** `decimals` is None when the token's precision is not known. */
  function FormatTokenAmount(amount: Option<int>, decimals: Option<int>, trim: bool, placeholder: string): string {
    if amount.None? then placeholder
    else if decimals.None? || decimals.value <= 0 then ToString(amount.value)
    else
      var (sign, whole, fraction) := Parts(amount.value, decimals.value);
      if !trim then sign + whole + "." + fraction
      else
        var trimmed := TrimZeros(fraction);
        if trimmed != "" then sign + whole + "." + trimmed else sign + whole
  }

  /** Sign, whole part and fraction of exactly `decimals` digits. */
  function Parts(amount: int, decimals: nat): (r: (string, string, string))
    ensures r.1 != "" && |r.2| == decimals
  {
    var padded := PadStart(Digits(Abs(amount)), decimals + 1);
    (if amount < 0 then "-" else "", padded[..|padded| - decimals], padded[|padded| - decimals..])
  }

  function FormatAtomicAmount(amount: int, decimals: int): Result<string, string> {
    if decimals < 0 then Failure("Decimals must be a non-negative integer")
    else
      var negative := amount < 0;
      var absolute := if negative then -amount else amount;
      var raw := Digits(absolute);
      if decimals == 0 then Success(if negative then "-" + raw else raw)
      else
        var padded := PadStart(raw, decimals + 1);
        var whole, fraction := padded[..|padded| - decimals], padded[|padded| - decimals..];
        Success((if negative then "-" else "") + whole + "." + fraction)
  }

  const STROOPS := 10_000_000

  function StroopsToXlm(stroops: int): string {
    JoinUnits(TruncDiv(stroops, STROOPS), TruncMod(stroops, STROOPS), 7)
  }

  /** Whole units and padded rest. */
  function JoinUnits(quotient: int, remainder: int, decimals: nat): string {
    ToString(quotient) + "." + PadStart(ToString(remainder), decimals)
  }

  // --- Reading a numeral ---

  function DigitValue(c: char): int {
    c as int - '0' as int
  }

  /** The value of a string of digits. */
  function Value(s: string): int {
    if s == "" then 0 else 10 * Value(s[..|s| - 1]) + DigitValue(s[|s| - 1])
  }

  function Pow10(n: nat): (p: nat)
    ensures 0 < p
  {
    if n == 0 then 1 else 10 * Pow10(n - 1)
  }

  /** A decimal numeral's digits as one integer, and how many of them follow the point. */
  datatype Numeral = Numeral(mantissa: int, scale: nat)

  /** The position of the first point, or the length if there is none. */
  function FindPoint(s: string): (i: nat)
    ensures i <= |s| && forall j :: 0 <= j < i ==> s[j] != '.'
    ensures i < |s| ==> s[i] == '.'
  {
    if s == "" || s[0] == '.' then 0 else 1 + FindPoint(s[1..])
  }

  /** A point needs digits on both sides. */
  function ReadParts(whole: string, fraction: string, pointed: bool): Option<Numeral> {
    if whole != "" && AllDigits(whole) && AllDigits(fraction) && (pointed ==> fraction != "")
    then Some(Numeral(Value(whole + fraction), |fraction|)) else None
  }

  function ReadUnsigned(s: string): Option<Numeral> {
    var i := FindPoint(s);
    if i < |s| then ReadParts(s[..i], s[i + 1..], true) else ReadParts(s, "", false)
  }

  function Negate(negative: bool, v: int): int {
    if negative then -v else v
  }

  function NegateNumeral(negative: bool, n: Option<Numeral>): Option<Numeral> {
    if n.Some? then Some(Numeral(Negate(negative, n.value.mantissa), n.value.scale)) else None
  }

  function ReadDecimal(s: string): Option<Numeral> {
    if s != "" && s[0] == '-' then NegateNumeral(true, ReadUnsigned(s[1..])) else ReadUnsigned(s)
  }

  /** The text is the numeral of amount / 10^decimals, without any rounding. */
  ghost predicate Denotes(s: string, amount: int, decimals: int) {
    var n := ReadDecimal(s);
    && n.Some?
    && if decimals >= 0 then n.value.mantissa * Pow10(decimals) == amount * Pow10(n.value.scale)
       else n.value.mantissa == amount * Pow10(-decimals) * Pow10(n.value.scale)
  }

  // --- Digits and their value ---

  lemma {:induction false} ValueOfDigits(n: nat)
    ensures Value(Digits(n)) == n
  {
    if n >= 10 {
      ValueOfDigits(n / 10);
      var s := Digits(n);
      assert s[..|s| - 1] == Digits(n / 10);
    } else {
      var s := Digits(n);
      assert s[..0] == "";
    }
  }

  lemma {:induction false} ValueConcat(s: string, t: string)
    ensures Value(s + t) == Value(s) * Pow10(|t|) + Value(t)
  {
    if t == "" {
      assert s + t == s;
    } else {
      var n := |t| - 1;
      ValueConcat(s, t[..n]);
      assert (s + t)[..|s + t| - 1] == s + t[..n];
      assert Value(s) * Pow10(|t|) == 10 * (Value(s) * Pow10(n));
    }
  }

  lemma {:induction false} ValueOfZeros(n: nat)
    ensures Value(Zeros(n)) == 0
  {
    if n > 0 {
      ValueOfZeros(n - 1);
      assert Zeros(n)[..n - 1] == Zeros(n - 1);
    }
  }

  lemma PaddingKeepsValue(s: string, length: nat)
    ensures Value(PadStart(s, length)) == Value(s)
  {
    if |s| < length {
      var n := length - |s|;
      assert PadStart(s, length) == Zeros(n) + s;
      ValueConcat(Zeros(n), s);
      ValueOfZeros(n);
    }
  }

  lemma {:induction false} TrimmedValue(s: string)
    ensures var t := TrimZeros(s);
      Value(s) == Value(t) * Pow10(|s| - |t|)
  {
    if s != "" && s[|s| - 1] == '0' {
      var r := s[..|s| - 1];
      TrimmedValue(r);
      var t := TrimZeros(r);
      assert Pow10(|s| - |t|) == 10 * Pow10(|r| - |t|);
      assert Value(s) == 10 * Value(r);
      assert Value(t) * (10 * Pow10(|r| - |t|)) == 10 * (Value(t) * Pow10(|r| - |t|));
    } else {
      assert TrimZeros(s) == s;
    }
  }

  lemma {:induction false} Pow10Adds(a: nat, b: nat)
    ensures Pow10(a + b) == Pow10(a) * Pow10(b) && 0 < Pow10(a)
  {
    if a > 0 {
      Pow10Adds(a - 1, b);
      assert Pow10(a + b) == 10 * Pow10(a - 1 + b);
      assert 10 * (Pow10(a - 1) * Pow10(b)) == (10 * Pow10(a - 1)) * Pow10(b);
    }
  }

  // --- What the printers denote ---

  function Body(whole: string, fraction: string): string {
    if fraction == "" then whole else whole + "." + fraction
  }

  function Signed(negative: bool, body: string): string {
    if negative then "-" + body else body
  }

  lemma {:induction false} PointAfterDigits(whole: string, rest: string)
    requires AllDigits(whole) && (rest == "" || rest[0] == '.')
    ensures FindPoint(whole + rest) == |whole|
  {
    if whole == "" {
      assert whole + rest == rest;
    } else {
      PointAfterDigits(whole[1..], rest);
      assert (whole + rest)[1..] == whole[1..] + rest;
      assert (whole + rest)[0] == whole[0];
    }
  }

  lemma CutAtPoint(whole: string, fraction: string)
    ensures var s := whole + "." + fraction;
      |whole| < |s| && s[..|whole|] == whole && s[|whole| + 1..] == fraction
  {
    var s := whole + "." + fraction;
    assert s[..|whole|] == whole;
    assert s[|whole| + 1..] == fraction;
  }

  lemma ReadOfPointed(whole: string, fraction: string)
    requires AllDigits(whole)
    ensures ReadUnsigned(whole + "." + fraction) == ReadParts(whole, fraction, true)
  {
    var s := whole + "." + fraction;
    assert FindPoint(s) == |whole| by {
      PointAfterDigits(whole, "." + fraction);
      assert s == whole + ("." + fraction);
    }
    CutAtPoint(whole, fraction);
  }

  lemma ReadOfWhole(whole: string)
    requires AllDigits(whole)
    ensures ReadUnsigned(whole) == ReadParts(whole, "", false)
  {
    PointAfterDigits(whole, "");
    assert whole + "" == whole;
  }

  lemma ReadOfBody(whole: string, fraction: string)
    requires whole != "" && AllDigits(whole) && AllDigits(fraction)
    ensures ReadUnsigned(Body(whole, fraction)) == Some(Numeral(Value(whole + fraction), |fraction|))
  {
    if fraction == "" {
      ReadOfWhole(whole);
    } else {
      ReadOfPointed(whole, fraction);
    }
  }

  lemma ReadOfSigned(negative: bool, body: string)
    requires body != "" && body[0] != '-'
    ensures ReadDecimal(Signed(negative, body)) == NegateNumeral(negative, ReadUnsigned(body))
  {
    if negative {
      assert ("-" + body)[1..] == body;
    }
  }

  /** Reading a sign, a whole part and, if it is not empty, a point and a fraction. */
  lemma ReadOfParts(negative: bool, whole: string, fraction: string)
    requires whole != "" && AllDigits(whole) && AllDigits(fraction)
    ensures ReadDecimal(Signed(negative, Body(whole, fraction)))
            == Some(Numeral(Negate(negative, Value(whole + fraction)), |fraction|))
  {
    assert IsDigit(whole[0]) && Body(whole, fraction)[0] == whole[0];
    ReadOfSigned(negative, Body(whole, fraction));
    ReadOfBody(whole, fraction);
  }

  lemma ToStringIsSigned(n: int)
    ensures ToString(n) == Signed(n < 0, Body(Digits(Abs(n)), ""))
  {
  }

  /** toBigInt undoes fromBigInt. */
  lemma ReadUndoesToString(n: int)
    ensures ReadDecimal(ToString(n)) == Some(Numeral(n, 0))
  {
    var d := Digits(Abs(n));
    ToStringIsSigned(n);
    ReadOfParts(n < 0, d, "");
    assert d + "" == d;
    ValueOfDigits(Abs(n));
  }

  lemma PartsAreDigits(amount: int, decimals: nat)
    ensures var (_, whole, fraction) := Parts(amount, decimals);
      && AllDigits(whole) && AllDigits(fraction) && AllDigits(TrimZeros(fraction))
  {
    var padded := PadStart(Digits(Abs(amount)), decimals + 1);
    assert AllDigits(padded);
  }

  lemma PartsValue(amount: int, decimals: nat)
    ensures var (_, whole, fraction) := Parts(amount, decimals);
      Value(whole + fraction) == Abs(amount)
  {
    var (_, whole, fraction) := Parts(amount, decimals);
    assert whole + fraction == PadStart(Digits(Abs(amount)), decimals + 1);
    PaddingKeepsValue(Digits(Abs(amount)), decimals + 1);
    ValueOfDigits(Abs(amount));
  }

  lemma ShownValue(whole: string, fraction: string, trim: bool)
    ensures var shown := if trim then TrimZeros(fraction) else fraction;
      Value(whole + fraction) == Value(whole + shown) * Pow10(|fraction| - |shown|)
  {
    if trim {
      TrimmedValue(fraction);
      var shown := TrimZeros(fraction);
      ValueConcat(whole, fraction);
      ValueConcat(whole, shown);
      Pow10Adds(|shown|, |fraction| - |shown|);
      Distribute(Value(whole), Pow10(|shown|), Pow10(|fraction| - |shown|), Value(shown));
    }
  }

  lemma Distribute(w: int, p: int, q: int, v: int)
    ensures w * (p * q) + v * q == (w * p + v) * q
  {
    assert w * (p * q) == (w * p) * q;
  }

  lemma SignInFront(negative: bool, whole: string, fraction: string)
    ensures var sign := if negative then "-" else "";
      && sign + whole == Signed(negative, whole)
      && sign + whole + "." + fraction == Signed(negative, whole + "." + fraction)
  {
    var sign := if negative then "-" else "";
    assert sign + whole + "." + fraction == sign + (whole + "." + fraction);
    assert "" + whole == whole;
    assert "" + (whole + "." + fraction) == whole + "." + fraction;
  }

  lemma FormatIsSignedBody(amount: int, decimals: nat, trim: bool, placeholder: string)
    requires 0 < decimals
    ensures var (_, whole, fraction) := Parts(amount, decimals);
      FormatTokenAmount(Some(amount), Some(decimals), trim, placeholder)
      == Signed(amount < 0, Body(whole, if trim then TrimZeros(fraction) else fraction))
  {
    var (sign, whole, fraction) := Parts(amount, decimals);
    SignInFront(amount < 0, whole, if trim then TrimZeros(fraction) else fraction);
  }

  lemma ScaledEqually(amount: int, v: int, dropped: nat, scale: nat)
    requires Abs(amount) == v * Pow10(dropped)
    ensures Negate(amount < 0, v) * Pow10(dropped + scale) == amount * Pow10(scale)
  {
    Pow10Adds(dropped, scale);
    NegateScales(amount, v, Pow10(dropped), Pow10(scale));
  }

  lemma NegateScales(amount: int, v: int, p: int, q: int)
    requires Abs(amount) == v * p
    ensures Negate(amount < 0, v) * (p * q) == amount * q
  {
    var w := Negate(amount < 0, v);
    assert w * p == amount;
    assert w * (p * q) == (w * p) * q;
  }

  lemma ReadsAsDenotes(s: string, amount: int, decimals: nat, v: int, scale: nat)
    requires scale <= decimals && Abs(amount) == v * Pow10(decimals - scale)
    requires ReadDecimal(s) == Some(Numeral(Negate(amount < 0, v), scale))
    ensures Denotes(s, amount, decimals)
  {
    ScaledEqually(amount, v, decimals - scale, scale);
  }

  /** For a positive number of decimals the text denotes amount / 10^decimals exactly, trimmed or not. */
  lemma FormatDenotesExactly(amount: int, decimals: nat, trim: bool, placeholder: string)
    requires 0 < decimals
    ensures Denotes(FormatTokenAmount(Some(amount), Some(decimals), trim, placeholder), amount, decimals)
  {
    var (_, whole, fraction) := Parts(amount, decimals);
    var shown := if trim then TrimZeros(fraction) else fraction;
    FormatIsSignedBody(amount, decimals, trim, placeholder);
    PartsShown(amount, decimals, trim);
    SignedBodyDenotes(amount, decimals, whole, shown);
  }

  /** The digits shown are those of the amount, but for the zeros that were trimmed. */
  ghost predicate Shows(amount: int, decimals: nat, whole: string, shown: string) {
    && whole != "" && AllDigits(whole) && AllDigits(shown) && |shown| <= decimals
    && Abs(amount) == Value(whole + shown) * Pow10(decimals - |shown|)
  }

  lemma PartsShown(amount: int, decimals: nat, trim: bool)
    ensures var (_, whole, fraction) := Parts(amount, decimals);
      Shows(amount, decimals, whole, if trim then TrimZeros(fraction) else fraction)
  {
    var (_, whole, fraction) := Parts(amount, decimals);
    PartsAreDigits(amount, decimals);
    PartsValue(amount, decimals);
    ShownValue(whole, fraction, trim);
  }

  lemma SignedBodyDenotes(amount: int, decimals: nat, whole: string, shown: string)
    requires Shows(amount, decimals, whole, shown)
    ensures Denotes(Signed(amount < 0, Body(whole, shown)), amount, decimals)
  {
    ReadOfParts(amount < 0, whole, shown);
    ReadsAsDenotes(Signed(amount < 0, Body(whole, shown)), amount, decimals, Value(whole + shown), |shown|);
  }

  /**
   The text is a sign, whole digits without superfluous zeros, and a fraction: all of the
   decimals, or if it is trimmed, no more than these and no zero at the end, nor a bare point.
   */
  ghost predicate HasShape(text: string, negative: bool, decimals: nat, trim: bool, whole: string, fraction: string) {
    && text == (if negative then "-" else "") + whole + (if fraction == "" then "" else "." + fraction)
    && AllDigits(whole) && AllDigits(fraction)
    && whole != "" && (1 < |whole| ==> whole[0] != '0')
    && (if trim then |fraction| <= decimals && (fraction != "" ==> fraction[|fraction| - 1] != '0')
        else |fraction| == decimals)
  }

  lemma {:induction false} DigitsLead(n: nat)
    ensures 0 < n ==> Digits(n)[0] != '0'
  {
    if 10 <= n {
      DigitsLead(n / 10);
    }
  }

  lemma {:induction false} TrimmedEnds(s: string)
    ensures TrimZeros(s) != "" ==> TrimZeros(s)[|TrimZeros(s)| - 1] != '0'
  {
    if s != "" && s[|s| - 1] == '0' {
      TrimmedEnds(s[..|s| - 1]);
    }
  }

  lemma WholeLeads(amount: int, decimals: nat)
    ensures var whole := Parts(amount, decimals).1; 1 < |whole| ==> whole[0] != '0'
  {
    var n := Abs(amount);
    if decimals + 1 < |Digits(n)| {
      DigitsLead(n);
      assert Parts(amount, decimals).1[0] == Digits(n)[0];
    }
  }

  lemma ShapeOfParts(sign: string, whole: string, shown: string)
    ensures sign + whole + "." + shown == sign + whole + ("." + shown) && sign + whole + "" == sign + whole
  {
  }

  lemma FormatHasShape(amount: int, decimals: nat, trim: bool, placeholder: string)
    returns (whole: string, fraction: string)
    requires 0 < decimals
    ensures HasShape(FormatTokenAmount(Some(amount), Some(decimals), trim, placeholder),
                     amount < 0, decimals, trim, whole, fraction)
  {
    var parts := Parts(amount, decimals);
    whole := parts.1;
    fraction := if trim then TrimZeros(parts.2) else parts.2;
    PartsAreDigits(amount, decimals);
    WholeLeads(amount, decimals);
    TrimmedEnds(parts.2);
    ShapeOfParts(parts.0, whole, fraction);
  }

  /** An amount of unknown precision is printed as the integer that it is, an unknown amount as the placeholder. */
  lemma UnknownIsPrintedSo(amount: int, decimals: Option<int>, trim: bool, placeholder: string)
    ensures FormatTokenAmount(None, decimals, trim, placeholder) == placeholder
    ensures Denotes(FormatTokenAmount(Some(amount), None, trim, placeholder), amount, 0)
  {
    ReadUndoesToString(amount);
  }

  /** Negative decimals are printed as if they were zero, so the text is right exactly for the amount 0. */
  lemma FormatDenotesIff(amount: int, decimals: int, trim: bool, placeholder: string)
    ensures Denotes(FormatTokenAmount(Some(amount), Some(decimals), trim, placeholder), amount, decimals)
            <==> 0 <= decimals || amount == 0
  {
    if 0 < decimals {
      FormatDenotesExactly(amount, decimals, trim, placeholder);
    } else {
      ReadUndoesToString(amount);
      if decimals < 0 {
        Pow10Adds(-decimals - 1, 1);
        assert Pow10(-decimals) >= 10;
        OnlyZeroScales(amount, Pow10(-decimals));
      }
    }
  }

  lemma OnlyZeroScales(a: int, k: int)
    requires 1 < k
    ensures a == a * k <==> a == 0
  {
    assert a * k - a == a * (k - 1);
    assert a > 0 ==> a * (k - 1) > 0;
    assert a < 0 ==> (-a) * (k - 1) > 0;
  }

  /** For fixed decimals, different amounts are printed differently, even if one is trimmed and the other is not. */
  lemma FormatIsInjective(a: int, b: int, decimals: nat, trimA: bool, trimB: bool, placeholder: string)
    requires FormatTokenAmount(Some(a), Some(decimals), trimA, placeholder)
             == FormatTokenAmount(Some(b), Some(decimals), trimB, placeholder)
    ensures a == b
  {
    var s := FormatTokenAmount(Some(a), Some(decimals), trimA, placeholder);
    FormatDenotesIff(a, decimals, trimA, placeholder);
    FormatDenotesIff(b, decimals, trimB, placeholder);
    var p := Pow10(ReadDecimal(s).value.scale);
    Pow10Adds(ReadDecimal(s).value.scale, 0);
    assert a * p == b * p;
    MulCancel(a, b, p);
    MulCancel(b, a, p);
  }

  /** The two printers agree on every precision that the SDK's accepts. */
  lemma UntrimmedIsAtomic(amount: int, decimals: int, placeholder: string)
    ensures FormatAtomicAmount(amount, decimals)
            == if decimals < 0 then Failure("Decimals must be a non-negative integer")
               else Success(FormatTokenAmount(Some(amount), Some(decimals), false, placeholder))
  {
  }

  // --- stroopsToXlm ---

  /** The lowest k digits of n. */
  function LowDigits(n: nat, k: nat): string {
    if k == 0 then "" else LowDigits(n / 10, k - 1) + [DigitChar(n % 10)]
  }

  /** Padding on the left commutes with taking off the last digit. */
  lemma PadLastDigit(n: nat, k: nat)
    requires 0 < k
    ensures PadStart(Digits(n), k + 1) == PadStart(Digits(n / 10), k) + [DigitChar(n % 10)]
  {
    if n < 10 {
      assert Digits(n / 10) == "0";
      assert Zeros(k) == Zeros(k - 1) + "0";
    } else {
      assert |Digits(n)| == |Digits(n / 10)| + 1;
    }
  }

  lemma DivStep(n: nat, k: nat)
    requires 0 < k
    ensures n / Pow10(k) == (n / 10) / Pow10(k - 1)
    ensures (n % Pow10(k)) / 10 == (n / 10) % Pow10(k - 1)
    ensures (n % Pow10(k)) % 10 == n % 10
  {
    DivTenTimes(n, Pow10(k - 1));
  }

  lemma DivTenTimes(n: nat, p: nat)
    requires 0 < p
    ensures n / (10 * p) == (n / 10) / p
    ensures (n % (10 * p)) / 10 == (n / 10) % p
    ensures (n % (10 * p)) % 10 == n % 10
  {
    var m, d := n / 10, n % 10;
    var q, r := m / p, m % p;
    Recompose(m, p, q, r, d);
    DivModUnique(n, 10 * p, q, 10 * r + d);
  }

  lemma Recompose(m: int, p: int, q: int, r: int, d: int)
    requires m == q * p + r
    ensures 10 * m + d == q * (10 * p) + (10 * r + d)
  {
    assert 10 * (q * p) == q * (10 * p);
  }

  lemma DivModUnique(n: int, d: int, q: int, r: int)
    requires 0 < d && n == q * d + r && 0 <= r < d
    ensures n / d == q && n % d == r
  {
    var k := n / d;
    assert n == k * d + n % d;
    assert (q + 1) * d == q * d + d && (k + 1) * d == k * d + d;
    MulLessCancel(q, k + 1, d);
    MulLessCancel(k, q + 1, d);
  }

  /** n without its lowest k digits. */
  function HighPart(n: nat, k: nat): nat {
    if k == 0 then n else HighPart(n / 10, k - 1)
  }

  lemma {:induction false} HighPartIsQuotient(n: nat, k: nat)
    ensures HighPart(n, k) == n / Pow10(k)
  {
    if k > 0 {
      HighPartIsQuotient(n / 10, k - 1);
      DivStep(n, k);
    }
  }

  lemma Reassociate(a: string, b: string, c: string)
    ensures (a + b) + c == a + (b + c)
  {
  }

  /** The padded numeral is the high part's digits followed by the low digits. */
  predicate SplitsAt(n: nat, k: nat) {
    PadStart(Digits(n), k + 1) == Digits(HighPart(n, k)) + LowDigits(n, k)
  }

  lemma SplitsAtEnd(n: nat)
    ensures SplitsAt(n, 0)
  {
    assert Digits(n) + "" == Digits(n);
  }

  lemma SplitsOneFurther(n: nat, k: nat)
    requires 0 < k && SplitsAt(n / 10, k - 1)
    ensures SplitsAt(n, k)
  {
    PadLastDigit(n, k);
    Reassociate(Digits(HighPart(n / 10, k - 1)), LowDigits(n / 10, k - 1), [DigitChar(n % 10)]);
  }

  /** Cutting the padded numeral k digits from the right gives the high part and the low digits. */
  lemma {:induction false} PaddedSplits(n: nat, k: nat)
    ensures SplitsAt(n, k)
    decreases k
  {
    if k == 0 {
      SplitsAtEnd(n);
    } else {
      PaddedSplits(n / 10, k - 1);
      SplitsOneFurther(n, k);
    }
  }

  lemma {:induction false} LowDigitsOfRemainder(n: nat, k: nat)
    ensures LowDigits(n % Pow10(k), k) == LowDigits(n, k) && |LowDigits(n, k)| == k
  {
    if k > 0 {
      LowDigitsOfRemainder(n / 10, k - 1);
      DivStep(n, k);
    }
  }

  lemma {:induction false} DigitsFit(n: nat, k: nat)
    requires 0 < k && n < Pow10(k)
    ensures |Digits(n)| <= k && HighPart(n, k) == 0
  {
    if k == 1 {
      assert Pow10(1) == 10 && HighPart(n, 1) == HighPart(n / 10, 0);
    } else {
      DigitsFit(n / 10, k - 1);
    }
  }

  lemma DropLeadingZero(s: string, k: nat, low: string)
    requires |s| <= k && |low| == k
    requires PadStart(s, k + 1) == "0" + low
    ensures PadStart(s, k) == low
  {
    assert Zeros(k + 1 - |s|) == "0" + Zeros(k - |s|);
    assert ("0" + low)[1..] == low;
    assert PadStart(s, k + 1) == "0" + (Zeros(k - |s|) + s);
    assert |s| == k ==> Zeros(0) + s == s;
  }

  /** A number below 10^k, padded to k digits, is its low digits. */
  lemma PaddedRemainder(r: nat, k: nat)
    requires 0 < k && r < Pow10(k)
    ensures PadStart(Digits(r), k) == LowDigits(r, k)
  {
    DigitsFit(r, k);
    PaddedSplits(r, k);
    LowDigitsHaveLength(r, k);
    DropLeadingZero(Digits(r), k, LowDigits(r, k));
  }

  lemma {:induction false} LowDigitsHaveLength(n: nat, k: nat)
    ensures |LowDigits(n, k)| == k
  {
    if k > 0 {
      LowDigitsHaveLength(n / 10, k - 1);
    }
  }

  lemma FormatSplits(amount: int, decimals: nat, placeholder: string)
    requires 0 < decimals
    ensures FormatTokenAmount(Some(amount), Some(decimals), false, placeholder)
            == Signed(amount < 0, Digits(HighPart(Abs(amount), decimals)) + "." + LowDigits(Abs(amount), decimals))
  {
    var n := Abs(amount);
    PaddedSplits(n, decimals);
    LowDigitsHaveLength(n, decimals);
    var whole, low := Digits(HighPart(n, decimals)), LowDigits(n, decimals);
    assert (whole + low)[..|whole|] == whole && (whole + low)[|whole|..] == low;
    FormatIsSignedBody(amount, decimals, false, placeholder);
  }

  lemma SevenDecimals()
    ensures Pow10(7) == STROOPS
  {
    assert Pow10(3) == 1000;
    Pow10Adds(3, 3);
    Pow10Adds(6, 1);
  }

  lemma TruncateNegative(n: int, d: int)
    requires 0 <= n && 0 < d
    ensures TruncDiv(-n, d) == -(n / d) && TruncMod(-n, d) == -(n % d)
  {
    assert n == d * (n / d) + n % d;
  }

  lemma TruncateNonNegative(n: int, d: int)
    requires 0 <= n && 0 < d
    ensures TruncDiv(n, d) == n / d && TruncMod(n, d) == n % d
  {
  }

  /** q is n without its lowest digits, and r, padded, is those digits. */
  predicate CutsInTwo(n: nat, decimals: nat, q: int, r: int) {
    0 <= r && q == HighPart(n, decimals) && PadStart(Digits(r), decimals) == LowDigits(n, decimals)
  }

  lemma QuotientAndRemainder(n: nat, decimals: nat) returns (q: int, r: int)
    requires 0 < decimals
    ensures q == n / Pow10(decimals) && r == n % Pow10(decimals)
    ensures CutsInTwo(n, decimals, q, r)
  {
    q, r := n / Pow10(decimals), n % Pow10(decimals);
    HighPartIsQuotient(n, decimals);
    LowDigitsOfRemainder(n, decimals);
    PaddedRemainder(r, decimals);
  }

  function SplitDigits(n: nat, decimals: nat): string {
    Digits(HighPart(n, decimals)) + "." + LowDigits(n, decimals)
  }

  lemma JoinNonNegative(n: nat, decimals: nat, q: int, r: nat)
    requires q == HighPart(n, decimals) && PadStart(Digits(r), decimals) == LowDigits(n, decimals)
    ensures JoinUnits(q, r, decimals) == SplitDigits(n, decimals)
  {
  }

  lemma JoinWholeNegative(n: nat, decimals: nat, q: int)
    requires q == HighPart(n, decimals) && 0 < q && PadStart(Digits(0), decimals) == LowDigits(n, decimals)
    ensures JoinUnits(-q, 0, decimals) == Signed(true, SplitDigits(n, decimals))
  {
    SignInFront(true, Digits(q), LowDigits(n, decimals));
  }

  lemma QuotientIsPositive(n: int, d: int)
    requires 0 < n && 0 < d && n % d == 0
    ensures 0 < n / d
  {
    assert n == d * (n / d) + n % d;
  }

  /** The SDK prints an amount with its sign in front of both parts. */
  lemma AgreesInUnits(amount: int, decimals: nat, q: int, r: int)
    requires 0 < decimals && CutsInTwo(Abs(amount), decimals, q, r)
    requires amount < 0 ==> r == 0 && 0 < q
    ensures FormatTokenAmount(Some(amount), Some(decimals), false, "")
            == JoinUnits(Negate(amount < 0, q), Negate(amount < 0, r), decimals)
  {
    FormatSplits(amount, decimals, "");
    if 0 <= amount {
      JoinNonNegative(amount, decimals, q, r);
    } else {
      JoinWholeNegative(-amount, decimals, q);
    }
  }

  /** A minus sign stands only in front of what the SDK prints. */
  lemma MinusOnlyInFront(amount: int, decimals: nat, i: nat)
    requires 0 < decimals
    requires 0 < i < |FormatTokenAmount(Some(amount), Some(decimals), false, "")|
    ensures FormatTokenAmount(Some(amount), Some(decimals), false, "")[i] != '-'
  {
    var (_, whole, fraction) := Parts(amount, decimals);
    PartsAreDigits(amount, decimals);
    FormatIsSignedBody(amount, decimals, false, "");
    assert forall j :: 0 <= j < |Body(whole, fraction)| ==> Body(whole, fraction)[j] != '-';
  }

  /** Below zero with a fraction, a second minus sign stands behind the point. */
  lemma DiffersInUnits(amount: int, decimals: nat, q: int, r: int)
    requires 0 < decimals && amount < 0 && 0 < r
    ensures FormatTokenAmount(Some(amount), Some(decimals), false, "") != JoinUnits(-q, -r, decimals)
  {
    var whole, minus := ToString(-q), "-" + Digits(r);
    MinusBehindPoint(whole, minus, decimals);
    var i := |whole| + 1 + |PadStart(minus, decimals)| - |minus|;
    var t := FormatTokenAmount(Some(amount), Some(decimals), false, "");
    if i < |t| {
      MinusOnlyInFront(amount, decimals, i);
    }
  }

  lemma MinusBehindPoint(whole: string, minus: string, decimals: nat)
    requires minus != "" && minus[0] == '-'
    ensures var s, i := whole + "." + PadStart(minus, decimals), |whole| + 1 + |PadStart(minus, decimals)| - |minus|;
      0 < i < |s| && s[i] == '-'
  {
    var f := PadStart(minus, decimals);
    assert f[|f| - |minus|] == minus[0];
  }

  lemma TruncateSigned(amount: int, d: int)
    requires 0 < d
    ensures TruncDiv(amount, d) == Negate(amount < 0, Abs(amount) / d)
    ensures TruncMod(amount, d) == Negate(amount < 0, Abs(amount) % d)
  {
    if amount < 0 {
      TruncateNegative(-amount, d);
    } else {
      TruncateNonNegative(amount, d);
    }
  }

  lemma SignedQuotientAndRemainder(amount: int, decimals: nat) returns (q: int, r: int)
    requires 0 < decimals
    ensures CutsInTwo(Abs(amount), decimals, q, r)
    ensures r == Abs(amount) % Pow10(decimals)
    ensures TruncDiv(amount, Pow10(decimals)) == Negate(amount < 0, q)
    ensures TruncMod(amount, Pow10(decimals)) == Negate(amount < 0, r)
    ensures amount < 0 && r == 0 ==> 0 < q
  {
    q, r := QuotientAndRemainder(Abs(amount), decimals);
    TruncateSigned(amount, Pow10(decimals));
    if amount < 0 && r == 0 {
      QuotientIsPositive(-amount, Pow10(decimals));
    }
  }

  lemma AgreesInUnitsIff(amount: int, decimals: nat, q: int, r: int)
    requires 0 < decimals && CutsInTwo(Abs(amount), decimals, q, r)
    requires amount < 0 && r == 0 ==> 0 < q
    ensures FormatTokenAmount(Some(amount), Some(decimals), false, "")
            == JoinUnits(Negate(amount < 0, q), Negate(amount < 0, r), decimals)
            <==> 0 <= amount || r == 0
  {
    if amount < 0 && 0 < r {
      DiffersInUnits(amount, decimals, q, r);
    } else {
      AgreesInUnits(amount, decimals, q, r);
    }
  }

  /** Stroops are printed as the SDK prints seven decimals exactly if they are not negative or are whole XLM. */
  lemma StroopsAgreeIff(stroops: int)
    ensures FormatAtomicAmount(stroops, 7) == Success(StroopsToXlm(stroops))
            <==> 0 <= stroops || Abs(stroops) % STROOPS == 0
  {
    UntrimmedIsAtomic(stroops, 7, "");
    SevenDecimals();
    var q, r := SignedQuotientAndRemainder(stroops, 7);
    AgreesInUnitsIff(stroops, 7, q, r);
  }

  /** Minus five stroops: the minus sign stands in the fraction, and the SDK prints something else. */
  lemma FiveStroopsBelowZero()
    ensures StroopsToXlm(-5) == "0.00000-5"
    ensures FormatAtomicAmount(-5, 7) != Success(StroopsToXlm(-5))
  {
    StroopsAgreeIff(-5);
    TruncatedFive();
    PaddedMinusFive();
    assert "0" + "." + "00000-5" == "0.00000-5";
  }

  lemma TruncatedFive()
    ensures StroopsToXlm(-5) == JoinUnits(0, -5, 7)
  {
    assert TruncDiv(-5, STROOPS) == 0 && TruncMod(-5, STROOPS) == -5;
  }

  lemma PaddedMinusFive()
    ensures JoinUnits(0, -5, 7) == "0" + "." + "00000-5"
  {
    assert Digits(5) == "5" && Digits(0) == "0";
    assert ToString(-5) == "-5" && ToString(0) == "0";
    assert Zeros(3) == "000";
    assert Zeros(5) == "00000";
    assert PadStart("-5", 7) == Zeros(5) + "-5";
  }

  /** With minus one decimals 5 is printed as "5", and means 50. */
  lemma NegativeDecimalsMisprint()
    ensures var s := FormatTokenAmount(Some(5), Some(-1), true, "");
      s == "5" && !Denotes(s, 5, -1)
  {
    assert Digits(5) == "5";
    FormatDenotesIff(5, -1, true, "");
  }
}
