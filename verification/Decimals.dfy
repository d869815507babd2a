/**
 Exact wire decimals of the Kraken adapter: validation, canonical form and the
 comparator of the level map, none of which goes through floating point.
 */
module Decimals {
  import opened Wrappers

  datatype DecimalError = EmptyDecimal | MalformedDecimal | InvalidDecimal

  datatype ParsedDecimal = ParsedDecimal(text: string, zero: bool)

  predicate IsDigit(c: char) {
    '0' <= c <= '9'
  }

  predicate AllDigits(s: string) {
    forall i :: 0 <= i < |s| ==> IsDigit(s[i])
  }

  predicate AllZeros(s: string) {
    forall i :: 0 <= i < |s| ==> s[i] == '0'
  }

  /** Position of the first '.', or the length when there is none. */
  function PointIndex(s: string): (p: nat)
    ensures p <= |s|
    ensures forall i :: 0 <= i < p ==> s[i] != '.'
    ensures p < |s| ==> s[p] == '.'
  {
    if s == "" || s[0] == '.' then 0 else 1 + PointIndex(s[1..])
  }

  function IntegerPart(s: string): string {
    s[..PointIndex(s)]
  }

  function FractionPart(s: string): string {
    if PointIndex(s) < |s| then s[PointIndex(s) + 1..] else ""
  }

  /** Digits, optionally followed by a point and more digits. */
  predicate IsDecimal(s: string) {
    && IntegerPart(s) != ""
    && AllDigits(IntegerPart(s))
    && AllDigits(FractionPart(s))
    && (PointIndex(s) < |s| ==> FractionPart(s) != "")
  }

  // ---------- The exact rational value of a decimal text ----------

  function Digit(c: char): (d: nat)
    ensures IsDigit(c) ==> d <= 9
  {
    if IsDigit(c) then c as int - '0' as int else 0
  }

  function Pow10(n: nat): (p: nat)
    ensures p >= 1
  {
    if n == 0 then 1 else 10 * Pow10(n - 1)
  }

  function IntegerValue(s: string): nat {
    if s == "" then 0 else 10 * IntegerValue(s[..|s| - 1]) + Digit(s[|s| - 1])
  }

  function FractionValue(f: string): real {
    if f == "" then 0.0 else (Digit(f[0]) as real + FractionValue(f[1..])) / 10.0
  }

  function Value(s: string): real {
    IntegerValue(IntegerPart(s)) as real + FractionValue(FractionPart(s))
  }

  // ---------- Validation ----------

  /** `parse_decimal`: one pass with three flags. */
  method ParseDecimal(text: string, allowZero: bool) returns (r: Result<ParsedDecimal, DecimalError>)
    ensures r.Success? <==> IsDecimal(text) && (allowZero || Value(text) > 0.0)
    ensures r.Success? ==> r.value == ParsedDecimal(text, Value(text) == 0.0)
    ensures r == Failure(EmptyDecimal) <==> text == ""
    ensures r == Failure(InvalidDecimal) <==> IsDecimal(text) && !allowZero && Value(text) == 0.0
  {
    if text == "" {
      return Failure(EmptyDecimal);
    }

    var sawDigit, sawPoint, sawNonzeroDigit := false, false, false;
    var p := PointIndex(text);

    for i := 0 to |text|
      invariant sawPoint <==> p < i
      invariant forall k :: 0 <= k < i && k != p ==> IsDigit(text[k])
      invariant sawDigit <==> i > (if p < i then 1 else 0)
      invariant sawNonzeroDigit <==> exists k :: 0 <= k < i && k != p && text[k] != '0'
    {
      var c := text[i];
      if IsDigit(c) {
        sawDigit := true;
        sawNonzeroDigit := sawNonzeroDigit || c != '0';
      } else if c == '.' && !sawPoint {
        sawPoint := true;
      } else {
        NotADecimal(text, i);
        return Failure(MalformedDecimal);
      }
    }

    ZeroValue(text);
    if !sawDigit || text[0] == '.' || text[|text| - 1] == '.' {
      return Failure(MalformedDecimal);
    }
    DigitsAroundPoint(text);
    NonzeroDigits(text);
    if !allowZero && !sawNonzeroDigit {
      return Failure(InvalidDecimal);
    }
    return Success(ParsedDecimal(text, !sawNonzeroDigit));
  }

  lemma {:induction false} NotADecimal(text: string, i: nat)
    requires i < |text| && !IsDigit(text[i]) && (text[i] == '.' ==> PointIndex(text) < i)
    ensures !IsDecimal(text)
  {
    var p := PointIndex(text);
    if i < p {
      assert IntegerPart(text)[i] == text[i];
    } else if i > p {
      assert FractionPart(text)[i - p - 1] == text[i];
    }
  }

  lemma {:induction false} DigitsAroundPoint(text: string)
    requires forall k :: 0 <= k < |text| && k != PointIndex(text) ==> IsDigit(text[k])
    ensures IsDecimal(text) <==> 0 < PointIndex(text) && PointIndex(text) != |text| - 1
  {
    var p := PointIndex(text);
    forall k | 0 <= k < |FractionPart(text)| ensures IsDigit(FractionPart(text)[k]) {
      assert FractionPart(text)[k] == text[p + 1 + k];
    }
  }

  lemma {:induction false} NonzeroDigits(text: string)
    ensures (exists k :: 0 <= k < |text| && k != PointIndex(text) && text[k] != '0')
      <==> !(AllZeros(IntegerPart(text)) && AllZeros(FractionPart(text)))
  {
    var p := PointIndex(text);
    forall k | 0 <= k < |text| && k != p
      ensures if k < p then IntegerPart(text)[k] == text[k] else FractionPart(text)[k - p - 1] == text[k]
    {}
  }

  // ---------- Canonical form ----------

  /** `find_first_not_of('0')` and `remove_prefix`. */
  function DropLeadingZeros(s: string): string {
    if s != "" && s[0] == '0' then DropLeadingZeros(s[1..]) else s
  }

  /** `find_last_not_of('0')` and `substr`. */
  function DropTrailingZeros(s: string): string {
    if s != "" && s[|s| - 1] == '0' then DropTrailingZeros(s[..|s| - 1]) else s
  }

  function Glue(integer: string, fraction: string): string {
    integer + (if fraction == "" then "" else "." + fraction)
  }

  /** `canonical_decimal`. */
  function Canonical(s: string): string {
    var integer := DropLeadingZeros(IntegerPart(s));
    var fraction := DropTrailingZeros(FractionPart(s));
    Glue(if integer == "" then "0" else integer, fraction)
  }

  /** The integer part has no redundant zero in front. */
  predicate NoLeadingZeros(s: string)
    requires IsDecimal(s)
  {
    IntegerPart(s)[0] == '0' ==> IntegerPart(s) == "0"
  }

  /** A decimal with no redundant zero and no empty fraction. */
  predicate IsCanonical(s: string) {
    && IsDecimal(s)
    && NoLeadingZeros(s)
    && (FractionPart(s) != "" ==> FractionPart(s)[|FractionPart(s)| - 1] != '0')
  }

  // ---------- Comparator ----------

  /** Lexicographic `operator<` of string views. */
  predicate LexLess(a: string, b: string) {
    b != "" && (a == "" || a[0] < b[0] || (a[0] == b[0] && LexLess(a[1..], b[1..])))
  }

  function DigitAt(f: string, i: nat): char {
    if i < |f| then f[i] else '0'
  }

  /** First difference of two fractions padded with zeros. */
  predicate FractionLess(a: string, b: string)
    decreases |a| + |b|
  {
    if a == "" && b == "" then false
    else if DigitAt(a, 0) != DigitAt(b, 0) then DigitAt(a, 0) < DigitAt(b, 0)
    else FractionLess(Tail(a), Tail(b))
  }

  function Tail(f: string): string {
    if f == "" then "" else f[1..]
  }

  /** `exact_decimal_less`, as the level map calls it. */
  predicate ExactDecimalLess(left: string, right: string) {
    var l, r := IntegerPart(left), IntegerPart(right);
    if |l| != |r| then |l| < |r|
    else if l != r then LexLess(l, r)
    else FractionLess(FractionPart(left), FractionPart(right))
  }

  /** The comparator with the index loop over the padded fractions. */
  method CompareExact(left: string, right: string) returns (less: bool)
    ensures less == ExactDecimalLess(left, right)
  {
    var l, r := IntegerPart(left), IntegerPart(right);
    if |l| != |r| {
      return |l| < |r|;
    }
    if l != r {
      return LexLess(l, r);
    }

    var a, b := FractionPart(left), FractionPart(right);
    var digits := if |a| > |b| then |a| else |b|;
    for i := 0 to digits
      invariant FractionLess(a, b) == FractionLess(From(a, i), From(b, i))
    {
      FractionStep(a, b, i);
      if DigitAt(a, i) != DigitAt(b, i) {
        return DigitAt(a, i) < DigitAt(b, i);
      }
    }
    return false;
  }

  function From(f: string, i: nat): string {
    if i <= |f| then f[i..] else ""
  }

  lemma {:induction false} FractionStep(a: string, b: string, i: nat)
    requires i < |a| || i < |b|
    ensures FractionLess(From(a, i), From(b, i))
      == if DigitAt(a, i) != DigitAt(b, i) then DigitAt(a, i) < DigitAt(b, i)
         else FractionLess(From(a, i + 1), From(b, i + 1))
  {
    assert DigitAt(From(a, i), 0) == DigitAt(a, i) && DigitAt(From(b, i), 0) == DigitAt(b, i);
    assert Tail(From(a, i)) == From(a, i + 1) && Tail(From(b, i)) == From(b, i + 1);
  }

  // ---------- Facts about values ----------

  lemma {:induction false} IntegerValueBound(s: string)
    requires AllDigits(s)
    ensures IntegerValue(s) < Pow10(|s|)
    ensures s != "" && s[0] != '0' ==> IntegerValue(s) >= Pow10(|s| - 1)
  {
    if s != "" {
      IntegerValueBound(s[..|s| - 1]);
    }
  }

  lemma {:induction false} FractionValueBound(f: string)
    requires AllDigits(f)
    ensures 0.0 <= FractionValue(f) < 1.0
  {
    if f != "" {
      FractionValueBound(f[1..]);
    }
  }

  lemma {:induction false} IntegerZero(s: string)
    requires AllDigits(s)
    ensures IntegerValue(s) == 0 <==> AllZeros(s)
  {
    if s != "" {
      IntegerZero(s[..|s| - 1]);
      assert s == s[..|s| - 1] + [s[|s| - 1]];
    }
  }

  lemma {:induction false} FractionZero(f: string)
    requires AllDigits(f)
    ensures FractionValue(f) == 0.0 <==> AllZeros(f)
  {
    if f != "" {
      FractionZero(f[1..]);
      FractionValueBound(f[1..]);
      assert f == [f[0]] + f[1..];
    }
  }

  lemma {:induction false} ZeroValue(s: string)
    ensures IsDecimal(s) ==> (Value(s) == 0.0 <==> AllZeros(IntegerPart(s)) && AllZeros(FractionPart(s)))
    ensures IsDecimal(s) ==> Value(s) >= 0.0
  {
    if IsDecimal(s) {
      IntegerZero(IntegerPart(s));
      FractionZero(FractionPart(s));
      FractionValueBound(FractionPart(s));
    }
  }

  lemma {:induction false} PrependZero(s: string)
    ensures IntegerValue("0" + s) == IntegerValue(s)
  {
    var t := "0" + s;
    if s == "" {
      assert t[..|t| - 1] == "";
    } else {
      PrependZero(s[..|s| - 1]);
      assert t[..|t| - 1] == "0" + s[..|s| - 1];
    }
  }

  lemma {:induction false} LeadingZeros(s: string)
    requires AllDigits(s)
    ensures AllDigits(DropLeadingZeros(s))
    ensures IntegerValue(DropLeadingZeros(s)) == IntegerValue(s)
    ensures DropLeadingZeros(s) != "" ==> DropLeadingZeros(s)[0] != '0'
  {
    if s != "" && s[0] == '0' {
      LeadingZeros(s[1..]);
      PrependZero(s[1..]);
      assert s == "0" + s[1..];
    }
  }

  lemma {:induction false} AppendZero(f: string)
    ensures FractionValue(f + "0") == FractionValue(f)
  {
    if f != "" {
      assert (f + "0")[1..] == f[1..] + "0";
      AppendZero(f[1..]);
    } else {
      assert (f + "0")[1..] == "";
      assert FractionValue(f + "0") == (Digit('0') as real + FractionValue("")) / 10.0;
    }
  }

  lemma {:induction false} TrailingZeros(f: string)
    requires AllDigits(f)
    ensures AllDigits(DropTrailingZeros(f))
    ensures FractionValue(DropTrailingZeros(f)) == FractionValue(f)
    ensures DropTrailingZeros(f) != "" ==> DropTrailingZeros(f)[|DropTrailingZeros(f)| - 1] != '0'
  {
    if f != "" && f[|f| - 1] == '0' {
      var g := f[..|f| - 1];
      TrailingZeros(g);
      assert f == g + "0";
      AppendZero(g);
    }
  }

  lemma {:induction false} PointAfterDigits(integer: string, rest: string)
    requires AllDigits(integer) && (rest == "" || rest[0] == '.')
    ensures PointIndex(integer + rest) == |integer| && (integer + rest)[..|integer|] == integer
  {
    var s := integer + rest;
    forall i | 0 <= i < |integer| ensures s[i] != '.' {
      assert IsDigit(integer[i]);
    }
    assert rest != "" ==> s[|integer|] == '.';
  }

  /** Gluing an integer and a fraction of digits together takes them apart again. */
  lemma {:induction false} PartsOf(integer: string, fraction: string)
    requires AllDigits(integer)
    ensures IntegerPart(Glue(integer, fraction)) == integer
    ensures FractionPart(Glue(integer, fraction)) == fraction
    ensures PointIndex(Glue(integer, fraction)) < |Glue(integer, fraction)| <==> fraction != ""
  {
    if fraction == "" {
      PointAfterDigits(integer, "");
      assert Glue(integer, fraction) == integer + "";
    } else {
      PointAfterDigits(integer, "." + fraction);
      assert Glue(integer, fraction)[|integer| + 1..] == fraction;
    }
  }

  lemma {:induction false} ZeroText()
    ensures IntegerValue("") == IntegerValue("0") == 0
  {
    assert "0"[..0] == "";
    assert IntegerValue("0") == 10 * IntegerValue("0"[..0]) + Digit('0');
  }

  lemma {:induction false} CanonicalParts(s: string)
    requires IsDecimal(s)
    ensures IsCanonical(Canonical(s))
    ensures IntegerValue(IntegerPart(Canonical(s))) == IntegerValue(IntegerPart(s))
    ensures FractionValue(FractionPart(Canonical(s))) == FractionValue(FractionPart(s))
  {
    var integer := DropLeadingZeros(IntegerPart(s));
    var fraction := DropTrailingZeros(FractionPart(s));
    LeadingZeros(IntegerPart(s));
    TrailingZeros(FractionPart(s));
    if integer == "" {
      ZeroText();
      PartsOf("0", fraction);
    } else {
      PartsOf(integer, fraction);
    }
  }

  /** `canonical_decimal` keeps the exact value and always yields a canonical text. */
  lemma {:induction false} CanonicalPreservesValue(s: string)
    requires IsDecimal(s)
    ensures IsCanonical(Canonical(s))
    ensures Value(Canonical(s)) == Value(s)
  {
    CanonicalParts(s);
  }

  /** On canonical texts `canonical_decimal` is the identity, so it is idempotent. */
  lemma {:induction false} CanonicalIsIdempotent(s: string)
    requires IsCanonical(s)
    ensures Canonical(s) == s
  {
    var integer, fraction := IntegerPart(s), FractionPart(s);
    assert DropTrailingZeros(fraction) == fraction;
    if integer[0] == '0' {
      assert integer == "0" && integer[1..] == "";
      assert DropLeadingZeros(integer) == DropLeadingZeros("");
    } else {
      assert DropLeadingZeros(integer) == integer;
    }
    var p := PointIndex(s);
    if p < |s| {
      assert s == s[..p] + [s[p]] + s[p + 1..];
    } else {
      assert s == integer;
    }
  }

  /** Lexicographic order decided at the last character instead of the first. */
  lemma {:induction false} LexLessAtEnd(a: string, b: string)
    requires |a| == |b| != 0
    ensures var n := |a| - 1; LexLess(a, b) <==> LexLess(a[..n], b[..n]) || (a[..n] == b[..n] && a[n] < b[n])
  {
    var n := |a| - 1;
    if n > 0 {
      LexLessAtEnd(a[1..], b[1..]);
      assert a[1..][..n - 1] == a[..n][1..] && b[1..][..n - 1] == b[..n][1..];
      assert a[..n] == [a[0]] + a[..n][1..] && b[..n] == [b[0]] + b[..n][1..];
    }
  }

  lemma {:induction false} LexOrder(a: string, b: string)
    requires |a| == |b| && AllDigits(a) && AllDigits(b)
    ensures LexLess(a, b) <==> IntegerValue(a) < IntegerValue(b)
    ensures a == b <==> IntegerValue(a) == IntegerValue(b)
  {
    if a != "" {
      var n := |a| - 1;
      LexLessAtEnd(a, b);
      LexOrder(a[..n], b[..n]);
      assert a == a[..n] + [a[n]] && b == b[..n] + [b[n]];
    }
  }

  lemma {:induction false} FractionOrder(a: string, b: string)
    requires AllDigits(a) && AllDigits(b)
    ensures FractionLess(a, b) <==> FractionValue(a) < FractionValue(b)
    decreases |a| + |b|
  {
    if a != "" || b != "" {
      FractionValueBound(Tail(a));
      FractionValueBound(Tail(b));
      FractionOrder(Tail(a), Tail(b));
      assert FractionValue(a) == (Digit(DigitAt(a, 0)) as real + FractionValue(Tail(a))) / 10.0;
      assert FractionValue(b) == (Digit(DigitAt(b, 0)) as real + FractionValue(Tail(b))) / 10.0;
    }
  }

  lemma {:induction false} FirstDigitUnique(a: string, b: string)
    requires a != "" && b != "" && AllDigits(a) && AllDigits(b) && FractionValue(a) == FractionValue(b)
    ensures a[0] == b[0] && FractionValue(a[1..]) == FractionValue(b[1..])
  {
    FractionValueBound(a[1..]);
    FractionValueBound(b[1..]);
    var x, y := Digit(a[0]), Digit(b[0]);
    assert x as real + FractionValue(a[1..]) == y as real + FractionValue(b[1..]);
    assert x == y;
  }

  lemma {:induction false} FractionUnique(a: string, b: string)
    requires AllDigits(a) && AllDigits(b)
    requires a != "" ==> a[|a| - 1] != '0'
    requires b != "" ==> b[|b| - 1] != '0'
    requires FractionValue(a) == FractionValue(b)
    ensures a == b
  {
    if a == "" {
      FractionZero(b);
    } else if b == "" {
      FractionZero(a);
    } else {
      FirstDigitUnique(a, b);
      FractionUnique(a[1..], b[1..]);
      assert a == [a[0]] + a[1..] && b == [b[0]] + b[1..];
    }
  }

  lemma {:induction false} IntegerOrder(l: string, r: string)
    requires l != "" && r != "" && AllDigits(l) && AllDigits(r)
    requires (l[0] == '0' ==> l == "0") && (r[0] == '0' ==> r == "0")
    ensures |l| < |r| ==> IntegerValue(l) < IntegerValue(r)
  {
    if |l| < |r| {
      IntegerValueBound(l);
      IntegerValueBound(r);
      Pow10Monotone(|l|, |r| - 1);
    }
  }

  lemma {:induction false} Pow10Monotone(m: nat, n: nat)
    requires m <= n
    ensures Pow10(m) <= Pow10(n)
    decreases n
  {
    if m < n {
      Pow10Monotone(m, n - 1);
    }
  }

  /** On decimals without leading zeros the string comparator is exactly the order of the values. */
  lemma {:induction false} ExactDecimalLessIsValueOrder(left: string, right: string)
    requires IsDecimal(left) && IsDecimal(right) && NoLeadingZeros(left) && NoLeadingZeros(right)
    ensures ExactDecimalLess(left, right) <==> Value(left) < Value(right)
  {
    var l, r := IntegerPart(left), IntegerPart(right);
    FractionValueBound(FractionPart(left));
    FractionValueBound(FractionPart(right));
    IntegerOrder(l, r);
    IntegerOrder(r, l);
    if |l| == |r| {
      LexOrder(l, r);
      FractionOrder(FractionPart(left), FractionPart(right));
    }
  }

  /** Two decimals have the same canonical text exactly when they have the same value. */
  lemma {:induction false} CanonicalTextIsValue(a: string, b: string)
    requires IsDecimal(a) && IsDecimal(b)
    ensures Canonical(a) == Canonical(b) <==> Value(a) == Value(b)
  {
    CanonicalPreservesValue(a);
    CanonicalPreservesValue(b);
    if Value(a) == Value(b) {
      CanonicalUnique(Canonical(a), Canonical(b));
    }
  }

  lemma {:induction false} CanonicalUnique(a: string, b: string)
    requires IsCanonical(a) && IsCanonical(b) && Value(a) == Value(b)
    ensures a == b
  {
    var l, r := IntegerPart(a), IntegerPart(b);
    FractionValueBound(FractionPart(a));
    FractionValueBound(FractionPart(b));
    IntegerOrder(l, r);
    IntegerOrder(r, l);
    assert |l| == |r|;
    LexOrder(l, r);
    FractionUnique(FractionPart(a), FractionPart(b));
    CanonicalIsIdempotent(a);
    CanonicalIsIdempotent(b);
  }

  /** The comparator orders both ways round as the values do. */
  predicate OrderedByValue(t: string, u: string) {
    && (ExactDecimalLess(t, u) <==> Value(t) < Value(u))
    && (ExactDecimalLess(u, t) <==> Value(u) < Value(t))
  }

  lemma {:induction false} DropShortens(s: string)
    ensures |DropLeadingZeros(s)| <= |s|
    ensures s != "" && s[0] == '0' ==> |DropLeadingZeros(s)| < |s|
  {
    if s != "" && s[0] == '0' {
      DropShortens(s[1..]);
    }
  }

  /** The comparator puts a shorter text of the same value below one with a redundant leading zero. */
  lemma {:induction false} CanonicalComesFirst(t: string)
    requires IsDecimal(t) && !NoLeadingZeros(t)
    ensures ExactDecimalLess(Canonical(t), t) && Value(Canonical(t)) == Value(t)
  {
    var integer := DropLeadingZeros(IntegerPart(t));
    CanonicalPreservesValue(t);
    DropShortens(IntegerPart(t));
    LeadingZeros(IntegerPart(t));
    PartsOf(if integer == "" then "0" else integer, DropTrailingZeros(FractionPart(t)));
  }

  /**
   What the map relies on: a decimal is ordered by value against every decimal without
   leading zeros if and only if it has none itself. Trailing zeros do no harm.
   */
  lemma {:induction false} ComparatorIsSoundIff(t: string)
    requires IsDecimal(t)
    ensures (forall u: string :: IsDecimal(u) && NoLeadingZeros(u) ==> OrderedByValue(t, u)) <==> NoLeadingZeros(t)
  {
    if NoLeadingZeros(t) {
      forall u: string | IsDecimal(u) && NoLeadingZeros(u) ensures OrderedByValue(t, u) {
        ExactDecimalLessIsValueOrder(t, u);
        ExactDecimalLessIsValueOrder(u, t);
      }
    } else {
      CanonicalComesFirst(t);
      CanonicalPreservesValue(t);
      assert !OrderedByValue(t, Canonical(t));
    }
  }
}
