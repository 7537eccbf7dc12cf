/** Decimal text: the digits, signs, padding and trimming that the service's big-integer
    arithmetic reads and prints. */
module DecimalText {
  import opened Arith
  import opened Wrappers

  function Pow10(n: nat): (p: nat)
    ensures p >= 1
  {
    if n == 0 then 1 else 10 * Pow10(n - 1)
  }

  lemma {:induction false} Pow10Sum(a: nat, b: nat)
    ensures Pow10(a + b) == Pow10(a) * Pow10(b)
  {
    if a == 0 {
    } else {
      Pow10Sum(a - 1, b);
      assert Pow10(a + b) == 10 * Pow10(a - 1 + b);
    }
  }

  predicate IsDigit(c: char) { '0' <= c <= '9' }

  predicate AllDigits(s: string) { forall i | 0 <= i < |s| :: IsDigit(s[i]) }

  function DigitValue(c: char): (d: nat)
    requires IsDigit(c)
    ensures d < 10
  {
    c as int - '0' as int
  }

  function DigitChar(d: nat): (c: char)
    requires d < 10
    ensures IsDigit(c) && DigitValue(c) == d
  {
    ('0' as int + d) as char
  }

  /** The number a digit string denotes; leading zeros count for nothing. */
  function NatOf(s: string): nat
    requires AllDigits(s)
  {
    if s == "" then 0 else 10 * NatOf(s[..|s| - 1]) + DigitValue(s[|s| - 1])
  }

  /** The shortest digit string of a number. */
  function NatText(n: nat): (s: string)
    ensures AllDigits(s) && |s| >= 1
  {
    if n < 10 then [DigitChar(n)] else NatText(n / 10) + [DigitChar(n % 10)]
  }

  lemma {:induction false} NatTextValue(n: nat)
    ensures NatOf(NatText(n)) == n
  {
    if n < 10 {
      assert NatText(n)[..0] == "";
    } else {
      NatTextValue(n / 10);
      assert NatText(n)[..|NatText(n)| - 1] == NatText(n / 10);
    }
  }

  lemma {:induction false} NatTextLength(n: nat, w: nat)
    requires n < Pow10(w) && w >= 1
    ensures |NatText(n)| <= w
  {
    if n >= 10 {
      assert Pow10(1) == 10 * Pow10(0);
      NatTextLength(n / 10, w - 1);
    }
  }

  lemma {:induction false} NatOfConcat(a: string, b: string)
    requires AllDigits(a) && AllDigits(b)
    ensures AllDigits(a + b)
    ensures NatOf(a + b) == NatOf(a) * Pow10(|b|) + NatOf(b)
  {
    if b == "" {
      assert a + b == a;
    } else {
      var c := b[..|b| - 1];
      NatOfConcat(a, c);
      assert (a + b)[..|a + b| - 1] == a + c;
      ShiftDigit(NatOf(a), Pow10(|c|), NatOf(c), DigitValue(b[|b| - 1]));
    }
  }

  lemma ShiftDigit(x: nat, p: nat, y: nat, d: nat)
    ensures 10 * (x * p + y) + d == x * (10 * p) + (10 * y + d)
  {
  }

  function Zeros(n: nat): (s: string)
    ensures |s| == n && AllDigits(s)
  {
    seq(n, i => '0')
  }

  lemma {:induction false} NatOfZeros(n: nat)
    ensures NatOf(Zeros(n)) == 0
  {
    if n > 0 {
      NatOfZeros(n - 1);
      assert Zeros(n)[..n - 1] == Zeros(n - 1);
    }
  }

  /** strings.Repeat("0", width - len) + digits, when the digits are too few. */
  function ZeroPad(s: string, width: nat): string {
    if |s| < width then Zeros(width - |s|) + s else s
  }

  /** strings.TrimRight(s, "0"). */
  function TrimRightZeros(s: string): (t: string)
    ensures t <= s
    ensures t == "" || t[|t| - 1] != '0'
  {
    if s == "" || s[|s| - 1] != '0' then s else TrimRightZeros(s[..|s| - 1])
  }

  lemma {:induction false} TrimRightZerosRest(s: string)
    ensures s == TrimRightZeros(s) + Zeros(|s| - |TrimRightZeros(s)|)
  {
    if s != "" && s[|s| - 1] == '0' {
      var c := s[..|s| - 1];
      TrimRightZerosRest(c);
      assert Zeros(|s| - |TrimRightZeros(s)|) == Zeros(|c| - |TrimRightZeros(c)|) + "0";
      assert s == c + "0";
    } else {
      assert s + Zeros(0) == s;
    }
  }

  lemma {:induction false} TrimZeros(n: nat)
    ensures TrimRightZeros(Zeros(n)) == ""
  {
    if n > 0 {
      assert Zeros(n)[..n - 1] == Zeros(n - 1);
      TrimZeros(n - 1);
    }
  }

  // ---------------------------------------------------------------- fixed-point text

  /** ".ddd" without trailing zeros for f / 10^scale, or nothing when f is zero. */
  function FractionSuffix(f: nat, scale: nat): string {
    var digits := TrimRightZeros(ZeroPad(NatText(f), scale));
    if digits == "" then "" else "." + digits
  }

  /** q / 10^scale in the service's one canonical form. */
  function FixedText(q: nat, scale: nat): string {
    NatText(Quo(q, Pow10(scale))) + FractionSuffix(Rem(q, Pow10(scale)), scale)
  }

  /** The digits kept in the fraction carry the whole of f. */
  lemma FractionDigits(f: nat, scale: nat)
    requires f < Pow10(scale)
    ensures var d := TrimRightZeros(ZeroPad(NatText(f), scale));
            AllDigits(d) && |d| <= scale && NatOf(d) * Pow10(scale - |d|) == f
  {
    hide NatOf, NatText, TrimRightZeros;
    if scale == 0 {
      PaddedZero(0);
      NatOfZeros(0);
    } else {
      NatTextLength(f, scale);
      NatTextValue(f);
      PaddedValue(NatText(f), scale);
      TrimmedValue(ZeroPad(NatText(f), scale));
    }
  }

  lemma PaddedValue(s: string, width: nat)
    requires AllDigits(s) && |s| <= width
    ensures var p := ZeroPad(s, width); |p| == width && AllDigits(p) && NatOf(p) == NatOf(s)
  {
    hide NatOf;
    NatOfZeros(width - |s|);
    NatOfConcat(Zeros(width - |s|), s);
  }

  lemma TrimmedValue(p: string)
    requires AllDigits(p)
    ensures var d := TrimRightZeros(p); AllDigits(d) && NatOf(p) == NatOf(d) * Pow10(|p| - |d|)
  {
    hide NatOf, TrimRightZeros;
    var d := TrimRightZeros(p);
    TrimRightZerosRest(p);
    NatOfZeros(|p| - |d|);
    NatOfConcat(d, Zeros(|p| - |d|));
  }

  lemma PaddedZero(scale: nat)
    ensures TrimRightZeros(ZeroPad(NatText(0), scale)) == ""
  {
    var n := if scale == 0 then 1 else scale;
    assert NatText(0) == "0";
    assert ZeroPad("0", scale) == Zeros(n);
    TrimZeros(n);
  }

  lemma TrimAppendZero(p: string)
    ensures TrimRightZeros(p + "0") == TrimRightZeros(p)
  {
    assert (p + "0")[..|p + "0"| - 1] == p;
  }

  lemma NatTextTen(f: nat)
    requires f > 0
    ensures NatText(10 * f) == NatText(f) + "0"
  {
    assert (10 * f) / 10 == f && (10 * f) % 10 == 0;
    assert DigitChar(0) == '0';
  }

  lemma PadAppendZero(s: string, width: nat)
    ensures ZeroPad(s + "0", width + 1) == ZeroPad(s, width) + "0"
  {
    if |s| < width {
      assert Zeros(width - |s|) + (s + "0") == Zeros(width - |s|) + s + "0";
    }
  }

  lemma FractionSuffixScale(f: nat, scale: nat)
    ensures FractionSuffix(10 * f, scale + 1) == FractionSuffix(f, scale)
  {
    if f == 0 {
      PaddedZero(scale);
      PaddedZero(scale + 1);
    } else {
      NatTextTen(f);
      PadAppendZero(NatText(f), scale);
      TrimAppendZero(ZeroPad(NatText(f), scale));
    }
  }

  lemma FixedTextTen(q: nat, scale: nat)
    ensures FixedText(10 * q, scale + 1) == FixedText(q, scale)
  {
    hide FractionSuffix, NatText;
    QuoRemScale(q, Pow10(scale), 10);
    FractionSuffixScale(Rem(q, Pow10(scale)), scale);
  }

  lemma {:induction false} FixedTextScale(q: nat, scale: nat, k: nat)
    ensures FixedText(q * Pow10(k), scale + k) == FixedText(q, scale)
  {
    hide FixedText;
    if k > 0 {
      FixedTextScale(q, scale, k - 1);
      var q' := q * Pow10(k - 1);
      assert q * Pow10(k) == 10 * q';
      FixedTextTen(q', scale + (k - 1));
      assert scale + k == scale + (k - 1) + 1;
    }
  }

  /** The canonical form depends on the value alone: equal values print alike at any two scales. */
  lemma FixedTextByValue(q: nat, s: nat, r: nat, t: nat)
    requires q * Pow10(t) == r * Pow10(s)
    ensures FixedText(q, s) == FixedText(r, t)
  {
    FixedTextScale(q, s, t);
    FixedTextScale(r, t, s);
    assert s + t == t + s;
  }

  // ---------------------------------------------------------------- reading decimals

  /** unicode.IsSpace, which strings.TrimSpace uses. */
  predicate IsSpace(c: char) {
    || '\U{0009}' <= c <= '\U{000D}' || c == ' ' || c == '\U{0085}' || c == '\U{00A0}'
    || c == '\U{1680}' || '\U{2000}' <= c <= '\U{200A}' || c == '\U{2028}' || c == '\U{2029}'
    || c == '\U{202F}' || c == '\U{205F}' || c == '\U{3000}'
  }

  /** The Unicode characters with property White_Space, by code point. */
  lemma SpaceCodes(c: char)
    ensures IsSpace(c)
            <==> c as int in {9, 10, 11, 12, 13, 32, 133, 160, 5760, 8192, 8193, 8194, 8195, 8196, 8197, 8198, 8199,
                              8200, 8201, 8202, 8232, 8233, 8239, 8287, 12288}
  {
  }

  function TrimSpace(s: string): (t: string)
    ensures |t| <= |s|
    ensures t == "" || (!IsSpace(t[0]) && !IsSpace(t[|t| - 1]))
  {
    if s == "" then s
    else if IsSpace(s[0]) then TrimSpace(s[1..])
    else if IsSpace(s[|s| - 1]) then TrimSpace(s[..|s| - 1])
    else s
  }

  /** strings.Split on a one-character separator. */
  function Split(s: string, sep: char): (parts: seq<string>)
    ensures |parts| >= 1
  {
    if s == "" then [""]
    else
      var rest := Split(s[1..], sep);
      if s[0] == sep then [""] + rest else [[s[0]] + rest[0]] + rest[1..]
  }

  lemma {:induction false} SplitWhole(s: string, sep: char)
    requires sep !in s
    ensures Split(s, sep) == [s]
  {
    if s != "" {
      SplitWhole(s[1..], sep);
      assert [s[0]] + s[1..] == s;
      assert [[s[0]] + s[1..]] + [] == [s];
    }
  }

  lemma {:induction false} SplitTwo(a: string, b: string, sep: char)
    requires sep !in a && sep !in b
    ensures Split(a + [sep] + b, sep) == [a, b]
  {
    var s := a + [sep] + b;
    if a == "" {
      assert s[1..] == b;
      SplitWhole(b, sep);
    } else {
      assert s[1..] == a[1..] + [sep] + b;
      SplitTwo(a[1..], b, sep);
      assert [a[0]] + a[1..] == a;
      assert [a[1..], b][1..] == [b];
      assert [a] + [b] == [a, b];
    }
  }

  datatype DecimalError = ValueRequired | InvalidDecimal

  /** numerator / 10^scale. */
  datatype Fraction = Fraction(numerator: nat, scale: nat) {
    function Denominator(): nat { Pow10(scale) }
  }

  predicate SameValue(f: Fraction, g: Fraction) {
    f.numerator * g.Denominator() == g.numerator * f.Denominator()
  }

  function DecimalToFraction(raw: string): Result<Fraction, DecimalError> {
    var trimmed := TrimSpace(raw);
    if trimmed == "" then Err(ValueRequired)
    else UnsignedToFraction(if trimmed[0] == '+' then trimmed[1..] else trimmed)
  }

  function UnsignedToFraction(unsigned: string): Result<Fraction, DecimalError> {
    var parts := Split(unsigned, '.');
    if |parts| > 2 then Err(InvalidDecimal)
    else
      var intPart := if parts[0] == "" then "0" else parts[0];
      var fracPart := if |parts| == 2 then parts[1] else "";
      if !AllDigits(intPart + fracPart) then Err(InvalidDecimal)
      else Ok(Fraction(NatOf(intPart + fracPart), |fracPart|))
  }

  /** Optional plus sign, digits, and optionally a point with more digits: "+a.b", "a.b" or "a". */
  function PlainText(plus: bool, a: string, point: bool, b: string): string {
    (if plus then "+" else "") + (a + (if point then "." + b else ""))
  }

  lemma UnsignedValue(a: string, point: bool, b: string)
    requires AllDigits(a) && AllDigits(b) && (point || b == "")
    ensures AllDigits(a + b)
    ensures UnsignedToFraction(PlainText(false, a, point, b)) == Ok(Fraction(NatOf(a + b), |b|))
  {
    hide NatOf, Split;
    if point {
      SplitTwo(a, b, '.');
      assert PlainText(false, a, point, b) == a + "." + b;
    } else {
      SplitWhole(a, '.');
      assert PlainText(false, a, point, b) == a;
    }
    if a == "" {
      NatOfConcat("0", b);
      assert "" + b == b;
      NatOfZeros(1);
      assert "0" == Zeros(1);
    }
  }

  lemma {:induction false} SplitParts(s: string, sep: char)
    ensures var parts := Split(s, sep);
            && (|parts| == 1 ==> s == parts[0]) && (|parts| == 2 ==> s == parts[0] + [sep] + parts[1])
  {
    if s != "" {
      SplitParts(s[1..], sep);
      var rest := Split(s[1..], sep);
      assert s == [s[0]] + s[1..];
      if s[0] == sep {
        assert |rest| == 1 ==> s == "" + [sep] + rest[0];
      } else {
        assert |rest| == 1 ==> s == [s[0]] + rest[0];
        assert |rest| == 2 ==> s == ([s[0]] + rest[0]) + [sep] + rest[1];
      }
    }
  }

  /** Digits, and optionally a point with more digits, after an optional plus sign. */
  ghost predicate IsPlain(s: string) {
    exists plus, a, point, b ::
      && AllDigits(a) && AllDigits(b) && (point || b == "") && (plus || a != "" || point)
        && s == PlainText(plus, a, point, b)
  }

  /** Exactly which texts are decimals; blank text and anything else have their own errors. */
  lemma DecimalIff(raw: string)
    ensures DecimalToFraction(raw).Ok? <==> IsPlain(TrimSpace(raw))
    ensures DecimalToFraction(raw) == Err(ValueRequired) <==> TrimSpace(raw) == ""
  {
    var s := TrimSpace(raw);
    hide TrimSpace, NatOf, Split;
    if IsPlain(s) {
      var plus, a, point, b :| AllDigits(a) && AllDigits(b) && (point || b == "") && (plus || a != "" || point)
                               && s == PlainText(plus, a, point, b);
      PlainTextValue(plus, a, point, b);
      assert TrimSpace(s) == s by { PlainTextTrims(plus, a, point, b); }
    }
    if s != "" && DecimalToFraction(raw).Ok? {
      PlainAgain(s);
    }
  }

  lemma PlainAgain(s: string)
    requires s != "" && UnsignedToFraction(if s[0] == '+' then s[1..] else s).Ok?
    ensures IsPlain(s)
  {
    var (plus, u) := (s[0] == '+', if s[0] == '+' then s[1..] else s);
    var a, point, b := UnsignedAgain(u);
    hide UnsignedToFraction;
    assert s == (if plus then "+" else "") + u;
    assert s == PlainText(plus, a, point, b);
  }

  lemma UnsignedAgain(u: string) returns (a: string, point: bool, b: string)
    requires UnsignedToFraction(u).Ok?
    ensures AllDigits(a) && AllDigits(b) && (point || b == "") && u == a + (if point then "." + b else "")
  {
    SplitParts(u, '.');
    hide Split, NatOf;
    var parts := Split(u, '.');
    a, point, b := parts[0], |parts| == 2, if |parts| == 2 then parts[1] else "";
    DigitParts(if a == "" then "0" else a, b);
    assert point ==> u == a + ("." + b);
  }

  lemma DigitParts(a: string, b: string)
    requires AllDigits(a + b)
    ensures AllDigits(a) && AllDigits(b)
  {
    assert forall i | 0 <= i < |a| :: a[i] == (a + b)[i];
    assert forall i | 0 <= i < |b| :: b[i] == (a + b)[|a| + i];
  }

  /** Only space is trimmed, and all of it. */
  lemma {:induction false} TrimSpaceIs(s: string) returns (lead: string, trail: string)
    ensures s == lead + TrimSpace(s) + trail
    ensures forall c | c in lead || c in trail :: IsSpace(c)
  {
    if s == "" {
      lead, trail := "", "";
    } else if IsSpace(s[0]) {
      lead, trail := TrimSpaceIs(s[1..]);
      lead := [s[0]] + lead;
    } else if IsSpace(s[|s| - 1]) {
      lead, trail := TrimSpaceIs(s[..|s| - 1]);
      trail := trail + [s[|s| - 1]];
    } else {
      lead, trail := "", "";
    }
  }

  lemma TrimKeeps(s: string)
    requires s != "" && !IsSpace(s[0]) && !IsSpace(s[|s| - 1])
    ensures TrimSpace(s) == s
  {
  }

  lemma PlainTextTrims(plus: bool, a: string, point: bool, b: string)
    requires AllDigits(a) && AllDigits(b) && (point || b == "") && (plus || a != "" || point)
    ensures var s := PlainText(plus, a, point, b);
            TrimSpace(s) == s != "" && s[0] == (if plus then '+' else s[0]) && (!plus ==> s[0] != '+')
  {
    hide TrimSpace;
    var s := PlainText(plus, a, point, b);
    assert !IsSpace(s[0]);
    assert s[|s| - 1] == (if b != "" then b[|b| - 1] else if point then '.' else if a != "" then a[|a| - 1] else '+');
    TrimKeeps(s);
  }

  lemma PlusDropped(plus: bool, a: string, point: bool, b: string)
    ensures var s, body := PlainText(plus, a, point, b), PlainText(false, a, point, b);
            if plus then s != "" && s[1..] == body else s == body
  {
    var body := a + (if point then "." + b else "");
    assert "" + body == body;
    assert ("+" + body)[1..] == body;
  }

  lemma PlainTextValue(plus: bool, a: string, point: bool, b: string)
    requires AllDigits(a) && AllDigits(b) && (point || b == "") && (plus || a != "" || point)
    ensures AllDigits(a + b)
    ensures DecimalToFraction(PlainText(plus, a, point, b)) == Ok(Fraction(NatOf(a + b), |b|))
  {
    PlusDropped(plus, a, point, b);
    hide NatOf, TrimSpace, UnsignedToFraction, PlainText, AllDigits;
    PlainTextTrims(plus, a, point, b);
    UnsignedValue(a, point, b);
  }

  /** A plus sign, leading zeros and trailing zeros never change the value read. */
  lemma DecorationKeepsValue(plus: bool, lead: nat, a: string, b: string, trail: nat)
    requires AllDigits(a) && AllDigits(b)
    ensures var f := DecimalToFraction(PlainText(false, a, true, b));
            var g := DecimalToFraction(PlainText(plus, Zeros(lead) + a, true, b + Zeros(trail)));
            f.Ok? && g.Ok? && SameValue(f.value, g.value)
  {
    hide NatOf, DecimalToFraction, PlainText;
    PlainTextValue(false, a, true, b);
    PlainTextValue(plus, Zeros(lead) + a, true, b + Zeros(trail));
    DecoratedDigits(lead, a + b, trail);
    assert Zeros(lead) + a + (b + Zeros(trail)) == Zeros(lead) + (a + b) + Zeros(trail);
    Pow10Sum(|b|, trail);
    ScaledProduct(NatOf(a + b), Pow10(|b|), Pow10(trail));
  }

  lemma ScaledProduct(n: nat, p: nat, z: nat)
    ensures n * (p * z) == (n * z) * p
  {
  }

  lemma DecoratedDigits(lead: nat, digits: string, trail: nat)
    requires AllDigits(digits)
    ensures AllDigits(Zeros(lead) + digits + Zeros(trail))
    ensures NatOf(Zeros(lead) + digits + Zeros(trail)) == NatOf(digits) * Pow10(trail)
  {
    NatOfZeros(lead);
    NatOfZeros(trail);
    NatOfConcat(Zeros(lead), digits);
    NatOfConcat(Zeros(lead) + digits, Zeros(trail));
  }

  /** A whole number with a point and zeros after it has the value of the number alone. */
  lemma PointKeepsValue(plus: bool, lead: nat, a: string, trail: nat)
    requires AllDigits(a) && a != ""
    ensures var f := DecimalToFraction(a);
            var g := DecimalToFraction(PlainText(plus, Zeros(lead) + a, true, Zeros(trail)));
            f.Ok? && g.Ok? && SameValue(f.value, g.value)
  {
    DecorationKeepsValue(plus, lead, a, "", trail);
    assert "" + Zeros(trail) == Zeros(trail);
    assert PlainText(false, a, false, "") == a;
    PlainTextValue(false, a, false, "");
    PlainTextValue(false, a, true, "");
  }

  /** Reading back a canonical text gives exactly the printed value. */
  lemma FixedTextValue(q: nat, s: nat)
    ensures DecimalToFraction(FixedText(q, s)).Ok?
    ensures SameValue(DecimalToFraction(FixedText(q, s)).value, Fraction(q, s))
  {
    hide NatOf, NatText, TrimRightZeros, ZeroPad, DecimalToFraction, Pow10;
    var p := Pow10(s);
    QuoRem(q, p);
    var whole, f := Quo(q, p), Rem(q, p);
    var d := TrimRightZeros(ZeroPad(NatText(f), s));
    FractionDigits(f, s);
    assert FixedText(q, s) == PlainText(false, NatText(whole), d != "", d);
    PlainTextValue(false, NatText(whole), d != "", d);
    NatOfConcat(NatText(whole), d);
    NatTextValue(whole);
    Pow10Sum(|d|, s - |d|);
    FixedValueArithmetic(q, whole, f, NatOf(d), Pow10(|d|), Pow10(s - |d|), p);
  }

  lemma FixedValueArithmetic(q: nat, whole: nat, f: nat, n: nat, k: nat, j: nat, p: nat)
    requires q == whole * p + f && f == n * j && p == k * j
    ensures (whole * k + n) * p == q * k
  {
    calc {
      q * k;
      whole * p * k + n * j * k;
      whole * k * p + n * p;
      (whole * k + n) * p;
    }
  }

  /** Canonical texts are free of trailing zeros: nothing shorter names the value. */
  lemma FixedTextTrimmed(q: nat, s: nat)
    ensures var t := FixedText(q, s);
            t != "" && ('.' in t ==> t[|t| - 1] != '0' && t[|t| - 1] != '.')
  {
    hide NatText, TrimRightZeros, ZeroPad, NatOf;
    var f := Rem(q, Pow10(s));
    FractionDigits(f, s);
    var d := TrimRightZeros(ZeroPad(NatText(f), s));
    assert AllDigits(d);
    if d != "" {
      assert FixedText(q, s)[|FixedText(q, s)| - 1] == d[|d| - 1];
    } else {
      assert AllDigits(FixedText(q, s));
    }
  }

  // ---------------------------------------------------------------- signed integers

  /** big.Int.SetString(s, 10). */
  function ParseInt(s: string): Option<int> {
    if s == "" then None
    else if s[0] == '-' then
      if s[1..] != "" && AllDigits(s[1..]) then var v: int := NatOf(s[1..]); Some(-v) else None
    else if s[0] == '+' then
      if s[1..] != "" && AllDigits(s[1..]) then Some(NatOf(s[1..])) else None
    else if AllDigits(s) then Some(NatOf(s)) else None
  }

  /** big.Int.String(). */
  function IntText(n: int): string {
    if n < 0 then "-" + NatText(-n) else NatText(n)
  }

  lemma IntTextValue(n: int)
    ensures ParseInt(IntText(n)) == Some(n)
  {
    if n < 0 {
      NatTextValue(-n);
      assert IntText(n)[1..] == NatText(-n);
    } else {
      NatTextValue(n);
      assert IsDigit(NatText(n)[0]);
    }
  }

  /** A text is an integer exactly when it is digits after at most one sign, and then that number. */
  lemma ParseIntIff(s: string)
    ensures ParseInt(s).Some? <==>
              || (s != "" && AllDigits(s))
              || (|s| > 1 && (s[0] == '+' || s[0] == '-') && AllDigits(s[1..]))
    ensures s != "" && AllDigits(s) ==> ParseInt(s) == Some(NatOf(s))
    ensures |s| > 1 && s[0] == '+' && AllDigits(s[1..]) ==> ParseInt(s) == Some(NatOf(s[1..]))
    ensures |s| > 1 && s[0] == '-' && AllDigits(s[1..]) ==> ParseInt(s).Some? && ParseInt(s).value + NatOf(s[1..]) == 0
  {
    hide NatOf;
    if s != "" && AllDigits(s) { assert IsDigit(s[0]); }
  }

  function AddDecimalString(a: string, b: string): Option<string> {
    match (ParseInt(a), ParseInt(b))
    case (Some(x), Some(y)) => Some(IntText(x + y))
    case _ => None
  }

  function CompareDecimalStrings(a: string, b: string): Option<int> {
    match (ParseInt(a), ParseInt(b))
    case (Some(x), Some(y)) => Some(if x < y then -1 else if x == y then 0 else 1)
    case _ => None
  }

  function SubtractDecimalString(a: string, b: string): Option<string> {
    match (ParseInt(a), ParseInt(b))
    case (Some(x), Some(y)) => if x < y then None else Some(IntText(x - y))
    case _ => None
  }

  function RemainingAmount(desired: string, filled: string): string {
    match SubtractDecimalString(desired, filled)
    case Some(r) => r
    case None => "0"
  }

  function MinDecimalString(a: string, b: string): Option<string> {
    match (ParseInt(a), ParseInt(b))
    case (Some(x), Some(y)) => Some(if x <= y then IntText(x) else IntText(y))
    case _ => None
  }

  function Max0(n: int): int { if n < 0 then 0 else n }

  lemma IntTextInjective(x: int, y: int)
    ensures IntText(x) == IntText(y) <==> x == y
  {
    hide IntText, ParseInt;
    IntTextValue(x);
    IntTextValue(y);
  }

  /** On printed integers the order store's text helpers compute the integer sum and order. */
  lemma StoreHelpersAreIntegerArithmetic(x: int, y: int)
    ensures AddDecimalString(IntText(x), IntText(y)) == Some(IntText(x + y))
    ensures CompareDecimalStrings(IntText(x), IntText(y)).Some?
    ensures (CompareDecimalStrings(IntText(x), IntText(y)).value > 0) <==> x > y
    ensures (CompareDecimalStrings(IntText(x), IntText(y)).value == 0) <==> x == y
  {
    hide IntText, ParseInt;
    IntTextValue(x);
    IntTextValue(y);
  }

  lemma RemainingAmountIsInteger(x: int, y: int)
    ensures RemainingAmount(IntText(x), IntText(y)) == IntText(Max0(x - y))
  {
    assert IntText(0) == "0";
    hide IntText, ParseInt;
    IntTextValue(x);
    IntTextValue(y);
  }

  /** On printed integers the matcher's fill text is the minimum of the two remainders, an
      overfilled order counting as zero, and it reads "0" exactly when an order has nothing left. */
  lemma MatcherHelpersAreIntegerArithmetic(x: int, y: int, z: int, w: int)
    ensures var m := MinDecimalString(RemainingAmount(IntText(x), IntText(y)), RemainingAmount(IntText(z), IntText(w)));
            && m == Some(IntText(if Max0(x - y) <= Max0(z - w) then Max0(x - y) else Max0(z - w)))
            && (m == Some("0") <==> x <= y || z <= w)
  {
    assert IntText(0) == "0";
    hide IntText, ParseInt, RemainingAmount;
    RemainingAmountIsInteger(x, y);
    RemainingAmountIsInteger(z, w);
    var a, b := Max0(x - y), Max0(z - w);
    IntTextValue(a);
    IntTextValue(b);
    IntTextInjective(a, 0);
    IntTextInjective(b, 0);
  }
}
