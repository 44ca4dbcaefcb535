// Exact amounts as decimal text: the printer of internal/web/server.go and the
// parser of internal/amount/amount.go.

module Amounts {
  import opened Wrappers
  import opened Arith

  /** An amount as the dashboard shows it: the stored atoms and the displayed value. */
  datatype Amount = Amount(atomic: string, qday: string)

  // ----- Decimal digits

  predicate IsDigit(c: char) {
    '0' <= c <= '9'
  }

  predicate AllDigits(s: string) {
    forall i :: 0 <= i < |s| ==> IsDigit(s[i])
  }

  function Digit(d: nat): char
    requires d < 10
  {
    ('0' as int + d) as char
  }

  function DigitValue(c: char): nat
    requires IsDigit(c)
  {
    c as int - '0' as int
  }

  /** The text of a natural number, as big.Int prints it. */
  function Decimal(n: nat): (s: string)
    ensures AllDigits(s) && |s| > 0
    ensures |s| > 1 ==> s[0] != '0'
    ensures n > 0 ==> s[0] != '0'
  {
    if n < 10 then [Digit(n)] else Decimal(n / 10) + [Digit(n % 10)]
  }

  /** The number a string of digits denotes. */
  function Value(s: string): nat
    requires AllDigits(s)
  {
    if s == "" then 0 else 10 * Value(s[..|s| - 1]) + DigitValue(s[|s| - 1])
  }

  function Signed(n: int): string {
    if n < 0 then "-" + Decimal(-n) else Decimal(n)
  }

  /** Base-ten input as big.Int reads it: an optional sign and at least one digit. */
  function ReadInt(s: string): Option<int> {
    var digits := if s != "" && (s[0] == '+' || s[0] == '-') then s[1..] else s;
    if digits == "" || !AllDigits(digits) then None
    else
      var n: int := Value(digits);
      Some(if s[0] == '-' then -n else n)
  }

  function Pow10(k: nat): nat {
    if k == 0 then 1 else 10 * Pow10(k - 1)
  }

  function Zeros(k: nat): string {
    seq(k, _ => '0')
  }

  lemma {:induction false} ValueOfDecimal(n: nat)
    ensures Value(Decimal(n)) == n
  {
    if n >= 10 {
      ValueOfDecimal(n / 10);
      assert Decimal(n)[..|Decimal(n)| - 1] == Decimal(n / 10);
    }
  }

  lemma {:induction false} ValueConcat(a: string, b: string)
    requires AllDigits(a) && AllDigits(b)
    ensures AllDigits(a + b) && Value(a + b) == Value(a) * Pow10(|b|) + Value(b)
  {
    if b == "" {
      assert a + b == a;
    } else {
      var init := b[..|b| - 1];
      ValueConcat(a, init);
      assert (a + b)[..|a + b| - 1] == a + init;
      assert Value(a) * Pow10(|b|) == 10 * (Value(a) * Pow10(|init|)) by {
        TimesTen(Value(a), Pow10(|init|));
      }
    }
  }

  lemma TimesTen(a: nat, b: nat)
    ensures a * (10 * b) == 10 * (a * b)
  {
  }

  lemma {:induction false} ValueBound(s: string)
    requires AllDigits(s)
    ensures Value(s) < Pow10(|s|)
  {
    if s != "" {
      ValueBound(s[..|s| - 1]);
    }
  }

  lemma {:induction false} ValueOfZeros(k: nat)
    ensures AllDigits(Zeros(k)) && Value(Zeros(k)) == 0
  {
    if k > 0 {
      ValueOfZeros(k - 1);
      assert Zeros(k)[..k - 1] == Zeros(k - 1);
    }
  }

  /** Only zeros have the value zero. */
  lemma {:induction false} ZeroValue(s: string)
    requires AllDigits(s) && Value(s) == 0
    ensures s == Zeros(|s|)
  {
    if s != "" {
      ZeroValue(s[..|s| - 1]);
      assert s == s[..|s| - 1] + [s[|s| - 1]];
      assert Zeros(|s|) == Zeros(|s| - 1) + ['0'];
    }
  }

  lemma SameLastDigit(v: nat, c: char, w: nat, d: char)
    requires IsDigit(c) && IsDigit(d) && 10 * v + DigitValue(c) == 10 * w + DigitValue(d)
    ensures v == w && c == d
  {
  }

  /** Digits of one length are determined by their value. */
  lemma {:induction false} DigitsUnique(a: string, b: string)
    requires AllDigits(a) && AllDigits(b) && |a| == |b| && Value(a) == Value(b)
    ensures a == b
  {
    if a != "" {
      var n := |a| - 1;
      SameLastDigit(Value(a[..n]), a[n], Value(b[..n]), b[n]);
      DigitsUnique(a[..n], b[..n]);
      assert a == a[..|a| - 1] + [a[|a| - 1]];
      assert b == b[..|b| - 1] + [b[|b| - 1]];
    }
  }

  /** A digit string without superfluous leading zeros is the text of its value. */
  lemma {:induction false} DecimalOfValue(s: string)
    requires AllDigits(s) && |s| > 0 && (|s| > 1 ==> s[0] != '0')
    ensures Decimal(Value(s)) == s
  {
    var init := s[..|s| - 1];
    if |s| == 1 {
      assert init == "";
      assert s == [s[0]];
    } else {
      DecimalOfValue(init);
      ZeroLead(init);
      assert s == init + [s[|s| - 1]];
    }
  }

  lemma {:induction false} ZeroLead(s: string)
    requires AllDigits(s) && |s| > 0 && s[0] != '0'
    ensures Value(s) > 0
  {
    if |s| > 1 {
      ZeroLead(s[..|s| - 1]);
    } else {
      assert s[..|s| - 1] == "";
    }
  }

  lemma {:induction false} DecimalLength(n: nat, k: nat)
    requires n < Pow10(k) && k > 0
    ensures |Decimal(n)| <= k
  {
    if n >= 10 {
      DecimalLength(n / 10, k - 1);
    }
  }

  // ----- Text helpers

  /** Unicode white space, as strings.TrimSpace removes it. */
  predicate IsSpace(c: char) {
    c in {'\t', '\n', '\U{000B}', '\U{000C}', '\r', ' ', '\U{0085}', '\U{00A0}', '\U{1680}',
      '\U{2028}', '\U{2029}', '\U{202F}', '\U{205F}', '\U{3000}'} || '\U{2000}' <= c <= '\U{200A}'
  }

  function TrimLeft(s: string): string {
    if s != "" && IsSpace(s[0]) then TrimLeft(s[1..]) else s
  }

  function TrimRight(s: string): string {
    if s != "" && IsSpace(s[|s| - 1]) then TrimRight(s[..|s| - 1]) else s
  }

  function TrimSpace(s: string): string {
    TrimRight(TrimLeft(s))
  }

  /** Drops trailing zeros. */
  function TrimZeros(s: string): string {
    if s != "" && s[|s| - 1] == '0' then TrimZeros(s[..|s| - 1]) else s
  }

  /** Index of the first point, or the length when there is none. */
  function Point(s: string): (i: nat)
    ensures i <= |s| && (i < |s| ==> s[i] == '.')
    ensures forall j :: 0 <= j < i ==> s[j] != '.'
  {
    if s == "" || s[0] == '.' then 0 else 1 + Point(s[1..])
  }

  function CountPoints(s: string): nat {
    if s == "" then 0 else (if s[0] == '.' then 1 else 0) + CountPoints(s[1..])
  }

  lemma {:induction false} NoPoints(s: string)
    requires forall i :: 0 <= i < |s| ==> s[i] != '.'
    ensures CountPoints(s) == 0 && Point(s) == |s|
  {
    if s != "" {
      NoPoints(s[1..]);
    }
  }

  lemma {:induction false} OnePoint(a: string, b: string)
    requires AllDigits(a) && AllDigits(b)
    ensures CountPoints(a + "." + b) == 1 && Point(a + "." + b) == |a|
  {
    if a == "" {
      NoPoints(b);
      assert (a + "." + b)[1..] == b;
    } else {
      OnePoint(a[1..], b);
      assert (a + "." + b)[1..] == a[1..] + "." + b;
    }
  }

  lemma TrimmedAlready(s: string)
    requires s != "" && !IsSpace(s[0]) && !IsSpace(s[|s| - 1])
    ensures TrimSpace(s) == s
  {
  }

  lemma {:induction false} TrimZerosShape(s: string)
    requires AllDigits(s)
    ensures |TrimZeros(s)| <= |s| && AllDigits(TrimZeros(s))
    ensures s == TrimZeros(s) + Zeros(|s| - |TrimZeros(s)|)
    ensures Value(s) > 0 ==> TrimZeros(s) != ""
  {
    if s != "" && s[|s| - 1] == '0' {
      var init := s[..|s| - 1];
      TrimZerosShape(init);
      assert Zeros(|s| - |TrimZeros(s)|) == Zeros(|init| - |TrimZeros(init)|) + ['0'];
      assert s == init + ['0'];
    } else {
      assert Zeros(0) == "";
    }
  }

  lemma {:induction false} TrimZerosPadded(s: string, k: nat)
    ensures TrimZeros(s + Zeros(k)) == TrimZeros(s)
  {
    if k == 0 {
      assert s + Zeros(k) == s;
    } else {
      var padded := s + Zeros(k);
      assert padded[|padded| - 1] == '0' && padded[..|padded| - 1] == s + Zeros(k - 1);
      TrimZerosPadded(s, k - 1);
    }
  }

  // ----- Printing and parsing

  /** Division truncating towards zero, and its remainder. */
  function Quo(n: int, u: int): int
    requires u > 0
  {
    if n < 0 then -(-n / u) else n / u
  }

  function Rem(n: int, u: int): int
    requires u > 0
  {
    if n < 0 then -(-n % u) else n % u
  }

  /** q units and r atoms, with as many decimals as the remainder needs. */
  function Shown(q: int, r: int, decimals: nat): string {
    if r == 0 then Signed(q) else Signed(q) + "." + TrimZeros(LeftPad(Signed(r), decimals))
  }

  function LeftPad(text: string, k: nat): string {
    Zeros(if k > |text| then k - |text| else 0) + text
  }

  /** Atoms in displayed units, as exact decimal text. */
  function FormatAmount(value: string, unit: string): Amount {
    var n, u := ReadInt(value), ReadInt(unit);
    if n.None? || u.None? || u.value <= 0 then Amount(value, value)
    else Amount(value, Shown(Quo(n.value, u.value), Rem(n.value, u.value), |unit| - 1))
  }

  function Atoms(whole: nat, unit: nat, fraction: nat): nat {
    whole * unit + fraction
  }

  const BAD_UNIT := "invalid QDAY unit"
  const NOT_POWER_OF_TEN := "QDAY unit is not a power of ten"
  const NOT_DECIMAL := "amount must be a non-negative decimal"
  const NOT_CANONICAL := "amount is not canonical"
  const TOO_PRECISE := "amount has more precision than the current QDAY unit"

  /** The digits before and after the point; a part may not be empty. */
  function ParseParts(whole: string, fraction: string, hasPoint: bool, unit: nat, decimals: nat): Result<nat> {
    if whole == "" || (|whole| > 1 && whole[0] == '0') then Failed(NOT_CANONICAL)
    else if !AllDigits(whole) then Failed(NOT_DECIMAL)
    else if !hasPoint then Ok(Atoms(Value(whole), unit, 0))
    else if fraction == "" then Failed(NOT_CANONICAL)
    else if !AllDigits(fraction) then Failed(NOT_DECIMAL)
    else if |fraction| > decimals then Failed(TOO_PRECISE)
    else
      ValueOfZeros(decimals - |fraction|);
      ValueConcat(fraction, Zeros(decimals - |fraction|));
      Ok(Atoms(Value(whole), unit, Value(fraction + Zeros(decimals - |fraction|))))
  }

  /** A displayed amount in exact atoms of the current unit. */
  function Parse(display: string, unit: string): Result<nat> {
    var text, u := TrimSpace(display), ReadInt(unit);
    if u.None? || u.value <= 0 || Signed(u.value) != unit then Failed(BAD_UNIT)
    else if unit[0] != '1' || unit[1..] != Zeros(|unit| - 1) then Failed(NOT_POWER_OF_TEN)
    else if text == "" || text[0] == '+' || text[0] == '-' || CountPoints(text) > 1 then Failed(NOT_DECIMAL)
    else
      var i := Point(text);
      var hasPoint := i < |text|;
      ParseParts(text[..i], if hasPoint then text[i + 1..] else "", hasPoint, u.value, |unit| - 1)
  }

  /** The unit of k decimals. */
  function Unit(k: nat): string {
    "1" + Zeros(k)
  }

  lemma UnitValue(k: nat)
    ensures AllDigits(Unit(k)) && Value(Unit(k)) == Pow10(k) > 0
    ensures ReadInt(Unit(k)) == Some(Pow10(k)) && Signed(Pow10(k)) == Unit(k)
    ensures Unit(k)[0] == '1' && Unit(k)[1..] == Zeros(k) && |Unit(k)| - 1 == k
  {
    ValueOfZeros(k);
    assert "1"[..0] == "";
    assert Value("1") == 1;
    ValueConcat("1", Zeros(k));
    DecimalOfValue(Unit(k));
    assert Unit(k)[1..] == Zeros(k);
    PowPositive(k);
  }

  lemma {:induction false} PowPositive(k: nat)
    ensures Pow10(k) > 0
  {
    if k > 0 {
      PowPositive(k - 1);
    }
  }

  lemma ReadSigned(n: int)
    ensures ReadInt(Signed(n)) == Some(n)
  {
    if n < 0 {
      ValueOfDecimal(-n);
      assert Signed(n)[1..] == Decimal(-n);
    } else {
      ValueOfDecimal(n);
      assert IsDigit(Signed(n)[0]);
    }
  }

  /** The k digits after the point for a remainder r. */
  lemma PaddedShape(r: nat, k: nat)
    requires 0 < r < Pow10(k)
    ensures k > 0 && |LeftPad(Decimal(r), k)| == k && AllDigits(LeftPad(Decimal(r), k))
    ensures Value(LeftPad(Decimal(r), k)) == r
  {
    DecimalLength(r, k);
    ValueOfDecimal(r);
    ValueOfZeros(k - |Decimal(r)|);
    ValueConcat(Zeros(k - |Decimal(r)|), Decimal(r));
  }

  lemma QuotientOf(w: nat, u: nat, r: nat)
    requires r < u
    ensures Quo(Atoms(w, u, r), u) == w && Rem(Atoms(w, u, r), u) == r
  {
    var n := Atoms(w, u, r);
    assert n == (n / u) * u + n % u;
    DivisionUnique(u, n / u, w, n % u, r);
  }

  lemma SplitAtoms(n: nat, u: nat)
    requires u > 0
    ensures 0 <= Quo(n, u) && 0 <= Rem(n, u) < u
    ensures var q: nat, r: nat := Quo(n, u), Rem(n, u); Atoms(q, u, r) == n
  {
    DivMod(n, u);
  }

  lemma SplitNegative(n: int, u: nat)
    requires n < 0 < u
    ensures Quo(n, u) <= 0 && Rem(n, u) <= 0 && (Quo(n, u) < 0 || Rem(n, u) < 0)
  {
    SplitAtoms(-n, u);
  }

  lemma FormatUnit(n: int, k: nat)
    ensures Pow10(k) > 0
    ensures FormatAmount(Signed(n), Unit(k)).qday == Shown(Quo(n, Pow10(k)), Rem(n, Pow10(k)), k)
  {
    UnitValue(k);
    ReadSigned(n);
  }

  /** Under a unit of k decimals only the text of the amount matters. */
  lemma ParseUnit(s: string, k: nat)
    ensures var text := TrimSpace(s);
      Parse(s, Unit(k)) ==
        if text == "" || text[0] == '+' || text[0] == '-' || CountPoints(text) > 1 then Failed(NOT_DECIMAL)
        else
          var f := if Point(text) < |text| then text[Point(text) + 1..] else "";
          ParseParts(text[..Point(text)], f, Point(text) < |text|, Pow10(k), k)
  {
    UnitValue(k);
  }

  lemma ParseWhole(w: string, k: nat)
    requires AllDigits(w) && |w| > 0 && (|w| > 1 ==> w[0] != '0')
    ensures Parse(w, Unit(k)) == Ok(Atoms(Value(w), Pow10(k), 0))
  {
    NoPoints(w);
    TrimmedAlready(w);
    assert w[..|w|] == w;
    WholeOnly(w, Pow10(k), k);
    ParseUnit(w, k);
  }

  lemma WholeOnly(w: string, unit: nat, k: nat)
    requires AllDigits(w) && |w| > 0 && (|w| > 1 ==> w[0] != '0')
    ensures ParseParts(w, "", false, unit, k) == Ok(Atoms(Value(w), unit, 0))
    ensures w[0] != '+' && w[0] != '-'
  {
    assert IsDigit(w[0]);
  }

  lemma TextShape(w: string, f: string)
    requires AllDigits(w) && |w| > 0 && AllDigits(f) && |f| > 0
    ensures var text := w + "." + f;
      && TrimSpace(text) == text && IsDigit(text[0]) && CountPoints(text) == 1
      && Point(text) == |w| < |text| && text[..|w|] == w && text[|w| + 1..] == f
  {
    var text := w + "." + f;
    OnePoint(w, f);
    TrimmedAlready(text);
    assert text[..|w|] == w && text[|w| + 1..] == f;
  }

  lemma ParseText(w: string, f: string, k: nat)
    requires AllDigits(w) && |w| > 0 && (|w| > 1 ==> w[0] != '0')
    requires AllDigits(f) && 0 < |f| <= k
    ensures AllDigits(f + Zeros(k - |f|))
    ensures Parse(w + "." + f, Unit(k)) == Ok(Atoms(Value(w), Pow10(k), Value(f + Zeros(k - |f|))))
  {
    ParseUnit(w + "." + f, k);
    TextShape(w, f);
    assert Parse(w + "." + f, Unit(k)) == ParseParts(w, f, true, Pow10(k), k);
    ValueOfZeros(k - |f|);
    ValueConcat(f, Zeros(k - |f|));
  }

  lemma ParseShown(q: nat, r: nat, k: nat)
    requires r < Pow10(k)
    ensures Parse(Shown(q, r, k), Unit(k)) == Ok(Atoms(q, Pow10(k), r))
  {
    ValueOfDecimal(q);
    if r == 0 {
      ParseWhole(Decimal(q), k);
    } else {
      PaddedShape(r, k);
      TrimZerosShape(LeftPad(Decimal(r), k));
      ParseText(Decimal(q), TrimZeros(LeftPad(Decimal(r), k)), k);
    }
  }

  /**
    Print then parse: for every unit of k decimals, the displayed text reads back
    as the same number of atoms exactly when the amount is not negative.
   */
  lemma {:induction false} PrintParse(n: int, k: nat)
    ensures Parse(FormatAmount(Signed(n), Unit(k)).qday, Unit(k)).Ok? <==> n >= 0
    ensures n >= 0 ==> Parse(FormatAmount(Signed(n), Unit(k)).qday, Unit(k)) == Ok(n)
  {
    FormatUnit(n, k);
    if n >= 0 {
      SplitAtoms(n, Pow10(k));
      ParseShown(Quo(n, Pow10(k)), Rem(n, Pow10(k)), k);
    } else {
      SplitNegative(n, Pow10(k));
      NegativeRejected(Quo(n, Pow10(k)), Rem(n, Pow10(k)), k);
    }
  }

  lemma NegativeRejected(q: int, r: int, k: nat)
    requires q <= 0 && r <= 0 && (q < 0 || r < 0)
    ensures Parse(Shown(q, r, k), Unit(k)).Failed?
  {
    if q < 0 {
      SignedShape(q);
      MinusInFront(Shown(q, r, k), k);
    } else {
      SignedShape(r);
      assert Signed(q) == "0" && "0" + "." == "0.";
      NegativeFraction(Signed(r), k);
    }
  }

  lemma SignedShape(n: int)
    requires n < 0
    ensures Signed(n)[0] == '-' && AllDigits(Signed(n)[1..])
  {
    assert Signed(n)[1..] == Decimal(-n);
  }

  lemma NegativeFraction(text: string, k: nat)
    requires text != "" && text[0] == '-' && AllDigits(text[1..])
    ensures Parse("0." + TrimZeros(LeftPad(text, k)), Unit(k)).Failed?
  {
    MinusPadded(text, k);
    var fraction := LeftPad(text, k);
    var at := |fraction| - |text|;
    MinusKept(fraction, at);
    LastKept(fraction);
    MinusInFraction(TrimZeros(fraction), at, k);
  }

  lemma MinusPadded(text: string, k: nat)
    requires text != "" && text[0] == '-' && AllDigits(text[1..])
    ensures var fraction := LeftPad(text, k);
      && |fraction| >= |text| && fraction[|fraction| - |text|] == '-'
      && forall i :: 0 <= i < |fraction| ==> !IsSpace(fraction[i])
  {
    var fraction, pad := LeftPad(text, k), |LeftPad(text, k)| - |text|;
    forall i | 0 <= i < |fraction| ensures !IsSpace(fraction[i]) {
      if i > pad {
        assert fraction[i] == text[1..][i - pad - 1];
      }
    }
  }

  lemma MinusInFront(s: string, k: nat)
    requires s != "" && s[0] == '-'
    ensures Parse(s, Unit(k)).Failed?
  {
    ParseUnit(s, k);
    TrimKeepsHead(s);
  }

  lemma PointAfterZero(f: string)
    ensures var text := "0." + f; Point(text) == 1 < |text| && text[..1] == "0" && text[2..] == f
  {
    var text := "0." + f;
    assert text[1..] == "." + f;
    assert Point(text[1..]) == 0;
  }

  lemma MinusInFraction(f: string, at: nat, k: nat)
    requires at < |f| && f[at] == '-' && !IsSpace(f[|f| - 1])
    ensures Parse("0." + f, Unit(k)).Failed?
  {
    var shown := "0." + f;
    assert shown[0] == '0' && shown[|shown| - 1] == f[|f| - 1];
    TrimmedAlready(shown);
    ParseUnit(shown, k);
    PointAfterZero(f);
    NotDigits("0", f, at, Pow10(k), k);
  }

  lemma NotDigits(w: string, f: string, at: nat, unit: nat, k: nat)
    requires at < |f| && f[at] == '-'
    ensures ParseParts(w, f, true, unit, k).Failed?
  {
    assert !IsDigit(f[at]);
  }

  /** Trimming zeros off text that is not all zeros leaves no white space at its end. */
  lemma {:induction false} LastKept(s: string)
    requires exists i :: 0 <= i < |s| && s[i] == '-'
    requires forall i :: 0 <= i < |s| ==> !IsSpace(s[i])
    ensures TrimZeros(s) != "" && !IsSpace(TrimZeros(s)[|TrimZeros(s)| - 1])
  {
    if s[|s| - 1] == '0' {
      var i :| 0 <= i < |s| && s[i] == '-';
      assert s[..|s| - 1][i] == '-';
      LastKept(s[..|s| - 1]);
    }
  }

  /** Trimming white space leaves a first character that is not white space in place. */
  lemma TrimKeepsHead(s: string)
    requires s != "" && !IsSpace(s[0])
    ensures TrimSpace(s) != "" && TrimSpace(s)[0] == s[0]
  {
    TrimRightKeepsHead(s);
  }

  lemma {:induction false} TrimRightKeepsHead(s: string)
    requires s != "" && !IsSpace(s[0])
    ensures TrimRight(s) != "" && TrimRight(s)[0] == s[0]
  {
    if |s| > 1 && IsSpace(s[|s| - 1]) {
      TrimRightKeepsHead(s[..|s| - 1]);
    }
  }

  lemma {:induction false} MinusKept(s: string, i: nat)
    requires i < |s| && s[i] == '-'
    ensures i < |TrimZeros(s)| && TrimZeros(s)[i] == '-'
  {
    if s[|s| - 1] == '0' {
      MinusKept(s[..|s| - 1], i);
    }
  }

  /** A displayed value without the trailing zeros of its fraction and without a bare point. */
  function Canonical(text: string): string {
    var i := Point(text);
    if i == |text| then text
    else
      var fraction := TrimZeros(text[i + 1..]);
      if fraction == "" then text[..i] else text[..i] + "." + fraction
  }

  /** A whole number and the significant digits of a fraction. */
  function Joined(w: string, digits: string): string {
    if digits == "" then w else w + "." + digits
  }

  lemma ShownDigits(w: string, digits: string)
    requires AllDigits(w) && |w| > 0 && (|w| > 1 ==> w[0] != '0') && AllDigits(digits)
    ensures Shown(Value(w), Value(digits), |digits|) == Joined(w, TrimZeros(digits))
  {
    DecimalOfValue(w);
    PaddedDigits(digits);
    TrimZerosShape(digits);
  }

  /** k digits print as themselves, and only zeros have the value zero. */
  lemma PaddedDigits(s: string)
    requires AllDigits(s)
    ensures Value(s) == 0 ==> TrimZeros(s) == ""
    ensures Value(s) > 0 ==> LeftPad(Decimal(Value(s)), |s|) == s
  {
    if Value(s) == 0 {
      ZeroValue(s);
      assert s == "" + Zeros(|s|);
      TrimZerosPadded("", |s|);
    } else {
      ValueBound(s);
      PaddedShape(Value(s), |s|);
      DigitsUnique(s, LeftPad(Decimal(Value(s)), |s|));
    }
  }

  /** What accepted parts look like, and what they denote. */
  lemma PartsAccepted(w: string, f: string, hasPoint: bool, unit: nat, k: nat)
    requires ParseParts(w, f, hasPoint, unit, k).Ok? && (!hasPoint ==> f == "")
    ensures AllDigits(w) && |w| > 0 && (|w| > 1 ==> w[0] != '0') && AllDigits(f) && |f| <= k
    ensures AllDigits(f + Zeros(k - |f|))
    ensures ParseParts(w, f, hasPoint, unit, k).value == Atoms(Value(w), unit, Value(f + Zeros(k - |f|)))
  {
    ValueOfZeros(k - |f|);
    if !hasPoint {
      assert f + Zeros(k) == Zeros(k);
    } else {
      ValueConcat(f, Zeros(k - |f|));
    }
  }

  lemma ShownParts(w: string, padded: string, k: nat, n: nat)
    requires AllDigits(w) && |w| > 0 && (|w| > 1 ==> w[0] != '0') && AllDigits(padded) && |padded| == k
    requires n == Atoms(Value(w), Pow10(k), Value(padded))
    ensures Pow10(k) > 0 && Shown(Quo(n, Pow10(k)), Rem(n, Pow10(k)), k) == Joined(w, TrimZeros(padded))
  {
    ValueBound(padded);
    QuotientOf(Value(w), Pow10(k), Value(padded));
    ShownDigits(w, padded);
  }

  lemma CanonicalParts(text: string, w: string, f: string)
    requires w == text[..Point(text)] && f == if Point(text) < |text| then text[Point(text) + 1..] else ""
    ensures Canonical(text) == Joined(w, TrimZeros(f))
  {
  }

  lemma PartsShown(w: string, f: string, hasPoint: bool, k: nat, n: nat)
    requires ParseParts(w, f, hasPoint, Pow10(k), k) == Ok(n) && (!hasPoint ==> f == "")
    ensures Pow10(k) > 0 && Shown(Quo(n, Pow10(k)), Rem(n, Pow10(k)), k) == Joined(w, TrimZeros(f))
  {
    PartsAccepted(w, f, hasPoint, Pow10(k), k);
    ShownParts(w, f + Zeros(k - |f|), k, n);
    TrimZerosPadded(f, k - |f|);
  }

  /** The parts an accepted text was read from, which are also those of its canonical form. */
  lemma AcceptedParts(s: string, k: nat) returns (w: string, f: string, hasPoint: bool)
    requires Parse(s, Unit(k)).Ok?
    ensures ParseParts(w, f, hasPoint, Pow10(k), k) == Parse(s, Unit(k)) && (!hasPoint ==> f == "")
    ensures Canonical(TrimSpace(s)) == Joined(w, TrimZeros(f))
  {
    var text := TrimSpace(s);
    w, hasPoint := text[..Point(text)], Point(text) < |text|;
    f := if hasPoint then text[Point(text) + 1..] else "";
    ParseUnit(s, k);
    CanonicalParts(text, w, f);
  }

  /** Parse then print: an accepted text comes back trimmed, without trailing fraction zeros or a bare point. */
  lemma {:induction false} ParsePrint(s: string, k: nat)
    requires Parse(s, Unit(k)).Ok?
    ensures FormatAmount(Signed(Parse(s, Unit(k)).value), Unit(k)).qday == Canonical(TrimSpace(s))
  {
    var w, f, hasPoint := AcceptedParts(s, k);
    PartsShown(w, f, hasPoint, k, Parse(s, Unit(k)).value);
    FormatUnit(Parse(s, Unit(k)).value, k);
  }

  // ----- What a text denotes

  /** A decimal of whole digits w and fraction digits f: no sign, no superfluous leading zero, no bare point. */
  ghost predicate Spells(text: string, w: string, f: string) {
    && AllDigits(w) && |w| > 0 && (|w| > 1 ==> w[0] != '0') && AllDigits(f)
    && text == if f == "" then w else w + "." + f
  }

  lemma {:induction false} PowAdd(i: nat, j: nat)
    ensures Pow10(i + j) == Pow10(i) * Pow10(j)
  {
    if i > 0 {
      PowAdd(i - 1, j);
      TimesTen(Pow10(j), Pow10(i - 1));
    }
  }

  lemma PaddedIs(f: string, z: nat)
    requires AllDigits(f)
    ensures AllDigits(f + Zeros(z)) && Value(f + Zeros(z)) == Value(f) * Pow10(z)
  {
    ValueOfZeros(z);
    ValueConcat(f, Zeros(z));
  }

  /** Digits padded to k places, seen as a fraction of |f| places. */
  lemma PaddedValue(f: string, k: nat)
    requires AllDigits(f) && |f| <= k
    ensures AllDigits(f + Zeros(k - |f|)) && Value(f + Zeros(k - |f|)) * Pow10(|f|) == Value(f) * Pow10(k)
  {
    var z := k - |f|;
    PaddedIs(f, z);
    PowAdd(z, |f|);
    PaddedProduct(Value(f + Zeros(z)), Value(f), Pow10(z), Pow10(|f|), Pow10(k));
  }

  lemma PaddedProduct(padded: nat, value: nat, b: nat, c: nat, unit: nat)
    requires padded == value * b && unit == b * c
    ensures padded * c == value * unit
  {
    MulRegroup(value, b, c);
  }

  lemma MulRegroup(a: nat, b: nat, c: nat)
    ensures a * b * c == a * (b * c)
  {
  }

  lemma AtomsScaled(w: nat, unit: nat, fraction: nat, p: nat, f: nat, n: nat)
    requires fraction * p == f * unit && n == w * p + f
    ensures Atoms(w, unit, fraction) * p == n * unit
  {
    MulAdd(w * unit, fraction, p);
    MulAdd(w * p, f, unit);
    assert w * unit * p == w * p * unit;
  }

  /** An accepted text denotes its decimal value exactly: atoms over 10^k are the digits over 10^|f|. */
  lemma SpelledValue(s: string, w: string, f: string, k: nat)
    requires Spells(TrimSpace(s), w, f) && |f| <= k
    ensures AllDigits(w + f) && Parse(s, Unit(k)).Ok?
    ensures Parse(s, Unit(k)).value * Pow10(|f|) == Value(w + f) * Pow10(k)
  {
    ParseTrimmed(s, k);
    ValueConcat(w, f);
    PaddedValue(f, k);
    if f == "" {
      ParseWhole(w, k);
      assert w + f == w;
    } else {
      ParseText(w, f, k);
      AtomsScaled(
        Value(w), Pow10(k), Value(f + Zeros(k - |f|)), Pow10(|f|), Value(f), Value(w + f));
    }
  }

  lemma {:induction false} TrimRightEnds(s: string)
    ensures TrimRight(s) == "" || !IsSpace(TrimRight(s)[|TrimRight(s)| - 1])
    ensures TrimRight(s) <= s
  {
    if s != "" && IsSpace(s[|s| - 1]) {
      TrimRightEnds(s[..|s| - 1]);
    }
  }

  lemma {:induction false} TrimLeftEnds(s: string)
    ensures TrimLeft(s) == "" || !IsSpace(TrimLeft(s)[0])
  {
    if s != "" && IsSpace(s[0]) {
      TrimLeftEnds(s[1..]);
    }
  }

  /** Space around the text does not matter. */
  lemma ParseTrimmed(s: string, k: nat)
    ensures Parse(s, Unit(k)) == Parse(TrimSpace(s), Unit(k))
  {
    TrimLeftEnds(s);
    TrimRightEnds(TrimLeft(s));
    var text := TrimSpace(s);
    if text != "" {
      TrimmedAlready(text);
    }
  }

  lemma {:induction false} ReadsDecimalsExactly(s: string, k: nat)
    ensures Parse(s, Unit(k)).Ok? <==> exists w, f :: Spells(TrimSpace(s), w, f) && |f| <= k
    ensures forall w, f :: Spells(TrimSpace(s), w, f) && |f| <= k ==>
      AllDigits(w + f) && Parse(s, Unit(k)).value * Pow10(|f|) == Value(w + f) * Pow10(k)
  {
    forall w, f | Spells(TrimSpace(s), w, f) && |f| <= k
      ensures AllDigits(w + f) && Parse(s, Unit(k)).Ok?
      ensures Parse(s, Unit(k)).value * Pow10(|f|) == Value(w + f) * Pow10(k)
    {
      SpelledValue(s, w, f, k);
    }
    if Parse(s, Unit(k)).Ok? {
      AcceptedSpells(s, k);
    }
  }

  lemma AcceptedSpells(s: string, k: nat)
    requires Parse(s, Unit(k)).Ok?
    ensures exists w, f :: Spells(TrimSpace(s), w, f) && |f| <= k
  {
    var text := TrimSpace(s);
    var w, f, hasPoint := PartsOf(text);
    ParseUnit(s, k);
    PartsSpell(text, w, f, hasPoint, k);
  }

  lemma PartsOf(text: string) returns (w: string, f: string, hasPoint: bool)
    ensures w == text[..Point(text)] && (hasPoint <==> Point(text) < |text|)
    ensures f == if hasPoint then text[Point(text) + 1..] else ""
    ensures text == if hasPoint then w + "." + f else w
  {
    w, hasPoint := text[..Point(text)], Point(text) < |text|;
    f := if hasPoint then text[Point(text) + 1..] else "";
  }

  lemma PartsSpell(text: string, w: string, f: string, hasPoint: bool, k: nat)
    requires ParseParts(w, f, hasPoint, Pow10(k), k).Ok? && (!hasPoint ==> f == "")
    requires text == if hasPoint then w + "." + f else w
    ensures Spells(text, w, f) && |f| <= k
  {
    PartsAccepted(w, f, hasPoint, Pow10(k), k);
  }

  /** Only a power of ten is a unit. */
  lemma OnlyPowersOfTen(s: string, unit: string)
    requires Parse(s, unit).Ok?
    ensures unit == Unit(|unit| - 1)
  {
    assert unit == [unit[0]] + unit[1..];
  }

  /** Two texts read as the same atoms exactly when they differ only in space, trailing zeros and a bare point. */
  lemma {:induction false} SameAtoms(s: string, t: string, k: nat)
    requires Parse(s, Unit(k)).Ok? && Parse(t, Unit(k)).Ok?
    ensures Parse(s, Unit(k)) == Parse(t, Unit(k)) <==> Canonical(TrimSpace(s)) == Canonical(TrimSpace(t))
  {
    ParsePrint(s, k);
    ParsePrint(t, k);
    PrintParse(Parse(s, Unit(k)).value, k);
    PrintParse(Parse(t, Unit(k)).value, k);
  }
}
