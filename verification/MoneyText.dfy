/**
 Money text: the parser with its optional import rounding and the printer with digit grouping
 (`src/domain/money.rs`), and the proof that they invert each other.
 */
module MoneyText {
  import opened Wrappers
  import opened Cents
  import opened Text

  const MAX_WIDE := 0x7fff_ffff_ffff_ffff_ffff_ffff_ffff_ffff

  // ----- Decimal numerals ---------------------------------------------------------------------

  function Numeral(s: string): nat
    requires AllDigits(s)
  {
    if s == "" then 0 else 10 * Numeral(s[..|s| - 1]) + DigitValue(s[|s| - 1])
  }

  function Decimal(n: nat): (s: string)
    ensures s != "" && AllDigits(s)
  {
    if n < 10 then [DigitChar(n)] else Decimal(n / 10) + [DigitChar(n % 10)]
  }

  lemma {:induction false} NumeralOfDecimal(n: nat)
    ensures Numeral(Decimal(n)) == n
  {
    var s := Decimal(n);
    if n < 10 {
      assert s[..0] == "";
    } else {
      assert s[..|s| - 1] == Decimal(n / 10);
      NumeralOfDecimal(n / 10);
    }
  }

  lemma TenTimes(a: nat, p: nat)
    ensures a * (10 * p) == 10 * (a * p)
  {
  }

  function Pow10(k: nat): (p: nat)
    ensures p > 0
  {
    if k == 0 then 1 else 10 * Pow10(k - 1)
  }

  lemma {:induction false} NumeralOfConcat(a: string, b: string)
    requires AllDigits(a) && AllDigits(b)
    ensures AllDigits(a + b)
    ensures Numeral(a + b) == Numeral(a) * Pow10(|b|) + Numeral(b)
  {
    if b == "" {
      assert a + b == a;
    } else {
      var init := b[..|b| - 1];
      assert (a + b)[..|a + b| - 1] == a + init;
      assert (a + b)[|a + b| - 1] == b[|b| - 1];
      NumeralOfConcat(a, init);
      TenTimes(Numeral(a), Pow10(|init|));
    }
  }

  lemma {:induction false} NumeralBound(s: string)
    requires AllDigits(s)
    ensures Numeral(s) < Pow10(|s|)
  {
    if s != "" {
      NumeralBound(s[..|s| - 1]);
    }
  }

  // ----- The parser ---------------------------------------------------------------------------

  /** What the prefix loop has consumed: at most one sign and one currency mark, in either order. */
  datatype Prefix = Prefix(sign: Option<char>, currency: bool, rest: string)

  function StripPrefix(p: Prefix, rounds: nat): Prefix
    decreases rounds
  {
    if rounds == 0 then p
    else
      var s := TrimStart(p.rest);
      if !p.currency && StartsWith(s, '$') then
        StripPrefix(Prefix(p.sign, true, s[1..]), rounds - 1)
      else if p.sign.None? && (StartsWith(s, '-') || StartsWith(s, '+')) then
        StripPrefix(Prefix(Some(s[0]), p.currency, s[1..]), rounds - 1)
      else p.(rest := s)
  }

  /** The accepted shapes of the part before the decimal point, with the group separators removed. */
  function UngroupedDigits(whole: string): Result<string, MoneyError> {
    if ',' in whole then
      var groups := Split(whole, ',');
      if groups[0] == "" || |groups[0]| > 3 || exists i :: 1 <= i < |groups| && |groups[i]| != 3 then
        Err(Invalid)
      else
        Ok(Concat(groups))
    else
      Ok(whole)
  }

  /** The sign and the digits that a text shows, before any arithmetic. */
  datatype Shown = Shown(negative: bool, whole: string, fraction: string) {
    predicate Valid() {
      whole != "" && AllDigits(whole) && AllDigits(fraction)
    }
  }

  function ReadAmount(accounting: bool, prefix: Prefix): (r: Result<Shown, MoneyError>)
    ensures r.Ok? ==> r.value.Valid()
    ensures r.Err? ==> r.error == Invalid
  {
    var s := prefix.rest;
    if s == "" || (accounting && prefix.sign.Some?) then Err(Invalid)
    else
      var (whole, fraction) := match SplitOnce(s, '.') case None => (s, "") case Some(parts) => parts;
      if !AllDigits(fraction) then Err(Invalid)
      else
        var digits :- UngroupedDigits(whole);
        if digits == "" || !AllDigits(digits) then Err(Invalid)
        else Ok(Shown(accounting || prefix.sign == Some('-'), digits, fraction))
  }

  function Read(text: string): (r: Result<Shown, MoneyError>)
    ensures r.Ok? ==> r.value.Valid()
    ensures r.Err? ==> r.error == Invalid
  {
    var trimmed := Trim(text);
    var accounting := StartsWith(trimmed, '(') && EndsWith(trimmed, ')');
    var inner := if accounting then Trim(trimmed[1..|trimmed| - 1]) else trimmed;
    var prefix := StripPrefix(Prefix(None, false, inner), 2);
    ReadAmount(accounting, prefix)
  }

  function FractionDigit(fraction: string, i: nat): nat
    requires AllDigits(fraction)
  {
    if i < |fraction| then DigitValue(fraction[i]) else 0
  }

  /** The 128-bit arithmetic on the digits: two fraction digits count, the third only rounds. */
  function Evaluate(shown: Shown, importing: bool): Result<Money, MoneyError>
    requires shown.Valid()
  {
    var whole := Numeral(shown.whole);
    var cents := whole * 100 + FractionDigit(shown.fraction, 0) * 10 + FractionDigit(shown.fraction, 1);
    if whole > MAX_WIDE || cents > MAX_WIDE then Err(Overflow)
    else if |shown.fraction| > 2 && !importing then Err(RoundingRequired)
    else
      var rounded := if FractionDigit(shown.fraction, 2) >= 5 then cents + 1 else cents;
      if rounded > MAX_WIDE then Err(Overflow)
      else Narrow(if shown.negative then -rounded else rounded)
  }

  /** The cents before the sign is applied, as the digits determine them. */
  function RoundedCents(shown: Shown): nat
    requires shown.Valid()
  {
    Numeral(shown.whole) * 100 + FractionDigit(shown.fraction, 0) * 10 + FractionDigit(shown.fraction, 1)
    + if FractionDigit(shown.fraction, 2) >= 5 then 1 else 0
  }

  /** What the staged 128-bit checks amount to: the rounded cents with their sign, if they fit 64 bits. */
  lemma EvaluateIsRoundedCents(shown: Shown, importing: bool)
    requires shown.Valid() && (importing || |shown.fraction| <= 2)
    ensures Evaluate(shown, importing)
         == Narrow(if shown.negative then 0 - RoundedCents(shown) else RoundedCents(shown))
  {
  }

  function ParseMoney(text: string, importing: bool): Result<Money, MoneyError> {
    var shown :- Read(text);
    Evaluate(shown, importing)
  }

  method Parse(text: string, importing: bool) returns (r: Result<Money, MoneyError>)
    ensures r == ParseMoney(text, importing)
  {
    hide Trim, TrimStart, ReadAmount, Evaluate;
    var s := Trim(text);
    var accounting := StartsWith(s, '(') && EndsWith(s, ')');
    if accounting {
      s := Trim(s[1..|s| - 1]);
    }
    var sign: Option<char> := None;
    var currency := false;
    ghost var all := StripPrefix(Prefix(None, false, s), 2);
    var done := false;
    for round := 0 to 2
      invariant all == if done then Prefix(sign, currency, s) else StripPrefix(Prefix(sign, currency, s), 2 - round)
    {
      if !done {
        s := TrimStart(s);
        if !currency && StartsWith(s, '$') {
          currency := true;
          s := s[1..];
        } else if sign.None? && (StartsWith(s, '-') || StartsWith(s, '+')) {
          sign := Some(s[0]);
          s := s[1..];
        } else {
          done := true;
        }
      }
    }
    var shown :- ReadAmount(accounting, Prefix(sign, currency, s));
    r := Evaluate(shown, importing);
  }

  // ----- The printer --------------------------------------------------------------------------

  /** Digits in groups of three counted from the right, as a reader would group them. */
  function Grouped(digits: string): string {
    if |digits| <= 3 then digits
    else Grouped(digits[..|digits| - 3]) + "," + digits[|digits| - 3..]
  }

  function Hundredths(absolute: nat): (s: string)
    ensures |s| == 2 && AllDigits(s)
  {
    [DigitChar(absolute % 100 / 10), DigitChar(absolute % 10)]
  }

  /** The text after sign and currency mark. */
  function Body(absolute: nat): string {
    Grouped(Decimal(absolute / 100)) + "." + Hundredths(absolute)
  }

  function Display(m: Money): string {
    var absolute := Magnitude(m);
    (if m < 0 then "-" else "") + "$" + Body(absolute)
  }

  /** What the left-to-right loop has pushed after `i` digits of `digits`. */
  ghost function Pushed(digits: string, i: nat): string
    requires i <= |digits|
  {
    if i == 0 then ""
    else
      Pushed(digits, i - 1) + (if i - 1 > 0 && (|digits| - (i - 1)) % 3 == 0 then "," else "") + [digits[i - 1]]
  }

  lemma {:induction false} PushedPrefix(digits: string, i: nat)
    requires |digits| > 3 && i <= |digits| - 3
    ensures Pushed(digits, i) == Pushed(digits[..|digits| - 3], i)
  {
    if i > 0 {
      PushedPrefix(digits, i - 1);
    }
  }

  lemma PushedOne(digits: string, i: nat)
    requires i < |digits|
    ensures Pushed(digits, 0) == ""
    ensures i > 0 && (|digits| - i) % 3 == 0 ==> Pushed(digits, i + 1) == Pushed(digits, i) + "," + [digits[i]]
    ensures !(i > 0 && (|digits| - i) % 3 == 0) ==> Pushed(digits, i + 1) == Pushed(digits, i) + [digits[i]]
  {
    assert Pushed(digits, i) + "" + [digits[i]] == Pushed(digits, i) + [digits[i]];
  }

  lemma NoComma(n: nat, i: nat)
    requires i < n <= 3
    ensures !(i > 0 && (n - i) % 3 == 0)
  {
  }

  lemma {:induction false} OneGroup(digits: string, i: nat)
    requires i <= |digits| <= 3
    ensures Pushed(digits, i) == digits[..i]
  {
    if i > 0 {
      OneGroup(digits, i - 1);
      NoComma(|digits|, i - 1);
      PushedOne(digits, i - 1);
    }
  }

  lemma AppendThree(s: string, t: string)
    requires |t| == 3
    ensures s + [t[0]] + [t[1]] + [t[2]] == s + t
  {
    assert [t[0]] + [t[1]] + [t[2]] == t;
  }

  lemma LastGroup(digits: string)
    requires |digits| > 3
    ensures Pushed(digits, |digits|) == Pushed(digits, |digits| - 3) + "," + digits[|digits| - 3..]
  {
    hide Pushed;
    var n := |digits|;
    PushedOne(digits, n - 3);
    PushedOne(digits, n - 2);
    PushedOne(digits, n - 1);
    AppendThree(Pushed(digits, n - 3) + ",", digits[n - 3..]);
  }

  lemma {:induction false} PushedIsGrouped(digits: string)
    ensures Pushed(digits, |digits|) == Grouped(digits)
  {
    hide Pushed;
    if |digits| <= 3 {
      OneGroup(digits, |digits|);
    } else {
      PushedPrefix(digits, |digits| - 3);
      PushedIsGrouped(digits[..|digits| - 3]);
      LastGroup(digits);
    }
  }

  method Format(m: Money) returns (text: string)
    ensures text == Display(m)
  {
    var absolute := Magnitude(m);
    var whole := Decimal(absolute / 100);
    var grouped := "";
    for i := 0 to |whole|
      invariant grouped == Pushed(whole, i)
    {
      if i > 0 && (|whole| - i) % 3 == 0 {
        grouped := grouped + ",";
      }
      grouped := grouped + [whole[i]];
    }
    PushedIsGrouped(whole);
    text := (if m < 0 then "-" else "") + "$" + grouped + "." + Hundredths(absolute);
  }

  // ----- Round trip ---------------------------------------------------------------------------

  lemma {:induction false} GroupedCharacters(digits: string)
    requires digits != "" && AllDigits(digits)
    ensures var g := Grouped(digits);
            && g != "" && IsDigit(g[0]) && '.' !in g
            && (',' in g <==> |digits| > 3)
            && (forall i :: 0 <= i < |g| ==> IsDigit(g[i]) || g[i] == ',')
  {
    if |digits| > 3 {
      GroupedCharacters(digits[..|digits| - 3]);
    }
  }

  lemma {:induction false} SplitOfGrouped(digits: string)
    requires digits != "" && AllDigits(digits)
    ensures var groups := Split(Grouped(digits), ',');
            && 1 <= |groups[0]| <= 3
            && (forall i :: 1 <= i < |groups| ==> |groups[i]| == 3)
            && Concat(groups) == digits
  {
    var n := |digits|;
    if n <= 3 {
      assert Split(digits, ',') == [digits];
      assert Concat([digits]) == digits + Concat([digits][1..]);
    } else {
      var left, right := digits[..n - 3], digits[n - 3..];
      SplitOfGrouped(left);
      SplitLast(Grouped(left), ',', right);
      ConcatLast(Split(Grouped(left), ','), right);
      assert digits == left + right;
    }
  }

  lemma UngroupedOfGrouped(digits: string)
    requires digits != "" && AllDigits(digits)
    ensures UngroupedDigits(Grouped(digits)) == Ok(digits)
  {
    GroupedCharacters(digits);
    SplitOfGrouped(digits);
    if |digits| <= 3 {
      assert Grouped(digits) == digits;
    }
  }

  /** The characters of printed money: it starts with a sign or the currency mark and ends in a digit. */
  lemma DisplayCharacters(m: Money)
    ensures var t := Display(m);
            && |t| > 3 && (t[0] == '-' || t[0] == '$') && IsDigit(t[|t| - 1])
            && (forall i :: 0 <= i < |t| ==> IsDigit(t[i]) || t[i] in "-$,.")
  {
    var absolute := Magnitude(m);
    GroupedCharacters(Decimal(absolute / 100));
  }

  lemma BodyCharacters(absolute: nat)
    ensures var body := Body(absolute);
            body != "" && IsDigit(body[0]) && TrimStart(body) == body
  {
    GroupedCharacters(Decimal(absolute / 100));
    TrimStartIdle(Body(absolute));
  }

  lemma StripDisplay(m: Money)
    ensures StripPrefix(Prefix(None, false, Display(m)), 2)
         == Prefix(if m < 0 then Some('-') else None, true, Body(Magnitude(m)))
  {
    var body := Body(Magnitude(m));
    BodyCharacters(Magnitude(m));
    var marked := "$" + body;
    TrimStartIdle(marked);
    assert marked[1..] == body;
    if m < 0 {
      assert Display(m) == "-" + marked;
      TrimStartIdle(Display(m));
      assert Display(m)[1..] == marked;
      assert StripPrefix(Prefix(Some('-'), false, marked), 1) == StripPrefix(Prefix(Some('-'), true, body), 0);
    } else {
      assert Display(m) == marked;
      assert StripPrefix(Prefix(None, true, body), 1) == Prefix(None, true, body);
    }
  }

  lemma ReadBody(sign: Option<char>, absolute: nat)
    ensures ReadAmount(false, Prefix(sign, true, Body(absolute)))
         == Ok(Shown(sign == Some('-'), Decimal(absolute / 100), Hundredths(absolute)))
  {
    var whole := Decimal(absolute / 100);
    GroupedCharacters(whole);
    SplitOnceAt(Grouped(whole), '.', Hundredths(absolute));
    UngroupedOfGrouped(whole);
  }

  lemma ReadOfDisplay(m: Money)
    ensures Read(Display(m))
         == Ok(Shown(m < 0, Decimal(Magnitude(m) / 100), Hundredths(Magnitude(m))))
  {
    DisplayCharacters(m);
    TrimIdle(Display(m));
    StripDisplay(m);
    ReadBody(if m < 0 then Some('-') else None, Magnitude(m));
  }

  lemma ShownCents(negative: bool, absolute: nat)
    ensures RoundedCents(Shown(negative, Decimal(absolute / 100), Hundredths(absolute))) == absolute
  {
    NumeralOfDecimal(absolute / 100);
    assert absolute / 100 * 100 + absolute % 100 / 10 * 10 + absolute % 10 == absolute;
  }

  /** Displaying any amount and parsing the text gives the amount back, the minimum included. */
  lemma {:induction false} RoundTrip(m: Money, importing: bool)
    ensures ParseMoney(Display(m), importing) == Ok(m)
  {
    var absolute := Magnitude(m);
    ReadOfDisplay(m);
    var shown := Shown(m < 0, Decimal(absolute / 100), Hundredths(absolute));
    EvaluateIsRoundedCents(shown, importing);
    ShownCents(m < 0, absolute);
  }

  // ----- Import rounding ----------------------------------------------------------------------

  /** The first three digits of a fraction decide the rounding of all of it. */
  lemma FractionSplit(fraction: string)
    requires AllDigits(fraction) && |fraction| > 2
    ensures AllDigits(fraction[3..])
    ensures Numeral(fraction[3..]) < Pow10(|fraction| - 3)
    ensures Numeral(fraction)
         == (FractionDigit(fraction, 0) * 100 + FractionDigit(fraction, 1) * 10 + FractionDigit(fraction, 2))
            * Pow10(|fraction| - 3) + Numeral(fraction[3..])
  {
    var head, tail := fraction[..3], fraction[3..];
    assert fraction == head + tail;
    NumeralOfConcat(head, tail);
    NumeralBound(tail);
    assert head[..2][..1][..0] == "";
    assert Numeral(head) == 10 * Numeral(head[..2]) + DigitValue(head[2]);
    assert Numeral(head[..2]) == 10 * Numeral(head[..2][..1]) + DigitValue(head[1]);
    assert Numeral(head[..2][..1]) == DigitValue(head[0]);
  }

  /** `magnitude` is the whole number nearest to `numerator / denominator`, a tie going upwards. */
  predicate NearestTiesUp(magnitude: int, numerator: nat, denominator: nat) {
    2 * numerator - denominator < 2 * magnitude * denominator <= 2 * numerator + denominator
  }

  /** Up to two digits the cents are exact. */
  lemma ShortFraction(fraction: string)
    requires AllDigits(fraction) && |fraction| <= 2
    ensures FractionDigit(fraction, 2) == 0
    ensures |fraction| == 0 ==> Pow10(|fraction|) == 1 && Numeral(fraction) == 0
    ensures |fraction| == 1 ==> Pow10(|fraction|) == 10 && Numeral(fraction) == FractionDigit(fraction, 0)
    ensures |fraction| == 2 ==>
              && Pow10(|fraction|) == 100
              && Numeral(fraction) == 10 * FractionDigit(fraction, 0) + FractionDigit(fraction, 1)
  {
    if |fraction| == 1 {
      assert fraction[..0] == "";
      assert Pow10(1) == 10 * Pow10(0);
    } else if |fraction| == 2 {
      assert fraction[..1][..0] == "";
      assert Numeral(fraction) == 10 * Numeral(fraction[..1]) + DigitValue(fraction[1]);
      assert Pow10(2) == 10 * Pow10(1) && Pow10(1) == 10 * Pow10(0);
    }
  }

  lemma Pow10Thousand(k: nat)
    ensures Pow10(k + 3) == 1000 * Pow10(k)
  {
    assert Pow10(k + 3) == 10 * Pow10(k + 2);
    assert Pow10(k + 2) == 10 * Pow10(k + 1);
  }

  lemma RoundingScale(w: nat, d0: nat, d1: nat, d2: nat, t: nat, p: nat)
    ensures 100 * (w * (1000 * p) + ((d0 * 100 + d1 * 10 + d2) * p + t))
         == (w * 100 + d0 * 10 + d1) * (1000 * p) + 100 * (d2 * p + t)
  {
  }

  lemma {:induction false} RoundingArithmetic(w: nat, d0: nat, d1: nat, d2: nat, t: nat, p: nat)
    requires d2 < 10 && t < p
    ensures NearestTiesUp(w * 100 + d0 * 10 + d1 + if d2 >= 5 then 1 else 0,
                          100 * (w * (1000 * p) + ((d0 * 100 + d1 * 10 + d2) * p + t)), 1000 * p)
  {
    var cents := w * 100 + d0 * 10 + d1;
    RoundingScale(w, d0, d1, d2, t, p);
    if d2 >= 5 {
      assert 5 * p <= d2 * p <= 9 * p;
      assert (cents + 1) * (1000 * p) == cents * (1000 * p) + 1000 * p;
    } else {
      assert 0 <= d2 * p <= 4 * p;
    }
    var up := if d2 >= 5 then 1 else 0;
    assert 2 * (cents + up) * (1000 * p) == 2 * ((cents + up) * (1000 * p));
  }

  lemma RoundedIsNearest(shown: Shown)
    requires shown.Valid()
    ensures AllDigits(shown.whole + shown.fraction)
    ensures NearestTiesUp(RoundedCents(shown), 100 * Numeral(shown.whole + shown.fraction), Pow10(|shown.fraction|))
  {
    hide Numeral, Pow10;
    var fraction := shown.fraction;
    NumeralOfConcat(shown.whole, fraction);
    if |fraction| <= 2 {
      ShortFraction(fraction);
    } else {
      FractionSplit(fraction);
      Pow10Thousand(|fraction| - 3);
      RoundingArithmetic(Numeral(shown.whole),
                         FractionDigit(fraction, 0), FractionDigit(fraction, 1), FractionDigit(fraction, 2),
                         Numeral(fraction[3..]), Pow10(|fraction| - 3));
    }
  }

  lemma ParsedMagnitude(negative: bool, cents: nat)
    ensures var narrowed := Narrow(if negative then 0 - cents else cents);
            narrowed.Ok? ==> Magnitude(narrowed.value) == cents && (if negative then narrowed.value <= 0 else narrowed.value >= 0)
  {
  }

  /**
   Import parsing of any accepted text, whatever the number of fraction digits, gives the cent
   nearest to the amount shown, ties away from zero. The amount shown is the fraction
   `Numeral(whole + fraction) / 10^|fraction|` dollars.
   */
  lemma {:induction false} ImportRoundsToNearestCent(text: string)
    requires ParseMoney(text, true).Ok?
    ensures var shown, cents := Read(text).value, ParseMoney(text, true).value;
            && AllDigits(shown.whole + shown.fraction)
            && (if shown.negative then cents <= 0 else cents >= 0)
            && NearestTiesUp(Magnitude(cents), 100 * Numeral(shown.whole + shown.fraction), Pow10(|shown.fraction|))
  {
    var shown := Read(text).value;
    EvaluateIsRoundedCents(shown, true);
    RoundedIsNearest(shown);
    ParsedMagnitude(shown.negative, RoundedCents(shown));
  }
}
