/** Exactly which texts are amounts, and which amounts they are (`src/domain/money.rs`, lines 71-141). */
module MoneyGrammar {
  import opened Wrappers
  import opened Cents
  import opened Text
  import opened MoneyText

  // ----- The grammar --------------------------------------------------------------------------

  predicate Blanks(s: string) {
    forall i :: 0 <= i < |s| ==> IsWhitespace(s[i])
  }

  predicate IsSign(c: char) {
    c == '-' || c == '+'
  }

  /** Marks before a number: none; one, which blanks may follow; or a sign and a currency mark, with blanks only between. */
  ghost predicate IsPrefix(pre: string, sign: Option<char>) {
    || (pre == "" && sign == None)
    || (exists mark: char, gap: string ::
          pre == [mark] + gap && Blanks(gap) && if mark == '$' then sign == None else IsSign(mark) && sign == Some(mark))
    || (exists mark: char, gap: string ::
          IsSign(mark) && Blanks(gap) && sign == Some(mark)
          && (pre == ['$'] + gap + [mark] || pre == [mark] + gap + ['$']))
  }

  /** Texts between commas. */
  function Join(groups: seq<string>): string
    requires groups != []
  {
    if |groups| == 1 then groups[0] else groups[0] + [','] + Join(groups[1..])
  }

  /** A whole number written without commas, or in groups of three after a first one of one to three digits. */
  ghost predicate IsWhole(written: string, digits: string) {
    && digits != "" && AllDigits(digits)
    && (written == digits
        || exists groups: seq<string> ::
             && |groups| >= 2 && written == Join(groups) && digits == Concat(groups)
             && 1 <= |groups[0]| <= 3 && forall i :: 1 <= i < |groups| ==> |groups[i]| == 3)
  }

  /** A whole number, and a point with the fraction digits unless there are none. */
  ghost predicate IsNumber(n: string, whole: string, fraction: string) {
    && AllDigits(fraction)
    && exists written: string ::
         IsWhole(written, whole) && (n == written + ['.'] + fraction || (n == written && fraction == ""))
  }

  /** A marked number is negative by a minus sign, one in parentheses, which takes no sign, always. */
  ghost predicate IsAmount(core: string, shown: Shown) {
    || (exists pre, n: string, sign ::
          core == pre + n && IsPrefix(pre, sign) && IsNumber(n, shown.whole, shown.fraction)
          && shown.negative == (sign == Some('-')))
    || (exists lead, pre, n, trail: string ::
          core == ['('] + (lead + (pre + n) + trail) + [')'] && Blanks(lead) && Blanks(trail)
          && IsPrefix(pre, None) && IsNumber(n, shown.whole, shown.fraction) && shown.negative)
  }

  /** A text shows an amount when it is one between blanks. */
  ghost predicate Shows(text: string, shown: Shown) {
    exists lead, core, trail: string :: text == lead + core + trail && Blanks(lead) && Blanks(trail) && IsAmount(core, shown)
  }

  // ----- Blanks -------------------------------------------------------------------------------

  lemma {:induction false} TrimStartDrops(lead: string, s: string)
    requires Blanks(lead) && (s == "" || !IsWhitespace(s[0]))
    ensures TrimStart(lead + s) == s
  {
    hide IsWhitespace;
    if lead == "" {
      assert lead + s == s;
    } else {
      assert (lead + s)[1..] == lead[1..] + s;
      TrimStartDrops(lead[1..], s);
    }
  }

  lemma {:induction false} TrimEndDrops(s: string, trail: string)
    requires Blanks(trail) && (s == "" || !IsWhitespace(s[|s| - 1]))
    ensures TrimEnd(s + trail) == s
  {
    hide IsWhitespace;
    if trail == "" {
      assert s + trail == s;
    } else {
      var n := |trail| - 1;
      assert (s + trail)[..|s + trail| - 1] == s + trail[..n];
      TrimEndDrops(s, trail[..n]);
    }
  }

  lemma TrimDrops(lead: string, core: string, trail: string)
    requires Blanks(lead) && Blanks(trail) && core != "" && !IsWhitespace(core[0]) && !IsWhitespace(core[|core| - 1])
    ensures Trim(lead + core + trail) == core
  {
    hide IsWhitespace;
    assert lead + core + trail == lead + (core + trail);
    TrimStartDrops(lead, core + trail);
    TrimEndDrops(core, trail);
  }

  lemma {:induction false} TrimStartSplits(s: string) returns (lead: string)
    ensures s == lead + TrimStart(s) && Blanks(lead)
    ensures TrimStart(s) == "" || !IsWhitespace(TrimStart(s)[0])
  {
    hide IsWhitespace;
    lead := "";
    if s != "" && IsWhitespace(s[0]) {
      var rest := TrimStartSplits(s[1..]);
      lead := [s[0]] + rest;
    }
  }

  lemma {:induction false} TrimEndSplits(s: string) returns (trail: string)
    ensures s == TrimEnd(s) + trail && Blanks(trail)
    ensures TrimEnd(s) == "" || (TrimEnd(s)[0] == s[0] && !IsWhitespace(TrimEnd(s)[|TrimEnd(s)| - 1]))
  {
    hide IsWhitespace;
    trail := "";
    if s != "" && IsWhitespace(s[|s| - 1]) {
      var rest := TrimEndSplits(s[..|s| - 1]);
      trail := rest + [s[|s| - 1]];
    }
  }

  lemma TrimSplits(s: string) returns (lead: string, trail: string)
    ensures s == lead + Trim(s) + trail && Blanks(lead) && Blanks(trail)
    ensures Trim(s) == "" || (!IsWhitespace(Trim(s)[0]) && !IsWhitespace(Trim(s)[|Trim(s)| - 1]))
  {
    hide IsWhitespace;
    lead := TrimStartSplits(s);
    trail := TrimEndSplits(TrimStart(s));
  }

  // ----- Numbers ------------------------------------------------------------------------------

  lemma {:induction false} SplitFirst(left: string, c: char, right: string)
    requires c !in left
    ensures Split(left + [c] + right, c) == [left] + Split(right, c)
  {
    var s := left + [c] + right;
    if left == "" {
      assert s[1..] == right;
    } else {
      assert s[1..] == left[1..] + [c] + right;
      SplitFirst(left[1..], c, right);
      assert [left[0]] + left[1..] == left;
    }
  }

  lemma {:induction false} SplitOfJoin(groups: seq<string>)
    requires groups != [] && forall i :: 0 <= i < |groups| ==> ',' !in groups[i]
    ensures Split(Join(groups), ',') == groups
    ensures |groups| >= 2 ==> ',' in Join(groups)
  {
    if |groups| > 1 {
      SplitFirst(groups[0], ',', Join(groups[1..]));
      SplitOfJoin(groups[1..]);
      assert Join(groups)[|groups[0]|] == ',';
    }
  }

  lemma {:induction false} JoinOfSplit(s: string)
    ensures Join(Split(s, ',')) == s
  {
    if s != "" {
      JoinOfSplit(s[1..]);
      var rest, all := Split(s[1..], ','), Split(s, ',');
      assert s == [s[0]] + s[1..];
      if s[0] == ',' {
        assert all[1..] == rest;
        assert Join(all) == "" + [','] + Join(rest);
      } else {
        assert all[1..] == rest[1..];
      }
    }
  }

  lemma DigitsOfTwo(a: string, b: string)
    ensures AllDigits(a + b) <==> AllDigits(a) && AllDigits(b)
  {
    if AllDigits(a + b) {
      forall i | 0 <= i < |a| ensures IsDigit(a[i]) {
        assert (a + b)[i] == a[i];
      }
      forall i | 0 <= i < |b| ensures IsDigit(b[i]) {
        assert (a + b)[|a| + i] == b[i];
      }
    }
  }

  lemma {:induction false} DigitsOfConcat(groups: seq<string>)
    ensures AllDigits(Concat(groups)) <==> forall i :: 0 <= i < |groups| ==> AllDigits(groups[i])
  {
    if groups != [] {
      DigitsOfConcat(groups[1..]);
      var first, rest := groups[0], Concat(groups[1..]);
      assert AllDigits(first + rest) <==> AllDigits(first) && AllDigits(rest) by {
        DigitsOfTwo(first, rest);
      }
      assert forall i :: 1 <= i < |groups| ==> groups[i] == groups[1..][i - 1];
    }
  }

  lemma {:induction false} ConcatStarts(groups: seq<string>)
    requires groups != [] && groups[0] != ""
    ensures Concat(groups) != "" && Concat(groups)[0] == groups[0][0]
  {
  }

  /** Taking the commas out succeeds with digits exactly for the written whole numbers. */
  lemma {:induction false} WholeExactly(written: string, digits: string)
    ensures UngroupedDigits(written) == Ok(digits) && digits != "" && AllDigits(digits) <==> IsWhole(written, digits)
  {
    if UngroupedDigits(written) == Ok(digits) && AllDigits(digits) && ',' in written {
      JoinOfSplit(written);
      var groups := Split(written, ',');
      assert |groups| >= 2;
      assert written == Join(groups) && digits == Concat(groups);
    }
    if IsWhole(written, digits) {
      if written != digits {
        var groups: seq<string> :| |groups| >= 2 && written == Join(groups) && digits == Concat(groups)
          && 1 <= |groups[0]| <= 3 && forall i :: 1 <= i < |groups| ==> |groups[i]| == 3;
        DigitsOfConcat(groups);
        assert forall i :: 0 <= i < |groups| ==> ',' !in groups[i];
        SplitOfJoin(groups);
      }
    }
  }

  lemma {:induction false} JoinCharacters(groups: seq<string>)
    requires groups != [] && forall i :: 0 <= i < |groups| ==> groups[i] != "" && AllDigits(groups[i])
    ensures var s := Join(groups); s != "" && IsDigit(s[0]) && IsDigit(s[|s| - 1]) && '.' !in s
  {
    if |groups| > 1 {
      JoinCharacters(groups[1..]);
    }
  }

  lemma {:induction false} WholeCharacters(written: string, digits: string)
    requires IsWhole(written, digits)
    ensures written != "" && IsDigit(written[0]) && IsDigit(written[|written| - 1]) && '.' !in written
  {
    if written != digits {
      var groups: seq<string> :| |groups| >= 2 && written == Join(groups) && digits == Concat(groups)
        && 1 <= |groups[0]| <= 3 && forall i :: 1 <= i < |groups| ==> |groups[i]| == 3;
      DigitsOfConcat(groups);
      JoinCharacters(groups);
    }
  }

  lemma NumberCharacters(n: string, whole: string, fraction: string)
    requires IsNumber(n, whole, fraction)
    ensures n != "" && IsDigit(n[0]) && (IsDigit(n[|n| - 1]) || n[|n| - 1] == '.')
  {
    var written: string :| IsWhole(written, whole) && (n == written + ['.'] + fraction || (n == written && fraction == ""));
    WholeCharacters(written, whole);
  }

  /** What is left after the marks is read as digits and fraction exactly when it is a number. */
  lemma {:induction false} NumberExactly(accounting: bool, prefix: Prefix, shown: Shown)
    ensures ReadAmount(accounting, prefix) == Ok(shown)
       <==> && !(accounting && prefix.sign.Some?) && IsNumber(prefix.rest, shown.whole, shown.fraction)
            && shown.negative == (accounting || prefix.sign == Some('-'))
  {
    hide UngroupedDigits, IsWhole;
    var s := prefix.rest;
    var (written, fraction) := match SplitOnce(s, '.') case None => (s, "") case Some(parts) => parts;
    WholeExactly(written, shown.whole);
    if IsNumber(s, shown.whole, shown.fraction) {
      NumberCharacters(s, shown.whole, shown.fraction);
      var w: string :| IsWhole(w, shown.whole) && (s == w + ['.'] + shown.fraction || (s == w && shown.fraction == ""));
      WholeCharacters(w, shown.whole);
      if s == w + ['.'] + shown.fraction {
        SplitOnceAt(w, '.', shown.fraction);
      }
      assert written == w && fraction == shown.fraction;
      WholeExactly(w, shown.whole);
    }
    if ReadAmount(accounting, prefix) == Ok(shown) {
      assert UngroupedDigits(written) == Ok(shown.whole) && fraction == shown.fraction;
      assert IsWhole(written, shown.whole);
      assert s == written + ['.'] + fraction || (s == written && fraction == "");
    }
  }

  // ----- Marks --------------------------------------------------------------------------------

  lemma StripNothing(p: Prefix, rounds: nat)
    requires p.rest == "" || (!IsWhitespace(p.rest[0]) && p.rest[0] != '$' && !IsSign(p.rest[0]))
    ensures StripPrefix(p, rounds) == p
  {
  }

  lemma DigitIsPlain(c: char)
    requires IsDigit(c)
    ensures !IsWhitespace(c) && c != '$' && !IsSign(c)
  {
  }

  lemma StripOne(p: Prefix, gap: string, mark: char, rest: string, rounds: nat)
    requires rounds > 0 && p.rest == gap + [mark] + rest && Blanks(gap)
    requires mark == '$' || IsSign(mark)
    requires if mark == '$' then !p.currency else p.sign.None?
    ensures StripPrefix(p, rounds)
         == StripPrefix(Prefix(if mark == '$' then p.sign else Some(mark), p.currency || mark == '$', rest), rounds - 1)
  {
    assert p.rest == gap + ([mark] + rest);
    TrimStartDrops(gap, [mark] + rest);
    assert ([mark] + rest)[1..] == rest;
  }

  lemma StripGap(p: Prefix, gap: string, rest: string, rounds: nat)
    requires rounds > 0 && p.rest == gap + rest && Blanks(gap)
    requires rest != "" && !IsWhitespace(rest[0]) && rest[0] != '$' && !IsSign(rest[0])
    ensures StripPrefix(p, rounds) == p.(rest := rest)
  {
    TrimStartDrops(gap, rest);
  }

  lemma StripNone(p: Prefix)
    ensures StripPrefix(p, 0) == p
  {
  }

  lemma TwoMarksAreStripped(first: char, gap: string, second: char, n: string)
    requires Blanks(gap) && ((first == '$' && IsSign(second)) || (IsSign(first) && second == '$'))
    ensures StripPrefix(Prefix(None, false, [first] + gap + [second] + n), 2)
         == Prefix(Some(if first == '$' then second else first), true, n)
  {
    hide StripPrefix, IsWhitespace;
    var text := [first] + gap + [second] + n;
    assert text == "" + [first] + (gap + [second] + n);
    StripOne(Prefix(None, false, text), "", first, gap + [second] + n, 2);
    StripOne(Prefix(if first == '$' then None else Some(first), first == '$', gap + [second] + n), gap, second, n, 1);
    StripNone(Prefix(Some(if first == '$' then second else first), true, n));
  }

  /** Marks before a number are taken off, and nothing of the number with them. */
  lemma {:induction false} MarksAreStripped(pre: string, sign: Option<char>, n: string)
    requires IsPrefix(pre, sign) && n != "" && IsDigit(n[0])
    ensures var p := StripPrefix(Prefix(None, false, pre + n), 2); p.sign == sign && p.rest == n
  {
    hide StripPrefix, IsWhitespace;
    DigitIsPlain(n[0]);
    if pre == "" {
      assert pre + n == n;
      StripNothing(Prefix(None, false, n), 2);
    } else if exists mark: char, gap: string ::
        pre == [mark] + gap && Blanks(gap) && (if mark == '$' then sign == None else IsSign(mark) && sign == Some(mark)) {
      var mark: char, gap: string :|
        pre == [mark] + gap && Blanks(gap) && if mark == '$' then sign == None else IsSign(mark) && sign == Some(mark);
      assert pre + n == "" + [mark] + (gap + n);
      StripOne(Prefix(None, false, pre + n), "", mark, gap + n, 2);
      StripGap(Prefix(sign, mark == '$', gap + n), gap, n, 1);
    } else {
      var mark: char, gap: string :| IsSign(mark) && Blanks(gap) && sign == Some(mark)
        && (pre == ['$'] + gap + [mark] || pre == [mark] + gap + ['$']);
      if pre == ['$'] + gap + [mark] {
        TwoMarksAreStripped('$', gap, mark, n);
      } else {
        TwoMarksAreStripped(mark, gap, '$', n);
      }
    }
  }

  lemma StripStep(p: Prefix, rounds: nat)
    requires rounds > 0
    ensures var s := TrimStart(p.rest);
            StripPrefix(p, rounds)
            == if !p.currency && StartsWith(s, '$') then StripPrefix(Prefix(p.sign, true, s[1..]), rounds - 1)
               else if p.sign.None? && (StartsWith(s, '-') || StartsWith(s, '+')) then
                 StripPrefix(Prefix(Some(s[0]), p.currency, s[1..]), rounds - 1)
               else p.(rest := s)
  {
    hide TrimStart;
  }

  /** One round of the prefix loop. */
  lemma {:induction false} StripRound(p: Prefix, rounds: nat) returns (gap: string, mark: Option<char>)
    requires rounds > 0
    ensures Blanks(gap)
    ensures mark.None? ==> p.rest == gap + StripPrefix(p, rounds).rest && StripPrefix(p, rounds) == p.(rest := StripPrefix(p, rounds).rest)
    ensures mark.Some? ==>
              && (if mark.value == '$' then !p.currency else IsSign(mark.value) && p.sign.None?)
              && exists rest: string :: p.rest == gap + [mark.value] + rest
                   && StripPrefix(p, rounds)
                      == StripPrefix(Prefix(if mark.value == '$' then p.sign else mark, p.currency || mark.value == '$', rest), rounds - 1)
  {
    hide IsWhitespace, TrimStart;
    gap := TrimStartSplits(p.rest);
    var s := TrimStart(p.rest);
    mark := None;
    StripStep(p, rounds);
    hide StripPrefix;
    if (!p.currency && StartsWith(s, '$')) || (p.sign.None? && (StartsWith(s, '-') || StartsWith(s, '+'))) {
      mark := Some(s[0]);
      assert s == [s[0]] + s[1..];
      assert p.rest == gap + [s[0]] + s[1..];
    }
  }

  lemma NoGap(gap: string, s: string)
    requires Blanks(gap) && gap <= s && (s == "" || !IsWhitespace(s[0]))
    ensures gap == ""
  {
    hide IsWhitespace;
  }

  /** What the prefix loop takes off a trimmed text are marks. */
  lemma {:induction false} StrippedAreMarks(s: string) returns (pre: string)
    requires s == "" || !IsWhitespace(s[0])
    ensures var p := StripPrefix(Prefix(None, false, s), 2); s == pre + p.rest && IsPrefix(pre, p.sign)
  {
    hide StripPrefix, IsWhitespace;
    var start := Prefix(None, false, s);
    var p := StripPrefix(start, 2);
    var gap, mark := StripRound(start, 2);
    if mark.None? {
      pre := gap;
      NoGap(gap, s);
    } else {
      var rest: string :| s == gap + [mark.value] + rest
        && p == StripPrefix(Prefix(if mark.value == '$' then None else mark, mark.value == '$', rest), 1);
      NoGap(gap, s);
      var next := Prefix(if mark.value == '$' then None else mark, mark.value == '$', rest);
      var gap2, mark2 := StripRound(next, 1);
      if mark2.None? {
        pre := [mark.value] + gap2;
        assert s == pre + p.rest;
      } else {
        var rest2: string :| rest == gap2 + [mark2.value] + rest2
          && p == StripPrefix(Prefix(if mark2.value == '$' then next.sign else mark2, next.currency || mark2.value == '$', rest2), 0);
        StripNone(Prefix(if mark2.value == '$' then next.sign else mark2, next.currency || mark2.value == '$', rest2));
        pre := [mark.value] + gap2 + [mark2.value];
        assert s == pre + p.rest;
        assert IsPrefix(pre, p.sign) by {
          var sign := if mark.value == '$' then mark2.value else mark.value;
          assert IsSign(sign) && p.sign == Some(sign);
          assert pre == ['$'] + gap2 + [sign] || pre == [sign] + gap2 + ['$'];
        }
      }
    }
  }

  // ----- Whole texts --------------------------------------------------------------------------

  lemma {:induction false} PrefixStarts(pre: string, sign: Option<char>, n: string)
    requires IsPrefix(pre, sign) && n != "" && IsDigit(n[0])
    ensures var s := pre + n; !IsWhitespace(s[0]) && s[0] != '('
  {
  }

  lemma SignedIsRead(pre: string, n: string, sign: Option<char>, shown: Shown)
    requires IsPrefix(pre, sign) && IsNumber(n, shown.whole, shown.fraction) && shown.negative == (sign == Some('-'))
    ensures var core := pre + n;
            && core != "" && !IsWhitespace(core[0]) && !IsWhitespace(core[|core| - 1])
            && (Trim(core) == core ==> Read(core) == Ok(shown))
  {
    hide IsNumber, IsPrefix, ReadAmount, StripPrefix, TrimStart, TrimEnd;
    var core := pre + n;
    NumberCharacters(n, shown.whole, shown.fraction);
    PrefixStarts(pre, sign, n);
    MarksAreStripped(pre, sign, n);
    NumberExactly(false, StripPrefix(Prefix(None, false, core), 2), shown);
  }

  lemma AccountingIsRead(lead: string, pre: string, n: string, trail: string, shown: Shown)
    requires Blanks(lead) && Blanks(trail) && IsPrefix(pre, None) && IsNumber(n, shown.whole, shown.fraction) && shown.negative
    ensures var core := ['('] + (lead + (pre + n) + trail) + [')'];
            && core != "" && !IsWhitespace(core[0]) && !IsWhitespace(core[|core| - 1])
            && (Trim(core) == core ==> Read(core) == Ok(shown))
  {
    hide IsNumber, IsPrefix, ReadAmount, StripPrefix, TrimStart, TrimEnd;
    var core := ['('] + (lead + (pre + n) + trail) + [')'];
    NumberCharacters(n, shown.whole, shown.fraction);
    PrefixStarts(pre, None, n);
    assert core[1..|core| - 1] == lead + (pre + n) + trail;
    TrimDrops(lead, pre + n, trail);
    MarksAreStripped(pre, None, n);
    NumberExactly(true, StripPrefix(Prefix(None, false, pre + n), 2), shown);
  }

  lemma {:induction false} ShownIsRead(core: string, shown: Shown)
    requires IsAmount(core, shown)
    ensures core != "" && !IsWhitespace(core[0]) && !IsWhitespace(core[|core| - 1])
    ensures Trim(core) == core ==> Read(core) == Ok(shown)
  {
    hide IsNumber, IsPrefix;
    if exists pre, n: string, sign :: core == pre + n && IsPrefix(pre, sign) && IsNumber(n, shown.whole, shown.fraction)
         && shown.negative == (sign == Some('-')) {
      var pre, n: string, sign :| core == pre + n && IsPrefix(pre, sign) && IsNumber(n, shown.whole, shown.fraction)
        && shown.negative == (sign == Some('-'));
      SignedIsRead(pre, n, sign, shown);
    } else {
      var lead, pre, n, trail: string :| core == ['('] + (lead + (pre + n) + trail) + [')'] && Blanks(lead) && Blanks(trail)
        && IsPrefix(pre, None) && IsNumber(n, shown.whole, shown.fraction) && shown.negative;
      AccountingIsRead(lead, pre, n, trail, shown);
    }
  }

  lemma {:induction false} ReadIsShown(core: string, shown: Shown)
    requires Trim(core) == core && Read(core) == Ok(shown) && (core == "" || !IsWhitespace(core[0]))
    ensures IsAmount(core, shown)
  {
    hide IsNumber, IsPrefix, ReadAmount, StripPrefix, TrimStart, TrimEnd, IsWhitespace;
    var accounting := StartsWith(core, '(') && EndsWith(core, ')');
    if accounting {
      var inside := core[1..|core| - 1];
      var lead, trail := TrimSplits(inside);
      var s := Trim(inside);
      var pre := StrippedAreMarks(s);
      var p := StripPrefix(Prefix(None, false, s), 2);
      NumberExactly(true, p, shown);
      assert s == pre + p.rest;
      assert inside == lead + (pre + p.rest) + trail;
      assert core == ['('] + inside + [')'];
      assert IsPrefix(pre, None);
    } else {
      var pre := StrippedAreMarks(core);
      var p := StripPrefix(Prefix(None, false, core), 2);
      NumberExactly(false, p, shown);
    }
  }

  lemma TrimEmpty()
    ensures TrimStart("") == "" && TrimEnd("") == ""
  {
  }

  lemma TrimTwice(s: string)
    ensures Trim(Trim(s)) == Trim(s) && Read(Trim(s)) == Read(s)
  {
    hide TrimStart, TrimEnd, IsWhitespace;
    var lead, trail := TrimSplits(s);
    if Trim(s) == "" {
      assert TrimStart("") == "" && TrimEnd("") == "" by {
        TrimEmpty();
      }
    } else {
      assert "" + Trim(s) + "" == Trim(s);
      TrimDrops("", Trim(s), "");
    }
  }

  /** A text is read as a sign, digits and fraction exactly when the grammar says that it shows them. */
  lemma {:induction false} ReadExactly(text: string, shown: Shown)
    ensures Read(text) == Ok(shown) <==> Shows(text, shown)
  {
    hide IsAmount, Read, TrimStart, TrimEnd, IsWhitespace;
    TrimTwice(text);
    if Read(text) == Ok(shown) {
      var lead, trail := TrimSplits(text);
      ReadIsShown(Trim(text), shown);
      assert text == lead + Trim(text) + trail;
    }
    if Shows(text, shown) {
      var lead, core, trail: string :| text == lead + core + trail && Blanks(lead) && Blanks(trail) && IsAmount(core, shown);
      ShownIsRead(core, shown);
      TrimDrops(lead, core, trail);
    }
  }

  /** The amount nearest to what is shown, ties away from zero, with the sign that is shown. */
  predicate IsNearest(shown: Shown, cents: int)
    requires AllDigits(shown.whole + shown.fraction)
  {
    && NearestTiesUp(Magnitude(cents), 100 * Numeral(shown.whole + shown.fraction), Pow10(|shown.fraction|))
    && (if shown.negative then cents <= 0 else cents >= 0)
  }

  lemma Doubled(a: nat, d: nat)
    ensures 2 * a * d == 2 * (a * d)
  {
  }

  lemma Apart(a: nat, b: nat, d: nat)
    requires a < b
    ensures a * d + d <= b * d
  {
    assert b * d == a * d + (b - a) * d;
    assert (b - a) * d == d + (b - a - 1) * d;
  }

  lemma {:induction false} NearestIsUnique(a: nat, b: nat, numerator: nat, denominator: nat)
    requires denominator > 0 && NearestTiesUp(a, numerator, denominator) && NearestTiesUp(b, numerator, denominator)
    ensures a == b
  {
    Doubled(a, denominator);
    Doubled(b, denominator);
    if a < b {
      Apart(a, b, denominator);
    } else if b < a {
      Apart(b, a, denominator);
    }
  }

  lemma NearestExactly(shown: Shown, importing: bool, v: Money)
    requires shown.Valid() && (importing || |shown.fraction| <= 2) && AllDigits(shown.whole + shown.fraction)
    ensures Evaluate(shown, importing) == Ok(v) <==> IsNearest(shown, v)
  {
    hide Numeral, Pow10, NearestTiesUp, RoundedCents, Evaluate;
    RoundedIsNearest(shown);
    EvaluateIsRoundedCents(shown, importing);
    if IsNearest(shown, v) {
      NearestIsUnique(Magnitude(v), RoundedCents(shown), 100 * Numeral(shown.whole + shown.fraction), Pow10(|shown.fraction|));
    }
  }

  lemma EvaluateCases(shown: Shown, importing: bool)
    requires shown.Valid()
    ensures importing || |shown.fraction| <= 2 ==> Evaluate(shown, importing).Ok? || Evaluate(shown, importing) == Err(Overflow)
    ensures !importing && |shown.fraction| > 2 ==>
              Evaluate(shown, importing) == Err(RoundingRequired) || Evaluate(shown, importing) == Err(Overflow)
  {
    hide Numeral, FractionDigit;
  }

  /**
   Parsing from the text alone. A text that shows no amount is invalid. One that does, with at most
   two fraction digits or on import, is the amount nearest to it, or an overflow if there is no
   64-bit amount nearest to it; with more digits, when not importing, it is never accepted.
   */
  lemma {:induction false} ParsesExactly(text: string, importing: bool)
    ensures (forall shown :: !Shows(text, shown)) ==> ParseMoney(text, importing) == Err(Invalid)
    ensures forall shown :: Shows(text, shown) ==> AllDigits(shown.whole + shown.fraction)
    ensures forall shown :: Shows(text, shown) && (importing || |shown.fraction| <= 2) ==>
              && (forall v: Money :: ParseMoney(text, importing) == Ok(v) <==> IsNearest(shown, v))
              && ((forall v: Money :: !IsNearest(shown, v)) ==> ParseMoney(text, importing) == Err(Overflow))
    ensures forall shown :: Shows(text, shown) && !importing && |shown.fraction| > 2 ==>
              ParseMoney(text, importing) == Err(RoundingRequired) || ParseMoney(text, importing) == Err(Overflow)
  {
    hide Shows, Read, Evaluate, IsNearest, RoundedCents, NearestTiesUp;
    forall shown ensures Read(text) == Ok(shown) <==> Shows(text, shown) {
      ReadExactly(text, shown);
    }
    if Read(text).Ok? {
      var shown := Read(text).value;
      RoundedIsNearest(shown);
      EvaluateCases(shown, importing);
      forall v: Money | importing || |shown.fraction| <= 2
        ensures Evaluate(shown, importing) == Ok(v) <==> IsNearest(shown, v)
      {
        NearestExactly(shown, importing, v);
      }
    }
  }

  // ----- The display --------------------------------------------------------------------------

  lemma {:induction false} DecimalDigits(n: nat)
    ensures var s := Decimal(n);
            s != "" && AllDigits(s) && Numeral(s) == n && (|s| > 1 ==> s[0] != '0')
  {
    NumeralOfDecimal(n);
    if n >= 10 {
      DecimalDigits(n / 10);
      if n / 10 < 10 {
        assert Decimal(n / 10) == [DigitChar(n / 10)];
      }
    }
  }

  lemma {:induction false} WholeGroups(n: nat) returns (groups: seq<string>)
    ensures groups != [] && Join(groups) == Grouped(Decimal(n)) && Concat(groups) == Decimal(n)
    ensures 1 <= |groups[0]| <= 3 && forall i :: 1 <= i < |groups| ==> |groups[i]| == 3
    ensures var s := Decimal(n); s != "" && AllDigits(s) && Numeral(s) == n && (|s| > 1 ==> s[0] != '0')
  {
    DecimalDigits(n);
    hide Decimal, Grouped, Split, Join, Numeral, Concat;
    groups := Split(Grouped(Decimal(n)), ',');
    SplitOfGrouped(Decimal(n));
    JoinOfSplit(Grouped(Decimal(n)));
  }

  lemma LastTwo(absolute: nat)
    ensures absolute % 100 / 10 * 10 + absolute % 10 == absolute % 100
  {
    var q, r := absolute / 100, absolute % 100;
    assert absolute == 10 * (10 * q + r / 10) + r % 10;
    assert absolute % 10 == r % 10;
  }

  lemma TwoDigits(absolute: nat)
    ensures FractionDigit(Hundredths(absolute), 0) == absolute % 100 / 10
    ensures FractionDigit(Hundredths(absolute), 1) == absolute % 10
  {
  }

  lemma CentsOf(absolute: nat)
    ensures Numeral(Hundredths(absolute)) == absolute % 100
  {
    var digits := Hundredths(absolute);
    ShortFraction(digits);
    LastTwo(absolute);
    hide Hundredths, Numeral, Pow10;
    TwoDigits(absolute);
  }

  /**
   An amount is displayed with a minus sign only if it is negative, the currency mark, whole dollars
   without leading zeros in groups of three from the right, a point, and two digits of cents.
   */
  lemma {:induction false} DisplayForm(m: Money) returns (groups: seq<string>, cents: string)
    ensures groups != []
    ensures Display(m) == (if m < 0 then "-" else "") + "$" + Join(groups) + "." + cents
    ensures 1 <= |groups[0]| <= 3 && forall i :: 1 <= i < |groups| ==> |groups[i]| == 3
    ensures var whole := Concat(groups);
            && whole != "" && AllDigits(whole) && (|whole| > 1 ==> whole[0] != '0')
            && |cents| == 2 && AllDigits(cents) && 100 * Numeral(whole) + Numeral(cents) == Magnitude(m)
  {
    hide Decimal, Grouped, Split, Join, Numeral, Concat, Hundredths;
    var absolute := Magnitude(m);
    cents := Hundredths(absolute);
    groups := WholeGroups(absolute / 100);
    CentsOf(absolute);
  }
}
