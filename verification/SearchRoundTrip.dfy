/** Printing a search and parsing the text again (`src/app/search.rs`, lines 44-89 and 120-261). */
module SearchRoundTrip {
  import opened Wrappers
  import opened Cents
  import opened Text
  import opened SearchLanguage
  import MoneyText

  // ----- The scan of one printed term ---------------------------------------------------------

  lemma {:induction false} ScanBare(w: string, more: string)
    requires Bare(w)
    ensures Scan(w + more, false) == Scan(more, false).Push(w, |w|)
  {
    if w == "" {
      assert w + more == more;
      PushPush(Scan(more, false), "", 0, "", 0);
    } else {
      assert (w + more)[1..] == w[1..] + more;
      ScanBare(w[1..], more);
      PushPush(Scan(more, false), [w[0]], 1, w[1..], |w| - 1);
      assert [w[0]] + w[1..] == w;
    }
  }

  function EscapeChar(c: char): string {
    if c == '"' || c == '\\' then ['\\', c] else [c]
  }

  lemma EscapeHead(v: string)
    requires v != ""
    ensures Escape(v) == EscapeChar(v[0]) + Escape(v[1..])
  {
    var tail := Replace(v[1..], '\\', "\\\\");
    if v[0] == '\\' {
      var s := "\\\\" + tail;
      assert s[0] == '\\' && s[1..] == "\\" + tail;
      assert ("\\" + tail)[1..] == tail;
      assert Replace(s, '"', "\\\"") == ['\\'] + Replace("\\" + tail, '"', "\\\"");
      assert Replace("\\" + tail, '"', "\\\"") == ['\\'] + Replace(tail, '"', "\\\"");
      assert ['\\'] + (['\\'] + Replace(tail, '"', "\\\"")) == "\\\\" + Replace(tail, '"', "\\\"");
    } else {
      assert ([v[0]] + tail)[1..] == tail;
    }
  }

  lemma {:induction false} ScanEscaped(v: string, more: string)
    ensures Scan(Escape(v) + "\"" + more, true) == Scan(more, false).Push(v, |Escape(v)| + 1)
  {
    var text := Escape(v) + "\"" + more;
    if v == "" {
      assert text[1..] == more;
    } else {
      EscapeHead(v);
      var rest := Escape(v[1..]) + "\"" + more;
      assert text == EscapeChar(v[0]) + rest;
      ScanEscaped(v[1..], more);
      PushPush(Scan(more, false), [v[0]], |EscapeChar(v[0])|, v[1..], |Escape(v[1..])| + 1);
      assert [v[0]] + v[1..] == v;
      assert text[|EscapeChar(v[0])|..] == rest;
    }
  }

  predicate EndsToken(more: string) {
    more == "" || more[0] == ' '
  }

  lemma UnquotedIsBare(v: string)
    requires !NeedsQuotes(v)
    ensures Bare(v)
  {
  }

  lemma OpenQuote(rest: string)
    ensures Scan("\"" + rest, false) == Scan(rest, true).Push("", 1)
  {
    assert ("\"" + rest)[1..] == rest;
  }

  lemma ScanStops(more: string)
    requires EndsToken(more)
    ensures Scan(more, false) == Scanned("", 0, false, false)
  {
  }

  lemma ScanQuoted(v: string, more: string)
    requires EndsToken(more)
    ensures Scan(Quote(v) + more, false) == Scanned(v, |Quote(v)|, false, false)
  {
    hide Escape, NeedsQuotes;
    ScanStops(more);
    if NeedsQuotes(v) {
      OpenQuote(Escape(v) + "\"" + more);
      assert Quote(v) + more == "\"" + (Escape(v) + "\"" + more);
      ScanEscaped(v, more);
    } else {
      UnquotedIsBare(v);
      ScanBare(v, more);
    }
    assert v + "" == v;
  }

  /** The text of a term once its quotes and escapes are resolved. */
  function RawText(dates: DateText, t: SearchTerm): string {
    FieldPrefix(t) + ValueText(dates, t)
  }

  predicate IsFlag(t: SearchTerm) {
    t.Uncategorized? || t.IsReconciled? || t.Imported? || t.IsTransfer? || t.IsCleared? || t.IsApproved?
  }

  predicate Letters(s: string) {
    forall i :: 0 <= i < |s| ==> 'a' <= s[i] <= 'z'
  }

  lemma FlagNameLetters(t: SearchTerm)
    requires IsFlag(t)
    ensures Letters(FieldName(t))
  {
  }

  lemma OtherNameLetters(t: SearchTerm)
    requires !IsFlag(t)
    ensures Letters(FieldName(t))
  {
  }

  lemma FieldNameLetters(t: SearchTerm)
    ensures Letters(FieldName(t))
  {
    if IsFlag(t) {
      FlagNameLetters(t);
    } else {
      OtherNameLetters(t);
    }
  }

  lemma PrefixIsBare(t: SearchTerm)
    ensures Bare(FieldPrefix(t))
  {
    hide FieldName;
    FieldNameLetters(t);
  }

  lemma ValueIsBare(dates: DateText, t: SearchTerm)
    requires FaithfulDate(dates, t) && !HasText(t)
    ensures Bare(ValueText(dates, t))
  {
    if t.Amount? {
      MoneyText.DisplayCharacters(t.value);
    }
  }

  lemma ScanTerm(dates: DateText, t: SearchTerm, more: string)
    requires FaithfulDate(dates, t) && EndsToken(more)
    ensures Scan(TermText(dates, t) + more, false)
         == Scanned(RawText(dates, t), |TermText(dates, t)|, false, false)
  {
    hide Scan, ValueText, FieldPrefix, FaithfulDate;
    var prefix, value := FieldPrefix(t), ValueText(dates, t);
    var shown := if HasText(t) then Quote(value) else value;
    PrefixIsBare(t);
    assert TermText(dates, t) + more == prefix + (shown + more);
    ScanBare(prefix, shown + more);
    if HasText(t) {
      ScanQuoted(value, more);
    } else {
      ValueIsBare(dates, t);
      ScanBare(value, more);
      ScanStops(more);
      assert value + "" == value;
    }
  }

  // ----- The words of a whole text ------------------------------------------------------------

  datatype Words = Words(texts: seq<string>, clean: bool)

  /** The lexer by what is left of the input: the token texts and whether there was no error. */
  function WordsOf(rest: string): Words
    decreases |rest|
  {
    var n := SkipWhitespace(rest);
    if n == |rest| then Words([], true)
    else
      var s := Scan(rest[n..], false);
      assert rest[n..][0] == rest[n];
      var more := WordsOf(rest[n + s.length..]);
      Words([s.text] + more.texts, !s.badEscape && !s.open && more.clean)
  }

  function Texts(tokens: seq<Token>): seq<string> {
    seq(|tokens|, i requires 0 <= i < |tokens| => tokens[i].text)
  }

  lemma TextsOfFirst(token: Token, tokens: seq<Token>)
    ensures Texts([token] + tokens) == [token.text] + Texts(tokens)
  {
  }

  lemma NoErrors(start: nat, s: Scanned)
    ensures ScanErrors(start, s) == [] <==> !s.badEscape && !s.open
  {
  }

  lemma LexEnd(input: string, i: nat)
    requires i <= |input| && i + SkipWhitespace(input[i..]) == |input|
    ensures Lex(input, i) == Lexed([], []) && WordsOf(input[i..]) == Words([], true)
  {
    hide SkipWhitespace, Scan;
  }

  /** The token that starts after the whitespace at `i`. */
  function ScanAt(input: string, i: nat): (s: Scanned)
    requires i <= |input| && i + SkipWhitespace(input[i..]) < |input|
    ensures s.length > 0 && i + SkipWhitespace(input[i..]) + s.length <= |input|
  {
    var start := i + SkipWhitespace(input[i..]);
    assert input[start..][0] == input[i..][SkipWhitespace(input[i..])];
    Scan(input[start..], false)
  }

  lemma DropDrop(input: string, i: nat, n: nat)
    requires i + n <= |input|
    ensures input[i..][n..] == input[i + n..]
  {
  }

  lemma {:induction false} WordsWord(input: string, i: nat)
    requires i <= |input| && i + SkipWhitespace(input[i..]) < |input|
    ensures var s := ScanAt(input, i);
            var more := WordsOf(input[i + SkipWhitespace(input[i..]) + s.length..]);
            WordsOf(input[i..]) == Words([s.text] + more.texts, !s.badEscape && !s.open && more.clean)
  {
    hide Scan, SkipWhitespace;
    var rest, n := input[i..], SkipWhitespace(input[i..]);
    DropDrop(input, i, n);
    var s := Scan(rest[n..], false);
    DropDrop(input, i, n + s.length);
  }

  lemma {:induction false} LexWord(input: string, i: nat)
    requires i <= |input| && i + SkipWhitespace(input[i..]) < |input|
    ensures var s := ScanAt(input, i);
            var lexed, more := Lex(input, i), Lex(input, i + SkipWhitespace(input[i..]) + s.length);
            && Texts(lexed.tokens) == [s.text] + Texts(more.tokens)
            && (lexed.errors == [] <==> !s.badEscape && !s.open && more.errors == [])
  {
    hide Scan, SkipWhitespace, ScanErrors, Texts;
    var start, s := i + SkipWhitespace(input[i..]), ScanAt(input, i);
    var end := start + s.length;
    TextsOfFirst(Token(s.text, Span(start, end)), Lex(input, end).tokens);
    NoErrors(start, s);
  }

  lemma {:induction false} LexIsWords(input: string, i: nat)
    requires i <= |input|
    ensures WordsOf(input[i..]) == Words(Texts(Lex(input, i).tokens), Lex(input, i).errors == [])
    decreases |input| - i
  {
    hide SkipWhitespace, ScanAt, Lex, WordsOf;
    var n := SkipWhitespace(input[i..]);
    if i + n == |input| {
      LexEnd(input, i);
    } else {
      var s := ScanAt(input, i);
      LexIsWords(input, i + n + s.length);
      LexWord(input, i);
      WordsWord(input, i);
    }
  }

  lemma SkipSpace(rest: string)
    ensures SkipWhitespace(" " + rest) == 1 + SkipWhitespace(rest)
  {
    assert (" " + rest)[1..] == rest;
  }

  lemma WordsAfterSpace(rest: string)
    ensures WordsOf(" " + rest) == WordsOf(rest)
  {
    hide Scan, SkipWhitespace;
    var text := " " + rest;
    SkipSpace(rest);
    var n := SkipWhitespace(rest);
    assert text[1 + n..] == rest[n..];
    if n < |rest| {
      var s := Scan(rest[n..], false);
      assert text[1 + n..][0] == rest[n..][0] == rest[n];
      assert text[1 + n + s.length..] == rest[n + s.length..];
    }
  }

  /** A printed term that is not empty starts with a character the lexer does not skip. */
  lemma TermStart(dates: DateText, t: SearchTerm)
    requires FaithfulDate(dates, t) && TermText(dates, t) != ""
    ensures !IsAsciiWhitespace(TermText(dates, t)[0])
  {
    if HasText(t) && t.Plain? {
      var quoted := Quote(t.text);
      assert TermText(dates, t) == quoted;
      if !NeedsQuotes(t.text) {
        assert !IsWhitespace(t.text[0]);
      }
    } else {
      PrefixIsBare(t);
      assert TermText(dates, t)[0] == FieldPrefix(t)[0];
    }
  }

  lemma {:induction false} WordsAfterTerm(dates: DateText, t: SearchTerm, more: string)
    requires FaithfulDate(dates, t) && EndsToken(more)
    ensures var rest := WordsOf(more);
            WordsOf(TermText(dates, t) + more)
            == if TermText(dates, t) == "" then rest else Words([RawText(dates, t)] + rest.texts, rest.clean)
  {
    hide Scan, TermText, RawText, FaithfulDate;
    var shown := TermText(dates, t);
    var text := shown + more;
    if shown == "" {
      assert text == more;
    } else {
      TermStart(dates, t);
      assert text[0] == shown[0];
      assert SkipWhitespace(text) == 0;
      assert text[0..] == text;
      ScanTerm(dates, t, more);
      assert text[|shown|..] == more;
    }
  }

  /** The words that a printed search consists of; only empty plain text leaves none. */
  function PrintedWords(dates: DateText, ast: SearchAst): seq<string> {
    if ast == [] then []
    else (if TermText(dates, ast[0]) == "" then [] else [RawText(dates, ast[0])]) + PrintedWords(dates, ast[1..])
  }

  lemma {:induction false} WordsOfCanonical(dates: DateText, ast: SearchAst)
    requires FaithfulDates(dates, ast)
    ensures WordsOf(CanonicalText(dates, ast)) == Words(PrintedWords(dates, ast), true)
  {
    hide Scan, TermText, RawText, FaithfulDate;
    if ast == [] {
      assert SkipWhitespace("") == 0;
    } else if |ast| == 1 {
      WordsAfterTerm(dates, ast[0], "");
      assert TermText(dates, ast[0]) + "" == TermText(dates, ast[0]);
      assert SkipWhitespace("") == 0;
      assert WordsOf("") == Words([], true);
      assert PrintedWords(dates, ast[1..]) == [];
    } else {
      var rest := CanonicalText(dates, ast[1..]);
      assert CanonicalText(dates, ast) == TermText(dates, ast[0]) + (" " + rest);
      WordsAfterTerm(dates, ast[0], " " + rest);
      WordsAfterSpace(rest);
      WordsOfCanonical(dates, ast[1..]);
    }
  }

  // ----- One word back to its term ------------------------------------------------------------

  /**
   The terms that survive printing: plain text must show something and hold no colon, and a text
   field must have a value.
   */
  predicate Reprintable(t: SearchTerm) {
    match t
    case Plain(v) => v != "" && ':' !in v
    case Account(v) => v != ""
    case AccountGroup(v) => v != ""
    case Category(v) => v != ""
    case Payee(v) => v != ""
    case Memo(v) => v != ""
    case _ => true
  }

  predicate LowerCase(s: string) {
    forall i :: 0 <= i < |s| ==> LowerChar(s[i]) == s[i]
  }

  lemma LowerIdle(s: string)
    requires LowerCase(s)
    ensures Lower(s) == s
  {
  }

  lemma FieldNameIsLower(t: SearchTerm)
    ensures LowerCase(FieldName(t)) && ':' !in FieldName(t)
  {
    hide FieldName;
    FieldNameLetters(t);
  }

  lemma ComparisonSplits(c: Comparison, digits: string)
    requires digits != "" && digits[0] != '=' && digits[0] != '<' && digits[0] != '>'
    ensures SplitComparison(ComparisonText(c) + digits) == (c, digits)
  {
    var text := ComparisonText(c) + digits;
    assert text[|ComparisonText(c)|..] == digits;
    assert text[|ComparisonText(c)|] == digits[0];
  }

  lemma {:induction false} AmountReadsBack(c: Comparison, value: Money)
    ensures ParseAmount(ComparisonText(c) + MoneyText.Display(value)) == Ok(Amount(c, value))
  {
    hide MoneyText.Display, MoneyText.ParseMoney, SplitComparison;
    MoneyText.DisplayCharacters(value);
    MoneyText.RoundTrip(value, false);
    ComparisonSplits(c, MoneyText.Display(value));
  }

  lemma FlagReadsBack(flag: bool)
    ensures ParseFlag(FlagText(flag)) == Ok(flag)
  {
    LowerIdle(FlagText(flag));
    assert "true"[0] != "false"[0];
    assert "false" != "yes" && "false" != "1";
  }

  lemma FlagFieldReadsBack(dates: DateText, t: SearchTerm)
    requires IsFlag(t)
    ensures ParseField(dates, FieldName(t), ValueText(dates, t)) == Ok(t)
  {
    hide ParseFlag, FlagText;
    FlagReadsBack(true);
    FlagReadsBack(false);
  }

  /** The field names are told apart by their length or one of their first characters. */
  lemma {:induction false} FieldReadsBack(dates: DateText, t: SearchTerm)
    requires FaithfulDate(dates, t) && !t.Plain?
    ensures ParseField(dates, FieldName(t), ValueText(dates, t)) == Ok(t)
  {
    hide ParseFlag, ParseAmount;
    if IsFlag(t) {
      FlagFieldReadsBack(dates, t);
    } else if t.Amount? {
      AmountReadsBack(t.comparison, t.value);
    }
  }

  lemma EmptyValue(dates: DateText, t: SearchTerm)
    requires FaithfulDate(dates, t) && !t.Plain?
    ensures ValueText(dates, t) == "" <==> !Reprintable(t)
  {
    if t.Amount? {
      MoneyText.DisplayCharacters(t.value);
    }
  }

  lemma PlainValue(dates: DateText, t: SearchTerm)
    requires t.Plain?
    ensures ValueText(dates, t) == t.text
  {
  }

  lemma NeverPlain(dates: DateText, raw: string)
    requires ':' in raw
    ensures var r := ParseTerm(dates, raw); r.Ok? ==> !r.value.Plain?
  {
  }

  /** A word is read back as the term it was printed from exactly when the term is reprintable. */
  lemma {:induction false} TermReadsBack(dates: DateText, t: SearchTerm)
    requires FaithfulDate(dates, t) && TermText(dates, t) != ""
    ensures ParseTerm(dates, RawText(dates, t)) == Ok(t) <==> Reprintable(t)
  {
    hide FaithfulDate, ValueText;
    var value := ValueText(dates, t);
    var raw := RawText(dates, t);
    if t.Plain? {
      PlainValue(dates, t);
      assert raw == t.text;
      if ':' !in t.text {
        assert t.text != "";
      } else {
        NeverPlain(dates, raw);
      }
    } else {
      FieldNameIsLower(t);
      assert raw == FieldName(t) + [':'] + value;
      SplitOnceAt(FieldName(t), ':', value);
      LowerIdle(FieldName(t));
      FieldReadsBack(dates, t);
      EmptyValue(dates, t);
    }
  }

  // ----- The whole search ---------------------------------------------------------------------

  lemma {:induction false} TermsOfTexts(dates: DateText, tokens: seq<Token>)
    ensures var ok := forall i :: 0 <= i < |tokens| ==> ParseTerm(dates, tokens[i].text).Ok?;
            && (TermErrors(dates, tokens) == [] <==> ok)
            && (ok ==> |TermsOf(dates, tokens)| == |tokens|
                       && forall i :: 0 <= i < |tokens| ==> Ok(TermsOf(dates, tokens)[i]) == ParseTerm(dates, tokens[i].text))
  {
    hide ParseTerm;
    if tokens != [] {
      TermsOfTexts(dates, tokens[..|tokens| - 1]);
    }
  }

  lemma {:induction false} PrintedWordsAligned(dates: DateText, ast: SearchAst)
    ensures |PrintedWords(dates, ast)| <= |ast|
    ensures |PrintedWords(dates, ast)| == |ast| <==> forall i :: 0 <= i < |ast| ==> TermText(dates, ast[i]) != ""
    ensures |PrintedWords(dates, ast)| == |ast| ==>
              forall i :: 0 <= i < |ast| ==> PrintedWords(dates, ast)[i] == RawText(dates, ast[i])
  {
    hide TermText, RawText;
    if ast != [] {
      PrintedWordsAligned(dates, ast[1..]);
      if |PrintedWords(dates, ast)| == |ast| {
        assert TermText(dates, ast[0]) != "";
      }
    }
  }

  lemma EmptyTerm(dates: DateText, t: SearchTerm)
    requires TermText(dates, t) == ""
    ensures !Reprintable(t)
  {
    if t.Plain? {
      assert TermText(dates, t) == Quote(t.text);
    }
  }

  lemma AllOrNot(dates: DateText, tokens: seq<Token>, ast: SearchAst)
    requires |tokens| == |ast|
    ensures TermErrors(dates, tokens) == [] && TermsOf(dates, tokens) == ast
       <==> forall i :: 0 <= i < |ast| ==> ParseTerm(dates, tokens[i].text) == Ok(ast[i])
  {
    hide ParseTerm;
    TermsOfTexts(dates, tokens);
  }

  /**
   Parsing the canonical text gives the same search back exactly when every term is reprintable.
   It fails for plain text that is empty or holds a colon and for a text field without a value,
   and for nothing else: quotes, backslashes, whitespace, amounts, dates and flags all survive.
   */
  lemma {:induction false} RoundTrip(dates: DateText, ast: SearchAst)
    requires FaithfulDates(dates, ast)
    ensures ParseSearch(dates, CanonicalText(dates, ast)) == Ok(ast)
       <==> forall i :: 0 <= i < |ast| ==> Reprintable(ast[i])
  {
    hide Lex, TermText, RawText, ParseTerm, FaithfulDate, Reprintable, CanonicalText, PrintedWords;
    var input := CanonicalText(dates, ast);
    var tokens := Lex(input, 0).tokens;
    assert input[0..] == input;
    LexIsWords(input, 0);
    WordsOfCanonical(dates, ast);
    var words := PrintedWords(dates, ast);
    assert Lex(input, 0).errors == [];
    assert Texts(tokens) == words;
    assert |tokens| == |words| && forall i :: 0 <= i < |tokens| ==> tokens[i].text == words[i] by {
      assert forall i :: 0 <= i < |tokens| ==> Texts(tokens)[i] == tokens[i].text;
    }
    TermsOfTexts(dates, tokens);
    PrintedWordsAligned(dates, ast);
    if exists i :: 0 <= i < |ast| && TermText(dates, ast[i]) == "" {
      var i :| 0 <= i < |ast| && TermText(dates, ast[i]) == "";
      EmptyTerm(dates, ast[i]);
      assert |tokens| < |ast|;
    } else {
      forall i | 0 <= i < |ast|
        ensures ParseTerm(dates, tokens[i].text) == Ok(ast[i]) <==> Reprintable(ast[i])
      {
        TermReadsBack(dates, ast[i]);
      }
      AllOrNot(dates, tokens, ast);
    }
  }
}
