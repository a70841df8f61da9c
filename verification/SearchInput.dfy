/** What a user may type into the search field and what it is read as (`src/app/search.rs`, lines 120-261). */
module SearchInput {
  import opened Wrappers
  import opened Cents
  import opened Text
  import opened Calendar
  import opened SearchLanguage
  import opened SearchRoundTrip
  import MoneyText

  // ----- Words and letters --------------------------------------------------------------------

  /** `f` is the lower-case word `name` with any of its letters in upper case. */
  predicate Spells(f: string, name: string) {
    |f| == |name|
    && forall i :: 0 <= i < |f| ==> f[i] == name[i] || ('a' <= name[i] <= 'z' && f[i] as int == name[i] as int - 32)
  }

  predicate NoCapitals(name: string) {
    forall i :: 0 <= i < |name| ==> !('A' <= name[i] <= 'Z')
  }

  lemma SpellsIsLower(f: string, name: string)
    requires NoCapitals(name)
    ensures Lower(f) == name <==> Spells(f, name)
  {
    if Lower(f) == name {
      forall i | 0 <= i < |f|
        ensures f[i] == name[i] || ('a' <= name[i] <= 'z' && f[i] as int == name[i] as int - 32)
      {
        assert name[i] == LowerChar(f[i]);
      }
    }
  }

  lemma SpelledField(dates: DateText, f: string, name: string, v: string)
    requires Spells(f, name) && NoCapitals(name) && ':' !in name && v != ""
    ensures ParseTerm(dates, f + ":" + v) == ParseField(dates, name, v)
  {
    hide ParseField;
    SpellsIsLower(f, name);
    assert ':' !in f;
    assert f + ":" + v == f + [':'] + v;
    SplitOnceAt(f, ':', v);
  }

  // ----- Terms --------------------------------------------------------------------------------

  /** A word without a colon is plain text; a field without a value is an error. */
  lemma PlainOrMissing(dates: DateText, s: string)
    requires ':' !in s
    ensures ParseTerm(dates, s) == Ok(Plain(s))
    ensures ParseTerm(dates, s + ":") == Err(MissingValue)
  {
    assert s + ":" == s + [':'] + "";
    SplitOnceAt(s, ':', "");
  }

  /** The text fields, in any letter case and under either name of the group field, take the value as it stands. */
  lemma {:induction false} TextFieldsRead(dates: DateText, f: string, v: string)
    requires v != ""
    ensures Spells(f, "account") ==> ParseTerm(dates, f + ":" + v) == Ok(Account(v))
    ensures Spells(f, "group") || Spells(f, "account-group") ==> ParseTerm(dates, f + ":" + v) == Ok(AccountGroup(v))
    ensures Spells(f, "category") ==> ParseTerm(dates, f + ":" + v) == Ok(Category(v))
    ensures Spells(f, "payee") ==> ParseTerm(dates, f + ":" + v) == Ok(Payee(v))
    ensures Spells(f, "memo") ==> ParseTerm(dates, f + ":" + v) == Ok(Memo(v))
  {
    hide ParseTerm, Spells, ParseDate, ParseFlag, ParseAmount;
    if Spells(f, "account") { SpelledField(dates, f, "account", v); }
    if Spells(f, "group") { SpelledField(dates, f, "group", v); }
    if Spells(f, "account-group") { SpelledField(dates, f, "account-group", v); }
    if Spells(f, "category") { SpelledField(dates, f, "category", v); }
    if Spells(f, "payee") { SpelledField(dates, f, "payee", v); }
    if Spells(f, "memo") { SpelledField(dates, f, "memo", v); }
  }

  /** The date of a field's value, or the error that it is none. */
  function DateOr(dates: DateText, v: string, term: Date -> SearchTerm): Result<SearchTerm, DiagnosticKind> {
    match dates.parse(v) case Some(d) => Ok(term(d)) case None => Err(InvalidDate)
  }

  /** The date fields, in any letter case. */
  lemma {:induction false} DateFieldsRead(dates: DateText, f: string, v: string)
    requires v != ""
    ensures Spells(f, "before") ==> ParseTerm(dates, f + ":" + v) == DateOr(dates, v, (d: Date) => BeforeDate(d))
    ensures Spells(f, "after") ==> ParseTerm(dates, f + ":" + v) == DateOr(dates, v, (d: Date) => AfterDate(d))
    ensures Spells(f, "from") ==> ParseTerm(dates, f + ":" + v) == DateOr(dates, v, (d: Date) => FromDate(d))
    ensures Spells(f, "through") ==> ParseTerm(dates, f + ":" + v) == DateOr(dates, v, (d: Date) => ThroughDate(d))
  {
    hide ParseTerm, Spells, ParseFlag, ParseAmount;
    if Spells(f, "before") { SpelledField(dates, f, "before", v); }
    if Spells(f, "after") { SpelledField(dates, f, "after", v); }
    if Spells(f, "from") { SpelledField(dates, f, "from", v); }
    if Spells(f, "through") { SpelledField(dates, f, "through", v); }
  }

  predicate Affirms(v: string) {
    Spells(v, "true") || Spells(v, "yes") || Spells(v, "1")
  }

  predicate Denies(v: string) {
    Spells(v, "false") || Spells(v, "no") || Spells(v, "0")
  }

  /** The flag of a field's value, or the error that it is none. */
  function FlagOr(v: string, term: bool -> SearchTerm): Result<SearchTerm, DiagnosticKind> {
    if Affirms(v) then Ok(term(true)) else if Denies(v) then Ok(term(false)) else Err(InvalidBoolean)
  }

  lemma FlagSpelled(v: string)
    ensures ParseFlag(v) == if Affirms(v) then Ok(true) else if Denies(v) then Ok(false) else Err(InvalidBoolean)
  {
    SpellsIsLower(v, "true");
    SpellsIsLower(v, "yes");
    SpellsIsLower(v, "1");
    SpellsIsLower(v, "false");
    SpellsIsLower(v, "no");
    SpellsIsLower(v, "0");
  }

  /** What a flag field makes of its value, by its lower-case name. */
  function ReadFlag(v: string, term: bool -> SearchTerm): Result<SearchTerm, DiagnosticKind> {
    match ParseFlag(v) case Ok(b) => Ok(term(b)) case Err(e) => Err(e)
  }

  lemma FlagNames(dates: DateText, v: string)
    ensures ParseField(dates, "uncategorized", v) == ReadFlag(v, b => Uncategorized(b))
    ensures ParseField(dates, "category-none", v) == ReadFlag(v, b => Uncategorized(b))
    ensures ParseField(dates, "reconciled", v) == ReadFlag(v, b => IsReconciled(b))
    ensures ParseField(dates, "imported", v) == ReadFlag(v, b => Imported(b))
  {
    hide ParseFlag, ParseAmount, ParseDate;
  }

  lemma MoreFlagNames(dates: DateText, v: string)
    ensures ParseField(dates, "transfer", v) == ReadFlag(v, b => IsTransfer(b))
    ensures ParseField(dates, "transfers", v) == ReadFlag(v, b => IsTransfer(b))
    ensures ParseField(dates, "cleared", v) == ReadFlag(v, b => IsCleared(b))
    ensures ParseField(dates, "approved", v) == ReadFlag(v, b => IsApproved(b))
  {
    hide ParseFlag, ParseAmount, ParseDate;
  }

  lemma {:induction false} MoreFlagFieldsRead(dates: DateText, f: string, v: string)
    requires v != ""
    ensures Spells(f, "transfer") || Spells(f, "transfers") ==> ParseTerm(dates, f + ":" + v) == FlagOr(v, b => IsTransfer(b))
    ensures Spells(f, "cleared") ==> ParseTerm(dates, f + ":" + v) == FlagOr(v, b => IsCleared(b))
    ensures Spells(f, "approved") ==> ParseTerm(dates, f + ":" + v) == FlagOr(v, b => IsApproved(b))
  {
    hide ParseTerm, ParseField, Spells, ParseFlag, Affirms, Denies;
    FlagSpelled(v);
    MoreFlagNames(dates, v);
    if Spells(f, "transfer") { SpelledField(dates, f, "transfer", v); }
    if Spells(f, "transfers") { SpelledField(dates, f, "transfers", v); }
    if Spells(f, "cleared") { SpelledField(dates, f, "cleared", v); }
    if Spells(f, "approved") { SpelledField(dates, f, "approved", v); }
  }

  /** The flag fields, in any letter case and with yes, no, one and zero beside true and false. */
  lemma {:induction false} FlagFieldsRead(dates: DateText, f: string, v: string)
    requires v != ""
    ensures Spells(f, "uncategorized") || Spells(f, "category-none") ==>
              ParseTerm(dates, f + ":" + v) == FlagOr(v, b => Uncategorized(b))
    ensures Spells(f, "reconciled") ==> ParseTerm(dates, f + ":" + v) == FlagOr(v, b => IsReconciled(b))
    ensures Spells(f, "imported") ==> ParseTerm(dates, f + ":" + v) == FlagOr(v, b => Imported(b))
    ensures Spells(f, "transfer") || Spells(f, "transfers") ==> ParseTerm(dates, f + ":" + v) == FlagOr(v, b => IsTransfer(b))
    ensures Spells(f, "cleared") ==> ParseTerm(dates, f + ":" + v) == FlagOr(v, b => IsCleared(b))
    ensures Spells(f, "approved") ==> ParseTerm(dates, f + ":" + v) == FlagOr(v, b => IsApproved(b))
  {
    hide ParseTerm, ParseField, Spells, ParseFlag, Affirms, Denies;
    FlagSpelled(v);
    FlagNames(dates, v);
    if Spells(f, "uncategorized") { SpelledField(dates, f, "uncategorized", v); }
    if Spells(f, "category-none") { SpelledField(dates, f, "category-none", v); }
    if Spells(f, "reconciled") { SpelledField(dates, f, "reconciled", v); }
    if Spells(f, "imported") { SpelledField(dates, f, "imported", v); }
    MoreFlagFieldsRead(dates, f, v);
  }

  /** Every name that a field has. */
  predicate IsFieldName(name: string) {
    || name == "account" || name == "group" || name == "account-group" || name == "category" || name == "payee"
    || name == "memo" || name == "before" || name == "after" || name == "from" || name == "through"
    || name == "uncategorized" || name == "category-none" || name == "reconciled" || name == "imported" || name == "transfer"
    || name == "transfers" || name == "cleared" || name == "approved" || name == "amount"
  }

  predicate SpellsAField(f: string) {
    || Spells(f, "account") || Spells(f, "group") || Spells(f, "account-group") || Spells(f, "category")
    || Spells(f, "payee") || Spells(f, "memo") || Spells(f, "before") || Spells(f, "after")
    || Spells(f, "from") || Spells(f, "through") || Spells(f, "uncategorized") || Spells(f, "category-none")
    || Spells(f, "reconciled") || Spells(f, "imported") || Spells(f, "transfer") || Spells(f, "transfers")
    || Spells(f, "cleared") || Spells(f, "approved") || Spells(f, "amount")
  }

  lemma OtherErrors(dates: DateText, v: string)
    ensures ParseDate(dates, v).Err? ==> ParseDate(dates, v).error == InvalidDate
    ensures ParseFlag(v).Err? ==> ParseFlag(v).error == InvalidBoolean
    ensures ParseAmount(v).Err? ==> ParseAmount(v).error == InvalidAmount
  {
    hide SplitComparison, MoneyText.ParseMoney;
  }

  lemma KnownFields(dates: DateText, name: string, v: string)
    ensures ParseField(dates, name, v) == Err(UnknownField) <==> !IsFieldName(name)
  {
    OtherErrors(dates, v);
    hide ParseDate, ParseFlag, ParseAmount;
  }

  lemma SpelledTexts(f: string)
    ensures Lower(f) == "account" <==> Spells(f, "account")
    ensures Lower(f) == "group" <==> Spells(f, "group")
    ensures Lower(f) == "account-group" <==> Spells(f, "account-group")
    ensures Lower(f) == "category" <==> Spells(f, "category")
    ensures Lower(f) == "payee" <==> Spells(f, "payee")
  {
    hide Lower, Spells;
    SpellsIsLower(f, "account");
    SpellsIsLower(f, "group");
    SpellsIsLower(f, "account-group");
    SpellsIsLower(f, "category");
    SpellsIsLower(f, "payee");
  }

  lemma SpelledDates(f: string)
    ensures Lower(f) == "memo" <==> Spells(f, "memo")
    ensures Lower(f) == "before" <==> Spells(f, "before")
    ensures Lower(f) == "after" <==> Spells(f, "after")
    ensures Lower(f) == "from" <==> Spells(f, "from")
    ensures Lower(f) == "through" <==> Spells(f, "through")
  {
    hide Lower, Spells;
    SpellsIsLower(f, "memo");
    SpellsIsLower(f, "before");
    SpellsIsLower(f, "after");
    SpellsIsLower(f, "from");
    SpellsIsLower(f, "through");
  }

  lemma SpelledFlags(f: string)
    ensures Lower(f) == "uncategorized" <==> Spells(f, "uncategorized")
    ensures Lower(f) == "category-none" <==> Spells(f, "category-none")
    ensures Lower(f) == "reconciled" <==> Spells(f, "reconciled")
    ensures Lower(f) == "imported" <==> Spells(f, "imported")
    ensures Lower(f) == "transfer" <==> Spells(f, "transfer")
  {
    hide Lower, Spells;
    SpellsIsLower(f, "uncategorized");
    SpellsIsLower(f, "category-none");
    SpellsIsLower(f, "reconciled");
    SpellsIsLower(f, "imported");
    SpellsIsLower(f, "transfer");
  }

  lemma SpelledOthers(f: string)
    ensures Lower(f) == "transfers" <==> Spells(f, "transfers")
    ensures Lower(f) == "cleared" <==> Spells(f, "cleared")
    ensures Lower(f) == "approved" <==> Spells(f, "approved")
    ensures Lower(f) == "amount" <==> Spells(f, "amount")
  {
    hide Lower, Spells;
    SpellsIsLower(f, "transfers");
    SpellsIsLower(f, "cleared");
    SpellsIsLower(f, "approved");
    SpellsIsLower(f, "amount");
  }

  lemma SpelledIsName(f: string)
    ensures IsFieldName(Lower(f)) <==> SpellsAField(f)
  {
    hide Spells, Lower;
    SpelledTexts(f);
    SpelledDates(f);
    SpelledFlags(f);
    SpelledOthers(f);
  }

  /** A field with a value is unknown if and only if it spells none of the names. */
  lemma {:induction false} UnknownExactly(dates: DateText, f: string, v: string)
    requires v != "" && ':' !in f
    ensures ParseTerm(dates, f + ":" + v) == Err(UnknownField) <==> !SpellsAField(f)
  {
    hide ParseField, SpellsAField, IsFieldName;
    assert f + ":" + v == f + [':'] + v;
    SplitOnceAt(f, ':', v);
    KnownFields(dates, Lower(f), v);
    SpelledIsName(f);
  }

  // ----- Amounts ------------------------------------------------------------------------------

  /** How a comparison is typed before an amount; equality may be left out. */
  predicate Operator(c: Comparison, op: string) {
    || (c == Less && op == "<")
    || (c == LessEqual && op == "<=")
    || (c == Equal && (op == "=" || op == ""))
    || (c == GreaterEqual && op == ">=")
    || (c == Greater && op == ">")
  }

  lemma DigitsStart(c: char, rest: string)
    requires MoneyText.UngroupedDigits([c] + rest).Ok? && AllDigits(MoneyText.UngroupedDigits([c] + rest).value)
    ensures IsDigit(c) || c == ','
  {
    var whole := [c] + rest;
    if ',' in whole && c != ',' {
      var groups := Split(whole, ',');
      assert whole[0] == c;
      assert groups[0][0] == c;
      assert Concat(groups)[0] == c;
    } else if c != ',' {
      assert MoneyText.UngroupedDigits(whole) == Ok(whole);
      assert whole[0] == c;
    }
  }

  lemma {:induction false} TrimEndKeepsStart(s: string)
    requires s != "" && !IsWhitespace(s[0])
    ensures TrimEnd(s) != "" && TrimEnd(s)[0] == s[0]
    decreases |s|
  {
    if |s| > 1 && IsWhitespace(s[|s| - 1]) {
      TrimEndKeepsStart(s[..|s| - 1]);
    }
  }

  /** A text that the money parser accepts does not start like an operator. */
  lemma {:induction false} MoneyStart(v: string)
    requires MoneyText.ParseMoney(v, false).Ok?
    ensures v != "" && v[0] != '<' && v[0] != '>' && v[0] != '='
  {
    hide MoneyText.UngroupedDigits, MoneyText.Evaluate;
    if v != "" && (v[0] == '<' || v[0] == '>' || v[0] == '=') {
      assert TrimStart(v) == v;
      TrimEndKeepsStart(v);
      var s := Trim(v);
      assert s[0] == v[0] && !IsWhitespace(s[0]);
      assert TrimStart(s) == s;
      assert MoneyText.StripPrefix(MoneyText.Prefix(None, false, s), 2) == MoneyText.Prefix(None, false, s);
      assert MoneyText.ReadAmount(false, MoneyText.Prefix(None, false, s)).Ok?;
      var whole := match SplitOnce(s, '.') case None => s case Some(parts) => parts.0;
      if whole != "" {
        assert whole[0] == s[0];
        assert whole == [whole[0]] + whole[1..];
        DigitsStart(whole[0], whole[1..]);
      }
    }
  }

  lemma OperatorSplits(c: Comparison, op: string, digits: string)
    requires Operator(c, op) && digits != "" && digits[0] != '=' && digits[0] != '<' && digits[0] != '>'
    ensures SplitComparison(op + digits) == (c, digits)
  {
    if op == "" {
      assert op + digits == digits;
    } else {
      ComparisonSplits(c, digits);
    }
  }

  lemma SplitsIntoOperator(v: string)
    ensures var (c, digits) := SplitComparison(v); exists op :: Operator(c, op) && v == op + digits
  {
    var (c, digits) := SplitComparison(v);
    if ">=" <= v {
      assert Operator(c, ">=") && v == ">=" + digits;
    } else if "<=" <= v {
      assert Operator(c, "<=") && v == "<=" + digits;
    } else if ">" <= v {
      assert Operator(c, ">") && v == ">" + digits;
    } else if "<" <= v {
      assert Operator(c, "<") && v == "<" + digits;
    } else if "=" <= v {
      assert Operator(c, "=") && v == "=" + digits;
    } else {
      assert Operator(c, "") && v == "" + digits;
    }
  }

  /** An operator, if any, before a text that the money parser accepts. */
  ghost predicate Compares(v: string, c: Comparison, value: Money) {
    exists op, digits: string :: Operator(c, op) && v == op + digits && MoneyText.ParseMoney(digits, false) == Ok(value)
  }

  /**
   The amount field accepts exactly an operator, which may be missing, followed by an amount that the
   money parser accepts, and reads it as that comparison with that amount.
   */
  lemma {:induction false} AmountExactly(dates: DateText, f: string, v: string)
    requires Spells(f, "amount") && v != ""
    ensures forall c, value: Money :: ParseTerm(dates, f + ":" + v) == Ok(Amount(c, value)) <==> Compares(v, c, value)
    ensures (forall c, value: Money :: !Compares(v, c, value)) ==> ParseTerm(dates, f + ":" + v) == Err(InvalidAmount)
  {
    hide ParseTerm, Spells, SplitComparison, MoneyText.ParseMoney, Operator;
    SpelledField(dates, f, "amount", v);
    assert ParseField(dates, "amount", v) == ParseAmount(v);
    var (split, rest) := SplitComparison(v);
    SplitsIntoOperator(v);
    forall c, value: Money
      ensures ParseAmount(v) == Ok(Amount(c, value)) <==> Compares(v, c, value)
    {
      if Compares(v, c, value) {
        var op, digits: string :| Operator(c, op) && v == op + digits && MoneyText.ParseMoney(digits, false) == Ok(value);
        MoneyStart(digits);
        OperatorSplits(c, op, digits);
      }
    }
  }

  // ----- Words on a line ----------------------------------------------------------------------

  /** A stretch of a word: characters as they stand, or text in quotes. */
  datatype Piece = Open(text: string) | InQuotes(text: string)

  function Typed(p: Piece): string {
    match p case Open(text) => text case InQuotes(text) => "\"" + Escape(text) + "\""
  }

  /** What is typed for a word, and what it stands for. */
  function Spelling(word: seq<Piece>): string {
    if word == [] then "" else Typed(word[0]) + Spelling(word[1..])
  }

  function Meaning(word: seq<Piece>): string {
    if word == [] then "" else word[0].text + Meaning(word[1..])
  }

  predicate OpenIsBare(word: seq<Piece>) {
    forall i :: 0 <= i < |word| && word[i].Open? ==> Bare(word[i].text)
  }

  /** A word shows something, and has no blank or quote outside quotes. */
  predicate IsWord(word: seq<Piece>) {
    Spelling(word) != "" && OpenIsBare(word)
  }

  predicate Blank(gap: string) {
    forall i :: 0 <= i < |gap| ==> IsAsciiWhitespace(gap[i])
  }

  predicate WordEnds(more: string) {
    more == "" || IsAsciiWhitespace(more[0])
  }

  lemma ScanPiece(p: Piece, rest: string)
    requires p.Open? ==> Bare(p.text)
    ensures Scan(Typed(p) + rest, false) == Scan(rest, false).Push(p.text, |Typed(p)|)
  {
    hide Scan, Escape, Bare;
    match p
    case Open(text) => ScanBare(text, rest);
    case InQuotes(text) =>
      OpenQuote(Escape(text) + "\"" + rest);
      assert Typed(p) + rest == "\"" + (Escape(text) + "\"" + rest);
      ScanEscaped(text, rest);
      PushPush(Scan(rest, false), "", 1, text, |Escape(text)| + 1);
      assert "" + text == text;
  }

  lemma {:induction false} ScanPieces(word: seq<Piece>, more: string)
    requires OpenIsBare(word)
    ensures Scan(Spelling(word) + more, false) == Scan(more, false).Push(Meaning(word), |Spelling(word)|)
  {
    hide Scan, Typed, Bare;
    if word == [] {
      assert Spelling(word) + more == more;
      PushPush(Scan(more, false), "", 0, "", 0);
    } else {
      var rest := Spelling(word[1..]) + more;
      ScanPieces(word[1..], more);
      assert Spelling(word) + more == Typed(word[0]) + rest;
      ScanPiece(word[0], rest);
      PushPush(Scan(more, false), word[0].text, |Typed(word[0])|, Meaning(word[1..]), |Spelling(word[1..])|);
    }
  }

  lemma ScanWord(word: seq<Piece>, more: string)
    requires OpenIsBare(word) && WordEnds(more)
    ensures Scan(Spelling(word) + more, false) == Scanned(Meaning(word), |Spelling(word)|, false, false)
  {
    ScanPieces(word, more);
    assert Scan(more, false) == Scanned("", 0, false, false);
    assert Meaning(word) + "" == Meaning(word);
  }

  lemma {:induction false} WordStart(word: seq<Piece>)
    requires IsWord(word)
    ensures !IsAsciiWhitespace(Spelling(word)[0])
  {
    hide Escape;
    if Typed(word[0]) == "" {
      assert Spelling(word) == Spelling(word[1..]);
      assert OpenIsBare(word[1..]);
      WordStart(word[1..]);
    } else {
      assert Spelling(word)[0] == Typed(word[0])[0];
    }
  }

  lemma {:induction false} SkipGap(gap: string, more: string)
    requires Blank(gap) && (more == "" || !IsAsciiWhitespace(more[0]))
    ensures SkipWhitespace(gap + more) == |gap|
  {
    hide IsAsciiWhitespace;
    if gap == "" {
      assert gap + more == more;
    } else {
      assert (gap + more)[0] == gap[0] && (gap + more)[1..] == gap[1..] + more;
      SkipGap(gap[1..], more);
    }
  }

  /** Words, each after a gap; the gap is blank and between two words not empty. */
  function Line(gaps: seq<string>, words: seq<seq<Piece>>): string
    requires |gaps| == |words|
  {
    if words == [] then "" else gaps[0] + Spelling(words[0]) + Line(gaps[1..], words[1..])
  }

  predicate IsLine(gaps: seq<string>, words: seq<seq<Piece>>) {
    && |gaps| == |words|
    && (forall k :: 0 <= k < |words| ==> IsWord(words[k]) && Blank(gaps[k]))
    && (forall k :: 1 <= k < |words| ==> gaps[k] != "")
  }

  /** The tokens of a line that starts at `from`: each stands for its word and spans what was typed for it. */
  predicate TokensOf(input: string, from: nat, tokens: seq<Token>, words: seq<seq<Piece>>) {
    |tokens| == |words|
    && forall k :: 0 <= k < |words| ==>
         && tokens[k].text == Meaning(words[k])
         && from <= tokens[k].span.start <= tokens[k].span.end <= |input|
         && input[tokens[k].span.start..tokens[k].span.end] == Spelling(words[k])
  }

  lemma LexOneWord(input: string, from: nat, gap: string, word: seq<Piece>, more: string)
    requires from <= |input| && input[from..] == gap + Spelling(word) + more
    requires Blank(gap) && IsWord(word) && WordEnds(more)
    ensures var start := from + |gap|;
            var end := start + |Spelling(word)|;
            && end <= |input| && input[end..] == more && input[start..end] == Spelling(word)
            && var rest := Lex(input, end);
               Lex(input, from) == Lexed([Token(Meaning(word), Span(start, end))] + rest.tokens, rest.errors)
  {
    hide Lex, Scan, SkipWhitespace, Spelling, Meaning, IsAsciiWhitespace, ScanErrors;
    WordStart(word);
    var start := from + |gap|;
    assert gap + Spelling(word) + more == gap + (Spelling(word) + more);
    SkipGap(gap, Spelling(word) + more);
    assert input[start..] == Spelling(word) + more by {
      assert input[start..] == input[from..][|gap|..];
    }
    ScanWord(word, more);
    var s := Scan(input[start..], false);
    LexToken(input, from, start, s);
    assert ScanErrors(start, s) == [] by { ErrorsOf(start, s); }
    var end := start + |Spelling(word)|;
    assert input[end..] == input[start..][|Spelling(word)|..];
    assert input[start..end] == input[start..][..|Spelling(word)|];
    assert [] + Lex(input, end).errors == Lex(input, end).errors;
  }

  lemma GapEnds(gap: string, spelling: string, line: string, more: string)
    requires Blank(gap) && gap != ""
    ensures WordEnds(gap + spelling + line + more)
  {
    assert (gap + spelling + line + more)[0] == gap[0];
  }

  lemma LineEnds(gaps: seq<string>, words: seq<seq<Piece>>, more: string)
    requires IsLine(gaps, words) && words != [] && WordEnds(more)
    ensures WordEnds(Line(gaps[1..], words[1..]) + more)
  {
    hide Spelling, IsWord, IsAsciiWhitespace;
    if |words| > 1 {
      assert Blank(gaps[1]) && gaps[1] != "";
      GapEnds(gaps[1], Spelling(words[1]), Line(gaps[1..][1..], words[1..][1..]), more);
    } else {
      assert Line(gaps[1..], words[1..]) == "";
      assert "" + more == more;
    }
  }

  lemma LineRest(gaps: seq<string>, words: seq<seq<Piece>>)
    requires IsLine(gaps, words) && words != []
    ensures Line(gaps, words) == gaps[0] + Spelling(words[0]) + Line(gaps[1..], words[1..])
    ensures IsLine(gaps[1..], words[1..]) && IsWord(words[0]) && Blank(gaps[0])
  {
    hide Spelling, IsWord, Blank;
  }

  lemma FirstToken(input: string, from: nat, token: Token, others: seq<Token>, words: seq<seq<Piece>>, middle: nat)
    requires words != [] && from <= token.span.start <= token.span.end == middle <= |input|
    requires token.text == Meaning(words[0]) && input[token.span.start..token.span.end] == Spelling(words[0])
    requires TokensOf(input, middle, others, words[1..])
    ensures TokensOf(input, from, [token] + others, words)
  {
    hide Meaning, Spelling;
    var all := [token] + others;
    forall k | 1 <= k < |words|
      ensures all[k] == others[k - 1] && words[k] == words[1..][k - 1]
    {
    }
  }

  lemma NoWords(input: string, from: nat, gaps: seq<string>, words: seq<seq<Piece>>, more: string)
    requires |gaps| == |words| && words == [] && from <= |input| && input[from..] == Line(gaps, words) + more
    ensures Line(gaps, words) == "" && input[from..] == more
    ensures TokensOf(input, from, [], words)
    ensures Lex(input, from) == Lexed([] + Lex(input, from).tokens, Lex(input, from).errors)
  {
    hide Lex;
    assert "" + more == more;
    assert [] + Lex(input, from).tokens == Lex(input, from).tokens;
  }

  lemma Regroup(a: string, b: string, c: string, d: string)
    ensures a + b + c + d == a + b + (c + d) && |a + b + c| == |a| + |b| + |c|
  {
  }

  lemma JoinTokens(token: Token, others: seq<Token>, more: seq<Token>)
    ensures [token] + others + more == [token] + (others + more)
  {
  }

  /** Every line of words gives one token for each word, wherever it stands and whatever may follow it. */
  lemma {:induction false} LineLexes(input: string, from: nat, gaps: seq<string>, words: seq<seq<Piece>>, more: string)
    returns (tokens: seq<Token>, end: nat)
    requires IsLine(gaps, words) && WordEnds(more)
    requires from <= |input| && input[from..] == Line(gaps, words) + more
    ensures from <= end <= |input| && input[end..] == more && end == from + |Line(gaps, words)|
    ensures TokensOf(input, from, tokens, words)
    ensures Lex(input, from) == Lexed(tokens + Lex(input, end).tokens, Lex(input, end).errors)
    decreases |words|
  {
    hide Lex, Spelling, Meaning, IsWord, Blank, WordEnds, TokensOf, Line;
    if words == [] {
      tokens, end := [], from;
      NoWords(input, from, gaps, words, more);
    } else {
      LineEnds(gaps, words, more);
      LineRest(gaps, words);
      var rest := Line(gaps[1..], words[1..]);
      Regroup(gaps[0], Spelling(words[0]), rest, more);
      LexOneWord(input, from, gaps[0], words[0], rest + more);
      var middle := from + |gaps[0]| + |Spelling(words[0])|;
      var token := Token(Meaning(words[0]), Span(from + |gaps[0]|, middle));
      var others, last := LineLexes(input, middle, gaps[1..], words[1..], more);
      tokens, end := [token] + others, last;
      FirstToken(input, from, token, others, words, middle);
      JoinTokens(token, others, Lex(input, end).tokens);
    }
  }

  /** A line of words, whatever the blanks between and around them, is one token for each word and no error. */
  lemma {:induction false} LineIsItsWords(gaps: seq<string>, words: seq<seq<Piece>>, tail: string)
    requires IsLine(gaps, words) && Blank(tail)
    ensures var lexed := Lex(Line(gaps, words) + tail, 0);
            lexed.errors == [] && TokensOf(Line(gaps, words) + tail, 0, lexed.tokens, words)
  {
    hide Lex, Line;
    var input := Line(gaps, words) + tail;
    assert input[0..] == input;
    var tokens, end := LineLexes(input, 0, gaps, words, tail);
    SkipGap(tail, "");
    assert tail + "" == tail;
    LexBlank(input, end);
    assert tokens + [] == tokens;
  }

  /** A line whose words are all terms is the search for these terms. */
  lemma {:induction false} LineParses(dates: DateText, gaps: seq<string>, words: seq<seq<Piece>>, tail: string, terms: SearchAst)
    requires IsLine(gaps, words) && Blank(tail)
    ensures ParseSearch(dates, Line(gaps, words) + tail) == Ok(terms)
       <==> |terms| == |words| && forall k :: 0 <= k < |words| ==> ParseTerm(dates, Meaning(words[k])) == Ok(terms[k])
  {
    hide Lex, ParseTerm, Line, Spelling, IsWord, TermErrors, TermsOf;
    LineIsItsWords(gaps, words, tail);
    var tokens := Lex(Line(gaps, words) + tail, 0).tokens;
    TermsOfTexts(dates, tokens);
    if TermErrors(dates, tokens) == [] && |terms| == |words| {
      assert TermsOf(dates, tokens) == terms <==> forall k :: 0 <= k < |words| ==> TermsOf(dates, tokens)[k] == terms[k];
    }
  }

  /** The diagnostic of a wrong word, where it stands. */
  ghost predicate Reports(dates: DateText, input: string, word: seq<Piece>, e: Diagnostic) {
    && ParseTerm(dates, Meaning(word)) == Err(e.kind)
    && e.span.start <= e.span.end <= |input| && input[e.span.start..e.span.end] == Spelling(word)
  }

  predicate ErrorOfToken(dates: DateText, token: Token, e: Diagnostic) {
    ParseTerm(dates, token.text) == Err(e.kind) && e.span == token.span
  }

  lemma {:induction false} TermErrorsOf(dates: DateText, tokens: seq<Token>)
    ensures forall e :: e in TermErrors(dates, tokens) ==> exists k :: 0 <= k < |tokens| && ErrorOfToken(dates, tokens[k], e)
    ensures forall k :: 0 <= k < |tokens| && ParseTerm(dates, tokens[k].text).Err? ==>
              exists e :: e in TermErrors(dates, tokens) && ErrorOfToken(dates, tokens[k], e)
  {
    hide ParseTerm;
    if tokens != [] {
      var n := |tokens| - 1;
      var init := tokens[..n];
      TermErrorsOf(dates, init);
      var before, all := TermErrors(dates, init), TermErrors(dates, tokens);
      assert forall e :: e in before ==> e in all;
      forall e | e in before ensures exists k :: 0 <= k < |tokens| && ErrorOfToken(dates, tokens[k], e) {
        var k :| 0 <= k < |init| && ErrorOfToken(dates, init[k], e);
        assert tokens[k] == init[k];
      }
      if ParseTerm(dates, tokens[n].text).Err? {
        var last := Diagnostic(ParseTerm(dates, tokens[n].text).error, tokens[n].span);
        assert all == before + [last];
        assert all[|before|] == last && ErrorOfToken(dates, tokens[n], last);
      }
      forall k | 0 <= k < n && ParseTerm(dates, tokens[k].text).Err?
        ensures exists e :: e in all && ErrorOfToken(dates, tokens[k], e)
      {
        assert init[k] == tokens[k];
        var e :| e in before && ErrorOfToken(dates, init[k], e);
      }
    }
  }

  /** Otherwise the diagnostics are those of the wrong words, each where its word stands. */
  lemma {:induction false} LineReports(dates: DateText, gaps: seq<string>, words: seq<seq<Piece>>, tail: string)
    requires IsLine(gaps, words) && Blank(tail) && ParseSearch(dates, Line(gaps, words) + tail).Err?
    ensures var errors, input := ParseSearch(dates, Line(gaps, words) + tail).error, Line(gaps, words) + tail;
            && (forall e :: e in errors ==> exists k :: 0 <= k < |words| && Reports(dates, input, words[k], e))
            && (forall k :: 0 <= k < |words| && ParseTerm(dates, Meaning(words[k])).Err? ==>
                  exists e :: e in errors && Reports(dates, input, words[k], e))
  {
    hide Lex, ParseTerm, Line, Spelling, Meaning, IsWord, TermErrors, TermsOf;
    LineIsItsWords(gaps, words, tail);
    var input := Line(gaps, words) + tail;
    var tokens := Lex(input, 0).tokens;
    var errors := ParseSearch(dates, input).error;
    TermErrorsOf(dates, tokens);
    forall e | e in errors
      ensures exists k :: 0 <= k < |words| && Reports(dates, input, words[k], e)
    {
      var k :| 0 <= k < |tokens| && ErrorOfToken(dates, tokens[k], e);
      assert Reports(dates, input, words[k], e);
    }
    forall k | 0 <= k < |words| && ParseTerm(dates, Meaning(words[k])).Err?
      ensures exists e :: e in errors && Reports(dates, input, words[k], e)
    {
      var e :| e in errors && ErrorOfToken(dates, tokens[k], e);
      assert Reports(dates, input, words[k], e);
    }
  }

  // ----- Quotes that do not end ---------------------------------------------------------------

  lemma ScanEscapedChar(c: char, more: string)
    ensures Scan(EscapeChar(c) + more, true) == Scan(more, true).Push([c], |EscapeChar(c)|)
  {
    var text := EscapeChar(c) + more;
    assert text[|EscapeChar(c)|..] == more;
  }

  lemma EscapeNothing()
    ensures Escape("") == ""
  {
  }

  lemma {:induction false} ScanInQuotes(v: string, rest: string)
    ensures Scan(Escape(v) + rest, true) == Scan(rest, true).Push(v, |Escape(v)|)
  {
    hide Scan, Escape, EscapeChar;
    if v == "" {
      EscapeNothing();
      assert Escape(v) + rest == rest;
      PushPush(Scan(rest, true), "", 0, "", 0);
    } else {
      EscapeHead(v);
      ScanInQuotes(v[1..], rest);
      var more := Escape(v[1..]) + rest;
      assert Escape(v) + rest == EscapeChar(v[0]) + more;
      ScanEscapedChar(v[0], more);
      PushPush(Scan(rest, true), [v[0]], |EscapeChar(v[0])|, v[1..], |Escape(v[1..])|);
      assert [v[0]] + v[1..] == v;
    }
  }

  lemma ScanToTheEnd(v: string)
    ensures Scan(Escape(v), true) == Scanned(v, |Escape(v)|, true, false)
  {
    ScanInQuotes(v, "");
    assert Scan("", true) == Scanned("", 0, true, false);
    hide Scan, Escape;
    assert Escape(v) + "" == Escape(v) && v + "" == v;
  }

  /** The rest of a text from a backslash on that neither escapes a quote nor itself. */
  predicate BadEscape(rest: string) {
    rest != "" && rest[0] == '\\' && (|rest| == 1 || (rest[1] != '"' && rest[1] != '\\'))
  }

  lemma ScanBadEscape(rest: string)
    requires BadEscape(rest)
    ensures Scan(rest, true) == Scanned("", 1, true, true)
  {
  }

  lemma ScanToBadEscape(v: string, rest: string)
    requires BadEscape(rest)
    ensures Scan(Escape(v) + rest, true) == Scanned(v, |Escape(v)| + 1, true, true)
  {
    ScanInQuotes(v, rest);
    ScanBadEscape(rest);
    hide Scan, Escape;
    assert v + "" == v;
  }

  lemma EmptyLine(gaps: seq<string>, words: seq<seq<Piece>>)
    requires |gaps| == |words| && words == []
    ensures Line(gaps, words) == ""
  {
  }

  lemma BrokenScan(word: seq<Piece>, broken: string, s: Scanned)
    requires OpenIsBare(word) && Scan(broken, true) == s
    ensures var shown := Spelling(word) + ("\"" + broken);
            && shown != "" && !IsAsciiWhitespace(shown[0])
            && var all := Scan(shown, false);
               all.length == |Spelling(word)| + 1 + s.length && all.open == s.open && all.badEscape == s.badEscape
  {
    hide Scan;
    ScanPieces(word, "\"" + broken);
    OpenQuote(broken);
    if Spelling(word) == "" {
      assert Spelling(word) + ("\"" + broken) == "\"" + broken;
    } else {
      WordStart(word);
    }
  }

  /** After a line of words, what the lexer makes of a last word that breaks off inside quotes. */
  lemma {:induction false} BrokenWord(gaps: seq<string>, words: seq<seq<Piece>>, gap: string, word: seq<Piece>, broken: string, s: Scanned)
    requires IsLine(gaps, words) && Blank(gap) && (gap != "" || words == []) && OpenIsBare(word)
    requires Scan(broken, true) == s && s.open
    ensures var input := Line(gaps, words) + (gap + (Spelling(word) + ("\"" + broken)));
            var start := |Line(gaps, words)| + |gap|;
            var errors := Lex(input, 0).errors;
            var end := start + |Spelling(word)| + 1 + s.length;
            && end <= |input|
            && errors == (if s.badEscape then [Diagnostic(InvalidEscape, Span(start, end + 1))] else [])
                         + [Diagnostic(UnterminatedQuote, Span(start, end))] + Lex(input, end).errors
  {
    hide Lex, Scan, Line, Spelling, SkipWhitespace, ScanErrors, IsWord;
    var shown := Spelling(word) + ("\"" + broken);
    var more := gap + shown;
    var input := Line(gaps, words) + more;
    assert input[0..] == input;
    assert WordEnds(more) || words == [] by {
      if gap != "" {
        assert more[0] == gap[0];
      }
    }
    var tokens, from := [], 0;
    if words != [] {
      var read, end := LineLexes(input, 0, gaps, words, more);
      tokens, from := read, end;
    } else {
      assert Line(gaps, words) == "" by { EmptyLine(gaps, words); }
    }
    assert input[from..] == more;
    BrokenScan(word, broken, s);
    SkipGap(gap, shown);
    var start := from + |gap|;
    assert input[start..] == input[from..][|gap|..] == shown;
    LexToken(input, from, start, Scan(shown, false));
    ErrorsOf(start, Scan(shown, false));
  }

  lemma LexEnd(input: string)
    ensures Lex(input, |input|).errors == []
  {
  }

  /** A quote that is not closed is the one error of its line, from the start of its word to the end. */
  lemma {:induction false} UnterminatedIsReported(dates: DateText, gaps: seq<string>, words: seq<seq<Piece>>, gap: string,
                                                  word: seq<Piece>, v: string)
    requires IsLine(gaps, words) && Blank(gap) && (gap != "" || words == []) && OpenIsBare(word)
    ensures var input := Line(gaps, words) + (gap + (Spelling(word) + ("\"" + Escape(v))));
            ParseSearch(dates, input) == Err([Diagnostic(UnterminatedQuote, Span(|Line(gaps, words)| + |gap|, |input|))])
  {
    hide Lex, Scan, Line, Spelling, Escape, IsWord;
    ScanToTheEnd(v);
    BrokenWord(gaps, words, gap, word, Escape(v), Scanned(v, |Escape(v)|, true, false));
    var input := Line(gaps, words) + (gap + (Spelling(word) + ("\"" + Escape(v))));
    LexEnd(input);
    var d := Diagnostic(UnterminatedQuote, Span(|Line(gaps, words)| + |gap|, |input|));
    assert [] + [d] + [] == [d];
    assert Lex(input, 0).errors == [d];
  }

  /** A backslash inside quotes that escapes neither a quote nor a backslash is the first error of its line. */
  lemma {:induction false} BadEscapeIsReported(dates: DateText, gaps: seq<string>, words: seq<seq<Piece>>, gap: string,
                                               word: seq<Piece>, v: string, rest: string)
    requires IsLine(gaps, words) && Blank(gap) && (gap != "" || words == []) && OpenIsBare(word) && BadEscape(rest)
    ensures var input := Line(gaps, words) + (gap + (Spelling(word) + ("\"" + (Escape(v) + rest))));
            var start := |Line(gaps, words)| + |gap|;
            var r := ParseSearch(dates, input);
            && r.Err? && r.error != []
            && r.error[0] == Diagnostic(InvalidEscape, Span(start, start + |Spelling(word)| + 1 + |Escape(v)| + 2))
  {
    hide Lex, Scan, Line, Spelling, Escape, IsWord;
    ScanToBadEscape(v, rest);
    BrokenWord(gaps, words, gap, word, Escape(v) + rest, Scanned(v, |Escape(v)| + 1, true, true));
  }

  // ----- What is printed ----------------------------------------------------------------------

  /** A text is printed bare, or in quotes if it has whitespace, a quote or a backslash. */
  predicate PrintsText(v: string, shown: string) {
    if exists i :: 0 <= i < |v| && (IsWhitespace(v[i]) || v[i] == '"' || v[i] == '\\') then
      shown == Typed(InQuotes(v))
    else shown == v
  }

  predicate PrintsFlag(b: bool, shown: string) {
    (b ==> shown == "true") && (!b ==> shown == "false")
  }

  lemma QuotedPrints(v: string)
    ensures PrintsText(v, Quote(v))
  {
    hide Escape;
  }

  lemma TextPrefixes(t: SearchTerm)
    requires HasText(t)
    ensures t.Plain? ==> FieldPrefix(t) == ""
    ensures t.Account? ==> FieldPrefix(t) == "account:"
    ensures t.AccountGroup? ==> FieldPrefix(t) == "group:"
    ensures t.Category? ==> FieldPrefix(t) == "category:"
    ensures t.Payee? ==> FieldPrefix(t) == "payee:"
    ensures t.Memo? ==> FieldPrefix(t) == "memo:"
  {
  }

  lemma TextParts(dates: DateText, t: SearchTerm)
    requires HasText(t)
    ensures TermText(dates, t) == FieldPrefix(t) + Quote(t.text)
  {
    hide Quote, FieldPrefix;
  }

  /** The printed forms of the text terms. */
  lemma {:induction false} PrintedTexts(dates: DateText, t: SearchTerm)
    requires HasText(t)
    ensures t.Plain? ==> PrintsText(t.text, TermText(dates, t))
    ensures t.Account? ==> exists s :: PrintsText(t.text, s) && TermText(dates, t) == "account:" + s
    ensures t.AccountGroup? ==> exists s :: PrintsText(t.text, s) && TermText(dates, t) == "group:" + s
    ensures t.Category? ==> exists s :: PrintsText(t.text, s) && TermText(dates, t) == "category:" + s
    ensures t.Payee? ==> exists s :: PrintsText(t.text, s) && TermText(dates, t) == "payee:" + s
    ensures t.Memo? ==> exists s :: PrintsText(t.text, s) && TermText(dates, t) == "memo:" + s
  {
    QuotedPrints(t.text);
    TextPrefixes(t);
    TextParts(dates, t);
    hide TermText, FieldPrefix, Quote, PrintsText;
    if t.Plain? {
      assert "" + Quote(t.text) == Quote(t.text);
    }
  }

  /** The printed forms of amounts, with their operator always written, and of dates. */
  lemma {:induction false} PrintedValues(dates: DateText, t: SearchTerm)
    ensures t.Amount? ==> exists op :: op != "" && Operator(t.comparison, op)
                                       && TermText(dates, t) == "amount:" + (op + MoneyText.Display(t.value))
    ensures t.BeforeDate? ==> TermText(dates, t) == "before:" + dates.show(t.date)
    ensures t.AfterDate? ==> TermText(dates, t) == "after:" + dates.show(t.date)
    ensures t.FromDate? ==> TermText(dates, t) == "from:" + dates.show(t.date)
    ensures t.ThroughDate? ==> TermText(dates, t) == "through:" + dates.show(t.date)
  {
    hide MoneyText.Display;
    if t.Amount? {
      assert Operator(t.comparison, ComparisonText(t.comparison));
    }
    hide Operator, ComparisonText;
  }

  /** The printed forms of the flags. */
  lemma {:induction false} PrintedFlags(dates: DateText, t: SearchTerm)
    ensures t.Uncategorized? ==> exists s :: PrintsFlag(t.flag, s) && TermText(dates, t) == "uncategorized:" + s
    ensures t.IsReconciled? ==> exists s :: PrintsFlag(t.flag, s) && TermText(dates, t) == "reconciled:" + s
    ensures t.Imported? ==> exists s :: PrintsFlag(t.flag, s) && TermText(dates, t) == "imported:" + s
    ensures t.IsTransfer? ==> exists s :: PrintsFlag(t.flag, s) && TermText(dates, t) == "transfer:" + s
    ensures t.IsCleared? ==> exists s :: PrintsFlag(t.flag, s) && TermText(dates, t) == "cleared:" + s
    ensures t.IsApproved? ==> exists s :: PrintsFlag(t.flag, s) && TermText(dates, t) == "approved:" + s
  {
    if IsFlag(t) {
      assert PrintsFlag(t.flag, FlagText(t.flag));
    }
    hide PrintsFlag, FlagText;
  }

  /** The printed forms of the terms, with one space between two of them. */
  lemma {:induction false} PrintedLine(dates: DateText, first: SearchTerm, rest: SearchAst)
    ensures CanonicalText(dates, []) == "" && CanonicalText(dates, [first]) == TermText(dates, first)
    ensures rest != [] ==>
              CanonicalText(dates, [first] + rest) == TermText(dates, first) + " " + CanonicalText(dates, rest)
  {
    hide TermText;
    assert ([first] + rest)[1..] == rest;
  }
}
