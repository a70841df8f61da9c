/** The register's search language: printing, lexing and parsing (`src/app/search.rs`, lines 8-261). */
module SearchLanguage {
  import opened Wrappers
  import opened Cents
  import opened Text
  import opened Calendar
  import MoneyText

  datatype Comparison = Less | LessEqual | Equal | GreaterEqual | Greater

  datatype SearchTerm =
    | Plain(text: string)
    | Account(text: string)
    | AccountGroup(text: string)
    | Category(text: string)
    | Payee(text: string)
    | Memo(text: string)
    | Amount(comparison: Comparison, value: Money)
    | BeforeDate(date: Date)
    | AfterDate(date: Date)
    | FromDate(date: Date)
    | ThroughDate(date: Date)
    | Uncategorized(flag: bool)
    | IsReconciled(flag: bool)
    | Imported(flag: bool)
    | IsTransfer(flag: bool)
    | IsCleared(flag: bool)
    | IsApproved(flag: bool)

  type SearchAst = seq<SearchTerm>

  /** The date text of the `time` crate, which the program only prints and reads back. */
  datatype DateText = DateText(show: Date -> string, parse: string -> Option<Date>)

  /** Text that needs no quotes: the lexer takes every character of it as it stands. */
  predicate Bare(s: string) {
    forall i :: 0 <= i < |s| ==> !IsAsciiWhitespace(s[i]) && s[i] != '"'
  }

  /** The date of a term, if it has one, reads back from its print, which is a single bare word. */
  predicate FaithfulDate(dates: DateText, t: SearchTerm) {
    t.BeforeDate? || t.AfterDate? || t.FromDate? || t.ThroughDate? ==>
      dates.parse(dates.show(t.date)) == Some(t.date) && dates.show(t.date) != "" && Bare(dates.show(t.date))
  }

  predicate FaithfulDates(dates: DateText, ast: SearchAst) {
    forall i :: 0 <= i < |ast| ==> FaithfulDate(dates, ast[i])
  }

  // ----- Printing -----------------------------------------------------------------------------

  /** `str::replace` of one character. */
  function Replace(s: string, c: char, with: string): string {
    if s == "" then "" else (if s[0] == c then with else [s[0]]) + Replace(s[1..], c, with)
  }

  function Escape(s: string): string {
    Replace(Replace(s, '\\', "\\\\"), '"', "\\\"")
  }

  predicate NeedsQuotes(s: string) {
    exists i :: 0 <= i < |s| && (IsWhitespace(s[i]) || s[i] == '"' || s[i] == '\\')
  }

  function Quote(s: string): string {
    if NeedsQuotes(s) then "\"" + Escape(s) + "\"" else s
  }

  function ComparisonText(c: Comparison): string {
    match c
    case Less => "<"
    case LessEqual => "<="
    case Equal => "="
    case GreaterEqual => ">="
    case Greater => ">"
  }

  function FlagText(flag: bool): string {
    if flag then "true" else "false"
  }

  /** The field prefix with its colon; plain text has none. */
  function FieldName(t: SearchTerm): string {
    match t
    case Plain(_) => ""
    case Account(_) => "account"
    case AccountGroup(_) => "group"
    case Category(_) => "category"
    case Payee(_) => "payee"
    case Memo(_) => "memo"
    case Amount(_, _) => "amount"
    case BeforeDate(_) => "before"
    case AfterDate(_) => "after"
    case FromDate(_) => "from"
    case ThroughDate(_) => "through"
    case Uncategorized(_) => "uncategorized"
    case IsReconciled(_) => "reconciled"
    case Imported(_) => "imported"
    case IsTransfer(_) => "transfer"
    case IsCleared(_) => "cleared"
    case IsApproved(_) => "approved"
  }

  function FieldPrefix(t: SearchTerm): string {
    if t.Plain? then "" else FieldName(t) + ":"
  }

  /** The value of a term before any quoting. */
  function ValueText(dates: DateText, t: SearchTerm): string {
    match t
    case Amount(c, value) => ComparisonText(c) + MoneyText.Display(value)
    case BeforeDate(d) => dates.show(d)
    case AfterDate(d) => dates.show(d)
    case FromDate(d) => dates.show(d)
    case ThroughDate(d) => dates.show(d)
    case Plain(v) => v
    case Account(v) => v
    case AccountGroup(v) => v
    case Category(v) => v
    case Payee(v) => v
    case Memo(v) => v
    case Uncategorized(b) => FlagText(b)
    case IsReconciled(b) => FlagText(b)
    case Imported(b) => FlagText(b)
    case IsTransfer(b) => FlagText(b)
    case IsCleared(b) => FlagText(b)
    case IsApproved(b) => FlagText(b)
  }

  predicate HasText(t: SearchTerm) {
    t.Plain? || t.Account? || t.AccountGroup? || t.Category? || t.Payee? || t.Memo?
  }

  function TermText(dates: DateText, t: SearchTerm): string {
    FieldPrefix(t) + if HasText(t) then Quote(ValueText(dates, t)) else ValueText(dates, t)
  }

  /** The terms printed and joined by single spaces. */
  function CanonicalText(dates: DateText, ast: SearchAst): string {
    if ast == [] then ""
    else if |ast| == 1 then TermText(dates, ast[0])
    else TermText(dates, ast[0]) + " " + CanonicalText(dates, ast[1..])
  }

  // ----- Lexing -------------------------------------------------------------------------------

  datatype DiagnosticKind =
    | UnknownField | MissingValue | InvalidAmount | InvalidDate | InvalidBoolean | UnterminatedQuote | InvalidEscape

  /** Positions count characters; the program counts bytes. */
  datatype Span = Span(start: nat, end: nat)

  datatype Diagnostic = Diagnostic(kind: DiagnosticKind, span: Span)

  datatype Token = Token(text: string, span: Span)

  /** One token's worth of input: the text with quotes and escapes resolved, and how it ended. */
  datatype Scanned = Scanned(text: string, length: nat, open: bool, badEscape: bool) {
    function Push(prefix: string, consumed: nat): Scanned {
      this.(text := prefix + text, length := consumed + length)
    }
  }

  function Scan(rest: string, quoted: bool): (r: Scanned)
    ensures r.length <= |rest|
    ensures rest != "" && (quoted || !IsAsciiWhitespace(rest[0])) ==> r.length > 0
  {
    if rest == "" || (IsAsciiWhitespace(rest[0]) && !quoted) then Scanned("", 0, quoted, false)
    else if rest[0] == '"' then Scan(rest[1..], !quoted).Push("", 1)
    else if rest[0] == '\\' && quoted then
      if |rest| < 2 || (rest[1] != '"' && rest[1] != '\\') then Scanned("", 1, quoted, true)
      else Scan(rest[2..], quoted).Push([rest[1]], 2)
    else Scan(rest[1..], quoted).Push([rest[0]], 1)
  }

  function SkipWhitespace(rest: string): (n: nat)
    ensures n <= |rest|
    ensures n < |rest| ==> !IsAsciiWhitespace(rest[n])
  {
    if rest != "" && IsAsciiWhitespace(rest[0]) then 1 + SkipWhitespace(rest[1..]) else 0
  }

  datatype Lexed = Lexed(tokens: seq<Token>, errors: seq<Diagnostic>)

  /** The diagnostics of one token that starts at `start`. */
  function ScanErrors(start: nat, s: Scanned): seq<Diagnostic> {
    (if s.badEscape then [Diagnostic(InvalidEscape, Span(start, start + s.length + 1))] else [])
    + (if s.open then [Diagnostic(UnterminatedQuote, Span(start, start + s.length))] else [])
  }

  /** The tokens of the input from position `i` on. */
  function Lex(input: string, i: nat): Lexed
    requires i <= |input|
    decreases |input| - i
  {
    var start := i + SkipWhitespace(input[i..]);
    if start == |input| then Lexed([], [])
    else
      var s := Scan(input[start..], false);
      assert input[start..][0] == input[i..][SkipWhitespace(input[i..])];
      var rest := Lex(input, start + s.length);
      Lexed([Token(s.text, Span(start, start + s.length))] + rest.tokens, ScanErrors(start, s) + rest.errors)
  }

  // ----- Terms --------------------------------------------------------------------------------

  function ParseDate(dates: DateText, v: string): Result<Date, DiagnosticKind> {
    match dates.parse(v) case None => Err(InvalidDate) case Some(d) => Ok(d)
  }

  function ParseFlag(v: string): Result<bool, DiagnosticKind> {
    var lower := Lower(v);
    if lower == "true" || lower == "yes" || lower == "1" then Ok(true)
    else if lower == "false" || lower == "no" || lower == "0" then Ok(false)
    else Err(InvalidBoolean)
  }

  function SplitComparison(v: string): (Comparison, string) {
    if ">=" <= v then (GreaterEqual, v[2..])
    else if "<=" <= v then (LessEqual, v[2..])
    else if ">" <= v then (Greater, v[1..])
    else if "<" <= v then (Less, v[1..])
    else if "=" <= v then (Equal, v[1..])
    else (Equal, v)
  }

  function ParseAmount(v: string): Result<SearchTerm, DiagnosticKind> {
    var (comparison, digits) := SplitComparison(v);
    match MoneyText.ParseMoney(digits, false)
    case Err(_) => Err(InvalidAmount)
    case Ok(value) => Ok(Amount(comparison, value))
  }

  /** The term of one field, by its lower-case name. */
  function ParseField(dates: DateText, field: string, value: string): Result<SearchTerm, DiagnosticKind> {
    if field == "account" then Ok(Account(value))
    else if field == "group" || field == "account-group" then Ok(AccountGroup(value))
    else if field == "category" then Ok(Category(value))
    else if field == "payee" then Ok(Payee(value))
    else if field == "memo" then Ok(Memo(value))
    else if field == "before" then (var d :- ParseDate(dates, value); Ok(BeforeDate(d)))
    else if field == "after" then (var d :- ParseDate(dates, value); Ok(AfterDate(d)))
    else if field == "from" then (var d :- ParseDate(dates, value); Ok(FromDate(d)))
    else if field == "through" then (var d :- ParseDate(dates, value); Ok(ThroughDate(d)))
    else if field == "uncategorized" || field == "category-none" then (var b :- ParseFlag(value); Ok(Uncategorized(b)))
    else if field == "reconciled" then (var b :- ParseFlag(value); Ok(IsReconciled(b)))
    else if field == "imported" then (var b :- ParseFlag(value); Ok(Imported(b)))
    else if field == "transfer" || field == "transfers" then (var b :- ParseFlag(value); Ok(IsTransfer(b)))
    else if field == "cleared" then (var b :- ParseFlag(value); Ok(IsCleared(b)))
    else if field == "approved" then (var b :- ParseFlag(value); Ok(IsApproved(b)))
    else if field == "amount" then ParseAmount(value)
    else Err(UnknownField)
  }

  function ParseTerm(dates: DateText, s: string): Result<SearchTerm, DiagnosticKind> {
    match SplitOnce(s, ':')
    case None => Ok(Plain(s))
    case Some((field, value)) =>
      if value == "" then Err(MissingValue) else ParseField(dates, Lower(field), value)
  }

  // ----- The parser ---------------------------------------------------------------------------

  function TermsOf(dates: DateText, tokens: seq<Token>): SearchAst {
    if tokens == [] then []
    else
      var rest := TermsOf(dates, tokens[..|tokens| - 1]);
      match ParseTerm(dates, tokens[|tokens| - 1].text) case Ok(t) => rest + [t] case Err(_) => rest
  }

  function TermErrors(dates: DateText, tokens: seq<Token>): seq<Diagnostic> {
    if tokens == [] then []
    else
      var token := tokens[|tokens| - 1];
      var rest := TermErrors(dates, tokens[..|tokens| - 1]);
      match ParseTerm(dates, token.text) case Ok(_) => rest case Err(kind) => rest + [Diagnostic(kind, token.span)]
  }

  function ParseSearch(dates: DateText, input: string): Result<SearchAst, seq<Diagnostic>> {
    var lexed := Lex(input, 0);
    if lexed.errors != [] then Err(lexed.errors)
    else
      var errors := TermErrors(dates, lexed.tokens);
      if errors != [] then Err(errors) else Ok(TermsOf(dates, lexed.tokens))
  }

  lemma PushPush(s: Scanned, first: string, m: nat, second: string, n: nat)
    ensures s.Push(second, n).Push(first, m) == s.Push(first + second, m + n)
    ensures s.Push("", 0) == s
  {
    assert first + (second + s.text) == first + second + s.text;
  }

  /** One step of the scan, by position. */
  lemma ScanAt(input: string, i: nat, quoted: bool)
    requires i <= |input|
    ensures Scan(input[i..], quoted)
         == if i == |input| || (IsAsciiWhitespace(input[i]) && !quoted) then Scanned("", 0, quoted, false)
            else if input[i] == '"' then Scan(input[i + 1..], !quoted).Push("", 1)
            else if input[i] == '\\' && quoted then
              if i + 1 == |input| || (input[i + 1] != '"' && input[i + 1] != '\\') then Scanned("", 1, quoted, true)
              else Scan(input[i + 2..], quoted).Push([input[i + 1]], 2)
            else Scan(input[i + 1..], quoted).Push([input[i]], 1)
  {
    var rest := input[i..];
    if i < |input| {
      assert rest[0] == input[i] && rest[1..] == input[i + 1..];
      if i + 1 < |input| {
        assert rest[1] == input[i + 1] && rest[2..] == input[i + 2..];
      }
    }
  }

  /** The index-driven loop of the lexer, from the first character of a token to its end. */
  method ScanToken(input: string, start: nat) returns (text: string, end: nat, quoted: bool, badEscape: bool)
    requires start <= |input|
    ensures start <= end <= |input|
    ensures Scanned(text, end - start, quoted, badEscape) == Scan(input[start..], false)
  {
    hide Scan, IsAsciiWhitespace;
    text, end, quoted, badEscape := "", start, false, false;
    ghost var total := Scan(input[start..], false);
    PushPush(total, "", 0, "", 0);
    while end < |input| && (!IsAsciiWhitespace(input[end]) || quoted)
      invariant start <= end <= |input|
      invariant !badEscape
      invariant total == Scan(input[end..], quoted).Push(text, end - start)
    {
      ScanAt(input, end, quoted);
      if input[end] == '"' {
        PushPush(Scan(input[end + 1..], !quoted), text, end - start, "", 1);
        assert text + "" == text;
        quoted := !quoted;
        end := end + 1;
      } else if input[end] == '\\' && quoted {
        end := end + 1;
        if end >= |input| || (input[end] != '"' && input[end] != '\\') {
          assert text + "" == text;
          badEscape := true;
          return;
        }
        PushPush(Scan(input[end + 1..], quoted), text, end - 1 - start, [input[end]], 2);
        text := text + [input[end]];
        end := end + 1;
      } else {
        PushPush(Scan(input[end + 1..], quoted), text, end - start, [input[end]], 1);
        text := text + [input[end]];
        end := end + 1;
      }
    }
    ScanAt(input, end, quoted);
    assert text + "" == text;
  }

  lemma SkipAt(input: string, i: nat)
    requires i < |input|
    ensures SkipWhitespace(input[i..]) == if IsAsciiWhitespace(input[i]) then 1 + SkipWhitespace(input[i + 1..]) else 0
  {
    assert input[i..][0] == input[i] && input[i..][1..] == input[i + 1..];
  }

  method SkipBlanks(input: string, from: nat) returns (i: nat)
    requires from <= |input|
    ensures i == from + SkipWhitespace(input[from..])
  {
    hide SkipWhitespace, IsAsciiWhitespace;
    i := from;
    while i < |input| && IsAsciiWhitespace(input[i])
      invariant from <= i <= |input|
      invariant from + SkipWhitespace(input[from..]) == i + SkipWhitespace(input[i..])
    {
      SkipAt(input, i);
      i := i + 1;
    }
    if i < |input| {
      SkipAt(input, i);
    }
  }

  lemma TokenAdvances(input: string, start: nat)
    requires start < |input| && !IsAsciiWhitespace(input[start])
    ensures Scan(input[start..], false).length > 0
  {
    assert input[start..][0] == input[start];
  }

  lemma ErrorsOf(start: nat, s: Scanned)
    ensures ScanErrors(start, s)
         == (if s.badEscape then [Diagnostic(InvalidEscape, Span(start, start + s.length + 1))] else [])
            + (if s.open then [Diagnostic(UnterminatedQuote, Span(start, start + s.length))] else [])
  {
  }

  lemma LexEnd(input: string)
    ensures Lex(input, |input|) == Lexed([], [])
  {
  }

  lemma LexBlank(input: string, i: nat)
    requires i <= |input| && i + SkipWhitespace(input[i..]) == |input|
    ensures Lex(input, i) == Lexed([], [])
  {
  }

  lemma LexToken(input: string, i: nat, start: nat, s: Scanned)
    requires i <= |input| && start == i + SkipWhitespace(input[i..]) < |input|
    requires s == Scan(input[start..], false)
    ensures start + s.length <= |input|
    ensures var rest := Lex(input, start + s.length);
            Lex(input, i) == Lexed([Token(s.text, Span(start, start + s.length))] + rest.tokens, ScanErrors(start, s) + rest.errors)
  {
    hide Scan, SkipWhitespace, ScanErrors;
  }

  /** What has been read, followed by one more token and what is left. */
  lemma JoinLexed(tokens: seq<Token>, errors: seq<Diagnostic>, token: Token, added: seq<Diagnostic>, rest: Lexed)
    ensures tokens + ([token] + rest.tokens) == tokens + [token] + rest.tokens
    ensures errors + (added + rest.errors) == errors + added + rest.errors
  {
  }

  /** The first pass: tokens with their spans, and every quoting error. */
  method LexAll(input: string) returns (tokens: seq<Token>, errors: seq<Diagnostic>)
    ensures Lexed(tokens, errors) == Lex(input, 0)
  {
    hide Scan, SkipWhitespace, ScanErrors, Lex;
    tokens, errors := [], [];
    var i := 0;
    ghost var all := Lex(input, 0);
    assert all == Lexed([] + all.tokens, [] + all.errors);
    while i < |input|
      invariant i <= |input|
      invariant all == Lexed(tokens + Lex(input, i).tokens, errors + Lex(input, i).errors)
      decreases |input| - i
    {
      var start := SkipBlanks(input, i);
      if start == |input| {
        LexBlank(input, i);
        assert tokens + [] == tokens && errors + [] == errors;
        return;
      }
      var text, end, quoted, badEscape := ScanToken(input, start);
      ghost var s := Scanned(text, end - start, quoted, badEscape);
      TokenAdvances(input, start);
      LexToken(input, i, start, s);
      var added: seq<Diagnostic> := [];
      if badEscape {
        added := added + [Diagnostic(InvalidEscape, Span(start, end + 1))];
      }
      if quoted {
        added := added + [Diagnostic(UnterminatedQuote, Span(start, end))];
      }
      assert added == ScanErrors(start, s) by { ErrorsOf(start, s); }
      var token := Token(text, Span(start, end));
      JoinLexed(tokens, errors, token, added, Lex(input, end));
      tokens, errors, i := tokens + [token], errors + added, end;
    }
    LexEnd(input);
    assert tokens + [] == tokens && errors + [] == errors;
  }

  method Parse(dates: DateText, input: string) returns (r: Result<SearchAst, seq<Diagnostic>>)
    ensures r == ParseSearch(dates, input)
  {
    hide Lex, ParseTerm;
    var tokens, errors := LexAll(input);
    if errors != [] {
      return Err(errors);
    }
    var terms: SearchAst := [];
    for k := 0 to |tokens|
      invariant terms == TermsOf(dates, tokens[..k])
      invariant errors == TermErrors(dates, tokens[..k])
    {
      assert tokens[..k + 1][..k] == tokens[..k];
      match ParseTerm(dates, tokens[k].text)
      case Ok(t) => terms := terms + [t];
      case Err(kind) => errors := errors + [Diagnostic(kind, tokens[k].span)];
    }
    assert tokens[..|tokens|] == tokens;
    if errors == [] {
      return Ok(terms);
    }
    return Err(errors);
  }
}
