/** Compiling a search to parameterised SQL (`src/app/search.rs`, lines 263-381). */
module SearchQuery {
  import opened Wrappers
  import opened Cents
  import opened Text
  import opened Calendar
  import opened SearchLanguage

  // ----- LIKE patterns ------------------------------------------------------------------------

  function LikeEscape(v: string): string {
    Replace(Replace(Replace(v, '\\', "\\\\"), '%', "\\%"), '_', "\\_")
  }

  /** The pattern bound for a text: the text with the wildcards escaped, between two wildcards. */
  function Like(v: string): string {
    "%" + LikeEscape(v) + "%"
  }

  /**
   SQL `s LIKE pattern ESCAPE '\'` as SQLite defines it: `%` stands for any text, `_` for any one
   character, an escaped character for itself, and letters compare without regard to ASCII case.
   */
  predicate Matches(pattern: string, s: string)
    decreases |pattern|, |s|
  {
    if pattern == "" then s == ""
    else if pattern[0] == '%' then Matches(pattern[1..], s) || (s != "" && Matches(pattern, s[1..]))
    else if pattern[0] == '_' then s != "" && Matches(pattern[1..], s[1..])
    else if pattern[0] == '\\' then
      |pattern| > 1 && s != "" && LowerChar(pattern[1]) == LowerChar(s[0]) && Matches(pattern[2..], s[1..])
    else s != "" && LowerChar(pattern[0]) == LowerChar(s[0]) && Matches(pattern[1..], s[1..])
  }

  /** `s` holds `v` at position `i`, up to ASCII case. */
  predicate HoldsAt(s: string, v: string, i: nat) {
    i + |v| <= |s| && forall k :: 0 <= k < |v| ==> LowerChar(s[i + k]) == LowerChar(v[k])
  }

  function LikeEscapeChar(c: char): string {
    if c == '\\' || c == '%' || c == '_' then ['\\', c] else [c]
  }

  lemma ReplaceHead(c: char, rest: string, from: char, with: string)
    ensures Replace([c] + rest, from, with) == (if c == from then with else [c]) + Replace(rest, from, with)
  {
    assert ([c] + rest)[1..] == rest;
  }

  lemma ReplaceTwo(a: char, b: char, rest: string, from: char, with: string)
    ensures Replace([a, b] + rest, from, with)
         == (if a == from then with else [a]) + (if b == from then with else [b]) + Replace(rest, from, with)
  {
    assert [a, b] + rest == [a] + ([b] + rest);
    ReplaceHead(a, [b] + rest, from, with);
    ReplaceHead(b, rest, from, with);
  }

  lemma LikeEscapeHead(v: string)
    requires v != ""
    ensures LikeEscape(v) == LikeEscapeChar(v[0]) + LikeEscape(v[1..])
  {
    hide Replace;
    var c, rest := v[0], v[1..];
    assert v == [c] + rest;
    var rest1 := Replace(rest, '\\', "\\\\");
    var rest2 := Replace(rest1, '%', "\\%");
    ReplaceHead(c, rest, '\\', "\\\\");
    if c == '\\' {
      ReplaceTwo('\\', '\\', rest1, '%', "\\%");
      ReplaceTwo('\\', '\\', rest2, '_', "\\_");
      assert "\\\\" == ['\\', '\\'] == ['\\'] + ['\\'];
    } else {
      ReplaceHead(c, rest1, '%', "\\%");
      if c == '%' {
        ReplaceTwo('\\', '%', rest2, '_', "\\_");
        assert "\\%" == ['\\', '%'] == ['\\'] + ['%'];
      } else {
        ReplaceHead(c, rest2, '_', "\\_");
        assert "\\_" == ['\\', '_'];
      }
    }
  }

  lemma {:induction false} WildcardMatchesAll(s: string)
    ensures Matches("%", s)
    decreases |s|
  {
    if s != "" {
      WildcardMatchesAll(s[1..]);
    } else {
      assert "%"[1..] == "";
    }
  }

  /** The escaped text before a wildcard matches exactly the strings that start with the text. */
  lemma {:induction false} EscapedMatchesPrefix(v: string, s: string)
    ensures Matches(LikeEscape(v) + "%", s) <==> HoldsAt(s, v, 0)
    decreases |v|
  {
    var pattern := LikeEscape(v) + "%";
    if v == "" {
      assert pattern == "%";
      WildcardMatchesAll(s);
    } else {
      LikeEscapeHead(v);
      var tail := LikeEscape(v[1..]) + "%";
      assert pattern == LikeEscapeChar(v[0]) + tail;
      assert pattern[|LikeEscapeChar(v[0])|..] == tail;
      if s != "" {
        EscapedMatchesPrefix(v[1..], s[1..]);
        assert HoldsAt(s, v, 0) <==> LowerChar(s[0]) == LowerChar(v[0]) && HoldsAt(s[1..], v[1..], 0) by {
          if HoldsAt(s, v, 0) {
            forall k | 0 <= k < |v[1..]| ensures LowerChar(s[1..][0 + k]) == LowerChar(v[1..][k]) {
              assert LowerChar(s[0 + (k + 1)]) == LowerChar(v[k + 1]);
            }
          }
          if LowerChar(s[0]) == LowerChar(v[0]) && HoldsAt(s[1..], v[1..], 0) {
            forall k | 0 <= k < |v| ensures LowerChar(s[0 + k]) == LowerChar(v[k]) {
              if k > 0 {
                assert LowerChar(s[1..][0 + (k - 1)]) == LowerChar(v[1..][k - 1]);
              }
            }
          }
        }
      }
    }
  }

  lemma HoldsLater(s: string, v: string, i: nat)
    requires 1 <= i <= |s|
    ensures HoldsAt(s, v, i) <==> HoldsAt(s[1..], v, i - 1)
  {
    if i + |v| <= |s| {
      forall k | 0 <= k < |v|
        ensures LowerChar(s[i + k]) == LowerChar(v[k]) <==> LowerChar(s[1..][i - 1 + k]) == LowerChar(v[k])
      {
      }
    }
  }

  lemma {:induction false} WildcardSearches(v: string, s: string)
    ensures Matches("%" + (LikeEscape(v) + "%"), s) <==> exists i :: 0 <= i <= |s| && HoldsAt(s, v, i)
    decreases |s|
  {
    var rest := LikeEscape(v) + "%";
    var pattern := "%" + rest;
    assert pattern[1..] == rest;
    EscapedMatchesPrefix(v, s);
    if s != "" {
      WildcardSearches(v, s[1..]);
      forall i | 1 <= i <= |s|
        ensures HoldsAt(s, v, i) <==> HoldsAt(s[1..], v, i - 1)
      {
        HoldsLater(s, v, i);
      }
      if exists i :: 0 <= i <= |s[1..]| && HoldsAt(s[1..], v, i) {
        var i :| 0 <= i <= |s[1..]| && HoldsAt(s[1..], v, i);
        assert HoldsAt(s, v, i + 1);
      }
    }
  }

  /**
   The bound pattern matches a string exactly when the user's text occurs in it, for every text,
   percent signs, underscores and backslashes included.
   */
  lemma LikeFindsSubstring(v: string, s: string)
    ensures Matches(Like(v), s) <==> exists i :: 0 <= i <= |s| && HoldsAt(s, v, i)
  {
    assert Like(v) == "%" + (LikeEscape(v) + "%");
    WildcardSearches(v, s);
  }

  // ----- The query plan -----------------------------------------------------------------------

  datatype BindValue = TextBind(text: string) | IntegerBind(value: int)

  /** SQL text in pieces, so that a placeholder is never mistaken for quoted text. */
  datatype Fragment = Sql(text: string) | Placeholder

  datatype QueryPlan = QueryPlan(whereSql: seq<Fragment>, binds: seq<BindValue>)

  function TextColumns(): seq<string> {
    ["payees.name", "transactions.payee_snapshot", "transactions.memo", "categories.name", "accounts.name",
     "CAST(transactions.amount AS TEXT)", "transactions.transaction_date"]
  }

  function LikeAny(columns: seq<string>): seq<Fragment> {
    if columns == [] then []
    else
      [Sql(columns[0] + " LIKE "), Placeholder, Sql(" ESCAPE '\\'")]
      + (if |columns| == 1 then [] else [Sql(" OR ")]) + LikeAny(columns[1..])
  }

  function Compared(column: string, operator: string): seq<Fragment> {
    [Sql(column + " " + operator + " "), Placeholder]
  }

  function IsNull(column: string, negated: bool): seq<Fragment> {
    [Sql(column + " IS " + (if negated then "NOT " else "") + "NULL")]
  }

  /** Text fields write an escape clause of two backslashes, which is not a single character. */
  function FieldLike(column: string): seq<Fragment> {
    [Sql(column + " LIKE "), Placeholder, Sql(" ESCAPE '\\\\'")]
  }

  function Clause(t: SearchTerm): seq<Fragment> {
    match t
    case Plain(_) => [Sql("(")] + LikeAny(TextColumns()) + [Sql(")")]
    case Account(_) => FieldLike("accounts.name")
    case AccountGroup(_) => FieldLike("account_groups.name")
    case Category(_) => FieldLike("categories.name")
    case Payee(_) => FieldLike("payees.name")
    case Memo(_) => FieldLike("transactions.memo")
    case Amount(c, _) => Compared("transactions.amount", ComparisonText(c))
    case BeforeDate(_) => Compared("transactions.transaction_date", "<")
    case AfterDate(_) => Compared("transactions.transaction_date", " >")
    case FromDate(_) => Compared("transactions.transaction_date", ">=")
    case ThroughDate(_) => Compared("transactions.transaction_date", "<=")
    case Uncategorized(b) => IsNull("transactions.category_id", !b)
    case IsReconciled(b) => Compared("transactions.cleared_state", if b then "=" else "<>")
    case Imported(b) => IsNull("transactions.import_batch_id", b)
    case IsTransfer(b) => IsNull("transactions.transfer_id", b)
    case IsCleared(b) => Compared("transactions.cleared_state", if b then "<>" else "=")
    case IsApproved(_) => Compared("transactions.approval_state", "=")
  }

  function Repeat(b: BindValue, n: nat): (bs: seq<BindValue>)
    ensures |bs| == n && forall i :: 0 <= i < n ==> bs[i] == b
  {
    if n == 0 then [] else [b] + Repeat(b, n - 1)
  }

  function Binds(dates: DateText, t: SearchTerm): seq<BindValue> {
    match t
    case Plain(v) => Repeat(TextBind(Like(v)), 7)
    case Account(v) => [TextBind(Like(v))]
    case AccountGroup(v) => [TextBind(Like(v))]
    case Category(v) => [TextBind(Like(v))]
    case Payee(v) => [TextBind(Like(v))]
    case Memo(v) => [TextBind(Like(v))]
    case Amount(_, value) => [IntegerBind(value)]
    case BeforeDate(d) => [TextBind(dates.show(d))]
    case AfterDate(d) => [TextBind(dates.show(d))]
    case FromDate(d) => [TextBind(dates.show(d))]
    case ThroughDate(d) => [TextBind(dates.show(d))]
    case Uncategorized(_) => []
    case IsReconciled(_) => [TextBind("reconciled")]
    case Imported(_) => []
    case IsTransfer(_) => []
    case IsCleared(_) => [TextBind("uncleared")]
    case IsApproved(b) => [TextBind(if b then "approved" else "unapproved")]
  }

  /** The clauses joined by AND, and the bind values in order, of the first `n` terms. */
  function PlanOf(dates: DateText, ast: SearchAst): QueryPlan {
    if ast == [] then QueryPlan([], [])
    else
      var last := ast[|ast| - 1];
      var before := PlanOf(dates, ast[..|ast| - 1]);
      QueryPlan((if |ast| == 1 then [] else before.whereSql + [Sql(" AND ")]) + Clause(last),
                before.binds + Binds(dates, last))
  }

  method Compile(dates: DateText, ast: SearchAst) returns (plan: QueryPlan)
    ensures plan == PlanOf(dates, ast)
  {
    var sql: seq<Fragment> := [];
    var binds: seq<BindValue> := [];
    for i := 0 to |ast|
      invariant PlanOf(dates, ast[..i]) == QueryPlan(sql, binds)
    {
      assert ast[..i + 1][..i] == ast[..i];
      sql := (if i == 0 then [] else sql + [Sql(" AND ")]) + Clause(ast[i]);
      binds := binds + Binds(dates, ast[i]);
    }
    assert ast[..|ast|] == ast;
    return QueryPlan(sql, binds);
  }

  function Placeholders(sql: seq<Fragment>): nat {
    if sql == [] then 0 else Placeholders(sql[..|sql| - 1]) + if sql[|sql| - 1].Placeholder? then 1 else 0
  }

  lemma {:induction false} PlaceholdersOfConcat(a: seq<Fragment>, b: seq<Fragment>)
    ensures Placeholders(a + b) == Placeholders(a) + Placeholders(b)
  {
    if b == [] {
      assert a + b == a;
    } else {
      assert (a + b)[..|a + b| - 1] == a + b[..|b| - 1];
      PlaceholdersOfConcat(a, b[..|b| - 1]);
    }
  }

  lemma PlaceholdersOfOne(f: Fragment)
    ensures Placeholders([f]) == if f.Placeholder? then 1 else 0
  {
    assert [f][..0] == [];
  }

  lemma PlaceholdersOfPair(f: Fragment, g: Fragment)
    ensures Placeholders([f, g]) == (if f.Placeholder? then 1 else 0) + if g.Placeholder? then 1 else 0
  {
    assert [f, g] == [f] + [g];
    PlaceholdersOfConcat([f], [g]);
    PlaceholdersOfOne(f);
    PlaceholdersOfOne(g);
  }

  lemma PlaceholdersOfTriple(f: Fragment, g: Fragment, h: Fragment)
    ensures Placeholders([f, g, h])
         == (if f.Placeholder? then 1 else 0) + (if g.Placeholder? then 1 else 0) + if h.Placeholder? then 1 else 0
  {
    assert [f, g, h] == [f, g] + [h];
    PlaceholdersOfConcat([f, g], [h]);
    PlaceholdersOfPair(f, g);
    PlaceholdersOfOne(h);
  }

  lemma {:induction false} PlaceholdersOfLikeAny(columns: seq<string>)
    ensures Placeholders(LikeAny(columns)) == |columns|
  {
    if columns != [] {
      var like := [Sql(columns[0] + " LIKE "), Placeholder, Sql(" ESCAPE '\\'")];
      var join := if |columns| == 1 then [] else [Sql(" OR ")];
      PlaceholdersOfLikeAny(columns[1..]);
      PlaceholdersOfConcat(like + join, LikeAny(columns[1..]));
      PlaceholdersOfConcat(like, join);
      PlaceholdersOfTriple(like[0], like[1], like[2]);
      PlaceholdersOfOne(Sql(" OR "));
    }
  }

  lemma ClauseMatchesBinds(dates: DateText, t: SearchTerm)
    ensures Placeholders(Clause(t)) == |Binds(dates, t)|
  {
    hide Placeholders, LikeAny, Like;
    var c := Clause(t);
    if t.Plain? {
      var open, inner, close := [Sql("(")], LikeAny(TextColumns()), [Sql(")")];
      assert c == open + inner + close;
      PlaceholdersOfConcat(open + inner, close);
      PlaceholdersOfConcat(open, inner);
      PlaceholdersOfLikeAny(TextColumns());
      PlaceholdersOfOne(Sql("("));
      PlaceholdersOfOne(Sql(")"));
    } else if |c| == 1 {
      assert c == [c[0]];
      PlaceholdersOfOne(c[0]);
    } else if |c| == 2 {
      assert c == [c[0], c[1]];
      PlaceholdersOfPair(c[0], c[1]);
    } else {
      assert c == [c[0], c[1], c[2]];
      PlaceholdersOfTriple(c[0], c[1], c[2]);
    }
  }

  lemma PlaceholdersOfEmpty()
    ensures Placeholders([]) == 0
  {
  }

  /** Every placeholder of a compiled search has its bind value, and there are no others. */
  lemma {:induction false} PlaceholdersMatchBinds(dates: DateText, ast: SearchAst)
    ensures Placeholders(PlanOf(dates, ast).whereSql) == |PlanOf(dates, ast).binds|
  {
    hide Placeholders, Clause, Binds;
    if ast != [] {
      var last, before := ast[|ast| - 1], PlanOf(dates, ast[..|ast| - 1]);
      PlaceholdersMatchBinds(dates, ast[..|ast| - 1]);
      ClauseMatchesBinds(dates, last);
      if |ast| == 1 {
        assert ast[..0] == [];
        assert [] + Clause(last) == Clause(last);
      } else {
        PlaceholdersOfConcat(before.whereSql + [Sql(" AND ")], Clause(last));
        PlaceholdersOfConcat(before.whereSql, [Sql(" AND ")]);
        PlaceholdersOfOne(Sql(" AND "));
      }
    } else {
      PlaceholdersOfEmpty();
    }
  }

  /** A term without its text, amount or date: its kind, operator and flag. */
  function Shape(t: SearchTerm): SearchTerm {
    match t
    case Plain(_) => Plain("")
    case Account(_) => Account("")
    case AccountGroup(_) => AccountGroup("")
    case Category(_) => Category("")
    case Payee(_) => Payee("")
    case Memo(_) => Memo("")
    case Amount(c, _) => Amount(c, 0)
    case BeforeDate(_) => BeforeDate(MIN_DATE)
    case AfterDate(_) => AfterDate(MIN_DATE)
    case FromDate(_) => FromDate(MIN_DATE)
    case ThroughDate(_) => ThroughDate(MIN_DATE)
    case _ => t
  }

  lemma ClauseOfShape(t: SearchTerm)
    ensures Clause(Shape(t)) == Clause(t)
  {
    hide LikeAny, TextColumns, Compared, IsNull, FieldLike;
  }

  /** The SQL text holds no user text: it depends on the shape of the search alone. */
  lemma {:induction false} SqlHoldsNoUserText(dates: DateText, a: SearchAst, b: SearchAst)
    requires |a| == |b| && forall i :: 0 <= i < |a| ==> Shape(a[i]) == Shape(b[i])
    ensures PlanOf(dates, a).whereSql == PlanOf(dates, b).whereSql
  {
    hide Clause, Binds, Shape;
    if a != [] {
      SqlHoldsNoUserText(dates, a[..|a| - 1], b[..|b| - 1]);
      ClauseOfShape(a[|a| - 1]);
      ClauseOfShape(b[|b| - 1]);
    }
  }

  // ----- Escape clauses -----------------------------------------------------------------------

  const ESCAPE := " ESCAPE '"

  /** What an escape clause of the SQL puts between its quotes. */
  function EscapeOperand(f: Fragment): Option<string> {
    if f.Sql? && |f.text| > |ESCAPE| && f.text[..|ESCAPE|] == ESCAPE && f.text[|f.text| - 1] == '\'' then
      Some(f.text[|ESCAPE|..|f.text| - 1])
    else None
  }

  /** The terms that search one text column. */
  predicate SearchesColumn(t: SearchTerm) {
    t.Account? || t.AccountGroup? || t.Category? || t.Payee? || t.Memo?
  }

  /** Every escape clause names the single backslash that the bound patterns are written with. */
  predicate EscapesByBackslash(sql: seq<Fragment>) {
    forall f :: f in sql && EscapeOperand(f).Some? ==> EscapeOperand(f) == Some("\\")
  }

  lemma OtherStart(text: string)
    requires |text| >= 2 && text[1] != 'E'
    ensures EscapeOperand(Sql(text)) == None
  {
    if |text| > |ESCAPE| {
      assert text[..|ESCAPE|][1] == text[1];
    }
  }

  lemma ShortText(text: string)
    requires |text| <= |ESCAPE|
    ensures EscapeOperand(Sql(text)) == None
  {
  }

  lemma OneBackslash()
    ensures EscapeOperand(Sql(" ESCAPE '\\'")) == Some("\\")
    ensures EscapeOperand(Placeholder) == None
  {
    var text := " ESCAPE '\\'";
    assert text[..|ESCAPE|] == ESCAPE && text[|ESCAPE|..|text| - 1] == "\\";
  }

  lemma EscapesOfConcat(a: seq<Fragment>, b: seq<Fragment>)
    ensures EscapesByBackslash(a + b) <==> EscapesByBackslash(a) && EscapesByBackslash(b)
  {
    hide EscapeOperand;
    assert forall f :: f in a + b <==> f in a || f in b;
  }

  lemma {:induction false} LikeAnyEscapes(columns: seq<string>)
    requires forall i :: 0 <= i < |columns| ==> |columns[i]| >= 2 && columns[i][1] != 'E'
    ensures EscapesByBackslash(LikeAny(columns))
  {
    if columns != [] {
      LikeAnyEscapes(columns[1..]);
      OtherStart(columns[0] + " LIKE ");
      OneBackslash();
      ShortText(" OR ");
      hide EscapeOperand;
      var first := [Sql(columns[0] + " LIKE "), Placeholder, Sql(" ESCAPE '\\'")];
      var joint := if |columns| == 1 then [] else [Sql(" OR ")];
      assert EscapesByBackslash(first) && EscapesByBackslash(joint);
      EscapesOfConcat(first, joint);
      EscapesOfConcat(first + joint, LikeAny(columns[1..]));
    }
  }

  lemma ColumnEscapes(column: string)
    requires |column| >= 2 && column[1] != 'E'
    ensures EscapeOperand(FieldLike(column)[2]) == Some("\\\\")
    ensures !EscapesByBackslash(FieldLike(column))
  {
    var f := FieldLike(column)[2];
    assert f.text[..|ESCAPE|] == ESCAPE && f.text[|ESCAPE|..|f.text| - 1] == "\\\\";
    assert f in FieldLike(column);
  }

  lemma ComparedEscapes(column: string, operator: string)
    requires |column| >= 2 && column[1] != 'E'
    ensures EscapesByBackslash(Compared(column, operator))
  {
    OtherStart(column + " " + operator + " ");
  }

  lemma IsNullEscapes(column: string, negated: bool)
    requires |column| >= 2 && column[1] != 'E'
    ensures EscapesByBackslash(IsNull(column, negated))
  {
    OtherStart(column + " IS " + (if negated then "NOT " else "") + "NULL");
  }

  lemma PlainEscapes()
    ensures EscapesByBackslash([Sql("(")] + LikeAny(TextColumns()) + [Sql(")")])
  {
    hide LikeAny;
    LikeAnyEscapes(TextColumns());
    ShortText("(");
    ShortText(")");
  }

  lemma {:induction false} ClauseEscapes(t: SearchTerm)
    ensures EscapesByBackslash(Clause(t)) <==> !SearchesColumn(t)
  {
    hide LikeAny, Compared, IsNull, FieldLike, EscapesByBackslash;
    match t
    case Plain(_) => PlainEscapes();
    case Account(_) => ColumnEscapes("accounts.name");
    case AccountGroup(_) => ColumnEscapes("account_groups.name");
    case Category(_) => ColumnEscapes("categories.name");
    case Payee(_) => ColumnEscapes("payees.name");
    case Memo(_) => ColumnEscapes("transactions.memo");
    case Amount(c, _) => ComparedEscapes("transactions.amount", ComparisonText(c));
    case BeforeDate(_) => ComparedEscapes("transactions.transaction_date", "<");
    case AfterDate(_) => ComparedEscapes("transactions.transaction_date", " >");
    case FromDate(_) => ComparedEscapes("transactions.transaction_date", ">=");
    case ThroughDate(_) => ComparedEscapes("transactions.transaction_date", "<=");
    case Uncategorized(b) => IsNullEscapes("transactions.category_id", !b);
    case IsReconciled(b) => ComparedEscapes("transactions.cleared_state", if b then "=" else "<>");
    case Imported(b) => IsNullEscapes("transactions.import_batch_id", b);
    case IsTransfer(b) => IsNullEscapes("transactions.transfer_id", b);
    case IsCleared(b) => ComparedEscapes("transactions.cleared_state", if b then "<>" else "=");
    case IsApproved(_) => ComparedEscapes("transactions.approval_state", "=");
  }

  /**
   A compiled search reads all its patterns with the escape they are written with if and only if no
   term searches a single text column; such a term writes two backslashes, which are no one character.
   */
  lemma {:induction false} EscapesMatchPatterns(dates: DateText, ast: SearchAst)
    ensures EscapesByBackslash(PlanOf(dates, ast).whereSql)
       <==> forall i :: 0 <= i < |ast| ==> !SearchesColumn(ast[i])
  {
    hide Clause, Binds, EscapeOperand;
    if ast != [] {
      var init, last := ast[..|ast| - 1], ast[|ast| - 1];
      EscapesMatchPatterns(dates, init);
      ClauseEscapes(last);
      assert forall i :: 0 <= i < |init| ==> ast[i] == init[i];
      assert EscapeOperand(Sql(" AND ")) == None by {
        ShortText(" AND ");
      }
      var joint := if |ast| == 1 then [] else PlanOf(dates, init).whereSql + [Sql(" AND ")];
      EscapesOfConcat(joint, Clause(last));
      if |ast| > 1 {
        EscapesOfConcat(PlanOf(dates, init).whereSql, [Sql(" AND ")]);
      }
    }
  }

  lemma PlanOfOne(dates: DateText, t: SearchTerm)
    ensures PlanOf(dates, [t]).whereSql == Clause(t)
  {
    hide Clause, Binds;
    assert [t][..0] == [];
    assert [] + Clause(t) == Clause(t);
  }

  /** The search `account:x` writes an escape clause of two characters. */
  lemma ColumnSearchEscapesByTwo(dates: DateText)
    ensures var sql := PlanOf(dates, [Account("x")]).whereSql;
            && !EscapesByBackslash(sql)
            && exists f :: f in sql && EscapeOperand(f).Some? && |EscapeOperand(f).value| == 2
  {
    PlanOfOne(dates, Account("x"));
    hide PlanOf, EscapesByBackslash, EscapeOperand;
    var sql := FieldLike("accounts.name");
    ColumnEscapes("accounts.name");
    assert sql[2] in sql;
  }
}
