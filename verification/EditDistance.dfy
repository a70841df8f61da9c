/** The one-row edit distance behind payee similarity (`src/importing/deduplication.rs`, lines 283-306). */
module EditDistance {
  import opened Wrappers
  import opened Cents

  function Init(s: string): string
    requires s != ""
  {
    s[..|s| - 1]
  }

  function Last(s: string): char
    requires s != ""
  {
    s[|s| - 1]
  }

  /** The recursive edit distance, by the last characters. */
  function Distance(a: string, b: string): nat
    decreases |a| + |b|
  {
    if a == "" then |b|
    else if b == "" then |a|
    else
      Min(Min(Distance(Init(a), b) + 1, Distance(a, Init(b)) + 1),
          Distance(Init(a), Init(b)) + if Last(a) != Last(b) then 1 else 0)
  }

  /** The distance of the prefixes of lengths `i` and `j`: the cell of the table. */
  ghost function Cell(a: string, b: string, i: nat, j: nat): nat
    requires i <= |a| && j <= |b|
  {
    Distance(a[..i], b[..j])
  }

  lemma CellStep(a: string, b: string, i: nat, j: nat)
    requires i < |a| && j < |b|
    ensures Cell(a, b, i + 1, j + 1)
         == Min(Min(Cell(a, b, i, j + 1) + 1, Cell(a, b, i + 1, j) + 1),
                Cell(a, b, i, j) + if a[i] != b[j] then 1 else 0)
  {
    assert Init(a[..i + 1]) == a[..i] && Init(b[..j + 1]) == b[..j];
  }

  lemma CellEdges(a: string, b: string)
    ensures forall j :: 0 <= j <= |b| ==> Cell(a, b, 0, j) == j
    ensures forall i :: 0 <= i <= |a| ==> Cell(a, b, i, 0) == i
  {
  }

  lemma {:induction false} WholeCell(a: string, b: string)
    ensures Cell(a, b, |a|, |b|) == Distance(a, b)
  {
    assert a[..|a|] == a && b[..|b|] == b;
  }

  /** The in-place loop over a single row of the table computes the distance. */
  method Levenshtein(a: string, b: string) returns (d: nat)
    ensures d == Distance(a, b)
  {
    hide Cell;
    var row := new nat[|b| + 1](j => j);
    CellEdges(a, b);
    for i := 0 to |a|
      invariant forall j :: 0 <= j <= |b| ==> row[j] == Cell(a, b, i, j)
    {
      var previous := row[0];
      row[0] := i + 1;
      for j := 0 to |b|
        invariant previous == Cell(a, b, i, j)
        invariant forall k :: 0 <= k <= j ==> row[k] == Cell(a, b, i + 1, k)
        invariant forall k :: j < k <= |b| ==> row[k] == Cell(a, b, i, k)
      {
        var above := row[j + 1];
        row[j + 1] := Min(Min(row[j + 1] + 1, row[j] + 1), previous + if a[i] != b[j] then 1 else 0);
        CellStep(a, b, i, j);
        previous := above;
      }
    }
    d := row[|b|];
    WholeCell(a, b);
  }

  // ----- Edit scripts -------------------------------------------------------------------------

  datatype Edit = Keep | Substitute(c: char) | Insert(c: char) | Delete

  function Append(s: Option<string>, t: string): Option<string> {
    match s case None => None case Some(v) => Some(v + t)
  }

  /** What a script makes of a text; the script must account for every character. */
  function Result(script: seq<Edit>, s: string): Option<string> {
    if script == [] then (if s == "" then Some("") else None)
    else
      var before, edit := script[..|script| - 1], script[|script| - 1];
      if edit.Insert? then Append(Result(before, s), [edit.c])
      else if s == "" then None
      else if edit.Keep? then Append(Result(before, Init(s)), [Last(s)])
      else if edit.Substitute? then Append(Result(before, Init(s)), [edit.c])
      else Result(before, Init(s))
  }

  /** The number of insertions, deletions and substitutions. */
  function Cost(script: seq<Edit>): nat {
    if script == [] then 0 else Cost(script[..|script| - 1]) + if script[|script| - 1].Keep? then 0 else 1
  }

  lemma DistanceSteps(a: string, b: string, x: char, y: char)
    ensures Distance(a + [x], b) <= Distance(a, b) + 1
    ensures Distance(a, b + [y]) <= Distance(a, b) + 1
    ensures Distance(a + [x], b + [y]) <= Distance(a, b) + if x != y then 1 else 0
  {
    assert Init(a + [x]) == a && Init(b + [y]) == b;
  }

  lemma {:induction false} NoCheaperScript(script: seq<Edit>, a: string, b: string)
    requires Result(script, a) == Some(b)
    ensures Distance(a, b) <= Cost(script)
    decreases |script|
  {
    if script != [] {
      var before, last := script[..|script| - 1], script[|script| - 1];
      match last
      case Keep =>
        var partial := Result(before, Init(a)).value;
        NoCheaperScript(before, Init(a), partial);
        DistanceSteps(Init(a), partial, Last(a), Last(a));
        assert a == Init(a) + [Last(a)];
      case Substitute(c) =>
        var partial := Result(before, Init(a)).value;
        NoCheaperScript(before, Init(a), partial);
        DistanceSteps(Init(a), partial, Last(a), c);
        assert a == Init(a) + [Last(a)];
      case Insert(c) =>
        var partial := Result(before, a).value;
        NoCheaperScript(before, a, partial);
        DistanceSteps(a, partial, c, c);
      case Delete =>
        NoCheaperScript(before, Init(a), b);
        DistanceSteps(Init(a), b, Last(a), Last(a));
        assert a == Init(a) + [Last(a)];
    }
  }

  /** A script of least cost. */
  function BestScript(a: string, b: string): seq<Edit>
    decreases |a| + |b|
  {
    if a == "" && b == "" then []
    else if a == "" then BestScript(a, Init(b)) + [Insert(Last(b))]
    else if b == "" then BestScript(Init(a), b) + [Delete]
    else if Distance(a, b) == Distance(Init(a), b) + 1 then BestScript(Init(a), b) + [Delete]
    else if Distance(a, b) == Distance(a, Init(b)) + 1 then BestScript(a, Init(b)) + [Insert(Last(b))]
    else BestScript(Init(a), Init(b)) + [if Last(a) == Last(b) then Keep else Substitute(Last(b))]
  }

  lemma ScriptStep(script: seq<Edit>, edit: Edit, s: string)
    ensures Cost(script + [edit]) == Cost(script) + if edit.Keep? then 0 else 1
    ensures Result(script + [edit], s)
         == if edit.Insert? then Append(Result(script, s), [edit.c])
            else if s == "" then None
            else if edit.Keep? then Append(Result(script, Init(s)), [Last(s)])
            else if edit.Substitute? then Append(Result(script, Init(s)), [edit.c])
            else Result(script, Init(s))
  {
    assert (script + [edit])[..|script|] == script;
  }

  lemma EmptyScript()
    ensures Result([], "") == Some("") && Cost([]) == 0
  {
  }

  lemma {:induction false} BestScriptAttains(a: string, b: string)
    ensures Result(BestScript(a, b), a) == Some(b) && Cost(BestScript(a, b)) == Distance(a, b)
    decreases |a| + |b|
  {
    hide Result, Cost;
    if a == "" && b == "" {
      EmptyScript();
    } else if a == "" {
      BestScriptAttains(a, Init(b));
      ScriptStep(BestScript(a, Init(b)), Insert(Last(b)), a);
      assert b == Init(b) + [Last(b)];
    } else if b == "" || Distance(a, b) == Distance(Init(a), b) + 1 {
      BestScriptAttains(Init(a), b);
      ScriptStep(BestScript(Init(a), b), Delete, a);
    } else if Distance(a, b) == Distance(a, Init(b)) + 1 {
      BestScriptAttains(a, Init(b));
      ScriptStep(BestScript(a, Init(b)), Insert(Last(b)), a);
      assert b == Init(b) + [Last(b)];
    } else {
      BestScriptAttains(Init(a), Init(b));
      ScriptStep(BestScript(Init(a), Init(b)), if Last(a) == Last(b) then Keep else Substitute(Last(b)), a);
      assert b == Init(b) + [Last(b)];
    }
  }

  /**
   The distance is the least number of insertions, deletions and substitutions that turn one text
   into the other: some script attains it and none is cheaper.
   */
  lemma DistanceIsMinimum(a: string, b: string)
    ensures exists script :: Result(script, a) == Some(b) && Cost(script) == Distance(a, b)
    ensures forall script :: Result(script, a) == Some(b) ==> Distance(a, b) <= Cost(script)
  {
    BestScriptAttains(a, b);
    forall script | Result(script, a) == Some(b)
      ensures Distance(a, b) <= Cost(script)
    {
      NoCheaperScript(script, a, b);
    }
  }

  // ----- A metric -----------------------------------------------------------------------------

  lemma {:induction false} Symmetric(a: string, b: string)
    ensures Distance(a, b) == Distance(b, a)
    decreases |a| + |b|
  {
    if a != "" && b != "" {
      Symmetric(Init(a), b);
      Symmetric(a, Init(b));
      Symmetric(Init(a), Init(b));
    }
  }

  lemma {:induction false} ZeroOnlyForEqual(a: string, b: string)
    ensures Distance(a, b) == 0 <==> a == b
    decreases |a| + |b|
  {
    if a != "" && b != "" {
      ZeroOnlyForEqual(Init(a), Init(b));
      assert a == Init(a) + [Last(a)] && b == Init(b) + [Last(b)];
    }
  }

  lemma {:induction false} LengthBounds(a: string, b: string)
    ensures Distance(a, b) <= Max(|a|, |b|)
    ensures Distance(a, b) >= |a| - |b| && Distance(a, b) >= |b| - |a|
    decreases |a| + |b|
  {
    if a != "" && b != "" {
      LengthBounds(Init(a), b);
      LengthBounds(a, Init(b));
      LengthBounds(Init(a), Init(b));
    }
  }

  lemma DistanceInits(a: string, b: string)
    ensures a != "" ==> Distance(a, b) <= Distance(Init(a), b) + 1
    ensures b != "" ==> Distance(a, b) <= Distance(a, Init(b)) + 1
    ensures a != "" && b != "" ==>
              Distance(a, b) <= Distance(Init(a), Init(b)) + if Last(a) != Last(b) then 1 else 0
  {
    if a != "" {
      assert a == Init(a) + [Last(a)];
      DistanceSteps(Init(a), b, Last(a), Last(a));
    }
    if b != "" {
      assert b == Init(b) + [Last(b)];
      DistanceSteps(a, Init(b), Last(b), Last(b));
    }
    if a != "" && b != "" {
      DistanceSteps(Init(a), Init(b), Last(a), Last(b));
    }
  }

  lemma {:induction false} Triangle(a: string, b: string, c: string)
    ensures Distance(a, c) <= Distance(a, b) + Distance(b, c)
    decreases |a| + |b| + |c|
  {
    DistanceInits(a, c);
    LengthBounds(a, b);
    LengthBounds(b, c);
    if a != "" && b != "" && c != "" {
      TriangleStep(a, b, c);
    } else if a == "" || c == "" {
    } else {
      LengthBounds(a, c);
    }
  }

  lemma LastEdit(a: string, b: string)
    requires a != "" && b != ""
    ensures || Distance(a, b) == Distance(Init(a), b) + 1
            || Distance(a, b) == Distance(a, Init(b)) + 1
            || Distance(a, b) == Distance(Init(a), Init(b)) + if Last(a) != Last(b) then 1 else 0
  {
  }

  /** The step of the triangle inequality, by the last edit on each side. */
  lemma {:induction false} TriangleStep(a: string, b: string, c: string)
    requires a != "" && b != "" && c != ""
    ensures Distance(a, c) <= Distance(a, b) + Distance(b, c)
    decreases |a| + |b| + |c|, 0
  {
    hide Distance;
    DistanceInits(a, c);
    LastEdit(a, b);
    LastEdit(b, c);
    Triangle(Init(a), b, c);
    Triangle(a, b, Init(c));
    Triangle(a, Init(b), c);
    Triangle(a, Init(b), Init(c));
    Triangle(Init(a), Init(b), c);
    Triangle(Init(a), Init(b), Init(c));
  }

  // ----- Similarity ---------------------------------------------------------------------------

  /** `1 - distance / longer length` is at least `percent` hundredths; two empty texts are alike. */
  predicate SimilarAtLeast(a: string, b: string, percent: nat) {
    var longer := Max(|a|, |b|);
    longer == 0 || 100 * (longer - Distance(a, b)) >= percent * longer
  }

  lemma SimilarityIsSymmetricAndFullForEqual(a: string, b: string, percent: nat)
    ensures SimilarAtLeast(a, b, percent) <==> SimilarAtLeast(b, a, percent)
    ensures SimilarAtLeast(a, b, 0)
    ensures SimilarAtLeast(a, b, 100) <==> a == b
  {
    Symmetric(a, b);
    ZeroOnlyForEqual(a, b);
    LengthBounds(a, b);
  }
}
