/** Which verdict an imported row gets, from the records alone (`src/importing/deduplication.rs`, lines 79-240). */
module ImportVerdicts {
  import opened Wrappers
  import opened Cents
  import opened EditDistance
  import opened Deduplication

  // ----- What one existing record says --------------------------------------------------------

  /** At least so many percent of the longer text are left when the edits between the texts are taken off. */
  predicate Alike(a: string, b: string, percent: nat) {
    var longer := if |a| < |b| then |b| else |a|;
    100 * (longer - Distance(a, b)) >= percent * longer
  }

  predicate SameImportId(candidate: Record, e: Record) {
    candidate.fitid.Some? && e.fitid.Some? && e.fitid.value == candidate.fitid.value
  }

  predicate SameSourceId(candidate: Record, e: Record) {
    candidate.sourceIdentifier.Some? && e.sourceIdentifier.Some? && e.sourceIdentifier.value == candidate.sourceIdentifier.value
  }

  /** The same amount on a day nearby, for a payee that is spelled alike. */
  predicate LooksLike(candidate: Record, e: Record, days: nat, percent: nat) {
    && e.amount == candidate.amount && e.day - candidate.day <= days && candidate.day - e.day <= days
    && Alike(candidate.payee, e.payee, percent)
  }

  /** The kinds of evidence, strongest first. */
  datatype Evidence = Exact | OtherAccount | Strong | Possible

  function Count(b: bool): nat {
    if b then 1 else 0
  }

  /** How many pieces of one kind of evidence a record gives. */
  function Pieces(kind: Evidence, candidate: Record, e: Record): nat {
    var here := e.accountKey == candidate.accountKey;
    var strong := LooksLike(candidate, e, 1, 92);
    var possible := LooksLike(candidate, e, 3, 80);
    match kind
    case Exact =>
      Count(here && SameImportId(candidate, e)) + Count(here && SameSourceId(candidate, e))
      + Count(e.fingerprint == candidate.fingerprint)
    case OtherAccount =>
      Count(!here && SameImportId(candidate, e)) + Count(!here && SameSourceId(candidate, e))
      + Count(!here && (strong || possible))
    case Strong => Count(here && strong)
    case Possible => Count(here && possible && !strong)
  }

  function AllPieces(kind: Evidence, candidate: Record, existing: seq<Record>): nat {
    if existing == [] then 0
    else
      AllPieces(kind, candidate, existing[..|existing| - 1]) + Pieces(kind, candidate, existing[|existing| - 1])
  }

  function Level(kind: Evidence): nat {
    match kind case Exact => 0 case OtherAccount => 1 case Strong => 2 case Possible => 3
  }

  function KindOf(kind: Evidence): Classification {
    match kind
    case Exact => ExactImportIdDuplicate
    case OtherAccount => AccountMismatch
    case Strong => StrongDateAmountPayeeMatch
    case Possible => PossibleManualMatch
  }

  // ----- Suggestions are pieces of evidence ---------------------------------------------------

  function Hits(source: Source, candidate: Record, e: Record, rank: nat): nat {
    var r := source(candidate, e);
    Count(r.Some? && Rank(r.value) == rank)
  }

  function AllHits(source: Source, candidate: Record, existing: seq<Record>, rank: nat): nat {
    if existing == [] then 0
    else AllHits(source, candidate, existing[..|existing| - 1], rank) + Hits(source, candidate, existing[|existing| - 1], rank)
  }

  lemma {:induction false} PassHits(source: Source, candidate: Record, existing: seq<Record>, rank: nat)
    ensures RankCount(Pass(source, candidate, existing), rank) == AllHits(source, candidate, existing, rank)
  {
    hide Rank;
    if existing != [] {
      var last := |existing| - 1;
      PassHits(source, candidate, existing[..last], rank);
      var before := Pass(source, candidate, existing[..last]);
      match source(candidate, existing[last])
      case None =>
      case Some(kind) => assert (before + [Suggestion(last, kind)])[..|before|] == before;
    }
  }

  lemma SimilarIsAlike(a: string, b: string, percent: nat)
    ensures SimilarAtLeast(a, b, percent) <==> Alike(a, b, percent)
  {
  }

  lemma HitsAreMarks(candidate: Record, e: Record, kind: Evidence)
    ensures Hits(ByFitid, candidate, e, Level(kind)) + Hits(BySourceIdentifier, candidate, e, Level(kind))
            + Hits(ByFingerprint, candidate, e, Level(kind)) + Hits(ByLikeness, candidate, e, Level(kind))
         == Pieces(kind, candidate, e)
  {
    SimilarIsAlike(candidate.payee, e.payee, 92);
    SimilarIsAlike(candidate.payee, e.payee, 80);
    hide SimilarAtLeast, Alike;
  }

  lemma {:induction false} AllHitsArePieces(candidate: Record, existing: seq<Record>, kind: Evidence)
    ensures AllHits(ByFitid, candidate, existing, Level(kind)) + AllHits(BySourceIdentifier, candidate, existing, Level(kind))
            + AllHits(ByFingerprint, candidate, existing, Level(kind)) + AllHits(ByLikeness, candidate, existing, Level(kind))
         == AllPieces(kind, candidate, existing)
  {
    hide Hits, Pieces, Level;
    if existing != [] {
      AllHitsArePieces(candidate, existing[..|existing| - 1], kind);
      HitsAreMarks(candidate, existing[|existing| - 1], kind);
    }
  }

  /** The suggestions of a level are as many as the pieces of evidence of that kind. */
  lemma SuggestionsArePieces(candidate: Record, existing: seq<Record>, kind: Evidence)
    ensures RankCount(Suggestions(candidate, existing), Level(kind)) == AllPieces(kind, candidate, existing)
  {
    hide Pass, RankCount, AllHits, Level, AllPieces;
    var a, b := Pass(ByFitid, candidate, existing), Pass(BySourceIdentifier, candidate, existing);
    var c, d := Pass(ByFingerprint, candidate, existing), Pass(ByLikeness, candidate, existing);
    var rank := Level(kind);
    RankCountOfConcat(a + b + c, d, rank);
    RankCountOfConcat(a + b, c, rank);
    RankCountOfConcat(a, b, rank);
    PassHits(ByFitid, candidate, existing, rank);
    PassHits(BySourceIdentifier, candidate, existing, rank);
    PassHits(ByFingerprint, candidate, existing, rank);
    PassHits(ByLikeness, candidate, existing, rank);
    AllHitsArePieces(candidate, existing, kind);
  }

  lemma {:induction false} PassMembers(source: Source, candidate: Record, existing: seq<Record>)
    ensures forall i: nat, kind :: Suggestion(i, kind) in Pass(source, candidate, existing) <==>
              0 <= i < |existing| && source(candidate, existing[i]) == Some(kind)
  {
    if existing != [] {
      var last := |existing| - 1;
      PassMembers(source, candidate, existing[..last]);
    }
  }

  lemma OneSourceRanks(candidate: Record, e: Record)
    ensures ByFitid(candidate, e).Some? ==> Rank(ByFitid(candidate, e).value) <= 1
    ensures BySourceIdentifier(candidate, e).Some? ==> Rank(BySourceIdentifier(candidate, e).value) <= 1
    ensures ByFingerprint(candidate, e).Some? ==> Rank(ByFingerprint(candidate, e).value) == 0
    ensures ByLikeness(candidate, e).Some? ==> 1 <= Rank(ByLikeness(candidate, e).value) <= 3
  {
  }

  lemma SuggestedKinds(candidate: Record, existing: seq<Record>, s: Suggestion)
    requires s in Suggestions(candidate, existing)
    ensures s.index < |existing| && Rank(s.kind) <= 3
    ensures forall kind :: Level(kind) == Rank(s.kind) ==> s.kind == KindOf(kind) && Pieces(kind, candidate, existing[s.index]) > 0
  {
    PassMembers(ByFitid, candidate, existing);
    PassMembers(BySourceIdentifier, candidate, existing);
    PassMembers(ByFingerprint, candidate, existing);
    PassMembers(ByLikeness, candidate, existing);
    assert s == Suggestion(s.index, s.kind);
    var e := existing[s.index];
    OneSourceRanks(candidate, e);
    forall kind | Level(kind) == Rank(s.kind)
      ensures s.kind == KindOf(kind) && Pieces(kind, candidate, e) > 0
    {
      HitsAreMarks(candidate, e, kind);
      assert s.kind == KindOf(kind);
    }
  }

  lemma PiecesAreSuggested(candidate: Record, existing: seq<Record>, kind: Evidence, i: nat)
    requires i < |existing| && Pieces(kind, candidate, existing[i]) > 0
    ensures exists s :: s in Suggestions(candidate, existing) && s.index == i && Rank(s.kind) == Level(kind)
  {
    PassMembers(ByFitid, candidate, existing);
    PassMembers(BySourceIdentifier, candidate, existing);
    PassMembers(ByFingerprint, candidate, existing);
    PassMembers(ByLikeness, candidate, existing);
    HitsAreMarks(candidate, existing[i], kind);
    var e := existing[i];
    if Hits(ByFitid, candidate, e, Level(kind)) > 0 {
      assert Suggestion(i, ByFitid(candidate, e).value) in Suggestions(candidate, existing);
    } else if Hits(BySourceIdentifier, candidate, e, Level(kind)) > 0 {
      assert Suggestion(i, BySourceIdentifier(candidate, e).value) in Suggestions(candidate, existing);
    } else if Hits(ByFingerprint, candidate, e, Level(kind)) > 0 {
      assert Suggestion(i, ByFingerprint(candidate, e).value) in Suggestions(candidate, existing);
    } else {
      assert Suggestion(i, ByLikeness(candidate, e).value) in Suggestions(candidate, existing);
    }
  }

  // ----- The verdict --------------------------------------------------------------------------

  /** The strongest kind of evidence that some record gives. */
  predicate IsStrongest(candidate: Record, existing: seq<Record>, kind: Evidence) {
    && AllPieces(kind, candidate, existing) > 0
    && forall other :: Level(other) < Level(kind) ==> AllPieces(other, candidate, existing) == 0
  }

  /**
   The verdict from the records alone. Without any evidence the row is new. Otherwise the strongest
   kind of evidence decides: it names the verdict if there is just one piece of it and leaves it
   ambiguous if there are more, and the match is the first record that gives any of it.
   */
  lemma {:induction false} VerdictExactly(candidate: Record, existing: seq<Record>)
    ensures var v := Decide(Sorted(Suggestions(candidate, existing)));
            && ((forall kind :: AllPieces(kind, candidate, existing) == 0) ==> v == Verdict(New, None))
            && forall kind :: IsStrongest(candidate, existing, kind) ==>
                 && v.kind == (if AllPieces(kind, candidate, existing) == 1 then KindOf(kind) else AmbiguousMatch)
                 && v.matched.Some? && v.matched.value < |existing|
                 && Pieces(kind, candidate, existing[v.matched.value]) > 0
                 && forall i :: 0 <= i < v.matched.value ==> Pieces(kind, candidate, existing[i]) == 0
  {
    hide Suggestions, Sorted, Decide, Pieces, AllPieces, RankCount;
    var s := Suggestions(candidate, existing);
    var v := Decide(Sorted(s));
    VerdictIsStrongest(s);
    forall kind ensures RankCount(s, Level(kind)) == AllPieces(kind, candidate, existing) {
      SuggestionsArePieces(candidate, existing, kind);
    }
    if s == [] {
      forall kind ensures AllPieces(kind, candidate, existing) == 0 {
        NoneOfRank(s, Level(kind));
      }
    } else {
      var best :| best in s && Strongest(s, Rank(best.kind)) && v.matched == Some(best.index)
        && (forall other :: other in s && Rank(other.kind) == Rank(best.kind) ==> best.index <= other.index)
        && v.kind == if RankCount(s, Rank(best.kind)) == 1 then best.kind else AmbiguousMatch;
      SuggestedKinds(candidate, existing, best);
      var found := if Rank(best.kind) == 0 then Exact else if Rank(best.kind) == 1 then OtherAccount
                   else if Rank(best.kind) == 2 then Strong else Possible;
      assert Level(found) == Rank(best.kind);
      assert RankCount(s, Level(found)) > 0;
      forall kind | IsStrongest(candidate, existing, kind)
        ensures kind == found
      {
        NoneOfRank(s, Level(kind));
        assert Level(kind) <= Level(found);
      }
      forall i | 0 <= i < best.index
        ensures Pieces(found, candidate, existing[i]) == 0
      {
        if Pieces(found, candidate, existing[i]) > 0 {
          PiecesAreSuggested(candidate, existing, found, i);
        }
      }
    }
  }
}
