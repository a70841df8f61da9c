/** The cache of calculated months (`src/app/view_model.rs`, lines 143-158). */
module MonthCache {
  import opened Wrappers
  import opened BudgetMonths
  import opened BudgetChain

  /** A cached month: the version it was built at and the result it shows. */
  datatype View = View(month: Month, version: nat, result: MonthResult)

  /** The entries of earlier months, untouched. */
  function KeptBefore(entries: map<Month, View>, month: Month): (kept: map<Month, View>)
    ensures forall cached :: cached in kept <==> cached in entries && cached < month
    ensures forall cached :: cached in kept ==> kept[cached] == entries[cached]
  {
    map cached | cached in entries && cached < month :: entries[cached]
  }

  class BudgetMonthCache {
    var entries: map<Month, View>

    constructor ()
      ensures entries == map[]
    {
      entries := map[];
    }

    /** The cached view of a month, if it was built at the wanted version. */
    function Get(month: Month, version: nat): (r: Option<View>)
      reads this
      ensures r.Some? <==> month in entries && entries[month].version == version
      ensures r.Some? ==> r.value == entries[month]
    {
      if month in entries && entries[month].version == version then Some(entries[month]) else None
    }

    method Insert(view: View)
      modifies this
      ensures entries == old(entries)[view.month := view]
    {
      entries := entries[view.month := view];
    }

    method InvalidateFrom(month: Month)
      modifies this
      ensures entries == KeptBefore(old(entries), month)
    {
      entries := map cached | cached in entries && cached < month :: entries[cached];
    }
  }

  /** The calculation of the months up to this one has the result `r` for it. */
  ghost predicate Calculates(inputs: seq<MonthInput>, month: Month, r: MonthResult) {
    var upTo := Chronological(InputsBefore(inputs, month + 1));
    upTo.Ok? && ResultOf(upTo.value, month, r)
  }

  /**
   Every entry shows what calculating the inputs up to its month gives for it; later months may
   overflow. What an input is charged for later months is taken as it stands.
   */
  ghost predicate Sound(entries: map<Month, View>, inputs: seq<MonthInput>) {
    forall month :: month in entries ==>
      entries[month].month == month && Calculates(inputs, month, entries[month].result)
  }

  /** Wherever all months can be calculated, a sound cache agrees with that calculation on every entry. */
  lemma SoundAgreesWithRecomputation(entries: map<Month, View>, inputs: seq<MonthInput>, month: Month)
    requires Sound(entries, inputs) && month in entries && Chronological(inputs).Ok?
    ensures forall r :: ResultOf(Chronological(inputs).value, month, r) <==> Calculates(inputs, month, r)
    ensures ResultOf(Chronological(inputs).value, month, entries[month].result)
  {
    hide Chronological, ResultOf, InputsBefore;
    forall r ensures ResultOf(Chronological(inputs).value, month, r) <==> Calculates(inputs, month, r) {
      ResultUpToMonth(inputs, month, r);
    }
  }

  /** Inserting a view of a calculated month keeps the cache sound. */
  lemma InsertKeepsSound(entries: map<Month, View>, view: View, inputs: seq<MonthInput>)
    requires Sound(entries, inputs) && Calculates(inputs, view.month, view.result)
    ensures Sound(entries[view.month := view], inputs)
  {
  }

  /**
   After the inputs from a month on have changed, however they have and whether or not they can still
   be calculated, dropping the entries from that month on leaves a sound cache.
   */
  lemma {:induction false} InvalidationIsSound(entries: map<Month, View>, before: seq<MonthInput>, after: seq<MonthInput>, month: Month)
    requires Sound(entries, before)
    requires DistinctMonths(before) && DistinctMonths(after)
    requires multiset(InputsBefore(before, month)) == multiset(InputsBefore(after, month))
    ensures Sound(KeptBefore(entries, month), after)
  {
    hide Chronological, ResultOf, InputsBefore, DistinctMonths;
    var kept := KeptBefore(entries, month);
    forall cached | cached in kept
      ensures kept[cached].month == cached && Calculates(after, cached, kept[cached].result)
    {
      EarlierCalculationStays(before, after, month, cached + 1);
    }
  }

  // ----- Runs ---------------------------------------------------------------------------------

  /** A calculated month is cached, or the inputs change from a month on and that month is invalidated. */
  datatype Event = Calculated(view: View) | Changed(month: Month, inputs: seq<MonthInput>)

  ghost predicate Legal(inputs: seq<MonthInput>, e: Event) {
    match e
    case Calculated(view) => Calculates(inputs, view.month, view.result)
    case Changed(month, after) =>
      && DistinctMonths(after)
      && multiset(InputsBefore(inputs, month)) == multiset(InputsBefore(after, month))
  }

  function EntriesAfter(entries: map<Month, View>, e: Event): map<Month, View> {
    match e
    case Calculated(view) => entries[view.month := view]
    case Changed(month, _) => KeptBefore(entries, month)
  }

  function InputsAfter(inputs: seq<MonthInput>, e: Event): seq<MonthInput> {
    match e case Calculated(_) => inputs case Changed(_, after) => after
  }

  ghost predicate LegalRun(inputs: seq<MonthInput>, events: seq<Event>)
    decreases |events|
  {
    events == [] || (Legal(inputs, events[0]) && LegalRun(InputsAfter(inputs, events[0]), events[1..]))
  }

  function FinalEntries(entries: map<Month, View>, events: seq<Event>): map<Month, View>
    decreases |events|
  {
    if events == [] then entries else FinalEntries(EntriesAfter(entries, events[0]), events[1..])
  }

  function FinalInputs(inputs: seq<MonthInput>, events: seq<Event>): seq<MonthInput>
    decreases |events|
  {
    if events == [] then inputs else FinalInputs(InputsAfter(inputs, events[0]), events[1..])
  }

  /** However calculations and input changes alternate, the cache stays sound. */
  lemma {:induction false} RunKeepsSound(entries: map<Month, View>, inputs: seq<MonthInput>, events: seq<Event>)
    requires Sound(entries, inputs) && DistinctMonths(inputs) && LegalRun(inputs, events)
    ensures Sound(FinalEntries(entries, events), FinalInputs(inputs, events))
    decreases |events|
  {
    hide Calculates, DistinctMonths, InputsBefore, Sound, KeptBefore;
    if events != [] {
      var e := events[0];
      match e {
        case Calculated(view) => InsertKeepsSound(entries, view, inputs);
        case Changed(month, after) => InvalidationIsSound(entries, inputs, after, month);
      }
      RunKeepsSound(EntriesAfter(entries, e), InputsAfter(inputs, e), events[1..]);
    }
  }
}
