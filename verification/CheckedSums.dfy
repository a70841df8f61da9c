/** Checked addition over a hash map, whose order is not known. */
module CheckedSums {
  import opened Wrappers
  import opened Cents
  import opened Sums

  function Sizes<K>(m: map<K, Money>): map<K, int> {
    map k | k in m :: Magnitude(m[k])
  }

  lemma {:induction false} TotalOfSizes<K>(m: map<K, Money>)
    ensures Total(Sizes(m)) >= 0
    decreases |m|
  {
    if m == map[] {
      assert Sizes(m) == map[];
      TotalEmpty<K>();
    } else {
      var k :| k in m;
      TotalRemove(Sizes(m), k);
      assert Sizes(m) - {k} == Sizes(m - {k});
      TotalOfSizes(m - {k});
    }
  }

  /** No order of adding the amounts leaves the range. */
  ghost predicate NeverOverflows<K>(m: map<K, Money>) {
    Total(Sizes(m)) <= MAX_CENTS
  }

  method CheckedTotal<K>(m: map<K, Money>) returns (r: Result<Money, MoneyError>)
    ensures r.Ok? ==> r.value == Total(m)
    ensures r.Err? ==> r.error == Overflow
    ensures NeverOverflows(m) ==> r.Ok?
  {
    var sum: Money := 0;
    var rest := m;
    while rest != map[]
      invariant sum + Total(rest) == Total(m)
      invariant Magnitude(sum) + Total(Sizes(rest)) <= Total(Sizes(m))
      decreases |rest|
    {
      var k :| k in rest;
      TotalRemove(rest, k);
      TotalRemove(Sizes(rest), k);
      assert Sizes(rest) - {k} == Sizes(rest - {k});
      TotalOfSizes(rest - {k});
      sum :- CheckedAdd(sum, rest[k]);
      rest := rest - {k};
    }
    TotalEmpty<K>();
    return Ok(sum);
  }
}
