/**
 * The chart's shared list of data series (the datasets of the chart data
 * object), which every data model adds its own series to and removes it
 * from.  Both chart model base classes do this with the same code.  A series
 * is an opaque handle compared by identity, so the list is a sequence of
 * handles of some type with equality.
 */
module ChartDatasets {

  /**
   * `addDataSeriesToChart()`: an empty list is replaced by the one-series
   * list, any other list gets the series appended.  Either way the series
   * ends up last, after the series already there, in their order.
   */
  function AddDataSeriesToChart<S(==)>(datasets: seq<S>, series: S): (r: seq<S>)
    ensures r == datasets + [series]
  {
    if |datasets| == 0 then [series] else datasets + [series]
  }

  /** The position of the first occurrence of `series`. */
  function FirstIndex<S(==)>(datasets: seq<S>, series: S): (k: nat)
    requires series in datasets
    ensures k < |datasets| && datasets[k] == series && series !in datasets[..k]
  {
    if datasets[0] == series then 0
    else
      assert datasets[1..][..FirstIndex(datasets[1..], series)] == datasets[1..FirstIndex(datasets[1..], series) + 1];
      1 + FirstIndex(datasets[1..], series)
  }

  /** `removeDataSeriesFromChart()`, i.e. `List.remove(Object)`. */
  function RemoveDataSeriesFromChart<S(==)>(datasets: seq<S>, series: S): (r: seq<S>)
    ensures series !in datasets ==> r == datasets
    ensures |r| == if series in datasets then |datasets| - 1 else |datasets|
  {
    if |datasets| == 0 then []
    else if datasets[0] == series then datasets[1..]
    else
      assert datasets == [datasets[0]] + datasets[1..];
      [datasets[0]] + RemoveDataSeriesFromChart(datasets[1..], series)
  }

  /**
   * Removal takes out the first occurrence of the series and the others keep
   * their order; a list without the series is left as it is.
   */
  lemma {:induction false} RemoveFirstOccurrence<S>(datasets: seq<S>, series: S)
    ensures series !in datasets ==> RemoveDataSeriesFromChart(datasets, series) == datasets
    ensures series in datasets ==>
              var k := FirstIndex(datasets, series);
              RemoveDataSeriesFromChart(datasets, series) == datasets[..k] + datasets[k + 1..]
  {
    if |datasets| == 0 {
    } else {
      var head, tail := datasets[0], datasets[1..];
      assert datasets == [head] + tail;
      if head != series {
        RemoveFirstOccurrence(tail, series);
        if series in datasets {
          assert series in tail;
          var k' := FirstIndex(tail, series);
          assert FirstIndex(datasets, series) == k' + 1;
          assert datasets[..k' + 1] == [head] + tail[..k'];
          assert datasets[k' + 2..] == tail[k' + 1..];
        }
      }
    }
  }

  /**
   * Adding a series that is not in the list and then removing it gives back
   * the list as it was.
   */
  lemma AddThenRemove<S>(datasets: seq<S>, series: S)
    requires series !in datasets
    ensures RemoveDataSeriesFromChart(AddDataSeriesToChart(datasets, series), series) == datasets
  {
    var added := AddDataSeriesToChart(datasets, series);
    RemoveFirstOccurrence(added, series);
    var k := FirstIndex(added, series);
    assert k == |datasets|;
    assert added[..k] == datasets;
  }

  /**
   * Removing takes out exactly one copy of the series: every other series,
   * and any later copy of this one, stays in the list.
   */
  lemma {:induction false} RemoveTakesOneCopy<S>(datasets: seq<S>, series: S)
    ensures multiset(RemoveDataSeriesFromChart(datasets, series)) == multiset(datasets) - multiset{series}
    ensures series in datasets ==>
              |RemoveDataSeriesFromChart(datasets, series)| == |datasets| - 1
  {
    if |datasets| == 0 {
    } else {
      var head, tail := datasets[0], datasets[1..];
      assert datasets == [head] + tail;
      assert multiset(datasets) == multiset{head} + multiset(tail);
      if head == series {
        assert RemoveDataSeriesFromChart(datasets, series) == tail;
      } else {
        RemoveTakesOneCopy(tail, series);
        var rest := RemoveDataSeriesFromChart(tail, series);
        assert RemoveDataSeriesFromChart(datasets, series) == [head] + rest;
        assert multiset([head] + rest) == multiset{head} + multiset(rest);
      }
    }
  }
}
