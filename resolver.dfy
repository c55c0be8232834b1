/** The date-to-value lookup: the index value that applies on a date is the one
    of the last entry, in series order, dated on or before it. */
module Resolver {
  import opened Basics
  import opened Calendar
  import opened Errors
  import opened IclTable

  /** Entry `k` is dated on or before `d` and no later entry is. */
  predicate LastUpTo(series: seq<Record>, k: int, d: Date) {
    0 <= k < |series| && OnOrBefore(series[k].fecha, d) &&
    forall j :: k < j < |series| ==> !OnOrBefore(series[j].fecha, d)
  }

  /** The position of the last entry dated on or before `d`, or -1 when there is
      none. */
  function LastIndexUpTo(series: seq<Record>, d: Date): (k: int)
    ensures -1 <= k < |series|
    ensures k >= 0 ==> LastUpTo(series, k, d)
    ensures k < 0 ==> forall i :: 0 <= i < |series| ==> !OnOrBefore(series[i].fecha, d)
  {
    if series == [] then -1
    else
      var n := |series| - 1;
      if OnOrBefore(series[n].fecha, d) then n
      else
        var k := LastIndexUpTo(series[..n], d);
        assert forall i :: 0 <= i < n ==> series[..n][i] == series[i];
        k
  }

  /** The entries dated on or before `d` (`df[df["fecha"] <= d]`): each kept entry
      is one of them and each of them is kept; the last kept is the last such entry
      of the series. */
  function UpTo(series: seq<Record>, d: Date): (r: seq<Record>)
    ensures r == [] <==> LastIndexUpTo(series, d) < 0
    ensures r != [] ==> r[|r| - 1] == series[LastIndexUpTo(series, d)]
    ensures forall i :: 0 <= i < |r| ==> OnOrBefore(r[i].fecha, d) && r[i] in series
    ensures forall i :: 0 <= i < |series| && OnOrBefore(series[i].fecha, d) ==> series[i] in r
  {
    if series == [] then []
    else
      var n := |series| - 1;
      var init := UpTo(series[..n], d);
      assert forall i :: 0 <= i < n ==> series[..n][i] == series[i];
      if OnOrBefore(series[n].fecha, d) then init + [series[n]] else init
  }

  /** `valor_icl_en_fecha`: the value of the last entry dated on or before `d`, or
      a failure naming `d` when every entry is later than `d` (or there is none). */
  function ValueAt(series: seq<Record>, d: Date): (r: Result<real, Error>)
    ensures r.Failure? <==> forall i :: 0 <= i < |series| ==> !OnOrBefore(series[i].fecha, d)
    ensures r.Failure? ==> r.error == NoValueUpTo(d)
    ensures r.Success? ==> var k := LastIndexUpTo(series, d); 0 <= k && LastUpTo(series, k, d) && r.value == series[k].icl
  {
    var disponibles := UpTo(series, d);
    if disponibles == [] then Failure(NoValueUpTo(d))
    else Success(disponibles[|disponibles| - 1].icl)
  }

  /** On a date-sorted series, a query from the date of entry `i` up to (not
      including) the date of the next entry gets the value of entry `i`. */
  lemma ValueAtBetween(series: seq<Record>, i: nat, d: Date)
    requires SortedByDate(series) && i < |series|
    requires OnOrBefore(series[i].fecha, d)
    requires i + 1 == |series| || Before(d, series[i + 1].fecha)
    ensures ValueAt(series, d) == Success(series[i].icl)
  {
    var k := LastIndexUpTo(series, d);
    if k > i {
      assert OnOrBefore(series[i + 1].fecha, series[k].fecha);
    }
    assert k == i;
  }

  /** On a series with strictly increasing dates, a query for the date of an entry
      gets that entry's value. */
  lemma ValueAtExactDate(series: seq<Record>, i: nat)
    requires i < |series|
    requires forall a, b :: 0 <= a < b < |series| ==> Before(series[a].fecha, series[b].fecha)
    ensures ValueAt(series, series[i].fecha) == Success(series[i].icl)
  {
    ValueAtBetween(series, i, series[i].fecha);
  }

  /** On a date-sorted series, a query before the first entry fails. */
  lemma ValueAtBeforeFirst(series: seq<Record>, d: Date)
    requires SortedByDate(series) && series != []
    requires Before(d, series[0].fecha)
    ensures ValueAt(series, d) == Failure(NoValueUpTo(d))
  {
    forall i | 0 <= i < |series| ensures !OnOrBefore(series[i].fecha, d) {
      assert OnOrBefore(series[0].fecha, series[i].fecha) || i == 0;
    }
  }

  /** With entries on dates D1 < D2 < D3, every query in [D2, D3) gets the value at
      D2, and every query before D1 fails. */
  lemma ValueAtThreeDates(e1: Record, e2: Record, e3: Record, d: Date)
    requires Before(e1.fecha, e2.fecha) && Before(e2.fecha, e3.fecha)
    ensures OnOrBefore(e2.fecha, d) && Before(d, e3.fecha) ==> ValueAt([e1, e2, e3], d) == Success(e2.icl)
    ensures Before(d, e1.fecha) ==> ValueAt([e1, e2, e3], d) == Failure(NoValueUpTo(d))
  {
    var s := [e1, e2, e3];
    assert SortedByDate(s);
    if OnOrBefore(e2.fecha, d) && Before(d, e3.fecha) {
      ValueAtBetween(s, 1, d);
    }
    if Before(d, e1.fecha) {
      ValueAtBeforeFirst(s, d);
    }
  }
}
