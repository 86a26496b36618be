/** `processRawDataForBestPaceChart` of src/utils/runningDataUtils.ts: rows
    of run data become the points of the best-pace trend chart. Each row is
    mapped to a point or to `null`, the `null`s are filtered out, and the
    points are sorted by timestamp.

    `new Date(x).getTime()` is the parameter `parseDate`: `None` stands for
    an invalid date (`NaN`), `Some(t)` for the time value `t`. */
module PaceChart {
  import opened Options
  import opened JsValues
  import opened PaceParser

  /** `SimplePaceDataPoint`. */
  datatype PacePoint = PacePoint(timestamp: int, bestPaceSeconds: int)

  /** The column names the rows are read with. */
  const DateColumn: string := "Date"
  const BestPaceColumn: string := "Best Pace"

  // ---------------------------------------------------------------------
  // The map callback and the reference reading of a row
  // ---------------------------------------------------------------------

  /** The callback passed to `map`. Reading a column of a `null` or
      `undefined` row throws; otherwise the row is dropped (`null`) when its
      date is invalid or its pace is not positive. */
  function PointOf(run: JsValue, parseDate: JsValue -> Option<int>): (r: Completion<Option<PacePoint>>)
    ensures r.Throw? <==> run.IsNullish()
    ensures r.Throw? ==> r.thrown.ErrorObject? && r.thrown.kind == TypeError
    ensures r.Normal? && r.value.Some? ==> r.value.value.bestPaceSeconds > 0
  {
    match GetProp(run, DateColumn)
    case Throw(e) => Throw(e)
    case Normal(dateValue) =>
      var date := parseDate(dateValue);
      var pace := ParsePaceToSeconds(GetProp(run, BestPaceColumn).value);
      if date.None? || pace <= 0 then Normal(None)
      else Normal(Some(PacePoint(date.value, pace)))
  }

  /** The point a row stands for, read straight off its two columns: the
      row survives exactly when its date is valid and its pace is positive. */
  function Survivor(run: JsValue, parseDate: JsValue -> Option<int>): (r: Option<PacePoint>)
    ensures forall p: PacePoint :: r == Some(p) <==>
      && parseDate(Field(run, DateColumn)) == Some(p.timestamp)
      && ParsePaceToSeconds(Field(run, BestPaceColumn)) == p.bestPaceSeconds
      && p.bestPaceSeconds > 0
  {
    var date := parseDate(Field(run, DateColumn));
    var pace := ParsePaceToSeconds(Field(run, BestPaceColumn));
    if date.Some? && pace > 0 then Some(PacePoint(date.value, pace)) else None
  }

  /** On a row that can be read, the callback yields the row's survivor. */
  lemma PointOfSurvivor(run: JsValue, parseDate: JsValue -> Option<int>)
    requires !run.IsNullish()
    ensures PointOf(run, parseDate) == Normal(Survivor(run, parseDate))
  {
  }

  /** Some row of `runs` is `null` or `undefined`. */
  predicate HasNullishRow(runs: seq<JsValue>) {
    exists i :: 0 <= i < |runs| && runs[i].IsNullish()
  }

  // ---------------------------------------------------------------------
  // map, filter
  // ---------------------------------------------------------------------

  /** `runs.map(callback)`: the callback runs on the rows in order and the
      first exception ends the whole call. */
  function MapRuns(runs: seq<JsValue>, parseDate: JsValue -> Option<int>): (r: Completion<seq<Option<PacePoint>>>)
    ensures r.Throw? <==> HasNullishRow(runs)
    ensures r.Throw? ==> r.thrown.ErrorObject? && r.thrown.kind == TypeError
    ensures r.Normal? ==> |r.value| == |runs|
    ensures r.Normal? ==> forall i :: 0 <= i < |runs| ==> PointOf(runs[i], parseDate) == Normal(r.value[i])
  {
    if |runs| == 0 then Normal([])
    else
      assert HasNullishRow(runs) <==> runs[0].IsNullish() || HasNullishRow(runs[1..]) by {
        if HasNullishRow(runs[1..]) {
          var i :| 0 <= i < |runs[1..]| && runs[1..][i].IsNullish();
          assert runs[i + 1].IsNullish();
        }
        if HasNullishRow(runs) && !runs[0].IsNullish() {
          var i :| 0 <= i < |runs| && runs[i].IsNullish();
          assert runs[1..][i - 1].IsNullish();
        }
      }
      match PointOf(runs[0], parseDate)
      case Throw(e) => Throw(e)
      case Normal(item) =>
        match MapRuns(runs[1..], parseDate)
        case Throw(e) => Throw(e)
        case Normal(items) =>
          assert forall i :: 1 <= i < |runs| ==> runs[i] == runs[1..][i - 1];
          Normal([item] + items)
  }

  /** `.filter(item => item !== null)`: the points, in order. */
  function KeepPoints(items: seq<Option<PacePoint>>): (r: seq<PacePoint>)
    ensures |r| <= |items|
    ensures forall p :: p in r <==> Some(p) in items
  {
    if |items| == 0 then []
    else
      assert items == [items[0]] + items[1..];
      (if items[0].Some? then [items[0].value] else []) + KeepPoints(items[1..])
  }

  /** The surviving points of `runs` in input order, computed row by row
      without an intermediate list: the reference for map-then-filter. */
  function Survivors(runs: seq<JsValue>, parseDate: JsValue -> Option<int>): seq<PacePoint> {
    if |runs| == 0 then []
    else
      (match Survivor(runs[0], parseDate) case Some(p) => [p] case None => [])
      + Survivors(runs[1..], parseDate)
  }

  /** Mapping and then filtering keeps exactly the survivors, in order. */
  lemma {:induction false} MapThenKeep(runs: seq<JsValue>, parseDate: JsValue -> Option<int>)
    requires !HasNullishRow(runs)
    ensures MapRuns(runs, parseDate).Normal?
    ensures KeepPoints(MapRuns(runs, parseDate).value) == Survivors(runs, parseDate)
  {
    if |runs| > 0 {
      assert !runs[0].IsNullish();
      MapThenKeep(runs[1..], parseDate);
      PointOfSurvivor(runs[0], parseDate);
      var items := MapRuns(runs, parseDate).value;
      var rest := MapRuns(runs[1..], parseDate).value;
      assert items == [Survivor(runs[0], parseDate)] + rest;
      assert items[1..] == rest;
    }
  }

  /** A point is a survivor of `runs` exactly when some row yields it. */
  lemma {:induction false} SurvivorsMembers(runs: seq<JsValue>, parseDate: JsValue -> Option<int>, p: PacePoint)
    ensures p in Survivors(runs, parseDate) <==>
      exists i :: 0 <= i < |runs| && Survivor(runs[i], parseDate) == Some(p)
  {
    if |runs| > 0 {
      SurvivorsMembers(runs[1..], parseDate, p);
      if exists i :: 0 <= i < |runs| && Survivor(runs[i], parseDate) == Some(p) {
        var i :| 0 <= i < |runs| && Survivor(runs[i], parseDate) == Some(p);
        if i > 0 {
          assert runs[1..][i - 1] == runs[i];
        }
      }
      if exists i :: 0 <= i < |runs[1..]| && Survivor(runs[1..][i], parseDate) == Some(p) {
        var i :| 0 <= i < |runs[1..]| && Survivor(runs[1..][i], parseDate) == Some(p);
        assert runs[i + 1] == runs[1..][i];
      }
    }
  }

  // ---------------------------------------------------------------------
  // sort
  // ---------------------------------------------------------------------

  /** Timestamps never decrease from left to right. */
  predicate Sorted(ps: seq<PacePoint>) {
    forall i, j :: 0 <= i < j < |ps| ==> ps[i].timestamp <= ps[j].timestamp
  }

  /** Puts `p` in front of the first point that is not earlier than it, so
      that `p` stays ahead of the points with the same timestamp. */
  function Insert(p: PacePoint, sorted: seq<PacePoint>): (r: seq<PacePoint>)
    requires Sorted(sorted)
    ensures Sorted(r)
    ensures multiset(r) == multiset(sorted) + multiset{p}
    ensures r[0] == p || (|sorted| > 0 && r[0] == sorted[0])
  {
    if |sorted| == 0 || p.timestamp <= sorted[0].timestamp then
      SortedCons(p, sorted);
      [p] + sorted
    else
      SortedTail(sorted);
      var rest := Insert(p, sorted[1..]);
      SortedCons(sorted[0], rest);
      assert sorted == [sorted[0]] + sorted[1..];
      [sorted[0]] + rest
  }

  /** A point no later than the head of a sorted sequence can go in front. */
  lemma SortedCons(x: PacePoint, s: seq<PacePoint>)
    requires Sorted(s)
    requires |s| > 0 ==> x.timestamp <= s[0].timestamp
    ensures Sorted([x] + s)
  {
    var r := [x] + s;
    forall i, j | 0 <= i < j < |r|
      ensures r[i].timestamp <= r[j].timestamp
    {
      if i == 0 {
        assert r[j] == s[j - 1];
      } else {
        assert r[i] == s[i - 1] && r[j] == s[j - 1];
      }
    }
  }

  /** Dropping the head of a sorted sequence leaves it sorted. */
  lemma SortedTail(s: seq<PacePoint>)
    requires Sorted(s) && |s| > 0
    ensures Sorted(s[1..])
  {
  }

  /** `.sort((a, b) => a.timestamp - b.timestamp)`. `Array.prototype.sort`
      is stable, which this insertion sort reproduces: see `SortStable`. */
  function SortByTimestamp(ps: seq<PacePoint>): (r: seq<PacePoint>)
    ensures Sorted(r)
    ensures multiset(r) == multiset(ps)
  {
    if |ps| == 0 then []
    else
      assert ps == [ps[0]] + ps[1..];
      Insert(ps[0], SortByTimestamp(ps[1..]))
  }

  /** The points stamped `t`, in order. */
  function WithTimestamp(ps: seq<PacePoint>, t: int): seq<PacePoint> {
    if |ps| == 0 then []
    else (if ps[0].timestamp == t then [ps[0]] else []) + WithTimestamp(ps[1..], t)
  }

  /** Inserting adds `p` at the front of its own timestamp's points and
      leaves every other timestamp's points alone. */
  lemma {:induction false} InsertStable(p: PacePoint, sorted: seq<PacePoint>, t: int)
    requires Sorted(sorted)
    ensures WithTimestamp(Insert(p, sorted), t)
         == (if p.timestamp == t then [p] else []) + WithTimestamp(sorted, t)
  {
    if |sorted| == 0 || p.timestamp <= sorted[0].timestamp {
      WithTimestampCons(p, sorted, t);
    } else {
      var head, tail := sorted[0], sorted[1..];
      var rest := Insert(p, tail);
      InsertStable(p, tail, t);
      WithTimestampCons(head, rest, t);
      assert sorted == [head] + tail;
      WithTimestampCons(head, tail, t);
      if p.timestamp == t {
        assert head.timestamp != t;
      }
    }
  }

  /** The points stamped `t` of `[x] + s`. */
  lemma WithTimestampCons(x: PacePoint, s: seq<PacePoint>, t: int)
    ensures WithTimestamp([x] + s, t) == (if x.timestamp == t then [x] else []) + WithTimestamp(s, t)
  {
    assert ([x] + s)[1..] == s;
  }

  /** Sorting keeps the points of each timestamp in their input order. */
  lemma {:induction false} SortStable(ps: seq<PacePoint>, t: int)
    ensures WithTimestamp(SortByTimestamp(ps), t) == WithTimestamp(ps, t)
  {
    if |ps| > 0 {
      SortStable(ps[1..], t);
      InsertStable(ps[0], SortByTimestamp(ps[1..]), t);
    }
  }

  /** The sorted sequence holds the same points. */
  lemma SortMembers(ps: seq<PacePoint>, p: PacePoint)
    ensures p in SortByTimestamp(ps) <==> p in ps
  {
    var r := SortByTimestamp(ps);
    assert p in r <==> p in multiset(r);
    assert p in ps <==> p in multiset(ps);
  }

  // ---------------------------------------------------------------------
  // The whole pipeline
  // ---------------------------------------------------------------------

  /** `processRawDataForBestPaceChart(rawRunData)`: `None` is a `null` or
      `undefined` argument. */
  function ProcessRawData(raw: Option<seq<JsValue>>, parseDate: JsValue -> Option<int>): (r: Completion<seq<PacePoint>>)
    ensures raw.None? ==> r == Normal([])
    ensures r.Throw? <==> raw.Some? && HasNullishRow(raw.value)
    ensures r.Throw? ==> r.thrown.ErrorObject? && r.thrown.kind == TypeError
    ensures r.Normal? ==> Sorted(r.value)
    ensures raw.Some? && r.Normal? ==> |r.value| <= |raw.value|
  {
    match raw
    case None => Normal([])
    case Some(runs) =>
      match MapRuns(runs, parseDate)
      case Throw(e) => Throw(e)
      case Normal(items) =>
        var kept := KeepPoints(items);
        assert |multiset(SortByTimestamp(kept))| == |multiset(kept)|;
        Normal(SortByTimestamp(kept))
  }

  /** Every charted point has a positive pace. */
  lemma PositivePaces(raw: Option<seq<JsValue>>, parseDate: JsValue -> Option<int>, p: PacePoint)
    requires ProcessRawData(raw, parseDate).Normal?
    requires p in ProcessRawData(raw, parseDate).value
    ensures p.bestPaceSeconds > 0
  {
    var runs := raw.value;
    var items := MapRuns(runs, parseDate).value;
    SortMembers(KeepPoints(items), p);
    var i :| 0 <= i < |items| && items[i] == Some(p);
    assert PointOf(runs[i], parseDate) == Normal(Some(p));
  }

  /** With no `null` row the call returns the survivors, sorted. */
  lemma ProcessIsSortedSurvivors(runs: seq<JsValue>, parseDate: JsValue -> Option<int>)
    requires !HasNullishRow(runs)
    ensures ProcessRawData(Some(runs), parseDate) == Normal(SortByTimestamp(Survivors(runs, parseDate)))
  {
    MapThenKeep(runs, parseDate);
  }

  /** The output is a permutation of the surviving rows' points. */
  lemma ProcessPermutesSurvivors(runs: seq<JsValue>, parseDate: JsValue -> Option<int>)
    requires !HasNullishRow(runs)
    ensures multiset(ProcessRawData(Some(runs), parseDate).value) == multiset(Survivors(runs, parseDate))
  {
    ProcessIsSortedSurvivors(runs, parseDate);
  }

  /** A point is charted exactly when some row has a valid date equal to its
      timestamp and a positive pace equal to its pace. */
  lemma ProcessMembers(runs: seq<JsValue>, parseDate: JsValue -> Option<int>, p: PacePoint)
    requires !HasNullishRow(runs)
    ensures p in ProcessRawData(Some(runs), parseDate).value <==>
      exists i :: 0 <= i < |runs|
        && parseDate(Field(runs[i], DateColumn)) == Some(p.timestamp)
        && ParsePaceToSeconds(Field(runs[i], BestPaceColumn)) == p.bestPaceSeconds
        && p.bestPaceSeconds > 0
  {
    ProcessIsSortedSurvivors(runs, parseDate);
    SortMembers(Survivors(runs, parseDate), p);
    SurvivorsMembers(runs, parseDate, p);
    if exists i :: 0 <= i < |runs|
        && parseDate(Field(runs[i], DateColumn)) == Some(p.timestamp)
        && ParsePaceToSeconds(Field(runs[i], BestPaceColumn)) == p.bestPaceSeconds
        && p.bestPaceSeconds > 0
    {
      var i :| 0 <= i < |runs|
        && parseDate(Field(runs[i], DateColumn)) == Some(p.timestamp)
        && ParsePaceToSeconds(Field(runs[i], BestPaceColumn)) == p.bestPaceSeconds
        && p.bestPaceSeconds > 0;
      assert Survivor(runs[i], parseDate) == Some(p);
    }
  }

  /** Runs on the same day keep the order they had in the input. */
  lemma ProcessKeepsSameDayOrder(runs: seq<JsValue>, parseDate: JsValue -> Option<int>, t: int)
    requires !HasNullishRow(runs)
    ensures WithTimestamp(ProcessRawData(Some(runs), parseDate).value, t)
         == WithTimestamp(Survivors(runs, parseDate), t)
  {
    ProcessIsSortedSurvivors(runs, parseDate);
    SortStable(Survivors(runs, parseDate), t);
  }

  // ---------------------------------------------------------------------
  // Examples
  // ---------------------------------------------------------------------

  /** A single readable row gives one point if it survives and none
      otherwise. */
  lemma OneRow(run: JsValue, parseDate: JsValue -> Option<int>)
    requires !run.IsNullish()
    ensures ProcessRawData(Some([run]), parseDate)
         == Normal(match Survivor(run, parseDate) case Some(p) => [p] case None => [])
  {
    var x := match Survivor(run, parseDate) case Some(p) => [p] case None => [];
    assert !HasNullishRow([run]);
    ProcessIsSortedSurvivors([run], parseDate);
    assert [run][1..] == [];
    assert Survivors([run], parseDate) == x + [];
    assert x + [] == x;
    SortShort(x);
  }

  /** Sequences of at most one point are already in order. */
  lemma SortShort(ps: seq<PacePoint>)
    requires |ps| <= 1
    ensures SortByTimestamp(ps) == ps
  {
    if |ps| == 1 {
      assert ps[1..] == [];
    }
  }

  /** A row with a valid date and the pace `"06:10"` becomes the point
      `(t, 370)`. */
  lemma ExampleOneRow(day: JsValue, t: int, parseDate: JsValue -> Option<int>)
    requires parseDate(day) == Some(t)
    ensures ProcessRawData(Some([Obj(map[DateColumn := day, BestPaceColumn := Str("06:10")])]), parseDate)
         == Normal([PacePoint(t, 370)])
  {
    var run := Obj(map[DateColumn := day, BestPaceColumn := Str("06:10")]);
    assert DateColumn != BestPaceColumn;
    assert Field(run, DateColumn) == day;
    assert Field(run, BestPaceColumn) == Str("06:10");
    Example370();
    assert Survivor(run, parseDate) == Some(PacePoint(t, 370));
    OneRow(run, parseDate);
  }

  /** A `null` row anywhere makes the whole call throw a TypeError. */
  lemma ExampleNullRow(runs: seq<JsValue>, parseDate: JsValue -> Option<int>)
    ensures ProcessRawData(Some(runs + [Null]), parseDate).Throw?
  {
    assert (runs + [Null])[|runs|].IsNullish();
  }
}
