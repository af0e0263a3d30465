/**
 * Prometheus series laid on a fixed grid of timestamps. Instants are microseconds, the
 * resolution of the datetimes they stand for; a step is a positive number of them.
 */
module Timeseries {
  import opened Domain

  type Instant = int

  const SECOND := 1_000_000
  const MINUTE := 60 * SECOND
  const HOUR := 60 * MINUTE
  const DAY := 24 * HOUR
  const MAX_DAYS := 8

  datatype Reading = NotANumber | PlusInf | MinusInf | Number(x: real)

  datatype Sample = Sample(at: Instant, value: Reading)

  /** One series of a query result, with the labels it carries. */
  datatype Series = Series(metric: map<string, string>, values: seq<Sample>)

  /** A point without a reading is missing. */
  datatype Point = Point(at: Instant, value: Option<Reading>)

  datatype DeviceKey = DeviceKey(uuid: string, host: string, gpu: string)

  const PROJECT := "project_id"
  const GPU_UUID := "gpu_uuid"
  const HOSTNAME := "hostname"
  const GPU_ID := "gpu_id"

  function Label(s: Series, key: string): Option<string> {
    if key in s.metric then Some(s.metric[key]) else None
  }

  function WholeSecond(t: Instant): Instant {
    t - t % SECOND
  }

  // ----- the step and the grid

  /** The step a range gets when the caller gives none; none for a range that is too long. */
  function StepFor(start: Instant, end: Instant): Option<Instant> {
    if end - start <= HOUR then Some(MINUTE)
    else if end - start <= 24 * HOUR then Some(5 * MINUTE)
    else if end - start <= MAX_DAYS * DAY then Some(HOUR)
    else None
  }

  function Count(start: Instant, end: Instant, step: Instant): nat
    requires step > 0
  {
    var n := (end - WholeSecond(start)) / step + 1;
    if n > 0 then n else 0
  }

  function Grid(start: Instant, end: Instant, step: Instant): seq<Instant>
    requires step > 0
  {
    seq(Count(start, end, step), i requires i >= 0 => WholeSecond(start) + i * step)
  }

  predicate Increasing(s: seq<Instant>) {
    forall i, j :: 0 <= i < j < |s| ==> s[i] < s[j]
  }

  lemma NotNegative(n: nat, step: int)
    requires step > 0
    ensures n * step >= 0
  {
  }

  lemma MulIncreasing(i: int, j: int, step: int)
    requires step > 0 && i < j
    ensures i * step + step <= j * step
  {
    NotNegative(j - i - 1, step);
    assert j * step == i * step + step + (j - i - 1) * step;
  }

  /** The grid starts at the whole second of `start`, rises by the step, and reaches as far as `end` allows. */
  lemma GridShape(start: Instant, end: Instant, step: Instant)
    requires step > 0
    ensures var g := Grid(start, end, step);
            && Increasing(g)
            && (forall i :: 0 <= i < |g| ==> g[i] == WholeSecond(start) + i * step <= end)
            && WholeSecond(start) + |g| * step > end
            && (start <= end ==> |g| >= 1)
  {
    var g, span := Grid(start, end, step), end - WholeSecond(start);
    forall i, j | 0 <= i < j < |g| ensures g[i] < g[j] {
      MulIncreasing(i, j, step);
    }
    forall i | 0 <= i < |g| ensures g[i] <= end {
      FitsBelow(span, step, i);
    }
    FitsAbove(span, step, |g|);
  }

  lemma QuotientBounds(span: int, step: int)
    requires step > 0
    ensures span / step * step <= span < span / step * step + step
  {
  }

  lemma FitsBelow(span: int, step: int, i: nat)
    requires step > 0 && i <= span / step
    ensures i * step <= span
  {
    QuotientBounds(span, step);
    if i < span / step { MulIncreasing(i, span / step, step); }
  }

  lemma FitsAbove(span: int, step: int, n: nat)
    requires step > 0 && n == if span / step + 1 > 0 then span / step + 1 else 0
    ensures n * step > span
  {
    QuotientBounds(span, step);
    if span / step + 1 < 0 { MulIncreasing(span / step + 1, 0, step); }
  }

  /** With the automatic step a range of up to eight days has at most 289 points, and 289 is reached. */
  lemma GridBound(start: Instant, end: Instant)
    requires StepFor(start, end).Some?
    ensures var n := |Grid(start, end, StepFor(start, end).value)|;
            && n <= 289
            && (end - start <= HOUR ==> n <= 61)
            && (end - start > 24 * HOUR ==> n <= 193)
    ensures StepFor(start, end).Some? <==> end - start <= MAX_DAYS * DAY
    ensures |Grid(0, 24 * HOUR, StepFor(0, 24 * HOUR).value)| == 289
    ensures |Grid(0, HOUR, StepFor(0, HOUR).value)| == 61
    ensures |Grid(0, 8 * DAY, StepFor(0, 8 * DAY).value)| == 193
  {
  }

  // ----- laying samples on the grid

  /** The last reading that falls on `t`, NaN excepted. */
  function LastOn(samples: seq<Sample>, t: Instant): Option<Reading> {
    if samples == [] then None
    else
      var last := samples[|samples| - 1];
      if WholeSecond(last.at) == t && last.value != NotANumber then Some(last.value)
      else LastOn(samples[..|samples| - 1], t)
  }

  /** What `LastOn` finds: some reading on `t` with none after it. */
  lemma {:induction false} LastOnIsLast(samples: seq<Sample>, t: Instant)
    ensures LastOn(samples, t).None? <==>
              forall i :: 0 <= i < |samples| ==> WholeSecond(samples[i].at) != t || samples[i].value == NotANumber
    ensures LastOn(samples, t).Some? ==>
              exists i :: 0 <= i < |samples|
                && samples[i].value == LastOn(samples, t).value && WholeSecond(samples[i].at) == t
                && samples[i].value != NotANumber
                && forall j :: i < j < |samples| ==> WholeSecond(samples[j].at) != t || samples[j].value == NotANumber
  {
    if samples != [] {
      var n := |samples| - 1;
      var init := samples[..n];
      LastOnIsLast(init, t);
      if WholeSecond(samples[n].at) == t && samples[n].value != NotANumber {
        assert samples[n].value == LastOn(samples, t).value;
      } else if LastOn(init, t).Some? {
        var i :| 0 <= i < n && init[i].value == LastOn(init, t).value && WholeSecond(init[i].at) == t
          && init[i].value != NotANumber
          && forall j :: i < j < n ==> WholeSecond(init[j].at) != t || init[j].value == NotANumber;
        assert samples[i] == init[i];
        forall j | i < j < |samples| ensures WholeSecond(samples[j].at) != t || samples[j].value == NotANumber {
          if j < n { assert samples[j] == init[j]; }
        }
      } else {
        forall i | 0 <= i < |samples| ensures WholeSecond(samples[i].at) != t || samples[i].value == NotANumber {
          if i < n { assert samples[i] == init[i]; }
        }
      }
    }
  }

  type Datapoints = map<Instant, Option<Reading>>

  function Overlaid(points: Datapoints, samples: seq<Sample>): Datapoints {
    map t | t in points :: if LastOn(samples, t).Some? then LastOn(samples, t) else points[t]
  }

  /** Later samples overwrite earlier ones; samples off the grid and NaN are skipped. */
  method Overlay(points: Datapoints, samples: seq<Sample>) returns (result: Datapoints)
    ensures result == Overlaid(points, samples)
  {
    result := points;
    for i := 0 to |samples|
      invariant result == Overlaid(points, samples[..i])
    {
      assert samples[..i + 1][..i] == samples[..i];
      var t := WholeSecond(samples[i].at);
      if t in result && samples[i].value != NotANumber {
        result := result[t := Some(samples[i].value)];
      }
    }
    assert samples[..|samples|] == samples;
  }

  function Missing(g: seq<Instant>): Datapoints {
    map t | t in g :: None
  }

  function Points(g: seq<Instant>, values: Datapoints): seq<Point>
    requires values.Keys == set t | t in g
  {
    seq(|g|, i requires 0 <= i < |g| => Point(g[i], values[g[i]]))
  }

  // ----- sorting

  ghost predicate SameInstants(a: seq<Instant>, b: seq<Instant>) {
    forall t :: t in a <==> t in b
  }

  /** Two increasing sequences of the same instants are equal. */
  lemma {:induction false} IncreasingUnique(a: seq<Instant>, b: seq<Instant>)
    requires Increasing(a) && Increasing(b) && SameInstants(a, b)
    ensures a == b
  {
    if a == [] || b == [] {
      BothEmpty(a, b);
    } else {
      var m, n := |a| - 1, |b| - 1;
      SameLast(a, b);
      WithoutLast(a);
      WithoutLast(b);
      assert SameInstants(a[..m], b[..n]);
      IncreasingUnique(a[..m], b[..n]);
    }
  }

  lemma BothEmpty(a: seq<Instant>, b: seq<Instant>)
    requires SameInstants(a, b) && (a == [] || b == [])
    ensures a == b
  {
    if a != [] {
      HasInstant(a);
    }
    if b != [] {
      HasInstant(b);
    }
  }

  lemma HasInstant(a: seq<Instant>)
    requires a != []
    ensures exists t :: t in a
  {
    var t := a[0];
    assert t in a;
  }

  lemma SameLast(a: seq<Instant>, b: seq<Instant>)
    requires Increasing(a) && Increasing(b) && SameInstants(a, b) && a != [] && b != []
    ensures a[|a| - 1] == b[|b| - 1]
  {
    var m, n := |a| - 1, |b| - 1;
    assert a[m] in b && b[n] in a;
    var i :| 0 <= i < |b| && b[i] == a[m];
    var j :| 0 <= j < |a| && a[j] == b[n];
  }

  lemma WithoutLast(a: seq<Instant>)
    requires Increasing(a) && a != []
    ensures var m := |a| - 1;
            a == a[..m] + [a[m]] && Increasing(a[..m]) && forall t :: t in a[..m] <==> t in a && t != a[m]
  {
    var m := |a| - 1;
    forall t ensures t in a[..m] <==> t in a && t != a[m] {
      assert a == a[..m] + [a[m]];
    }
  }

  method Smallest(keys: set<Instant>) returns (least: Instant)
    requires keys != {}
    ensures least in keys && forall t :: t in keys ==> least <= t
  {
    least := Any(keys);
    var rest := keys - {least};
    while rest != {}
      invariant rest <= keys && least in keys && least !in rest
      invariant forall t :: t in keys ==> t in rest || least <= t
      decreases rest
    {
      var t := Any(rest);
      if t < least {
        least := t;
      }
      rest := rest - {t};
    }
  }

  method SortedKeys(points: Datapoints) returns (keys: seq<Instant>)
    ensures Increasing(keys) && forall t :: t in keys <==> t in points
  {
    keys := [];
    var rest := points.Keys;
    while rest != {}
      invariant Increasing(keys) && forall t :: t in points <==> t in keys || t in rest
      invariant forall t, i :: t in rest && 0 <= i < |keys| ==> keys[i] < t
      decreases rest
    {
      var least := Smallest(rest);
      keys := keys + [least];
      rest := rest - {least};
    }
  }

  /** The datapoints of a grid, listed in order of time. */
  method Listed(g: seq<Instant>, points: Datapoints) returns (values: seq<Point>)
    requires Increasing(g) && points.Keys == set t | t in g
    ensures values == Points(g, points)
  {
    var keys := SortedKeys(points);
    IncreasingUnique(keys, g);
    values := seq(|keys|, i requires 0 <= i < |keys| => Point(keys[i], points[keys[i]]));
  }

  // ----- series per project

  /** The first series without a project label. */
  function Unlabelled(results: seq<Series>): Option<Series> {
    if results == [] then None
    else if Label(results[0], PROJECT).None? then Some(results[0])
    else Unlabelled(results[1..])
  }

  /** 0 where the unlabelled series has a reading, missing elsewhere. */
  function Default(results: seq<Series>, t: Instant): Option<Reading> {
    if Unlabelled(results).Some? && LastOn(Unlabelled(results).value.values, t).Some? then Some(Number(0.0)) else None
  }

  function Aligned(results: seq<Series>, samples: seq<Sample>, g: seq<Instant>): seq<Point> {
    seq(|g|, i requires 0 <= i < |g| =>
      Point(g[i], if LastOn(samples, g[i]).Some? then LastOn(samples, g[i]) else Default(results, g[i])))
  }

  predicate Mapped(s: Series, projects: set<string>) {
    Label(s, PROJECT).Some? && Label(s, PROJECT).value in projects
  }

  datatype ProjectSeries = ProjectSeries(project: string, values: seq<Point>)

  /** The series of known projects, in order. */
  function ByProject(all: seq<Series>, results: seq<Series>, projects: set<string>,
                     g: seq<Instant>): seq<ProjectSeries> {
    if results == [] then []
    else
      var init, last := results[..|results| - 1], results[|results| - 1];
      ByProject(all, init, projects, g)
      + if Mapped(last, projects) then [ProjectSeries(Label(last, PROJECT).value, Aligned(all, last.values, g))] else []
  }

  method FirstUnlabelled(results: seq<Series>) returns (found: Option<Series>)
    ensures found == Unlabelled(results)
  {
    var i := 0;
    while i < |results|
      invariant i <= |results| && Unlabelled(results) == Unlabelled(results[i..])
    {
      if Label(results[i], PROJECT).None? {
        return Some(results[i]);
      }
      assert results[i..][1..] == results[i + 1..];
      i := i + 1;
    }
    return None;
  }

  /** Where the unlabelled series has a reading the default becomes 0. */
  method Defaults(results: seq<Series>, g: seq<Instant>) returns (points: Datapoints)
    ensures points == map t | t in g :: Default(results, t)
  {
    points := Missing(g);
    var unlabelled := FirstUnlabelled(results);
    if unlabelled.Some? {
      var samples := unlabelled.value.values;
      for i := 0 to |samples|
        invariant points == map t | t in g :: if LastOn(samples[..i], t).Some? then Some(Number(0.0)) else None
      {
        assert samples[..i + 1][..i] == samples[..i];
        var t := WholeSecond(samples[i].at);
        if t in points && samples[i].value != NotANumber {
          points := points[t := Some(Number(0.0))];
        }
      }
      assert samples[..|samples|] == samples;
    }
  }

  /**
   * One series per known project: exactly the grid's timestamps in increasing order,
   * each with its last reading, else 0 where the unlabelled series has one, else missing.
   */
  method MapTimeseriesSplitByProject(results: seq<Series>, projects: set<string>, start: Instant, end: Instant,
                                     step: Instant)
    returns (data: seq<ProjectSeries>, timestamps: seq<Instant>)
    requires step > 0
    ensures timestamps == Grid(start, end, step) && Increasing(timestamps)
    ensures data == ByProject(results, results, projects, timestamps)
  {
    var g := Grid(start, end, step);
    GridShape(start, end, step);
    var defaults := Defaults(results, g);
    data := [];
    for i := 0 to |results|
      invariant data == ByProject(results, results[..i], projects, g)
    {
      assert results[..i + 1][..i] == results[..i];
      var project := Label(results[i], PROJECT);
      if project.Some? && project.value in projects {
        var points := Overlay(defaults, results[i].values);
        var values := Listed(g, points);
        assert values == Aligned(results, results[i].values, g);
        data := data + [ProjectSeries(project.value, values)];
      }
    }
    assert results[..|results|] == results;
    timestamps := SortedKeys(defaults);
    IncreasingUnique(timestamps, g);
  }

  /** Every mapped series lists the whole grid, and belongs to a known project that some series names. */
  lemma {:induction false} ByProjectShape(all: seq<Series>, results: seq<Series>, projects: set<string>,
                                          g: seq<Instant>)
    ensures forall d :: d in ByProject(all, results, projects, g) ==>
              && d.project in projects && |d.values| == |g|
              && (forall i :: 0 <= i < |g| ==> d.values[i].at == g[i])
              && exists s :: s in results
                   && Label(s, PROJECT) == Some(d.project) && d.values == Aligned(all, s.values, g)
    ensures forall s :: s in results && Mapped(s, projects) ==>
              ProjectSeries(Label(s, PROJECT).value, Aligned(all, s.values, g)) in ByProject(all, results, projects, g)
  {
    if results != [] {
      var init, last := results[..|results| - 1], results[|results| - 1];
      ByProjectShape(all, init, projects, g);
      assert results == init + [last];
    }
  }

  /** Some reading of the series, not NaN, falls on the second `t`. */
  ghost predicate Covers(s: Series, t: Instant) {
    exists i :: 0 <= i < |s.values|
      && s.values[i].at - s.values[i].at % 1_000_000 == t && s.values[i].value != NotANumber
  }

  lemma CoversExactly(s: Series, t: Instant)
    ensures LastOn(s.values, t).Some? <==> Covers(s, t)
  {
    LastOnIsLast(s.values, t);
  }

  /** The first series of a result without a project label. */
  ghost predicate FirstWithout(results: seq<Series>, k: nat) {
    && k < |results| && "project_id" !in results[k].metric
    && forall j :: 0 <= j < k ==> "project_id" in results[j].metric
  }

  lemma {:induction false} UnlabelledFirst(results: seq<Series>, k: nat)
    requires FirstWithout(results, k)
    ensures Unlabelled(results) == Some(results[k])
  {
    if k > 0 {
      assert forall j :: 0 <= j < k - 1 ==> results[1..][j] == results[j + 1];
      UnlabelledFirst(results[1..], k - 1);
    }
  }

  lemma {:induction false} NoneUnlabelled(results: seq<Series>)
    requires forall s :: s in results ==> "project_id" in s.metric
    ensures Unlabelled(results) == None
  {
    if results != [] {
      assert results[0] in results;
      NoneUnlabelled(results[1..]);
    }
  }

  /**
   * The value of a project's series: its own last reading; where it has none, 0 where the
   * first unlabelled series has one, and missing elsewhere, or when every series has a
   * label.
   */
  lemma GapsFilled(results: seq<Series>, s: Series, g: seq<Instant>, i: nat, k: nat)
    requires i < |g|
    ensures var p := Aligned(results, s.values, g)[i];
            && p.at == g[i]
            && if Covers(s, g[i]) then p.value == LastOn(s.values, g[i]) != None
               else
                 && (FirstWithout(results, k) ==>
                       p.value == if Covers(results[k], g[i]) then Some(Number(0.0)) else None)
                 && ((forall r :: r in results ==> "project_id" in r.metric) ==> p.value == None)
  {
    CoversExactly(s, g[i]);
    if FirstWithout(results, k) {
      UnlabelledFirst(results, k);
      CoversExactly(results[k], g[i]);
    }
    if forall r :: r in results ==> "project_id" in r.metric {
      NoneUnlabelled(results);
    }
  }

  /** Of several series laid on one grid the last that has a reading on a point gives its value. */
  lemma {:induction false} LastSeriesWins(results: seq<Series>, t: Instant, k: nat)
    requires k < |results| && Covers(results[k], t) && forall j :: k < j < |results| ==> !Covers(results[j], t)
    ensures LastOn(AllSamples(results), t) == LastOn(results[k].values, t)
  {
    var n := |results| - 1;
    var init, last := results[..n], results[n];
    LastOnAppend(AllSamples(init), last.values, t);
    CoversExactly(last, t);
    if k < n {
      assert init[k] == results[k];
      LastSeriesWins(init, t, k);
    }
  }

  // ----- one merged series, and series per device

  function AllSamples(results: seq<Series>): seq<Sample> {
    if results == [] then [] else AllSamples(results[..|results| - 1]) + results[|results| - 1].values
  }

  lemma {:induction false} LastOnAppend(a: seq<Sample>, b: seq<Sample>, t: Instant)
    ensures LastOn(a + b, t) == if LastOn(b, t).Some? then LastOn(b, t) else LastOn(a, t)
  {
    if b == [] {
      assert a + b == a;
    } else {
      var init := b[..|b| - 1];
      assert (a + b)[..|a + b| - 1] == a + init;
      LastOnAppend(a, init, t);
    }
  }

  lemma OverlaidTwice(points: Datapoints, a: seq<Sample>, b: seq<Sample>)
    ensures Overlaid(Overlaid(points, a), b) == Overlaid(points, a + b)
  {
    forall t | t in points ensures Overlaid(Overlaid(points, a), b)[t] == Overlaid(points, a + b)[t] {
      LastOnAppend(a, b, t);
    }
  }

  /** All series overwrite one set of datapoints, so the last series with a reading wins. */
  method MapMetricsTimeseries(results: seq<Series>, start: Instant, end: Instant, step: Instant)
    returns (values: seq<Point>, timestamps: seq<Instant>)
    requires step > 0
    ensures timestamps == Grid(start, end, step) && Increasing(timestamps)
    ensures values == seq(|timestamps|, i requires 0 <= i < |timestamps| =>
                        Point(timestamps[i], LastOn(AllSamples(results), timestamps[i])))
  {
    var g := Grid(start, end, step);
    GridShape(start, end, step);
    var points := Missing(g);
    assert points == Overlaid(Missing(g), AllSamples(results[..0]));
    for i := 0 to |results|
      invariant points == Overlaid(Missing(g), AllSamples(results[..i]))
    {
      assert results[..i + 1][..i] == results[..i];
      OverlaidTwice(Missing(g), AllSamples(results[..i]), results[i].values);
      points := Overlay(points, results[i].values);
    }
    assert results[..|results|] == results;
    values := Listed(g, points);
    timestamps := SortedKeys(points);
    IncreasingUnique(timestamps, g);
  }

  /** The device a series belongs to; none when it has no UUID or no host. */
  function Device(s: Series): Option<DeviceKey> {
    if Label(s, GPU_UUID).Some? && Label(s, HOSTNAME).Some? then
      var gpu := if Label(s, GPU_ID).Some? then Label(s, GPU_ID).value else "";
      Some(DeviceKey(Label(s, GPU_UUID).value, Label(s, HOSTNAME).value, gpu))
    else None
  }

  /** The last series of a device. */
  function LastOf(results: seq<Series>, key: DeviceKey): Option<Series> {
    if results == [] then None
    else if Device(results[|results| - 1]) == Some(key) then Some(results[|results| - 1])
    else LastOf(results[..|results| - 1], key)
  }

  /** The device of a series, by its labels, and the series that decides on it: the last one. */
  lemma {:induction false} LastOfDevice(results: seq<Series>, k: nat, key: DeviceKey)
    requires k < |results| && OfDevice(results[k], key) && forall j :: k < j < |results| ==> !OfDevice(results[j], key)
    ensures LastOf(results, key) == Some(results[k])
  {
    var n := |results| - 1;
    DeviceExactly(results[n], key);
    if k < n {
      assert results[..n][k] == results[k];
      LastOfDevice(results[..n], k, key);
    }
  }

  /** The series carries this UUID and host; a missing GPU id reads as empty. */
  predicate OfDevice(s: Series, key: DeviceKey) {
    && "gpu_uuid" in s.metric && s.metric["gpu_uuid"] == key.uuid
    && "hostname" in s.metric && s.metric["hostname"] == key.host
    && (if "gpu_id" in s.metric then s.metric["gpu_id"] == key.gpu else key.gpu == "")
  }

  lemma DeviceExactly(s: Series, key: DeviceKey)
    ensures Device(s) == Some(key) <==> OfDevice(s, key)
  {
  }

  method ParseDeviceRangeTimeseries(results: seq<Series>, start: Instant, end: Instant, step: Instant)
    returns (devices: map<DeviceKey, seq<Point>>)
    requires step > 0
    ensures forall key :: key in devices <==> LastOf(results, key).Some?
    ensures forall key :: key in devices ==>
              devices[key] == Aligned([], LastOf(results, key).value.values, Grid(start, end, step))
  {
    var g := Grid(start, end, step);
    GridShape(start, end, step);
    devices := map[];
    for i := 0 to |results|
      invariant forall key :: key in devices <==> LastOf(results[..i], key).Some?
      invariant forall key :: key in devices ==> devices[key] == Aligned([], LastOf(results[..i], key).value.values, g)
    {
      assert results[..i + 1][..i] == results[..i];
      var key := Device(results[i]);
      if key.Some? {
        var points := Overlay(Missing(g), results[i].values);
        var values := Listed(g, points);
        assert values == Aligned([], results[i].values, g);
        devices := devices[key.value := values];
      }
    }
    assert results[..|results|] == results;
  }
}
