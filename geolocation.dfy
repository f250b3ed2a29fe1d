/** Multi-reading location fusion (`getEnhancedGeolocation`): a fixed number
    of positioning attempts is made one after the other; readings within the
    accuracy limit are kept, the most accurate one is tracked, progress is
    reported after every attempt, and at the end the kept readings are fused
    into one inverse-accuracy weighted position, or an error is reported.

    The browser's positioning callback and the `setTimeout` recursion are
    replaced by a sequence holding the outcome of each attempt. */
module Geolocation {
  import opened Types

  /** One reading of the positioning source (its timestamp is not modelled). */
  datatype Reading = Reading(lat: real, lng: real, accuracy: real, altitude: Option<real>)

  /** What one positioning attempt produced: a reading, or a source error code
      (1 permission denied, 2 position unavailable, 3 timeout). */
  datatype Outcome = Ok(reading: Reading) | Err(code: int)

  /** The caller's options; None is an omitted option. */
  datatype Options = Options(numReadings: Option<int>, timeout: Option<int>, interval: Option<int>,
                             minAccuracy: Option<real>, progressCallback: bool)

  /** The settings a run works with, once the defaults are filled in. */
  datatype Settings = Settings(numReadings: int, timeout: int, interval: int,
                               minAccuracy: real, reportsProgress: bool)

  /** One progress report. */
  datatype Progress = Progress(completed: int, total: int, percent: real, latestReading: Option<Reading>)

  /** The fused position handed to the success callback. */
  datatype Fix = Fix(latitude: real, longitude: real, accuracy: real, altitude: Option<real>,
                     readings: seq<Reading>)

  /** What is handed to the error callback: the source's own error, or the
      run's own `{code: 0, message: "No valid readings obtained"}`. */
  datatype GeoError = SourceError(code: int) | NoValidReadings

  datatype RunResult = Success(fix: Fix) | Failure(error: GeoError)

  /** The error code the error callback sees. */
  function ErrorCode(e: GeoError): int
  {
    match e
    case SourceError(c) => c
    case NoValidReadings => 0
  }

  // ----- settings -----

  const DefaultNumReadings: int := 5
  const DefaultTimeout: int := 10000
  const DefaultInterval: int := 2000
  const DefaultMinAccuracy: real := 0.0

  /** `option || default` on a number: an omitted option and 0 both give the default. */
  function OrInt(o: Option<int>, default: int): int
  {
    if o == None || o == Some(0) then default else o.value
  }

  function OrReal(o: Option<real>, default: real): real
  {
    if o == None || o == Some(0.0) then default else o.value
  }

  function Configure(o: Options): Settings
  {
    Settings(OrInt(o.numReadings, DefaultNumReadings), OrInt(o.timeout, DefaultTimeout),
             OrInt(o.interval, DefaultInterval), OrReal(o.minAccuracy, DefaultMinAccuracy),
             o.progressCallback)
  }

  /** Omitted and zero options fall back to 5 readings, a 10000 ms timeout, a
      2000 ms interval and no accuracy limit; any other value is kept. The
      number of readings is therefore never 0. */
  lemma ConfigureDefaults(o: Options)
    ensures var s := Configure(o);
      && s.numReadings != 0
      && (o.numReadings in {None, Some(0)} ==> s.numReadings == 5)
      && (o.timeout in {None, Some(0)} ==> s.timeout == 10000)
      && (o.interval in {None, Some(0)} ==> s.interval == 2000)
      && (o.minAccuracy in {None, Some(0.0)} ==> s.minAccuracy == 0.0)
      && (o.numReadings !in {None, Some(0)} ==> s.numReadings == o.numReadings.value)
      && (o.timeout !in {None, Some(0)} ==> s.timeout == o.timeout.value)
      && (o.interval !in {None, Some(0)} ==> s.interval == o.interval.value)
      && (o.minAccuracy !in {None, Some(0.0)} ==> s.minAccuracy == o.minAccuracy.value)
  {
  }

  /** How many attempts run: the first attempt is always made, and another
      follows while fewer than `numReadings` have completed. So it is the
      least k >= 1 with k >= numReadings. */
  function AttemptCount(numReadings: int): (k: int)
    ensures k >= 1 && k >= numReadings
    ensures k > 1 ==> k - 1 < numReadings
  {
    if numReadings >= 1 then numReadings else 1
  }

  // ----- accepting readings -----

  /** The accuracy filter: no limit when minAccuracy is 0. */
  predicate Accepts(minAccuracy: real, r: Reading)
  {
    minAccuracy == 0.0 || r.accuracy <= minAccuracy
  }

  /** The readings kept from a sequence of outcomes, in attempt order. */
  function Accepted(minAccuracy: real, outs: seq<Outcome>): (r: seq<Reading>)
    ensures |r| <= |outs|
  {
    if outs == [] then []
    else
      var last := outs[|outs| - 1];
      Accepted(minAccuracy, outs[..|outs| - 1])
        + (if last.Ok? && Accepts(minAccuracy, last.reading) then [last.reading] else [])
  }

  /** updateBestReading: a reading replaces the best one only when there is
      none yet or it is strictly more accurate. */
  function UpdateBest(best: Option<Reading>, r: Reading): (b: Option<Reading>)
    ensures b == best || b == Some(r)
    ensures b.Some? && b.value.accuracy <= r.accuracy
    ensures best.Some? ==> b.value.accuracy <= best.value.accuracy
  {
    if best.None? || r.accuracy < best.value.accuracy then Some(r) else best
  }

  /** The best reading after the given readings were accepted in order. */
  function BestOf(rs: seq<Reading>): (b: Option<Reading>)
    ensures b.None? <==> rs == []
    ensures b.Some? ==> b.value in rs
  {
    if rs == [] then None else UpdateBest(BestOf(rs[..|rs| - 1]), rs[|rs| - 1])
  }

  /** Reading k has the smallest accuracy value, and every earlier reading a larger one. */
  predicate IsFirstMinimum(rs: seq<Reading>, k: int)
  {
    && 0 <= k < |rs|
    && (forall j :: 0 <= j < |rs| ==> rs[k].accuracy <= rs[j].accuracy)
    && (forall j :: 0 <= j < k ==> rs[j].accuracy > rs[k].accuracy)
  }

  // ----- progress -----

  /** The reading reported with an attempt: the raw reading of a success
      (whether or not it was accepted), none for an error. */
  function Latest(o: Outcome): Option<Reading>
  {
    if o.Ok? then Some(o.reading) else None
  }

  /** reportProgress(current, total, latestReading). */
  function Report(current: int, total: int, latest: Option<Reading>): Progress
    requires total != 0
  {
    Progress(current, total, (current as real / total as real) * 100.0, latest)
  }

  /** The reports of a run whose attempts had the given outcomes. */
  function Reports(total: int, outs: seq<Outcome>): (ps: seq<Progress>)
    requires total != 0
    ensures |ps| == |outs|
  {
    if outs == [] then []
    else Reports(total, outs[..|outs| - 1]) + [Report(|outs|, total, Latest(outs[|outs| - 1]))]
  }

  // ----- fusion -----

  datatype Axis = Lat | Lng

  function Coord(r: Reading, a: Axis): real
  {
    match a
    case Lat => r.lat
    case Lng => r.lng
  }

  function Max(x: real, y: real): real
  {
    if x >= y then x else y
  }

  /** The weight of a reading: the inverse of its accuracy, floored at 0.1 m. */
  function Weight(r: Reading): (w: real)
    ensures 0.0 < w <= 10.0
  {
    1.0 / Max(r.accuracy, 0.1)
  }

  /** Σ w over the readings, accumulated from the first. */
  function WeightSum(rs: seq<Reading>): real
  {
    if rs == [] then 0.0 else WeightSum(rs[..|rs| - 1]) + Weight(rs[|rs| - 1])
  }

  /** One reading's share of the weighted sum: w · coordinate. */
  function Term(r: Reading, a: Axis): real
  {
    Coord(r, a) * Weight(r)
  }

  /** Σ w · coordinate over the readings, accumulated from the first. */
  function WeightedSum(rs: seq<Reading>, a: Axis): real
  {
    if rs == [] then 0.0 else WeightedSum(rs[..|rs| - 1], a) + Term(rs[|rs| - 1], a)
  }

  /** Σ coordinate, the `reduce` behind the plain average. */
  function Sum(rs: seq<Reading>, a: Axis): real
  {
    if rs == [] then 0.0 else Sum(rs[..|rs| - 1], a) + Coord(rs[|rs| - 1], a)
  }

  /** `Math.min(...readings.map(r => r.accuracy))`. */
  function MinAccuracy(rs: seq<Reading>): (m: real)
    requires rs != []
    ensures forall j :: 0 <= j < |rs| ==> m <= rs[j].accuracy
    ensures exists j :: 0 <= j < |rs| && m == rs[j].accuracy
  {
    if |rs| == 1 then rs[0].accuracy
    else
      var pre := rs[..|rs| - 1];
      var m := MinAccuracy(pre);
      assert forall j :: 0 <= j < |pre| ==> pre[j] == rs[j];
      if rs[|rs| - 1].accuracy < m then rs[|rs| - 1].accuracy else m
  }

  /** The fused coordinate on one axis: the weighted mean, with the plain mean
      as the fallback when the weights do not sum to a positive number. */
  function Fused(rs: seq<Reading>, a: Axis): real
    requires rs != []
  {
    var w := WeightSum(rs);
    if w > 0.0 then WeightedSum(rs, a) / w else Sum(rs, a) / (|rs| as real)
  }

  /** finalizeReadings: the error when nothing was accepted, otherwise the
      fused position with the best reading's accuracy and altitude. */
  function Finalize(readings: seq<Reading>, best: Option<Reading>): (r: RunResult)
    ensures r.Success? <==> readings != []
    ensures r.Failure? ==> r.error == NoValidReadings
    ensures r.Success? ==> r.fix.readings == readings
  {
    if |readings| == 0 then Failure(NoValidReadings)
    else
      Success(Fix(Fused(readings, Lat), Fused(readings, Lng),
                  if best.Some? then best.value.accuracy else MinAccuracy(readings),
                  if best.Some? then best.value.altitude else None,
                  readings))
  }

  /** finalizeReadings, with its `forEach` accumulation of the weighted sums. */
  method FinalizeReadings(readings: seq<Reading>, best: Option<Reading>) returns (r: RunResult)
    ensures r == Finalize(readings, best)
  {
    if |readings| == 0 {
      return Failure(NoValidReadings);
    }
    var avgLat := Sum(readings, Lat) / (|readings| as real);
    var avgLng := Sum(readings, Lng) / (|readings| as real);
    var weightedLat, weightedLng, totalWeight := 0.0, 0.0, 0.0;
    for i := 0 to |readings|
      invariant weightedLat == WeightedSum(readings[..i], Lat)
      invariant weightedLng == WeightedSum(readings[..i], Lng)
      invariant totalWeight == WeightSum(readings[..i])
    {
      var weight := 1.0 / Max(readings[i].accuracy, 0.1);
      assert readings[..i + 1][..i] == readings[..i];
      weightedLat := weightedLat + readings[i].lat * weight;
      weightedLng := weightedLng + readings[i].lng * weight;
      totalWeight := totalWeight + weight;
    }
    assert readings[..|readings|] == readings;
    var fix := Fix(if totalWeight > 0.0 then weightedLat / totalWeight else avgLat,
                   if totalWeight > 0.0 then weightedLng / totalWeight else avgLng,
                   if best.Some? then best.value.accuracy else MinAccuracy(readings),
                   if best.Some? then best.value.altitude else None,
                   readings);
    r := Success(fix);
  }

  /** What attempt k + 1 adds to the kept readings and to the reports. */
  lemma AttemptStep(minAccuracy: real, total: int, done: seq<Outcome>, o: Outcome)
    requires total != 0
    ensures Accepted(minAccuracy, done + [o]) == Accepted(minAccuracy, done)
      + (if o.Ok? && Accepts(minAccuracy, o.reading) then [o.reading] else [])
    ensures Reports(total, done + [o]) == Reports(total, done) + [Report(|done| + 1, total, Latest(o))]
  {
    assert (done + [o])[..|done|] == done;
  }

  /** What the last attempt of a run hands to a callback, given the readings
      kept and that attempt's outcome: the fused result whenever a reading was
      kept (whatever the last attempt did); otherwise the last attempt's own
      error, or the no-valid-readings error when it returned a reading. */
  predicate IsTerminalOutcome(kept: seq<Reading>, last: Outcome, result: RunResult)
  {
    && (kept != [] ==> result == Finalize(kept, BestOf(kept)))
    && (kept == [] && last.Err? ==> result == Failure(SourceError(last.code)))
    && (kept == [] && last.Ok? ==> result == Failure(NoValidReadings))
  }

  /** The state one run of getEnhancedGeolocation keeps between attempts:
      the kept readings, the count of completed attempts, the best reading
      and (in the model) the progress reports emitted so far. */
  class Run {
    const settings: Settings
    var readings: seq<Reading>
    var completed: int
    var best: Option<Reading>
    var reports: seq<Progress>
    /** The outcomes of the attempts made so far, in order. */
    ghost var outcomes: seq<Outcome>

    /** Every field is what the attempts with `outcomes` leave behind. */
    ghost predicate Valid()
      reads this
    {
      && settings.numReadings != 0
      && completed == |outcomes|
      && readings == Accepted(settings.minAccuracy, outcomes)
      && best == BestOf(readings)
      && reports == if settings.reportsProgress then Reports(settings.numReadings, outcomes) else []
    }

    constructor (s: Settings)
      requires s.numReadings != 0
      ensures settings == s && outcomes == [] && Valid()
    {
      settings := s;
      readings, completed, best, reports := [], 0, None, [];
      outcomes := [];
    }

    /** updateBestReading. */
    method UpdateBestReading(r: Reading)
      modifies this
      ensures best == UpdateBest(old(best), r)
      ensures readings == old(readings) && completed == old(completed) && reports == old(reports)
      ensures outcomes == old(outcomes)
    {
      if best.None? || r.accuracy < best.value.accuracy {
        best := Some(r);
      }
    }

    /** reportProgress: only delivered when a progress callback was given. */
    method ReportProgress(current: int, total: int, latest: Option<Reading>)
      requires total != 0
      modifies this
      ensures reports == old(reports) + if settings.reportsProgress then [Report(current, total, latest)] else []
      ensures readings == old(readings) && completed == old(completed) && best == old(best)
      ensures outcomes == old(outcomes)
    {
      if settings.reportsProgress {
        reports := reports + [Report(current, total, latest)];
      }
    }

    /** The accuracy check of a successful attempt: a reading that passes
        the filter is appended to the kept readings and may become the best one. */
    method KeepIfAccurate(reading: Reading)
      requires best == BestOf(readings)
      modifies this
      ensures readings == old(readings) + if Accepts(settings.minAccuracy, reading) then [reading] else []
      ensures best == BestOf(readings)
      ensures completed == old(completed) && reports == old(reports) && outcomes == old(outcomes)
    {
      if settings.minAccuracy == 0.0 || reading.accuracy <= settings.minAccuracy {
        ghost var before := readings;
        readings := readings + [reading];
        assert readings[..|readings| - 1] == before;
        if best.None? || reading.accuracy < best.value.accuracy {
          UpdateBestReading(reading);
        }
      }
    }

    /** One call of takeReading with the attempt's outcome `o`. Returns what
        went to a callback when this was the last attempt, None when another
        attempt is scheduled. */
    method TakeReading(o: Outcome) returns (finished: Option<RunResult>)
      requires Valid()
      modifies this
      ensures Valid() && outcomes == old(outcomes) + [o] && completed == old(completed) + 1
      ensures finished.None? <==> completed < settings.numReadings
      ensures finished.Some? ==> IsTerminalOutcome(readings, o, finished.value)
    {
      AttemptStep(settings.minAccuracy, settings.numReadings, outcomes, o);
      outcomes := outcomes + [o];
      match o {
        case Ok(reading) =>
          KeepIfAccurate(reading);
          completed := completed + 1;
          ReportProgress(completed, settings.numReadings, Some(reading));
          if completed < settings.numReadings {
            // the next attempt follows after settings.interval ms
            finished := None;
          } else {
            var r := FinalizeReadings(readings, best);
            finished := Some(r);
          }
        case Err(code) =>
          completed := completed + 1;
          ReportProgress(completed, settings.numReadings, None);
          if completed < settings.numReadings {
            // the next attempt follows after settings.interval ms
            finished := None;
          } else if |readings| > 0 {
            var r := FinalizeReadings(readings, best);
            finished := Some(r);
          } else {
            finished := Some(Failure(SourceError(code)));
          }
      }
    }

    /** The attempt after the first `completed` ones, whose outcome is `source[completed]`. */
    method NextAttempt(source: seq<Outcome>) returns (finished: Option<RunResult>)
      requires 0 <= completed < AttemptCount(settings.numReadings) <= |source|
      requires Valid() && outcomes == source[..completed]
      modifies this
      ensures completed == old(completed) + 1 && Valid() && outcomes == source[..completed]
      ensures finished.None? <==> completed < AttemptCount(settings.numReadings)
      ensures finished.Some? ==> IsTerminalOutcome(readings, source[completed - 1], finished.value)
    {
      var o := source[completed];
      assert source[..completed] + [o] == source[..completed + 1];
      finished := TakeReading(o);
    }

    /** The attempts from the current one to the last: each one that is not
        the last schedules the next, as `setTimeout(takeReading, interval)`
        does, and the last hands over its result. */
    method AttemptsFrom(source: seq<Outcome>) returns (result: RunResult)
      requires 0 <= completed < AttemptCount(settings.numReadings) <= |source|
      requires Valid() && outcomes == source[..completed]
      modifies this
      decreases AttemptCount(settings.numReadings) - completed
      ensures completed == AttemptCount(settings.numReadings) && Valid() && outcomes == source[..completed]
      ensures IsTerminalOutcome(readings, source[completed - 1], result)
    {
      while true
        invariant 0 <= completed < AttemptCount(settings.numReadings)
        invariant Valid() && outcomes == source[..completed]
        decreases AttemptCount(settings.numReadings) - completed
      {
        var finished := NextAttempt(source);
        if finished.Some? {
          return finished.value;
        }
      }
    }
  }

  /** getEnhancedGeolocation. `source[i]` is the outcome of attempt i + 1.
      Returns the number of attempts made, the progress reports in the order
      they were emitted, and what was passed to the success or error callback. */
  method GetEnhancedGeolocation(options: Options, source: seq<Outcome>)
      returns (attempts: int, reports: seq<Progress>, outcome: RunResult)
    requires |source| >= AttemptCount(Configure(options).numReadings)
    ensures attempts == AttemptCount(Configure(options).numReadings)
    ensures reports == if Configure(options).reportsProgress
                       then Reports(Configure(options).numReadings, source[..attempts]) else []
    ensures IsTerminalOutcome(Accepted(Configure(options).minAccuracy, source[..attempts]),
                              source[attempts - 1], outcome)
  {
    var settings := Configure(options);
    var run := new Run(settings);
    assert source[..0] == [];
    outcome := run.AttemptsFrom(source);
    attempts, reports := run.completed, run.reports;
  }

  // ----- the hook state around a run -----

  /** What geoError shows: the unsupported-browser message, or the failure
      message chosen by the error code. */
  datatype LocationError = Unsupported | Failed(code: int)

  /** geoProgress. */
  datatype ProgressState = ProgressState(current: int, total: int, percent: real)

  /** The options getCurrentLocation passes: 5 readings, a 10 s timeout, a 2 s
      interval and a 50 m accuracy limit (its progress callback is added on top). */
  const DefaultGeoOptions: Options := Options(Some(5), Some(10000), Some(2000), Some(50.0), false)

  /** The state useGeolocation exposes. */
  class LocationHook {
    var isGeoLoading: bool
    var geoError: Option<LocationError>
    var geoProgress: ProgressState

    constructor ()
      ensures !isGeoLoading && geoError == None && geoProgress == ProgressState(0, 0, 0.0)
    {
      isGeoLoading, geoError, geoProgress := false, None, ProgressState(0, 0, 0.0);
    }

    /** getCurrentLocation. `supported` says whether the browser offers
        geolocation at all; `source` gives the outcomes of the attempts. The
        result is the position handed to the caller's callback, if any. */
    method GetCurrentLocation(supported: bool, source: seq<Outcome>) returns (position: Option<ReferencePoint>)
      requires supported ==> |source| >= 5
      modifies this
      ensures !supported ==> && position == None && geoError == Some(Unsupported)
                             && isGeoLoading == old(isGeoLoading) && geoProgress == old(geoProgress)
      ensures supported ==> !isGeoLoading && geoProgress == ProgressState(5, 5, 100.0)
      ensures supported ==> var acc := Accepted(50.0, source[..5]);
        && (position.Some? <==> acc != [])
        && (acc != [] ==> geoError == None && position == Some(ReferencePoint(Fused(acc, Lat), Fused(acc, Lng))))
        && (acc == [] ==> geoError == Some(Failed(if source[4].Err? then source[4].code else 0)))
    {
      if !supported {
        geoError := Some(Unsupported);
        return None;
      }
      isGeoLoading := true;
      geoError := None;
      geoProgress := ProgressState(0, 5, 0.0);
      var attempts, reports, outcome := GetEnhancedGeolocation(DefaultGeoOptions.(progressCallback := true), source);
      // the progress callback copies every report into geoProgress, so the last one stays
      ReportsInOrder(5, source[..5]);
      var last := reports[|reports| - 1];
      geoProgress := ProgressState(last.completed, last.total, last.percent);
      match outcome {
        case Success(fix) =>
          position := Some(ReferencePoint(fix.latitude, fix.longitude));
        case Failure(e) =>
          geoError := Some(Failed(ErrorCode(e)));
          position := None;
      }
      isGeoLoading := false;
    }
  }

  // ----- properties -----

  /** One report per attempt, in order: report i carries completed = i + 1,
      the percentage (i + 1) / total · 100 and the attempt's raw reading. */
  lemma {:induction false} ReportsInOrder(total: int, outs: seq<Outcome>)
    requires total != 0
    ensures |Reports(total, outs)| == |outs|
    ensures forall i :: 0 <= i < |outs| ==> Reports(total, outs)[i] == Report(i + 1, total, Latest(outs[i]))
  {
    if outs != [] {
      var pre := outs[..|outs| - 1];
      ReportsInOrder(total, pre);
      assert forall i :: 0 <= i < |pre| ==> pre[i] == outs[i];
    }
  }

  /** Division by a positive number keeps a strict order. */
  lemma DivideStrict(x: real, y: real, t: real)
    requires x < y && t > 0.0
    ensures x / t < y / t
  {
    var a, b := x / t, y / t;
    assert a * t == x && b * t == y;
    if a >= b {
      ScaleOrdered(b, a, t);
    }
  }

  /** With a positive total, the percentage rises strictly with the attempts
      completed, stays within 0..100 for 0..total attempts, and is 100 after
      the last one. */
  lemma ProgressPercent(c1: int, c2: int, total: int)
    requires total >= 1 && 0 <= c1 < c2 <= total
    ensures Report(c1, total, None).percent < Report(c2, total, None).percent
    ensures 0.0 <= Report(c1, total, None).percent && Report(c2, total, None).percent <= 100.0
    ensures Report(total, total, None).percent == 100.0
  {
    var t := total as real;
    DivideStrict(c1 as real, c2 as real, t);
    assert (c2 as real) / t <= 1.0;
    assert (c1 as real) / t >= 0.0;
  }

  /** A reading is kept exactly when some attempt produced it and it passes the filter. */
  lemma {:induction false} AcceptedMembership(minAccuracy: real, outs: seq<Outcome>, r: Reading)
    ensures r in Accepted(minAccuracy, outs) <==> Ok(r) in outs && Accepts(minAccuracy, r)
  {
    if outs != [] {
      var pre, last := outs[..|outs| - 1], outs[|outs| - 1];
      AcceptedMembership(minAccuracy, pre, r);
      assert outs == pre + [last];
      assert Ok(r) in outs <==> Ok(r) in pre || last == Ok(r);
    }
  }

  /** Kept readings stay in attempt order: the readings of two consecutive
      stretches of attempts are those of the first followed by those of the second. */
  lemma {:induction false} AcceptedAppend(minAccuracy: real, a: seq<Outcome>, b: seq<Outcome>)
    ensures Accepted(minAccuracy, a + b) == Accepted(minAccuracy, a) + Accepted(minAccuracy, b)
  {
    if b == [] {
      assert a + b == a;
    } else {
      assert (a + b)[..|a + b| - 1] == a + b[..|b| - 1];
      AcceptedAppend(minAccuracy, a, b[..|b| - 1]);
    }
  }

  /** With minAccuracy 10 a reading of accuracy 15 is dropped; with no limit it is kept. */
  lemma FilterExample(r: Reading)
    requires r.accuracy == 15.0
    ensures Accepted(10.0, [Ok(r)]) == []
    ensures Accepted(0.0, [Ok(r)]) == [r]
  {
    assert [Ok(r)][..0] == [];
  }

  /** The tracked best reading is the first reading of minimal accuracy, and
      there is one exactly when some reading was kept. */
  lemma {:induction false} BestIsFirstMinimum(rs: seq<Reading>) returns (k: int)
    ensures BestOf(rs) == None <==> rs == []
    ensures rs != [] ==> IsFirstMinimum(rs, k) && BestOf(rs) == Some(rs[k])
  {
    k := -1;
    if rs != [] {
      var n := |rs|;
      var pre := rs[..n - 1];
      var last := rs[n - 1];
      assert forall j :: 0 <= j < |pre| ==> pre[j] == rs[j];
      var k0 := BestIsFirstMinimum(pre);
      if pre == [] {
        k := 0;
      } else if last.accuracy < pre[k0].accuracy {
        k := n - 1;
      } else {
        k := k0;
      }
      assert IsFirstMinimum(rs, k);
    }
  }

  /** There is only one first minimum. */
  lemma FirstMinimumUnique(rs: seq<Reading>, k1: int, k2: int)
    requires IsFirstMinimum(rs, k1) && IsFirstMinimum(rs, k2)
    ensures k1 == k2
  {
    assert rs[k1].accuracy == rs[k2].accuracy;
  }

  /** Every weight is positive, so the weights of a non-empty set of readings
      sum to a positive number and the plain-average fallback is never taken. */
  lemma {:induction false} WeightSumPositive(rs: seq<Reading>)
    requires rs != []
    ensures WeightSum(rs) > 0.0
  {
    var pre := rs[..|rs| - 1];
    if pre != [] {
      WeightSumPositive(pre);
    }
  }

  /** a <= b scaled by a positive w stays ordered. */
  lemma ScaleOrdered(a: real, b: real, w: real)
    requires a <= b && w > 0.0
    ensures a * w <= b * w
  {
  }

  /** Adding reading r, whose coordinate is at least lo, to a weight total s
      and a weighted sum x with lo · s <= x keeps the bound for the new total
      s' and sum x'. */
  lemma AddAtLeast(lo: real, s: real, x: real, r: Reading, a: Axis) returns (s': real, x': real)
    requires lo <= Coord(r, a) && lo * s <= x
    ensures s' == s + Weight(r) && x' == x + Term(r, a)
    ensures lo * s' <= x'
  {
    var w := Weight(r);
    ScaleOrdered(lo, Coord(r, a), w);
    s', x' := s + w, x + Term(r, a);
    assert lo * s' == lo * s + lo * w;
  }

  /** The same for a coordinate of at most hi and x <= hi · s. */
  lemma AddAtMost(hi: real, s: real, x: real, r: Reading, a: Axis) returns (s': real, x': real)
    requires Coord(r, a) <= hi && x <= hi * s
    ensures s' == s + Weight(r) && x' == x + Term(r, a)
    ensures x' <= hi * s'
  {
    var w := Weight(r);
    ScaleOrdered(Coord(r, a), hi, w);
    s', x' := s + w, x + Term(r, a);
    assert hi * s' == hi * s + hi * w;
  }

  /** If every coordinate is at least lo, the weighted sum is at least lo
      times the total weight. The two sums are returned, so that the bound is
      stated over plain values. */
  lemma {:induction false} WeightedSumAtLeast(rs: seq<Reading>, a: Axis, lo: real)
      returns (total: real, sum: real)
    requires forall i :: 0 <= i < |rs| ==> lo <= Coord(rs[i], a)
    ensures total == WeightSum(rs) && sum == WeightedSum(rs, a)
    ensures lo * total <= sum
  {
    if rs == [] {
      total, sum := 0.0, 0.0;
    } else {
      var pre := rs[..|rs| - 1];
      assert forall i :: 0 <= i < |pre| ==> pre[i] == rs[i];
      var t0, s0 := WeightedSumAtLeast(pre, a, lo);
      total, sum := AddAtLeast(lo, t0, s0, rs[|rs| - 1], a);
    }
  }

  /** If every coordinate is at most hi, the weighted sum is at most hi times
      the total weight. */
  lemma {:induction false} WeightedSumAtMost(rs: seq<Reading>, a: Axis, hi: real)
      returns (total: real, sum: real)
    requires forall i :: 0 <= i < |rs| ==> Coord(rs[i], a) <= hi
    ensures total == WeightSum(rs) && sum == WeightedSum(rs, a)
    ensures sum <= hi * total
  {
    if rs == [] {
      total, sum := 0.0, 0.0;
    } else {
      var pre := rs[..|rs| - 1];
      assert forall i :: 0 <= i < |pre| ==> pre[i] == rs[i];
      var t0, s0 := WeightedSumAtMost(pre, a, hi);
      total, sum := AddAtMost(hi, t0, s0, rs[|rs| - 1], a);
    }
  }

  /** x at least lo · w, for a positive w, puts q = x / w at or above lo. */
  lemma DivideAtLeast(x: real, w: real, lo: real, q: real)
    requires w > 0.0 && lo * w <= x && q == x / w
    ensures lo <= q
  {
    assert q * w == x;
    if q < lo {
      ScaleOrdered(q, lo, w);
    }
  }

  /** x at most hi · w, for a positive w, puts q = x / w at or below hi. */
  lemma DivideAtMost(x: real, w: real, hi: real, q: real)
    requires w > 0.0 && x <= hi * w && q == x / w
    ensures q <= hi
  {
    assert q * w == x;
    if q > hi {
      ScaleOrdered(hi, q, w);
    }
  }

  /** The fused coordinate is the weighted mean and lies within the range of
      the kept readings' coordinates (in particular between their minimum and
      maximum). */
  lemma FusedWithinBounds(rs: seq<Reading>, a: Axis, lo: real, hi: real)
    requires rs != []
    requires forall i :: 0 <= i < |rs| ==> lo <= Coord(rs[i], a) <= hi
    ensures WeightSum(rs) > 0.0 && Fused(rs, a) == WeightedSum(rs, a) / WeightSum(rs)
    ensures lo <= Fused(rs, a) <= hi
  {
    WeightSumPositive(rs);
    var total, sum := WeightedSumAtLeast(rs, a, lo);
    DivideAtLeast(sum, total, lo, Fused(rs, a));
    var total', sum' := WeightedSumAtMost(rs, a, hi);
    DivideAtMost(sum', total', hi, Fused(rs, a));
  }

  /** Fusing one reading gives back its own position, accuracy and altitude. */
  lemma FuseSingleReading(r: Reading)
    ensures Finalize([r], BestOf([r])) == Success(Fix(r.lat, r.lng, r.accuracy, r.altitude, [r]))
  {
    assert [r][..0] == [];
    FusedWithinBounds([r], Lat, r.lat, r.lat);
    FusedWithinBounds([r], Lng, r.lng, r.lng);
  }

  /** The fused result of the kept readings reports the accuracy and the
      altitude of the first most accurate reading, that accuracy is the
      smallest one, and the readings are passed on unchanged. */
  lemma FusedAccuracyIsBest(rs: seq<Reading>)
    requires rs != []
    ensures Finalize(rs, BestOf(rs)).Success?
    ensures var f := Finalize(rs, BestOf(rs)).fix;
      && f.readings == rs
      && f.accuracy == MinAccuracy(rs)
      && exists k :: IsFirstMinimum(rs, k) && f.accuracy == rs[k].accuracy && f.altitude == rs[k].altitude
  {
    var k := BestIsFirstMinimum(rs);
    var m := MinAccuracy(rs);
    var j :| 0 <= j < |rs| && m == rs[j].accuracy;
    assert rs[k].accuracy <= rs[j].accuracy;
  }

  /** Readings (10, 10) at 10 m and (20, 20) at 5 m weigh 0.1 and 0.2; the
      fused position is (50/3, 50/3) and the reported accuracy 5 m. */
  lemma TwoReadingExample()
    ensures var rs := [Reading(10.0, 10.0, 10.0, None), Reading(20.0, 20.0, 5.0, None)];
      Finalize(rs, BestOf(rs)) == Success(Fix(50.0 / 3.0, 50.0 / 3.0, 5.0, None, rs))
  {
    var rs := [Reading(10.0, 10.0, 10.0, None), Reading(20.0, 20.0, 5.0, None)];
    assert rs[..1] == [rs[0]] && rs[..1][..0] == [];
    assert Weight(rs[0]) == 0.1 && Weight(rs[1]) == 0.2;
    assert WeightSum(rs) == 0.1 + 0.2;
    assert WeightedSum(rs, Lat) == 10.0 * 0.1 + 20.0 * 0.2;
    assert WeightedSum(rs, Lng) == 10.0 * 0.1 + 20.0 * 0.2;
  }
}
