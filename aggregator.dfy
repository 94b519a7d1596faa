/** Windowed aggregation over a fixed-step time series (class `Aggregator` of JRobin).

    A series holds timestamps `t[0..n)` and values `v[0..n)`; sample `i` stands for the value that
    held during its validity interval `(t[i] - step, t[i]]`. For a query window `[tStart, tEnd]`
    the aggregator weights each sample by the number of seconds its interval shares with the
    window. A missing value (Java's `Double.NaN`) is `None`. */
module Aggregation {
  import opened Wrappers

  /** A constructed aggregator: the two arrays it was given and the step it derived from them. */
  datatype Aggregator = Aggregator(timestamps: seq<int>, values: seq<Option<real>>, step: int)

  /** Why construction was refused (the two assertions of the Java constructor). */
  datatype CreateError = IncompatibleLengths | TooFewTimestamps

  /** The six aggregated values; each one is `None` when it is undefined. */
  datatype Aggregates = Aggregates(
    min: Option<real>, max: Option<real>, first: Option<real>, last: Option<real>,
    average: Option<real>, total: Option<real>)

  /** What every constructed aggregator satisfies. */
  predicate Valid(a: Aggregator) {
    && |a.timestamps| == |a.values|
    && |a.timestamps| >= 2
    && a.step == a.timestamps[1] - a.timestamps[0]
  }

  /** The constructor: both arrays must have the same length, and at least two timestamps are
      needed to derive the step. */
  function Create(timestamps: seq<int>, values: seq<Option<real>>): (r: Result<Aggregator, CreateError>)
    ensures r.Success? <==> |timestamps| == |values| && |timestamps| >= 2
    ensures r.Success? ==> Valid(r.value) && r.value.timestamps == timestamps && r.value.values == values
    ensures r.Success? ==> r.value.step == timestamps[1] - timestamps[0]
    ensures |timestamps| != |values| ==> r == Failure(IncompatibleLengths)
    ensures |timestamps| == |values| && |timestamps| < 2 ==> r == Failure(TooFewTimestamps)
  {
    if |timestamps| != |values| then Failure(IncompatibleLengths)
    else if |timestamps| < 2 then Failure(TooFewTimestamps)
    else Success(Aggregator(timestamps, values, timestamps[1] - timestamps[0]))
  }

  // ---------------------------------------------------------------------------------------------
  // Overlap of a sample with the query window

  /** `Math.max` on longs. */
  function MaxInt(x: int, y: int): (r: int)
    ensures r >= x && r >= y && (r == x || r == y)
  {
    if x >= y then x else y
  }

  /** `Math.min` on longs. */
  function MinInt(x: int, y: int): (r: int)
    ensures r <= x && r <= y && (r == x || r == y)
  {
    if x <= y then x else y
  }

  /** The seconds that the validity interval of sample `i` shares with `[tStart, tEnd]`;
      zero or negative when they do not overlap. */
  function Overlap(a: Aggregator, i: nat, tStart: int, tEnd: int): (delta: int)
    requires i < |a.timestamps|
    ensures delta <= tEnd - tStart
    ensures delta <= a.step
  {
    MinInt(a.timestamps[i], tEnd) - MaxInt(a.timestamps[i] - a.step, tStart)
  }

  /** Sample `i` takes part in the window: its overlap is strictly positive. That is, the window
      has positive length and meets the validity interval `(t[i] - step, t[i]]` in more than one
      point. */
  predicate Participates(a: Aggregator, i: nat, tStart: int, tEnd: int)
    requires i < |a.timestamps|
    ensures Participates(a, i, tStart, tEnd) <==>
      tStart < tEnd && 0 < a.step && tStart < a.timestamps[i] && a.timestamps[i] - a.step < tEnd
  {
    Overlap(a, i, tStart, tEnd) > 0
  }

  /** Sample `i` takes part in the window and its value is present. */
  predicate Contributes(a: Aggregator, i: nat, tStart: int, tEnd: int)
    requires Valid(a) && i < |a.timestamps|
    ensures Contributes(a, i, tStart, tEnd) <==>
      a.values[i].Some? && tStart < tEnd && 0 < a.step && tStart < a.timestamps[i] && a.timestamps[i] - a.step < tEnd
  {
    Participates(a, i, tStart, tEnd) && a.values[i].Some?
  }

  // ---------------------------------------------------------------------------------------------
  // Missing-value-ignoring helpers (`Util.min`, `Util.max`, `Util.sum`)

  /** `Util.min`: a missing operand yields the other operand. */
  function MinIgnoringMissing(x: Option<real>, y: Option<real>): (r: Option<real>)
    ensures r.None? <==> x.None? && y.None?
    ensures r == x || r == y
    ensures r.Some? && x.Some? ==> r.value <= x.value
    ensures r.Some? && y.Some? ==> r.value <= y.value
  {
    match (x, y)
    case (None, _) => y
    case (_, None) => x
    case (Some(u), Some(w)) => if u <= w then x else y
  }

  /** `Util.max`: a missing operand yields the other operand. */
  function MaxIgnoringMissing(x: Option<real>, y: Option<real>): (r: Option<real>)
    ensures r.None? <==> x.None? && y.None?
    ensures r == x || r == y
    ensures r.Some? && x.Some? ==> r.value >= x.value
    ensures r.Some? && y.Some? ==> r.value >= y.value
  {
    match (x, y)
    case (None, _) => y
    case (_, None) => x
    case (Some(u), Some(w)) => if u >= w then x else y
  }

  /** `Util.sum`: a missing operand yields the other operand. */
  function SumIgnoringMissing(x: Option<real>, y: Option<real>): (r: Option<real>)
    ensures r.None? <==> x.None? && y.None?
    ensures x.Some? && y.Some? ==> r == Some(x.value + y.value)
    ensures x.None? ==> r == y
    ensures y.None? ==> r == x
  {
    match (x, y)
    case (None, _) => y
    case (_, None) => x
    case (Some(u), Some(w)) => Some(u + w)
  }

  // ---------------------------------------------------------------------------------------------
  // getAggregates

  /** `delta * value`: a value weighted by the seconds it covers. */
  function Weighted(delta: int, value: real): real {
    delta as real * value
  }

  /** The variables that the loop of `getAggregates` updates. */
  datatype Scan = Scan(agg: Aggregates, totalSeconds: int, firstFound: bool)

  /** A fresh `Aggregates` object: every field is `NaN`. */
  const Undefined := Aggregates(None, None, None, None, None, None)

  /** One iteration of the loop, for sample `i`. */
  function ScanStep(a: Aggregator, i: nat, tStart: int, tEnd: int, sc: Scan): (r: Scan)
    requires Valid(a) && i < |a.timestamps|
    ensures !Participates(a, i, tStart, tEnd) ==> r == sc
    ensures Participates(a, i, tStart, tEnd) ==> r.firstFound && r.agg.last == a.values[i]
    ensures sc.firstFound ==> r.firstFound && r.agg.first == sc.agg.first
    ensures r.totalSeconds >= sc.totalSeconds && r.agg.average == sc.agg.average
  {
    var delta := Overlap(a, i, tStart, tEnd);
    if delta > 0 then
      var value := a.values[i];
      var agg := sc.agg.(
        min := MinIgnoringMissing(sc.agg.min, value),
        max := MaxIgnoringMissing(sc.agg.max, value),
        first := if sc.firstFound then sc.agg.first else value,
        last := value);
      if value.Some? then
        Scan(agg.(total := SumIgnoringMissing(agg.total, Some(Weighted(delta, value.value)))),
             sc.totalSeconds + delta, true)
      else
        Scan(agg, sc.totalSeconds, true)
    else
      sc
  }

  /** The loop variables after the first `n` samples. */
  function ScanUpTo(a: Aggregator, n: nat, tStart: int, tEnd: int): (sc: Scan)
    requires Valid(a) && n <= |a.timestamps|
    ensures sc.totalSeconds >= 0 && sc.agg.average == None
    ensures sc.agg.min.None? <==> sc.agg.max.None?
    ensures sc.agg.max.None? <==> sc.agg.total.None?
    ensures sc.agg.total.None? <==> sc.totalSeconds == 0
  {
    if n == 0 then Scan(Undefined, 0, false)
    else ScanStep(a, n - 1, tStart, tEnd, ScanUpTo(a, n - 1, tStart, tEnd))
  }

  /** `total / totalSeconds` when some seconds were covered, else undefined. */
  function Average(total: Option<real>, totalSeconds: int): (average: Option<real>)
    ensures average.Some? <==> totalSeconds > 0 && total.Some?
    ensures average.Some? ==> average.value * totalSeconds as real == total.value
  {
    if totalSeconds > 0 && total.Some? then Some(total.value / totalSeconds as real) else None
  }

  /** What `getAggregates(tStart, tEnd)` returns. */
  function AggregatesOf(a: Aggregator, tStart: int, tEnd: int): (agg: Aggregates)
    requires Valid(a)
    ensures agg.min.None? <==> agg.max.None?
    ensures agg.max.None? <==> agg.total.None?
    ensures agg.total.None? <==> agg.average.None?
  {
    var sc := ScanUpTo(a, |a.timestamps|, tStart, tEnd);
    sc.agg.(average := Average(sc.agg.total, sc.totalSeconds))
  }

  /** `getAggregates`: one scan over the samples, updating the aggregates in place. */
  method GetAggregates(a: Aggregator, tStart: int, tEnd: int) returns (agg: Aggregates)
    requires Valid(a)
    ensures agg == AggregatesOf(a, tStart, tEnd)
  {
    agg := Undefined;
    var totalSeconds := 0;
    var firstFound := false;
    for i := 0 to |a.timestamps|
      invariant Scan(agg, totalSeconds, firstFound) == ScanUpTo(a, i, tStart, tEnd)
    {
      ghost var before := Scan(agg, totalSeconds, firstFound);
      var left := MaxInt(a.timestamps[i] - a.step, tStart);
      var right := MinInt(a.timestamps[i], tEnd);
      var delta := right - left;
      assert delta == Overlap(a, i, tStart, tEnd);
      if delta > 0 {
        var value := a.values[i];
        agg := agg.(min := MinIgnoringMissing(agg.min, value));
        agg := agg.(max := MaxIgnoringMissing(agg.max, value));
        if !firstFound {
          agg := agg.(first := value);
          firstFound := true;
        }
        agg := agg.(last := value);
        if value.Some? {
          agg := agg.(total := SumIgnoringMissing(agg.total, Some(Weighted(delta, value.value))));
          totalSeconds := totalSeconds + delta;
        }
      }
      assert Scan(agg, totalSeconds, firstFound) == ScanStep(a, i, tStart, tEnd, before);
    }
    if totalSeconds > 0 && agg.total.Some? {
      agg := agg.(average := Some(agg.total.value / totalSeconds as real));
    } else {
      agg := agg.(average := None);
    }
  }

  // ---------------------------------------------------------------------------------------------
  // Reference definitions for the aggregates, and the lemmas tying the scan to them

  /** Sum of `overlap * value` over the contributing samples among the first `n`; zero when no
      sample contributes. */
  function WeightedSum(a: Aggregator, n: nat, tStart: int, tEnd: int): (w: real)
    requires Valid(a) && n <= |a.timestamps|
    ensures (forall i :: 0 <= i < n ==> !Contributes(a, i, tStart, tEnd)) ==> w == 0.0
  {
    if n == 0 then 0.0
    else
      var here := if Contributes(a, n - 1, tStart, tEnd)
        then Weighted(Overlap(a, n - 1, tStart, tEnd), a.values[n - 1].value) else 0.0;
      WeightedSum(a, n - 1, tStart, tEnd) + here
  }

  /** Sum of the overlaps of the contributing samples among the first `n`. It is positive exactly
      when some sample contributes. */
  function CoveredSeconds(a: Aggregator, n: nat, tStart: int, tEnd: int): (s: int)
    requires Valid(a) && n <= |a.timestamps|
    ensures s >= 0
    ensures s > 0 <==> exists i :: 0 <= i < n && Contributes(a, i, tStart, tEnd)
  {
    if n == 0 then 0
    else
      var here := if Contributes(a, n - 1, tStart, tEnd) then Overlap(a, n - 1, tStart, tEnd) else 0;
      CoveredSeconds(a, n - 1, tStart, tEnd) + here
  }

  /** How one more sample changes each loop variable. */
  lemma ScanUnfold(a: Aggregator, k: nat, tStart: int, tEnd: int)
    requires Valid(a) && k < |a.timestamps|
    ensures var prev := ScanUpTo(a, k, tStart, tEnd); var sc := ScanUpTo(a, k + 1, tStart, tEnd);
      var value := a.values[k]; var delta := Overlap(a, k, tStart, tEnd);
      if Participates(a, k, tStart, tEnd) then
        && sc.agg.min == MinIgnoringMissing(prev.agg.min, value)
        && sc.agg.max == MaxIgnoringMissing(prev.agg.max, value)
        && sc.agg.first == (if prev.firstFound then prev.agg.first else value)
        && sc.agg.last == value
        && sc.firstFound
        && sc.totalSeconds == prev.totalSeconds + (if value.Some? then delta else 0)
        && sc.agg.total == (if value.Some? then SumIgnoringMissing(prev.agg.total, Some(Weighted(delta, value.value)))
                            else prev.agg.total)
      else
        sc == prev
  {
  }

  /** MIN after `n` samples is the least present value among the participating ones, and is
      undefined exactly when no participating value is present. */
  lemma {:induction false} ScanMinIsLeast(a: Aggregator, n: nat, tStart: int, tEnd: int)
    requires Valid(a) && n <= |a.timestamps|
    ensures var m := ScanUpTo(a, n, tStart, tEnd).agg.min;
      && (m.None? <==> forall i :: 0 <= i < n ==> !Contributes(a, i, tStart, tEnd))
      && (m.Some? ==> exists i :: 0 <= i < n && Contributes(a, i, tStart, tEnd) && a.values[i] == m)
      && (m.Some? ==> forall i :: 0 <= i < n && Contributes(a, i, tStart, tEnd) ==> m.value <= a.values[i].value)
  {
    if n > 0 {
      var k := n - 1;
      ScanMinIsLeast(a, k, tStart, tEnd);
      ScanUnfold(a, k, tStart, tEnd);
      var prev, m := ScanUpTo(a, k, tStart, tEnd).agg.min, ScanUpTo(a, n, tStart, tEnd).agg.min;
      if !Contributes(a, k, tStart, tEnd) {
        assert m == prev;
      } else {
        assert m == MinIgnoringMissing(prev, a.values[k]);
        if m == a.values[k] {
          assert exists i :: 0 <= i < n && Contributes(a, i, tStart, tEnd) && a.values[i] == m;
        } else {
          assert m == prev;
        }
      }
    }
  }

  /** MAX after `n` samples is the greatest present value among the participating ones, and is
      undefined exactly when no participating value is present. */
  lemma {:induction false} ScanMaxIsGreatest(a: Aggregator, n: nat, tStart: int, tEnd: int)
    requires Valid(a) && n <= |a.timestamps|
    ensures var m := ScanUpTo(a, n, tStart, tEnd).agg.max;
      && (m.None? <==> forall i :: 0 <= i < n ==> !Contributes(a, i, tStart, tEnd))
      && (m.Some? ==> exists i :: 0 <= i < n && Contributes(a, i, tStart, tEnd) && a.values[i] == m)
      && (m.Some? ==> forall i :: 0 <= i < n && Contributes(a, i, tStart, tEnd) ==> m.value >= a.values[i].value)
  {
    if n > 0 {
      var k := n - 1;
      ScanMaxIsGreatest(a, k, tStart, tEnd);
      ScanUnfold(a, k, tStart, tEnd);
      var prev, m := ScanUpTo(a, k, tStart, tEnd).agg.max, ScanUpTo(a, n, tStart, tEnd).agg.max;
      if !Contributes(a, k, tStart, tEnd) {
        assert m == prev;
      } else {
        assert m == MaxIgnoringMissing(prev, a.values[k]);
        if m == a.values[k] {
          assert exists i :: 0 <= i < n && Contributes(a, i, tStart, tEnd) && a.values[i] == m;
        } else {
          assert m == prev;
        }
      }
    }
  }

  /** FIRST after `n` samples is the value, present or missing, of the lowest-index participating
      sample; `firstFound` says whether there is one. */
  lemma {:induction false} ScanFirstIsLowest(a: Aggregator, n: nat, tStart: int, tEnd: int)
    requires Valid(a) && n <= |a.timestamps|
    ensures var sc := ScanUpTo(a, n, tStart, tEnd);
      && (sc.firstFound <==> exists i :: 0 <= i < n && Participates(a, i, tStart, tEnd))
      && (!sc.firstFound ==> sc.agg.first == None)
      && (forall i :: 0 <= i < n && Participates(a, i, tStart, tEnd)
            && (forall j :: 0 <= j < i ==> !Participates(a, j, tStart, tEnd))
            ==> sc.agg.first == a.values[i])
  {
    if n > 0 {
      var k := n - 1;
      ScanFirstIsLowest(a, k, tStart, tEnd);
      ScanUnfold(a, k, tStart, tEnd);
      var prev, sc := ScanUpTo(a, k, tStart, tEnd), ScanUpTo(a, n, tStart, tEnd);
      if !Participates(a, k, tStart, tEnd) {
        assert sc == prev;
      } else if prev.firstFound {
        assert sc.firstFound && sc.agg.first == prev.agg.first;
      } else {
        assert sc.firstFound && sc.agg.first == a.values[k];
        forall i | 0 <= i < n && Participates(a, i, tStart, tEnd)
          ensures i == k
        {
        }
      }
    }
  }

  /** LAST after `n` samples is the value, present or missing, of the highest-index participating
      sample `i`. */
  lemma {:induction false} ScanLastIsHighest(a: Aggregator, n: nat, i: nat, tStart: int, tEnd: int)
    requires Valid(a) && i < n <= |a.timestamps| && Participates(a, i, tStart, tEnd)
    requires forall j :: i < j < n ==> !Participates(a, j, tStart, tEnd)
    ensures ScanUpTo(a, n, tStart, tEnd).agg.last == a.values[i]
    decreases n
  {
    ScanUnfold(a, n - 1, tStart, tEnd);
    if i < n - 1 {
      ScanLastIsHighest(a, n - 1, i, tStart, tEnd);
    }
  }

  /** LAST stays undefined while no sample participates. */
  lemma {:induction false} ScanLastUndefined(a: Aggregator, n: nat, tStart: int, tEnd: int)
    requires Valid(a) && n <= |a.timestamps|
    requires forall i :: 0 <= i < n ==> !Participates(a, i, tStart, tEnd)
    ensures ScanUpTo(a, n, tStart, tEnd).agg.last == None
  {
    if n > 0 {
      ScanLastUndefined(a, n - 1, tStart, tEnd);
      ScanUnfold(a, n - 1, tStart, tEnd);
    }
  }


  /** TOTAL after `n` samples is the overlap-weighted sum of the contributing values (undefined when
      none contributes), and `totalSeconds` is the sum of their overlaps. */
  lemma {:induction false} ScanTotalIsWeightedSum(a: Aggregator, n: nat, tStart: int, tEnd: int)
    requires Valid(a) && n <= |a.timestamps|
    ensures var sc := ScanUpTo(a, n, tStart, tEnd);
      && sc.totalSeconds == CoveredSeconds(a, n, tStart, tEnd)
      && sc.agg.total == if CoveredSeconds(a, n, tStart, tEnd) > 0
                         then Some(WeightedSum(a, n, tStart, tEnd)) else None
  {
    if n > 0 {
      var k := n - 1;
      ScanTotalIsWeightedSum(a, k, tStart, tEnd);
      ScanUnfold(a, k, tStart, tEnd);
      if CoveredSeconds(a, k, tStart, tEnd) == 0 {
        assert WeightedSum(a, k, tStart, tEnd) == 0.0;
      }
    }
  }

  /** AVERAGE is TOTAL divided by the covered seconds, and undefined exactly when no participating
      value is present. */
  lemma AverageIsWeightedMean(a: Aggregator, tStart: int, tEnd: int)
    requires Valid(a)
    ensures var n := |a.timestamps|; var agg := AggregatesOf(a, tStart, tEnd);
      && agg.total == (if CoveredSeconds(a, n, tStart, tEnd) > 0 then Some(WeightedSum(a, n, tStart, tEnd)) else None)
      && agg.average == (if CoveredSeconds(a, n, tStart, tEnd) > 0
                         then Some(WeightedSum(a, n, tStart, tEnd) / CoveredSeconds(a, n, tStart, tEnd) as real)
                         else None)
      && (agg.average.None? <==> forall i :: 0 <= i < n ==> !Contributes(a, i, tStart, tEnd))
  {
    ScanTotalIsWeightedSum(a, |a.timestamps|, tStart, tEnd);
  }

  /** A window with `tEnd <= tStart` has no participating sample, so every aggregate is undefined
      and no value qualifies for the percentile. */
  lemma EmptyWindow(a: Aggregator, tStart: int, tEnd: int)
    requires Valid(a) && tEnd <= tStart
    ensures AggregatesOf(a, tStart, tEnd) == Undefined
    ensures Qualifying(a, tStart, tEnd) == []
  {
    NoParticipantWindow(a, tStart, tEnd);
  }

  /** A window in which no sample participates leaves all six aggregates undefined and lets no
      value qualify for the percentile. */
  lemma NoParticipantWindow(a: Aggregator, tStart: int, tEnd: int)
    requires Valid(a) && forall i :: 0 <= i < |a.timestamps| ==> !Participates(a, i, tStart, tEnd)
    ensures AggregatesOf(a, tStart, tEnd) == Undefined
    ensures Qualifying(a, tStart, tEnd) == []
  {
    var n := |a.timestamps|;
    ScanMinIsLeast(a, n, tStart, tEnd);
    ScanMaxIsGreatest(a, n, tStart, tEnd);
    ScanFirstIsLowest(a, n, tStart, tEnd);
    ScanLastUndefined(a, n, tStart, tEnd);
    ScanTotalIsWeightedSum(a, n, tStart, tEnd);
  }

  // ---------------------------------------------------------------------------------------------
  // get95Percentile

  /** The present values of the participating samples among the first `n`, in index order (the
      list the first loop of `get95Percentile` builds). */
  function QualifyingUpTo(a: Aggregator, n: nat, tStart: int, tEnd: int): (q: seq<real>)
    requires Valid(a) && n <= |a.timestamps|
    ensures |q| <= n
    ensures (forall i :: 0 <= i < n ==> !Contributes(a, i, tStart, tEnd)) ==> q == []
  {
    if n == 0 then []
    else if Contributes(a, n - 1, tStart, tEnd) then QualifyingUpTo(a, n - 1, tStart, tEnd) + [a.values[n - 1].value]
    else QualifyingUpTo(a, n - 1, tStart, tEnd)
  }

  /** A value is in the list exactly when some contributing sample among the first `n` has it. */
  lemma {:induction false} QualifyingMembers(a: Aggregator, n: nat, tStart: int, tEnd: int, v: real)
    requires Valid(a) && n <= |a.timestamps|
    ensures v in QualifyingUpTo(a, n, tStart, tEnd)
        <==> exists i :: 0 <= i < n && Contributes(a, i, tStart, tEnd) && a.values[i] == Some(v)
  {
    if n > 0 {
      QualifyingMembers(a, n - 1, tStart, tEnd, v);
    }
  }

  /** No value has qualified among the first `n` samples exactly when the scan of
      `getAggregates` has covered no second yet. */
  lemma {:induction false} QualifyingEmptyUpTo(a: Aggregator, n: nat, tStart: int, tEnd: int)
    requires Valid(a) && n <= |a.timestamps|
    ensures QualifyingUpTo(a, n, tStart, tEnd) == [] <==> ScanUpTo(a, n, tStart, tEnd).totalSeconds == 0
  {
    if n > 0 {
      QualifyingEmptyUpTo(a, n - 1, tStart, tEnd);
    }
  }

  /** The indices among the first `n` of the contributing samples whose value is `v`. */
  function ContributorsOf(a: Aggregator, n: nat, tStart: int, tEnd: int, v: real): set<nat>
    requires Valid(a) && n <= |a.timestamps|
  {
    set i: nat | i < n && Contributes(a, i, tStart, tEnd) && a.values[i] == Some(v)
  }

  /** One more sample adds its own index to `ContributorsOf` when it contributes `v`. */
  lemma ContributorsStep(a: Aggregator, n: nat, tStart: int, tEnd: int, v: real)
    requires Valid(a) && 0 < n <= |a.timestamps|
    ensures |ContributorsOf(a, n, tStart, tEnd, v)|
         == |ContributorsOf(a, n - 1, tStart, tEnd, v)|
          + (if Contributes(a, n - 1, tStart, tEnd) && a.values[n - 1] == Some(v) then 1 else 0)
  {
    var here, before := ContributorsOf(a, n, tStart, tEnd, v), ContributorsOf(a, n - 1, tStart, tEnd, v);
    var added: set<nat> := if Contributes(a, n - 1, tStart, tEnd) && a.values[n - 1] == Some(v) then {n - 1} else {};
    forall i: nat
      ensures i in here <==> i in before + added
    {
      if i < n - 1 {
        assert i in here <==> i in before;
      }
    }
    assert here == before + added;
    assert before !! added;
  }

  /** Each contributing sample puts its value in the list exactly once: the multiplicity of `v` is
      the number of contributing samples among the first `n` whose value is `v`. */
  lemma {:induction false} QualifyingMultiplicity(a: Aggregator, n: nat, tStart: int, tEnd: int, v: real)
    requires Valid(a) && n <= |a.timestamps|
    ensures multiset(QualifyingUpTo(a, n, tStart, tEnd))[v] == |ContributorsOf(a, n, tStart, tEnd, v)|
  {
    if n == 0 {
      assert ContributorsOf(a, n, tStart, tEnd, v) == {};
    } else {
      QualifyingMultiplicity(a, n - 1, tStart, tEnd, v);
      ContributorsStep(a, n, tStart, tEnd, v);
      var before := QualifyingUpTo(a, n - 1, tStart, tEnd);
      if Contributes(a, n - 1, tStart, tEnd) {
        assert multiset(QualifyingUpTo(a, n, tStart, tEnd)) == multiset(before) + multiset{a.values[n - 1].value};
      }
    }
  }

  /** The present values of all participating samples, in index order. The list is empty exactly
      when TOTAL (and so MIN, MAX and AVERAGE) is undefined for the same window. */
  function Qualifying(a: Aggregator, tStart: int, tEnd: int): (q: seq<real>)
    requires Valid(a)
    ensures |q| <= |a.timestamps|
    ensures q == [] <==> AggregatesOf(a, tStart, tEnd).total.None?
  {
    QualifyingEmptyUpTo(a, |a.timestamps|, tStart, tEnd);
    QualifyingUpTo(a, |a.timestamps|, tStart, tEnd)
  }

  /** How many of `count` values are discarded as the top 5%: `(int) Math.ceil(count * 0.05)`,
      computed exactly as the integer ceiling of `count / 20`. */
  function Discard(count: nat): (d: nat)
    ensures 20 * d >= count && 20 * (d - 1) < count
  {
    (count + 19) / 20
  }

  /** How many values are left once the top 5% are discarded; at least one for two or more. */
  function Keep(count: nat): (k: int)
    ensures k == count - Discard(count)
    ensures count >= 2 ==> 1 <= k < count
  {
    count - Discard(count)
  }

  /** The values of `q` strictly greater than `v`, in order. */
  function Above(q: seq<real>, v: real): (r: seq<real>)
    ensures |r| <= |q|
  {
    if q == [] then [] else (if q[0] > v then [q[0]] else []) + Above(q[1..], v)
  }

  /** The values of `q` strictly less than `v`, in order. */
  function Below(q: seq<real>, v: real): (r: seq<real>)
    ensures |r| <= |q|
  {
    if q == [] then [] else (if q[0] < v then [q[0]] else []) + Below(q[1..], v)
  }

  /** `v` is the 95th percentile of `q` by discard count: it is one of the values, at most
      `Discard(|q|)` values are strictly greater than it, and fewer than `Keep(|q|)` values are
      strictly less than it. So `v` is the element at position `Keep(|q|) - 1` of `q` sorted, the
      highest value left once the top `Discard(|q|)` values are dropped. */
  predicate Is95Percentile(q: seq<real>, v: real) {
    v in q && |Above(q, v)| <= Discard(|q|) && |Below(q, v)| < Keep(|q|)
  }

  predicate SortedSeq(s: seq<real>) {
    forall p, r :: 0 <= p < r < |s| ==> s[p] <= s[r]
  }

  /** `Arrays.sort` on a `double[]` without NaN: an insertion sort, in place. */
  method Sort(a: array<real>)
    modifies a
    ensures SortedSeq(a[..])
    ensures multiset(a[..]) == old(multiset(a[..]))
  {
    var i := 0;
    while i < a.Length
      invariant 0 <= i <= a.Length
      invariant forall p, r :: 0 <= p < r < i ==> a[p] <= a[r]
      invariant multiset(a[..]) == old(multiset(a[..]))
    {
      var j := i;
      while j > 0 && a[j - 1] > a[j]
        invariant 0 <= j <= i
        invariant forall p, r :: 0 <= p < r <= i && p != j && r != j ==> a[p] <= a[r]
        invariant forall r :: j < r <= i ==> a[j] < a[r]
        invariant multiset(a[..]) == old(multiset(a[..]))
      {
        SwapAdjacent(a, j);
        j := j - 1;
      }
      i := i + 1;
    }
  }

  /** Exchanges `a[j - 1]` and `a[j]`. */
  method SwapAdjacent(a: array<real>, j: int)
    requires 0 < j < a.Length
    modifies a
    ensures a[j - 1] == old(a[j]) && a[j] == old(a[j - 1])
    ensures forall k :: 0 <= k < a.Length && k != j - 1 && k != j ==> a[k] == old(a[k])
    ensures multiset(a[..]) == old(multiset(a[..]))
  {
    a[j - 1], a[j] := a[j], a[j - 1];
  }

  /** The first loop of `get95Percentile`: the present values of the participating samples. */
  method CollectQualifying(a: Aggregator, tStart: int, tEnd: int) returns (valueList: seq<real>)
    requires Valid(a)
    ensures valueList == Qualifying(a, tStart, tEnd)
  {
    valueList := [];
    for i := 0 to |a.timestamps|
      invariant valueList == QualifyingUpTo(a, i, tStart, tEnd)
    {
      var left := MaxInt(a.timestamps[i] - a.step, tStart);
      var right := MinInt(a.timestamps[i], tEnd);
      assert right > left && a.values[i].Some? <==> Contributes(a, i, tStart, tEnd);
      ghost var before := valueList;
      if right > left && a.values[i].Some? {
        valueList := valueList + [a.values[i].value];
      }
      assert valueList == if Contributes(a, i, tStart, tEnd) then before + [a.values[i].value] else before;
    }
  }

  /** The loop of `get95Percentile` that copies the list of qualifying values into an array. */
  method CopyToArray(values: seq<real>) returns (copy: array<real>)
    ensures fresh(copy) && copy[..] == values
  {
    copy := new real[|values|];
    for i := 0 to |values|
      invariant copy[..i] == values[..i]
    {
      copy[i] := values[i];
    }
  }

  /** `get95Percentile`: collect the qualifying values, copy them into an array, sort it and
      return the highest value left after the top 5% by count are discarded. */
  method Get95Percentile(a: Aggregator, tStart: int, tEnd: int) returns (r: Option<real>)
    requires Valid(a)
    ensures r.None? <==> |Qualifying(a, tStart, tEnd)| < 2
    ensures r.Some? ==> Is95Percentile(Qualifying(a, tStart, tEnd), r.value)
  {
    var valueList := CollectQualifying(a, tStart, tEnd);
    var count := |valueList|;
    if count > 1 {
      var valuesCopy := CopyToArray(valueList);
      Sort(valuesCopy);
      assert multiset(valuesCopy[..]) == multiset(valueList);
      count := count - Discard(count);
      assert count == Keep(|valueList|);
      if count > 0 {
        var sorted := valuesCopy[..];
        PercentileOfSorted(sorted, valueList);
        assert Is95Percentile(valueList, sorted[count - 1]);
        return Some(valuesCopy[count - 1]);
      }
    }
    return None;
  }

  /** The multiplicity of each value among `Above(q, v)` is its multiplicity in `q` if it is
      greater than `v`, and zero otherwise. */
  lemma {:induction false} AboveMultiplicity(q: seq<real>, v: real, x: real)
    ensures multiset(Above(q, v))[x] == if x > v then multiset(q)[x] else 0
  {
    if q != [] {
      AboveMultiplicity(q[1..], v, x);
      var head := if q[0] > v then [q[0]] else [];
      assert Above(q, v) == head + Above(q[1..], v);
      assert multiset(Above(q, v)) == multiset(head) + multiset(Above(q[1..], v));
      assert q == [q[0]] + q[1..];
      assert multiset(q) == multiset([q[0]]) + multiset(q[1..]);
    }
  }

  /** The multiplicity of each value among `Below(q, v)` is its multiplicity in `q` if it is
      less than `v`, and zero otherwise. */
  lemma {:induction false} BelowMultiplicity(q: seq<real>, v: real, x: real)
    ensures multiset(Below(q, v))[x] == if x < v then multiset(q)[x] else 0
  {
    if q != [] {
      BelowMultiplicity(q[1..], v, x);
      var head := if q[0] < v then [q[0]] else [];
      assert Below(q, v) == head + Below(q[1..], v);
      assert multiset(Below(q, v)) == multiset(head) + multiset(Below(q[1..], v));
      assert q == [q[0]] + q[1..];
      assert multiset(q) == multiset([q[0]]) + multiset(q[1..]);
    }
  }

  /** The counts above and below a value do not depend on the order of the values. */
  lemma CountsArePermutationInvariant(p: seq<real>, q: seq<real>, v: real)
    requires multiset(p) == multiset(q)
    ensures |Above(p, v)| == |Above(q, v)|
    ensures |Below(p, v)| == |Below(q, v)|
  {
    forall x
      ensures multiset(Above(p, v))[x] == multiset(Above(q, v))[x]
      ensures multiset(Below(p, v))[x] == multiset(Below(q, v))[x]
    {
      AboveMultiplicity(p, v, x);
      AboveMultiplicity(q, v, x);
      BelowMultiplicity(p, v, x);
      BelowMultiplicity(q, v, x);
    }
    assert multiset(Above(p, v)) == multiset(Above(q, v));
    assert multiset(Below(p, v)) == multiset(Below(q, v));
    assert |Above(p, v)| == |multiset(Above(p, v))|;
    assert |Above(q, v)| == |multiset(Above(q, v))|;
    assert |Below(p, v)| == |multiset(Below(p, v))|;
    assert |Below(q, v)| == |multiset(Below(q, v))|;
  }

  /** When the first `m` values are at most `v`, at most `|s| - m` values are greater than `v`. */
  lemma {:induction false} AboveAfterPrefix(s: seq<real>, v: real, m: nat)
    requires m <= |s|
    requires forall j :: 0 <= j < m ==> s[j] <= v
    ensures |Above(s, v)| <= |s| - m
  {
    if m > 0 {
      AboveAfterPrefix(s[1..], v, m - 1);
    }
  }

  /** When every value from position `m` on is at least `v`, at most `m` values are less than `v`. */
  lemma {:induction false} BelowBeforeSuffix(s: seq<real>, v: real, m: nat)
    requires m <= |s|
    requires forall j :: m <= j < |s| ==> s[j] >= v
    ensures |Below(s, v)| <= m
  {
    if s != [] {
      BelowBeforeSuffix(s[1..], v, if m > 0 then m - 1 else 0);
    }
  }

  /** Position `Keep(|q|) - 1` of a sorted permutation of `q` holds its 95th percentile. */
  lemma PercentileOfSorted(sorted: seq<real>, q: seq<real>)
    requires SortedSeq(sorted) && multiset(sorted) == multiset(q) && |q| >= 2
    ensures |sorted| == |q| && 1 <= Keep(|q|) <= |q|
    ensures Is95Percentile(q, sorted[Keep(|q|) - 1])
  {
    assert |sorted| == |multiset(sorted)| == |multiset(q)| == |q|;
    var k := Keep(|q|) - 1;
    var v := sorted[k];
    assert v in multiset(q);
    AboveAfterPrefix(sorted, v, k + 1);
    BelowBeforeSuffix(sorted, v, k);
    CountsArePermutationInvariant(sorted, q, v);
  }

  /** Every value is either greater than `v` or less than `w > v`. */
  lemma {:induction false} AboveOrBelow(q: seq<real>, v: real, w: real)
    requires v < w
    ensures |Above(q, v)| + |Below(q, w)| >= |q|
  {
    if q != [] {
      AboveOrBelow(q[1..], v, w);
    }
  }

  /** The 95th percentile is unique: the conditions of `Is95Percentile` pin down one value. */
  lemma PercentileIsUnique(q: seq<real>, v: real, w: real)
    requires Is95Percentile(q, v) && Is95Percentile(q, w)
    ensures v == w
  {
    if v < w {
      AboveOrBelow(q, v, w);
    } else if w < v {
      AboveOrBelow(q, w, v);
    }
  }

  /** Adding a value no smaller than the current percentile `v` cannot lower the percentile, even
      though one more value may now be discarded. `grown` is the new list in any order. */
  lemma PercentileGrowsWithLargerValue(q: seq<real>, grown: seq<real>, x: real, v: real, w: real)
    requires Is95Percentile(q, v) && x >= v
    requires multiset(grown) == multiset(q) + multiset{x}
    requires Is95Percentile(grown, w)
    ensures v <= w
  {
    if w < v {
      var extended := [x] + q;
      assert extended[1..] == q;
      assert multiset(extended) == multiset(grown);
      assert |grown| == |multiset(grown)| == |q| + 1;
      CountsArePermutationInvariant(grown, extended, w);
      assert |Above(extended, w)| == 1 + |Above(q, w)|;
      AboveOrBelow(q, w, v);
      assert false;
    }
  }

  // ---------------------------------------------------------------------------------------------
  // A window that is exactly one validity interval

  /** The series really has a constant, positive step (its source guarantees it; the constructor
      does not check it). */
  predicate ConstantStep(a: Aggregator)
    requires Valid(a)
  {
    a.step > 0 && forall j :: 0 < j < |a.timestamps| ==> a.timestamps[j] == a.timestamps[j - 1] + a.step
  }

  /** With a constant step, earlier timestamps are at least one step before later ones. */
  lemma {:induction false} StepOrder(a: Aggregator, j: nat, k: nat)
    requires Valid(a) && ConstantStep(a) && j < k < |a.timestamps|
    ensures a.timestamps[j] + a.step <= a.timestamps[k]
    decreases k
  {
    assert a.timestamps[k] == a.timestamps[k - 1] + a.step;
    if j < k - 1 {
      StepOrder(a, j, k - 1);
    }
  }

  /** When only sample `i` participates, the scan is the step for sample `i` from the fresh state. */
  lemma {:induction false} OnlyParticipant(a: Aggregator, i: nat, n: nat, tStart: int, tEnd: int)
    requires Valid(a) && i < |a.timestamps| && n <= |a.timestamps|
    requires forall j :: 0 <= j < n && j != i ==> !Participates(a, j, tStart, tEnd)
    ensures ScanUpTo(a, n, tStart, tEnd)
         == if n <= i then Scan(Undefined, 0, false) else ScanStep(a, i, tStart, tEnd, Scan(Undefined, 0, false))
  {
    if n > 0 {
      OnlyParticipant(a, i, n - 1, tStart, tEnd);
    }
  }

  /** Sample `j` takes no part in the window that is the validity interval of another sample `i`. */
  lemma OtherSampleOutside(a: Aggregator, i: nat, j: nat)
    requires Valid(a) && ConstantStep(a) && i < |a.timestamps| && j < |a.timestamps| && j != i
    ensures !Participates(a, j, a.timestamps[i] - a.step, a.timestamps[i])
  {
    if j < i {
      StepOrder(a, j, i);
    } else {
      StepOrder(a, i, j);
    }
  }

  /** The aggregates of one participating sample `i` scanned from the fresh state. */
  lemma SingleStep(a: Aggregator, i: nat, tStart: int, tEnd: int)
    requires Valid(a) && i < |a.timestamps| && Overlap(a, i, tStart, tEnd) == a.step > 0
    ensures ScanStep(a, i, tStart, tEnd, Scan(Undefined, 0, false)).agg
         == Aggregates(a.values[i], a.values[i], a.values[i], a.values[i], None,
                       if a.values[i].Some? then Some(Weighted(a.step, a.values[i].value)) else None)
    ensures ScanStep(a, i, tStart, tEnd, Scan(Undefined, 0, false)).totalSeconds
         == if a.values[i].Some? then a.step else 0
  {
    var value := a.values[i];
    assert Participates(a, i, tStart, tEnd);
    assert MinIgnoringMissing(None, value) == value && MaxIgnoringMissing(None, value) == value;
  }

  /** For the window `[t[i] - step, t[i]]` of a constant-step series only sample `i` participates:
      FIRST, LAST, MIN, MAX and AVERAGE are its value, and TOTAL is `step * value` (the value times
      the seconds it covers). All six are undefined when the value is missing. */
  lemma OneSampleWindow(a: Aggregator, i: nat)
    requires Valid(a) && ConstantStep(a) && i < |a.timestamps|
    ensures var agg := AggregatesOf(a, a.timestamps[i] - a.step, a.timestamps[i]);
      && agg.first == a.values[i] && agg.last == a.values[i]
      && agg.min == a.values[i] && agg.max == a.values[i]
      && agg.average == a.values[i]
      && agg.total == if a.values[i].Some? then Some(Weighted(a.step, a.values[i].value)) else None
  {
    var tStart, tEnd := a.timestamps[i] - a.step, a.timestamps[i];
    OneSampleScan(a, i);
    assert Overlap(a, i, tStart, tEnd) == a.step;
    SingleStep(a, i, tStart, tEnd);
    if a.values[i].Some? {
      DivideOut(a.step, a.values[i].value);
    }
  }

  /** Dividing a weighted value by its positive weight gives the value back. */
  lemma DivideOut(d: int, v: real)
    requires d > 0
    ensures Weighted(d, v) / d as real == v
  {
  }

  /** The scan over the window `[t[i] - step, t[i]]` of a constant-step series is the step for
      sample `i` alone. */
  lemma OneSampleScan(a: Aggregator, i: nat)
    requires Valid(a) && ConstantStep(a) && i < |a.timestamps|
    ensures ScanUpTo(a, |a.timestamps|, a.timestamps[i] - a.step, a.timestamps[i])
         == ScanStep(a, i, a.timestamps[i] - a.step, a.timestamps[i], Scan(Undefined, 0, false))
  {
    var tStart, tEnd := a.timestamps[i] - a.step, a.timestamps[i];
    forall j | 0 <= j < |a.timestamps| && j != i
      ensures !Participates(a, j, tStart, tEnd)
    {
      OtherSampleOutside(a, i, j);
    }
    OnlyParticipant(a, i, |a.timestamps|, tStart, tEnd);
  }

  // ---------------------------------------------------------------------------------------------
  // A window that grows by one step, and windows outside the series

  /** Moving the end of the window from `t[k - 1]` to `t[k]` makes sample `k`, and no other
      sample, start to participate. */
  lemma GrowsAt(a: Aggregator, lo: int, k: nat, j: nat)
    requires Valid(a) && ConstantStep(a) && 0 < k < |a.timestamps| && j < |a.timestamps|
    requires lo < a.timestamps[k]
    ensures j != k ==> (Participates(a, j, lo, a.timestamps[k]) <==> Participates(a, j, lo, a.timestamps[k - 1]))
    ensures j == k ==> Participates(a, j, lo, a.timestamps[k]) && !Participates(a, j, lo, a.timestamps[k - 1])
    ensures j != k ==> (Contributes(a, j, lo, a.timestamps[k]) <==> Contributes(a, j, lo, a.timestamps[k - 1]))
    ensures j == k ==> (Contributes(a, j, lo, a.timestamps[k]) <==> a.values[k].Some?)
  {
    ContributionGrowsAt(a, lo, k, j);
    if j < k - 1 {
      StepOrder(a, j, k - 1);
    }
  }

  /** The part of `GrowsAt` that the qualifying list needs: which samples contribute, and that
      the samples after `k` still lie past the end of the window. */
  lemma ContributionGrowsAt(a: Aggregator, lo: int, k: nat, j: nat)
    requires Valid(a) && ConstantStep(a) && 0 < k < |a.timestamps| && j < |a.timestamps|
    requires lo < a.timestamps[k]
    ensures j != k ==> (Contributes(a, j, lo, a.timestamps[k]) <==> Contributes(a, j, lo, a.timestamps[k - 1]))
    ensures j > k ==> !Participates(a, j, lo, a.timestamps[k])
    ensures j == k ==> Participates(a, j, lo, a.timestamps[k]) && !Participates(a, j, lo, a.timestamps[k - 1])
    ensures j == k ==> (Contributes(a, j, lo, a.timestamps[k]) <==> a.values[k].Some?)
  {
    assert a.timestamps[k] == a.timestamps[k - 1] + a.step;
    if j < k - 1 {
      StepOrder(a, j, k - 1);
    } else if j > k {
      StepOrder(a, k, j);
    }
  }

  /** Moving the end of the window from `t[k - 1]` to `t[k]` adds sample `k`, and nothing else, to
      the samples that participate: the qualifying list gains its value at its index position. */
  lemma {:induction false} QualifyingUpToGrows(a: Aggregator, lo: int, k: nat, n: nat)
    requires Valid(a) && ConstantStep(a) && 0 < k < |a.timestamps| && n <= |a.timestamps|
    requires lo < a.timestamps[k]
    ensures QualifyingUpTo(a, n, lo, a.timestamps[k])
         == QualifyingUpTo(a, n, lo, a.timestamps[k - 1])
          + (if k < n && a.values[k].Some? then [a.values[k].value] else [])
  {
    if n > 0 {
      var j := n - 1;
      var tEnd, shorter := a.timestamps[k], a.timestamps[k - 1];
      QualifyingUpToGrows(a, lo, k, j);
      ContributionGrowsAt(a, lo, k, j);
      var grown := QualifyingUpTo(a, j, lo, tEnd);
      var shorterQ := QualifyingUpTo(a, j, lo, shorter);
      var extra := if k < n && a.values[k].Some? then [a.values[k].value] else [];
      if j < k {
        assert grown == shorterQ;
        assert extra == [];
      } else if j == k {
        assert grown == shorterQ;
        assert QualifyingUpTo(a, n, lo, shorter) == shorterQ;
      } else {
        assert !Contributes(a, j, lo, tEnd) && !Contributes(a, j, lo, shorter);
      }
    }
  }

  /** Growing the window by one step to take in a sample whose value is no smaller than the
      current 95th percentile cannot lower the percentile. */
  lemma PercentileOfGrowingWindow(a: Aggregator, lo: int, k: nat, v: real, w: real)
    requires Valid(a) && ConstantStep(a) && 0 < k < |a.timestamps| && lo < a.timestamps[k]
    requires a.values[k].Some? && a.values[k].value >= v
    requires Is95Percentile(Qualifying(a, lo, a.timestamps[k - 1]), v)
    requires Is95Percentile(Qualifying(a, lo, a.timestamps[k]), w)
    ensures v <= w
  {
    var q := Qualifying(a, lo, a.timestamps[k - 1]);
    var x := a.values[k].value;
    QualifyingUpToGrows(a, lo, k, |a.timestamps|);
    assert Qualifying(a, lo, a.timestamps[k]) == q + [x];
    PercentileGrowsWithLargerValue(q, q + [x], x, v, w);
  }

  /** A window that ends before the first validity interval begins, or starts after the last
      timestamp, has all six aggregates undefined and no qualifying value. */
  lemma WindowOutsideSeries(a: Aggregator, tStart: int, tEnd: int)
    requires Valid(a) && ConstantStep(a)
    requires tEnd <= a.timestamps[0] - a.step || a.timestamps[|a.timestamps| - 1] <= tStart
    ensures AggregatesOf(a, tStart, tEnd) == Undefined
    ensures Qualifying(a, tStart, tEnd) == []
  {
    var last := |a.timestamps| - 1;
    forall i | 0 <= i < |a.timestamps|
      ensures !Participates(a, i, tStart, tEnd)
    {
      if 0 < i {
        StepOrder(a, 0, i);
      }
      if i < last {
        StepOrder(a, i, last);
      }
    }
    NoParticipantWindow(a, tStart, tEnd);
  }

  // ---------------------------------------------------------------------------------------------
  // Splitting a window in two

  /** The non-negative part of an overlap. */
  function Positive(delta: int): nat {
    if delta > 0 then delta else 0
  }

  /** Splitting `[lo, hi]` at `mid` splits the overlap of every sample in two. */
  lemma OverlapSplits(a: Aggregator, i: nat, lo: int, mid: int, hi: int)
    requires i < |a.timestamps| && lo <= mid <= hi
    ensures Positive(Overlap(a, i, lo, hi)) == Positive(Overlap(a, i, lo, mid)) + Positive(Overlap(a, i, mid, hi))
    ensures Participates(a, i, lo, hi) <==> Participates(a, i, lo, mid) || Participates(a, i, mid, hi)
  {
  }

  /** What sample `k` adds to the covered seconds and to the weighted sum. */
  lemma SampleShare(a: Aggregator, k: nat, lo: int, hi: int)
    requires Valid(a) && k < |a.timestamps|
    ensures CoveredSeconds(a, k + 1, lo, hi) == CoveredSeconds(a, k, lo, hi)
      + (if a.values[k].Some? then Positive(Overlap(a, k, lo, hi)) else 0)
    ensures WeightedSum(a, k + 1, lo, hi) == WeightedSum(a, k, lo, hi)
      + (if a.values[k].Some? then Weighted(Positive(Overlap(a, k, lo, hi)), a.values[k].value) else 0.0)
  {
    if a.values[k].Some? && !Participates(a, k, lo, hi) {
      assert Weighted(0, a.values[k].value) == 0.0;
    }
  }

  /** The covered seconds of two adjacent windows add up to those of their union. */
  lemma {:induction false} AdjacentCoveredSeconds(a: Aggregator, n: nat, lo: int, mid: int, hi: int)
    requires Valid(a) && n <= |a.timestamps| && lo <= mid <= hi
    ensures CoveredSeconds(a, n, lo, hi) == CoveredSeconds(a, n, lo, mid) + CoveredSeconds(a, n, mid, hi)
  {
    if n > 0 {
      var k := n - 1;
      AdjacentCoveredSeconds(a, k, lo, mid, hi);
      OverlapSplits(a, k, lo, mid, hi);
      SampleShare(a, k, lo, hi);
      SampleShare(a, k, lo, mid);
      SampleShare(a, k, mid, hi);
    }
  }

  /** The weighted sums of two adjacent windows add up to that of their union. */
  lemma {:induction false} AdjacentWeightedSums(a: Aggregator, n: nat, lo: int, mid: int, hi: int)
    requires Valid(a) && n <= |a.timestamps| && lo <= mid <= hi
    ensures WeightedSum(a, n, lo, hi) == WeightedSum(a, n, lo, mid) + WeightedSum(a, n, mid, hi)
  {
    if n > 0 {
      var k := n - 1;
      AdjacentWeightedSums(a, k, lo, mid, hi);
      SampleShare(a, k, lo, hi);
      SampleShare(a, k, lo, mid);
      SampleShare(a, k, mid, hi);
      if a.values[k].Some? {
        OverlapSplits(a, k, lo, mid, hi);
        WeightedDistributes(Positive(Overlap(a, k, lo, hi)), Positive(Overlap(a, k, lo, mid)),
                            Positive(Overlap(a, k, mid, hi)), a.values[k].value);
      }
    }
  }

  lemma WeightedDistributes(d: int, d1: int, d2: int, v: real)
    requires d == d1 + d2
    ensures Weighted(d, v) == Weighted(d1, v) + Weighted(d2, v)
  {
  }

  /** A sample contributes to the union of two adjacent windows exactly when it contributes to one
      of them. */
  lemma ContributesSplits(a: Aggregator, lo: int, mid: int, hi: int)
    requires Valid(a) && lo <= mid <= hi
    ensures forall i :: 0 <= i < |a.timestamps| ==>
      (Contributes(a, i, lo, hi) <==> Contributes(a, i, lo, mid) || Contributes(a, i, mid, hi))
  {
    forall i | 0 <= i < |a.timestamps|
      ensures Contributes(a, i, lo, hi) <==> Contributes(a, i, lo, mid) || Contributes(a, i, mid, hi)
    {
      OverlapSplits(a, i, lo, mid, hi);
    }
  }

  /** MIN over the union of two adjacent windows is the missing-ignoring MIN of the two halves. */
  lemma AdjacentMin(a: Aggregator, lo: int, mid: int, hi: int)
    requires Valid(a) && lo <= mid <= hi
    ensures AggregatesOf(a, lo, hi).min == MinIgnoringMissing(AggregatesOf(a, lo, mid).min, AggregatesOf(a, mid, hi).min)
  {
    var n := |a.timestamps|;
    ContributesSplits(a, lo, mid, hi);
    ScanMinIsLeast(a, n, lo, hi);
    ScanMinIsLeast(a, n, lo, mid);
    ScanMinIsLeast(a, n, mid, hi);
  }

  /** MAX over the union of two adjacent windows is the missing-ignoring MAX of the two halves. */
  lemma AdjacentMax(a: Aggregator, lo: int, mid: int, hi: int)
    requires Valid(a) && lo <= mid <= hi
    ensures AggregatesOf(a, lo, hi).max == MaxIgnoringMissing(AggregatesOf(a, lo, mid).max, AggregatesOf(a, mid, hi).max)
  {
    var n := |a.timestamps|;
    ContributesSplits(a, lo, mid, hi);
    ScanMaxIsGreatest(a, n, lo, hi);
    ScanMaxIsGreatest(a, n, lo, mid);
    ScanMaxIsGreatest(a, n, mid, hi);
  }

  /** How the TOTALs of two windows combine, given their covered seconds and weighted sums. */
  lemma CombineTotals(t: Option<real>, c: int, w: real, t1: Option<real>, c1: int, w1: real,
                      t2: Option<real>, c2: int, w2: real)
    requires c1 >= 0 && c2 >= 0 && c == c1 + c2 && w == w1 + w2
    requires (c1 == 0 ==> w1 == 0.0) && (c2 == 0 ==> w2 == 0.0)
    requires t == (if c > 0 then Some(w) else None)
    requires t1 == (if c1 > 0 then Some(w1) else None) && t2 == (if c2 > 0 then Some(w2) else None)
    ensures t == SumIgnoringMissing(t1, t2)
  {
  }

  /** TOTAL over the union of two adjacent windows is the missing-ignoring sum of the two TOTALs. */
  lemma AdjacentTotal(a: Aggregator, lo: int, mid: int, hi: int)
    requires Valid(a) && lo <= mid <= hi
    ensures AggregatesOf(a, lo, hi).total == SumIgnoringMissing(AggregatesOf(a, lo, mid).total, AggregatesOf(a, mid, hi).total)
  {
    var n := |a.timestamps|;
    AverageIsWeightedMean(a, lo, hi);
    AverageIsWeightedMean(a, lo, mid);
    AverageIsWeightedMean(a, mid, hi);
    AdjacentCoveredSeconds(a, n, lo, mid, hi);
    AdjacentWeightedSums(a, n, lo, mid, hi);
    if CoveredSeconds(a, n, lo, mid) == 0 {
      assert WeightedSum(a, n, lo, mid) == 0.0;
    }
    if CoveredSeconds(a, n, mid, hi) == 0 {
      assert WeightedSum(a, n, mid, hi) == 0.0;
    }
    CombineTotals(AggregatesOf(a, lo, hi).total, CoveredSeconds(a, n, lo, hi), WeightedSum(a, n, lo, hi),
                  AggregatesOf(a, lo, mid).total, CoveredSeconds(a, n, lo, mid), WeightedSum(a, n, lo, mid),
                  AggregatesOf(a, mid, hi).total, CoveredSeconds(a, n, mid, hi), WeightedSum(a, n, mid, hi));
  }

  // ---------------------------------------------------------------------------------------------
  // The example in the commented-out `main` of `Aggregator.java`

  /** Timestamps 10, 20, 30, 40 (step 10) with values 2, NaN, 3, 1. */
  const Example := Aggregator([10, 20, 30, 40], [Some(2.0), None, Some(3.0), Some(1.0)], 10)

  /** Over the window [0, 40] every sample overlaps for 10 seconds: MIN 1, MAX 3, FIRST 2, LAST 1,
      TOTAL 2*10 + 3*10 + 1*10 = 60 over 30 covered seconds, AVERAGE 2. */
  lemma WorkedExample()
    ensures Valid(Example)
    ensures AggregatesOf(Example, 0, 40)
         == Aggregates(Some(1.0), Some(3.0), Some(2.0), Some(1.0), Some(2.0), Some(60.0))
  {
    var e := Example;
    assert Overlap(e, 0, 0, 40) == 10 && Overlap(e, 1, 0, 40) == 10;
    assert Overlap(e, 2, 0, 40) == 10 && Overlap(e, 3, 0, 40) == 10;
    assert Weighted(10, 2.0) == 20.0 && Weighted(10, 3.0) == 30.0 && Weighted(10, 1.0) == 10.0;
    var s1 := Scan(Aggregates(Some(2.0), Some(2.0), Some(2.0), Some(2.0), None, Some(20.0)), 10, true);
    var s2 := Scan(Aggregates(Some(2.0), Some(2.0), Some(2.0), None, None, Some(20.0)), 10, true);
    var s3 := Scan(Aggregates(Some(2.0), Some(3.0), Some(2.0), Some(3.0), None, Some(50.0)), 20, true);
    var s4 := Scan(Aggregates(Some(1.0), Some(3.0), Some(2.0), Some(1.0), None, Some(60.0)), 30, true);
    assert ScanStep(e, 0, 0, 40, Scan(Undefined, 0, false)) == s1;
    assert ScanUpTo(e, 1, 0, 40) == s1;
    assert ScanStep(e, 1, 0, 40, s1) == s2;
    assert ScanUpTo(e, 2, 0, 40) == s2;
    assert ScanStep(e, 2, 0, 40, s2) == s3;
    assert ScanUpTo(e, 3, 0, 40) == s3;
    assert ScanStep(e, 3, 0, 40, s3) == s4;
    assert ScanUpTo(e, 4, 0, 40) == s4;
  }

  /** In the same window the qualifying values are 2, 3, 1; one of the three is discarded, so
      2 is the one 95th percentile. */
  lemma WorkedExamplePercentile()
    ensures Qualifying(Example, 0, 40) == [2.0, 3.0, 1.0]
    ensures forall v :: Is95Percentile(Qualifying(Example, 0, 40), v) <==> v == 2.0
  {
    ExampleQualifying();
    var q := [2.0, 3.0, 1.0];
    assert Above(q, 2.0) == [3.0];
    assert Below(q, 2.0) == [1.0];
    assert Is95Percentile(q, 2.0);
    forall v | Is95Percentile(q, v)
      ensures v == 2.0
    {
      PercentileIsUnique(q, v, 2.0);
    }
  }

  /** The qualifying values of the example window, sample by sample. */
  lemma ExampleQualifying()
    ensures Qualifying(Example, 0, 40) == [2.0, 3.0, 1.0]
  {
    var e := Example;
    assert Overlap(e, 0, 0, 40) == 10 && Overlap(e, 1, 0, 40) == 10;
    assert Overlap(e, 2, 0, 40) == 10 && Overlap(e, 3, 0, 40) == 10;
    assert Contributes(e, 0, 0, 40) && !Contributes(e, 1, 0, 40);
    assert Contributes(e, 2, 0, 40) && Contributes(e, 3, 0, 40);
    assert QualifyingUpTo(e, 1, 0, 40) == [2.0];
    assert QualifyingUpTo(e, 2, 0, 40) == [2.0];
    assert QualifyingUpTo(e, 3, 0, 40) == [2.0, 3.0];
    assert QualifyingUpTo(e, 4, 0, 40) == [2.0, 3.0, 1.0];
  }
}
