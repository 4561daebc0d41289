/** The state of `SensorOperator` (app.py) as a value, and what one call of
    `signalUpdate` does to it. The class in sensor_operator.dfy is proved to
    follow these definitions; the lemmas here state what the source promises
    about single calls and about sequences of calls. */
module FilterEngine {
  import opened Samples

  /** Calls after the seeding one that the warm-up counter counts. */
  const WarmUpLimit := 50

  /** One entry of `is_type_active`: the `[active, counter]` pair. */
  datatype Activity = Activity(active: bool, counter: int)

  /** The fields of a `SensorOperator`. */
  datatype Engine = Engine(
    typeList: seq<SampleType>,
    isTypeActive: map<SampleType, Activity>,
    signalData: map<SampleType, map<Axis, real>>,
    alphaRatio: real,
    threshold: real)

  /** What every reachable engine satisfies: the ratio is a valid low-pass
      ratio, each seen type is recorded once and has a counter pair and one
      smoothed value per registered axis, the counter stays within
      [0, WarmUpLimit] and a type is only active with a full counter. */
  predicate WellFormed(e: Engine)
  {
    && 0.0 <= e.alphaRatio <= 1.0
    && (forall i, j :: 0 <= i < j < |e.typeList| ==> e.typeList[i] != e.typeList[j])
    && (forall t :: t in e.isTypeActive <==> t in e.typeList)
    && (forall t :: t in e.signalData <==> t in e.typeList)
    && (forall t :: t in e.isTypeActive ==>
          0 <= e.isTypeActive[t].counter <= WarmUpLimit
          && (e.isTypeActive[t].active ==> e.isTypeActive[t].counter == WarmUpLimit))
    && (forall t :: t in e.signalData ==> e.signalData[t].Keys == AxisSet(t))
  }

  /** A freshly constructed operator: nothing seen, ratio 1, threshold 0.2. */
  function Initial(): (e: Engine)
    ensures WellFormed(e)
    ensures e.typeList == [] && e.alphaRatio == 1.0 && e.threshold == 0.2
  {
    Engine([], map[], map[], 1.0, 0.2)
  }

  /** The exponential low-pass blend of a raw value into the previous smoothed one. */
  function Blend(alpha: real, raw: real, prev: real): real
  {
    alpha * raw + (1.0 - alpha) * prev
  }

  /** `v` lies on the closed segment between `a` and `b`. */
  predicate Between(v: real, a: real, b: real)
  {
    (a <= v <= b) || (b <= v <= a)
  }

  /** With a ratio in [0, 1] the blend never leaves the segment between the
      previous smoothed value and the raw value. */
  lemma BlendBetween(alpha: real, raw: real, prev: real)
    requires 0.0 <= alpha <= 1.0
    ensures Between(Blend(alpha, raw, prev), prev, raw)
  {
    var d := raw - prev;
    assert Blend(alpha, raw, prev) == prev + alpha * d;
    if d >= 0.0 {
      ScaleWithin(alpha, d);
    } else {
      ScaleWithin(alpha, -d);
      assert alpha * d == -(alpha * -d);
    }
  }

  /** A factor in [0, 1] shrinks a non-negative quantity without changing its sign. */
  lemma ScaleWithin(alpha: real, d: real)
    requires 0.0 <= alpha <= 1.0 && d >= 0.0
    ensures 0.0 <= alpha * d <= d
  {
    assert d - alpha * d == (1.0 - alpha) * d;
  }

  /** The warm-up step of every call after the seeding one: count up to the
      limit; only a call that finds the counter already full turns the type on. */
  function Advance(a: Activity): (b: Activity)
    ensures 0 <= a.counter <= WarmUpLimit ==> a.counter <= b.counter <= WarmUpLimit
    ensures a.counter < WarmUpLimit ==> b.counter == a.counter + 1 && b.active == a.active
    ensures b.active <==> a.active || a.counter == WarmUpLimit
  {
    if a.counter < WarmUpLimit then a.(counter := a.counter + 1)
    else if a.counter == WarmUpLimit then a.(active := true)
    else a
  }

  /** The alarm test of the filter loop over `names`: some axis not named
      Z whose value is strictly above the threshold (no absolute value). */
  function ThresholdPassed(names: seq<Axis>, values: map<Axis, real>, threshold: real): (passed: bool)
    requires forall i :: 0 <= i < |names| ==> names[i] in values
    ensures passed <==> exists i :: 0 <= i < |names| && names[i] != Z && values[names[i]] > threshold
  {
    if names == [] then false
    else if names[0] != Z && values[names[0]] > threshold then true
    else
      var rest := ThresholdPassed(names[1..], values, threshold);
      assert forall i :: 1 <= i < |names| ==> names[i] == names[1..][i - 1];
      rest
  }

  /** Scanning one more axis adds that axis's own test to the alarm. */
  lemma ThresholdPassedGrows(names: seq<Axis>, i: nat, values: map<Axis, real>, threshold: real)
    requires i < |names|
    requires forall k :: 0 <= k < |names| ==> names[k] in values
    ensures ThresholdPassed(names[..i + 1], values, threshold) ==
            (ThresholdPassed(names[..i], values, threshold) || (names[i] != Z && values[names[i]] > threshold))
  {
    assert forall k :: 0 <= k <= i ==> names[..i + 1][k] == names[k];
    assert forall k :: 0 <= k < i ==> names[..i][k] == names[k];
  }

  /** What `signalUpdate` returns: the new engine, the attribute values of the
      returned sample (the input object itself), and the alarm flag. */
  datatype Outcome = Outcome(engine: Engine, returned: map<Axis, real>, thresholdPassed: bool)

  /** The smoothed values of a later call: every registered axis blended. */
  function Smoothed(alpha: real, axes: set<Axis>, raw: map<Axis, real>, prev: map<Axis, real>): (s: map<Axis, real>)
    requires axes <= raw.Keys && axes <= prev.Keys
    ensures s.Keys == axes
  {
    map name | name in axes :: Blend(alpha, raw[name], prev[name])
  }

  /** `values` restricted to `names`. */
  function Project(values: map<Axis, real>, names: set<Axis>): (p: map<Axis, real>)
    requires names <= values.Keys
    ensures p.Keys == names
  {
    map name | name in names :: values[name]
  }

  /** The first call for a type: record it as `[False, 0]`, store its raw
      values as the smoothed ones, return the sample unchanged, no alarm. */
  function Seed(e: Engine, t: SampleType, raw: map<Axis, real>): (r: Outcome)
    requires t !in e.typeList
    requires AxisSet(t) <= raw.Keys
    ensures WellFormed(e) ==> WellFormed(r.engine)
    ensures r.engine.alphaRatio == e.alphaRatio && r.engine.threshold == e.threshold
    ensures r.engine.typeList == e.typeList + [t]
    ensures r.engine.isTypeActive == e.isTypeActive[t := Activity(false, 0)]
    ensures t in r.engine.signalData && r.engine.signalData == e.signalData[t := r.engine.signalData[t]]
    ensures r.engine.signalData[t].Keys == AxisSet(t)
    ensures forall name :: name in AxisSet(t) ==> r.engine.signalData[t][name] == raw[name]
    ensures r.returned == raw && !r.thresholdPassed
  {
    var seeded := Project(raw, AxisSet(t));
    var e' := e.(typeList := e.typeList + [t],
                 isTypeActive := e.isTypeActive[t := Activity(false, 0)],
                 signalData := e.signalData[t := seeded]);
    assert seeded.Keys == AxisSet(t);
    assert WellFormed(e) ==> WellFormed(e') by {
      if WellFormed(e) {
        SeedKeepsWellFormed(e, t, seeded);
      }
    }
    Outcome(e', raw, false)
  }

  /** `Seed` as one value. */
  lemma SeedResult(e: Engine, t: SampleType, raw: map<Axis, real>)
    requires t !in e.typeList
    requires AxisSet(t) <= raw.Keys
    ensures Seed(e, t, raw) == Outcome(e.(typeList := e.typeList + [t],
                                          isTypeActive := e.isTypeActive[t := Activity(false, 0)],
                                          signalData := e.signalData[t := Project(raw, AxisSet(t))]),
                                       raw, false)
  {
  }

  lemma SeedKeepsWellFormed(e: Engine, t: SampleType, seeded: map<Axis, real>)
    requires WellFormed(e) && t !in e.typeList
    requires seeded.Keys == AxisSet(t)
    ensures WellFormed(e.(typeList := e.typeList + [t],
                          isTypeActive := e.isTypeActive[t := Activity(false, 0)],
                          signalData := e.signalData[t := seeded]))
  {
  }

  /** Every later call for a type: advance the warm-up counter, blend every
      registered axis into its smoothed value, write it onto the sample, and
      raise the alarm if the type is active and a non-Z axis is above the
      threshold. */
  function Filter(e: Engine, t: SampleType, raw: map<Axis, real>): (r: Outcome)
    requires WellFormed(e) && t in e.typeList
    requires AxisSet(t) <= raw.Keys
    ensures WellFormed(r.engine)
    ensures r.engine.alphaRatio == e.alphaRatio && r.engine.threshold == e.threshold
    ensures r.engine.typeList == e.typeList
    ensures r.engine.isTypeActive == e.isTypeActive[t := Advance(e.isTypeActive[t])]
    ensures t in r.engine.signalData && r.engine.signalData == e.signalData[t := r.engine.signalData[t]]
    ensures r.returned.Keys == raw.Keys
  {
    var activity := Advance(e.isTypeActive[t]);
    var smoothed := Smoothed(e.alphaRatio, AxisSet(t), raw, e.signalData[t]);
    var e' := e.(isTypeActive := e.isTypeActive[t := activity],
                 signalData := e.signalData[t := smoothed]);
    FilterKeepsWellFormed(e, t, activity, smoothed);
    Outcome(e', raw + smoothed, activity.active && ThresholdPassed(SensorDataAttributes(t), smoothed, e.threshold))
  }

  /** `Filter` as one value: the advanced activity, the smoothed axes stored
      and written over the sample, and the flag. */
  lemma FilterResult(e: Engine, t: SampleType, raw: map<Axis, real>)
    requires WellFormed(e) && t in e.typeList
    requires AxisSet(t) <= raw.Keys
    ensures var smoothed := Smoothed(e.alphaRatio, AxisSet(t), raw, e.signalData[t]);
            var activity := Advance(e.isTypeActive[t]);
            Filter(e, t, raw) == Outcome(e.(isTypeActive := e.isTypeActive[t := activity], signalData := e.signalData[t := smoothed]),
                                         raw + smoothed,
                                         activity.active && ThresholdPassed(SensorDataAttributes(t), smoothed, e.threshold))
  {
  }

  lemma FilterKeepsWellFormed(e: Engine, t: SampleType, activity: Activity, smoothed: map<Axis, real>)
    requires WellFormed(e) && t in e.typeList
    requires activity == Advance(e.isTypeActive[t])
    requires smoothed.Keys == AxisSet(t)
    ensures WellFormed(e.(isTypeActive := e.isTypeActive[t := activity],
                          signalData := e.signalData[t := smoothed]))
  {
  }

  /** One call `signalUpdate(sample)` on a sample of type `t` whose attribute
      values are `raw`. What it does is stated by the lemmas below. */
  function SignalUpdate(e: Engine, t: SampleType, raw: map<Axis, real>): (r: Outcome)
    requires WellFormed(e)
    requires AxisSet(t) <= raw.Keys
    ensures WellFormed(r.engine)
    ensures t in r.engine.typeList
    ensures r.returned.Keys == raw.Keys
  {
    if t !in e.typeList then Seed(e, t, raw) else Filter(e, t, raw)
  }

  /** The first sample of a type records the type as inactive with a zero
      counter, seeds its smoothed values with the raw ones, is returned
      unfiltered and never raises the alarm. */
  lemma FirstCallSeeds(e: Engine, t: SampleType, raw: map<Axis, real>)
    requires WellFormed(e) && AxisSet(t) <= raw.Keys
    requires t !in e.typeList
    ensures var r := SignalUpdate(e, t, raw);
            && r.engine.typeList == e.typeList + [t]
            && r.engine.isTypeActive[t] == Activity(false, 0)
            && (forall name :: name in AxisSet(t) ==> r.engine.signalData[t][name] == raw[name])
            && r.returned == raw
            && !r.thresholdPassed
  {
    SeedResult(e, t, raw);
  }

  /** Every later sample advances the warm-up counter and blends every
      registered axis: the blend is both stored and written onto the sample,
      lies between the previous smoothed value and the raw one, and the
      sample's other attributes are left alone. */
  lemma LaterCallBlends(e: Engine, t: SampleType, raw: map<Axis, real>)
    requires WellFormed(e) && AxisSet(t) <= raw.Keys
    requires t in e.typeList
    ensures var r := SignalUpdate(e, t, raw);
            && r.engine.typeList == e.typeList
            && r.engine.isTypeActive[t] == Advance(e.isTypeActive[t])
            && (forall name :: name in raw && name !in AxisSet(t) ==> r.returned[name] == raw[name])
            && (forall name :: name in AxisSet(t) ==>
                  && r.returned[name] == r.engine.signalData[t][name]
                  && r.returned[name] == Blend(e.alphaRatio, raw[name], e.signalData[t][name])
                  && Between(r.returned[name], e.signalData[t][name], raw[name]))
  {
    FilterResult(e, t, raw);
    BlendAllBetween(e.alphaRatio, AxisSet(t), raw, e.signalData[t]);
  }

  /** The alarm: only a type already seen and active, and only when some
      smoothed axis other than Z is strictly above the threshold. */
  lemma AlarmCondition(e: Engine, t: SampleType, raw: map<Axis, real>)
    requires WellFormed(e) && AxisSet(t) <= raw.Keys
    ensures var r := SignalUpdate(e, t, raw);
            r.thresholdPassed <==>
              && t in e.typeList
              && r.engine.isTypeActive[t].active
              && exists name :: name in AxisSet(t) && name != Z && r.returned[name] > e.threshold
  {
    if t !in e.typeList {
      SeedResult(e, t, raw);
    } else {
      FilterResult(e, t, raw);
      var smoothed := Smoothed(e.alphaRatio, AxisSet(t), raw, e.signalData[t]);
      PassedIffSomeAxis(t, smoothed, raw + smoothed, e.threshold);
    }
  }

  /** The scan over the registered names of `t` finds exactly the non-Z axes
      above the threshold, whichever map (`values`, or `seen`, which agrees
      with it on those axes) the result is read from. */
  lemma PassedIffSomeAxis(t: SampleType, values: map<Axis, real>, seen: map<Axis, real>, threshold: real)
    requires AxisSet(t) <= values.Keys && AxisSet(t) <= seen.Keys
    requires forall name :: name in AxisSet(t) ==> seen[name] == values[name]
    ensures ThresholdPassed(SensorDataAttributes(t), values, threshold) <==>
            exists name :: name in AxisSet(t) && name != Z && seen[name] > threshold
  {
    var names := SensorDataAttributes(t);
    if exists name :: name in AxisSet(t) && name != Z && seen[name] > threshold {
      var name :| name in AxisSet(t) && name != Z && seen[name] > threshold;
      var i :| 0 <= i < |names| && names[i] == name;
      assert names[i] != Z && values[names[i]] > threshold;
    }
  }

  /** `signalUpdate` never changes the configuration, and every other sample
      type `u` keeps its membership, its counter pair and its smoothed values. */
  lemma OtherTypesUntouched(e: Engine, t: SampleType, raw: map<Axis, real>, u: SampleType)
    requires WellFormed(e)
    requires AxisSet(t) <= raw.Keys
    requires u != t
    ensures var r := SignalUpdate(e, t, raw).engine;
            && r.alphaRatio == e.alphaRatio && r.threshold == e.threshold
            && (u in r.typeList <==> u in e.typeList)
            && (u in e.typeList ==> r.isTypeActive[u] == e.isTypeActive[u] && r.signalData[u] == e.signalData[u])
  {
    if t !in e.typeList {
      assert Seed(e, t, raw).engine.typeList == e.typeList + [t];
      assert u in e.typeList + [t] <==> u in e.typeList;
    }
  }

  lemma BlendAllBetween(alpha: real, axes: set<Axis>, raw: map<Axis, real>, prev: map<Axis, real>)
    requires 0.0 <= alpha <= 1.0
    requires axes <= raw.Keys && axes <= prev.Keys
    ensures forall name :: name in axes ==> Between(Smoothed(alpha, axes, raw, prev)[name], prev[name], raw[name])
  {
    forall name | name in axes
      ensures Between(Smoothed(alpha, axes, raw, prev)[name], prev[name], raw[name])
    {
      BlendBetween(alpha, raw[name], prev[name]);
    }
  }

  /** One sample handed to the operator: its type and its attribute values. */
  datatype Reading = Reading(sampleType: SampleType, raw: map<Axis, real>)

  /** Every reading carries the attributes its type registers. */
  predicate Registered(trace: seq<Reading>)
  {
    forall i :: 0 <= i < |trace| ==> AxisSet(trace[i].sampleType) <= trace[i].raw.Keys
  }

  /** The engine after feeding it `trace`, one `signalUpdate` per reading. */
  function Run(e: Engine, trace: seq<Reading>): (r: Engine)
    requires WellFormed(e) && Registered(trace)
    ensures WellFormed(r)
    ensures r.alphaRatio == e.alphaRatio && r.threshold == e.threshold
    decreases |trace|
  {
    if trace == [] then e
    else
      var last := trace[|trace| - 1];
      SignalUpdate(Run(e, trace[..|trace| - 1]), last.sampleType, last.raw).engine
  }

  /** How many readings of `trace` are of type `t`. */
  function Calls(trace: seq<Reading>, t: SampleType): nat
  {
    if trace == [] then 0
    else Calls(trace[..|trace| - 1], t) + (if trace[|trace| - 1].sampleType == t then 1 else 0)
  }

  function Min(a: int, b: int): int
  {
    if a <= b then a else b
  }

  /** The counter pair of a type after its n-th call (n >= 1): the counter
      is min(n - 1, 50) and the type is active from call 52 on. */
  function Schedule(n: nat): Activity
  {
    Activity(n >= WarmUpLimit + 2, Min(n - 1, WarmUpLimit))
  }

  /** The warm-up schedule, whatever the values and whatever other types are
      interleaved: a type is recorded once it has been seen, and after its
      n-th call its counter pair is `Schedule(n)`. */
  lemma {:induction false} WarmUpSchedule(e: Engine, trace: seq<Reading>, t: SampleType)
    requires WellFormed(e) && Registered(trace) && t !in e.typeList
    ensures t in Run(e, trace).typeList <==> Calls(trace, t) > 0
    ensures Calls(trace, t) > 0 ==> Run(e, trace).isTypeActive[t] == Schedule(Calls(trace, t))
    decreases |trace|
  {
    if trace != [] {
      var prefix := trace[..|trace| - 1];
      var last := trace[|trace| - 1];
      assert Registered(prefix) by {
        forall i | 0 <= i < |prefix| ensures AxisSet(prefix[i].sampleType) <= prefix[i].raw.Keys {
          assert prefix[i] == trace[i];
        }
      }
      WarmUpSchedule(e, prefix, t);
      ScheduleStep(Run(e, prefix), last, t, Calls(prefix, t));
    }
  }

  /** One more reading moves the schedule of `t` on by one if it is of type
      `t`, and leaves it alone otherwise. */
  lemma ScheduleStep(before: Engine, last: Reading, t: SampleType, n: nat)
    requires WellFormed(before) && AxisSet(last.sampleType) <= last.raw.Keys
    requires t in before.typeList <==> n > 0
    requires n > 0 ==> before.isTypeActive[t] == Schedule(n)
    ensures var after := SignalUpdate(before, last.sampleType, last.raw).engine;
            var m := if last.sampleType == t then n + 1 else n;
            && (t in after.typeList <==> m > 0)
            && (m > 0 ==> after.isTypeActive[t] == Schedule(m))
  {
    if last.sampleType == t {
      WarmUpStep(before, t, last.raw, n);
    } else {
      OtherTypesUntouched(before, last.sampleType, last.raw, t);
    }
  }

  /** One more call of type `t`, the (n+1)-th, moves the schedule on by one. */
  lemma WarmUpStep(e: Engine, t: SampleType, raw: map<Axis, real>, n: nat)
    requires WellFormed(e) && AxisSet(t) <= raw.Keys
    requires t in e.typeList <==> n > 0
    requires n > 0 ==> e.isTypeActive[t] == Schedule(n)
    ensures var r := SignalUpdate(e, t, raw).engine;
            t in r.typeList && r.isTypeActive[t] == Schedule(n + 1)
  {
    if n == 0 {
      FirstCallSeeds(e, t, raw);
    } else {
      LaterCallBlends(e, t, raw);
      var a := e.isTypeActive[t];
      if n - 1 < WarmUpLimit {
        assert Advance(a) == Activity(false, n);
      } else {
        assert Advance(a) == Activity(true, WarmUpLimit);
      }
    }
  }

  /** Calls 1 to 51 of a type never raise the alarm, whatever the values. */
  lemma NoAlarmDuringWarmUp(e: Engine, trace: seq<Reading>, t: SampleType, raw: map<Axis, real>)
    requires WellFormed(e) && Registered(trace) && t !in e.typeList
    requires AxisSet(t) <= raw.Keys
    requires Calls(trace, t) + 1 <= WarmUpLimit + 1
    ensures !SignalUpdate(Run(e, trace), t, raw).thresholdPassed
  {
    WarmUpSchedule(e, trace, t);
    var before := Run(e, trace);
    AlarmCondition(before, t, raw);
    if t in before.typeList {
      LaterCallBlends(before, t, raw);
    }
  }

  /** From call 52 of a type on, the alarm is exactly "some non-z smoothed
      axis strictly above the threshold". */
  lemma AlarmOnceActive(e: Engine, trace: seq<Reading>, t: SampleType, raw: map<Axis, real>)
    requires WellFormed(e) && Registered(trace) && t !in e.typeList
    requires AxisSet(t) <= raw.Keys
    requires Calls(trace, t) + 1 >= WarmUpLimit + 2
    ensures var r := SignalUpdate(Run(e, trace), t, raw);
            r.thresholdPassed <==> exists name :: name in AxisSet(t) && name != Z && r.returned[name] > e.threshold
  {
    WarmUpSchedule(e, trace, t);
    var before := Run(e, trace);
    AlarmCondition(before, t, raw);
    LaterCallBlends(before, t, raw);
  }
}
