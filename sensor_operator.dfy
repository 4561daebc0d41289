/** The `SensorOperator` class of app.py: global low-pass ratio and alarm
    threshold, and per sample type a seen-list entry, an `[active, counter]`
    pair and a dictionary of smoothed axis values, all updated in place. */
module Conditioner {
  import opened Samples
  import opened FilterEngine

  /** The outcome of a setter: success, or the `ValueError` it raises. */
  datatype Status = Ok | ValueError(message: string)

  class SensorOperator {
    var typeList: seq<SampleType>
    var isTypeActive: map<SampleType, Activity>
    var signalData: map<SampleType, map<Axis, real>>
    var alphaRatio: real
    var threshold: real

    /** The operator's fields as an engine value. */
    function State(): Engine
      reads this
    {
      Engine(typeList, isTypeActive, signalData, alphaRatio, threshold)
    }

    ghost predicate Valid()
      reads this
    {
      WellFormed(State())
    }

    constructor ()
      ensures Valid() && State() == Initial()
    {
      typeList := [];
      isTypeActive := map[];
      signalData := map[];
      alphaRatio := 1.0;
      threshold := 0.2;
    }

    /** Sets the low-pass ratio; a ratio outside [0, 1] is refused with a
        `ValueError` and leaves the operator as it was. */
    method SetLowPassRatio(lowPassRatio: real) returns (status: Status)
      requires Valid()
      modifies this
      ensures Valid()
      ensures status.Ok? <==> 0.0 <= lowPassRatio <= 1.0
      ensures status.ValueError? ==> status.message == "Low-pass ratio must be in the range of [0:1]"
      ensures State() == if status.Ok? then old(State()).(alphaRatio := lowPassRatio) else old(State())
    {
      if lowPassRatio < 0.0 || lowPassRatio > 1.0 {
        return ValueError("Low-pass ratio must be in the range of [0:1]");
      }
      alphaRatio := lowPassRatio;
      status := Ok;
    }

    /** Sets the alarm threshold; any value is accepted. */
    method SetThreshold(newThreshold: real)
      requires Valid()
      modifies this
      ensures Valid()
      ensures State() == old(State()).(threshold := newThreshold)
    {
      threshold := newThreshold;
    }

    /** Filters one sample in place and reports whether it passed the
        threshold. The sample object itself is returned, its registered
        attributes overwritten with the smoothed values. */
    method SignalUpdate(sensorData: Sample) returns (returnData: Sample, isThresholdPassed: bool)
      requires Valid() && sensorData.Valid()
      modifies this, sensorData
      ensures returnData == sensorData
      ensures var r := FilterEngine.SignalUpdate(old(State()), sensorData.sampleType, old(sensorData.axes));
              State() == r.engine && sensorData.axes == r.returned && isThresholdPassed == r.thresholdPassed
      ensures Valid() && sensorData.Valid()
    {
      returnData := sensorData;
      if sensorData.sampleType !in typeList {
        Register(sensorData);
        isThresholdPassed := false;
      } else {
        isThresholdPassed := Smooth(sensorData);
      }
    }

    /** The first call for a type: record it, unseen so far, as inactive with
        a zero counter and seed its smoothed values with the sample's own. */
    method Register(sensorData: Sample)
      requires sensorData.Valid()
      requires sensorData.sampleType !in typeList
      modifies this, sensorData`axes
      ensures Outcome(State(), sensorData.axes, false) == Seed(old(State()), sensorData.sampleType, old(sensorData.axes))
    {
      var sensorDataType := sensorData.sampleType;
      ghost var e := State();
      ghost var raw := sensorData.axes;
      SeedResult(e, sensorDataType, raw);
      isTypeActive := isTypeActive[sensorDataType := Activity(false, 0)];
      typeList := typeList + [sensorDataType];
      signalData := signalData[sensorDataType := map[]];
      SeedAxes(sensorData);
      assert signalData == e.signalData[sensorDataType := Project(raw, AxisSet(sensorDataType))];
    }

    /** Every later call for a type: advance its warm-up, then blend the
        sample into its smoothed values and test the threshold. */
    method Smooth(sensorData: Sample) returns (isThresholdPassed: bool)
      requires Valid() && sensorData.Valid()
      requires sensorData.sampleType in typeList
      modifies this, sensorData`axes
      ensures Outcome(State(), sensorData.axes, isThresholdPassed) == Filter(old(State()), sensorData.sampleType, old(sensorData.axes))
    {
      var sensorDataType := sensorData.sampleType;
      ghost var e := State();
      WarmUp(sensorDataType);
      isThresholdPassed := FilterAxes(sensorData);
      FilterResult(e, sensorDataType, old(sensorData.axes));
    }

    /** The warm-up step of a later call: count up to the limit, and turn the
        type on once a call finds the counter full. */
    method WarmUp(sensorDataType: SampleType)
      requires sensorDataType in isTypeActive
      modifies this`isTypeActive
      ensures isTypeActive == old(isTypeActive)[sensorDataType := Advance(old(isTypeActive[sensorDataType]))]
    {
      var activity := isTypeActive[sensorDataType];
      if activity.counter < WarmUpLimit {
        isTypeActive := isTypeActive[sensorDataType := activity.(counter := activity.counter + 1)];
      } else if activity.counter == WarmUpLimit {
        isTypeActive := isTypeActive[sensorDataType := activity.(active := true)];
      }
    }

    /** The loop of the first call for a type: copy every registered
        attribute of the sample into the type's (empty) smoothed dictionary,
        and write it back onto the sample unchanged. */
    method SeedAxes(sensorData: Sample)
      requires sensorData.Valid()
      requires sensorData.sampleType in signalData && signalData[sensorData.sampleType] == map[]
      modifies this`signalData, sensorData`axes
      ensures sensorData.axes == old(sensorData.axes)
      ensures signalData == old(signalData)[sensorData.sampleType := Project(sensorData.axes, AxisSet(sensorData.sampleType))]
    {
      var sensorDataType := sensorData.sampleType;
      var axes, seeded := CopyAxes(SensorDataAttributes(sensorDataType), sensorData.axes);
      signalData := signalData[sensorDataType := seeded];
      sensorData.axes := axes;
    }

    /** The loop of every later call for a type: blend each registered axis
        into its smoothed value, store it, write it onto the sample, and flag
        an axis not named `z` above the threshold while the type is active. */
    method FilterAxes(sensorData: Sample) returns (isThresholdPassed: bool)
      requires sensorData.Valid()
      requires sensorData.sampleType in signalData && sensorData.sampleType in isTypeActive
      requires signalData[sensorData.sampleType].Keys == AxisSet(sensorData.sampleType)
      modifies this`signalData, sensorData`axes
      ensures signalData == old(signalData)[sensorData.sampleType := Smoothed(alphaRatio, AxisSet(sensorData.sampleType), old(sensorData.axes), old(signalData[sensorData.sampleType]))]
      ensures sensorData.axes == old(sensorData.axes) + Smoothed(alphaRatio, AxisSet(sensorData.sampleType), old(sensorData.axes), old(signalData[sensorData.sampleType]))
      ensures isThresholdPassed == (isTypeActive[sensorData.sampleType].active && ThresholdPassed(SensorDataAttributes(sensorData.sampleType), Smoothed(alphaRatio, AxisSet(sensorData.sampleType), old(sensorData.axes), old(signalData[sensorData.sampleType])), threshold))
    {
      var sensorDataType := sensorData.sampleType;
      var axes, filtered;
      axes, filtered, isThresholdPassed := BlendAxes(SensorDataAttributes(sensorDataType), sensorData.axes, signalData[sensorDataType],
                                                     alphaRatio, isTypeActive[sensorDataType].active, threshold);
      signalData := signalData[sensorDataType := filtered];
      sensorData.axes := axes;
    }
  }

  /** The seeding loop over the registered names `keys` of a type: copy
      each raw value into the new smoothed dictionary and write it back onto
      the sample unchanged. */
  method CopyAxes(keys: seq<Axis>, raw: map<Axis, real>) returns (axes: map<Axis, real>, seeded: map<Axis, real>)
    requires Listed(keys) <= raw.Keys
    ensures axes == raw
    ensures seeded == Project(raw, Listed(keys))
  {
    axes, seeded := raw, map[];
    assert Listed(keys[..0]) == {};
    for i := 0 to |keys|
      invariant axes == raw
      invariant seeded == Project(raw, Listed(keys[..i]))
    {
      var key := keys[i];
      ProjectGrows(raw, keys, i);
      seeded := seeded[key := axes[key]];
      axes := axes[key := axes[key]];
    }
    assert keys[..|keys|] == keys;
  }

  /** The filter loop over the registered names `keys` of a type: blend each
      raw value into the previous smoothed one, and flag a non-Z axis above
      the threshold while the type is active. Returns the sample's new
      attributes, the new smoothed values and the flag. */
  method BlendAxes(keys: seq<Axis>, raw: map<Axis, real>, prev: map<Axis, real>, alpha: real, active: bool, threshold: real)
    returns (axes: map<Axis, real>, filtered: map<Axis, real>, isThresholdPassed: bool)
    requires forall j, k :: 0 <= j < k < |keys| ==> keys[j] != keys[k]
    requires raw.Keys == prev.Keys == Listed(keys)
    ensures filtered == Smoothed(alpha, Listed(keys), raw, prev)
    ensures axes == raw + filtered
    ensures isThresholdPassed == (active && ThresholdPassed(keys, filtered, threshold))
  {
    isThresholdPassed := false;
    axes, filtered := raw, prev;
    ghost var smoothed := Smoothed(alpha, Listed(keys), raw, prev);
    BlendStart(keys, raw, prev, smoothed, alpha, active, threshold);
    for i := 0 to |keys|
      invariant Blending(keys, i, raw, prev, smoothed, alpha, active, threshold, axes, filtered, isThresholdPassed)
    {
      var key := keys[i];
      BlendStep(keys, i, raw, prev, smoothed, alpha, active, threshold, axes, filtered, isThresholdPassed);
      var lowPassAppliedKeyValue := Blend(alpha, axes[key], filtered[key]);
      ghost var passed := isThresholdPassed || (key != Z && active && lowPassAppliedKeyValue > threshold);
      filtered := filtered[key := lowPassAppliedKeyValue];
      axes := axes[key := lowPassAppliedKeyValue];
      if key != Z {
        if active && lowPassAppliedKeyValue > threshold {
          isThresholdPassed := true;
        }
      }
      assert isThresholdPassed == passed;
    }
    BlendEnd(keys, raw, prev, smoothed, alpha, active, threshold, axes, filtered, isThresholdPassed);
  }

  /** The state of the filter loop before `keys[i]`: the axes before it
      already hold their smoothed values, on the sample and in the smoothed
      dictionary, and the flag covers exactly them. */
  ghost predicate Blending(keys: seq<Axis>, i: nat, raw: map<Axis, real>, prev: map<Axis, real>, smoothed: map<Axis, real>,
                           alpha: real, active: bool, threshold: real,
                           axes: map<Axis, real>, filtered: map<Axis, real>, isThresholdPassed: bool)
  {
    && i <= |keys|
    && (forall j, k :: 0 <= j < k < |keys| ==> keys[j] != keys[k])
    && raw.Keys == prev.Keys == Listed(keys)
    && smoothed == Smoothed(alpha, Listed(keys), raw, prev)
    && axes == Overlay(raw, smoothed, keys[..i])
    && filtered == Overlay(prev, smoothed, keys[..i])
    && isThresholdPassed == (active && ThresholdPassed(keys[..i], smoothed, threshold))
  }

  lemma BlendStart(keys: seq<Axis>, raw: map<Axis, real>, prev: map<Axis, real>, smoothed: map<Axis, real>,
                   alpha: real, active: bool, threshold: real)
    requires forall j, k :: 0 <= j < k < |keys| ==> keys[j] != keys[k]
    requires raw.Keys == prev.Keys == Listed(keys)
    requires smoothed == Smoothed(alpha, Listed(keys), raw, prev)
    ensures Blending(keys, 0, raw, prev, smoothed, alpha, active, threshold, raw, prev, false)
  {
    OverlayNone(raw, smoothed);
    OverlayNone(prev, smoothed);
  }

  lemma BlendEnd(keys: seq<Axis>, raw: map<Axis, real>, prev: map<Axis, real>, smoothed: map<Axis, real>,
                 alpha: real, active: bool, threshold: real,
                 axes: map<Axis, real>, filtered: map<Axis, real>, isThresholdPassed: bool)
    requires Blending(keys, |keys|, raw, prev, smoothed, alpha, active, threshold, axes, filtered, isThresholdPassed)
    ensures filtered == smoothed == Smoothed(alpha, Listed(keys), raw, prev)
    ensures axes == raw + smoothed
    ensures isThresholdPassed == (active && ThresholdPassed(keys, smoothed, threshold))
  {
    OverlayAll(raw, prev, smoothed, keys);
  }

  /** One pass of the filter loop, at `keys[i]`, moves its state on to
      `keys[..i + 1]`. */
  lemma BlendStep(keys: seq<Axis>, i: nat, raw: map<Axis, real>, prev: map<Axis, real>, smoothed: map<Axis, real>,
                  alpha: real, active: bool, threshold: real,
                  axes: map<Axis, real>, filtered: map<Axis, real>, isThresholdPassed: bool)
    requires i < |keys|
    requires Blending(keys, i, raw, prev, smoothed, alpha, active, threshold, axes, filtered, isThresholdPassed)
    ensures keys[i] in axes && keys[i] in filtered
    ensures var v := Blend(alpha, axes[keys[i]], filtered[keys[i]]);
            Blending(keys, i + 1, raw, prev, smoothed, alpha, active, threshold,
                     axes[keys[i] := v], filtered[keys[i] := v], isThresholdPassed || (keys[i] != Z && active && v > threshold))
  {
    OverlayStep(raw, smoothed, keys, i);
    OverlayStep(prev, smoothed, keys, i);
    ThresholdPassedGrows(keys, i, smoothed, threshold);
    assert Blend(alpha, axes[keys[i]], filtered[keys[i]]) == smoothed[keys[i]];
  }

  /** `base` with the axes listed in `names` taken from `top`. */
  function Overlay(base: map<Axis, real>, top: map<Axis, real>, names: seq<Axis>): map<Axis, real>
  {
    map name | name in base :: if name in names && name in top then top[name] else base[name]
  }

  lemma ProjectGrows(raw: map<Axis, real>, keys: seq<Axis>, i: nat)
    requires i < |keys| && Listed(keys) <= raw.Keys
    ensures Project(raw, Listed(keys[..i + 1])) == Project(raw, Listed(keys[..i]))[keys[i] := raw[keys[i]]]
  {
    assert Listed(keys[..i + 1]) == Listed(keys[..i]) + {keys[i]} by {
      assert keys[..i + 1] == keys[..i] + [keys[i]];
    }
  }

  /** One step of the filter loop: the axis about to be written still holds
      its value in `base`, and writing its value from `top` extends the
      overlay by that axis. */
  lemma OverlayStep(base: map<Axis, real>, top: map<Axis, real>, keys: seq<Axis>, i: nat)
    requires i < |keys|
    requires forall j, k :: 0 <= j < k < |keys| ==> keys[j] != keys[k]
    requires base.Keys == top.Keys
    requires keys[i] in base
    ensures keys[i] !in keys[..i]
    ensures Overlay(base, top, keys[..i])[keys[i]] == base[keys[i]]
    ensures Overlay(base, top, keys[..i + 1]) == Overlay(base, top, keys[..i])[keys[i] := top[keys[i]]]
  {
    var before, after := keys[..i], keys[..i + 1];
    assert after == before + [keys[i]];
    assert keys[i] !in before by {
      forall k | 0 <= k < i
        ensures before[k] != keys[i]
      {
        assert before[k] == keys[k];
      }
    }
    var m, m' := Overlay(base, top, before), Overlay(base, top, after);
    assert m'.Keys == m.Keys == base.Keys;
    forall name | name in base
      ensures m'[name] == m[keys[i] := top[keys[i]]][name]
    {
      assert name in after <==> name in before || name == keys[i];
    }
  }

  lemma OverlayNone(base: map<Axis, real>, top: map<Axis, real>)
    ensures Overlay(base, top, []) == base
  {
  }

  lemma OverlayAll(raw: map<Axis, real>, prev: map<Axis, real>, smoothed: map<Axis, real>, keys: seq<Axis>)
    requires raw.Keys >= Listed(keys) && prev.Keys == smoothed.Keys == Listed(keys)
    ensures keys[..|keys|] == keys
    ensures Overlay(prev, smoothed, keys) == smoothed
    ensures Overlay(raw, smoothed, keys) == raw + smoothed
  {
  }
}
