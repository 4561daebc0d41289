/** Multi-axis sensor samples (the `Gyro` and `Acceleration` classes of app.py)
    and the registry that names each sample type's axes. */
module Samples {

  /** The sample classes the signal conditioner knows; `type(sample)` in app.py. */
  datatype SampleType = GyroType | AccelerationType

  /** The attribute names the sample classes give their axes. */
  datatype Axis = Roll | Pitch | Yaw | X | Y | Z

  /** The registry `sensor_data_attributes`: the axis attribute names of each
      sample type, in the order the filter loop visits them. */
  function SensorDataAttributes(t: SampleType): (names: seq<Axis>)
    ensures |names| == 3
    ensures forall i, j :: 0 <= i < j < |names| ==> names[i] != names[j]
    ensures Z in names <==> t == AccelerationType
  {
    match t
    case GyroType => [Roll, Pitch, Yaw]
    case AccelerationType => [X, Y, Z]
  }

  /** The axes named in `names`, as a set. */
  function Listed(names: seq<Axis>): set<Axis>
  {
    set name | name in names
  }

  /** The registered axis names of a sample type, as a set. */
  function AxisSet(t: SampleType): set<Axis>
  {
    Listed(SensorDataAttributes(t))
  }

  /** A sample object. Its axis attributes are held by name, so that reading
      and writing them goes through the names the registry lists. */
  class Sample {
    const sampleType: SampleType
    var axes: map<Axis, real>

    /** A sample carries exactly the axes its type declares. */
    ghost predicate Valid()
      reads this
    {
      axes.Keys == AxisSet(sampleType)
    }

    constructor Gyro(roll: real, pitch: real, yaw: real)
      ensures Valid() && sampleType == GyroType
      ensures axes == map[Roll := roll, Pitch := pitch, Yaw := yaw]
    {
      sampleType := GyroType;
      axes := map[Roll := roll, Pitch := pitch, Yaw := yaw];
    }

    constructor Acceleration(x: real, y: real, z: real)
      ensures Valid() && sampleType == AccelerationType
      ensures axes == map[X := x, Y := y, Z := z]
    {
      sampleType := AccelerationType;
      axes := map[X := x, Y := y, Z := z];
    }

    /** Scales every axis of the sample in place by `multiplier`. */
    method Multiplier(multiplier: real)
      requires Valid()
      modifies this
      ensures Valid()
      ensures axes.Keys == old(axes.Keys)
      ensures forall name :: name in axes ==> axes[name] == old(axes[name]) * multiplier
    {
      var names := SensorDataAttributes(sampleType);
      axes := axes[names[0] := axes[names[0]] * multiplier];
      axes := axes[names[1] := axes[names[1]] * multiplier];
      axes := axes[names[2] := axes[names[2]] * multiplier];
    }
  }
}
