# Earthquake sensor signal conditioning, in Dafny

This project models the signal-conditioning core of `app.py`, the MicroPython
program of an ESP32 earthquake detector, and proves what it does.

- **Samples** (`samples.dfy`, module `Samples`): the `Gyro` and `Acceleration`
  sample objects, their in-place `multiplier`, and the registry
  `sensor_data_attributes` of axis names per sample type. One class `Sample`
  stands for both sample classes. Its axis attributes are a map from axis
  name to value, so the `getattr`/`setattr` by name of the source read and
  write that map.
- **SensorOperator as a value** (`filter_engine.dfy`, module `FilterEngine`):
  - the operator's five fields as an `Engine` value, and the invariant every
    reachable operator keeps (`WellFormed`);
  - one `signalUpdate` call as a function: `Seed` for the first sample of a
    type, `Filter` for every later one;
  - a sequence of calls (`Run`), and lemmas about single calls and about
    whole traces of calls: the warm-up schedule, the alarm rule, the blend
    and "other types untouched".
- **SensorOperator as an object** (`sensor_operator.dfy`, module
  `Conditioner`): the class with the same fields, updated in place. Its
  methods are proved to leave the object in exactly the state the functions
  above compute. The per-axis `for` loops are `CopyAxes` and `BlendAxes`.
- **MPU6050 register decode** (`mpu6050.dfy`, module `Mpu6050`): the
  arithmetic of `read_raw_data`, both as written and corrected, and the
  scaling to g and to gyro units over each of the two decodes.
- **Main loop** (`quake_monitor.dfy`, module `QuakeMonitor`): the start-up
  configuration (ratio 0.05, threshold 2) and the count of consecutive
  shaking gyro readings that drives the buzzer.

Axis values are `real`, so the blend `alpha * raw + (1 - alpha) * prev` is
exact. The two I2C byte reads of `read_raw_data` become parameters.

The warm-up follows the code. The first call for a type seeds it. The next
50 calls count from 0 to 50. Only a call that finds the counter already at
50 turns the type on, and that is the 52nd call. So no alarm is possible on
calls 1 to 51 (`NoAlarmDuringWarmUp`), and the alarm follows the values from
call 52 on (`AlarmOnceActive`), not from the 51st call one might expect
from a 50-call warm-up.

## Model

| member | source | states |
|---|---|---|
| Samples.SensorDataAttributes | app.py:43-46 | each sample type registers three distinct axis names; Z is registered exactly for acceleration samples |
| Samples.Sample.Gyro | app.py:9-13 | a gyro sample holds exactly roll, pitch and yaw, with the given values |
| Samples.Sample.Acceleration | app.py:21-25 | an acceleration sample holds exactly x, y and z, with the given values |
| Samples.Sample.Multiplier | app.py:15-30 | every axis is multiplied in place by the factor; the set of axes is unchanged |
| FilterEngine.Initial | app.py:34-46 | a new operator has seen no type, has ratio 1 and threshold 0.2, and satisfies the operator invariant |
| FilterEngine.Advance | app.py:71-74 | below 50 the counter grows by exactly 1 with the flag unchanged; it stays within [0, 50]; the result is active iff it was active or the counter was already 50 |
| FilterEngine.BlendBetween | app.py:77-78 | with a ratio in [0, 1] the blended value lies between the previous smoothed value and the raw one |
| FilterEngine.BlendAllBetween | app.py:76-79 | every smoothed axis of a later call lies between its previous smoothed value and its raw value |
| FilterEngine.ThresholdPassed | app.py:81-83 | the scan over the axis names is true iff some name other than Z has a value strictly above the threshold |
| FilterEngine.ThresholdPassedGrows | app.py:76-83 | scanning one more axis ORs that axis's own test into the flag |
| FilterEngine.Smoothed | app.py:76-79 | the smoothed values of a later call cover exactly the registered axes |
| FilterEngine.Project | app.py:66-67 | the values copied on the first call cover exactly the registered axes |
| FilterEngine.Seed | app.py:62-68 | a first call keeps the invariant and the configuration, appends the type, records it as [False, 0], stores the raw values as smoothed ones, changes no other type, returns the sample unchanged and raises no alarm |
| FilterEngine.Filter | app.py:70-83 | a later call keeps the invariant, the configuration and the seen-list, advances only this type's counter pair and changes only this type's smoothed values |
| FilterEngine.SignalUpdate | app.py:56-85 | any call keeps the operator invariant, leaves the type recorded as seen and returns a sample with the same attributes |
| FilterEngine.FirstCallSeeds | app.py:58-68 | the first sample of a type records [False, 0], stores its raw values as smoothed ones, is returned unchanged and raises no alarm |
| FilterEngine.LaterCallBlends | app.py:70-80 | a later sample advances the counter pair; each registered axis becomes alpha * raw + (1 - alpha) * prev, is stored and written onto the sample, and lies between prev and raw; other attributes are left alone |
| FilterEngine.AlarmCondition | app.py:58-83 | the alarm is raised iff the type was already seen, is active after the call, and some returned axis other than Z is strictly above the threshold |
| FilterEngine.PassedIffSomeAxis | app.py:81-83 | the loop's flag is exactly "some registered non-Z axis strictly above the threshold", read from the smoothed or the returned values |
| FilterEngine.OtherTypesUntouched | app.py:62-80 | a call never changes the ratio or the threshold, nor any other type's membership, counter pair or smoothed values |
| FilterEngine.Run | app.py:56-85 | any sequence of calls keeps the operator invariant and never changes the configuration |
| FilterEngine.WarmUpSchedule | app.py:62-74 | over any trace, whatever other types are interleaved, a type is recorded iff it has been seen, and after its n-th call its counter is min(n - 1, 50) and it is active iff n >= 52 |
| FilterEngine.ScheduleStep | app.py:62-74 | one more reading moves a type's schedule on by one if it is of that type, and leaves it alone otherwise |
| FilterEngine.WarmUpStep | app.py:62-74 | the (n+1)-th call of a type moves its counter pair from the n-th step of the schedule to the next |
| FilterEngine.NoAlarmDuringWarmUp | app.py:71-83 | calls 1 to 51 of a type never raise the alarm, whatever the values |
| FilterEngine.AlarmOnceActive | app.py:71-83 | from call 52 of a type on, the alarm is raised iff some returned non-Z axis is strictly above the threshold |
| Conditioner.SensorOperator.constructor | app.py:34-46 | the new operator is in the initial state and satisfies the invariant |
| Conditioner.SensorOperator.SetLowPassRatio | app.py:48-51 | a ratio in [0, 1], endpoints included, is stored; any other raises the ValueError with its message and changes nothing |
| Conditioner.SensorOperator.SetThreshold | app.py:53-54 | any threshold is stored and nothing else changes |
| Conditioner.SensorOperator.SignalUpdate | app.py:56-85 | the object's new fields, the sample's new attributes and the flag are exactly those of FilterEngine.SignalUpdate; the sample object itself is returned; the invariant is kept |
| Conditioner.SensorOperator.Register | app.py:62-68 | the in-place first call leaves the fields and the sample exactly as FilterEngine.Seed says |
| Conditioner.SensorOperator.Smooth | app.py:70-83 | the in-place later call leaves the fields, the sample and the flag exactly as FilterEngine.Filter says |
| Conditioner.SensorOperator.WarmUp | app.py:71-74 | only this type's counter pair changes, and it becomes FilterEngine.Advance of the old one |
| Conditioner.SensorOperator.SeedAxes | app.py:65-68 | the type's smoothed values become the sample's registered values; the sample is unchanged |
| Conditioner.SensorOperator.FilterAxes | app.py:76-83 | the type's smoothed values become the blends, the sample gets them written over its registered axes, and the flag is the active flag and the threshold scan |
| Conditioner.CopyAxes | app.py:66-68 | the copy loop returns the sample's values unchanged and the raw values of exactly the registered axes |
| Conditioner.BlendAxes | app.py:76-83 | the filter loop returns the blends of exactly the registered axes, the sample's values overwritten with them, and a flag equal to "active and some non-Z blend above the threshold" |
| Conditioner.BlendStep | app.py:76-83 | one pass of the filter loop extends the blended prefix by one axis and ORs that axis's test into the flag |
| Mpu6050.ReadRawDataRange | app.py:107-112 | the decode as written yields a value in [-32767, 32768], congruent to the word modulo 65536, and equal to the word exactly for words up to 0x8000 |
| Mpu6050.SignedValue | app.py:107-112 | the two's-complement decode yields a value in [-32768, 32768), congruent to the word modulo 65536, negative iff the high byte has its top bit set |
| Mpu6050.Encode | app.py:107 | the bytes of a signed 16-bit value form its two's-complement word |
| Mpu6050.DecodeEncode | app.py:107-112 | decoding the encoded bytes of any 16-bit signed value gives it back |
| Mpu6050.EncodeDecode | app.py:107-112 | encoding the decoded value of any byte pair gives the bytes back |
| Mpu6050.ReadRawDataAgrees | app.py:110-111 | the decode as written agrees with the two's-complement decode on every byte pair except 0x80 0x00 |
| Mpu6050.MostNegativeReadingMisdecoded | app.py:110-111 | the register holding -32768 (bytes 0x80 0x00) is decoded as +32768 by the code as written |
| Mpu6050.AccelerationValue | app.py:115-117 | an acceleration axis is the as-written decode over 16384, within [-32767/16384, 2] g |
| Mpu6050.GyroValue | app.py:122-124 | a gyro axis is the as-written decode over 250, within [-131.068, 131.072] |
| Mpu6050.SignedAccelerationValue | app.py:115-117 | corrected: the two's-complement decode over 16384, within [-2, 2) g |
| Mpu6050.SignedGyroValue | app.py:122-124 | corrected: the two's-complement decode over 250, within [-131.072, 131.072) |
| Mpu6050.ScaledReadingsAgree | app.py:115-124 | the as-written and corrected scaled axes agree on every byte pair except 0x80 0x00 |
| Mpu6050.MostNegativeScaledReading | app.py:115-124 | bytes 0x80 0x00 are read as +2 g and +131.072, where the two's-complement reading gives -2 g and -131.072 |
| QuakeMonitor.ShakingRun | app.py:260-268 | the count of consecutive shaking readings never exceeds the number of readings |
| QuakeMonitor.ShakingRunCounts | app.py:262-268 | the count is at least n iff the last n readings all shake |
| QuakeMonitor.SongAfterSevenShaking | app.py:260-268 | the warning song plays on a reading iff it and the six before it all shake; the buzzer is muted exactly on a calm reading |
| QuakeMonitor.MonitorLoop | app.py:212-268 | the loop ends with the count of trailing shaking readings and does on each pass what ActionAt says |
| QuakeMonitor.Startup | app.py:202-204 | the configured operator has ratio 0.05, threshold 2 and has seen nothing |

## Left out

- The I2C transfers of `MPU6050.__init__` and `read_raw_data`: the two bytes read are parameters of the decode.
- `Station`, `get_time`, the Firebase upload and `client.py`/`server.py`: network I/O with no logic of the core.
- `warning_song`, the PWM buzzer, the LDR reads and LEDs, and `time.sleep`: hardware I/O. The main loop is modelled only as the shaking count and the action it takes on each reading (`QuakeMonitor.Action`).
- Floating point: axis values are `real`, so no rounding is modelled.
- Samples of a type outside the registry: the source would record the type and then fail with a `KeyError` before the loop. The model has only the two registered sample types, so this partial update cannot arise. The update is not claimed to be atomic beyond that.
- Interruption of a call part-way through: the in-place methods are proved about the state after a whole call.
- Conditioner.SensorOperator.SignalUpdate: the sample's attributes are read and written through a local copy of its attribute map inside the loops, which is written back at the end of the loop. Nothing else can observe the sample in between, so the end state is the same.
- QuakeMonitor.MonitorLoop: models the loop of app.py:221-270 with the upload block of app.py:272-324 and its guard removed, over any finite sequence of gyro readings. As written, that guard calls `station.isconnected()`, which `Station` (app.py:127-151) does not define, so the first pass would end in an uncaught `AttributeError` after one gyro reading (if `connect` has not already hung in its wait at app.py:139). The model does not capture this.
- The configured operator is never called in the main loop. The model keeps it this way: `Startup` and `MonitorLoop` are independent.

## Findings

| source | as written | input that shows it | evidently intended | confidence | as-written member | corrected member |
|---|---|---|---|---|---|---|
| app.py:110 | a word is made negative only when it is strictly above 32768 | high byte 0x80, low byte 0x00 (the register value -32768) decodes to +32768 | a word of 32768 or more is made negative, giving -32768 | not executed | Mpu6050.MostNegativeReadingMisdecoded | Mpu6050.DecodeEncode |
| app.py:115 | the acceleration axes divide the as-written decode by 16384 | high byte 0x80, low byte 0x00 reads as +2 g | -2 g, within the sensor's [-2, 2) g range | not executed | Mpu6050.MostNegativeScaledReading | Mpu6050.SignedAccelerationValue |
| app.py:122 | the gyro axes divide the as-written decode by 250 | high byte 0x80, low byte 0x00 reads as +131.072 | -131.072, within [-131.072, 131.072) | not executed | Mpu6050.MostNegativeScaledReading | Mpu6050.SignedGyroValue |
