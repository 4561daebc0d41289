/** The start-up and the earthquake check of the main loop of app.py: the
    operator is configured once, and then every gyro reading either counts
    one more shaking reading or resets the count and mutes the buzzer. From
    the seventh shaking reading in a row on, the warning song plays. */
module QuakeMonitor {
  import opened FilterEngine
  import opened Conditioner

  /** The two gyro attributes the loop looks at. */
  datatype Tilt = Tilt(pitch: real, roll: real)

  /** A reading that counts as shaking: pitch or roll outside [-5, 5]. */
  predicate Shaking(g: Tilt)
  {
    g.pitch > 5.0 || g.pitch < -5.0 || g.roll > 5.0 || g.roll < -5.0
  }

  /** What one pass of the loop does to the buzzer: play the warning song,
      leave it as it is, or set its duty to 0. */
  datatype Action = WarningSong | Unchanged | BuzzerOff

  /** The number of shaking readings at the end of `readings`, uninterrupted. */
  function ShakingRun(readings: seq<Tilt>): (n: nat)
    ensures n <= |readings|
  {
    if readings == [] then 0
    else if Shaking(readings[|readings| - 1]) then ShakingRun(readings[..|readings| - 1]) + 1
    else 0
  }

  /** The run is at least `n` long exactly when the last `n` readings all shake. */
  lemma {:induction false} ShakingRunCounts(readings: seq<Tilt>, n: nat)
    requires n <= |readings|
    ensures ShakingRun(readings) >= n <==> forall j :: |readings| - n <= j < |readings| ==> Shaking(readings[j])
    decreases |readings|
  {
    if n > 0 {
      var prefix := readings[..|readings| - 1];
      ShakingRunCounts(prefix, n - 1);
      assert forall j :: |readings| - n <= j < |readings| - 1 ==> prefix[j] == readings[j];
    }
  }

  /** What the pass over reading `k` does, given the readings before it. */
  function ActionAt(readings: seq<Tilt>, k: nat): Action
    requires k < |readings|
  {
    if !Shaking(readings[k]) then BuzzerOff
    else if ShakingRun(readings[..k]) > 5 then WarningSong
    else Unchanged
  }

  /** The warning song plays on reading `k` exactly when it and the six
      readings before it all shake; the buzzer is muted exactly on a calm
      reading. */
  lemma SongAfterSevenShaking(readings: seq<Tilt>, k: nat)
    requires k < |readings|
    ensures ActionAt(readings, k) == WarningSong <==> k >= 6 && forall j :: k - 6 <= j <= k ==> Shaking(readings[j])
    ensures ActionAt(readings, k) == BuzzerOff <==> !Shaking(readings[k])
  {
    var prefix := readings[..k];
    if k >= 6 {
      ShakingRunCounts(prefix, 6);
      assert forall j :: k - 6 <= j < k ==> prefix[j] == readings[j];
    } else if Shaking(readings[k]) {
      assert ShakingRun(prefix) <= 5;
    }
  }

  /** The loop over a finite stretch of gyro readings: the count it ends
      with, and what it did to the buzzer on each pass. */
  method MonitorLoop(readings: seq<Tilt>) returns (depremCount: nat, actions: seq<Action>)
    ensures depremCount == ShakingRun(readings)
    ensures |actions| == |readings|
    ensures forall k :: 0 <= k < |readings| ==> actions[k] == ActionAt(readings, k)
  {
    depremCount := 0;
    actions := [];
    var i := 0;
    while i < |readings|
      invariant 0 <= i <= |readings|
      invariant depremCount == ShakingRun(readings[..i])
      invariant |actions| == i
      invariant forall k :: 0 <= k < i ==> actions[k] == ActionAt(readings, k)
    {
      var gyroData := readings[i];
      assert readings[..i + 1][..i] == readings[..i];
      if gyroData.pitch > 5.0 || gyroData.pitch < -5.0 || gyroData.roll > 5.0 || gyroData.roll < -5.0 {
        if depremCount > 5 {
          actions := actions + [WarningSong];
        } else {
          actions := actions + [Unchanged];
        }
        depremCount := depremCount + 1;
      } else {
        actions := actions + [BuzzerOff];
        depremCount := 0;
      }
      i := i + 1;
    }
    assert readings[..i] == readings;
  }

  /** The start-up of the program: an operator with low-pass ratio 0.05 and
      threshold 2 and nothing seen yet. */
  method Startup() returns (sensorOperator: SensorOperator)
    ensures fresh(sensorOperator) && sensorOperator.Valid()
    ensures sensorOperator.State() == Initial().(alphaRatio := 0.05, threshold := 2.0)
  {
    sensorOperator := new SensorOperator();
    var status := sensorOperator.SetLowPassRatio(0.05);
    sensorOperator.SetThreshold(2.0);
  }
}
