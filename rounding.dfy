/**
  The unit conversion and rounding that SpeedTestRunner.cs applies to measured
  values: `Math.Round(speed / 1024, 2)` for speeds and `Math.Round(distance)`
  for the server distance. Both use .NET's default midpoint rule, round half to
  even. Values are exact reals here, not IEEE doubles.
*/
module Rounding {

  /** Nearest integer, ties to the even neighbour (`MidpointRounding.ToEven`). */
  function RoundHalfToEven(x: real): (n: int)
    ensures x - 0.5 <= n as real <= x + 0.5
    ensures (n as real == x - 0.5 || n as real == x + 0.5) ==> n % 2 == 0
  {
    var f := x.Floor;
    var fraction := x - f as real;
    if fraction < 0.5 then f
    else if fraction > 0.5 then f + 1
    else if f % 2 == 0 then f
    else f + 1
  }

  /** The two properties above determine the rounded value uniquely. */
  lemma RoundHalfToEvenUnique(x: real, n: int)
    requires x - 0.5 <= n as real <= x + 0.5
    requires (n as real == x - 0.5 || n as real == x + 0.5) ==> n % 2 == 0
    ensures n == RoundHalfToEven(x)
  {
  }

  /** `Math.Round(value, 2)`: the nearest multiple of 0.01, ties to an even number of hundredths. */
  function RoundToHundredths(value: real): (r: real)
    ensures value - 0.005 <= r <= value + 0.005
    ensures (r * 100.0).Floor as real == r * 100.0
    ensures (r * 100.0 == value * 100.0 - 0.5 || r * 100.0 == value * 100.0 + 0.5) ==> (r * 100.0).Floor % 2 == 0
  {
    var n := RoundHalfToEven(value * 100.0);
    var r := n as real / 100.0;
    assert r * 100.0 == n as real;
    assert (r * 100.0).Floor == n;
    r
  }

  /** Rounding an already rounded value changes nothing. */
  lemma RoundToHundredthsIdempotent(value: real)
    ensures RoundToHundredths(RoundToHundredths(value)) == RoundToHundredths(value)
  {
    var r := RoundToHundredths(value);
    var n := (r * 100.0).Floor;
    assert r * 100.0 == n as real;
    RoundHalfToEvenUnique(n as real, n);
  }

  /** `ConvertToSpeedPerMbps`: a raw rate in kilobits per second, in megabits per second to two decimals. */
  function ConvertToSpeedPerMbps(speed: real): (mbps: real)
    ensures speed / 1024.0 - 0.005 <= mbps <= speed / 1024.0 + 0.005
    ensures (mbps * 100.0).Floor as real == mbps * 100.0
    ensures (mbps * 100.0 == speed / 1024.0 * 100.0 - 0.5 || mbps * 100.0 == speed / 1024.0 * 100.0 + 0.5)
        ==> (mbps * 100.0).Floor % 2 == 0
    ensures speed >= 0.0 ==> mbps >= 0.0
  {
    var r := RoundToHundredths(speed / 1024.0);
    assert speed >= 0.0 ==> r >= 0.0 by {
      if speed >= 0.0 {
        var n := (r * 100.0).Floor;
        assert n as real >= -0.5;
      }
    }
    r
  }

  /** `(int)Math.Round(server.Distance)`: the nearest whole unit, ties to even. */
  function RoundDistance(distance: real): (d: int)
    ensures distance - 0.5 <= d as real <= distance + 0.5
    ensures (d as real == distance - 0.5 || d as real == distance + 0.5) ==> d % 2 == 0
  {
    RoundHalfToEven(distance)
  }

  /** Sample conversions: raw 20480 and 5120 kbit/s, distance 42.6. */
  lemma SampleConversions()
    ensures ConvertToSpeedPerMbps(20480.0) == 20.0
    ensures ConvertToSpeedPerMbps(5120.0) == 5.0
    ensures RoundDistance(42.6) == 43
  {
    RoundHalfToEvenUnique(2000.0, 2000);
    RoundHalfToEvenUnique(500.0, 500);
    RoundHalfToEvenUnique(42.6, 43);
  }
}
