/** The fault injector behind the server's network path (`Server.Services.NetworkChaos`):
    a time-bounded window with a base latency, a symmetric jitter and a loss rate.

    Time is a .NET `DateTime` in ticks of 100 ns (`DateTime.UtcNow` is the parameter
    `now`); each `Random` draw is an explicit parameter. */
module Services {
  import opened Prelude

  /** `DateTime.MaxValue.Ticks`; `DateTime.MinValue` is tick 0. */
  const MaxTicks: int := 3155378975999999999
  const TicksPerMs: int := 10000

  /** A representable `DateTime`. */
  type Ticks = t: int | 0 <= t <= MaxTicks

  /** `ChaosDto`: the injector's state as reported to the dashboard. */
  datatype ChaosDto = ChaosDto(active: bool, remainingMs: Int32, latencyMs: Int32, jitterMs: Int32, loss: real)

  /** `(int)` of a non-negative whole number of milliseconds: values beyond the 32-bit
      range saturate. */
  function SaturateToInt32(ms: nat): (r: Int32)
    ensures 0 <= r
    ensures ms <= Int32Max ==> r == ms
    ensures ms > Int32Max ==> r == Int32Max
  {
    if ms > Int32Max then Int32Max else ms
  }

  class NetworkChaos {
    /** `_untilUtc`. */
    var untilTicks: Ticks
    var latencyMs: Int32
    var jitterMs: Int32
    var loss: real

    /** The parameters as `Trigger` leaves them: non-negative delays, a loss probability. */
    ghost predicate Valid()
      reads this
    {
      latencyMs >= 0 && jitterMs >= 0 && 0.0 <= loss <= 1.0
    }

    /** Inactive, with no delay and no loss. */
    constructor ()
      ensures Valid()
      ensures untilTicks == 0 && latencyMs == 0 && jitterMs == 0 && loss == 0.0
    {
      untilTicks := 0;
      latencyMs := 0;
      jitterMs := 0;
      loss := 0.0;
    }

    /** `IsActive` at time `now`. */
    predicate IsActive(now: Ticks)
      reads this
      // a cleared window is closed, and no window covers the last representable time
      ensures untilTicks == 0 ==> !IsActive(now)
      ensures IsActive(now) ==> now < MaxTicks
    {
      now < untilTicks
    }

    /** `Trigger(duration, latencyMs, jitterMs, loss)` at time `now`, `duration` in
        ticks. The parameters are always stored (clamped); when `now + duration` is
        not a representable `DateTime` the addition throws, `ok` is false and the
        window is left as it was. */
    method Trigger(now: Ticks, duration: int, latency: Int32, jitter: Int32, lossRate: real) returns (ok: bool)
      modifies this
      ensures Valid()
      ensures latencyMs == Max(0, latency) && jitterMs == Max(0, jitter) && loss == Clamp(lossRate, 0.0, 1.0)
      ensures ok <==> 0 <= now + duration <= MaxTicks
      ensures ok ==> untilTicks == now + duration
      ensures !ok ==> untilTicks == old(untilTicks)
      // after a successful trigger the window is open exactly until now + duration
      ensures ok ==> forall t: Ticks :: IsActive(t) <==> t < now + duration
    {
      latencyMs := Max(0, latency);
      jitterMs := Max(0, jitter);
      loss := Clamp(lossRate, 0.0, 1.0);
      var until := now + duration;
      if 0 <= until <= MaxTicks {
        untilTicks := until;
        ok := true;
      } else {
        ok := false;
      }
    }

    /** `Clear`: close the window; the parameters stay. */
    method Clear()
      modifies this
      ensures untilTicks == 0
      ensures latencyMs == old(latencyMs) && jitterMs == old(jitterMs) && loss == old(loss)
      ensures forall t: Ticks :: !IsActive(t)
    {
      untilTicks := 0;
    }

    /** `ShouldDrop` at time `now` with the `NextDouble()` draw `u`. */
    predicate ShouldDrop(now: Ticks, u: real)
      reads this
      ensures !IsActive(now) ==> !ShouldDrop(now, u)
      ensures IsActive(now) ==> (ShouldDrop(now, u) <==> u < loss)
      // with a draw in [0, 1): no loss drops nothing, full loss drops everything in the window
      ensures Valid() && 0.0 <= u < 1.0 && loss == 0.0 ==> !ShouldDrop(now, u)
      ensures Valid() && 0.0 <= u < 1.0 && loss == 1.0 ==> (ShouldDrop(now, u) <==> IsActive(now))
    {
      IsActive(now) && u < loss
    }

    /** `DelayMs` at time `now`; `j` is the draw of `Random.Next(-JitterMs, JitterMs + 1)`.
        `None`: `JitterMs + 1` wraps to `int.MinValue`, so the draw throws. */
    function DelayMs(now: Ticks, j: int): (r: Option<Int32>)
      requires IsActive(now) && jitterMs < Int32Max ==> -(jitterMs as int) <= j <= jitterMs
      reads this
      ensures !IsActive(now) ==> r == Some(0)
      ensures IsActive(now) ==> (r.None? <==> jitterMs == Int32Max)
      // the delay is never negative and never beyond latency plus jitter
      ensures Valid() && r.Some? ==> 0 <= r.value <= latencyMs + jitterMs
      ensures Valid() && IsActive(now) && r.Some? && latencyMs + jitterMs <= Int32Max ==>
                Max(0, latencyMs - jitterMs) <= r.value
      ensures Valid() && IsActive(now) && r.Some? && latencyMs + j <= Int32Max ==> r.value == Max(0, latencyMs + j)
    {
      if !IsActive(now) then Some(0)
      else if jitterMs == Int32Max then None
      else
        var sum := Wrap32(latencyMs + j);
        Some(Max(0, sum))
    }

    /** `ToDto` at time `now`. */
    function ToDto(now: Ticks): (d: ChaosDto)
      reads this
      ensures d.active == IsActive(now)
      ensures d.latencyMs == latencyMs && d.jitterMs == jitterMs && d.loss == loss
      ensures d.remainingMs >= 0
      ensures !IsActive(now) ==> d.remainingMs == 0
      // whole milliseconds left in the window, as long as they fit in 32 bits
      ensures IsActive(now) && untilTicks - now <= Int32Max * TicksPerMs ==>
                d.remainingMs * TicksPerMs <= untilTicks - now < (d.remainingMs + 1) * TicksPerMs
    {
      var remaining := if IsActive(now) then untilTicks - now else 0;
      ChaosDto(IsActive(now), Max(0, SaturateToInt32(remaining / TicksPerMs)), latencyMs, jitterMs, loss)
    }
  }
}
