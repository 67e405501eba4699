/** The game client's state (`Client.SimpleClient`): event derivation for the own
    player, snapshot ingestion into the per-player history, game-over and reset,
    sparkle spawning, and the interpolating query that also ages the particles.

    `Raylib.GetTime()` is the parameter `now`; every `Random.NextDouble()` draw is
    an explicit value in [0, 1); `MathF.Cos`/`MathF.Sin` are the parameters `cos`
    and `sin`. Floats are `real`. */
module Client {
  import opened Prelude
  import opened Messages
  import opened ClientModel

  /** `MathF.PI`: the float nearest to pi. `2 * MathF.PI` is exact in float. */
  const Pi: real := 3.1415927410125732421875
  const TwoPi: real := 6.283185482025146484375
  /** `Math.PI`: the double nearest to pi, used for the sparkle direction. */
  const MathPi: real := 3.141592653589793115997963468544185161590576171875
  /** A collected orb makes the collector glow for 0.25 s. */
  const PulseDuration: real := 0.25
  const SparkleCount: nat := 20
  /** `interpDelay`: the 100 ms the rendered pose trails the latest snapshot. */
  const InterpDelay: real := 0.10

  // ---------------------------------------------------------------------------
  // Events derived from the own player's entry
  // ---------------------------------------------------------------------------

  /** The position of the first entry with this id (`FirstOrDefault(p => p.Id == _id)`). */
  function FirstWithId(ps: seq<PlayerDto>, id: string, from: nat := 0): (r: Option<nat>)
    requires from <= |ps|
    ensures r.None? <==> forall m :: from <= m < |ps| ==> ps[m].id != id
    ensures r.Some? ==> from <= r.value < |ps| && ps[r.value].id == id
    ensures r.Some? ==> forall m :: from <= m < r.value ==> ps[m].id != id
    decreases |ps| - from
  {
    if from == |ps| then None
    else if ps[from].id == id then Some(from)
    else FirstWithId(ps, id, from + 1)
  }

  function OwnEntry(ps: seq<PlayerDto>, id: string): Option<PlayerDto>
  {
    match FirstWithId(ps, id)
    case None => None
    case Some(k) => Some(ps[k])
  }

  /** The event flags after one state, and whether `UsedBoost` and `CollectedOrb` were raised. */
  datatype Tracked = Tracked(wasBoosting: bool, lastOrbCount: int, usedBoost: bool, collectedOrb: bool)

  /** The event derivation at the top of `HandleState`. */
  function Track(wasBoosting: bool, lastOrbCount: int, own: Option<PlayerDto>): (r: Tracked)
    // a state without the own player changes nothing and raises nothing
    ensures own.None? ==> r == Tracked(wasBoosting, lastOrbCount, false, false)
    // the flag follows the reported boost state
    ensures own.Some? ==> r.wasBoosting == own.value.boostActive
    // UsedBoost is raised exactly on a rising edge of the boost state
    ensures r.usedBoost <==> own.Some? && own.value.boostActive && !wasBoosting
    // CollectedOrb is raised exactly when the score passes the highest score seen
    ensures r.collectedOrb <==> own.Some? && lastOrbCount < own.value.score
    ensures own.Some? ==> r.lastOrbCount == Max(lastOrbCount, own.value.score)
  {
    match own
    case None => Tracked(wasBoosting, lastOrbCount, false, false)
    case Some(p) =>
      var was := if !p.boostActive then false else wasBoosting;
      var used := !was && p.boostActive;
      var collected := lastOrbCount < p.score;
      Tracked(was || used, if collected then p.score else lastOrbCount, used, collected)
  }

  /** One boost raises `UsedBoost` once, however many states report it. */
  lemma {:induction false} UsedBoostOncePerActivation(wasBoosting: bool, lastOrbCount: int, states: seq<PlayerDto>)
    requires |states| >= 1 && forall k :: 0 <= k < |states| ==> states[k].boostActive
    ensures var t := TrackRun(wasBoosting, lastOrbCount, states);
            t.usedBoostCount == (if wasBoosting then 0 else 1) && t.wasBoosting
    decreases |states|
  {
    if |states| > 1 {
      UsedBoostOncePerActivation(wasBoosting, lastOrbCount, states[..|states| - 1]);
    }
  }

  /** The flags after a run of states that all contain the own player, and how many
      `UsedBoost` events the run raised. */
  datatype RunTrack = RunTrack(wasBoosting: bool, lastOrbCount: int, usedBoostCount: nat)

  function TrackRun(wasBoosting: bool, lastOrbCount: int, states: seq<PlayerDto>): RunTrack
    decreases |states|
  {
    if |states| == 0 then RunTrack(wasBoosting, lastOrbCount, 0)
    else
      var r := TrackRun(wasBoosting, lastOrbCount, states[..|states| - 1]);
      var t := Track(r.wasBoosting, r.lastOrbCount, Some(states[|states| - 1]));
      RunTrack(t.wasBoosting, t.lastOrbCount, r.usedBoostCount + if t.usedBoost then 1 else 0)
  }

  // ---------------------------------------------------------------------------
  // Sparkles
  // ---------------------------------------------------------------------------

  /** The three `NextDouble()` draws behind one sparkle. */
  datatype SparkleDraw = SparkleDraw(u1: real, u2: real, u3: real)

  predicate ValidSparkleDraw(d: SparkleDraw)
  {
    0.0 <= d.u1 < 1.0 && 0.0 <= d.u2 < 1.0 && 0.0 <= d.u3 < 1.0
  }

  function SparkleAngle(d: SparkleDraw): real
  {
    d.u1 * MathPi * 2.0
  }

  function SparkleSpeed(d: SparkleDraw): (s: real)
    ensures ValidSparkleDraw(d) ==> 80.0 <= s < 200.0
  {
    80.0 + d.u2 * 120.0
  }

  function SparkleLife(d: SparkleDraw): (l: real)
    ensures ValidSparkleDraw(d) ==> 0.3 <= l < 0.5
  {
    0.3 + d.u3 * 0.2
  }

  /** One sparkle at `(cx, cy)` flying in direction `SparkleAngle(d)` at `SparkleSpeed(d)`. */
  function Sparkle(cx: real, cy: real, d: SparkleDraw, cos: real -> real, sin: real -> real): Particle
  {
    var a := SparkleAngle(d);
    var s := SparkleSpeed(d);
    Particle(cx, cy, cos(a) * s, sin(a) * s, SparkleLife(d))
  }

  function Sparkles(cx: real, cy: real, ds: seq<SparkleDraw>, cos: real -> real, sin: real -> real): (r: seq<Particle>)
    ensures |r| == |ds|
    ensures forall k :: 0 <= k < |ds| ==> r[k] == Sparkle(cx, cy, ds[k], cos, sin)
  {
    seq(|ds|, k requires 0 <= k < |ds| => Sparkle(cx, cy, ds[k], cos, sin))
  }

  /** Every sparkle starts at the collection point with a life in [0.3, 0.5) and,
      when `cos` and `sin` agree on the unit circle, a speed in [80, 200). */
  lemma SparkleShape(cx: real, cy: real, d: SparkleDraw, cos: real -> real, sin: real -> real)
    requires ValidSparkleDraw(d)
    ensures var p := Sparkle(cx, cy, d, cos, sin);
            && p.x == cx && p.y == cy && 0.3 <= p.life < 0.5
            && 80.0 <= SparkleSpeed(d) < 200.0
            && (var a := SparkleAngle(d);
                cos(a) * cos(a) + sin(a) * sin(a) == 1.0 ==>
                  p.vx * p.vx + p.vy * p.vy == SparkleSpeed(d) * SparkleSpeed(d))
  {
    var a := SparkleAngle(d);
    var s := SparkleSpeed(d);
    var p := Sparkle(cx, cy, d, cos, sin);
    if cos(a) * cos(a) + sin(a) * sin(a) == 1.0 {
      calc {
        p.vx * p.vx + p.vy * p.vy;
        (cos(a) * s) * (cos(a) * s) + (sin(a) * s) * (sin(a) * s);
        (cos(a) * cos(a) + sin(a) * sin(a)) * (s * s);
        s * s;
      }
    }
  }

  /** `SpawnSparkles`: append twenty sparkles at `(cx, cy)`, one per draw, in draw order. */
  method SpawnSparkles(particles: seq<Particle>, cx: real, cy: real, draws: seq<SparkleDraw>,
                       cos: real -> real, sin: real -> real)
    returns (r: seq<Particle>)
    requires |draws| == SparkleCount
    ensures r == particles + Sparkles(cx, cy, draws, cos, sin)
    ensures |r| == |particles| + SparkleCount
  {
    r := particles;
    for i := 0 to SparkleCount
      invariant r == particles + Sparkles(cx, cy, draws[..i], cos, sin)
    {
      r := r + [Sparkle(cx, cy, draws[i], cos, sin)];
      assert Sparkles(cx, cy, draws[..i + 1], cos, sin) == Sparkles(cx, cy, draws[..i], cos, sin) + [Sparkle(cx, cy, draws[i], cos, sin)];
    }
    assert draws[..SparkleCount] == draws;
  }

  // ---------------------------------------------------------------------------
  // Ingesting a state (the locked part of HandleState)
  // ---------------------------------------------------------------------------

  predicate KeyedById(views: map<string, PlayerView>)
  {
    forall k :: k in views ==> views[k].id == k
  }

  /** One pass of the `foreach` over `state.Players` at time `now`; `draws` supply the
      sparkles when the score went up. */
  function IngestView(views: map<string, PlayerView>, p: PlayerDto, now: real, draws: seq<SparkleDraw>,
                      cos: real -> real, sin: real -> real): (r: map<string, PlayerView>)
    // exactly the entry's id is added or updated
    ensures r.Keys == views.Keys + {p.id}
    ensures forall k :: k in views && k != p.id ==> r[k] == views[k]
    ensures KeyedById(views) ==> KeyedById(r)
    // a first sighting starts with the previous pose equal to the current one
    ensures p.id !in views ==>
              var v := r[p.id];
              && v.x == p.x && v.lastX == p.x && v.y == p.y && v.lastY == p.y
              && v.angle == p.angle && v.lastAngle == p.angle
              && v.particles == [] && v.pulseUntil == 0.0
    // a known view shifts current to previous and takes the incoming pose
    ensures p.id in views ==>
              var o := views[p.id];
              var v := r[p.id];
              && v.lastX == o.x && v.lastY == o.y && v.lastAngle == o.angle
              && v.x == p.x && v.y == p.y && v.angle == p.angle
              && (p.score > o.score ==>
                    v.pulseUntil == now + PulseDuration
                    && v.particles == o.particles + Sparkles(p.x, p.y, draws, cos, sin))
              && (p.score <= o.score ==> v.pulseUntil == o.pulseUntil && v.particles == o.particles)
    // the reported counters and the arrival time are always overwritten
    ensures var v := r[p.id];
            v.score == p.score && v.boostCharges == p.boostCharges && v.boostActive == p.boostActive
            && v.lastUpdate == now
  {
    var v :=
      if p.id !in views then NewView(p.id, p.x, p.y, p.angle)
      else
        var o := views[p.id];
        var o := if p.score > o.score
                 then o.(pulseUntil := now + PulseDuration, particles := o.particles + Sparkles(p.x, p.y, draws, cos, sin))
                 else o;
        o.(lastX := o.x, lastY := o.y, x := p.x, y := p.y, lastAngle := o.angle, angle := p.angle);
    views[p.id := v.(score := p.score, boostCharges := p.boostCharges, boostActive := p.boostActive, lastUpdate := now)]
  }

  /** The whole `foreach`, entry by entry; `draws[k]` belongs to entry `k`. */
  function IngestAll(views: map<string, PlayerView>, ps: seq<PlayerDto>, now: real, draws: seq<seq<SparkleDraw>>,
                     cos: real -> real, sin: real -> real): (r: map<string, PlayerView>)
    requires |draws| == |ps|
    // no view is dropped, and every view stays filed under its own id
    ensures views.Keys <= r.Keys
    ensures KeyedById(views) ==> KeyedById(r)
    decreases |ps|
  {
    if |ps| == 0 then views
    else
      var n := |ps| - 1;
      IngestView(IngestAll(views, ps[..n], now, draws[..n], cos, sin), ps[n], now, draws[n], cos, sin)
  }

  /** After a state, the views hold the old ids plus every id the state mentions. */
  lemma {:induction false} IngestAllKeys(views: map<string, PlayerView>, ps: seq<PlayerDto>, now: real,
                                         draws: seq<seq<SparkleDraw>>, cos: real -> real, sin: real -> real)
    requires |draws| == |ps|
    ensures forall id :: id in IngestAll(views, ps, now, draws, cos, sin) <==>
                         id in views || exists k :: 0 <= k < |ps| && ps[k].id == id
    decreases |ps|
  {
    if |ps| > 0 {
      var n := |ps| - 1;
      var pre := ps[..n];
      IngestAllKeys(views, pre, now, draws[..n], cos, sin);
      var mid := IngestAll(views, pre, now, draws[..n], cos, sin);
      var r := IngestAll(views, ps, now, draws, cos, sin);
      assert r.Keys == mid.Keys + {ps[n].id};
      forall id | id in r ensures id in views || exists k :: 0 <= k < |ps| && ps[k].id == id {
        if id != ps[n].id && id !in views {
          var k :| 0 <= k < |pre| && pre[k].id == id;
          assert ps[k].id == id;
        }
      }
      forall id | id in views || (exists k :: 0 <= k < |ps| && ps[k].id == id) ensures id in r {
        if id !in views && id != ps[n].id {
          var k :| 0 <= k < |ps| && ps[k].id == id;
          assert k < n && pre[k].id == id;
        }
      }
    }
  }

  /** Views of players the state does not mention are left exactly as they were. */
  lemma {:induction false} IngestAllUntouched(views: map<string, PlayerView>, ps: seq<PlayerDto>, now: real,
                                              draws: seq<seq<SparkleDraw>>, cos: real -> real, sin: real -> real,
                                              id: string)
    requires |draws| == |ps|
    requires id in views && forall k :: 0 <= k < |ps| ==> ps[k].id != id
    ensures id in IngestAll(views, ps, now, draws, cos, sin)
    ensures IngestAll(views, ps, now, draws, cos, sin)[id] == views[id]
    decreases |ps|
  {
    if |ps| > 0 {
      var n := |ps| - 1;
      IngestAllUntouched(views, ps[..n], now, draws[..n], cos, sin, id);
    }
  }

  /** For each id the last entry carrying it decides the current pose, the counters
      and the arrival time. */
  lemma {:induction false} IngestAllLatest(views: map<string, PlayerView>, ps: seq<PlayerDto>, now: real,
                                           draws: seq<seq<SparkleDraw>>, cos: real -> real, sin: real -> real,
                                           k: nat)
    requires |draws| == |ps|
    requires k < |ps| && forall m :: k < m < |ps| ==> ps[m].id != ps[k].id
    ensures ps[k].id in IngestAll(views, ps, now, draws, cos, sin)
    ensures var v := IngestAll(views, ps, now, draws, cos, sin)[ps[k].id];
            && v.x == ps[k].x && v.y == ps[k].y && v.angle == ps[k].angle
            && v.score == ps[k].score && v.boostCharges == ps[k].boostCharges
            && v.boostActive == ps[k].boostActive && v.lastUpdate == now
    decreases |ps|
  {
    var n := |ps| - 1;
    var pre := ps[..n];
    var mid := IngestAll(views, pre, now, draws[..n], cos, sin);
    var r := IngestAll(views, ps, now, draws, cos, sin);
    assert r == IngestView(mid, ps[n], now, draws[n], cos, sin);
    if k < n {
      assert pre[k] == ps[k];
      IngestAllLatest(views, pre, now, draws[..n], cos, sin, k);
      assert ps[k].id in mid && ps[k].id != ps[n].id;
      assert r[ps[k].id] == mid[ps[k].id];
    }
  }

  /** `_orbsClient` after `Clear` and the refill loop. */
  function OrbPositions(os: seq<OrbDto>): (r: seq<(real, real)>)
    ensures |r| == |os|
    ensures forall k :: 0 <= k < |os| ==> r[k] == (os[k].x, os[k].y)
  {
    seq(|os|, k requires 0 <= k < |os| => (os[k].x, os[k].y))
  }

  // ---------------------------------------------------------------------------
  // Shortest-path angle blending
  // ---------------------------------------------------------------------------

  function Ceil(x: real): int
  {
    -((-x).Floor)
  }

  /** How many whole turns `NormalizeAngleDelta` takes off `d` (negative: adds). */
  function Turns(d: real): int
  {
    if d > Pi then Ceil((d - Pi) / TwoPi)
    else if d < -Pi then -Ceil((-Pi - d) / TwoPi)
    else 0
  }

  /** The closed form of `NormalizeAngleDelta`. */
  function NormalizedDelta(d: real): (r: real)
    // a delta already in range is left alone
    ensures -Pi <= d <= Pi ==> r == d
  {
    d - TwoPi * Turns(d) as real
  }

  /** `x` is a whole number of turns. */
  predicate WholeTurns(x: real)
  {
    (x / TwoPi).Floor as real == x / TwoPi
  }

  /** The blended delta lies in [-pi, pi], differs from the input by whole turns, and
      leaves a delta already in range alone. From above the loop stops at pi at the
      latest and from below at -pi. */
  lemma NormalizedDeltaSound(d: real)
    ensures var r := NormalizedDelta(d);
            && -Pi <= r <= Pi
            && WholeTurns(d - r)
            && (-Pi <= d <= Pi ==> r == d)
            && (d > Pi ==> -Pi < r)
            && (d < -Pi ==> r < Pi)
  {
    var r := NormalizedDelta(d);
    assert (d - r) / TwoPi == Turns(d) as real;
    if d > Pi {
      TurnsAbove(d);
    } else if d < -Pi {
      TurnsBelow(d);
    }
  }

  lemma TurnsAbove(d: real)
    requires d > Pi
    ensures -Pi < NormalizedDelta(d) <= Pi
  {
    var k := Turns(d);
    var x := (d - Pi) / TwoPi;
    assert k as real - 1.0 < x <= k as real;
    assert d - Pi <= TwoPi * k as real;
    assert TwoPi * (k as real - 1.0) < d - Pi;
  }

  lemma TurnsBelow(d: real)
    requires d < -Pi
    ensures -Pi <= NormalizedDelta(d) < Pi
  {
    var k := Turns(d);
    var x := (-Pi - d) / TwoPi;
    assert -k as real - 1.0 < x <= -k as real;
    assert -Pi - d <= TwoPi * (-k) as real;
    assert TwoPi * (-k as real - 1.0) < -Pi - d;
  }

  /** Among all deltas a whole number of turns away, the one strictly inside
      (-pi, pi) is the one the loops return: it is the shortest way round. */
  lemma NormalizedDeltaShortest(d: real, r: real, k: int)
    requires -Pi < r < Pi && r == d - TwoPi * k as real
    ensures NormalizedDelta(d) == r
  {
    NormalizedDeltaSound(d);
    var n := Turns(d);
    var q := NormalizedDelta(d);
    // q and r are both in [-pi, pi] and differ by (k - n) whole turns
    assert q - r == TwoPi * (k - n) as real;
    assert -TwoPi < q - r < TwoPi;
    assert -1.0 < (k - n) as real < 1.0;
  }

  /** Blending from a facing of 3.0 to -3.0 turns forward through pi by about
      0.28 rad rather than back by 6 rad. */
  lemma WrapTakesShortPath()
    ensures NormalizedDelta(-3.0 - 3.0) == -6.0 + TwoPi
    ensures 0.0 < NormalizedDelta(-3.0 - 3.0) < 0.3
  {
    NormalizedDeltaShortest(-6.0, -6.0 + TwoPi, -1);
  }

  /** `NormalizeAngleDelta`: take off whole turns while above pi, then add them while below -pi. */
  method NormalizeAngleDelta(d0: real) returns (d: real)
    ensures d == NormalizedDelta(d0)
  {
    d := d0;
    ghost var k: int := 0;
    while d > Pi
      invariant d == d0 - TwoPi * k as real && k >= 0
      invariant k > 0 ==> d + TwoPi > Pi
      decreases (d - Pi).Floor
    {
      d := d - 2.0 * Pi;
      k := k + 1;
    }
    ghost var m: int := 0;
    while d < -Pi
      invariant d == d0 - TwoPi * k as real + TwoPi * m as real && m >= 0
      invariant m > 0 ==> d - TwoPi < -Pi
      invariant m > 0 ==> k == 0
      decreases (-Pi - d).Floor
    {
      d := d + 2.0 * Pi;
      m := m + 1;
    }
    LoopTurns(d0, k, m);
  }

  /** The turns the two loops take are the ones `Turns` counts. */
  lemma LoopTurns(d0: real, k: int, m: int)
    requires k >= 0 && m >= 0 && (m > 0 ==> k == 0)
    requires var d1 := d0 - TwoPi * k as real;
             d1 <= Pi && (k > 0 ==> d1 + TwoPi > Pi)
    requires var d := d0 - TwoPi * k as real + TwoPi * m as real;
             d >= -Pi && (m > 0 ==> d - TwoPi < -Pi)
    ensures Turns(d0) == k - m
  {
    if k > 0 {
      var x := (d0 - Pi) / TwoPi;
      assert k as real - 1.0 < x <= k as real;
      CeilUnique(x, k);
    } else if m > 0 {
      var x := (-Pi - d0) / TwoPi;
      assert m as real - 1.0 < x <= m as real;
      CeilUnique(x, m);
    }
  }

  lemma CeilUnique(x: real, n: int)
    requires n as real - 1.0 < x <= n as real
    ensures Ceil(x) == n
  {
  }

  // ---------------------------------------------------------------------------
  // Interpolation and particle ageing (GetInterpolated)
  // ---------------------------------------------------------------------------

  /** `Math.Clamp((now - LastUpdate) / interpDelay, 0, 1)`. */
  function InterpT(lastUpdate: real, now: real): (t: real)
    ensures 0.0 <= t <= 1.0
    ensures now <= lastUpdate ==> t == 0.0
    ensures now >= lastUpdate + InterpDelay ==> t == 1.0
    ensures lastUpdate <= now <= lastUpdate + InterpDelay ==> t * InterpDelay == now - lastUpdate
  {
    Clamp((now - lastUpdate) / InterpDelay, 0.0, 1.0)
  }

  function Lerp(a: real, b: real, t: real): real
  {
    a + (b - a) * t
  }

  /** The facing `a` turned by the fraction `t` of `delta`. */
  function Turned(a: real, delta: real, t: real): real
  {
    a + delta * t
  }

  /** A particle `dt` seconds older (the three field updates of the particle loop): it
      loses `dt` of life and drifts with its velocity. */
  function Aged(p: Particle, dt: real): Particle
  {
    p.(life := p.life - dt, x := p.x + p.vx * dt, y := p.y + p.vy * dt)
  }

  /** The particles still alive once each has aged by `dt`, in their original order. */
  function Survivors(ps: seq<Particle>, dt: real): (r: seq<Particle>)
    ensures |r| <= |ps|
    decreases |ps|
  {
    if |ps| == 0 then []
    else
      var q := Aged(ps[0], dt);
      (if q.life > 0.0 then [q] else []) + Survivors(ps[1..], dt)
  }

  /** The survivors are exactly the aged particles with life left: the list never
      grows, nothing dead stays, nothing alive is lost. */
  lemma {:induction false} SurvivorsSound(ps: seq<Particle>, dt: real)
    ensures var r := Survivors(ps, dt);
            && |r| <= |ps|
            && (forall q :: q in r ==> q.life > 0.0 && exists p :: p in ps && q == Aged(p, dt))
            && (forall k :: 0 <= k < |ps| && Aged(ps[k], dt).life > 0.0 ==> Aged(ps[k], dt) in r)
    decreases |ps|
  {
    if |ps| > 0 {
      SurvivorsSound(ps[1..], dt);
      var r := Survivors(ps, dt);
      var q := Aged(ps[0], dt);
      var rest := Survivors(ps[1..], dt);
      assert r == (if q.life > 0.0 then [q] else []) + rest;
      forall x | x in r ensures x.life > 0.0 && exists p :: p in ps && x == Aged(p, dt) {
        if x in rest {
          var p :| p in ps[1..] && x == Aged(p, dt);
          assert p in ps;
        } else {
          assert x == q && ps[0] in ps;
        }
      }
      forall k | 0 <= k < |ps| && Aged(ps[k], dt).life > 0.0 ensures Aged(ps[k], dt) in r {
        if k > 0 { assert ps[1..][k - 1] == ps[k]; }
      }
    }
  }

  /** The per-view particle loop of `GetInterpolated`: age each particle from the last
      index down and remove the ones whose life ran out. */
  method AgeParticles(ps: seq<Particle>, dt: real) returns (r: seq<Particle>)
    ensures r == Survivors(ps, dt)
  {
    r := ps;
    var i := |ps|;
    while i > 0
      invariant 0 <= i <= |ps|
      invariant r == ps[..i] + Survivors(ps[i..], dt)
      decreases i
    {
      i := i - 1;
      AgeSplit(ps, i, dt, r);
      ghost var tail := r[i + 1..];
      var p := Aged(r[i], dt);
      r := r[i := p];
      assert r[..i] == ps[..i] && r[i + 1..] == tail;
      if p.life <= 0.0 {
        r := r[..i] + r[i + 1..];
      } else {
        assert r == r[..i] + [p] + r[i + 1..];
      }
    }
    assert ps[..0] == [] && ps[0..] == ps;
  }

  /** Splitting the loop's list at the particle it visits next. */
  lemma AgeSplit(ps: seq<Particle>, i: nat, dt: real, r: seq<Particle>)
    requires i < |ps| && r == ps[..i + 1] + Survivors(ps[i + 1..], dt)
    ensures i < |r| && r[i] == ps[i]
    ensures r[..i] == ps[..i] && r[i + 1..] == Survivors(ps[i + 1..], dt)
    ensures Survivors(ps[i..], dt) ==
              (if Aged(ps[i], dt).life > 0.0 then [Aged(ps[i], dt)] else []) + Survivors(ps[i + 1..], dt)
  {
    assert ps[..i + 1] == ps[..i] + [ps[i]];
    assert ps[i..][0] == ps[i] && ps[i..][1..] == ps[i + 1..];
  }

  /** One entry of the dictionary `GetInterpolated` returns: the blended pose, the
      reported counters, the pulse deadline and a copy of the surviving particles. */
  datatype Interpolated = Interpolated(
    x: real, y: real, angle: real,
    score: int, boostCharges: int, boostActive: bool,
    pulseUntil: real,
    particles: seq<Particle>)

  /** What the query reports for one view at time `now`. */
  function Sample(v: PlayerView, now: real): (s: Interpolated)
    // the counters and the pulse deadline are reported as stored; the particles as aged
    ensures s.score == v.score && s.boostCharges == v.boostCharges && s.boostActive == v.boostActive
    ensures s.pulseUntil == v.pulseUntil
    ensures s.particles == Queried(v, now).particles
  {
    var t := InterpT(v.lastUpdate, now);
    Interpolated(
      Lerp(v.lastX, v.x, t), Lerp(v.lastY, v.y, t),
      Turned(v.lastAngle, NormalizedDelta(v.angle - v.lastAngle), t),
      v.score, v.boostCharges, v.boostActive, v.pulseUntil,
      Survivors(v.particles, now - v.lastUpdate))
  }

  /** The view after the query: only its particles have aged. */
  function Queried(v: PlayerView, now: real): (q: PlayerView)
    ensures q == v.(particles := q.particles)
    ensures |q.particles| <= |v.particles|
  {
    v.(particles := Survivors(v.particles, now - v.lastUpdate))
  }

  /** At the arrival time (or before it) the query shows the previous pose. */
  lemma SampleAtArrival(v: PlayerView, now: real)
    requires now <= v.lastUpdate
    ensures Sample(v, now).x == v.lastX && Sample(v, now).y == v.lastY && Sample(v, now).angle == v.lastAngle
  {
    assert InterpT(v.lastUpdate, now) == 0.0;
  }

  /** 100 ms after the arrival (or later) the query shows the current position, and a
      facing turned the short way round from the previous one to an angle a whole
      number of turns from the current one. */
  lemma SampleSettled(v: PlayerView, now: real)
    requires now >= v.lastUpdate + InterpDelay
    ensures Sample(v, now).x == v.x && Sample(v, now).y == v.y
    ensures -Pi <= Sample(v, now).angle - v.lastAngle <= Pi
    ensures WholeTurns(v.angle - Sample(v, now).angle)
  {
    assert InterpT(v.lastUpdate, now) == 1.0;
    var d := v.angle - v.lastAngle;
    NormalizedDeltaSound(d);
    var s := Sample(v, now);
    assert s.angle == v.lastAngle + NormalizedDelta(d);
    assert v.angle - s.angle == d - NormalizedDelta(d);
  }

  /** In between, the position lies between the previous and the current one on each axis. */
  lemma SampleBetween(v: PlayerView, now: real)
    ensures Between(Sample(v, now).x, v.lastX, v.x) && Between(Sample(v, now).y, v.lastY, v.y)
  {
    var t := InterpT(v.lastUpdate, now);
    LerpBetween(v.lastX, v.x, t);
    LerpBetween(v.lastY, v.y, t);
  }

  predicate Between(m: real, a: real, b: real)
  {
    (a <= b ==> a <= m <= b) && (b <= a ==> b <= m <= a)
  }

  lemma LerpBetween(a: real, b: real, t: real)
    requires 0.0 <= t <= 1.0
    ensures Between(Lerp(a, b, t), a, b)
  {
    if a <= b { LerpUp(a, b, t); }
    if b <= a { LerpDown(a, b, t); }
  }

  lemma LerpUp(a: real, b: real, t: real)
    requires 0.0 <= t <= 1.0 && a <= b
    ensures a <= Lerp(a, b, t) <= b
  {
    NonNegProduct(b - a, t);
    NonNegProduct(b - a, 1.0 - t);
  }

  lemma LerpDown(a: real, b: real, t: real)
    requires 0.0 <= t <= 1.0 && b <= a
    ensures b <= Lerp(a, b, t) <= a
  {
    NonNegProduct(a - b, t);
    NonNegProduct(a - b, 1.0 - t);
  }

  lemma NonNegProduct(x: real, y: real)
    requires x >= 0.0 && y >= 0.0
    ensures x * y >= 0.0
  {
  }

  // ---------------------------------------------------------------------------
  // The client object
  // ---------------------------------------------------------------------------

  class SimpleClient {
    const id: string
    /** `_views`: one history per player id. */
    var views: map<string, PlayerView>
    /** `_orbsClient`. */
    var orbs: seq<(real, real)>
    /** `playerWasBoosting` and `playerLastOrbCount`. */
    var wasBoosting: bool
    var lastOrbCount: int
    var gameOver: bool
    var gameWon: bool

    ghost predicate Valid()
      reads this
    {
      KeyedById(views)
    }

    constructor (id: string)
      ensures Valid() && this.id == id
      ensures views == map[] && orbs == [] && !wasBoosting && lastOrbCount == 0 && !gameOver && !gameWon
    {
      this.id := id;
      views := map[];
      orbs := [];
      wasBoosting := false;
      lastOrbCount := 0;
      gameOver := false;
      gameWon := false;
    }

    /** `HandleState` at time `now`; `draws[k]` are the twenty sparkle draws for entry
        `k`. Returns whether `UsedBoost` and `CollectedOrb` were raised. */
    method HandleState(state: StateMessage, now: real, draws: seq<seq<SparkleDraw>>,
                       cos: real -> real, sin: real -> real)
      returns (usedBoost: bool, collectedOrb: bool)
      requires Valid()
      requires |draws| == |state.players| && forall k :: 0 <= k < |draws| ==> |draws[k]| == SparkleCount
      modifies this
      ensures Valid()
      ensures Tracked(wasBoosting, lastOrbCount, usedBoost, collectedOrb)
              == Track(old(wasBoosting), old(lastOrbCount), OwnEntry(state.players, id))
      ensures views == IngestAll(old(views), state.players, now, draws, cos, sin)
      ensures orbs == OrbPositions(state.orbs)
      ensures gameOver == old(gameOver) && gameWon == old(gameWon)
    {
      usedBoost := false;
      collectedOrb := false;
      var own := OwnEntry(state.players, id);
      if own.Some? {
        var player := own.value;
        if !player.boostActive {
          wasBoosting := false;
        }
        if !wasBoosting && player.boostActive {
          wasBoosting := true;
          usedBoost := true;
        }
        if lastOrbCount < player.score {
          lastOrbCount := player.score;
          collectedOrb := true;
        }
      }
      assert Tracked(wasBoosting, lastOrbCount, usedBoost, collectedOrb) == Track(old(wasBoosting), old(lastOrbCount), own);
      ghost var views0 := views;
      var ps := state.players;
      for k := 0 to |ps|
        invariant views == IngestAll(views0, ps[..k], now, draws[..k], cos, sin)
        invariant KeyedById(views)
        invariant Tracked(wasBoosting, lastOrbCount, usedBoost, collectedOrb) == Track(old(wasBoosting), old(lastOrbCount), own)
        invariant gameOver == old(gameOver) && gameWon == old(gameWon)
      {
        assert ps[..k + 1][..k] == ps[..k] && draws[..k + 1][..k] == draws[..k];
        IngestEntry(ps[k], now, draws[k], cos, sin);
      }
      assert ps[..|ps|] == ps && draws[..|ps|] == draws;
      RefillOrbs(state.orbs);
    }

    /** One pass of the `foreach` in `HandleState`: create or update the entry's view. */
    method IngestEntry(p: PlayerDto, now: real, draws: seq<SparkleDraw>, cos: real -> real, sin: real -> real)
      requires |draws| == SparkleCount
      modifies this
      ensures views == IngestView(old(views), p, now, draws, cos, sin)
      ensures orbs == old(orbs) && wasBoosting == old(wasBoosting) && lastOrbCount == old(lastOrbCount)
      ensures gameOver == old(gameOver) && gameWon == old(gameWon)
    {
      var pv: PlayerView;
      if p.id !in views {
        pv := NewView(p.id, p.x, p.y, p.angle);
      } else {
        pv := views[p.id];
        if p.score > pv.score {
          pv := pv.(pulseUntil := now + PulseDuration);
          var sparkled := SpawnSparkles(pv.particles, p.x, p.y, draws, cos, sin);
          pv := pv.(particles := sparkled);
        }
        pv := pv.(lastX := pv.x, lastY := pv.y, x := p.x, y := p.y);
        pv := pv.(lastAngle := pv.angle, angle := p.angle);
      }
      pv := pv.(score := p.score, boostCharges := p.boostCharges, boostActive := p.boostActive, lastUpdate := now);
      views := views[p.id := pv];
    }

    /** `_orbsClient.Clear()` and the refill loop: the orb positions in state order. */
    method RefillOrbs(os: seq<OrbDto>)
      modifies this
      ensures orbs == OrbPositions(os)
      ensures views == old(views) && wasBoosting == old(wasBoosting) && lastOrbCount == old(lastOrbCount)
      ensures gameOver == old(gameOver) && gameWon == old(gameWon)
    {
      orbs := [];
      for k := 0 to |os|
        invariant orbs == OrbPositions(os[..k])
        invariant views == old(views) && wasBoosting == old(wasBoosting) && lastOrbCount == old(lastOrbCount)
        invariant gameOver == old(gameOver) && gameWon == old(gameWon)
      {
        orbs := orbs + [(os[k].x, os[k].y)];
      }
      assert os[..|os|] == os;
    }

    /** `HandleGameOver`; `None` is a null payload, for which reading the winner throws
        after the game-over flag was already set. */
    method HandleGameOver(go: Option<GameOverDto>)
      modifies this
      ensures gameOver
      ensures go.Some? ==> (gameWon <==> go.value.winnerId == Some(id))
      ensures go.None? ==> gameWon == old(gameWon)
      ensures views == old(views) && orbs == old(orbs)
      ensures wasBoosting == old(wasBoosting) && lastOrbCount == old(lastOrbCount)
    {
      gameOver := true;
      if go.Some? {
        gameWon := go.value.winnerId == Some(id);
      }
    }

    /** `HandleReset`: the histories and orbs are discarded and both game flags dropped.
        The event flags are kept. */
    method HandleReset()
      modifies this
      ensures Valid()
      ensures views == map[] && orbs == [] && !gameOver && !gameWon
      ensures wasBoosting == old(wasBoosting) && lastOrbCount == old(lastOrbCount)
    {
      gameOver := false;
      gameWon := false;
      views := map[];
      orbs := [];
    }

    /** `GetInterpolated` at time `now`: one interpolated entry per view, with every
        view's particles aged in place. */
    method GetInterpolated(now: real) returns (result: map<string, Interpolated>)
      requires Valid()
      modifies this
      ensures Valid()
      ensures views.Keys == old(views).Keys && forall k :: k in views ==> views[k] == Queried(old(views)[k], now)
      ensures result.Keys == old(views).Keys && forall k :: k in result ==> result[k] == Sample(old(views)[k], now)
      ensures orbs == old(orbs) && wasBoosting == old(wasBoosting) && lastOrbCount == old(lastOrbCount)
      ensures gameOver == old(gameOver) && gameWon == old(gameWon)
    {
      ghost var v0 := views;
      result := map[];
      var pending := views.Keys;
      while pending != {}
        invariant pending <= v0.Keys && views.Keys == v0.Keys
        invariant forall k :: k in pending ==> views[k] == v0[k]
        invariant forall k :: k in v0 && k !in pending ==> views[k] == Queried(v0[k], now)
        invariant result.Keys == v0.Keys - pending
        invariant forall k :: k in result ==> result[k] == Sample(v0[k], now)
        invariant orbs == old(orbs) && wasBoosting == old(wasBoosting) && lastOrbCount == old(lastOrbCount)
        invariant gameOver == old(gameOver) && gameWon == old(gameWon)
        invariant KeyedById(views)
        decreases |pending|
      {
        var key :| key in pending;
        var entry := QueryView(key, now);
        result := result[key := entry];
        pending := pending - {key};
      }
    }

    /** The body of the `foreach` in `GetInterpolated` for the view under `key`. */
    method QueryView(key: string, now: real) returns (entry: Interpolated)
      requires key in views
      modifies this
      ensures entry == Sample(old(views)[key], now)
      ensures views == old(views)[key := Queried(old(views)[key], now)]
      ensures orbs == old(orbs) && wasBoosting == old(wasBoosting) && lastOrbCount == old(lastOrbCount)
      ensures gameOver == old(gameOver) && gameWon == old(gameWon)
    {
      var v := views[key];
      var t := InterpT(v.lastUpdate, now);
      var ix := Lerp(v.lastX, v.x, t);
      var iy := Lerp(v.lastY, v.y, t);
      var delta := NormalizeAngleDelta(v.angle - v.lastAngle);
      var ia := Turned(v.lastAngle, delta, t);
      var ps := AgeParticles(v.particles, now - v.lastUpdate);
      views := views[key := v.(particles := ps)];
      entry := Interpolated(ix, iy, ia, v.score, v.boostCharges, v.boostActive, v.pulseUntil, ps);
    }
  }
}
