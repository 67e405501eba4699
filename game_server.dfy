/** The authoritative server (`Server.GameServer`): input application, disconnect
    handling, the fixed-step simulation tick, the per-tick snapshot and the
    change-suppressed dashboard mirror.

    The player dictionary is a sequence in insertion order: that order decides
    which player collects an orb when several are in reach. `MathF.Sqrt` and
    `MathF.Atan2` are the parameters `sqrt` and `atan2`; the clock is `now`; the
    random orb spawns are a supply of `SpawnDraw`s consumed in order. */
module Server {
  import opened Prelude
  import opened Messages
  import opened ServerModel

  const WorldW: real := 800.0
  const WorldH: real := 600.0
  /** Players are clamped to `[Margin, World - Margin]` on each axis. */
  const Margin: real := 20.0
  /** `(float)_tickDt`: 25 ms. */
  const TickDt: real := 0.025
  const BoostDuration: real := 0.6
  const BoostFactor: real := 2.2
  /** Intent vectors no longer than this count as "no intent". */
  const IntentEpsilon: real := 0.0001
  /** `collectR2 = 20f * 20f`. */
  const CollectR2: real := 400.0
  const InitialOrbCount: nat := 6
  /** `_rng.Next(40, (int)_worldW - 40)` and `_rng.Next(40, (int)_worldH - 40)`: upper bounds exclusive. */
  const SpawnMin: int := 40
  const SpawnMaxX: int := 760
  const SpawnMaxY: int := 560

  // ---------------------------------------------------------------------------
  // Orb spawning
  // ---------------------------------------------------------------------------

  /** One call of `SpawnOrb`'s random sources: the Guid-derived id and two `Random.Next` draws. */
  datatype SpawnDraw = SpawnDraw(id: string, x: int, y: int)

  predicate ValidDraw(d: SpawnDraw)
  {
    SpawnMin <= d.x < SpawnMaxX && SpawnMin <= d.y < SpawnMaxY
  }

  predicate ValidDraws(ds: seq<SpawnDraw>)
  {
    forall k :: 0 <= k < |ds| ==> ValidDraw(ds[k])
  }

  function SpawnedOrb(d: SpawnDraw): OrbDto
  {
    OrbDto(d.id, d.x as real, d.y as real)
  }

  /** The orbs a run of draws spawns, in order. */
  function Spawns(ds: seq<SpawnDraw>): (r: seq<OrbDto>)
    ensures |r| == |ds|
    ensures forall k :: 0 <= k < |ds| ==> r[k] == SpawnedOrb(ds[k])
  {
    seq(|ds|, k requires 0 <= k < |ds| => SpawnedOrb(ds[k]))
  }

  /** Every spawned orb lies in the spawn field. */
  predicate InField(o: OrbDto)
  {
    SpawnMin as real <= o.x < SpawnMaxX as real && SpawnMin as real <= o.y < SpawnMaxY as real
  }

  predicate InBounds(p: SimPlayer)
  {
    Margin <= p.x <= WorldW - Margin && Margin <= p.y <= WorldH - Margin
  }

  function RemoveAt<T>(s: seq<T>, i: nat): (r: seq<T>)
    requires i < |s|
    ensures |r| == |s| - 1
    ensures forall k :: 0 <= k < i ==> r[k] == s[k]
    ensures forall k :: i <= k < |r| ==> r[k] == s[k + 1]
  {
    s[..i] + s[i + 1..]
  }

  // ---------------------------------------------------------------------------
  // The state the server keeps between handlers
  // ---------------------------------------------------------------------------

  /** What every handler preserves: a constant orb count with every orb in the spawn
      field; distinct, non-blank player ids; every player inside the world bounds,
      with non-negative score and charges and the base speed. */
  predicate ServerInvariant(ps: seq<SimPlayer>, os: seq<OrbDto>)
  {
    && |os| == InitialOrbCount
    && (forall k :: 0 <= k < |os| ==> InField(os[k]))
    && (forall k :: 0 <= k < |ps| ==> PlayerInvariant(ps[k]))
    && (forall k, m :: 0 <= k < m < |ps| ==> ps[k].id != ps[m].id)
  }

  predicate PlayerInvariant(p: SimPlayer)
  {
    && InBounds(p)
    && p.score >= 0
    && p.boostCharges >= 0
    && p.speed == BaseSpeed
    && !IsNullOrWhiteSpace(Some(p.id))
  }

  // ---------------------------------------------------------------------------
  // Input application (the locked part of OnNetworkReceive)
  // ---------------------------------------------------------------------------

  /** `_playersSim.TryGetValue(id, ...)`: the position of the player with that id. */
  function IndexOf(ps: seq<SimPlayer>, id: string, from: nat := 0): (r: Option<nat>)
    requires from <= |ps|
    ensures r.None? <==> forall m :: from <= m < |ps| ==> ps[m].id != id
    ensures r.Some? ==> from <= r.value < |ps| && ps[r.value].id == id
    ensures r.Some? ==> forall m :: from <= m < r.value ==> ps[m].id != id
    decreases |ps| - from
  {
    if from == |ps| then None
    else if ps[from].id == id then Some(from)
    else IndexOf(ps, id, from + 1)
  }

  /** Normalise and store one input payload for an existing player. */
  function ApplyIntent(p: SimPlayer, input: InputPayload, sqrt: real -> real, atan2: (real, real) -> real): (q: SimPlayer)
    // only the intent, the facing and the pending boost may change
    ensures q == p.(inputDx := q.inputDx, inputDy := q.inputDy, angle := q.angle, consumeBoost := q.consumeBoost)
    // boost is edge-triggered: false never clears a pending request
    ensures q.consumeBoost == (p.consumeBoost || input.boost)
    ensures var len := sqrt(input.dx * input.dx + input.dy * input.dy);
            if len > IntentEpsilon then
              q.inputDx * len == input.dx && q.inputDy * len == input.dy
              && q.angle == atan2(q.inputDy, q.inputDx)
            else
              q.inputDx == 0.0 && q.inputDy == 0.0 && q.angle == p.angle
  {
    var len := sqrt(input.dx * input.dx + input.dy * input.dy);
    var q := if len > IntentEpsilon then
        var ndx := input.dx / len;
        var ndy := input.dy / len;
        p.(inputDx := ndx, inputDy := ndy, angle := atan2(ndy, ndx))
      else
        p.(inputDx := 0.0, inputDy := 0.0);
    if input.boost then q.(consumeBoost := true) else q
  }

  /** With an exact square root, a stored intent is a unit vector or zero. */
  lemma ApplyIntentNormalises(p: SimPlayer, input: InputPayload, sqrt: real -> real, atan2: (real, real) -> real)
    requires var n := input.dx * input.dx + input.dy * input.dy; sqrt(n) >= 0.0 && sqrt(n) * sqrt(n) == n
    ensures var q := ApplyIntent(p, input, sqrt, atan2);
            (q.inputDx == 0.0 && q.inputDy == 0.0) || q.inputDx * q.inputDx + q.inputDy * q.inputDy == 1.0
  {
    var n := input.dx * input.dx + input.dy * input.dy;
    var len := sqrt(n);
    var q := ApplyIntent(p, input, sqrt, atan2);
    if len > IntentEpsilon {
      calc {
        (q.inputDx * q.inputDx + q.inputDy * q.inputDy) * (len * len);
        (q.inputDx * len) * (q.inputDx * len) + (q.inputDy * len) * (q.inputDy * len);
        input.dx * input.dx + input.dy * input.dy;
        len * len;
      }
    }
  }

  /** The player list after one received datagram from peer `peerId`. */
  function ApplyInput(ps: seq<SimPlayer>, peerId: int, msg: Option<InputMessage>,
                      sqrt: real -> real, atan2: (real, real) -> real): (r: seq<SimPlayer>)
    // undecodable messages and blank ids are ignored
    ensures msg.None? || IsNullOrWhiteSpace(msg.value.id) ==> r == ps
    // an unseen id appends a player at the centre, bound to this peer
    ensures msg.Some? && !IsNullOrWhiteSpace(msg.value.id) && IndexOf(ps, msg.value.id.value).None? ==>
              && |r| == |ps| + 1 && r[..|ps|] == ps
              && var n := r[|ps|];
                 n.id == msg.value.id.value && n.peerId == peerId
                 && n.x == WorldW * 0.5 && n.y == WorldH * 0.5
                 && n.score == 0 && n.boostCharges == 0 && !n.boostActive && n.speed == BaseSpeed
    // a known id keeps its place, its peer and its position; nobody else changes
    ensures msg.Some? && !IsNullOrWhiteSpace(msg.value.id) && IndexOf(ps, msg.value.id.value).Some? ==>
              var k := IndexOf(ps, msg.value.id.value).value;
              && |r| == |ps|
              && (forall m :: 0 <= m < |ps| && m != k ==> r[m] == ps[m])
              && r[k].peerId == ps[k].peerId && r[k].x == ps[k].x && r[k].y == ps[k].y
              && r[k].score == ps[k].score && r[k].boostCharges == ps[k].boostCharges
              && (ps[k].consumeBoost ==> r[k].consumeBoost)
    // the player with that id (found or just created) takes the payload through
    // ApplyIntent; a message without one only creates the player
    ensures msg.Some? && !IsNullOrWhiteSpace(msg.value.id) ==>
              var id := msg.value.id.value;
              var k := if IndexOf(ps, id).Some? then IndexOf(ps, id).value else |ps|;
              var before := if IndexOf(ps, id).Some? then ps[k] else NewSimPlayer(id, peerId, WorldW * 0.5, WorldH * 0.5);
              && k < |r|
              && (msg.value.input.None? ==> r[k] == before)
              && (msg.value.input.Some? ==> r[k] == ApplyIntent(before, msg.value.input.value, sqrt, atan2))
              && (msg.value.input.Some? && msg.value.input.value.boost ==> r[k].consumeBoost)
  {
    if msg.None? || IsNullOrWhiteSpace(msg.value.id) then ps
    else
      var id := msg.value.id.value;
      var ps1 := if IndexOf(ps, id).Some? then ps else ps + [NewSimPlayer(id, peerId, WorldW * 0.5, WorldH * 0.5)];
      var k := if IndexOf(ps, id).Some? then IndexOf(ps, id).value else |ps|;
      // a missing "input" object throws after the player was created
      if msg.value.input.None? then ps1
      else ps1[k := ApplyIntent(ps1[k], msg.value.input.value, sqrt, atan2)]
  }

  /** Applying input keeps the server invariant and never moves or credits anyone. */
  lemma ApplyInputKeepsInvariant(ps: seq<SimPlayer>, os: seq<OrbDto>, peerId: int, msg: Option<InputMessage>,
                                 sqrt: real -> real, atan2: (real, real) -> real)
    requires ServerInvariant(ps, os)
    ensures ServerInvariant(ApplyInput(ps, peerId, msg, sqrt, atan2), os)
  {
    var r := ApplyInput(ps, peerId, msg, sqrt, atan2);
    if msg.Some? && !IsNullOrWhiteSpace(msg.value.id) {
      var id := msg.value.id.value;
      if IndexOf(ps, id).None? {
        assert r[|ps|].id == id;
        forall k, m | 0 <= k < m < |r| ensures r[k].id != r[m].id {
          if m < |ps| { assert r[k] == ps[k] && r[m] == ps[m]; }
        }
      } else {
        var k0 := IndexOf(ps, id).value;
        assert r[k0].id == ps[k0].id;
        forall k | 0 <= k < |r| ensures r[k].id == ps[k].id {}
      }
    }
  }

  // ---------------------------------------------------------------------------
  // Disconnect (OnPeerDisconnected)
  // ---------------------------------------------------------------------------

  /** `_playersSim.FirstOrDefault(p => p.Value.PeerId == peer.Id)`. */
  function FirstOfPeer(ps: seq<SimPlayer>, peerId: int, from: nat := 0): (r: Option<nat>)
    requires from <= |ps|
    ensures r.None? <==> forall m :: from <= m < |ps| ==> ps[m].peerId != peerId
    ensures r.Some? ==> from <= r.value < |ps| && ps[r.value].peerId == peerId
    ensures r.Some? ==> forall m :: from <= m < r.value ==> ps[m].peerId != peerId
    decreases |ps| - from
  {
    if from == |ps| then None
    else if ps[from].peerId == peerId then Some(from)
    else FirstOfPeer(ps, peerId, from + 1)
  }

  /** The players after peer `peerId` disconnects: only the first player bound to it goes. */
  function RemovePeer(ps: seq<SimPlayer>, peerId: int): (r: seq<SimPlayer>)
    ensures |r| <= |ps| && forall q :: q in r ==> q in ps
    // the list is unchanged exactly when no player is bound to the peer
    ensures r == ps <==> forall m :: 0 <= m < |ps| ==> ps[m].peerId != peerId
  {
    match FirstOfPeer(ps, peerId)
    case None => ps
    case Some(k) => RemoveAt(ps, k)
  }

  /** How many players are bound to a peer. */
  function PeerCount(ps: seq<SimPlayer>, peerId: int): nat
  {
    if |ps| == 0 then 0
    else (if ps[0].peerId == peerId then 1 else 0) + PeerCount(ps[1..], peerId)
  }

  lemma {:induction false} PeerCountRemoveAt(ps: seq<SimPlayer>, k: nat, peerId: int)
    requires k < |ps|
    ensures PeerCount(ps, peerId) == PeerCount(RemoveAt(ps, k), peerId) + (if ps[k].peerId == peerId then 1 else 0)
  {
    if k > 0 {
      assert RemoveAt(ps, k)[1..] == RemoveAt(ps[1..], k - 1);
      PeerCountRemoveAt(ps[1..], k - 1, peerId);
    } else {
      assert RemoveAt(ps, 0) == ps[1..];
    }
  }

  lemma {:induction false} PeerCountZero(ps: seq<SimPlayer>, peerId: int)
    requires forall m :: 0 <= m < |ps| ==> ps[m].peerId != peerId
    ensures PeerCount(ps, peerId) == 0
  {
    if |ps| > 0 { PeerCountZero(ps[1..], peerId); }
  }

  /** A disconnect removes exactly one of the peer's players when it has any (so a
      peer that sent input under several ids leaves the others behind), keeps the
      order of the rest and removes nobody bound to another peer. */
  lemma RemovePeerRemovesOne(ps: seq<SimPlayer>, peerId: int)
    ensures var r := RemovePeer(ps, peerId);
            && PeerCount(r, peerId) == (if PeerCount(ps, peerId) == 0 then 0 else PeerCount(ps, peerId) - 1)
            && |r| == (if PeerCount(ps, peerId) == 0 then |ps| else |ps| - 1)
            && (forall q :: q in ps && q.peerId != peerId ==> q in r)
            && (PeerCount(ps, peerId) > 0 ==>
                  exists k :: 0 <= k < |ps| && ps[k].peerId == peerId && r == ps[..k] + ps[k + 1..])
  {
    match FirstOfPeer(ps, peerId)
    case None =>
      PeerCountZero(ps, peerId);
    case Some(k) =>
      PeerCountRemoveAt(ps, k, peerId);
      var r := RemoveAt(ps, k);
      assert ps[k].peerId == peerId && r == ps[..k] + ps[k + 1..];
      forall q | q in ps && q.peerId != peerId ensures q in r {
        var i :| 0 <= i < |ps| && ps[i] == q;
        if i < k { assert r[i] == q; } else { assert i > k && r[i - 1] == q; }
      }
  }

  lemma RemovePeerKeepsInvariant(ps: seq<SimPlayer>, os: seq<OrbDto>, peerId: int)
    requires ServerInvariant(ps, os)
    ensures ServerInvariant(RemovePeer(ps, peerId), os)
  {
    match FirstOfPeer(ps, peerId)
    case None =>
    case Some(k) =>
      var r := RemoveAt(ps, k);
      forall a, b | 0 <= a < b < |r| ensures r[a].id != r[b].id {
        var a' := if a < k then a else a + 1;
        var b' := if b < k then b else b + 1;
        assert r[a] == ps[a'] && r[b] == ps[b'];
      }
  }

  // ---------------------------------------------------------------------------
  // Tick phase 1: boost and movement of each player
  // ---------------------------------------------------------------------------

  predicate BoostFires(p: SimPlayer)
  {
    p.consumeBoost && p.boostCharges > 0 && !p.boostActive
  }

  /** Boost resolution (edge-triggered, one charge, time-limited) and consumption of the request. */
  function ResolveBoost(p: SimPlayer, now: real): (b: SimPlayer)
    ensures b == p.(boostActive := b.boostActive, boostCharges := b.boostCharges,
                    boostUntil := b.boostUntil, consumeBoost := false)
    // a boost fires only when requested, charged and not already running; it costs one charge
    ensures BoostFires(p) ==>
              b.boostActive && b.boostCharges == p.boostCharges - 1 && b.boostUntil == now + BoostDuration
    ensures !BoostFires(p) ==>
              b.boostCharges == p.boostCharges && b.boostUntil == p.boostUntil
              && b.boostActive == (p.boostActive && now < p.boostUntil)
    ensures p.boostCharges >= 0 ==> b.boostCharges >= 0
    // a running boost ends only once its time is up
    ensures p.boostActive && !b.boostActive ==> now >= b.boostUntil
  {
    var b := if BoostFires(p) then p.(boostActive := true, boostCharges := p.boostCharges - 1, boostUntil := now + BoostDuration) else p;
    var b := b.(consumeBoost := false);
    if b.boostActive && now >= b.boostUntil then b.(boostActive := false) else b
  }

  /** `speed = sp.BoostActive ? sp.Speed * 2.2f : sp.Speed` */
  function EffectiveSpeed(b: SimPlayer): real
  {
    if b.boostActive then b.speed * BoostFactor else b.speed
  }

  /** One axis of a step: `pos + n * speed * dt` with `n = d / len` the normalised intent. */
  function Advance(pos: real, d: real, len: real, speed: real): real
    requires len != 0.0
  {
    pos + d / len * speed * TickDt
  }

  /** Movement along the re-normalised intent, facing update and the world clamp. */
  function Move(b: SimPlayer, sqrt: real -> real, atan2: (real, real) -> real): (q: SimPlayer)
    ensures q == b.(x := q.x, y := q.y, angle := q.angle)
    ensures InBounds(q)
    ensures var len := sqrt(b.inputDx * b.inputDx + b.inputDy * b.inputDy);
            len > IntentEpsilon ==>
              && q.angle == atan2(b.inputDy / len, b.inputDx / len)
              && q.x == Clamp(Advance(b.x, b.inputDx, len, EffectiveSpeed(b)), Margin, WorldW - Margin)
              && q.y == Clamp(Advance(b.y, b.inputDy, len, EffectiveSpeed(b)), Margin, WorldH - Margin)
    ensures var len := sqrt(b.inputDx * b.inputDx + b.inputDy * b.inputDy);
            len <= IntentEpsilon ==>
              q.angle == b.angle && q.x == Clamp(b.x, Margin, WorldW - Margin) && q.y == Clamp(b.y, Margin, WorldH - Margin)
  {
    var len := sqrt(b.inputDx * b.inputDx + b.inputDy * b.inputDy);
    if len > IntentEpsilon then
      b.(angle := atan2(b.inputDy / len, b.inputDx / len),
         x := Clamp(Advance(b.x, b.inputDx, len, EffectiveSpeed(b)), Margin, WorldW - Margin),
         y := Clamp(Advance(b.y, b.inputDy, len, EffectiveSpeed(b)), Margin, WorldH - Margin))
    else
      // the normalised intent is zero: so is the displacement
      b.(x := Clamp(b.x, Margin, WorldW - Margin), y := Clamp(b.y, Margin, WorldH - Margin))
  }

  /** One player's part of a tick at time `now`. */
  function StepPlayer(p: SimPlayer, now: real, sqrt: real -> real, atan2: (real, real) -> real): (q: SimPlayer)
    ensures q.id == p.id && q.peerId == p.peerId && q.score == p.score && q.speed == p.speed
    ensures q.inputDx == p.inputDx && q.inputDy == p.inputDy && q.boostActive == ResolveBoost(p, now).boostActive
    // the pending request is always consumed
    ensures !q.consumeBoost
    // the hard world clamp
    ensures InBounds(q)
    ensures p.boostCharges >= 0 ==> q.boostCharges >= 0
    // a boost started in this tick is still running at its end
    ensures BoostFires(p) ==> q.boostActive
    // with no intent a player keeps its facing and only the clamp may move it
    ensures p.inputDx == 0.0 && p.inputDy == 0.0 && sqrt(0.0) == 0.0 ==>
              q.angle == p.angle && q.x == Clamp(p.x, Margin, WorldW - Margin) && q.y == Clamp(p.y, Margin, WorldH - Margin)
  {
    Move(ResolveBoost(p, now), sqrt, atan2)
  }

  function StepAll(ps: seq<SimPlayer>, now: real, sqrt: real -> real, atan2: (real, real) -> real): (r: seq<SimPlayer>)
    ensures |r| == |ps|
    ensures forall k :: 0 <= k < |ps| ==> r[k] == StepPlayer(ps[k], now, sqrt, atan2)
  {
    seq(|ps|, k requires 0 <= k < |ps| => StepPlayer(ps[k], now, sqrt, atan2))
  }

  /** Successive ticks of one player, one per entry of `nows`. */
  function Run(p: SimPlayer, nows: seq<real>, sqrt: real -> real, atan2: (real, real) -> real): SimPlayer
    decreases |nows|
  {
    if |nows| == 0 then p else Run(StepPlayer(p, nows[0], sqrt, atan2), nows[1..], sqrt, atan2)
  }

  /** Holding "right" with no boost moves a player 160 px/s * 25 ms = 4 px per tick,
      so 40 ticks (one second) move it 160 px while it stays clear of the wall. */
  lemma {:induction false} RunStraight(p: SimPlayer, nows: seq<real>, sqrt: real -> real, atan2: (real, real) -> real)
    requires sqrt(1.0) == 1.0
    requires p.inputDx == 1.0 && p.inputDy == 0.0 && p.speed == BaseSpeed
    requires !p.boostActive && !p.consumeBoost
    requires InBounds(p) && p.x + 4.0 * |nows| as real <= WorldW - Margin
    ensures Run(p, nows, sqrt, atan2).x == p.x + 4.0 * |nows| as real
    ensures Run(p, nows, sqrt, atan2).y == p.y
    decreases |nows|
  {
    if |nows| > 0 {
      var q := StepPlayer(p, nows[0], sqrt, atan2);
      assert q.x == p.x + 4.0;
      RunStraight(q, nows[1..], sqrt, atan2);
    }
  }

  // ---------------------------------------------------------------------------
  // Tick phase 2: orb collection
  // ---------------------------------------------------------------------------

  /** `dx * dx + dy * dy <= collectR2` for a player at `(x, y)`. */
  predicate InReachAt(x: real, y: real, o: OrbDto)
  {
    var dx := x - o.x;
    var dy := y - o.y;
    dx * dx + dy * dy <= CollectR2
  }

  predicate InReach(p: SimPlayer, o: OrbDto)
  {
    InReachAt(p.x, p.y, o)
  }

  /** The first player (in list order, from `from`) in reach of an orb. */
  function FirstInReach(ps: seq<SimPlayer>, o: OrbDto, from: nat := 0): (r: Option<nat>)
    requires from <= |ps|
    ensures r.None? <==> forall m :: from <= m < |ps| ==> !InReach(ps[m], o)
    ensures r.Some? ==> from <= r.value < |ps| && InReach(ps[r.value], o)
    ensures r.Some? ==> forall m :: from <= m < r.value ==> !InReach(ps[m], o)
    decreases |ps| - from
  {
    if from == |ps| then None
    else if InReach(ps[from], o) then Some(from)
    else FirstInReach(ps, o, from + 1)
  }

  /** A player credited with `n` orbs: `Score += 1` and `BoostCharges = 1` per orb. */
  function Credit(p: SimPlayer, n: nat): (c: SimPlayer)
    ensures c.score == p.score + n
    ensures n == 0 ==> c == p
    ensures n > 0 ==> c.boostCharges == 1
    // nothing but the score and the charges changes
    ensures c == p.(score := c.score, boostCharges := c.boostCharges)
  {
    if n == 0 then p else p.(score := p.score + n, boostCharges := 1)
  }

  /** The world during the reverse orb loop, with the number of spawn draws consumed. */
  datatype Arena = Arena(players: seq<SimPlayer>, orbs: seq<OrbDto>, spawned: nat)

  /** One iteration of the reverse loop, at orb index `i`. */
  function CollectOrb(a: Arena, i: nat, draws: seq<SpawnDraw>): (b: Arena)
    requires i < |a.orbs| && a.spawned < |draws|
    ensures |b.orbs| == |a.orbs| && |b.players| == |a.players|
    ensures b.orbs[..i] == a.orbs[..i]
  {
    match FirstInReach(a.players, a.orbs[i])
    case None => a
    case Some(j) =>
      Arena(a.players[j := Credit(a.players[j], 1)],
            RemoveAt(a.orbs, i) + [SpawnedOrb(draws[a.spawned])],
            a.spawned + 1)
  }

  /** The reverse loop over orb indices `i - 1` down to `0`. */
  function Collect(a: Arena, i: nat, draws: seq<SpawnDraw>): (b: Arena)
    requires i <= |a.orbs| && a.spawned + i <= |draws|
    ensures |b.orbs| == |a.orbs| && |b.players| == |a.players|
    ensures a.spawned <= b.spawned <= a.spawned + i
    decreases i
  {
    if i == 0 then a else Collect(CollectOrb(a, i - 1, draws), i - 1, draws)
  }

  /** One whole `SimTick`. */
  function Tick(ps: seq<SimPlayer>, os: seq<OrbDto>, now: real, sqrt: real -> real, atan2: (real, real) -> real,
                draws: seq<SpawnDraw>): (b: Arena)
    requires |os| <= |draws|
    ensures |b.players| == |ps| && |b.orbs| == |os|
    // at most one spawn draw per orb
    ensures b.spawned <= |os|
  {
    Collect(Arena(StepAll(ps, now, sqrt, atan2), os, 0), |os|, draws)
  }

  // ---- a reference description of collection: every orb is resolved on its own ----

  /** The orbs of `os` nobody is in reach of (collection does not move players, so
      this is decided by positions alone). */
  function Uncollected(ps: seq<SimPlayer>, os: seq<OrbDto>): (r: seq<OrbDto>)
    ensures |r| <= |os|
    ensures forall o :: o in r ==> o in os
  {
    if |os| == 0 then []
    else
      var last := os[|os| - 1];
      Uncollected(ps, os[..|os| - 1]) + if FirstInReach(ps, last).None? then [last] else []
  }

  /** How many orbs of `os` have player `j` as their first player in reach. */
  function Claims(ps: seq<SimPlayer>, os: seq<OrbDto>, j: nat): nat
  {
    if |os| == 0 then 0
    else Claims(ps, os[..|os| - 1], j) + if FirstInReach(ps, os[|os| - 1]) == Some(j) then 1 else 0
  }

  predicate SamePositions(ps: seq<SimPlayer>, qs: seq<SimPlayer>)
  {
    |ps| == |qs| && forall k :: 0 <= k < |ps| ==> ps[k].x == qs[k].x && ps[k].y == qs[k].y
  }

  lemma {:induction false} FirstInReachByPosition(ps: seq<SimPlayer>, qs: seq<SimPlayer>, o: OrbDto, from: nat)
    requires SamePositions(ps, qs) && from <= |ps|
    ensures FirstInReach(ps, o, from) == FirstInReach(qs, o, from)
    decreases |ps| - from
  {
    if from < |ps| {
      FirstInReachByPosition(ps, qs, o, from + 1);
    }
  }

  lemma {:induction false} ResolutionByPosition(ps: seq<SimPlayer>, qs: seq<SimPlayer>, os: seq<OrbDto>)
    requires SamePositions(ps, qs)
    ensures Uncollected(ps, os) == Uncollected(qs, os)
    ensures forall j :: Claims(ps, os, j) == Claims(qs, os, j)
  {
    if |os| > 0 {
      FirstInReachByPosition(ps, qs, os[|os| - 1], 0);
      ResolutionByPosition(ps, qs, os[..|os| - 1]);
    }
  }

  lemma UncollectedSnoc(ps: seq<SimPlayer>, os: seq<OrbDto>, o: OrbDto)
    ensures Uncollected(ps, os + [o]) == Uncollected(ps, os) + if FirstInReach(ps, o).None? then [o] else []
  {
    var s := os + [o];
    assert s[..|s| - 1] == os && s[|s| - 1] == o;
  }

  lemma ClaimsSnoc(ps: seq<SimPlayer>, os: seq<OrbDto>, o: OrbDto, j: nat)
    ensures Claims(ps, os + [o], j) == Claims(ps, os, j) + if FirstInReach(ps, o) == Some(j) then 1 else 0
  {
    var s := os + [o];
    assert s[..|s| - 1] == os && s[|s| - 1] == o;
  }

  lemma DropCons<T>(s: seq<T>, k: nat)
    requires k < |s|
    ensures s[k..] == [s[k]] + s[k + 1..]
  {
  }

  lemma Reassociate<T>(s1: seq<T>, s2: seq<T>, s3: seq<T>, s4: seq<T>)
    ensures s1 + (s2 + s3) + s4 == s1 + s2 + s3 + s4
    ensures s1 + (s3 + s2) + s4 == s1 + s3 + (s2 + s4)
  {
  }

  lemma SpawnsCons(draws: seq<SpawnDraw>, lo: nat, hi: nat)
    requires lo < hi <= |draws|
    ensures Spawns(draws[lo..hi]) == [SpawnedOrb(draws[lo])] + Spawns(draws[lo + 1..hi])
  {
    assert draws[lo..hi] == [draws[lo]] + draws[lo + 1..hi];
  }

  /** The orbs after the reverse loop: the ones nobody reaches stay in order, the
      unvisited ones follow, then one spawned orb per collected orb, with one draw
      used per collected orb. */
  lemma {:induction false} CollectOrbsMatchReference(a: Arena, i: nat, draws: seq<SpawnDraw>)
    requires i <= |a.orbs| && a.spawned + i <= |draws|
    ensures var b := Collect(a, i, draws);
            && b.orbs == Uncollected(a.players, a.orbs[..i]) + a.orbs[i..] + Spawns(draws[a.spawned..b.spawned])
            && b.spawned - a.spawned == i - |Uncollected(a.players, a.orbs[..i])|
    decreases i
  {
    if i == 0 {
      assert a.orbs[..0] == [];
      assert draws[a.spawned..a.spawned] == [];
    } else {
      var a' := CollectOrb(a, i - 1, draws);
      CollectOrbsMatchReference(a', i - 1, draws);
      var b := Collect(a', i - 1, draws);
      OrbsStep(a, i, draws, b.orbs, b.spawned);
    }
  }

  /** One step of the reverse loop, stated on the loop's result `(bo, bs)`. */
  lemma OrbsStep(a: Arena, i: nat, draws: seq<SpawnDraw>, bo: seq<OrbDto>, bs: nat)
    requires 0 < i <= |a.orbs| && a.spawned + i <= |draws|
    requires var a' := CollectOrb(a, i - 1, draws);
             && a'.spawned <= bs <= |draws|
             && bo == Uncollected(a'.players, a'.orbs[..i - 1]) + a'.orbs[i - 1..] + Spawns(draws[a'.spawned..bs])
             && bs - a'.spawned == i - 1 - |Uncollected(a'.players, a'.orbs[..i - 1])|
    ensures bo == Uncollected(a.players, a.orbs[..i]) + a.orbs[i..] + Spawns(draws[a.spawned..bs])
    ensures bs - a.spawned == i - |Uncollected(a.players, a.orbs[..i])|
  {
    var a' := CollectOrb(a, i - 1, draws);
    var pre := a.orbs[..i - 1];
    var orb := a.orbs[i - 1];
    var rest := a.orbs[i..];
    assert a.orbs[..i] == pre + [orb];
    UncollectedSnoc(a.players, pre, orb);
    var u := Uncollected(a.players, pre);
    DropCons(a.orbs, i - 1);
    if FirstInReach(a.players, orb).None? {
      assert a' == a;
      Reassociate(u, [orb], rest, Spawns(draws[a.spawned..bs]));
    } else {
      var s0 := SpawnedOrb(draws[a.spawned]);
      assert a'.orbs == pre + rest + [s0];
      assert a'.orbs[..i - 1] == pre;
      assert a'.orbs[i - 1..] == rest + [s0];
      assert SamePositions(a'.players, a.players);
      ResolutionByPosition(a'.players, a.players, pre);
      assert Uncollected(a'.players, a'.orbs[..i - 1]) == u;
      assert a'.spawned == a.spawned + 1;
      var sp := Spawns(draws[a.spawned + 1..bs]);
      assert bo == u + (rest + [s0]) + sp;
      SpawnsCons(draws, a.spawned, bs);
      Reassociate(u, [s0], rest, sp);
      assert Uncollected(a.players, a.orbs[..i]) == u;
    }
  }

  /** The players after the reverse loop: each is credited with exactly the orbs for
      which it is the first player in reach, so no orb is credited twice. */
  lemma {:induction false} CollectCreditsMatchReference(a: Arena, i: nat, draws: seq<SpawnDraw>)
    requires i <= |a.orbs| && a.spawned + i <= |draws|
    ensures var b := Collect(a, i, draws);
            && |b.players| == |a.players|
            && forall j :: 0 <= j < |a.players| ==> b.players[j] == Credit(a.players[j], Claims(a.players, a.orbs[..i], j))
    decreases i
  {
    if i == 0 {
      assert a.orbs[..0] == [];
    } else {
      var b := Collect(a, i, draws);
      var a' := CollectOrb(a, i - 1, draws);
      CollectCreditsMatchReference(a', i - 1, draws);
      var pre := a.orbs[..i - 1];
      var orb := a.orbs[i - 1];
      assert a.orbs[..i] == pre + [orb];
      assert a'.orbs[..i - 1] == pre;
      assert SamePositions(a'.players, a.players);
      ResolutionByPosition(a'.players, a.players, pre);
      forall j | 0 <= j < |a.players|
        ensures b.players[j] == Credit(a.players[j], Claims(a.players, a.orbs[..i], j))
      {
        ClaimsSnoc(a.players, pre, orb, j);
        var c := Claims(a.players, pre, j);
        assert b.players[j] == Credit(a'.players[j], c);
        match FirstInReach(a.players, orb)
        case None =>
        case Some(j0) =>
          if j == j0 {
            CreditTwice(a.players[j], c);
          }
      }
    }
  }

  lemma CreditTwice(p: SimPlayer, n: nat)
    ensures Credit(Credit(p, 1), n) == Credit(p, n + 1)
  {
  }

  /** A stepped and credited player keeps the player invariant, its id and its stepped position. */
  lemma StepCreditKeepsPlayer(p: SimPlayer, now: real, sqrt: real -> real, atan2: (real, real) -> real, n: nat)
    requires PlayerInvariant(p)
    ensures var q := Credit(StepPlayer(p, now, sqrt, atan2), n);
            PlayerInvariant(q) && q.id == p.id
            && q.x == StepPlayer(p, now, sqrt, atan2).x && q.y == StepPlayer(p, now, sqrt, atan2).y
  {
  }

  /** The orbs after a tick: still six, all in the spawn field. */
  lemma TickKeepsOrbs(ps: seq<SimPlayer>, os: seq<OrbDto>, draws: seq<SpawnDraw>)
    requires |os| == InitialOrbCount && (forall k :: 0 <= k < |os| ==> InField(os[k]))
    requires |os| <= |draws| && ValidDraws(draws)
    ensures var t := Collect(Arena(ps, os, 0), |os|, draws);
            |t.orbs| == InitialOrbCount && forall k :: 0 <= k < |t.orbs| ==> InField(t.orbs[k])
  {
    var a := Arena(ps, os, 0);
    CollectOrbsMatchReference(a, |os|, draws);
    var t := Collect(a, |os|, draws);
    assert os[..|os|] == os && os[|os|..] == [];
    var u := Uncollected(ps, os);
    var sp := Spawns(draws[0..t.spawned]);
    assert t.orbs == u + [] + sp;
    assert u + [] == u;
    assert t.spawned == |os| - |u|;
    RefilledOrbsInField(ps, os, draws, t.orbs, t.spawned);
  }

  lemma RefilledOrbsInField(ps: seq<SimPlayer>, os: seq<OrbDto>, draws: seq<SpawnDraw>, bo: seq<OrbDto>, bs: nat)
    requires forall k :: 0 <= k < |os| ==> InField(os[k])
    requires bs <= |draws| && ValidDraws(draws)
    requires bo == Uncollected(ps, os) + Spawns(draws[0..bs])
    requires bs == |os| - |Uncollected(ps, os)|
    ensures |bo| == |os| && forall k :: 0 <= k < |bo| ==> InField(bo[k])
  {
    var u := Uncollected(ps, os);
    var sp := Spawns(draws[0..bs]);
    forall k | 0 <= k < |bo| ensures InField(bo[k]) {
      if k < |u| {
        assert bo[k] == u[k] && u[k] in os;
      } else {
        assert bo[k] == sp[k - |u|] == SpawnedOrb(draws[k - |u|]);
        assert ValidDraw(draws[k - |u|]);
      }
    }
  }

  /** A tick keeps the server invariant: bounds, the orb count, orbs in the field,
      non-negative scores and charges, distinct ids; collection moves nobody. */
  lemma TickKeepsInvariant(ps: seq<SimPlayer>, os: seq<OrbDto>, now: real, sqrt: real -> real,
                           atan2: (real, real) -> real, draws: seq<SpawnDraw>)
    requires ServerInvariant(ps, os)
    requires |os| <= |draws| && ValidDraws(draws)
    ensures var t := Tick(ps, os, now, sqrt, atan2, draws);
            ServerInvariant(t.players, t.orbs) && SamePositions(t.players, StepAll(ps, now, sqrt, atan2))
  {
    var stepped := StepAll(ps, now, sqrt, atan2);
    var a := Arena(stepped, os, 0);
    var t := Tick(ps, os, now, sqrt, atan2, draws);
    TickKeepsOrbs(stepped, os, draws);
    CollectCreditsMatchReference(a, |os|, draws);
    assert os[..|os|] == os;
    forall k | 0 <= k < |t.players|
      ensures PlayerInvariant(t.players[k]) && t.players[k].id == ps[k].id
      ensures t.players[k].x == stepped[k].x && t.players[k].y == stepped[k].y
    {
      assert PlayerInvariant(ps[k]);
      StepCreditKeepsPlayer(ps[k], now, sqrt, atan2, Claims(stepped, os, k));
    }
  }

  // ---------------------------------------------------------------------------
  // Snapshot and the dashboard mirror
  // ---------------------------------------------------------------------------

  /** The state broadcast after a tick: one projection per player in list order and the orbs. */
  function SnapshotOf(ps: seq<SimPlayer>, os: seq<OrbDto>): (s: StateMessage)
    ensures |s.players| == |ps| && s.orbs == os
    ensures forall k :: 0 <= k < |ps| ==>
              s.players[k] == PlayerDto(ps[k].id, ps[k].x, ps[k].y, ps[k].angle, ps[k].score, ps[k].boostCharges, ps[k].boostActive)
  {
    StateMessage(
      seq(|ps|, k requires 0 <= k < |ps| =>
        PlayerDto(ps[k].id, ps[k].x, ps[k].y, ps[k].angle, ps[k].score, ps[k].boostCharges, ps[k].boostActive)),
      os)
  }

  /** Under the invariant every broadcast position lies inside the world bounds. */
  lemma SnapshotInBounds(ps: seq<SimPlayer>, os: seq<OrbDto>)
    requires ServerInvariant(ps, os)
    ensures var s := SnapshotOf(ps, os);
            forall k :: 0 <= k < |s.players| ==>
              Margin <= s.players[k].x <= WorldW - Margin && Margin <= s.players[k].y <= WorldH - Margin
  {
    var s := SnapshotOf(ps, os);
    forall k | 0 <= k < |s.players|
      ensures Margin <= s.players[k].x <= WorldW - Margin && Margin <= s.players[k].y <= WorldH - Margin
    {
      assert PlayerInvariant(ps[k]);
    }
  }

  /** Two server states with the same ids and positions produce the same mirror key:
      scores, charges, boosts, facings and orb ids never trigger a resend. */
  lemma MirrorKeyIgnoresNonPositional(ps: seq<SimPlayer>, qs: seq<SimPlayer>, os: seq<OrbDto>, os': seq<OrbDto>,
                                      fmt: real -> string)
    requires SamePositions(ps, qs) && forall k :: 0 <= k < |ps| ==> ps[k].id == qs[k].id
    requires |os| == |os'| && forall k :: 0 <= k < |os| ==> os[k].x == os'[k].x && os[k].y == os'[k].y
    ensures StateToString(SnapshotOf(ps, os), fmt) == StateToString(SnapshotOf(qs, os'), fmt)
  {
    StateKeyIgnoresUnkeyedFields(SnapshotOf(ps, os), SnapshotOf(qs, os'), fmt);
  }

  // ---------------------------------------------------------------------------
  // The server object
  // ---------------------------------------------------------------------------

  class GameServer {
    var players: seq<SimPlayer>
    var orbs: seq<OrbDto>
    /** `_lastSentSignalRState`; `None` is null. */
    var lastSentState: Option<string>

    ghost predicate Valid()
      reads this
    {
      ServerInvariant(players, orbs)
    }

    /** Start with no players and six spawned orbs. */
    constructor (draws: seq<SpawnDraw>)
      requires |draws| >= InitialOrbCount && ValidDraws(draws)
      ensures Valid()
      ensures players == [] && orbs == Spawns(draws[..InitialOrbCount]) && lastSentState == None
    {
      players := [];
      orbs := [];
      lastSentState := None;
      new;
      var i := 0;
      while i < InitialOrbCount
        invariant 0 <= i <= InitialOrbCount
        invariant players == [] && lastSentState == None
        invariant orbs == Spawns(draws[..i])
      {
        SpawnOrb(draws[i]);
        assert draws[..i + 1] == draws[..i] + [draws[i]];
        i := i + 1;
      }
      forall k | 0 <= k < |orbs| ensures InField(orbs[k]) {
        assert ValidDraw(draws[k]);
      }
    }

    method SpawnOrb(d: SpawnDraw)
      modifies this
      ensures orbs == old(orbs) + [SpawnedOrb(d)]
      ensures players == old(players) && lastSentState == old(lastSentState)
    {
      orbs := orbs + [SpawnedOrb(d)];
    }

    /** The input path of `OnNetworkReceive`: `msg` is `None` when the datagram did not decode. */
    method OnNetworkReceive(peerId: int, msg: Option<InputMessage>, sqrt: real -> real, atan2: (real, real) -> real)
      requires Valid()
      modifies this
      ensures Valid()
      ensures players == ApplyInput(old(players), peerId, msg, sqrt, atan2)
      ensures orbs == old(orbs) && lastSentState == old(lastSentState)
    {
      ApplyInputKeepsInvariant(players, orbs, peerId, msg, sqrt, atan2);
      if msg.None? || IsNullOrWhiteSpace(msg.value.id) {
        return;
      }
      var id := msg.value.id.value;
      var k: nat;
      match IndexOf(players, id) {
        case Some(j) =>
          k := j;
        case None =>
          players := players + [NewSimPlayer(id, peerId, WorldW * 0.5, WorldH * 0.5)];
          k := |players| - 1;
      }
      assert k < |players| && players[k].id == id;
      assert IndexOf(old(players), id).Some? ==> players == old(players) && k == IndexOf(old(players), id).value;
      assert IndexOf(old(players), id).None? ==> k == |old(players)|;
      if msg.value.input.None? {
        return;
      }
      players := players[k := ApplyIntent(players[k], msg.value.input.value, sqrt, atan2)];
    }

    method OnPeerDisconnected(peerId: int)
      requires Valid()
      modifies this
      ensures Valid()
      ensures players == RemovePeer(old(players), peerId)
      ensures orbs == old(orbs) && lastSentState == old(lastSentState)
    {
      RemovePeerKeepsInvariant(players, orbs, peerId);
      var k := 0;
      while k < |players| && players[k].peerId != peerId
        invariant 0 <= k <= |players|
        invariant forall m :: 0 <= m < k ==> players[m].peerId != peerId
      {
        k := k + 1;
      }
      if k < |players| {
        assert FirstOfPeer(players, peerId) == Some(k);
        players := RemoveAt(players, k);
      }
    }

    /** `SimTick`: step every player, then collect orbs from the last index down.
        Returns how many spawn draws it used. */
    method SimTick(now: real, sqrt: real -> real, atan2: (real, real) -> real, draws: seq<SpawnDraw>)
      returns (spawned: nat)
      requires Valid() && |orbs| <= |draws| && ValidDraws(draws)
      modifies this
      ensures Valid()
      ensures Arena(players, orbs, spawned) == Tick(old(players), old(orbs), now, sqrt, atan2, draws)
      ensures lastSentState == old(lastSentState)
    {
      TickKeepsInvariant(players, orbs, now, sqrt, atan2, draws);
      ghost var target := Tick(players, orbs, now, sqrt, atan2, draws);
      StepPlayers(now, sqrt, atan2);
      var i := |orbs|;
      spawned := 0;
      while i > 0
        invariant 0 <= i <= |orbs|
        invariant spawned + i <= |draws|
        invariant Collect(Arena(players, orbs, spawned), i, draws) == target
        invariant lastSentState == old(lastSentState)
        decreases i
      {
        i := i - 1;
        spawned := CollectAt(i, spawned, draws);
      }
    }

    /** The first loop of `SimTick`: boost and movement of every player, in order. */
    method StepPlayers(now: real, sqrt: real -> real, atan2: (real, real) -> real)
      modifies this
      ensures players == StepAll(old(players), now, sqrt, atan2)
      ensures orbs == old(orbs) && lastSentState == old(lastSentState)
    {
      ghost var ps0 := players;
      var k := 0;
      while k < |players|
        invariant 0 <= k <= |players| == |ps0|
        invariant forall m :: 0 <= m < k ==> players[m] == StepPlayer(ps0[m], now, sqrt, atan2)
        invariant forall m :: k <= m < |ps0| ==> players[m] == ps0[m]
        invariant orbs == old(orbs) && lastSentState == old(lastSentState)
      {
        players := players[k := StepPlayer(players[k], now, sqrt, atan2)];
        k := k + 1;
      }
    }

    /** One pass of the reverse orb loop at index `i`: the first player in reach (in
        list order) scores it, it is removed and a fresh orb is appended. */
    method CollectAt(i: nat, spawned: nat, draws: seq<SpawnDraw>) returns (spawned': nat)
      requires i < |orbs| && spawned < |draws|
      modifies this
      ensures Arena(players, orbs, spawned') == CollectOrb(old(Arena(players, orbs, spawned)), i, draws)
      ensures lastSentState == old(lastSentState)
    {
      ghost var before := Arena(players, orbs, spawned);
      var orb := orbs[i];
      spawned' := spawned;
      var j := 0;
      while j < |players|
        invariant 0 <= j <= |players|
        invariant forall m :: 0 <= m < j ==> !InReach(players[m], orb)
        invariant Arena(players, orbs, spawned') == before
        invariant lastSentState == old(lastSentState)
      {
        if InReach(players[j], orb) {
          assert FirstInReach(before.players, orb) == Some(j);
          players := players[j := Credit(players[j], 1)];
          orbs := RemoveAt(orbs, i);
          SpawnOrb(draws[spawned']);
          spawned' := spawned' + 1;
          return;
        }
        j := j + 1;
      }
    }

    /** The per-tick snapshot projection. */
    function Snapshot(): StateMessage
      reads this
    {
      SnapshotOf(players, orbs)
    }

    /** `TickBroadcast` without the transport: simulate, project the snapshot that
        every peer is sent, and mirror it to the dashboard only when its key changed. */
    method TickBroadcast(now: real, sqrt: real -> real, atan2: (real, real) -> real, draws: seq<SpawnDraw>,
                         fmt: real -> string)
      returns (snapshot: StateMessage, mirrored: bool, spawned: nat)
      requires Valid() && |orbs| <= |draws| && ValidDraws(draws)
      modifies this
      ensures Valid()
      ensures Arena(players, orbs, spawned) == Tick(old(players), old(orbs), now, sqrt, atan2, draws)
      ensures snapshot == SnapshotOf(players, orbs)
      ensures mirrored <==> old(lastSentState) != Some(StateToString(snapshot, fmt))
      ensures lastSentState == Some(StateToString(snapshot, fmt))
    {
      spawned := SimTick(now, sqrt, atan2, draws);
      snapshot := Snapshot();
      var key := StateToString(snapshot, fmt);
      mirrored := lastSentState.None? || lastSentState.value != key;
      if mirrored {
        lastSentState := Some(key);
      }
    }
  }
}
