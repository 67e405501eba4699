/** The client's per-entity history (`Client.Model.PlayerView`) and its sparkle
    particles. Both are values here: a view is only ever reached through the
    client's view dictionary, so updating the object in place and storing an
    updated value under the same key are the same thing. */
module ClientModel {

  /** One sparkle: position, velocity in pixels per second and remaining life in seconds. */
  datatype Particle = Particle(x: real, y: real, vx: real, vy: real, life: real)

  /** The latest and the previous server pose of one player, when the latest arrived,
      the last reported score and boost state, and the visual effects. */
  datatype PlayerView = PlayerView(
    id: string,
    x: real, y: real,
    lastX: real, lastY: real,
    lastUpdate: real,
    angle: real, lastAngle: real,
    score: int,
    boostCharges: int,
    boostActive: bool,
    pulseUntil: real,
    particles: seq<Particle>)

  /** `new PlayerView { Id, X, Y, LastX = X, LastY = Y, Angle, LastAngle = Angle }`:
      the first pose is both the previous and the current one; every other field
      has its declared default. */
  function NewView(id: string, x: real, y: real, angle: real): (v: PlayerView)
    ensures v.id == id
    ensures v.x == x && v.lastX == x && v.y == y && v.lastY == y && v.angle == angle && v.lastAngle == angle
    ensures v.lastUpdate == 0.0 && v.pulseUntil == 0.0 && v.particles == []
    ensures v.score == 0 && v.boostCharges == 0 && !v.boostActive
  {
    PlayerView(id, x, y, x, y, 0.0, angle, angle, 0, 0, false, 0.0, [])
  }
}
