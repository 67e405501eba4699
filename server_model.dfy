/** The server's per-player simulation record (`Server.Model.SimPlayer`). */
module ServerModel {

  /** Base speed in pixels per second; the field is initialised to this and never reassigned. */
  const BaseSpeed: real := 160.0

  /** One simulated player. `peerId` is the transport peer the player was created for;
      `inputDx`/`inputDy` is the last normalised intent (or zero) and `consumeBoost`
      the pending boost request set by input and consumed by the next tick. */
  datatype SimPlayer = SimPlayer(
    id: string,
    peerId: int,
    x: real, y: real,
    angle: real,
    speed: real,
    score: int,
    boostCharges: int,
    boostActive: bool,
    boostUntil: real,
    inputDx: real, inputDy: real,
    consumeBoost: bool)

  /** `new SimPlayer { Id = id, PeerId = peer, X = x, Y = y }`: every other field has
      its declared default. */
  function NewSimPlayer(id: string, peerId: int, x: real, y: real): (p: SimPlayer)
    ensures p.id == id && p.peerId == peerId && p.x == x && p.y == y
    ensures p.speed == BaseSpeed && p.score == 0 && p.boostCharges == 0
    ensures !p.boostActive && !p.consumeBoost && p.inputDx == 0.0 && p.inputDy == 0.0
  {
    SimPlayer(id, peerId, x, y, 0.0, BaseSpeed, 0, 0, false, 0.0, 0.0, 0.0, false)
  }
}
