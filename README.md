# MultiplayerDemo: a verified model of its game logic

This project models, in Dafny, the sequential game logic of a small multiplayer arena
game:

- **Server tick and input** (`game_server.dfy`, module `Server`). The server holds the
  players and the orbs. Each datagram applies one input to the player with that id,
  creating the player at the centre of the world on first contact. A disconnect removes
  the peer's player. A fixed 25 ms tick does three things: it resolves boosts (one charge,
  600 ms, edge-triggered by a pending request), moves players along their normalised
  intent clamped to the world, and resolves orb collection from the last orb index down.
  Each collected orb credits the first player in reach and is replaced by a freshly
  spawned orb. The tick then builds a snapshot and re-sends the dashboard mirror only when
  the state's change key differs from the last one sent. The per-player record is
  `ServerModel.SimPlayer` (`server_model.dfy`).
- **Client buffer and interpolator** (`simple_client.dfy`, module `Client`, with the view
  record in `client_model.dfy`). It keeps two poses per player and derives the own
  player's boost and orb events. When the score rises it starts a pulse and 20 sparkle
  particles. It also handles game-over and reset. Each query interpolates the position,
  blends the facing along the shortest turn, and ages and removes particles.
- **Network chaos injector** (`network_chaos.dfy`, module `Services`). This is a
  time-bounded window with clamped latency, jitter and loss parameters.
- **Wire records and the state change key** (`messages.dfy`, module `Messages`).
  `StateToString` joins the player segments with `" | "`, then writes `" + "`, then the
  orb segments.
- **LED score bar** (`led.dfy`, module `Led`). This is the ESP32 display: a message sets
  the scores and the flash deadlines, and `showScore` fills a 20-pixel buffer.

`prelude.dfy` holds the shared vocabulary: `Option`, clamping, and C#/C++ 32-bit wrap and
truncating division.

Sources of nondeterminism and libraries are passed in as parameters:

- the clock is `now`;
- every `Random` draw and every Guid-derived orb id is a `SpawnDraw`, `SparkleDraw` or a
  plain number;
- `MathF.Sqrt`, `MathF.Atan2`, `MathF.Cos`, `MathF.Sin` and the float-to-text formatting
  are function-typed parameters.

Positions and times are `real`. The server's player dictionary is a sequence in insertion
order. That order decides who collects an orb that several players reach.

Behaviours of the code worth knowing, which the model keeps:

- A query ages particles by `now - LastUpdate`, the time since the last snapshot, not
  since the last query. Consecutive queries between two snapshots age the same particles
  again by the whole interval.
- Incoming snapshots are never checked for staleness. Every state shifts current to
  previous.
- The blended angle delta lies in the closed range [-π, π]. Both ends can occur: π stays
  π, and an input just below -π comes back just below π.
- Sparkles start at the incoming position.
- A collection sets `BoostCharges` to exactly 1 rather than adding one.
- `Server/Model/SimPlayer.cs` has no `PeerId` field, but `Server/GameServer.cs` sets and
  reads one. The model gives `SimPlayer` a `peerId`.
- `HandleReset` keeps `playerLastOrbCount`, so after a reset no `CollectedOrb` event is
  raised until the score passes its pre-reset maximum.
- A disconnect removes only the first player bound to the peer.
- An input without an `input` object throws, but only after the player was created.

## Model

| member | source | states |
|---|---|---|
| Messages.Join | Messages/Messages.cs:27 | `string.Join`: empty for no parts, the part itself for one, and the first part is a prefix of the result |
| Messages.JoinLength | Messages/Messages.cs:27 | a join's length is the total length of the parts plus one separator between each pair of neighbours |
| Messages.JoinAppend | Messages/Messages.cs:27 | appending a part appends the separator and that part, so parts appear in list order |
| Messages.StateToString | Messages/Messages.cs:27 | the key opens with the first player's segment, or with `" + "` when there are no players; its other properties are the `StateKey` lemmas below |
| Messages.StateKeyIgnoresUnkeyedFields | Messages/Messages.cs:27 | two states with the same player ids and positions and the same orb positions have equal keys, whatever the angles, scores, charges, boost flags and orb ids |
| Messages.EmptyStateKey | Messages/Messages.cs:27 | the state with no players and no orbs has the key `" + "` |
| Messages.StateKeyAppendPlayer | Messages/Messages.cs:27 | one more player appends its `id:(x,y)` segment to the player part, after the bar separator unless the list was empty |
| Messages.StateKeyAppendOrb | Messages/Messages.cs:27 | one more orb appends its `O(x,y)` segment to the orb part, after the bar separator unless the list was empty |
| Messages.StateKeyLength | Messages/Messages.cs:27 | the key's length is every segment once, three characters per separator, and three for `" + "` |
| ServerModel.NewSimPlayer | Server/GameServer.cs:94 | a new player has the given id, peer and position, base speed 160, zero score and charges, no boost and no intent |
| Server.Spawns | Server/GameServer.cs:221-227 | one spawned orb per draw, in draw order, at the drawn integer coordinates |
| Server.IndexOf | Server/GameServer.cs:92 | the dictionary lookup: `None` exactly when no player has the id, otherwise the first position holding it |
| Server.ApplyIntent | Server/GameServer.cs:99-109 | only intent, facing and pending boost change. A pending boost is never cleared. An intent longer than 0.0001 is stored divided by its length, with the facing taken from it. A shorter one stores zero and keeps the facing |
| Server.ApplyIntentNormalises | Server/GameServer.cs:100-107 | with an exact square root the stored intent is zero or a unit vector |
| Server.ApplyInput | Server/GameServer.cs:86-110 | undecodable input and blank ids change nothing. An unseen id appends a player at (400, 300) bound to the sending peer. A known id keeps its place, peer, position, score and charges, and a pending boost stays pending. Nobody else changes. The player with the id, found or just created, takes the payload through `ApplyIntent`, so a `boost` flag leaves a request pending; a message without a payload only creates the player |
| Server.ApplyInputKeepsInvariant | Server/GameServer.cs:86-110 | applying input preserves the server invariant: six orbs in the spawn field, players inside the bounds with non-negative score and charges, and distinct non-blank ids |
| Server.FirstOfPeer | Server/GameServer.cs:62 | `FirstOrDefault` by peer id: `None` exactly when no player is bound to the peer, otherwise the first one |
| Server.RemovePeer | Server/GameServer.cs:60-66 | a disconnect never adds a player, and leaves the list unchanged exactly when no player is bound to the peer |
| Server.RemovePeerRemovesOne | Server/GameServer.cs:60-66 | a disconnect removes exactly one of the peer's players if it has any and keeps every player of other peers |
| Server.RemovePeerKeepsInvariant | Server/GameServer.cs:60-66 | a disconnect preserves the server invariant |
| Server.ResolveBoost | Server/GameServer.cs:132-142 | a boost fires only when requested, charged and not running. It then costs exactly one charge and runs until now + 0.6. Otherwise charges and deadline are kept. The request is always consumed, charges never go negative, and a running boost stops only once `now >= BoostUntil` |
| Server.Move | Server/GameServer.cs:144-159 | only position and facing change. The result is inside [20, 780] x [20, 580]. With intent, it is the clamped step of normalised intent x effective speed x 0.025, and the facing comes from the intent. Without intent, the facing is kept and only the clamp moves the player |
| Server.StepPlayer | Server/GameServer.cs:130-160 | id, peer, score, speed and intent are kept. The request is cleared and the player is inside the bounds. Charges stay non-negative, and a boost started in this tick is still active at its end. A player with zero intent keeps its facing |
| Server.StepAll | Server/GameServer.cs:130-160 | every player is stepped, in order |
| Server.RunStraight | Server/GameServer.cs:144-159 | holding "right" without boost moves a player 4 px per tick (160 px/s x 25 ms) while clear of the wall |
| Server.FirstInReach | Server/GameServer.cs:167-172 | the first player in list order within squared distance 400 of the orb, or `None` exactly when nobody is |
| Server.Credit | Server/GameServer.cs:174-176 | each credited orb adds one to the score and sets the charges to exactly 1; nothing else changes, and no orb changes nothing |
| Server.CollectOrb | Server/GameServer.cs:164-181 | one pass of the reverse loop keeps both counts and leaves the orbs below the index in place |
| Server.Collect | Server/GameServer.cs:164-182 | the reverse loop keeps both counts and uses at most one draw per visited orb |
| Server.CollectOrbsMatchReference | Server/GameServer.cs:163-182 | after the reverse loop the orbs are: the reachable-by-nobody orbs in order, then the unvisited ones, then one spawned orb per collected orb. Exactly one draw is used per collected orb |
| Server.CollectCreditsMatchReference | Server/GameServer.cs:163-182 | after the reverse loop each player is credited with exactly the orbs it is the first player in reach of, so an orb is credited to at most one player |
| Server.ResolutionByPosition | Server/GameServer.cs:167-172 | who collects what depends on player positions only, which collection does not change |
| Server.Tick | Server/GameServer.cs:122-183 | a tick keeps the number of players and of orbs, and uses at most one spawn draw per orb |
| Server.TickKeepsOrbs | Server/GameServer.cs:163-182 | a tick leaves six orbs, all in the spawn field [40, 760) x [40, 560) |
| Server.TickKeepsInvariant | Server/GameServer.cs:122-183 | a whole tick preserves the server invariant, and collection moves nobody |
| Server.SnapshotOf | Server/GameServer.cs:199-206 | the snapshot has one projection per player in list order, carrying id, position, facing, score, charges and boost flag, followed by the orbs |
| Server.SnapshotInBounds | Server/GameServer.cs:199-201 | under the invariant every broadcast position lies inside the world bounds |
| Server.MirrorKeyIgnoresNonPositional | Server/GameServer.cs:213-218 | server states with the same ids and positions give the same mirror key, so score, charge, boost and facing changes alone never re-send the mirror |
| Server.GameServer.constructor | Server/GameServer.cs:44 | the server starts with no players and six spawned orbs, with the invariant established |
| Server.GameServer.SpawnOrb | Server/GameServer.cs:221-227 | one orb is appended from the draw and nothing else changes |
| Server.GameServer.OnNetworkReceive | Server/GameServer.cs:86-110 | the players become `ApplyInput` of the old players, the orbs and the mirror key stay, and the invariant holds |
| Server.GameServer.OnPeerDisconnected | Server/GameServer.cs:60-66 | the players become `RemovePeer` of the old players, and the invariant holds |
| Server.GameServer.SimTick | Server/GameServer.cs:122-183 | the players, the orbs and the number of draws used are exactly `Tick` of the old state, and the invariant holds |
| Server.GameServer.StepPlayers | Server/GameServer.cs:130-160 | the first loop leaves the players equal to `StepAll` of the old ones |
| Server.GameServer.CollectAt | Server/GameServer.cs:164-181 | one pass of the reverse loop equals `CollectOrb` on the old state |
| Server.GameServer.TickBroadcast | Server/GameServer.cs:186-218 | simulate, then project the snapshot. The mirror is sent exactly when the stored key is null or differs from the new key, and afterwards the stored key is the new key |
| ClientModel.NewView | Client/SimpleClient.cs:139 | a first view has the previous pose equal to the current one, with everything else at its default |
| Client.FirstWithId | Client/SimpleClient.cs:110 | the first entry with the own id, or `None` exactly when there is none |
| Client.Track | Client/SimpleClient.cs:107-129 | a state without the own player raises nothing. `UsedBoost` fires exactly on a rising edge of the reported boost flag. `CollectedOrb` fires exactly when the score passes the highest score seen, which becomes the new maximum |
| Client.UsedBoostOncePerActivation | Client/SimpleClient.cs:113-122 | a run of states that all report the boost raises `UsedBoost` once, or not at all if it was already running |
| Client.SparkleSpeed | Client/SimpleClient.cs:205 | a sparkle's speed lies in [80, 200) |
| Client.SparkleLife | Client/SimpleClient.cs:206 | a sparkle's life lies in [0.3, 0.5) |
| Client.Sparkles | Client/SimpleClient.cs:199-208 | one sparkle per draw, in draw order |
| Client.SparkleShape | Client/SimpleClient.cs:202-207 | each sparkle starts at the given point with life in [0.3, 0.5). If cos and sin agree on the unit circle, its velocity has length equal to its speed, in [80, 200) |
| Client.SpawnSparkles | Client/SimpleClient.cs:199-208 | the loop appends exactly the 20 sparkles of the draws to the particle list |
| Client.IngestView | Client/SimpleClient.cs:135-156 | exactly the entry's id is added or updated. An unseen id starts with previous = current = incoming. A known id shifts current to previous and takes the incoming pose. A score increase sets the pulse to now + 0.25 and appends the sparkles; no increase adds nothing. Counters and arrival time are always overwritten |
| Client.IngestAll | Client/SimpleClient.cs:135-156 | the `foreach` over the entries never drops a view and keeps every view filed under its own id |
| Client.IngestAllKeys | Client/SimpleClient.cs:135-156 | after a state the views hold the old ids plus every id in the state |
| Client.IngestAllUntouched | Client/SimpleClient.cs:135-156 | views of players the state does not mention are unchanged |
| Client.IngestAllLatest | Client/SimpleClient.cs:135-156 | for each id the last entry with that id decides the current pose, counters and arrival time |
| Client.OrbPositions | Client/SimpleClient.cs:159-161 | the client orb list is the state's orb positions in order |
| Client.NormalizedDelta | Client/SimpleClient.cs:245-250 | a delta already in [-π, π] is left alone; the lemmas below give its range and minimality |
| Client.NormalizedDeltaSound | Client/SimpleClient.cs:245-250 | the normalised delta lies in [-π, π], differs from the input by whole turns, and is the input itself when already in range |
| Client.NormalizedDeltaShortest | Client/SimpleClient.cs:245-250 | of all deltas a whole number of turns apart, the one strictly inside (-π, π) is the result |
| Client.WrapTakesShortPath | Client/SimpleClient.cs:245-250 | blending from 3.0 rad to -3.0 rad turns about 0.28 rad through π, not 6 rad back |
| Client.NormalizeAngleDelta | Client/SimpleClient.cs:245-250 | the two loops terminate and return exactly the normalised delta |
| Client.InterpT | Client/SimpleClient.cs:221-222 | `t` lies in [0, 1]. It is 0 at or before the arrival, 1 from 100 ms after, and proportional to the elapsed time in between |
| Client.Survivors | Client/SimpleClient.cs:229-237 | the particle list never grows |
| Client.SurvivorsSound | Client/SimpleClient.cs:229-237 | the surviving particles are exactly the aged particles with life left: the list never grows, and the dead are removed while the living are kept |
| Client.AgeParticles | Client/SimpleClient.cs:229-237 | the reverse loop with in-place update and `RemoveAt` returns exactly the survivors, in order |
| Client.Sample | Client/SimpleClient.cs:217-240 | score, charges, boost flag and pulse deadline are reported as stored, and the particles are the aged survivors |
| Client.Queried | Client/SimpleClient.cs:229-237 | a query changes a view's particles only, and never adds one |
| Client.SampleAtArrival | Client/SimpleClient.cs:217-226 | at (or before) the arrival time the query returns the previous position and facing |
| Client.SampleSettled | Client/SimpleClient.cs:217-226 | 100 ms after the arrival the query returns the current position, and a facing within π of the previous one and whole turns from the current one |
| Client.SampleBetween | Client/SimpleClient.cs:224-225 | the interpolated position lies between the previous and current one on each axis |
| Client.SimpleClient.constructor | Client/SimpleClient.cs:40-42 | a client starts with no views, no orbs, cleared event flags and no game result |
| Client.SimpleClient.HandleState | Client/SimpleClient.cs:107-164 | the event flags and raised events are `Track` of the own entry, the views are `IngestAll` of the old views, and the orbs are the state's orb positions |
| Client.SimpleClient.IngestEntry | Client/SimpleClient.cs:137-155 | one pass of the ingest loop equals `IngestView` on the old views |
| Client.SimpleClient.RefillOrbs | Client/SimpleClient.cs:159-161 | the orb list is cleared and refilled with the orb positions in order |
| Client.SimpleClient.HandleGameOver | Client/SimpleClient.cs:166-171 | game-over is set, and the game is won exactly when the winner id equals the own id |
| Client.SimpleClient.HandleReset | Client/SimpleClient.cs:173-184 | views and orbs are emptied and both game flags are cleared, while the event flags are kept |
| Client.SimpleClient.GetInterpolated | Client/SimpleClient.cs:210-243 | one result per view, each the `Sample` of the old view. Every view's particles are aged in place and nothing else changes |
| Client.SimpleClient.QueryView | Client/SimpleClient.cs:218-240 | the loop body for one view returns its `Sample` and stores its aged particles |
| Services.SaturateToInt32 | Server/Services/NetworkChaos.cs:42 | whole milliseconds converted to `int`, saturating at `int.MaxValue` |
| Services.NetworkChaos.constructor | Server/Services/NetworkChaos.cs:7-12 | a fresh injector is inactive, with zero latency, jitter and loss |
| Services.NetworkChaos.IsActive | Server/Services/NetworkChaos.cs:9 | a cleared window is closed at every time, and no window covers the last representable time |
| Services.NetworkChaos.Trigger | Server/Services/NetworkChaos.cs:14-23 | the parameters are overwritten with latency and jitter at least 0 and loss clamped to [0, 1]. When `now + duration` is a valid time the window is open at exactly the times before it; otherwise the addition throws and the window is kept |
| Services.NetworkChaos.Clear | Server/Services/NetworkChaos.cs:25-28 | afterwards the injector is inactive at every time, and the parameters are kept |
| Services.NetworkChaos.ShouldDrop | Server/Services/NetworkChaos.cs:30 | never drops outside the window. Inside it, drops exactly when the draw is below the loss rate, so loss 0 drops nothing and loss 1 drops everything in the window |
| Services.NetworkChaos.DelayMs | Server/Services/NetworkChaos.cs:32-37 | 0 outside the window. Inside it the result is `max(0, latency + j)`, never negative and never above latency + jitter. It is at least latency - jitter when that sum cannot overflow, and it throws exactly when the jitter is `int.MaxValue` |
| Services.NetworkChaos.ToDto | Server/Services/NetworkChaos.cs:39-43 | the parameters and the active flag are copied. Remaining time is never negative and is 0 outside the window; inside it, it is the whole milliseconds left |
| Led.IntOr | Led/MultiplayerDemoLed/src/main.cpp:75-76 | reading `doc[key]` with default 0: the member when it is an integer that fits in `int`, otherwise the fallback |
| Led.BoolOr | Led/MultiplayerDemoLed/src/main.cpp:78-79 | reading `doc[key]` with default false: the member when it is a boolean, otherwise the fallback |
| Led.ActiveLeds | Led/MultiplayerDemoLed/src/main.cpp:86 | the lit count lies in [0, 20]: 0 for scores up to 0, 20 from score 50, and `score*20/50` rounded down in between |
| Led.ActiveLedsMonotone | Led/MultiplayerDemoLed/src/main.cpp:86 | a higher score never lights fewer pixels |
| Led.ActiveLedsAsWritten | Led/MultiplayerDemoLed/src/main.cpp:86 | the 32-bit computation stays in [0, 20] and agrees with `ActiveLeds` while `score*20` does not overflow |
| Led.ActiveLedsOverflow | Led/MultiplayerDemoLed/src/main.cpp:86 | score 107374183 lights nothing as written, though it should light all 20 |
| Led.Frame | Led/MultiplayerDemoLed/src/main.cpp:85-99 | a frame has 20 pixels, each white, (0, 150, 255) or dark |
| Led.FrameMatchesBoard | Led/MultiplayerDemoLed/src/main.cpp:86 | whenever `score * 20` fits in 32 bits, the frame lights exactly as many pixels as the board's wrapping `map` computes |
| Led.FrameShape | Led/MultiplayerDemoLed/src/main.cpp:85-99 | a frame lights exactly `ActiveLeds(score)` pixels (the corrected count, see "## Left out"), all at the front, in one colour: white while `now < flashUntil`, else (0, 150, 255) |
| Led.ShowScore | Led/MultiplayerDemoLed/src/main.cpp:85-99 | the pixel loop writes exactly the frame for the score and flash deadline, lit to the corrected count (see "## Left out") |
| Led.FlashWindow | Led/MultiplayerDemoLed/src/main.cpp:81-87 | a flash requested at `now` shows for the next 300 ms. If `millis() + 300` wraps, the new deadline is already behind and there is no flash |
| Led.Display.constructor | Led/MultiplayerDemoLed/src/main.cpp:22-24 | scores, flags and deadlines start at zero/false and the strips start dark |
| Led.Display.OnMessage | Led/MultiplayerDemoLed/src/main.cpp:64-83 | an unparsable message changes nothing. Otherwise the scores and flags take the members, or 0/false when a member is absent or mistyped. A set flag moves its deadline to `now + 300` (wrapping), and a cleared flag leaves it |
| Led.Display.Refresh | Led/MultiplayerDemoLed/src/main.cpp:56-62 | both strips show the frame for their own score and deadline, lit to the corrected count |

## Left out

- Transport: LiteNetLib peers, polling, sending, connection requests and the client's envelope dispatch are I/O. The snapshot is returned rather than sent, and a datagram that does not decode arrives as `None`.
- SignalR and the packet mirror: only the send/no-send decision and the stored key are modelled. `SendAsync`, its timestamp and the per-datagram packet event are I/O.
- JSON serialisation is library code. Decoded records are the model's datatypes. A missing `id` or `input` member is `None` (a C# null). Null `Players`/`Orbs` lists and null list entries cannot be expressed, and the message types `Envelope`, `MessageType` and `ResetDto` are not modelled.
- Locks and threads: each handler is one atomic step. This includes `OnPeerDisconnected`, which the code runs outside the lock.
- Floating point: floats and doubles are `real`, and the casts between them are exact. `MathF` functions are uninterpreted parameters. NaN inputs cannot occur, so a NaN loss rate or intent is not modelled.
- `Client.NormalizeAngleDelta` terminates on reals. With floats, an input so large that subtracting 2π leaves it unchanged would loop forever; that case is not captured.
- Server.IndexOf: the model keeps `.NET Dictionary` enumeration in insertion order. A real `Dictionary` reuses the slot of a removed entry, so after a disconnect a newly created player can enumerate at the removed player's position. That changes who collects a contested orb and the order in the snapshot.
- Server.Spawns: the Guid-derived orb id (`orb_` plus six hex digits) is an arbitrary string, and distinct orb ids are not modelled.
- Services.NetworkChaos.ToDto: reads the clock once. The code reads `DateTime.UtcNow` separately for each `IsActive` and for the subtraction. The `(int)` of a `double` beyond the `int` range is modelled as saturating, which is what current .NET does. Older x64 runtimes give `int.MinValue`, which `Math.Max(0, …)` turns into 0. `TotalMilliseconds` rounding is not modelled.
- Services.NetworkChaos.Trigger: the optional-parameter defaults (120 ms, 40 ms, 0.30) are call-site sugar and are not modelled. The duration is a tick count.
- Led: WiFi, WebSocket, `Serial`, `setup` and `strip.show()` are hardware and I/O, so that part of `loop()` is left out; a strip is its pixel buffer. C++ signed overflow is undefined behaviour; `Led.ActiveLedsAsWritten` takes the two's-complement wrap the ESP32 produces, while the painted frames use the corrected count (see the next lines and "## Findings"). The `flash` argument of `showScore` is unused by the code, and the model does the same.
- Led.ShowScore: writes the frame for the corrected count `Led.ActiveLeds`, not for the wrapping `map` of main.cpp:86. The two differ only when `score * 20` leaves the 32-bit range (score 107374183: the board lights 0 pixels, the model 20; score -107374183: the board lights 20, the model 0); `Led.FrameMatchesBoard` proves they agree for every score up to 107374182 in magnitude.
- Led.Frame: built on the corrected `Led.ActiveLeds` for the same reason, so `Led.FrameShape` counts `ActiveLeds(score)` lit pixels, not `ActiveLedsAsWritten(score)`.
- Led.Display.Refresh: inherits the corrected count from `Led.ShowScore`. It also reads the clock once for both strips, whereas each `showScore` call reads `millis()` on its own; a tick of the clock between the two calls is not modelled.
- Led.Display.OnMessage: reads the clock once, whereas main.cpp:81-82 call `millis()` once per flag, so the two deadlines may differ by a millisecond on the board.
- Server.Credit: `Score += 1` is unbounded here; the C# `int` wraps after 2147483647 collected orbs, and `ServerInvariant`'s `score >= 0` relies on it not wrapping.
- Client events: `UsedBoost` and `CollectedOrb` are returned flags rather than delegates.
- `Client/Program.cs`, `Server/Program.cs`, `Server/NetworkHub.cs` and the duplicate records in `Server/Model/InputMessage.cs` and `Server/Model/PlayerState.cs` are not part of this model. `Client/Program.cs` calls members that `SimpleClient` does not define.

## Findings

| source | as written | input that shows it | evidently intended | confidence | as-written member | corrected member |
|---|---|---|---|---|---|---|
| Led/MultiplayerDemoLed/src/main.cpp:86 | `map(score, 0, 50, 0, 20)` computes `score * 20` in 32-bit `long` before dividing, so the product wraps for scores above 107374182 | score 107374183: `score * 20` wraps to -2147483636, `/ 50` gives -42949672, and `constrain` gives 0 lit pixels | any score of 50 or more lights all 20 pixels | low; not executed (scores that large need an unusual message) | Led.ActiveLedsAsWritten, Led.ActiveLedsOverflow | Led.ActiveLeds |
