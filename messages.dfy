/** The wire records shared by server and client, and the structural change key
    `StateMessage.StateToString` that decides whether the dashboard mirror is re-sent.
    Floats are `real`; the culture-dependent float formatting of C# string
    interpolation is the parameter `fmt`. */
module Messages {
  import opened Prelude

  // -------- Client -> Server --------

  datatype InputPayload = InputPayload(dx: real, dy: real, boost: bool)

  /** A deserialised input. JSON may leave `id` or `input` out, which the C#
      record then holds as null: `None` here. */
  datatype InputMessage = InputMessage(id: Option<string>, input: Option<InputPayload>)

  // -------- Server -> Client --------

  datatype PlayerDto = PlayerDto(
    id: string, x: real, y: real, angle: real,
    score: int, boostCharges: int, boostActive: bool)

  datatype OrbDto = OrbDto(id: string, x: real, y: real)

  datatype StateMessage = StateMessage(players: seq<PlayerDto>, orbs: seq<OrbDto>)

  /** The game-over payload; a missing winner id is null. */
  datatype GameOverDto = GameOverDto(winnerId: Option<string>)

  // -------- string.Join and the change key --------

  /** `string.Join(sep, parts)`. */
  function Join(sep: string, parts: seq<string>): (r: string)
    ensures |parts| == 0 ==> r == ""
    ensures |parts| == 1 ==> r == parts[0]
    ensures |parts| >= 1 ==> |parts[0]| <= |r| && r[..|parts[0]|] == parts[0]
  {
    if |parts| == 0 then ""
    else if |parts| == 1 then parts[0]
    else parts[0] + sep + Join(sep, parts[1..])
  }

  function TotalLength(parts: seq<string>): nat
  {
    if |parts| == 0 then 0 else |parts[0]| + TotalLength(parts[1..])
  }

  /** A join holds every part once and one separator between neighbours. */
  lemma {:induction false} JoinLength(sep: string, parts: seq<string>)
    requires |parts| >= 1
    ensures |Join(sep, parts)| == TotalLength(parts) + (|parts| - 1) * |sep|
  {
    if |parts| > 1 {
      JoinLength(sep, parts[1..]);
    }
  }

  /** Parts appear in list order: appending a part appends a separator and that part. */
  lemma {:induction false} JoinAppend(sep: string, parts: seq<string>, p: string)
    requires |parts| >= 1
    ensures Join(sep, parts + [p]) == Join(sep, parts) + sep + p
  {
    if |parts| == 1 {
      assert parts + [p] == [parts[0], p];
      assert [parts[0], p][1..] == [p];
    } else {
      assert (parts + [p])[1..] == parts[1..] + [p];
      JoinAppend(sep, parts[1..], p);
    }
  }

  /** `$"{p.Id}:({p.X},{p.Y})"` */
  function PlayerSegment(p: PlayerDto, fmt: real -> string): string
  {
    p.id + ":(" + fmt(p.x) + "," + fmt(p.y) + ")"
  }

  /** `$"O({o.X},{o.Y})"` */
  function OrbSegment(o: OrbDto, fmt: real -> string): string
  {
    "O(" + fmt(o.x) + "," + fmt(o.y) + ")"
  }

  function PlayerSegments(ps: seq<PlayerDto>, fmt: real -> string): (r: seq<string>)
    ensures |r| == |ps|
    ensures forall i :: 0 <= i < |ps| ==> r[i] == PlayerSegment(ps[i], fmt)
  {
    seq(|ps|, i requires 0 <= i < |ps| => PlayerSegment(ps[i], fmt))
  }

  function OrbSegments(os: seq<OrbDto>, fmt: real -> string): (r: seq<string>)
    ensures |r| == |os|
    ensures forall i :: 0 <= i < |os| ==> r[i] == OrbSegment(os[i], fmt)
  {
    seq(|os|, i requires 0 <= i < |os| => OrbSegment(os[i], fmt))
  }

  /** `StateMessage.StateToString()`: player segments joined by " | ", then " + ",
      then orb segments joined by " | ". */
  function StateToString(s: StateMessage, fmt: real -> string): (r: string)
    // the key opens with the first player's segment, or with " + " when there are no players
    ensures |s.players| >= 1 ==> var p := PlayerSegment(s.players[0], fmt); |p| <= |r| && r[..|p|] == p
    ensures |s.players| == 0 ==> 3 <= |r| && r[..3] == " + "
  {
    Join(" | ", PlayerSegments(s.players, fmt)) + " + " + Join(" | ", OrbSegments(s.orbs, fmt))
  }

  /** The fields the change key reads: each player's id and position, each orb's position. */
  predicate SameKeyFields(s1: StateMessage, s2: StateMessage)
  {
    && |s1.players| == |s2.players|
    && (forall i :: 0 <= i < |s1.players| ==>
          s1.players[i].id == s2.players[i].id
          && s1.players[i].x == s2.players[i].x && s1.players[i].y == s2.players[i].y)
    && |s1.orbs| == |s2.orbs|
    && (forall i :: 0 <= i < |s1.orbs| ==> s1.orbs[i].x == s2.orbs[i].x && s1.orbs[i].y == s2.orbs[i].y)
  }

  /** The key ignores angles, scores, boost charges, boost flags and orb ids. */
  lemma StateKeyIgnoresUnkeyedFields(s1: StateMessage, s2: StateMessage, fmt: real -> string)
    requires SameKeyFields(s1, s2)
    ensures StateToString(s1, fmt) == StateToString(s2, fmt)
  {
    assert PlayerSegments(s1.players, fmt) == PlayerSegments(s2.players, fmt);
    assert OrbSegments(s1.orbs, fmt) == OrbSegments(s2.orbs, fmt);
  }

  /** The state with no players and no orbs has the key " + ". */
  lemma EmptyStateKey(fmt: real -> string)
    ensures StateToString(StateMessage([], []), fmt) == " + "
  {
  }

  /** A state with one more player at the end of the list has its segment appended
      to the player part, after " | " when the list was not empty. */
  lemma StateKeyAppendPlayer(ps: seq<PlayerDto>, p: PlayerDto, os: seq<OrbDto>, fmt: real -> string)
    ensures StateToString(StateMessage(ps + [p], os), fmt)
         == (if |ps| == 0 then "" else Join(" | ", PlayerSegments(ps, fmt)) + " | ")
            + PlayerSegment(p, fmt) + " + " + Join(" | ", OrbSegments(os, fmt))
  {
    assert PlayerSegments(ps + [p], fmt) == PlayerSegments(ps, fmt) + [PlayerSegment(p, fmt)];
    if |ps| > 0 {
      JoinAppend(" | ", PlayerSegments(ps, fmt), PlayerSegment(p, fmt));
    }
  }

  /** Likewise for one more orb at the end of the orb list. */
  lemma StateKeyAppendOrb(ps: seq<PlayerDto>, os: seq<OrbDto>, o: OrbDto, fmt: real -> string)
    ensures StateToString(StateMessage(ps, os + [o]), fmt)
         == Join(" | ", PlayerSegments(ps, fmt)) + " + "
            + (if |os| == 0 then "" else Join(" | ", OrbSegments(os, fmt)) + " | ")
            + OrbSegment(o, fmt)
  {
    assert OrbSegments(os + [o], fmt) == OrbSegments(os, fmt) + [OrbSegment(o, fmt)];
    if |os| > 0 {
      JoinAppend(" | ", OrbSegments(os, fmt), OrbSegment(o, fmt));
    }
  }

  /** The key's length: every segment once, one " | " between neighbours, and " + ". */
  lemma StateKeyLength(s: StateMessage, fmt: real -> string)
    ensures |StateToString(s, fmt)|
         == (if |s.players| == 0 then 0
             else TotalLength(PlayerSegments(s.players, fmt)) + 3 * (|s.players| - 1))
            + 3
            + (if |s.orbs| == 0 then 0
               else TotalLength(OrbSegments(s.orbs, fmt)) + 3 * (|s.orbs| - 1))
  {
    if |s.players| > 0 { JoinLength(" | ", PlayerSegments(s.players, fmt)); }
    if |s.orbs| > 0 { JoinLength(" | ", OrbSegments(s.orbs, fmt)); }
  }
}
