/** The score display: an ESP32 that receives `{ "p1", "p2", "flash1", "flash2" }`
    over a WebSocket and shows each player's score on a 20-pixel NeoPixel strip,
    white for 300 ms after a flash request and blue otherwise.

    The board's `int` and `long` are 32 bits; `millis()` is an `unsigned long` that
    wraps after 2^32 ms and is the parameter `now`. A strip is its pixel buffer, one
    packed 24-bit colour per pixel; `strip.show()` is not modelled. */
module Led {
  import opened Prelude

  const LedCount: nat := 20
  /** The score that lights the whole strip (the upper input bound of `map`). */
  const FullScore: int := 50
  const FlashMs: UInt32 := 300

  /** `strip.Color(255, 255, 255)` and `strip.Color(0, 150, 255)`, packed as 0xRRGGBB;
      0 switches a pixel off. */
  const White: int := 0xFF_FFFF
  const Blue: int := 0x00_96FF
  const Dark: int := 0

  /** Arduino `constrain`. */
  function Constrain(x: int, lo: int, hi: int): (r: int)
    requires lo <= hi
    ensures lo <= r <= hi
    ensures lo <= x <= hi ==> r == x
    ensures x < lo ==> r == lo
    ensures hi < x ==> r == hi
  {
    if x < lo then lo else if hi < x then hi else x
  }

  // ---- Parsed messages ----

  /** A member of the parsed message, as far as `operator|` distinguishes it: an
      integer, a boolean, or anything else (a float, a string, null, an array, an
      object). */
  datatype JsonValue = JInt(i: int) | JBool(b: bool) | JOther

  /** A parsed message: the root object's members. A root that is not an object
      behaves as the empty map, since every lookup in it yields null. */
  type JsonDoc = map<string, JsonValue>

  /** `doc[key] | fallback` for an `int`: the member when it is an integer that fits
      in an `int`, the fallback otherwise. */
  function IntOr(doc: JsonDoc, key: string, fallback: Int32): (r: Int32)
    ensures key in doc && doc[key].JInt? && Int32Min <= doc[key].i <= Int32Max ==> r == doc[key].i
    ensures !(key in doc && doc[key].JInt? && Int32Min <= doc[key].i <= Int32Max) ==> r == fallback
  {
    if key in doc && doc[key].JInt? && Int32Min <= doc[key].i <= Int32Max then doc[key].i else fallback
  }

  /** `doc[key] | fallback` for a `bool`: the member when it is a boolean. */
  function BoolOr(doc: JsonDoc, key: string, fallback: bool): (r: bool)
    ensures key in doc && doc[key].JBool? ==> r == doc[key].b
    ensures !(key in doc && doc[key].JBool?) ==> r == fallback
  {
    if key in doc && doc[key].JBool? then doc[key].b else fallback
  }

  // ---- Score to pixels ----

  /** `constrain(map(score, 0, 50, 0, 20), 0, 20)` as written: `map` computes
      `score * 20 / 50` in 32-bit `long`, so the product wraps for large scores. */
  function ActiveLedsAsWritten(score: Int32): (n: int)
    ensures 0 <= n <= LedCount
    // below the overflow it agrees with the intended count
    ensures -107374182 <= score <= 107374182 ==> n == ActiveLeds(score)
  {
    Constrain(TruncDiv(Wrap32(score * LedCount), FullScore), 0, LedCount)
  }

  /** The intended number of lit pixels: two fifths of the score, rounded down,
      and never outside 0..20. */
  function ActiveLeds(score: int): (n: int)
    ensures 0 <= n <= LedCount
    ensures score <= 0 ==> n == 0
    ensures score >= FullScore ==> n == LedCount
    ensures 0 <= score <= FullScore ==> n * FullScore <= score * LedCount < (n + 1) * FullScore
  {
    Constrain(TruncDiv(score * LedCount, FullScore), 0, LedCount)
  }

  /** A higher score never lights fewer pixels. */
  lemma ActiveLedsMonotone(a: int, b: int)
    requires a <= b
    ensures ActiveLeds(a) <= ActiveLeds(b)
  {
    if 0 <= a && b <= FullScore {
      assert ActiveLeds(a) * FullScore <= a * LedCount <= b * LedCount < (ActiveLeds(b) + 1) * FullScore;
    }
  }

  /** A score of 107374183 (`* 20` wraps to -2147483636) leaves the strip dark
      although any score of 50 or more should light all of it. */
  lemma ActiveLedsOverflow()
    ensures ActiveLedsAsWritten(107374183) == 0
    ensures ActiveLeds(107374183) == LedCount
  {
    assert Wrap32(107374183 * 20) == -2147483636 by {
      assert (Wrap32(107374183 * 20) - 107374183 * 20) % TwoTo32 == 0;
    }
  }

  /** The colour of pixel `i` when `activeLeds` are lit. */
  function Pixel(i: int, activeLeds: int, flashing: bool): int
  {
    if i < activeLeds then (if flashing then White else Blue) else Dark
  }

  /** What `showScore(strip, score, flash, flashUntil)` writes at time `now`. The
      `flash` argument is not consulted; only the deadline is. */
  function Frame(score: Int32, flashUntil: UInt32, now: UInt32): (f: seq<int>)
    ensures |f| == LedCount
    ensures forall i :: 0 <= i < |f| ==> f[i] == White || f[i] == Blue || f[i] == Dark
  {
    seq(LedCount, i => Pixel(i, ActiveLeds(score), now < flashUntil))
  }

  /** The number of pixels that are not dark. */
  function LitCount(f: seq<int>): nat
  {
    if f == [] then 0 else LitCount(f[..|f| - 1]) + (if f[|f| - 1] != Dark then 1 else 0)
  }

  lemma {:induction false} LitPrefix(f: seq<int>, k: int, c: int)
    requires c != Dark && 0 <= k <= |f|
    requires forall i :: 0 <= i < |f| ==> f[i] == (if i < k then c else Dark)
    ensures LitCount(f) == k
  {
    if f != [] {
      var g := f[..|f| - 1];
      if k == |f| {
        LitPrefix(g, k - 1, c);
      } else {
        LitPrefix(g, k, c);
      }
    }
  }

  /** A frame lights exactly `ActiveLeds(score)` pixels, all at the front, white
      while the flash deadline lies ahead and blue otherwise. */
  lemma FrameShape(score: Int32, flashUntil: UInt32, now: UInt32)
    ensures |Frame(score, flashUntil, now)| == LedCount
    ensures LitCount(Frame(score, flashUntil, now)) == ActiveLeds(score)
    ensures forall i :: 0 <= i < LedCount ==>
              Frame(score, flashUntil, now)[i] ==
                (if i < ActiveLeds(score) then (if now < flashUntil then White else Blue) else Dark)
  {
    var c := if now < flashUntil then White else Blue;
    var f := Frame(score, flashUntil, now);
    forall i | 0 <= i < |f|
      ensures f[i] == (if i < ActiveLeds(score) then c else Dark)
    {
      assert f[i] == Pixel(i, ActiveLeds(score), now < flashUntil);
    }
    LitPrefix(Frame(score, flashUntil, now), ActiveLeds(score), c);
  }

  /** Wherever `score * 20` fits in 32 bits, the frame lights exactly as many pixels
      as the board's `map` computes. */
  lemma FrameMatchesBoard(score: Int32, flashUntil: UInt32, now: UInt32)
    requires -107374182 <= score <= 107374182
    ensures LitCount(Frame(score, flashUntil, now)) == ActiveLedsAsWritten(score)
  {
    FrameShape(score, flashUntil, now);
  }

  /** `showScore`: paint one strip for the given score and flash deadline. */
  method ShowScore(strip: array<int>, score: Int32, flash: bool, flashUntil: UInt32, now: UInt32)
    requires strip.Length == LedCount
    modifies strip
    ensures strip[..] == Frame(score, flashUntil, now)
  {
    var activeLeds := ActiveLeds(score);
    var flashing := now < flashUntil;
    for i := 0 to LedCount
      invariant forall j :: 0 <= j < i ==> strip[j] == Pixel(j, activeLeds, flashing)
    {
      if i < activeLeds {
        var color := if flashing then White else Blue;
        strip[i] := color;
      } else {
        strip[i] := Dark;
      }
    }
    assert forall j :: 0 <= j < LedCount ==> strip[..][j] == Frame(score, flashUntil, now)[j];
  }

  /** A flash requested at `now` keeps the strip white for the next 300 ms, unless
      `millis() + 300` wraps, in which case the deadline lies behind and there is
      no flash at all. */
  lemma {:induction false} FlashWindow(now: UInt32, t: UInt32)
    ensures now + FlashMs < TwoTo32 && now <= t < now + FlashMs ==> t < AddU32(now, FlashMs)
    ensures now + FlashMs >= TwoTo32 && now <= t ==> !(t < AddU32(now, FlashMs))
  {
  }

  /** The board's globals and its two strips. */
  class Display {
    var score1: Int32
    var score2: Int32
    var flash1: bool
    var flash2: bool
    var flashUntil1: UInt32
    var flashUntil2: UInt32
    const strip1: array<int>
    const strip2: array<int>

    ghost predicate Valid()
      reads this
    {
      strip1.Length == LedCount && strip2.Length == LedCount && strip1 != strip2
    }

    /** The globals' initial values; `strip.begin()` leaves every pixel dark. */
    constructor ()
      ensures Valid() && fresh(strip1) && fresh(strip2)
      ensures score1 == 0 && score2 == 0 && !flash1 && !flash2 && flashUntil1 == 0 && flashUntil2 == 0
      ensures forall i :: 0 <= i < LedCount ==> strip1[i] == Dark && strip2[i] == Dark
    {
      score1, score2 := 0, 0;
      flash1, flash2 := false, false;
      flashUntil1, flashUntil2 := 0, 0;
      strip1 := new int[LedCount](_ => Dark);
      strip2 := new int[LedCount](_ => Dark);
    }

    /** `onMessageCallback` for a message parsed into `doc` (`None`: the payload is
        not JSON, and nothing changes). Absent or mistyped members fall back to 0
        and false; a flash request moves that strip's deadline to `now + 300`
        (wrapping), and a cleared flag leaves the deadline alone. */
    method OnMessage(doc: Option<JsonDoc>, now: UInt32)
      modifies this
      ensures doc.None? ==> score1 == old(score1) && score2 == old(score2) && flash1 == old(flash1)
                            && flash2 == old(flash2) && flashUntil1 == old(flashUntil1) && flashUntil2 == old(flashUntil2)
      ensures doc.Some? ==> score1 == IntOr(doc.value, "p1", 0) && score2 == IntOr(doc.value, "p2", 0)
      ensures doc.Some? ==> flash1 == BoolOr(doc.value, "flash1", false) && flash2 == BoolOr(doc.value, "flash2", false)
      ensures doc.Some? ==> flashUntil1 == (if flash1 then AddU32(now, FlashMs) else old(flashUntil1))
      ensures doc.Some? ==> flashUntil2 == (if flash2 then AddU32(now, FlashMs) else old(flashUntil2))
    {
      if doc.None? {
        return;
      }
      var d := doc.value;
      score1 := IntOr(d, "p1", 0);
      score2 := IntOr(d, "p2", 0);
      flash1 := BoolOr(d, "flash1", false);
      flash2 := BoolOr(d, "flash2", false);
      if flash1 {
        flashUntil1 := AddU32(now, FlashMs);
      }
      if flash2 {
        flashUntil2 := AddU32(now, FlashMs);
      }
    }

    /** The painting half of `loop()`: both strips show their player's score. */
    method Refresh(now: UInt32)
      requires Valid()
      modifies strip1, strip2
      ensures strip1[..] == Frame(score1, flashUntil1, now)
      ensures strip2[..] == Frame(score2, flashUntil2, now)
    {
      ShowScore(strip1, score1, flash1, flashUntil1, now);
      ShowScore(strip2, score2, flash2, flashUntil2, now);
    }
  }
}
