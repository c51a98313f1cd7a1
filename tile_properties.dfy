/**
 * What holds of a number tile over its whole life: the invariant every reachable snapshot
 * keeps, and properties of running `Update` over any sequence of frames.
 */
module TileProperties {
  import opened Wrappers
  import opened Arith
  import opened Xna
  import opened TileLogic

  /** The facts every snapshot reachable from the constructor satisfies. */
  predicate TileInvariant(s: TileState)
  {
    // The two animations exclude each other, and a started guess has consumed the click.
    !(s.isBlinking && s.isShrinking) &&
    (Guessing(s) ==> !s.buttonReleased) &&
    // Timers run only in their own phase.
    (!s.isBlinking ==> s.elapsedBlinkMilliseconds == 0 && s.elapsedFrameMilliseconds == 0) &&
    (!s.isShrinking ==> s.elapsedShrinkMilliseconds == 0) &&
    0 <= s.elapsedFrameMilliseconds <= s.elapsedBlinkMilliseconds &&
    0 <= s.elapsedShrinkMilliseconds &&
    (s.elapsedBlinkMilliseconds < TOTAL_BLINK_MILLISECONDS ==> s.elapsedFrameMilliseconds < FRAME_BLINK_MILLISECONDS) &&
    (s.elapsedBlinkMilliseconds >= TOTAL_BLINK_MILLISECONDS ==> !s.isVisible) &&
    // The texture and the frame shown.
    s.currentTexture == (if s.isBlinking then s.blinkingTexture else s.texture) &&
    (s.sourceRectangle.x == 0 || s.sourceRectangle.x == HighlightX(s)) &&
    // The tile stays a square no larger than it started and no smaller than the shrink allows.
    s.drawRectangle.width == s.drawRectangle.height &&
    (s.originalSideLength >= 0 ==>
       ShrunkSide(s.originalSideLength, s.elapsedShrinkMilliseconds) <= s.drawRectangle.width <= s.originalSideLength) &&
    (s.originalSideLength > 0 ==> s.drawRectangle.width > 0) &&
    // Until a guess the tile keeps its original size; only a tile of positive size can be clicked.
    (!Guessing(s) ==> s.drawRectangle.width == s.originalSideLength) &&
    (Guessing(s) ==> s.originalSideLength > 0)
  }

  /** A longer shrink never gives a larger side. */
  lemma ShrunkSideMonotone(original: int, earlier: int, later: int)
    requires original >= 0 && earlier <= later
    ensures ShrunkSide(original, later) <= ShrunkSide(original, earlier)
  {
    MulMonotone(original, TOTAL_SHRINK_MILLISECONDS - later, TOTAL_SHRINK_MILLISECONDS - earlier);
    TruncDivMonotone(original * (TOTAL_SHRINK_MILLISECONDS - later),
                     original * (TOTAL_SHRINK_MILLISECONDS - earlier), TOTAL_SHRINK_MILLISECONDS);
  }

  /** The constructor's snapshot satisfies the invariant. */
  lemma InitialStateConsistent(centerX: int, centerY: int, sideLength: int, isCorrectNumber: bool,
                               texture: Texture, blinkingTexture: Texture)
    ensures TileInvariant(InitialState(centerX, centerY, sideLength, isCorrectNumber, texture, blinkingTexture))
  {
  }

  /** A blinking frame keeps the invariant. */
  lemma BlinkKeepsInvariant(s: TileState, ms: int)
    requires TileInvariant(s) && s.isBlinking && 0 <= ms
    ensures TileInvariant(BlinkStep(s, ms).next)
  {
    var r := BlinkStep(s, ms);
    assert r.next.elapsedFrameMilliseconds <= r.next.elapsedBlinkMilliseconds;
    assert r.next.sourceRectangle.x == 0 || r.next.sourceRectangle.x == HighlightX(r.next);
  }

  /** A shrinking frame keeps the invariant and never grows the tile. */
  lemma ShrinkKeepsInvariant(s: TileState, ms: int)
    requires TileInvariant(s) && s.isShrinking && !s.isBlinking && 0 <= ms
    ensures TileInvariant(ShrinkStep(s, ms).next)
    ensures ShrinkStep(s, ms).next.drawRectangle.width <= s.drawRectangle.width
  {
    ShrunkSideMonotone(s.originalSideLength, s.elapsedShrinkMilliseconds, s.elapsedShrinkMilliseconds + ms);
  }

  /** A hover or click frame keeps the invariant. */
  lemma InteractiveKeepsInvariant(s: TileState, mouse: MouseState)
    requires TileInvariant(s) && Interactive(s)
    ensures TileInvariant(InteractiveStep(s, mouse).next)
  {
    var r := InteractiveStep(s, mouse);
    assert r.next.sourceRectangle.x == 0 || r.next.sourceRectangle.x == HighlightX(r.next);
  }

  /** One frame keeps the invariant, never grows the tile, and logs its cue after the earlier one. */
  lemma StepKeepsInvariant(s: TileState, gameTime: GameTime, mouse: MouseState)
    requires TileInvariant(s)
    ensures var r := Step(s, gameTime, mouse);
      TileInvariant(r.next) &&
      r.next.drawRectangle.width <= s.drawRectangle.width &&
      CuesFor(r.next) == CuesFor(s) + (if r.cue.Some? then [r.cue.value] else [])
  {
    var ms := gameTime.elapsedGameTime.Milliseconds();
    if s.isBlinking {
      BlinkKeepsInvariant(s, ms);
    } else if s.isShrinking {
      ShrinkKeepsInvariant(s, ms);
    } else {
      InteractiveKeepsInvariant(s, mouse);
    }
  }

  /** One frame of input: the game time and the mouse state passed to `Update`. */
  datatype Frame = Frame(gameTime: GameTime, mouse: MouseState)

  /** The final snapshot of a run, what each `Update` call returned, and the cues played. */
  datatype RunResult = RunResult(final: TileState, signals: seq<bool>, cues: seq<string>)

  /** Calls `Update` once per frame, in order. */
  function Run(s: TileState, frames: seq<Frame>): (r: RunResult)
    ensures |r.signals| == |frames|
    ensures frames == [] ==> r.final == s && r.cues == []
    decreases |frames|
  {
    if frames == [] then RunResult(s, [], [])
    else
      var step := Step(s, frames[0].gameTime, frames[0].mouse);
      var rest := Run(step.next, frames[1..]);
      RunResult(rest.final, [step.guessed] + rest.signals,
                (if step.cue.Some? then [step.cue.value] else []) + rest.cues)
  }

  /** The milliseconds `Update` adds to a running timer over the frames: their millisecond components. */
  function TotalMilliseconds(frames: seq<Frame>): (total: int)
    ensures total >= 0
    decreases |frames|
  {
    if frames == [] then 0
    else frames[0].gameTime.elapsedGameTime.Milliseconds() + TotalMilliseconds(frames[1..])
  }

  /** Every snapshot reachable from a consistent one is consistent, and the tile never grows. */
  lemma {:induction false} RunKeepsInvariant(s: TileState, frames: seq<Frame>)
    requires TileInvariant(s)
    ensures TileInvariant(Run(s, frames).final)
    ensures Run(s, frames).final.drawRectangle.width <= s.drawRectangle.width
    ensures Run(s, frames).final.drawRectangle.width == Run(s, frames).final.drawRectangle.height
    decreases |frames|
  {
    if frames != [] {
      StepKeepsInvariant(s, frames[0].gameTime, frames[0].mouse);
      RunKeepsInvariant(Step(s, frames[0].gameTime, frames[0].mouse).next, frames[1..]);
    }
  }

  /**
   * The digit's correctness, the textures, the original side and the tile's position are fixed
   * for the tile's lifetime.
   */
  lemma {:induction false} RunKeepsIdentity(s: TileState, frames: seq<Frame>)
    ensures SameIdentity(s, Run(s, frames).final)
    decreases |frames|
  {
    if frames != [] {
      RunKeepsIdentity(Step(s, frames[0].gameTime, frames[0].mouse).next, frames[1..]);
    }
  }

  /** A hidden tile stays hidden and is never drawn again, and a started animation never stops. */
  lemma {:induction false} RunNeverShowsAgain(s: TileState, frames: seq<Frame>)
    ensures Run(s, frames).final.isVisible ==> s.isVisible
    ensures !s.isVisible ==> DrawOf(Run(s, frames).final) == None
    ensures s.isBlinking ==> Run(s, frames).final.isBlinking
    ensures s.isShrinking ==> Run(s, frames).final.isShrinking
    decreases |frames|
  {
    if frames != [] {
      RunNeverShowsAgain(Step(s, frames[0].gameTime, frames[0].mouse).next, frames[1..]);
    }
  }

  /**
   * The sound bank hears at most one cue over a tile's lifetime: the cues a run plays extend
   * the log the flags imply, and none is played once a guess has been made.
   */
  lemma {:induction false} RunPlaysAtMostOneCue(s: TileState, frames: seq<Frame>)
    requires TileInvariant(s)
    ensures CuesFor(s) + Run(s, frames).cues == CuesFor(Run(s, frames).final)
    ensures |Run(s, frames).cues| <= 1
    ensures Guessing(s) ==> Run(s, frames).cues == []
    decreases |frames|
  {
    if frames != [] {
      var step := Step(s, frames[0].gameTime, frames[0].mouse);
      StepKeepsInvariant(s, frames[0].gameTime, frames[0].mouse);
      RunPlaysAtMostOneCue(step.next, frames[1..]);
      var stepCues := if step.cue.Some? then [step.cue.value] else [];
      assert CuesFor(s) + Run(s, frames).cues == (CuesFor(s) + stepCues) + Run(step.next, frames[1..]).cues;
    }
  }

  /** Once the blink has run its 4000 ms, every later `Update` call returns true again. */
  lemma {:induction false} FinishedBlinkKeepsSignalling(s: TileState, frames: seq<Frame>, j: nat)
    requires s.isBlinking && s.elapsedBlinkMilliseconds >= TOTAL_BLINK_MILLISECONDS
    requires j < |frames|
    ensures Run(s, frames).signals[j]
    decreases |frames|
  {
    if j > 0 {
      FinishedBlinkKeepsSignalling(Step(s, frames[0].gameTime, frames[0].mouse).next, frames[1..], j - 1);
    }
  }

  /** The completion signal is not one-shot: a frame that returned true is followed only by such frames. */
  lemma {:induction false} SignalIsSticky(s: TileState, frames: seq<Frame>, i: nat, j: nat)
    requires i <= j < |frames|
    requires Run(s, frames).signals[i]
    ensures Run(s, frames).signals[j]
    decreases |frames|
  {
    var next := Step(s, frames[0].gameTime, frames[0].mouse).next;
    if i > 0 {
      SignalIsSticky(next, frames[1..], i - 1, j - 1);
    } else if j > 0 {
      FinishedBlinkKeepsSignalling(next, frames[1..], j - 1);
    }
  }

  /**
   * While blinking, the blink timer is the sum of the frames' millisecond components, and call
   * `i` returns true exactly when that sum, up to and including frame `i`, reaches 4000 ms.
   */
  lemma {:induction false} BlinkSignalTiming(s: TileState, frames: seq<Frame>, i: nat)
    requires s.isBlinking && i < |frames|
    ensures Run(s, frames).signals[i] <==>
      s.elapsedBlinkMilliseconds + TotalMilliseconds(frames[..i + 1]) >= TOTAL_BLINK_MILLISECONDS
    decreases |frames|
  {
    var next := Step(s, frames[0].gameTime, frames[0].mouse).next;
    var ms := frames[0].gameTime.elapsedGameTime.Milliseconds();
    assert frames[..i + 1][1..] == frames[1..][..i];
    assert TotalMilliseconds(frames[..i + 1]) == ms + TotalMilliseconds(frames[1..][..i]);
    if i > 0 {
      BlinkSignalTiming(next, frames[1..], i - 1);
      assert TotalMilliseconds(frames[1..][..i]) == TotalMilliseconds(frames[1..][..(i - 1) + 1]);
    } else {
      assert frames[1..][..0] == [];
    }
  }

  /** The shrink timer is additive, and a tile shrunk for 4000 ms or more is hidden. */
  lemma {:induction false} ShrinkHidesTile(s: TileState, frames: seq<Frame>)
    requires TileInvariant(s) && s.isShrinking
    ensures Run(s, frames).final.elapsedShrinkMilliseconds == s.elapsedShrinkMilliseconds + TotalMilliseconds(frames)
    ensures frames != [] && s.elapsedShrinkMilliseconds + TotalMilliseconds(frames) >= TOTAL_SHRINK_MILLISECONDS ==>
      !Run(s, frames).final.isVisible
    decreases |frames|
  {
    if frames != [] {
      var next := Step(s, frames[0].gameTime, frames[0].mouse).next;
      StepKeepsInvariant(s, frames[0].gameTime, frames[0].mouse);
      ShrinkHidesTile(next, frames[1..]);
    }
  }

  /**
   * How elapsed time is split across calls matters: the frame timer is reset to zero rather
   * than reduced by 1000 ms. Two 100 ms frames and one 200 ms frame leave different timers,
   * and a following 900 ms frame toggles the source frame after the first split only.
   */
  lemma FrameTimerDependsOnChunking(s: TileState, mouse: MouseState)
    requires s.isBlinking && s.elapsedBlinkMilliseconds == 900 && s.elapsedFrameMilliseconds == 900
    requires s.sourceRectangle.x == 0 && s.texture.width >= 2
    ensures var tenth := Frame(GameTime(TimeSpan(100 * TICKS_PER_MILLISECOND)), mouse);
            var fifth := Frame(GameTime(TimeSpan(200 * TICKS_PER_MILLISECOND)), mouse);
            var rest := Frame(GameTime(TimeSpan(900 * TICKS_PER_MILLISECOND)), mouse);
            Run(s, [tenth, tenth]).final.elapsedFrameMilliseconds == 100 &&
            Run(s, [fifth]).final.elapsedFrameMilliseconds == 0 &&
            Run(s, [tenth, tenth]).final.sourceRectangle.x == Run(s, [fifth]).final.sourceRectangle.x == HighlightX(s) &&
            Run(s, [tenth, tenth, rest]).final.sourceRectangle.x == 0 &&
            Run(s, [fifth, rest]).final.sourceRectangle.x == HighlightX(s) != 0
  {
    var tenth := Frame(GameTime(TimeSpan(100 * TICKS_PER_MILLISECOND)), mouse);
    var fifth := Frame(GameTime(TimeSpan(200 * TICKS_PER_MILLISECOND)), mouse);
    var rest := Frame(GameTime(TimeSpan(900 * TICKS_PER_MILLISECOND)), mouse);
    var oneTenth := Step(s, tenth.gameTime, tenth.mouse).next;
    var twoTenths := Step(oneTenth, tenth.gameTime, tenth.mouse).next;
    assert [tenth, tenth, rest][1..] == [tenth, rest] && [tenth, rest][1..] == [rest];
    assert Run(s, [tenth, tenth, rest]).final == Run(oneTenth, [tenth, rest]).final
        == Run(twoTenths, [rest]).final == Step(twoTenths, rest.gameTime, rest.mouse).next;
    var afterFifth := Step(s, fifth.gameTime, fifth.mouse).next;
    assert [fifth, rest][1..] == [rest];
    assert Run(s, [fifth, rest]).final == Step(afterFifth, rest.gameTime, rest.mouse).next;
  }

  /**
   * Only the millisecond component of a frame's elapsed time reaches the timers, so a frame
   * lasting a whole number of seconds advances neither animation.
   */
  lemma WholeSecondsAddNothing(s: TileState, seconds: nat, mouse: MouseState)
    requires Guessing(s)
    ensures var next := Step(s, GameTime(TimeSpan(seconds * 1000 * TICKS_PER_MILLISECOND)), mouse).next;
      next.elapsedBlinkMilliseconds == s.elapsedBlinkMilliseconds &&
      next.elapsedShrinkMilliseconds == s.elapsedShrinkMilliseconds
  {
    var ticks := seconds * 1000 * TICKS_PER_MILLISECOND;
    assert ticks / TICKS_PER_MILLISECOND == seconds * 1000;
    assert (seconds * 1000) % 1000 == 0;
  }
}
