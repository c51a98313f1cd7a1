/**
 * The number tile of the guessing mini-game as values: a snapshot of every field the tile
 * keeps, and one frame of `NumberTile.Update` as a function from the old snapshot to the new
 * one. The class in module Tiles is proved to do exactly what `Step` says.
 */
module TileLogic {
  import opened Wrappers
  import opened Arith
  import opened Xna

  const TOTAL_BLINK_MILLISECONDS := 4000
  const FRAME_BLINK_MILLISECONDS := 1000
  const TOTAL_SHRINK_MILLISECONDS := 4000

  const CORRECT_GUESS_CUE := "correctGuess"
  const INCORRECT_GUESS_CUE := "incorrectGuess"
  const UNSUPPORTED_NUMBER := "Unsupported number for number tile"
  const BLINKING_PREFIX := "blinking"

  /** The asset name of a digit's texture, or the exception the tile throws for any other number. */
  function ConvertIntToString(number: int): (r: Result<string, string>)
    ensures r.Success? <==> 1 <= number <= 9
    ensures r.Failure? ==> r.error == UNSUPPORTED_NUMBER
    ensures r.Success? ==> NumberOfWord(r.value) == Some(number)
  {
    match number
    case 1 => Success("one")
    case 2 => Success("two")
    case 3 => Success("three")
    case 4 => Success("four")
    case 5 => Success("five")
    case 6 => Success("six")
    case 7 => Success("seven")
    case 8 => Success("eight")
    case 9 => Success("nine")
    case _ => Failure(UNSUPPORTED_NUMBER)
  }

  /** Reading a digit's word back: the inverse of ConvertIntToString on its successes. */
  function NumberOfWord(word: string): Option<int>
  {
    if word == "one" then Some(1)
    else if word == "two" then Some(2)
    else if word == "three" then Some(3)
    else if word == "four" then Some(4)
    else if word == "five" then Some(5)
    else if word == "six" then Some(6)
    else if word == "seven" then Some(7)
    else if word == "eight" then Some(8)
    else if word == "nine" then Some(9)
    else None
  }

  /** Every field of a `NumberTile` (the sound bank and content manager aside). */
  datatype TileState = TileState(
    originalSideLength: int,
    isCorrectNumber: bool,
    texture: Texture,
    blinkingTexture: Texture,
    currentTexture: Texture,
    drawRectangle: Rectangle,
    sourceRectangle: Rectangle,
    isVisible: bool,
    isShrinking: bool,
    isBlinking: bool,
    buttonReleased: bool,
    clickStarted: bool,
    elapsedBlinkMilliseconds: int,
    elapsedFrameMilliseconds: int,
    elapsedShrinkMilliseconds: int)

  /** What one call of `Update` produces: the new fields, its return value, the cue it played. */
  datatype StepResult = StepResult(next: TileState, guessed: bool, cue: Option<string>)

  /** A guess has been made on this tile: its animation has begun (and never stops). */
  predicate Guessing(s: TileState)
  {
    s.isBlinking || s.isShrinking
  }

  /** Neither animation runs, so `Update` does hover and click handling. */
  predicate Interactive(s: TileState)
  {
    !s.isBlinking && !s.isShrinking
  }

  /** The parts of a tile that `Update` never writes. */
  predicate SameIdentity(s: TileState, t: TileState)
  {
    t.originalSideLength == s.originalSideLength &&
    t.isCorrectNumber == s.isCorrectNumber &&
    t.texture == s.texture &&
    t.blinkingTexture == s.blinkingTexture &&
    t.drawRectangle.x == s.drawRectangle.x &&
    t.drawRectangle.y == s.drawRectangle.y &&
    t.sourceRectangle.y == s.sourceRectangle.y &&
    t.sourceRectangle.width == s.sourceRectangle.width &&
    t.sourceRectangle.height == s.sourceRectangle.height
  }

  /** The source frame that shows the highlighted (and the second blinking) half of the texture. */
  function HighlightX(s: TileState): int
  {
    s.texture.width / 2
  }

  /** The square of the given side whose top-left corner is half a side up and left of the center. */
  function CenteredSquare(centerX: int, centerY: int, sideLength: int): (r: Rectangle)
    ensures r.width == r.height == sideLength
    ensures sideLength >= 0 ==> r.x <= centerX && centerX - r.x <= sideLength / 2
    ensures sideLength >= 0 ==> r.y <= centerY && centerY - r.y <= sideLength / 2
    ensures sideLength >= 0 ==> r.x + sideLength / 2 == centerX && r.y + sideLength / 2 == centerY
    ensures sideLength < 0 ==> r.x - (-sideLength) / 2 == centerX && r.y - (-sideLength) / 2 == centerY
    ensures sideLength > 0 ==> Contains(r, centerX, centerY)
  {
    Rectangle(centerX - TruncDiv(sideLength, 2), centerY - TruncDiv(sideLength, 2), sideLength, sideLength)
  }

  /** The fields right after the constructor has loaded the textures for the tile's digit. */
  function InitialState(centerX: int, centerY: int, sideLength: int, isCorrectNumber: bool,
                        texture: Texture, blinkingTexture: Texture): (s: TileState)
    ensures s.drawRectangle == CenteredSquare(centerX, centerY, sideLength)
    ensures s.originalSideLength == sideLength && s.isCorrectNumber == isCorrectNumber
    ensures s.isVisible && !Guessing(s) && !s.buttonReleased && s.currentTexture == texture
    ensures s.sourceRectangle.x == 0
  {
    TileState(
      originalSideLength := sideLength,
      isCorrectNumber := isCorrectNumber,
      texture := texture,
      blinkingTexture := blinkingTexture,
      currentTexture := texture,
      drawRectangle := CenteredSquare(centerX, centerY, sideLength),
      sourceRectangle := Rectangle(0, 0, TruncDiv(sideLength, 2), TruncDiv(sideLength, 2)),
      isVisible := true,
      isShrinking := false,
      isBlinking := false,
      buttonReleased := false,
      clickStarted := false,
      elapsedBlinkMilliseconds := 0,
      elapsedFrameMilliseconds := 0,
      elapsedShrinkMilliseconds := 0)
  }

  /**
   * The side length after `elapsed` milliseconds of shrinking: the original side scaled by
   * (4000 - elapsed) / 4000 and truncated toward zero, computed exactly.
   */
  function ShrunkSide(original: int, elapsed: int): (side: int)
    ensures original >= 0 && elapsed >= 0 ==> side <= original
    ensures original >= 0 && elapsed <= TOTAL_SHRINK_MILLISECONDS ==> side >= 0
    ensures original >= 0 && elapsed >= TOTAL_SHRINK_MILLISECONDS ==> side <= 0
    ensures original >= 0 && elapsed <= TOTAL_SHRINK_MILLISECONDS ==>
      side * TOTAL_SHRINK_MILLISECONDS <= original * (TOTAL_SHRINK_MILLISECONDS - elapsed)
                                       < side * TOTAL_SHRINK_MILLISECONDS + TOTAL_SHRINK_MILLISECONDS
  {
    var remaining := TOTAL_SHRINK_MILLISECONDS - elapsed;
    var numerator := original * remaining;
    assert original >= 0 && elapsed >= 0 ==> numerator <= original * TOTAL_SHRINK_MILLISECONDS by {
      if original >= 0 && elapsed >= 0 {
        MulMonotone(original, remaining, TOTAL_SHRINK_MILLISECONDS);
      }
    }
    assert original >= 0 && remaining >= 0 ==> numerator >= 0 by {
      if original >= 0 && remaining >= 0 {
        MulMonotone(original, 0, remaining);
      }
    }
    assert original >= 0 && remaining <= 0 ==> numerator <= 0 by {
      if original >= 0 && remaining <= 0 {
        MulMonotone(original, remaining, 0);
      }
    }
    TruncDiv(numerator, TOTAL_SHRINK_MILLISECONDS)
  }

  /** The tile advances its blink timers; the last frame hides it and reports the correct guess. */
  function BlinkStep(s: TileState, ms: int): (r: StepResult)
    // The frame reports the guess exactly when the blink total reaches 4000 ms, and hides the tile.
    ensures r.guessed <==> s.elapsedBlinkMilliseconds + ms >= TOTAL_BLINK_MILLISECONDS
    ensures r.guessed ==> !r.next.isVisible
    ensures !r.guessed ==> r.next.isVisible == s.isVisible
    // Both timers are additive; a non-final frame leaves the frame timer below 1000 ms.
    ensures r.next.elapsedBlinkMilliseconds == s.elapsedBlinkMilliseconds + ms
    ensures r.guessed ==>
      r.next.elapsedFrameMilliseconds == s.elapsedFrameMilliseconds + ms && r.next.sourceRectangle == s.sourceRectangle
    ensures !r.guessed && 0 <= s.elapsedFrameMilliseconds + ms ==>
      0 <= r.next.elapsedFrameMilliseconds < FRAME_BLINK_MILLISECONDS
    ensures !r.guessed && s.elapsedFrameMilliseconds + ms < FRAME_BLINK_MILLISECONDS ==>
      r.next.elapsedFrameMilliseconds == s.elapsedFrameMilliseconds + ms &&
      r.next.sourceRectangle == s.sourceRectangle
    // Once the frame timer reaches 1000 ms, the source frame swaps between the two halves.
    ensures !r.guessed && s.elapsedFrameMilliseconds + ms >= FRAME_BLINK_MILLISECONDS ==>
      r.next.elapsedFrameMilliseconds == 0 &&
      (s.sourceRectangle.x == 0 ==> r.next.sourceRectangle.x == HighlightX(s)) &&
      (s.sourceRectangle.x != 0 ==> r.next.sourceRectangle.x == 0)
    ensures r.cue == None && r.next.drawRectangle == s.drawRectangle
    ensures r.next == s.(elapsedBlinkMilliseconds := r.next.elapsedBlinkMilliseconds,
                         elapsedFrameMilliseconds := r.next.elapsedFrameMilliseconds,
                         isVisible := r.next.isVisible,
                         sourceRectangle := s.sourceRectangle.(x := r.next.sourceRectangle.x))
  {
    var blink := s.elapsedBlinkMilliseconds + ms;
    var frame := s.elapsedFrameMilliseconds + ms;
    if blink >= TOTAL_BLINK_MILLISECONDS then
      StepResult(s.(elapsedBlinkMilliseconds := blink, elapsedFrameMilliseconds := frame, isVisible := false),
                 true, None)
    else if FRAME_BLINK_MILLISECONDS - frame <= 0 then
      var x := if s.sourceRectangle.x == 0 then s.sourceRectangle.x + HighlightX(s) else 0;
      StepResult(s.(elapsedBlinkMilliseconds := blink, elapsedFrameMilliseconds := 0,
                    sourceRectangle := s.sourceRectangle.(x := x)),
                 false, None)
    else
      StepResult(s.(elapsedBlinkMilliseconds := blink, elapsedFrameMilliseconds := frame), false, None)
  }

  /** The tile advances its shrink timer and shrinks, or hides once the side is no longer positive. */
  function ShrinkStep(s: TileState, ms: int): (r: StepResult)
    ensures r.next.elapsedShrinkMilliseconds == s.elapsedShrinkMilliseconds + ms
    ensures var side := ShrunkSide(s.originalSideLength, r.next.elapsedShrinkMilliseconds);
      (r.next.isVisible <==> s.isVisible && side > 0) &&
      (side > 0 ==> r.next.drawRectangle == s.drawRectangle.(width := side, height := side)) &&
      (side <= 0 ==> r.next.drawRectangle == s.drawRectangle)
    ensures !r.guessed && r.cue == None
    ensures r.next == s.(elapsedShrinkMilliseconds := r.next.elapsedShrinkMilliseconds,
                         drawRectangle := r.next.drawRectangle, isVisible := r.next.isVisible)
  {
    var shrink := s.elapsedShrinkMilliseconds + ms;
    var side := ShrunkSide(s.originalSideLength, shrink);
    if side > 0 then
      StepResult(s.(elapsedShrinkMilliseconds := shrink,
                    drawRectangle := s.drawRectangle.(width := side, height := side)),
                 false, None)
    else
      StepResult(s.(elapsedShrinkMilliseconds := shrink, isVisible := false), false, None)
  }

  /** Hover highlighting and click detection while no animation runs. */
  function InteractiveStep(s: TileState, mouse: MouseState): (r: StepResult)
    requires Interactive(s)
    // A click fires only over the tile, with the button down after it was seen released there.
    ensures r.cue.Some? <==> Contains(s.drawRectangle, mouse.x, mouse.y) && mouse.leftButton == Pressed && s.buttonReleased
    ensures r.cue.Some? ==> r.next.clickStarted && !r.next.buttonReleased
    ensures r.cue.Some? && s.isCorrectNumber ==>
      r.cue.value == CORRECT_GUESS_CUE && r.next.isBlinking && !r.next.isShrinking &&
      r.next.currentTexture == s.blinkingTexture
    ensures r.cue.Some? && !s.isCorrectNumber ==>
      r.cue.value == INCORRECT_GUESS_CUE && r.next.isShrinking && !r.next.isBlinking &&
      r.next.currentTexture == s.currentTexture
    ensures r.cue.None? ==> Interactive(r.next) && r.next.currentTexture == s.currentTexture
    // Hovering highlights the tile (a click that starts blinking shows the first frame instead).
    ensures r.next.sourceRectangle ==
      s.sourceRectangle.(x := if Contains(s.drawRectangle, mouse.x, mouse.y) && !r.next.isBlinking then HighlightX(s) else 0)
    // Leaving the tile forgets any half-made click; releasing the button over it arms the next one.
    ensures !Contains(s.drawRectangle, mouse.x, mouse.y) ==> !r.next.buttonReleased && !r.next.clickStarted
    ensures Contains(s.drawRectangle, mouse.x, mouse.y) && mouse.leftButton == Released ==> r.next.buttonReleased
    ensures Contains(s.drawRectangle, mouse.x, mouse.y) && mouse.leftButton == Pressed && !s.buttonReleased ==>
      r.next.buttonReleased == s.buttonReleased && r.next.clickStarted == s.clickStarted
    ensures !r.guessed
    ensures r.next == s.(sourceRectangle := r.next.sourceRectangle, buttonReleased := r.next.buttonReleased,
                         clickStarted := r.next.clickStarted, isBlinking := r.next.isBlinking,
                         isShrinking := r.next.isShrinking, currentTexture := r.next.currentTexture)
  {
    if Contains(s.drawRectangle, mouse.x, mouse.y) then
      var hovered := s.sourceRectangle.(x := HighlightX(s));
      if mouse.leftButton == Pressed && s.buttonReleased then
        var clicked := s.(clickStarted := true, buttonReleased := false);
        if s.isCorrectNumber then
          StepResult(clicked.(isBlinking := true, currentTexture := s.blinkingTexture,
                              sourceRectangle := hovered.(x := 0)),
                     false, Some(CORRECT_GUESS_CUE))
        else
          StepResult(clicked.(isShrinking := true, sourceRectangle := hovered),
                     false, Some(INCORRECT_GUESS_CUE))
      else if mouse.leftButton == Released then
        StepResult(s.(sourceRectangle := hovered, buttonReleased := true), false, None)
      else
        StepResult(s.(sourceRectangle := hovered), false, None)
    else
      StepResult(s.(sourceRectangle := s.sourceRectangle.(x := 0), clickStarted := false, buttonReleased := false),
                 false, None)
  }

  /**
   * One call of `NumberTile.Update`. The branch is chosen by the flags: blinking first, then
   * shrinking, then hover and click handling.
   */
  function Step(s: TileState, gameTime: GameTime, mouse: MouseState): (r: StepResult)
    // The return value is true exactly on the frames where the blink total has reached 4000 ms.
    ensures r.guessed <==>
      s.isBlinking && s.elapsedBlinkMilliseconds + gameTime.elapsedGameTime.Milliseconds() >= TOTAL_BLINK_MILLISECONDS
    ensures r.guessed ==> !r.next.isVisible
    // A hidden tile never shows again, and the animation flags are never cleared.
    ensures r.next.isVisible ==> s.isVisible
    ensures s.isBlinking ==> r.next.isBlinking
    ensures s.isShrinking ==> r.next.isShrinking
    ensures SameIdentity(s, r.next)
    // A cue is played exactly when a guess is made, and it names which animation began.
    ensures r.cue.Some? <==> !Guessing(s) && Guessing(r.next)
    ensures r.cue.Some? ==> r.next.isBlinking != r.next.isShrinking &&
                            (r.cue.value == CORRECT_GUESS_CUE <==> r.next.isBlinking) &&
                            (r.cue.value == INCORRECT_GUESS_CUE <==> r.next.isShrinking)
  {
    var ms := gameTime.elapsedGameTime.Milliseconds();
    if s.isBlinking then BlinkStep(s, ms)
    else if s.isShrinking then ShrinkStep(s, ms)
    else InteractiveStep(s, mouse)
  }

  /** The cues a sound bank has heard from a tile, read off its animation flags. */
  function CuesFor(s: TileState): (cues: seq<string>)
    ensures |cues| <= 1
  {
    if s.isBlinking then [CORRECT_GUESS_CUE]
    else if s.isShrinking then [INCORRECT_GUESS_CUE]
    else []
  }

  /** The draw call `Draw` issues for a snapshot: one exactly when the tile is visible. */
  function DrawOf(s: TileState): (cmd: Option<DrawCommand>)
    ensures cmd.Some? <==> s.isVisible
    ensures cmd.Some? ==> cmd.value.texture == s.currentTexture && cmd.value.destination == s.drawRectangle &&
                          cmd.value.source == s.sourceRectangle && cmd.value.tint == White
  {
    if s.isVisible then Some(DrawCommand(s.currentTexture, s.drawRectangle, s.sourceRectangle, White)) else None
  }
}
