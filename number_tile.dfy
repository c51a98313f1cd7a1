/**
 * The number tile itself: an object whose `Update` changes its fields frame by frame, proved
 * to do exactly what `TileLogic.Step` describes and to keep `TileProperties.TileInvariant`.
 */
module Tiles {
  import opened Wrappers
  import opened Arith
  import opened Xna
  import opened TileLogic
  import opened TileProperties

  class NumberTile {
    // Written only by the constructor.
    const originalSideLength: int
    const isCorrectNumber: bool
    const texture: Texture
    const blinkingTexture: Texture

    // Drawing support.
    var currentTexture: Texture
    var drawRectangle: Rectangle
    var sourceRectangle: Rectangle

    // Tile states.
    var isVisible: bool
    var isShrinking: bool
    var isBlinking: bool
    var buttonReleased: bool
    var clickStarted: bool

    // Blinking and shrinking timers, in milliseconds.
    var elapsedBlinkMilliseconds: int
    var elapsedFrameMilliseconds: int
    var elapsedShrinkMilliseconds: int

    /** The cue names this tile has passed to the sound bank, oldest first. */
    ghost var cuesPlayed: seq<string>

    /** The tile's fields as one value. */
    function State(): TileState
      reads this
    {
      TileState(originalSideLength, isCorrectNumber, texture, blinkingTexture, currentTexture,
                drawRectangle, sourceRectangle, isVisible, isShrinking, isBlinking, buttonReleased,
                clickStarted, elapsedBlinkMilliseconds, elapsedFrameMilliseconds, elapsedShrinkMilliseconds)
    }

    /** The object invariant: the fields are consistent and the sound bank heard what the flags imply. */
    ghost predicate Valid()
      reads this
    {
      TileInvariant(State()) && cuesPlayed == CuesFor(State())
    }

    /**
     * Loads the digit's two textures through `content` (keyed by the digit's word and by
     * "blinking" followed by it) and places the tile as a square around the center.
     */
    constructor (content: string -> Texture, centerX: int, centerY: int, sideLength: int,
                 number: int, correctNumber: int)
      requires 1 <= number <= 9
      ensures Valid() && cuesPlayed == []
      ensures var word := ConvertIntToString(number).value;
        State() == InitialState(centerX, centerY, sideLength, number == correctNumber,
                                content(word), content(BLINKING_PREFIX + word))
    {
      originalSideLength := sideLength;
      var numberString := ConvertIntToString(number).value;
      var numberTexture := content(numberString);
      texture := numberTexture;
      sourceRectangle := Rectangle(0, 0, TruncDiv(sideLength, 2), TruncDiv(sideLength, 2));
      currentTexture := numberTexture;
      blinkingTexture := content(BLINKING_PREFIX + numberString);
      drawRectangle := Rectangle(centerX - TruncDiv(sideLength, 2), centerY - TruncDiv(sideLength, 2),
                                 sideLength, sideLength);
      isCorrectNumber := number == correctNumber;
      isVisible := true;
      isShrinking, isBlinking, buttonReleased, clickStarted := false, false, false, false;
      elapsedBlinkMilliseconds, elapsedFrameMilliseconds, elapsedShrinkMilliseconds := 0, 0, 0;
      cuesPlayed := [];
      new;
      InitialStateConsistent(centerX, centerY, sideLength, number == correctNumber,
                             numberTexture, blinkingTexture);
    }

    /** Constructing a tile: fails, as the constructor's exception does, for a number outside 1..9. */
    static method Create(content: string -> Texture, centerX: int, centerY: int, sideLength: int,
                         number: int, correctNumber: int) returns (r: Result<NumberTile, string>)
      ensures r.Success? <==> 1 <= number <= 9
      ensures r.Failure? ==> r.error == UNSUPPORTED_NUMBER
      ensures r.Success? ==> fresh(r.value) && r.value.Valid() && r.value.cuesPlayed == []
      ensures r.Success? ==> var word := ConvertIntToString(number).value;
        r.value.State() == InitialState(centerX, centerY, sideLength, number == correctNumber,
                                        content(word), content(BLINKING_PREFIX + word))
    {
      var numberString := ConvertIntToString(number);
      if numberString.Failure? {
        return Failure(numberString.error);
      }
      var tile := new NumberTile(content, centerX, centerY, sideLength, number, correctNumber);
      return Success(tile);
    }

    /** `SoundBank.PlayCue`: the sound bank is told the cue's name. */
    ghost method PlayCue(name: string)
      modifies this`cuesPlayed
      ensures cuesPlayed == old(cuesPlayed) + [name]
    {
      cuesPlayed := cuesPlayed + [name];
    }

    /**
     * One frame: advances the running animation, or handles hover and clicks. Returns true
     * exactly when the blink animation of the correct tile has run its course.
     */
    method Update(gameTime: GameTime, mouse: MouseState) returns (guessed: bool)
      requires Valid()
      modifies this
      ensures Valid()
      ensures var step := Step(old(State()), gameTime, mouse);
        State() == step.next && guessed == step.guessed &&
        cuesPlayed == old(cuesPlayed) + (if step.cue.Some? then [step.cue.value] else [])
    {
      StepKeepsInvariant(State(), gameTime, mouse);
      var milliseconds := gameTime.elapsedGameTime.Milliseconds();
      if isBlinking {
        guessed := UpdateBlinking(milliseconds);
      } else if isShrinking {
        UpdateShrinking(milliseconds);
        guessed := false;
      } else {
        UpdateInteractive(mouse);
        guessed := false;
      }
    }

    /** The blinking branch of `Update`. */
    method UpdateBlinking(milliseconds: int) returns (done: bool)
      requires isBlinking
      modifies this
      ensures var step := BlinkStep(old(State()), milliseconds);
        State() == step.next && done == step.guessed && cuesPlayed == old(cuesPlayed)
    {
      elapsedBlinkMilliseconds := elapsedBlinkMilliseconds + milliseconds;
      elapsedFrameMilliseconds := elapsedFrameMilliseconds + milliseconds;

      // Done blinking: hide the tile and report the correct guess.
      if elapsedBlinkMilliseconds >= TOTAL_BLINK_MILLISECONDS {
        isVisible := false;
        return true;
      }

      // Swap to the other half of the texture once a blink frame has passed.
      if FRAME_BLINK_MILLISECONDS - elapsedFrameMilliseconds <= 0 {
        elapsedFrameMilliseconds := 0;
        if sourceRectangle.x == 0 {
          sourceRectangle := sourceRectangle.(x := sourceRectangle.x + texture.width / 2);
        } else {
          sourceRectangle := sourceRectangle.(x := 0);
        }
      }
      return false;
    }

    /** The shrinking branch of `Update`. */
    method UpdateShrinking(milliseconds: int)
      requires !isBlinking && isShrinking
      modifies this
      ensures State() == ShrinkStep(old(State()), milliseconds).next && cuesPlayed == old(cuesPlayed)
    {
      elapsedShrinkMilliseconds := elapsedShrinkMilliseconds + milliseconds;
      var newTileSideLength := ShrunkSide(originalSideLength, elapsedShrinkMilliseconds);
      if newTileSideLength > 0 {
        drawRectangle := drawRectangle.(width := newTileSideLength, height := newTileSideLength);
      } else {
        isVisible := false;
      }
    }

    /** The hover and click branch of `Update`. */
    method UpdateInteractive(mouse: MouseState)
      requires !isBlinking && !isShrinking
      modifies this
      ensures var step := InteractiveStep(old(State()), mouse);
        State() == step.next &&
        cuesPlayed == old(cuesPlayed) + (if step.cue.Some? then [step.cue.value] else [])
    {
      if Contains(drawRectangle, mouse.x, mouse.y) {
        // Highlight the tile.
        sourceRectangle := sourceRectangle.(x := texture.width / 2);

        // A press after a release over the tile is a guess.
        if mouse.leftButton == Pressed && buttonReleased {
          clickStarted := true;
          buttonReleased := false;
          if isCorrectNumber {
            isBlinking := true;
            currentTexture := blinkingTexture;
            sourceRectangle := sourceRectangle.(x := 0);
            PlayCue(CORRECT_GUESS_CUE);
          } else {
            isShrinking := true;
            PlayCue(INCORRECT_GUESS_CUE);
          }
        } else if mouse.leftButton == Released {
          buttonReleased := true;
        }
      } else {
        // Leaving the tile cancels any click in progress.
        sourceRectangle := sourceRectangle.(x := 0);
        clickStarted := false;
        buttonReleased := false;
      }
    }

    /** The draw call for this frame: the current texture's frame in the tile's box, if visible. */
    method Draw() returns (cmd: Option<DrawCommand>)
      ensures cmd.Some? <==> isVisible
      ensures cmd.Some? ==> cmd.value == DrawCommand(currentTexture, drawRectangle, sourceRectangle, White)
      ensures cmd == DrawOf(State())
    {
      if isVisible {
        cmd := Some(DrawCommand(currentTexture, drawRectangle, sourceRectangle, White));
      } else {
        cmd := None;
      }
    }
  }

  /**
   * A correct tile with side 40 centered at (100, 100): the pointer rests on its center with the
   * button released, then presses; the tile starts blinking with one "correctGuess" cue, and
   * eight frames of 500 ms later `Update` reports the guess and the tile is no longer drawn.
   */
  method CorrectGuessScenario(content: string -> Texture)
  {
    var created := NumberTile.Create(content, 100, 100, 40, 5, 5);
    var tile := created.value;
    var halfSecond := GameTime(TimeSpan(500 * TICKS_PER_MILLISECOND));
    var guessed := tile.Update(halfSecond, MouseState(100, 100, Released));
    assert !guessed && tile.buttonReleased && !tile.isBlinking;
    guessed := tile.Update(halfSecond, MouseState(100, 100, Pressed));
    assert !guessed && tile.isBlinking && tile.cuesPlayed == [CORRECT_GUESS_CUE];
    var frame := 1;
    while frame < 8
      invariant 1 <= frame <= 8
      invariant tile.Valid() && tile.isBlinking && tile.isVisible
      invariant tile.elapsedBlinkMilliseconds == 500 * (frame - 1)
      invariant tile.cuesPlayed == [CORRECT_GUESS_CUE]
    {
      guessed := tile.Update(halfSecond, MouseState(0, 0, Released));
      assert !guessed;
      frame := frame + 1;
    }
    guessed := tile.Update(halfSecond, MouseState(0, 0, Released));
    assert guessed && !tile.isVisible && tile.cuesPlayed == [CORRECT_GUESS_CUE];
    var cmd := tile.Draw();
    assert cmd == None;
  }
}
