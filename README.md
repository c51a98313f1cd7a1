# Number tile of the number-guessing mini-game, in Dafny

This project models `NumberTile`, one clickable tile of a number-guessing mini-game built on
MonoGame/XNA. A tile shows a digit from 1 to 9. The game loop calls `Update` once per frame
with the elapsed game time and the mouse state:

- While no animation runs, the tile highlights itself under the pointer.
- A press that follows a release over the tile is a guess. The correct tile then starts a
  4-second blinking animation. Any other tile starts a 4-second shrinking animation. The
  matching sound cue plays.
- When the blink has run its course, the tile hides itself and `Update` returns true.
- A shrinking tile hides itself once its computed side is no longer positive.
- `Draw` issues one sprite-batch call while the tile is visible.

Modules, one concern each:

- `Xna` (xna.dfy): stand-ins for the framework types the tile uses. These are `Rectangle` and
  its `Contains`, `Texture2D` as an opaque handle with a `Width`, `TimeSpan` and its
  `Milliseconds` component, `GameTime`, `MouseState` and one draw call.
- `Arith` (arith.dfy): C#'s truncating integer division and its monotonicity.
- `TileLogic` (tile_logic.dfy): the tile's fields as a value (`TileState`). Also one frame of
  `Update` as the function `Step`, with one function per branch (`BlinkStep`, `ShrinkStep`,
  `InteractiveStep`), plus `ConvertIntToString`, the constructor's snapshot and the shrink
  formula.
- `TileProperties` (tile_properties.dfy): the invariant every reachable snapshot keeps, `Run`
  (calling `Update` over a sequence of frames), and the lifetime lemmas about it.
- `Tiles` (number_tile.dfy): the class `NumberTile`, with the source's fields. `Update` and
  its three branch methods change those fields in place and are proved equal to `Step`. The
  constructor, the failing `Create`, `Draw`, and a client scenario complete the module.

Assumptions about the framework:

- `Rectangle.Contains(x, y)` is the half-open test `X <= x < X + Width && Y <= y < Y + Height`.
- `TimeSpan.Milliseconds` is the millisecond component `(ticks / 10000) % 1000` of a
  non-negative span. It is not the total number of milliseconds.
- `SoundBank.PlayCue` appends the cue's name to a ghost log, `cuesPlayed`.
- `ContentManager.Load` is a function `content: string -> Texture` passed to the constructor.

Behaviour of the code that the lemmas make explicit:

- The completion signal is not one-shot. Every `Update` after the blink completes returns
  true again (`SignalIsSticky`, `FinishedBlinkKeepsSignalling`).
- When a blink frame has passed, the frame timer is reset to 0 rather than reduced by
  1000 ms. How elapsed time is split across calls therefore changes when the source frame
  toggles (`FrameTimerDependsOnChunking`).
- Only the millisecond component of a frame's time reaches the timers. A frame of exactly one
  second adds 0 ms (`WholeSecondsAddNothing`), so the client scenario uses 500 ms frames.
- No timer is reset when a phase begins. The frame timer is reset only when the source frame
  toggles. The timers start at 0, each phase begins at most once, and the
  invariant proves that a timer is 0 until its phase begins.
- The animation branches keep running after the tile is hidden. The timers keep growing,
  and a finished blink keeps returning true. Visibility itself never comes back
  (`RunNeverShowsAgain`).
- A tile whose side is not positive has an empty rectangle, so it can never be clicked and
  never shrinks. The invariant records that a tile keeps its original side until a guess,
  and that only a tile of positive side can be guessed.

## Model

| member | source | states |
|---|---|---|
| `TileLogic.ConvertIntToString` | code/GameProject/GameProject/NumberTile.cs:238-262 | succeeds exactly for 1..9; every other integer gives the "Unsupported number for number tile" error; each success reads back to its own number, so the nine asset names are distinct |
| `TileLogic.CenteredSquare` | code/GameProject/GameProject/NumberTile.cs:78 | the draw rectangle is a square with sides `sideLength` centred on the given point: for a non-negative side the top-left corner is exactly half the side (rounded down) above and left of the center, for a negative side half its magnitude below and right, as C# truncating division gives; a positive square contains its center |
| `TileLogic.InitialState` | code/GameProject/GameProject/NumberTile.cs:67-82 | after construction the draw rectangle is the centered square, `isCorrectNumber` is `number == correctNumber`, the tile is visible and idle, shows the digit texture with the unhighlighted frame, and no click is armed |
| `TileLogic.ShrunkSide` | code/GameProject/GameProject/NumberTile.cs:129-132 | for a non-negative original side, the shrunk side is the original scaled by (4000 − elapsed)/4000 and truncated: between 0 and the original for elapsed in 0..4000, never positive from 4000 ms on, never above the original |
| `TileLogic.BlinkStep` | code/GameProject/GameProject/NumberTile.cs:98-124 | both blink timers grow by the frame's milliseconds; the frame returns true and hides the tile exactly when the blink total reaches 4000, keeping the source frame; otherwise the frame timer ends in 0..999, and on reaching 1000 it resets to 0 and the source frame swaps between 0 and half the texture width; nothing else changes |
| `TileLogic.ShrinkStep` | code/GameProject/GameProject/NumberTile.cs:127-142 | the shrink timer grows by the frame's milliseconds; a positive new side becomes both width and height with the position kept; otherwise the tile is hidden and the rectangle kept; the frame never returns true |
| `TileLogic.InteractiveStep` | code/GameProject/GameProject/NumberTile.cs:143-188 | a guess fires exactly when the pointer is inside, the button is pressed and a release was seen; it disarms the click and starts blinking (with "correctGuess" and the blinking texture) on the correct tile, shrinking (with "incorrectGuess") on any other; the source frame is the highlight inside the tile unless blinking just started, 0 outside; leaving the tile clears `buttonReleased` and `clickStarted`; a release inside arms the click; a held button changes neither |
| `TileLogic.Step` | code/GameProject/GameProject/NumberTile.cs:94-192 | `Update` returns true exactly when the tile is blinking and its blink total reaches 4000 ms; a hidden tile stays hidden, the animation flags are never cleared, identity and position never change; a cue is played exactly on the frame a guess starts an animation, and it names that animation |
| `TileLogic.CuesFor` | code/GameProject/GameProject/NumberTile.cs:152-174 | the cues implied by the flags number at most one |
| `TileLogic.DrawOf` | code/GameProject/GameProject/NumberTile.cs:198-205 | a draw call exists exactly when the tile is visible, with the current texture, draw rectangle, source rectangle and white tint |
| `Xna.TimeSpan.Milliseconds` | code/GameProject/GameProject/NumberTile.cs:101-102 | the time a frame adds to a timer is the millisecond component, always in 0..999 |
| `Xna.Contains` | code/GameProject/GameProject/NumberTile.cs:146 | a rectangle with a non-positive width or height contains no point, so a tile of non-positive side is never hovered or clicked |
| `Xna.ContainsIsHalfOpen` | code/GameProject/GameProject/NumberTile.cs:146 | the pointer test is half-open: a non-empty rectangle contains its top-left corner, and no point on its right or bottom edge is inside |
| `Arith.TruncDiv` | code/GameProject/GameProject/NumberTile.cs:78 | C# integer division: the quotient is truncated toward zero, bounded by the dividend on both sides |
| `TileProperties.ShrunkSideMonotone` | code/GameProject/GameProject/NumberTile.cs:129-137 | for a non-negative original side, more elapsed shrink time never gives a larger side |
| `TileProperties.InitialStateConsistent` | code/GameProject/GameProject/NumberTile.cs:67-82 | the constructor's snapshot satisfies the tile invariant |
| `TileProperties.BlinkKeepsInvariant` | code/GameProject/GameProject/NumberTile.cs:98-124 | a blinking frame keeps the invariant: the frame timer stays within the blink timer and below 1000 ms until the blink completes, and the source frame stays 0 or half the texture width |
| `TileProperties.ShrinkKeepsInvariant` | code/GameProject/GameProject/NumberTile.cs:127-142 | a shrinking frame keeps the invariant and never makes the tile larger |
| `TileProperties.InteractiveKeepsInvariant` | code/GameProject/GameProject/NumberTile.cs:143-188 | a hover or click frame keeps the invariant: at most one animation starts, with its texture, and the click is disarmed |
| `TileProperties.StepKeepsInvariant` | code/GameProject/GameProject/NumberTile.cs:94-192 | every `Update` keeps the invariant, never grows the tile, and appends its cue to the cue log implied by the flags |
| `TileProperties.Run` | code/GameProject/GameProject/NumberTile.cs:94-192 | calling `Update` over n frames yields n return values |
| `TileProperties.RunKeepsInvariant` | code/GameProject/GameProject/NumberTile.cs:94-192 | every snapshot reachable by any frame sequence keeps the invariant (blinking and shrinking never both hold), stays square, and never grows |
| `TileProperties.RunKeepsIdentity` | code/GameProject/GameProject/NumberTile.cs:78-81 | `isCorrectNumber`, the original side, both textures and the tile's position are never written after construction |
| `TileProperties.RunNeverShowsAgain` | code/GameProject/GameProject/NumberTile.cs:105-141 | `isVisible` only goes from true to false; a hidden tile is never drawn again; a started animation never stops |
| `TileProperties.RunPlaysAtMostOneCue` | code/GameProject/GameProject/NumberTile.cs:152-174 | over any frame sequence the sound bank hears at most one cue, and none once a guess has been made |
| `TileProperties.FinishedBlinkKeepsSignalling` | code/GameProject/GameProject/NumberTile.cs:105-109 | once the blink total has reached 4000 ms, every later `Update` returns true |
| `TileProperties.SignalIsSticky` | code/GameProject/GameProject/NumberTile.cs:105-109 | the completion signal is not one-shot: after a call returns true, every later call does too |
| `TileProperties.BlinkSignalTiming` | code/GameProject/GameProject/NumberTile.cs:98-109 | while blinking, call i returns true exactly when the blink timer plus the millisecond components of frames 0..i reach 4000 ms |
| `TileProperties.ShrinkHidesTile` | code/GameProject/GameProject/NumberTile.cs:127-141 | from any consistent shrinking snapshot, the shrink timer is the sum of the frames' millisecond components, and the tile is hidden once that sum reaches 4000 ms |
| `TileProperties.FrameTimerDependsOnChunking` | code/GameProject/GameProject/NumberTile.cs:112-114 | two 100 ms frames and one 200 ms frame leave different frame timers, because the timer is reset to 0; both splits toggle the source frame to half the texture width, and a following 900 ms frame toggles it back to 0 after the two 100 ms frames, but leaves it at half the texture width after the 200 ms frame |
| `TileProperties.WholeSecondsAddNothing` | code/GameProject/GameProject/NumberTile.cs:101-102 | a frame lasting whole seconds advances neither the blink nor the shrink timer |
| `Tiles.NumberTile.constructor` | code/GameProject/GameProject/NumberTile.cs:67-82 | loads the digit's texture and the "blinking" one by their asset names, and leaves the fields equal to `InitialState`, valid, with no cue played |
| `Tiles.NumberTile.Create` | code/GameProject/GameProject/NumberTile.cs:216-231 | construction succeeds exactly for numbers 1..9 and otherwise fails with the unsupported-number error |
| `Tiles.NumberTile.PlayCue` | code/GameProject/GameProject/NumberTile.cs:165-172 | playing a cue appends its name to the sound bank's log |
| `Tiles.NumberTile.Update` | code/GameProject/GameProject/NumberTile.cs:94-192 | the new fields, return value and cue log are those `Step` gives for the old fields, and the object invariant (including "the log holds the one cue the flags imply") is kept |
| `Tiles.NumberTile.UpdateBlinking` | code/GameProject/GameProject/NumberTile.cs:98-124 | the blinking branch changes the fields exactly as `BlinkStep` says |
| `Tiles.NumberTile.UpdateShrinking` | code/GameProject/GameProject/NumberTile.cs:127-142 | the shrinking branch changes the fields exactly as `ShrinkStep` says |
| `Tiles.NumberTile.UpdateInteractive` | code/GameProject/GameProject/NumberTile.cs:143-188 | the hover and click branch changes the fields and plays the cue exactly as `InteractiveStep` says |
| `Tiles.NumberTile.Draw` | code/GameProject/GameProject/NumberTile.cs:198-205 | a draw call is issued exactly when the tile is visible, with the current texture, draw rectangle and source rectangle, untinted; it is the call `DrawOf` gives for the fields, so `RunNeverShowsAgain` applies to it |

## Left out

- Asset loading by `ContentManager.Load` is not modelled. The content manager is a function from asset name to texture, and a texture is an opaque handle with a width.
- The rectangle assigned to `drawRectangle` inside `LoadContent` is not modelled. The constructor overwrites it right after, so it is never observed.
- Audio is not modelled. `SoundBank.PlayCue` only records the cue's name in a ghost log.
- Rendering is not modelled. `Draw` returns the draw call it would issue.
- `ShrunkSide` computes the shrink ratio exactly in integers where the source multiplies by a `float`. Float rounding can differ by one pixel at exact boundaries.
- `Tiles.NumberTile.constructor` takes the center as integers. The truncation of the `Vector2` float coordinates is not modelled.
- Ints are unbounded. The 32-bit overflow of the blink and shrink timers, which keep growing after a tile is hidden, is not modelled.
- `TimeSpan` is non-negative and counted in whole ticks. Negative spans cannot come from the game clock.
- `clickStarted` is kept and updated as in the source, but no property is stated about it because nothing reads it.
- `Update` is proved through three branch methods, `UpdateBlinking`, `UpdateShrinking` and `UpdateInteractive`. The source writes the three branches inline in one method.
