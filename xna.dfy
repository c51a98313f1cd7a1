/**
 * Stand-ins for the MonoGame/XNA framework types a number tile uses. Only the parts the tile
 * reads or writes are kept.
 */
module Xna {

  /** `Rectangle`: a struct, so every assignment copies it. */
  datatype Rectangle = Rectangle(x: int, y: int, width: int, height: int)

  /**
   * `Rectangle.Contains(int, int)`: the half-open test. The left and top edges belong to the
   * rectangle, the right and bottom edges do not.
   */
  predicate Contains(r: Rectangle, px: int, py: int)
    ensures Contains(r, px, py) ==> r.width > 0 && r.height > 0
  {
    r.x <= px < r.x + r.width && r.y <= py < r.y + r.height
  }

  /** A non-empty rectangle contains its top-left corner and no point of its right or bottom edge. */
  lemma ContainsIsHalfOpen(r: Rectangle, px: int, py: int)
    ensures r.width > 0 && r.height > 0 ==> Contains(r, r.x, r.y)
    ensures !Contains(r, r.x + r.width, py) && !Contains(r, px, r.y + r.height)
  {
  }

  /** `Texture2D`: an opaque asset handle; the tile only reads its `Width`. */
  datatype Texture = Texture(handle: int, width: nat)

  const TICKS_PER_MILLISECOND := 10000

  /** `TimeSpan`, counted in 100-nanosecond ticks; a frame's elapsed time is never negative. */
  datatype TimeSpan = TimeSpan(ticks: nat) {

    /** `TimeSpan.Milliseconds`: the millisecond component (0..999), not the total milliseconds. */
    function Milliseconds(): (ms: int)
      ensures 0 <= ms < 1000
      ensures ticks < 1000 * TICKS_PER_MILLISECOND ==> ms == ticks / TICKS_PER_MILLISECOND
    {
      (ticks / TICKS_PER_MILLISECOND) % 1000
    }
  }

  datatype GameTime = GameTime(elapsedGameTime: TimeSpan)

  datatype ButtonState = Released | Pressed

  datatype MouseState = MouseState(x: int, y: int, leftButton: ButtonState)

  /** The only tint a number tile draws with. */
  datatype Color = White

  /** One `SpriteBatch.Draw(texture, destinationRectangle, sourceRectangle, color)` call. */
  datatype DrawCommand = DrawCommand(texture: Texture, destination: Rectangle, source: Rectangle, tint: Color)
}
