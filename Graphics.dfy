/**
 * The drawing surface the scene code writes to (Phaser's Graphics object),
 * reduced to the list of primitive calls it has received since it was last
 * cleared. Nothing is rendered.
 */
module Graphics {
  import opened Wrappers

  /**
   * A colour as the program passes it: the number `hexToNumber` produced,
   * `None` standing for NaN.
   */
  type Colour = Option<int>

  /** One primitive call on the drawing surface. */
  datatype DrawCommand =
    | LineStyle(width: int, colour: Colour, alpha: real)
    | FillStyle(colour: Colour, alpha: real)
    | StrokeRoundedRect(x: int, y: int, width: int, height: int, radius: real)
    | FillRoundedRect(x: int, y: int, width: int, height: int, radius: real)
    | StrokeCircle(cx: real, cy: real, r: real)
    | FillCircle(cx: real, cy: real, r: real)
    | Save
    | Restore

  /** A drawing surface that records every primitive it is asked to draw. */
  class Graphics {
    var commands: seq<DrawCommand>

    constructor ()
      ensures commands == []
    {
      commands := [];
    }

    /** `graphics.clear()`: forget everything drawn so far. */
    method Clear()
      modifies this
      ensures commands == []
    {
      commands := [];
    }

    /** Any one of the drawing primitives, appended to what was drawn. */
    method Draw(c: DrawCommand)
      modifies this
      ensures commands == old(commands) + [c]
    {
      commands := commands + [c];
    }
  }
}
