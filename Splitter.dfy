/**
 * src/entities/Splitter.ts: a placed splitter. Position, size and colour are
 * set when it is built; only `Select` and `Deselect` change it afterwards,
 * and only its `selected` flag, which decides the outline colour it is drawn with.
 */
module Entities {
  import opened Wrappers
  import opened Graphics

  /** The yellowish fill used when no colour is given. */
  const DefaultColor: int := 0xffd166
  /** Outline colour of a selected splitter. */
  const SelectedOutline: int := 0x118ab2
  /** Outline colour of a splitter that is not selected. */
  const NormalOutline: int := 0x222222

  /** The outline colour `draw` picks: the highlight exactly when selected. */
  function OutlineColor(selected: bool): (c: int)
    ensures c == SelectedOutline <==> selected
    ensures c == NormalOutline <==> !selected
  {
    if selected then SelectedOutline else NormalOutline
  }

  class Splitter {
    /** Centre of the splitter. */
    var x: real
    var y: real
    /** Diameter. */
    var size: real
    /** Fill colour. */
    var color: int
    /** Whether the splitter is highlighted. */
    var selected: bool

    constructor (x: real, y: real, size: real, color: int := DefaultColor)
      ensures this.x == x && this.y == y && this.size == size && this.color == color
      ensures !selected
    {
      this.x := x;
      this.y := y;
      this.size := size;
      this.color := color;
      selected := false;
    }

    /** Marks the splitter as selected; nothing else about it changes. */
    method Select()
      modifies this
      ensures selected
      ensures x == old(x) && y == old(y) && size == old(size) && color == old(color)
    {
      selected := true;
    }

    /** Marks the splitter as not selected; nothing else about it changes. */
    method Deselect()
      modifies this
      ensures !selected
      ensures x == old(x) && y == old(y) && size == old(size) && color == old(color)
    {
      selected := false;
    }

    /** `draw`: appends the splitter's six drawing calls to `graphics`. */
    method Draw(graphics: Graphics)
      modifies graphics
      ensures graphics.commands == old(graphics.commands) + SplitterCommands(x, y, size, color, selected)
    {
      graphics.Draw(Save);
      graphics.Draw(LineStyle(2, Some(if selected then SelectedOutline else NormalOutline), 1.0));
      graphics.Draw(FillStyle(Some(color), 1.0));
      graphics.Draw(StrokeCircle(x, y, size / 2.0));
      graphics.Draw(FillCircle(x, y, size / 2.0));
      graphics.Draw(Restore);
    }
  }

  /**
   * What `draw` issues for a splitter in a given state: the drawing state
   * saved, a width-2 outline style, the fill style, the outlined and the
   * filled circle of radius `size / 2` at the centre, and the state restored.
   */
  function SplitterCommands(x: real, y: real, size: real, color: int, selected: bool): seq<DrawCommand> {
    [ Save,
      LineStyle(2, Some(OutlineColor(selected)), 1.0),
      FillStyle(Some(color), 1.0),
      StrokeCircle(x, y, size / 2.0),
      FillCircle(x, y, size / 2.0),
      Restore ]
  }

  /**
   * Drawing is bracketed by save and restore, and the only state change in
   * between is the line and fill style: the outline is the highlight exactly
   * when selected, and both circles have half the diameter as radius.
   */
  lemma DrawOutline(x: real, y: real, size: real, color: int, selected: bool)
    ensures var cmds := SplitterCommands(x, y, size, color, selected);
      && |cmds| == 6 && cmds[0] == Save && cmds[5] == Restore
      && (cmds[1] == LineStyle(2, Some(SelectedOutline), 1.0) <==> selected)
      && cmds[2] == FillStyle(Some(color), 1.0)
      && cmds[3].StrokeCircle? && cmds[4].FillCircle?
      && cmds[3].r == cmds[4].r == size / 2.0
      && cmds[3].cx == cmds[4].cx == x && cmds[3].cy == cmds[4].cy == y
  {
  }

  /** Selecting changes what is drawn only in the outline colour. */
  lemma SelectionChangesOnlyOutline(x: real, y: real, size: real, color: int)
    ensures var a := SplitterCommands(x, y, size, color, true);
      var b := SplitterCommands(x, y, size, color, false);
      |a| == |b| && a[1] != b[1] && forall i :: 0 <= i < |a| && i != 1 ==> a[i] == b[i]
  {
  }

  /** Selecting twice is selecting once; deselecting then restores a fresh splitter's state. */
  method SelectionScenario()
  {
    var s := new Splitter(48.0, 80.0, 32.0);
    assert s.color == DefaultColor && !s.selected;
    s.Select();
    s.Select();
    var g := new Graphics();
    s.Draw(g);
    assert s.selected && g.commands[1] == LineStyle(2, Some(SelectedOutline), 1.0);
    s.Deselect();
    assert !s.selected && s.x == 48.0 && s.y == 80.0 && s.size == 32.0 && s.color == DefaultColor;
  }
}
