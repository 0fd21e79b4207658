/** `set_size`: resize a control by dragging one of its edges. The start of
    the drag is computed from the control's rectangle and a direction code,
    the end is the start moved by an offset, and the drag is followed by a
    one-second settle pause. */
module SetSize {
  import opened Common
  import opened Ui

  /** A control's screen rectangle, as `rectangle()` reports it. */
  datatype Rect = Rect(left: int, top: int, right: int, bottom: int)

  /** The two direction codes the function knows. */
  const TopEdge: int := 0
  const BottomRightCorner: int := 7

  const SettleMs: int := 1000

  /** Reading `start_x` on a path that never assigned it. */
  const StartUnassigned: Error :=
    Error(UnboundLocalError, "cannot access local variable 'start_x' where it is not associated with a value")

  /** Where the drag starts, if the direction assigns a start at all. For the
      top edge the x coordinate is half the width (Python's floor division),
      not the left edge plus half the width; y is three pixels above the top. */
  function StartPoint(rect: Rect, direction: int): (p: Option<Point>)
    ensures p.Some? <==> direction == TopEdge || direction == BottomRightCorner
    ensures direction == TopEdge ==>
      && 2 * p.value.x <= rect.right - rect.left < 2 * p.value.x + 2
      && p.value.y == rect.top - 3
    ensures direction == BottomRightCorner ==> p.value.x == rect.right && p.value.y == rect.bottom
  {
    if direction == TopEdge then Some(Point((rect.right - rect.left) / 2, rect.top - 3))
    else if direction == BottomRightCorner then Some(Point(rect.right, rect.bottom))
    else None
  }

  /** The end of the drag: the start moved by the offset. */
  function EndPoint(start: Point, offset: Point): Point {
    Point(start.x + offset.x, start.y + offset.y)
  }

  /** The whole call: the rectangle is read once; then either one drag from
      start to end and the settle pause, or, for an unknown direction, the
      error raised when the unassigned start is read. `rect` is what the read
      returns; `raises` says which UI calls raise, and a call that raises
      ends the function with its exception. */
  function SetSize(item: Locator, rect: Rect, direction: int, offset: Point,
                   raises: Action -> Option<Error>): (r: (Result<()>, seq<Action>))
    ensures |r.1| >= 1 && r.1[0] == ReadRectangle(item)
    ensures raises(ReadRectangle(item)).Some? ==> r == (Err(raises(ReadRectangle(item)).value), [ReadRectangle(item)])
    ensures r.0.Ok? ==> direction == TopEdge || direction == BottomRightCorner
    ensures raises(ReadRectangle(item)).None? && StartPoint(rect, direction).None? ==>
      r == (Err(StartUnassigned), [ReadRectangle(item)])
    ensures raises(ReadRectangle(item)).None? && StartPoint(rect, direction).Some? ==>
      && |r.1| >= 2 && r.1[1].DragMouse? && r.1[1].target == item
      && Some(r.1[1].src) == StartPoint(rect, direction)
      && r.1[1].dst.x - r.1[1].src.x == offset.x && r.1[1].dst.y - r.1[1].src.y == offset.y
      && (r.0.Ok? <==> raises(r.1[1]).None?)
      && (r.0.Err? ==> r.0.error == raises(r.1[1]).value && |r.1| == 2)
      && (r.0.Ok? ==> r.1 == r.1[..2] + [Sleep(SettleMs)])
  {
    var read := ReadRectangle(item);
    if raises(read).Some? then (Err(raises(read).value), [read])
    else
      match StartPoint(rect, direction)
      case None => (Err(StartUnassigned), [read])
      case Some(start) =>
        var drag := DragMouse(item, start, EndPoint(start, offset));
        if raises(drag).Some? then (Err(raises(drag).value), [read, drag])
        else (Ok(()), [read, drag, Sleep(SettleMs)])
  }

  /** The top-edge start coincides with the horizontal midpoint of the
      rectangle only when the rectangle's left edge is at x = 0. */
  lemma HalfWidthIsNotMidpoint(rect: Rect)
    ensures StartPoint(rect, TopEdge).value.x == rect.left + (rect.right - rect.left) / 2
        <==> rect.left == 0
  {
  }

  /** The main window's layout adjustment, when no UI call raises: the lower
      edit pane's top edge is dragged 300 pixels down from three pixels above
      its top, and the pane's bottom-right corner 1000 pixels right and 600
      down. */
  lemma MainWindowLayout(editDown: Locator, editRect: Rect, pane: Locator, paneRect: Rect,
                         raises: Action -> Option<Error>)
    requires forall a :: raises(a).None?
    ensures var (r, t) := SetSize(editDown, editRect, 0, Point(0, 300), raises);
      && r.Ok? && |t| == 3 && t[1].src.y == editRect.top - 3 && t[1].dst.y == editRect.top + 297
      && t[1].dst.x == t[1].src.x
    ensures var (r, t) := SetSize(pane, paneRect, 7, Point(1000, 600), raises);
      && r.Ok? && |t| == 3 && t[1].dst == Point(paneRect.right + 1000, paneRect.bottom + 600)
  {
  }
}
