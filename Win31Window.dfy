/**
 * The window frame of the desktop: whether and where a window is drawn, the
 * title-bar drag that moves it, and the maximize/restore control button.
 *
 * Pointer coordinates are whole pixels here. The opening, closing and
 * minimizing animations and the document listeners are not part of this model.
 */
module Win31Window {
  import opened Wrappers
  import WindowManager

  type Point = WindowManager.Point

  const DefaultMinWidth := 200
  const DefaultMinHeight := 100

  /** The properties the frame reads; the optional ones are `minWidth`, `minHeight` and `canMaximize`. */
  datatype Props = Props(
    isOpen: bool,
    isMinimized: bool,
    isMaximized: bool,
    position: Point,
    size: WindowManager.Size,
    zIndex: int,
    minWidth: Option<int>,
    minHeight: Option<int>,
    canMaximize: Option<bool>)

  /** What the component renders: nothing, a frame over the whole screen, or a placed frame. */
  datatype Frame =
    | Hidden
    | FullScreen(zIndex: int)
    | Placed(left: int, top: int, width: int, height: int, zIndex: int)

  function Max(a: int, b: int): int {
    if a >= b then a else b
  }

  /** The frame of a window: `null` when closed or minimized, otherwise `windowStyle`. */
  function Render(p: Props): (f: Frame)
    ensures f.Hidden? <==> !p.isOpen || p.isMinimized
    ensures f.FullScreen? <==> p.isOpen && !p.isMinimized && p.isMaximized
    ensures f.Placed? ==>
      var minWidth, minHeight := p.minWidth.GetOr(DefaultMinWidth), p.minHeight.GetOr(DefaultMinHeight);
      && f.left == p.position.x && f.top == p.position.y
      && f.width >= p.size.width && f.width >= minWidth && (f.width == p.size.width || f.width == minWidth)
      && f.height >= p.size.height && f.height >= minHeight && (f.height == p.size.height || f.height == minHeight)
    ensures !f.Hidden? ==> f.zIndex == p.zIndex
  {
    if !p.isOpen || p.isMinimized then Hidden
    else if p.isMaximized then FullScreen(p.zIndex)
    else Placed(p.position.x, p.position.y,
                Max(p.size.width, p.minWidth.GetOr(DefaultMinWidth)),
                Max(p.size.height, p.minHeight.GetOr(DefaultMinHeight)),
                p.zIndex)
  }

  /** A placed window is never smaller than the defaults when no minimum is given. */
  lemma DefaultMinimumSize(p: Props)
    requires p.isOpen && !p.isMinimized && !p.isMaximized
    requires p.minWidth.None? && p.minHeight.None?
    ensures Render(p).width >= 200 && Render(p).height >= 100
  {
  }

  /** The callbacks a control button can fire. */
  datatype Callback = OnMinimize | OnMaximize | OnRestore | OnClose

  /** The middle button's handler: none unless the window can be maximized. */
  function MaximizeHandler(canMaximize: bool, isMaximized: bool): Option<Callback> {
    if canMaximize then Some(if isMaximized then OnRestore else OnMaximize) else None
  }

  /** The middle button's glyph. */
  function MaximizeIcon(isMaximized: bool): string {
    if isMaximized then "❐" else "□"
  }

  /** A click on a control button: the handler runs only when the button is enabled and has one. */
  function ControlClick(disabled: bool, handler: Option<Callback>): (fired: Option<Callback>)
    ensures disabled ==> fired == None
    ensures !disabled ==> fired == handler
  {
    if disabled then None else handler
  }

  /** A click on the middle button of the title bar, with `canMaximize` defaulting to false. */
  function MaximizeClick(p: Props): Option<Callback> {
    var canMaximize := p.canMaximize.GetOr(false);
    ControlClick(!canMaximize, MaximizeHandler(canMaximize, p.isMaximized))
  }

  /**
   * The middle button restores a maximized window and maximizes any other,
   * and does nothing at all unless the window can be maximized.
   */
  lemma MaximizeDispatch(p: Props)
    ensures MaximizeClick(p) == Some(OnRestore) <==> p.canMaximize == Some(true) && p.isMaximized
    ensures MaximizeClick(p) == Some(OnMaximize) <==> p.canMaximize == Some(true) && !p.isMaximized
    ensures MaximizeClick(p) == None <==> p.canMaximize != Some(true)
  {
  }

  /** The position a drag move reports: pointer minus offset, with negative coordinates raised to 0. */
  function MoveTarget(offset: Point, pointer: Point): (q: Point)
    ensures q.x >= 0 && q.y >= 0
    ensures pointer.x - offset.x >= 0 ==> q.x == pointer.x - offset.x
    ensures pointer.y - offset.y >= 0 ==> q.y == pointer.y - offset.y
    ensures pointer.x - offset.x < 0 ==> q.x == 0
    ensures pointer.y - offset.y < 0 ==> q.y == 0
  {
    WindowManager.Point(Max(0, pointer.x - offset.x), Max(0, pointer.y - offset.y))
  }

  /** The offset recorded at drag start: pointer minus window position. */
  function DragOffset(position: Point, pointer: Point): Point {
    WindowManager.Point(pointer.x - position.x, pointer.y - position.y)
  }

  /** Moving the pointer back to where the drag started puts the window back where it was. */
  lemma MoveBackToStart(position: Point, pointer: Point)
    requires position.x >= 0 && position.y >= 0
    ensures MoveTarget(DragOffset(position, pointer), pointer) == position
  {
  }

  /** A move keeps the window's placement relative to the pointer while it stays on screen. */
  lemma MoveFollowsPointer(position: Point, start: Point, pointer: Point)
    requires pointer.x - start.x + position.x >= 0 && pointer.y - start.y + position.y >= 0
    ensures var q := MoveTarget(DragOffset(position, start), pointer);
      q.x - position.x == pointer.x - start.x && q.y - position.y == pointer.y - start.y
  {
  }

  /** The drag state of one window frame. */
  class Chrome {
    var isDragging: bool
    var dragOffset: Point

    constructor()
      ensures !isDragging && dragOffset == WindowManager.Point(0, 0)
    {
      isDragging := false;
      dragOffset := WindowManager.Point(0, 0);
    }

    /**
     * `handleDragStart` on the title bar: ignored for a maximized window;
     * otherwise the window is focused and the offset recorded. `focused`
     * says whether `onFocus` was called.
     */
    method DragStart(isMaximized: bool, position: Point, pointer: Point) returns (focused: bool)
      modifies this
      ensures focused <==> !isMaximized
      ensures isMaximized ==> isDragging == old(isDragging) && dragOffset == old(dragOffset)
      ensures !isMaximized ==> isDragging && dragOffset == DragOffset(position, pointer)
    {
      if isMaximized {
        return false;
      }
      focused := true;
      isDragging := true;
      dragOffset := DragOffset(position, pointer);
    }

    /** `handleMove`: while dragging, the position passed to `onMove`; nothing otherwise. */
    method Move(pointer: Point) returns (moved: Option<Point>)
      ensures moved.Some? <==> isDragging
      ensures moved.Some? ==> moved.value == MoveTarget(dragOffset, pointer)
      ensures moved.Some? ==> moved.value.x >= 0 && moved.value.y >= 0
    {
      if !isDragging {
        return None;
      }
      moved := Some(MoveTarget(dragOffset, pointer));
    }

    /** `handleEnd`: the pointer is released. */
    method DragEnd()
      modifies this
      ensures !isDragging && dragOffset == old(dragOffset)
    {
      isDragging := false;
    }
  }

  /** A drag started at a window's (non-negative) position and released over the same point leaves it there. */
  method DragInPlace(c: Chrome, position: Point, pointer: Point) returns (moved: Option<Point>)
    requires position.x >= 0 && position.y >= 0
    modifies c
    ensures moved == Some(position)
    ensures !c.isDragging
  {
    var _ := c.DragStart(false, position, pointer);
    moved := c.Move(pointer);
    MoveBackToStart(position, pointer);
    c.DragEnd();
  }
}
