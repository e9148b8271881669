/**
 * The drawing session as a value: the state the app keeps in its module-level
 * variables and canvas, and one transition function per event handler. The
 * class in DrawingApp is proved to follow these functions, and the lemmas in
 * SessionLemmas state the history guarantees in their terms.
 */
module SessionSpec {
  import opened Canvas

  /**
   * Everything a handler reads or writes. `pen` is the current point of the
   * canvas's path (None when the path is empty); the undo and redo stacks
   * have their top at the end, as the source's arrays do with push and pop.
   */
  datatype State = State(
    isDrawing: bool,
    currentTool: Tool,
    brushColor: Color,
    brushSize: int,
    startX: int,
    startY: int,
    pen: Option<Point>,
    undoStack: seq<Snapshot>,
    redoStack: seq<Snapshot>,
    surface: Snapshot)

  /** The state at page load: pencil, black, size 5, empty canvas and history. */
  const INITIAL: State := State(false, Pencil, BLACK, 5, 0, 0, None, [], [], [])

  /** saveState: push a snapshot of the surface onto the undo stack and forget the redo stack. */
  function SaveState(s: State): State
  {
    s.(undoStack := s.undoStack + [s.surface], redoStack := [])
  }

  /** loadImage, taken to complete at once: clear the canvas and draw the snapshot on it. */
  function LoadImage(s: State, image: Snapshot): State
  {
    s.(surface := image)
  }

  /** A tool button. */
  function SetTool(s: State, tool: Tool): State
  {
    s.(currentTool := tool)
  }

  /** The colour picker: also selects the pencil. */
  function SetColor(s: State, color: Color): State
  {
    s.(brushColor := color, currentTool := Pencil)
  }

  /** The size slider. */
  function SetSize(s: State, size: int): State
  {
    s.(brushSize := size)
  }

  /** The undo button. */
  function Undo(s: State): State
  {
    if |s.undoStack| == 0 then s
    else
      var n := |s.undoStack|;
      LoadImage(s.(redoStack := s.redoStack + [s.surface], undoStack := s.undoStack[..n - 1]),
                s.undoStack[n - 1])
  }

  /** The redo button. */
  function Redo(s: State): State
  {
    if |s.redoStack| == 0 then s
    else
      var n := |s.redoStack|;
      LoadImage(s.(undoStack := s.undoStack + [s.surface], redoStack := s.redoStack[..n - 1]),
                s.redoStack[n - 1])
  }

  /** Pointer pressed at (x, y): start a gesture; a continuous tool also starts a new path there. */
  function MouseDown(s: State, x: int, y: int): State
  {
    var saved := SaveState(s.(isDrawing := true, startX := x, startY := y));
    if Continuous(saved.currentTool) then saved.(pen := Some(Point(x, y))) else saved
  }

  /**
   * Pointer moved to (x, y): a continuous tool strokes from the path's current
   * point to (x, y). On an empty path the move only sets the current point.
   */
  function MouseMove(s: State, x: int, y: int): State
  {
    if !s.isDrawing || !Continuous(s.currentTool) then s
    else
      var q := Point(x, y);
      match s.pen
      case None => s.(pen := Some(q))
      case Some(p) =>
        s.(surface := s.surface + [Segment(p, q, StrokeStyle(s.currentTool, s.brushColor), s.brushSize)],
           pen := Some(q))
  }

  /** Pointer released at (x, y): end the gesture, committing a discrete tool's shape, and clear the path. */
  function MouseUp(s: State, x: int, y: int): State
  {
    if !s.isDrawing then s
    else
      s.(isDrawing := false,
         surface := s.surface + Shape(s.currentTool, Point(s.startX, s.startY), Point(x, y), s.brushColor, s.brushSize),
         pen := None)
  }

  /** Pointer left the canvas: abandon the gesture. */
  function MouseLeave(s: State): State
  {
    s.(isDrawing := false)
  }

  /**
   * A file chosen through the load control: `None` when no file was chosen or
   * its image cannot be decoded, so the load handler never runs.
   */
  function ImportImage(s: State, file: Option<Snapshot>): State
  {
    match file
    case None => s
    case Some(image) => LoadImage(s, image)
  }

  /** The events the session reacts to. */
  datatype Event =
    | PickTool(tool: Tool)
    | PickColor(color: Color)
    | PickSize(size: int)
    | UndoClick
    | RedoClick
    | FileChosen(file: Option<Snapshot>)
    | Down(x: int, y: int)
    | Move(x: int, y: int)
    | Up(x: int, y: int)
    | Leave

  /** The handler each event runs. */
  function Step(s: State, e: Event): State
  {
    match e
    case PickTool(t) => SetTool(s, t)
    case PickColor(c) => SetColor(s, c)
    case PickSize(n) => SetSize(s, n)
    case UndoClick => Undo(s)
    case RedoClick => Redo(s)
    case FileChosen(f) => ImportImage(s, f)
    case Down(x, y) => MouseDown(s, x, y)
    case Move(x, y) => MouseMove(s, x, y)
    case Up(x, y) => MouseUp(s, x, y)
    case Leave => MouseLeave(s)
  }

  /** Handling events one at a time, each to completion, in order. */
  function Run(s: State, es: seq<Event>): State
    decreases |es|
  {
    if es == [] then s else Run(Step(s, es[0]), es[1..])
  }
}
