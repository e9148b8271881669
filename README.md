# Drawing session: undo/redo history and gesture state machine

A model of the drawing app in `drawingapp.js`: a canvas the user draws on
with a pencil or eraser, or stamps a line, rectangle or circle on, in a
chosen colour and brush size, with an undo and a redo stack of whole-canvas
snapshots and an image import.

The canvas is abstracted from pixels to the sequence of stroke commands
committed to it (`Canvas.Command`: a segment, a rectangle outline, a circle
outline, each with its colour and width). A snapshot (`canvas.toDataURL()`)
is that sequence, and drawing a snapshot back onto a cleared canvas
(`loadImage`) restores it, so the history guarantees become equalities.

- `canvas.dfy` (module `Canvas`): tools, colours, points, stroke commands,
  the shape a discrete tool commits, rectangle bounds and circle radius.
- `session_spec.dfy` (module `SessionSpec`): the session state as a value
  (`State`), one transition function per event handler, the events (`Event`),
  `Step` and `Run` over event sequences.
- `session_lemmas.dfy` (module `SessionLemmas`): the history and gesture
  guarantees, for single events and for whole event sequences.
- `drawing_app.dfy` (module `DrawingApp`): class `Session` with the source's
  module-level variables as fields; each handler is a method that updates
  them in place and is proved to move `Model()` exactly as its `SessionSpec`
  function does, so every lemma applies to the class.

Besides the source's variables the state has one more field, `pen`: the
current point of the canvas's path (`beginPath`/`moveTo`/`lineTo`), `None`
when the path is empty. Pointer-down starts a new path only for the pencil and
eraser; pointer-up always ends with `beginPath`; a `lineTo` on an empty path
only sets the current point (Canvas 2D semantics). The pencil's repeated
`stroke()` of the growing path is modelled as one segment per move.

Environment inputs become parameters: pointer coordinates, the colour and
size input values, and the decoded image of a chosen file (`None` when no
file is chosen or the file is not a decodable image, since then the load
handler never runs).

## Model

| member | source | states |
|---|---|---|
| DrawingApp.Session.constructor | drawingapp.js:4-11 | the session starts idle with the pencil, colour `#000000`, size 5 and empty stacks |
| DrawingApp.Session.SaveState | drawingapp.js:13-16 | the current surface is pushed onto undo and redo is emptied |
| DrawingApp.Session.LoadImage | drawingapp.js:18-25 | the surface becomes the given snapshot (load taken as synchronous); nothing else changes |
| DrawingApp.Session.SetTool | drawingapp.js:28-32 | only the current tool changes |
| DrawingApp.Session.SetColor | drawingapp.js:34-37 | the brush colour is set and the tool becomes the pencil; nothing else changes |
| DrawingApp.Session.SetSize | drawingapp.js:39-41 | only the brush size changes |
| DrawingApp.Session.Undo | drawingapp.js:43-47 | empty undo stack: no change at all; otherwise the surface goes onto redo, the top of undo is popped and restored |
| DrawingApp.Session.Redo | drawingapp.js:49-53 | mirror image of Undo with the stacks swapped |
| DrawingApp.Session.ImportImage | drawingapp.js:62-68 | a decoded file replaces the surface; both stacks are left alone; no file changes nothing |
| DrawingApp.Session.MouseDown | drawingapp.js:71-81 | the gesture starts at (x, y), the pre-gesture surface is pushed onto undo and redo is emptied, the surface is unchanged |
| DrawingApp.Session.MouseMove | drawingapp.js:83-93 | no change when idle; a pencil/eraser move strokes from the path's point; the stacks never change |
| DrawingApp.Session.MouseUp | drawingapp.js:95-122 | no change when idle; otherwise the gesture ends, the discrete tool's shape is committed, the stacks are unchanged |
| DrawingApp.Session.MouseLeave | drawingapp.js:124-126 | only the gesture flag is cleared |
| Canvas.Shape | drawingapp.js:102-119 | a release commits nothing for pencil/eraser and exactly one shape, in the brush colour and size, for line, rect and circle |
| Canvas.Bounds | drawingapp.js:111-113 | the outlined box of a rectangle with signed extent: its corners are the origin and origin plus extent, its sides the absolute extents |
| Canvas.RadiusSquared | drawingapp.js:115 | the squared distance from the centre to the release point is zero exactly when the two coincide |
| SessionLemmas.MouseDownSavesSurface | drawingapp.js:71-81 | pointer-down pushes exactly the pre-gesture surface, empties redo, records the origin, sets the gesture flag and keeps surface and style |
| SessionLemmas.EmptyHistoryIsNoOp | drawingapp.js:44 | undo with an empty undo stack, and redo with an empty redo stack, return the state unchanged |
| SessionLemmas.UndoMovesOneSnapshot | drawingapp.js:43-47 | a non-empty undo restores the old top, pops it, pushes the old surface onto redo, and changes nothing else |
| SessionLemmas.RedoMovesOneSnapshot | drawingapp.js:49-53 | a non-empty redo is the mirror image |
| SessionLemmas.UndoRedoInverse | drawingapp.js:43-53 | undo then redo, and redo then undo, give back the whole state exactly |
| SessionLemmas.IdlePointerIsNoOp | drawingapp.js:84 | moving or releasing the pointer with no active gesture is a no-op |
| SessionLemmas.MouseLeaveAbandonsGesture | drawingapp.js:124-126 | leaving the canvas only clears the gesture flag: no shape is committed and the undo entry stays |
| SessionLemmas.StyleControls | drawingapp.js:28-41 | the colour control sets the colour and forces the pencil (also from the eraser); size and tool controls change only their own field |
| SessionLemmas.MouseUpCommitsShape | drawingapp.js:95-122 | on release: line commits start-to-end, rect commits origin with width endX-startX and height endY-startY (possibly negative), circle commits centre and edge, pencil/eraser commit nothing; current colour and size; stacks untouched; gesture over |
| SessionLemmas.MouseMoveStrokes | drawingapp.js:86-91 | a pencil/eraser move while drawing appends the segment from the path's point, in white for the eraser whatever the brush colour; the stacks are untouched |
| SessionLemmas.DiscreteMovePaintsNothing | drawingapp.js:86 | a move with line, rect or circle changes nothing (no preview) |
| SessionLemmas.ImportReplacesSurface | drawingapp.js:18-25 | importing replaces only the surface; no file or no decodable image changes nothing |
| SessionLemmas.RectIsSymmetric | drawingapp.js:110-113 | the committed rectangle has corners at the two gesture points, and dragging the other way outlines the same box |
| SessionLemmas.RectExample | drawingapp.js:110-113 | a drag from (10,10) to (50,30) commits width 40, height 20, and the reverse drag outlines the same box |
| SessionLemmas.CircleExample | drawingapp.js:114-117 | a circle from centre (100,100) to (100,150) has radius 50 |
| SessionLemmas.HistoryEffects | drawingapp.js:13-53 | every event but pointer-down, undo and redo leaves both stacks alone; only undo grows redo; only pointer-down and redo grow undo |
| SessionLemmas.RunKeepsHistory | drawingapp.js:83-126 | any run of events other than pointer-down, undo and redo leaves both stacks unchanged |
| SessionLemmas.GestureAddsOneUndoEntry | drawingapp.js:71-75 | a gesture, whatever happens during it short of undo, redo or another press, adds exactly one undo entry, the pre-gesture surface, and leaves redo empty |
| SessionLemmas.GestureDisablesRedo | drawingapp.js:15 | after any gesture redo is a no-op |
| SessionLemmas.GesturesPush | drawingapp.js:13-16 | k gestures put k entries on top of the old undo stack, the lowest of them the surface before the first gesture |
| SessionLemmas.UndosPop | drawingapp.js:43-47 | k undos remove the k top entries and restore the lowest of them |
| SessionLemmas.GesturesThenUndosRestore | drawingapp.js:13-53 | N gestures followed by N undos restore the surface and the undo stack from before the first gesture |
| SessionLemmas.UndosThenRedosRestore | drawingapp.js:43-53 | k undos followed by k redos give back the whole state when k steps can be undone |
| SessionLemmas.MovesPaintPolyline | drawingapp.js:83-93 | during a pencil/eraser gesture a run of moves paints the polyline through the visited points, leaves the path at the last point visited, and keeps history, tool, style and origin |
| SessionLemmas.DiscreteMovesChangeNothing | drawingapp.js:83-93 | with line, rect or circle any run of moves leaves the whole state unchanged |
| SessionLemmas.AbandonedGestureCommitsNothing | drawingapp.js:124-126 | a line, rect or circle gesture ended by leaving the canvas leaves the surface as it was, keeps its one undo entry (the pre-gesture surface) and empties redo |
| SessionLemmas.FreehandGesture | drawingapp.js:71-122 | a whole pencil/eraser gesture paints the polyline from the press point through the moves (white for the eraser) and records one undo entry holding the pre-gesture surface |
| SessionLemmas.UndoKeepsTimeline | drawingapp.js:43-47 | undo keeps the timeline (undo stack, surface, redo stack top-down) unchanged, so it neither loses nor invents a snapshot |
| SessionLemmas.RedoKeepsTimeline | drawingapp.js:49-53 | redo keeps the same timeline unchanged |

## Left out

- DOM wiring (`getElementById`, `onclick`, `oninput`, `addEventListener`): host UI plumbing; each handler is a method.
- Pixel rasterisation (`stroke`, `strokeRect`, `arc`, `clearRect`, `drawImage`, `lineCap`, `lineWidth`, `strokeStyle`): strokes are recorded as commands, not painted.
- PNG encoding by `toDataURL` and image decoding: a snapshot is the surface value itself, and restoring it is exact.
- The asynchronous `img.onload` of `loadImage`: the load is taken to complete at once. In the browser a second undo or redo before the first load finishes takes its snapshot of the not-yet-restored canvas; that race is not modelled.
- The save control (download of `drawing.png`) and the `FileReader` read of a chosen file: I/O. The chosen file enters as its decoded image, or `None`.
- The circle's floating-point radius (`Math.sqrt`, `Math.PI`): a circle is recorded by centre and edge point; `Canvas.RadiusSquared` gives the squared radius exactly.
- DrawingApp.Session.MouseMove: each `stroke()` repaints the whole current path; the model appends only the new segment. Two effects of the repaint are therefore not captured: earlier segments of the path repainted in a changed style, and earlier segments repainted onto a surface that an undo, a redo or an import replaced during the gesture (`loadImage` does not reset the path). For example, press at (0,0), move to (1,1), undo, move to (2,2): the browser shows the path (0,0)-(1,1)-(2,2) on the restored surface, the model only the segment (1,1)-(2,2).
- Pointer coordinates are `offsetX`/`offsetY`, which are floating-point in the browser; the model takes them as integers. No history property depends on this.
- DrawingApp.Session.SetSize: the size input's value is a string in the browser and the canvas ignores zero, negative or non-numeric line widths; the model keeps the value as an integer and records it as given.
- `startX`/`startY` are undefined at page load; the model starts them at 0. They are read only while a gesture is active, after a pointer-down has set them.
- A chosen file whose image fails to decode is ignored silently, as the source has no `onerror` handler: the model reports no error for it, it only leaves the session unchanged.
