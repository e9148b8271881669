/**
 * What the handlers guarantee about the history and the gesture state,
 * stated over the transition functions of SessionSpec.
 */
module SessionLemmas {
  import opened Canvas
  import opened SessionSpec

  // ---------------------------------------------------------------- one event

  /** A gesture starts by saving exactly the pre-gesture surface and wiping redo. */
  lemma MouseDownSavesSurface(s: State, x: int, y: int)
    ensures var t := MouseDown(s, x, y);
      && t.undoStack == s.undoStack + [s.surface]
      && t.redoStack == []
      && t.isDrawing && t.startX == x && t.startY == y
      && t.surface == s.surface
      && t.currentTool == s.currentTool && t.brushColor == s.brushColor && t.brushSize == s.brushSize
      && t.pen == (if s.currentTool in {Pencil, Eraser} then Some(Point(x, y)) else s.pen)
  {
  }

  /** Undo with nothing to undo changes nothing; likewise redo. */
  lemma EmptyHistoryIsNoOp(s: State)
    ensures s.undoStack == [] ==> Undo(s) == s
    ensures s.redoStack == [] ==> Redo(s) == s
  {
  }

  /** A non-empty undo moves the current surface to redo and restores the top of undo. */
  lemma UndoMovesOneSnapshot(s: State)
    requires s.undoStack != []
    ensures var n := |s.undoStack|; var t := Undo(s);
      && t.surface == s.undoStack[n - 1]
      && t.undoStack == s.undoStack[..n - 1]
      && t.redoStack == s.redoStack + [s.surface]
      && |t.undoStack| == |s.undoStack| - 1 && |t.redoStack| == |s.redoStack| + 1
      && t == s.(surface := t.surface, undoStack := t.undoStack, redoStack := t.redoStack)
  {
  }

  /** A non-empty redo is the mirror image of undo. */
  lemma RedoMovesOneSnapshot(s: State)
    requires s.redoStack != []
    ensures var n := |s.redoStack|; var t := Redo(s);
      && t.surface == s.redoStack[n - 1]
      && t.redoStack == s.redoStack[..n - 1]
      && t.undoStack == s.undoStack + [s.surface]
      && |t.redoStack| == |s.redoStack| - 1 && |t.undoStack| == |s.undoStack| + 1
      && t == s.(surface := t.surface, undoStack := t.undoStack, redoStack := t.redoStack)
  {
  }

  /** Undo then redo, and redo then undo, each give back the state exactly. */
  lemma UndoRedoInverse(s: State)
    ensures s.undoStack != [] ==> Redo(Undo(s)) == s
    ensures s.redoStack != [] ==> Undo(Redo(s)) == s
  {
    if s.undoStack != [] {
      var n := |s.undoStack|;
      assert Undo(s).redoStack[..|Undo(s).redoStack| - 1] == s.redoStack;
      assert s.undoStack[..n - 1] + [s.undoStack[n - 1]] == s.undoStack;
    }
    if s.redoStack != [] {
      var n := |s.redoStack|;
      assert Redo(s).undoStack[..|Redo(s).undoStack| - 1] == s.undoStack;
      assert s.redoStack[..n - 1] + [s.redoStack[n - 1]] == s.redoStack;
    }
  }

  /** While no gesture is active, moving and releasing the pointer are no-ops. */
  lemma IdlePointerIsNoOp(s: State, x: int, y: int)
    requires !s.isDrawing
    ensures MouseMove(s, x, y) == s
    ensures MouseUp(s, x, y) == s
  {
  }

  /** Leaving the canvas ends the gesture and commits nothing. */
  lemma MouseLeaveAbandonsGesture(s: State)
    ensures var t := MouseLeave(s);
      !t.isDrawing && t.surface == s.surface && t.undoStack == s.undoStack && t.redoStack == s.redoStack
      && t == s.(isDrawing := false)
  {
  }

  /** Picking a colour also selects the pencil; no style control touches history or surface. */
  lemma StyleControls(s: State, tool: Tool, color: Color, size: int)
    ensures SetColor(s, color) == s.(brushColor := color, currentTool := Pencil)
    ensures SetColor(s.(currentTool := Eraser), color).currentTool == Pencil
    ensures SetSize(s, size) == s.(brushSize := size)
    ensures SetTool(s, tool) == s.(currentTool := tool)
  {
  }

  /**
   * Releasing the pointer commits, in the current colour and size: a segment
   * from the origin for the line tool, a rectangle from the origin with the
   * signed extent to the release point for the rect tool, a circle centred on
   * the origin through the release point for the circle tool, and nothing for
   * the continuous tools. The history is untouched and the gesture ends.
   */
  lemma MouseUpCommitsShape(s: State, x: int, y: int)
    requires s.isDrawing
    ensures var t := MouseUp(s, x, y); var o := Point(s.startX, s.startY);
      && !t.isDrawing && t.pen == None
      && t.undoStack == s.undoStack && t.redoStack == s.redoStack
      && (s.currentTool == Line ==> t.surface == s.surface + [Segment(o, Point(x, y), s.brushColor, s.brushSize)])
      && (s.currentTool == Rect ==>
            t.surface == s.surface + [StrokeRect(s.startX, s.startY, x - s.startX, y - s.startY, s.brushColor, s.brushSize)])
      && (s.currentTool == Circle ==> t.surface == s.surface + [StrokeCircle(o, Point(x, y), s.brushColor, s.brushSize)])
      && (s.currentTool in {Pencil, Eraser} ==> t.surface == s.surface)
  {
  }

  /**
   * A pencil or eraser move during a gesture strokes from the path's point,
   * the eraser always in white; the history is untouched.
   */
  lemma MouseMoveStrokes(s: State, p: Point, x: int, y: int)
    requires s.isDrawing && s.currentTool in {Pencil, Eraser} && s.pen == Some(p)
    ensures var t := MouseMove(s, x, y);
      && t.surface == s.surface + [Segment(p, Point(x, y), if s.currentTool == Eraser then WHITE else s.brushColor, s.brushSize)]
      && t.pen == Some(Point(x, y))
      && t.undoStack == s.undoStack && t.redoStack == s.redoStack
  {
  }

  /** A move with a discrete tool paints nothing: there is no preview. */
  lemma DiscreteMovePaintsNothing(s: State, x: int, y: int)
    requires s.currentTool in {Line, Rect, Circle}
    ensures MouseMove(s, x, y) == s
  {
  }

  /** Importing an image replaces the surface and leaves both stacks alone; a failed import changes nothing. */
  lemma ImportReplacesSurface(s: State, image: Snapshot)
    ensures ImportImage(s, Some(image)) == s.(surface := image)
    ensures ImportImage(s, None) == s
  {
  }

  // ---------------------------------------------------------------- rectangles and circles

  /**
   * A rectangle gesture outlines the box whose opposite corners are the two
   * gesture points, so dragging either way gives the same outline.
   */
  lemma RectIsSymmetric(a: Point, b: Point, color: Color, width: int)
    ensures var r := Shape(Rect, a, b, color, width)[0]; var q := Shape(Rect, b, a, color, width)[0];
      && r.x == a.x && r.y == a.y && r.x + r.w == b.x && r.y + r.h == b.y
      && Bounds(r.x, r.y, r.w, r.h) == Bounds(q.x, q.y, q.w, q.h)
  {
  }

  /** The dragged rectangle from (10,10) to (50,30), and back. */
  lemma RectExample()
    ensures Shape(Rect, Point(10, 10), Point(50, 30), BLACK, 5) == [StrokeRect(10, 10, 40, 20, BLACK, 5)]
    ensures Bounds(10, 10, 40, 20) == Bounds(50, 30, -40, -20) == (Point(10, 10), Point(50, 30))
  {
  }

  /** A circle from centre (100,100) to edge (100,150) has radius 50. */
  lemma CircleExample()
    ensures Shape(Circle, Point(100, 100), Point(100, 150), BLACK, 5) == [StrokeCircle(Point(100, 100), Point(100, 150), BLACK, 5)]
    ensures RadiusSquared(Point(100, 100), Point(100, 150)) == 50 * 50
  {
  }

  // ---------------------------------------------------------------- event sequences

  lemma {:induction false} RunAppend(s: State, a: seq<Event>, b: seq<Event>)
    ensures Run(s, a + b) == Run(Run(s, a), b)
    decreases |a|
  {
    if a == [] {
      assert a + b == b;
    } else {
      assert (a + b)[0] == a[0];
      assert (a + b)[1..] == a[1..] + b;
      RunAppend(Step(s, a[0]), a[1..], b);
    }
  }

  /** Events that neither push onto nor pop from either stack: all but pointer-down, undo and redo. */
  predicate KeepsHistory(e: Event)
  {
    !e.Down? && !e.UndoClick? && !e.RedoClick?
  }

  /** Only undo and redo pop, only pointer-down and redo push onto undo, only undo pushes onto redo. */
  lemma HistoryEffects(s: State, e: Event)
    ensures KeepsHistory(e) ==> Step(s, e).undoStack == s.undoStack && Step(s, e).redoStack == s.redoStack
    ensures |Step(s, e).redoStack| > |s.redoStack| ==> e == UndoClick
    ensures |Step(s, e).undoStack| > |s.undoStack| ==> e.Down? || e == RedoClick
  {
  }

  lemma {:induction false} RunKeepsHistory(s: State, es: seq<Event>)
    requires forall i :: 0 <= i < |es| ==> KeepsHistory(es[i])
    ensures Run(s, es).undoStack == s.undoStack && Run(s, es).redoStack == s.redoStack
    decreases |es|
  {
    if es != [] {
      HistoryEffects(s, es[0]);
      RunKeepsHistory(Step(s, es[0]), es[1..]);
    }
  }

  /**
   * A gesture: a pointer-down followed by any events that leave the history
   * alone (moves, the release or leave, style changes, imports).
   */
  predicate IsGesture(g: seq<Event>)
  {
    |g| > 0 && g[0].Down? && forall i :: 1 <= i < |g| ==> KeepsHistory(g[i])
  }

  /** Each gesture adds exactly one undo entry, the pre-gesture surface, and leaves redo empty. */
  lemma GestureAddsOneUndoEntry(s: State, g: seq<Event>)
    requires IsGesture(g)
    ensures Run(s, g).undoStack == s.undoStack + [s.surface]
    ensures Run(s, g).redoStack == []
  {
    var t := Step(s, g[0]);
    assert t.undoStack == s.undoStack + [s.surface] && t.redoStack == [];
    RunKeepsHistory(t, g[1..]);
  }

  /** After a gesture there is nothing to redo: draw, undo, draw, redo leaves the second drawing. */
  lemma GestureDisablesRedo(s: State, g: seq<Event>)
    requires IsGesture(g)
    ensures Redo(Run(s, g)) == Run(s, g)
  {
    GestureAddsOneUndoEntry(s, g);
  }

  function Concat(gs: seq<seq<Event>>): seq<Event>
    decreases |gs|
  {
    if gs == [] then [] else gs[0] + Concat(gs[1..])
  }

  /** `n` copies of one event. */
  function Repeat(e: Event, n: nat): (r: seq<Event>)
    ensures |r| == n
    ensures forall i :: 0 <= i < n ==> r[i] == e
  {
    if n == 0 then [] else [e] + Repeat(e, n - 1)
  }

  lemma {:induction false} RepeatSnoc(e: Event, n: nat)
    requires n > 0
    ensures Repeat(e, n) == Repeat(e, n - 1) + [e]
  {
    assert Repeat(e, n)[..n - 1] == Repeat(e, n - 1);
  }

  /**
   * `k` gestures push `k` entries on top of the old undo stack, the first of
   * them the surface before the first gesture.
   */
  lemma {:induction false} GesturesPush(s: State, gs: seq<seq<Event>>)
    requires forall i :: 0 <= i < |gs| ==> IsGesture(gs[i])
    ensures var t := Run(s, Concat(gs));
      && |t.undoStack| == |s.undoStack| + |gs|
      && t.undoStack[..|s.undoStack|] == s.undoStack
      && (gs != [] ==> t.undoStack[|s.undoStack|] == s.surface)
    decreases |gs|
  {
    if gs != [] {
      RunAppend(s, gs[0], Concat(gs[1..]));
      var m := Run(s, gs[0]);
      GestureAddsOneUndoEntry(s, gs[0]);
      GesturesPush(m, gs[1..]);
      var t := Run(m, Concat(gs[1..]));
      assert t.undoStack[..|m.undoStack|] == m.undoStack;
      assert t.undoStack[..|s.undoStack|] == t.undoStack[..|m.undoStack|][..|s.undoStack|];
      assert t.undoStack[|s.undoStack|] == t.undoStack[..|m.undoStack|][|s.undoStack|];
    }
  }

  /** `k` undos on top of base `u` restore the lowest of the `k` entries above `u` and leave `u`. */
  lemma {:induction false} UndosPop(t: State, u: seq<Snapshot>, k: nat)
    requires k > 0
    requires |t.undoStack| == |u| + k && t.undoStack[..|u|] == u
    ensures Run(t, Repeat(UndoClick, k)).surface == t.undoStack[|u|]
    ensures Run(t, Repeat(UndoClick, k)).undoStack == u
    decreases k
  {
    var t1 := Undo(t);
    assert Repeat(UndoClick, k)[1..] == Repeat(UndoClick, k - 1);
    assert Run(t, Repeat(UndoClick, k)) == Run(t1, Repeat(UndoClick, k - 1));
    if k > 1 {
      assert t1.undoStack[..|u|] == t.undoStack[..|u|];
      UndosPop(t1, u, k - 1);
    }
  }

  /** N gestures followed by N undos restore the surface and the undo stack from before the first gesture. */
  lemma GesturesThenUndosRestore(s: State, gs: seq<seq<Event>>)
    requires forall i :: 0 <= i < |gs| ==> IsGesture(gs[i])
    ensures Run(s, Concat(gs) + Repeat(UndoClick, |gs|)).surface == s.surface
    ensures Run(s, Concat(gs) + Repeat(UndoClick, |gs|)).undoStack == s.undoStack
  {
    RunAppend(s, Concat(gs), Repeat(UndoClick, |gs|));
    GesturesPush(s, gs);
    if gs == [] {
      assert Concat(gs) == [];
    } else {
      UndosPop(Run(s, Concat(gs)), s.undoStack, |gs|);
    }
  }

  /** k undos followed by k redos give back the whole state, when there are k steps to undo. */
  lemma {:induction false} UndosThenRedosRestore(s: State, k: nat)
    requires k <= |s.undoStack|
    ensures Run(s, Repeat(UndoClick, k) + Repeat(RedoClick, k)) == s
    decreases k
  {
    if k > 0 {
      var middle := Repeat(UndoClick, k - 1) + Repeat(RedoClick, k - 1);
      RepeatSnoc(RedoClick, k);
      assert Repeat(UndoClick, k) + Repeat(RedoClick, k) == [UndoClick] + middle + [RedoClick];
      RunAppend(s, [UndoClick] + middle, [RedoClick]);
      RunAppend(s, [UndoClick], middle);
      UndosThenRedosRestore(Undo(s), k - 1);
      UndoRedoInverse(s);
    }
  }

  /** The segments a freehand stroke paints when the path is at `p` and the pointer visits `ps`. */
  function Polyline(p: Point, ps: seq<Point>, color: Color, width: int): (r: seq<Command>)
    ensures |r| == |ps|
    decreases |ps|
  {
    if ps == [] then [] else [Segment(p, ps[0], color, width)] + Polyline(ps[0], ps[1..], color, width)
  }

  /** Pointer moves through the points `ps`. */
  function Moves(ps: seq<Point>): (r: seq<Event>)
    ensures |r| == |ps|
    ensures forall i :: 0 <= i < |ps| ==> r[i] == Move(ps[i].x, ps[i].y)
  {
    if ps == [] then [] else [Move(ps[0].x, ps[0].y)] + Moves(ps[1..])
  }

  /** During a pencil or eraser gesture, moves paint the polyline through the points visited. */
  lemma {:induction false} MovesPaintPolyline(s: State, p: Point, ps: seq<Point>)
    requires s.isDrawing && Continuous(s.currentTool) && s.pen == Some(p)
    ensures var t := Run(s, Moves(ps));
      && t.surface == s.surface + Polyline(p, ps, StrokeStyle(s.currentTool, s.brushColor), s.brushSize)
      && t.undoStack == s.undoStack && t.redoStack == s.redoStack
      && t.isDrawing && t.currentTool == s.currentTool
      && t.brushColor == s.brushColor && t.brushSize == s.brushSize
      && t.startX == s.startX && t.startY == s.startY
      && t.pen == Some(if ps == [] then p else ps[|ps| - 1])
    decreases |ps|
  {
    if ps != [] {
      var t1 := Step(s, Moves(ps)[0]);
      assert Moves(ps)[1..] == Moves(ps[1..]);
      MovesPaintPolyline(t1, ps[0], ps[1..]);
      var c := StrokeStyle(s.currentTool, s.brushColor);
      assert s.surface + Polyline(p, ps, c, s.brushSize)
          == (s.surface + [Segment(p, ps[0], c, s.brushSize)]) + Polyline(ps[0], ps[1..], c, s.brushSize);
    }
  }

  /**
   * A whole freehand gesture (press, moves, release) paints exactly the
   * polyline from the press point through the moves, in white for the
   * eraser, and records one undo entry holding the surface from before it.
   */
  lemma FreehandGesture(s: State, x: int, y: int, ps: seq<Point>, endX: int, endY: int)
    requires Continuous(s.currentTool)
    ensures var t := Run(s, [Down(x, y)] + Moves(ps) + [Up(endX, endY)]);
      && t.surface == s.surface + Polyline(Point(x, y), ps, if s.currentTool == Eraser then WHITE else s.brushColor, s.brushSize)
      && t.undoStack == s.undoStack + [s.surface] && t.redoStack == []
      && !t.isDrawing
  {
    var d := MouseDown(s, x, y);
    RunAppend(s, [Down(x, y)] + Moves(ps), [Up(endX, endY)]);
    RunAppend(s, [Down(x, y)], Moves(ps));
    MovesPaintPolyline(d, Point(x, y), ps);
  }

  /** With a discrete tool, moves paint nothing and change nothing. */
  lemma {:induction false} DiscreteMovesChangeNothing(s: State, ps: seq<Point>)
    requires s.currentTool in {Line, Rect, Circle}
    ensures Run(s, Moves(ps)) == s
    decreases |ps|
  {
    if ps != [] {
      assert Step(s, Moves(ps)[0]) == s;
      assert Moves(ps)[1..] == Moves(ps[1..]);
      DiscreteMovesChangeNothing(s, ps[1..]);
    }
  }

  /**
   * A line, rect or circle gesture abandoned by leaving the canvas commits no
   * shape: the surface is as before, and the gesture's one undo entry stays.
   */
  lemma AbandonedGestureCommitsNothing(s: State, x: int, y: int, ps: seq<Point>)
    requires s.currentTool in {Line, Rect, Circle}
    ensures var t := Run(s, [Down(x, y)] + Moves(ps) + [Leave]);
      && t.surface == s.surface
      && t.undoStack == s.undoStack + [s.surface] && t.redoStack == []
      && !t.isDrawing
  {
    var d := MouseDown(s, x, y);
    RunAppend(s, [Down(x, y)] + Moves(ps), [Leave]);
    RunAppend(s, [Down(x, y)], Moves(ps));
    DiscreteMovesChangeNothing(d, ps);
  }

  // ---------------------------------------------------------------- the timeline

  function Reverse(s: seq<Snapshot>): (r: seq<Snapshot>)
    ensures |r| == |s|
    decreases |s|
  {
    if s == [] then [] else Reverse(s[1..]) + [s[0]]
  }

  lemma {:induction false} ReverseSnoc(s: seq<Snapshot>, x: Snapshot)
    ensures Reverse(s + [x]) == [x] + Reverse(s)
    decreases |s|
  {
    if s == [] {
      assert [] + [x] == [x];
    } else {
      assert (s + [x])[1..] == s[1..] + [x];
      ReverseSnoc(s[1..], x);
    }
  }

  /**
   * The whole history, oldest state first: the undo stack, the surface, then
   * the redo stack from its top down.
   */
  function Timeline(s: State): seq<Snapshot>
  {
    s.undoStack + [s.surface] + Reverse(s.redoStack)
  }

  /**
   * Undo only moves the position of the surface within the timeline: it
   * neither loses nor invents a state.
   */
  lemma UndoKeepsTimeline(s: State)
    ensures Timeline(Undo(s)) == Timeline(s)
    ensures |Undo(s).undoStack| + |Undo(s).redoStack| == |s.undoStack| + |s.redoStack|
  {
    if s.undoStack != [] {
      var n := |s.undoStack|;
      var u := s.undoStack[..n - 1];
      var top := s.undoStack[n - 1];
      ReverseSnoc(s.redoStack, s.surface);
      calc {
        Timeline(Undo(s));
        u + [top] + Reverse(s.redoStack + [s.surface]);
        u + [top] + ([s.surface] + Reverse(s.redoStack));
        { assert s.undoStack == u + [top]; }
        s.undoStack + [s.surface] + Reverse(s.redoStack);
      }
    }
  }

  /** Redo, likewise, only moves the position of the surface within the timeline. */
  lemma RedoKeepsTimeline(s: State)
    ensures Timeline(Redo(s)) == Timeline(s)
    ensures |Redo(s).undoStack| + |Redo(s).redoStack| == |s.undoStack| + |s.redoStack|
  {
    if s.redoStack != [] {
      var n := |s.redoStack|;
      var r := s.redoStack[..n - 1];
      var top := s.redoStack[n - 1];
      ReverseSnoc(r, top);
      calc {
        Timeline(s);
        { assert s.redoStack == r + [top]; }
        s.undoStack + [s.surface] + Reverse(r + [top]);
        s.undoStack + [s.surface] + ([top] + Reverse(r));
        (s.undoStack + [s.surface]) + [top] + Reverse(r);
        Timeline(Redo(s));
      }
    }
  }
}
