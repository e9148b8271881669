/**
 * The drawing app's event handlers over its mutable session state. Each
 * method updates the fields in place as its handler does, and is proved to
 * move the session exactly as the matching SessionSpec function does.
 */
module DrawingApp {
  import opened Canvas
  import Spec = SessionSpec

  class Session {
    var isDrawing: bool
    var currentTool: Tool
    var brushColor: Color
    var brushSize: int
    var startX: int
    var startY: int
    /** The current point of the canvas's path, None when the path is empty. */
    var pen: Option<Point>
    var undoStack: seq<Snapshot>
    var redoStack: seq<Snapshot>
    /** What the canvas shows. */
    var surface: Snapshot

    /** The session as a value. */
    function Model(): Spec.State
      reads this
    {
      Spec.State(isDrawing, currentTool, brushColor, brushSize, startX, startY, pen, undoStack, redoStack, surface)
    }

    /** The page load. */
    constructor ()
      ensures Model() == Spec.INITIAL
    {
      isDrawing := false;
      currentTool := Pencil;
      brushColor := BLACK;
      brushSize := 5;
      startX, startY := 0, 0;
      pen := None;
      undoStack := [];
      redoStack := [];
      surface := [];
    }

    method SaveState()
      modifies this
      ensures undoStack == old(undoStack) + [old(surface)] && redoStack == []
      ensures Model() == Spec.SaveState(old(Model()))
    {
      undoStack := undoStack + [surface];
      redoStack := [];
    }

    method LoadImage(image: Snapshot)
      modifies this
      ensures surface == image
      ensures Model() == Spec.LoadImage(old(Model()), image)
    {
      surface := image;
    }

    method SetTool(tool: Tool)
      modifies this
      ensures currentTool == tool
      ensures Model() == Spec.SetTool(old(Model()), tool)
    {
      currentTool := tool;
    }

    method SetColor(color: Color)
      modifies this
      ensures brushColor == color && currentTool == Pencil
      ensures Model() == Spec.SetColor(old(Model()), color)
    {
      brushColor := color;
      currentTool := Pencil;
    }

    method SetSize(size: int)
      modifies this
      ensures brushSize == size
      ensures Model() == Spec.SetSize(old(Model()), size)
    {
      brushSize := size;
    }

    method Undo()
      modifies this
      ensures old(undoStack) == [] ==> Model() == old(Model())
      ensures old(undoStack) != [] ==>
        && surface == old(undoStack[|undoStack| - 1])
        && undoStack == old(undoStack[..|undoStack| - 1])
        && redoStack == old(redoStack) + [old(surface)]
      ensures Model() == Spec.Undo(old(Model()))
    {
      if |undoStack| == 0 {
        return;
      }
      redoStack := redoStack + [surface];
      var top := undoStack[|undoStack| - 1];
      undoStack := undoStack[..|undoStack| - 1];
      LoadImage(top);
    }

    method Redo()
      modifies this
      ensures old(redoStack) == [] ==> Model() == old(Model())
      ensures old(redoStack) != [] ==>
        && surface == old(redoStack[|redoStack| - 1])
        && redoStack == old(redoStack[..|redoStack| - 1])
        && undoStack == old(undoStack) + [old(surface)]
      ensures Model() == Spec.Redo(old(Model()))
    {
      if |redoStack| == 0 {
        return;
      }
      undoStack := undoStack + [surface];
      var top := redoStack[|redoStack| - 1];
      redoStack := redoStack[..|redoStack| - 1];
      LoadImage(top);
    }

    /** A file chosen through the load control; `None` when there is no file or no decodable image. */
    method ImportImage(file: Option<Snapshot>)
      modifies this
      ensures undoStack == old(undoStack) && redoStack == old(redoStack)
      ensures surface == if file.Some? then file.value else old(surface)
      ensures Model() == Spec.ImportImage(old(Model()), file)
    {
      if file.None? {
        return;
      }
      LoadImage(file.value);
    }

    method MouseDown(x: int, y: int)
      modifies this
      ensures isDrawing && startX == x && startY == y
      ensures undoStack == old(undoStack) + [old(surface)] && redoStack == [] && surface == old(surface)
      ensures Model() == Spec.MouseDown(old(Model()), x, y)
    {
      isDrawing := true;
      startX := x;
      startY := y;
      SaveState();
      if currentTool == Pencil || currentTool == Eraser {
        pen := Some(Point(startX, startY));
      }
    }

    method MouseMove(x: int, y: int)
      modifies this
      ensures undoStack == old(undoStack) && redoStack == old(redoStack)
      ensures !old(isDrawing) ==> Model() == old(Model())
      ensures Model() == Spec.MouseMove(old(Model()), x, y)
    {
      if !isDrawing {
        return;
      }
      if currentTool == Pencil || currentTool == Eraser {
        var style := if currentTool == Eraser then WHITE else brushColor;
        if pen.Some? {
          surface := surface + [Segment(pen.value, Point(x, y), style, brushSize)];
        }
        pen := Some(Point(x, y));
      }
    }

    method MouseUp(x: int, y: int)
      modifies this
      ensures undoStack == old(undoStack) && redoStack == old(redoStack) && !isDrawing
      ensures !old(isDrawing) ==> Model() == old(Model())
      ensures Model() == Spec.MouseUp(old(Model()), x, y)
    {
      if !isDrawing {
        return;
      }
      isDrawing := false;
      var endX := x;
      var endY := y;
      if currentTool == Line {
        surface := surface + [Segment(Point(startX, startY), Point(endX, endY), brushColor, brushSize)];
      } else if currentTool == Rect {
        var width := endX - startX;
        var height := endY - startY;
        surface := surface + [StrokeRect(startX, startY, width, height, brushColor, brushSize)];
      } else if currentTool == Circle {
        surface := surface + [StrokeCircle(Point(startX, startY), Point(endX, endY), brushColor, brushSize)];
      }
      pen := None;
    }

    method MouseLeave()
      modifies this
      ensures !isDrawing
      ensures Model() == old(Model()).(isDrawing := false)
      ensures Model() == Spec.MouseLeave(old(Model()))
    {
      isDrawing := false;
    }
  }
}
