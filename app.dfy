/**
 The page script's drawing state and its event handlers. The five `let`
 variables become fields, and so do the 2D context's current path point and
 the canvas log. Each handler is a method; its postconditions say which
 operation, if any, it appends and which fields it changes, and tie the new
 state to the matching transition of `Session`, about which the lemmas there
 speak.
 */
module App {
  import opened Wrappers
  import opened Canvas
  import opened Toolbar
  import Session

  class DrawingApp {
    var drawing: bool
    var eraser: bool
    var lineThickness: nat
    var pencilColour: string
    var eraserSize: nat
    var pathEnd: Option<Point>  // the context's current path point
    var log: seq<Op>            // the operations performed on the canvas

    /** The whole state as a value. */
    function Snapshot(): Session.State
      reads this
    {
      Session.State(drawing, eraser, lineThickness, pencilColour, eraserSize, pathEnd, log)
    }

    /** The path point is where the last stroke ended, and no stroke jumps. */
    ghost predicate Valid()
      reads this
    {
      Session.Consistent(Snapshot())
    }

    /** Page load. */
    constructor ()
      ensures Valid()
      ensures !drawing && !eraser
      ensures lineThickness == 5 && pencilColour == "#000000" && eraserSize == 20
      ensures pathEnd == None && log == []
      ensures Snapshot() == Session.Initial
    {
      drawing := false;
      lineThickness := 5;
      pencilColour := "#000000";
      eraser := false;
      eraserSize := 20;
      pathEnd := None;
      log := [];
    }

    /** Pencil handler: a no-op unless the pencil is down; otherwise one stroke
        from the current path point to the event point, after which the path
        restarts at the event point. */
    method Draw(e: Point)
      requires Valid()
      modifies this
      ensures Valid()
      ensures drawing == old(drawing) && eraser == old(eraser)
      ensures lineThickness == old(lineThickness) && pencilColour == old(pencilColour)
      ensures eraserSize == old(eraserSize)
      ensures !old(drawing) || old(eraser) ==> pathEnd == old(pathEnd) && log == old(log)
      ensures old(drawing) && !old(eraser) ==>
        log == old(log) + [Stroke(old(pathEnd), e, lineThickness, pencilColour)] && pathEnd == Some(e)
      ensures Snapshot() == Session.Draw(old(Snapshot()), e)
    {
      Session.DrawKeepsConsistent(Snapshot(), e);
      if !drawing || eraser {
        return;
      }
      // lineWidth and strokeStyle come from the tool settings; lineTo, then stroke
      log := log + [Stroke(pathEnd, e, lineThickness, pencilColour)];
      // beginPath, then moveTo the event point
      pathEnd := Some(e);
    }

    method StartDrawing(e: Point)
      requires Valid()
      modifies this
      ensures Valid()
      ensures drawing
      ensures Snapshot() == Session.StartDrawing(old(Snapshot()), e)
    {
      drawing := true;
      Draw(e);
    }

    /** Mouse-up handler: stop drawing and empty the path. */
    method FinishDrawing()
      requires Valid()
      modifies this
      ensures Valid()
      ensures !drawing && pathEnd == None
      ensures log == old(log) && eraser == old(eraser)
      ensures lineThickness == old(lineThickness) && pencilColour == old(pencilColour)
      ensures eraserSize == old(eraserSize)
      ensures Snapshot() == Session.Step(old(Snapshot()), Session.MouseUp)
    {
      drawing := false;
      pathEnd := None;
    }

    /** Eraser handler: clears the eraser square centred on the pointer's
        canvas-relative position, only while the eraser is down. */
    method Erase(client: Point, canvasOrigin: Point)
      requires Valid()
      modifies this
      ensures Valid()
      ensures drawing == old(drawing) && eraser == old(eraser) && pathEnd == old(pathEnd)
      ensures lineThickness == old(lineThickness) && pencilColour == old(pencilColour)
      ensures eraserSize == old(eraserSize)
      ensures log == if eraser && drawing then old(log) + [Session.EraserRect(client, canvasOrigin, eraserSize)]
                     else old(log)
      ensures Snapshot() == Session.Erase(old(Snapshot()), client, canvasOrigin)
    {
      Session.EraseKeepsConsistent(Snapshot(), client, canvasOrigin);
      if eraser && drawing {
        var x := client.x - canvasOrigin.x;
        var y := client.y - canvasOrigin.y;
        var half := eraserSize as real / 2.0;
        log := log + [ClearRect(x - half, y - half, eraserSize as real, eraserSize as real)];
      }
    }

    /** Mouse-down handler: start drawing, then erase. Exactly one operation is
        added, a stroke in pencil mode and a clear in eraser mode. */
    method OnMouseDown(client: Point, canvasOrigin: Point)
      requires Valid()
      modifies this
      ensures Valid()
      ensures drawing && eraser == old(eraser)
      ensures lineThickness == old(lineThickness) && pencilColour == old(pencilColour)
      ensures eraserSize == old(eraserSize)
      ensures eraser ==> pathEnd == old(pathEnd) &&
                         log == old(log) + [Session.EraserRect(client, canvasOrigin, eraserSize)]
      ensures !eraser ==> pathEnd == Some(client) &&
                          log == old(log) + [Stroke(old(pathEnd), client, lineThickness, pencilColour)]
      ensures Snapshot() == Session.Step(old(Snapshot()), Session.MouseDown(client, canvasOrigin))
    {
      StartDrawing(client);
      Erase(client, canvasOrigin);
    }

    /** Mouse-move handler: draw, then erase (the eraser cursor preview in
        between changes no state). Nothing happens unless drawing; otherwise
        one operation, chosen by the mode. */
    method OnMouseMove(client: Point, canvasOrigin: Point)
      requires Valid()
      modifies this
      ensures Valid()
      ensures drawing == old(drawing) && eraser == old(eraser)
      ensures lineThickness == old(lineThickness) && pencilColour == old(pencilColour)
      ensures eraserSize == old(eraserSize)
      ensures !drawing ==> pathEnd == old(pathEnd) && log == old(log)
      ensures drawing && eraser ==> pathEnd == old(pathEnd) &&
                                    log == old(log) + [Session.EraserRect(client, canvasOrigin, eraserSize)]
      ensures drawing && !eraser ==> pathEnd == Some(client) &&
                                     log == old(log) + [Stroke(old(pathEnd), client, lineThickness, pencilColour)]
      ensures Snapshot() == Session.Step(old(Snapshot()), Session.MouseMove(client, canvasOrigin))
    {
      Draw(client);
      Erase(client, canvasOrigin);
    }

    /** Clear button: wipe the whole canvas; no tool or session state changes. */
    method OnClear(width: nat, height: nat)
      requires Valid()
      modifies this
      ensures Valid()
      ensures log == old(log) + [ClearRect(0.0, 0.0, width as real, height as real)]
      ensures drawing == old(drawing) && eraser == old(eraser) && pathEnd == old(pathEnd)
      ensures lineThickness == old(lineThickness) && pencilColour == old(pencilColour)
      ensures eraserSize == old(eraserSize)
      ensures Snapshot() == Session.Step(old(Snapshot()), Session.ClearClick(width, height))
    {
      AppendClear(log, ClearRect(0.0, 0.0, width as real, height as real));
      log := log + [ClearRect(0.0, 0.0, width as real, height as real)];
    }

    /** Thickness slider. */
    method OnThicknessInput(thickness: nat)
      requires Valid()
      modifies this
      ensures Valid()
      ensures Snapshot() == old(Snapshot()).(lineThickness := thickness)
      ensures Snapshot() == Session.Step(old(Snapshot()), Session.ThicknessInput(thickness))
    {
      lineThickness := thickness;
    }

    /** Eraser-size slider. */
    method OnEraserSizeInput(size: nat)
      requires Valid()
      modifies this
      ensures Valid()
      ensures Snapshot() == old(Snapshot()).(eraserSize := size)
      ensures Snapshot() == Session.Step(old(Snapshot()), Session.EraserSizeInput(size))
    {
      eraserSize := size;
    }

    /** Set the pencil colour to `colour` when one is given (and is not the
        empty string), otherwise to the colour picker's value. */
    method ChangeColour(colour: Option<string>, pickerValue: string)
      requires Valid()
      modifies this
      ensures Valid()
      ensures colour.Some? && colour.value != "" ==> pencilColour == colour.value
      ensures colour.None? || colour.value == "" ==> pencilColour == pickerValue
      ensures Snapshot() == old(Snapshot()).(pencilColour := pencilColour)
      ensures Snapshot() == Session.ChangeColour(old(Snapshot()), colour, pickerValue)
    {
      if colour.Some? && colour.value != "" {
        pencilColour := colour.value;
        return;
      }
      pencilColour := pickerValue;
    }

    /** Colour picker input. */
    method OnPickerInput(pickerValue: string)
      requires Valid()
      modifies this
      ensures Valid()
      ensures Snapshot() == old(Snapshot()).(pencilColour := pickerValue)
      ensures Snapshot() == Session.Step(old(Snapshot()), Session.PickerInput(pickerValue))
    {
      ChangeColour(None, pickerValue);
    }

    /** Palette button: red, blue, or yellow for any other button. */
    method OnColourButton(buttonId: string, pickerValue: string)
      requires Valid()
      modifies this
      ensures Valid()
      ensures Snapshot() == old(Snapshot()).(pencilColour := PaletteColour(buttonId))
      ensures Snapshot() == Session.Step(old(Snapshot()), Session.ColourButtonClick(buttonId, pickerValue))
    {
      if buttonId == "red" {
        ChangeColour(Some("#ff0000"), pickerValue);
      } else if buttonId == "blue" {
        ChangeColour(Some("#0000ff"), pickerValue);
      } else {
        ChangeColour(Some("#ffff00"), pickerValue);
      }
    }

    /** Pencil button: only the mode changes. */
    method OnPencilClick()
      requires Valid()
      modifies this
      ensures Valid()
      ensures Snapshot() == old(Snapshot()).(eraser := false)
      ensures Snapshot() == Session.Step(old(Snapshot()), Session.PencilClick)
    {
      eraser := false;
    }

    /** Eraser button: only the mode changes. */
    method OnEraserClick()
      requires Valid()
      modifies this
      ensures Valid()
      ensures Snapshot() == old(Snapshot()).(eraser := true)
      ensures Snapshot() == Session.Step(old(Snapshot()), Session.EraserClick)
    {
      eraser := true;
    }
  }

  /** A client of the handlers: a two-point pencil stroke, a release, a red
      palette click and a new press (which starts a fresh path), then an
      eraser move (which leaves the pencil path alone). */
  method PencilScenario(p: Point, q: Point)
  {
    var app := new DrawingApp();
    var origin := Point(0.0, 0.0);
    app.OnMouseDown(Point(10.0, 10.0), origin);
    app.OnMouseMove(Point(10.0, 60.0), origin);
    assert app.log == [Stroke(None, Point(10.0, 10.0), 5, "#000000"),
                       Stroke(Some(Point(10.0, 10.0)), Point(10.0, 60.0), 5, "#000000")];
    app.FinishDrawing();
    app.OnColourButton("red", "#123456");
    app.OnMouseDown(p, origin);
    assert app.log[2] == Stroke(None, p, 5, "#ff0000");
    app.OnEraserClick();
    app.OnMouseMove(q, origin);
    assert app.log[3] == ClearRect(q.x - 10.0, q.y - 10.0, 20.0, 20.0);
    assert app.pathEnd == Some(p);
  }
}
