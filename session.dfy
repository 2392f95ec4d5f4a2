/**
 The drawing state machine as values: the five tool and session variables,
 the context's current path point and the canvas log, one transition function
 per handler, and the lemmas about sequences of events.
 */
module Session {
  import opened Wrappers
  import opened Canvas
  import opened Toolbar

  datatype State = State(
    drawing: bool,        // the mouse went down on the canvas and has not come up there
    eraser: bool,         // eraser mode; pencil mode otherwise
    lineThickness: nat,
    pencilColour: string,
    eraserSize: nat,
    path: Option<Point>,  // the context's current path point; None right after beginPath
    ops: seq<Op>)         // everything done to the canvas so far

  /** Page load: not drawing, pencil mode, 5px black pencil, 20px eraser, empty path. */
  const Initial: State := State(false, false, 5, "#000000", 20, None, [])

  /** At page load nothing is drawn, the pencil is selected, and the state is
      consistent: the path is empty and the log is continuous. */
  lemma InitialState()
    ensures !Initial.drawing && !Initial.eraser && Initial.path == None && Initial.ops == []
    ensures Initial.lineThickness == 5 && Initial.pencilColour == "#000000" && Initial.eraserSize == 20
    ensures Consistent(Initial)
  {
  }

  /** What the environment can do: mouse events on the canvas carry the
      viewport position of the pointer and the canvas's viewport offset (its
      bounding rectangle's left and top); toolbar events carry the control's value. */
  datatype Event =
    | MouseDown(client: Point, canvasOrigin: Point)
    | MouseMove(client: Point, canvasOrigin: Point)
    | MouseUp
    | ClearClick(width: nat, height: nat)
    | ThicknessInput(thickness: nat)
    | EraserSizeInput(size: nat)
    | PickerInput(pickerValue: string)
    | ColourButtonClick(buttonId: string, pickerValue: string)
    | PencilClick
    | EraserClick

  /** The square `erase` clears: side `size`, centred on the pointer's
      canvas-relative position. */
  function EraserRect(client: Point, canvasOrigin: Point, size: nat): (r: Op)
    ensures r.ClearRect? && r.w == size as real && r.h == size as real
    ensures r.x + r.w / 2.0 == client.x - canvasOrigin.x
    ensures r.y + r.h / 2.0 == client.y - canvasOrigin.y
  {
    var x := client.x - canvasOrigin.x;
    var y := client.y - canvasOrigin.y;
    ClearRect(x - size as real / 2.0, y - size as real / 2.0, size as real, size as real)
  }

  /** `draw`: nothing unless the pencil is down; otherwise one stroke from the
      path point to `e`, and the path restarts at `e`. Only the log and the
      path can change. */
  function Draw(s: State, e: Point): (r: State)
    ensures r.(ops := s.ops, path := s.path) == s
    ensures r.ops == s.ops <==> !s.drawing || s.eraser
    ensures r.ops == s.ops ==> r == s
    ensures r.ops != s.ops ==>
      r.ops == s.ops + [Stroke(s.path, e, s.lineThickness, s.pencilColour)] && r.path == Some(e)
  {
    if !s.drawing || s.eraser then s
    else s.(ops := s.ops + [Stroke(s.path, e, s.lineThickness, s.pencilColour)], path := Some(e))
  }

  /** `startDrawing`: sets `drawing`, and in pencil mode strokes at once to the
      press point. After a mouse up (or at page load) that stroke has no start
      point; whether the context paints anything for it is not modelled. */
  function StartDrawing(s: State, e: Point): (r: State)
    ensures r.drawing
    ensures s.eraser ==> r == s.(drawing := true)
    ensures !s.eraser ==> r == s.(drawing := true,
                                  ops := s.ops + [Stroke(s.path, e, s.lineThickness, s.pencilColour)],
                                  path := Some(e))
  {
    Draw(s.(drawing := true), e)
  }

  /** `finishDrawing`: stops drawing and empties the path; nothing else changes. */
  function FinishDrawing(s: State): (r: State)
    ensures !r.drawing && r.path == None
    ensures r.(drawing := s.drawing, path := s.path) == s
  {
    s.(drawing := false, path := None)
  }

  /** `erase`: one centred square exactly while the eraser is down; only the
      log can change. */
  function Erase(s: State, client: Point, canvasOrigin: Point): (r: State)
    ensures r.(ops := s.ops) == s
    ensures s.eraser && s.drawing ==> r.ops == s.ops + [EraserRect(client, canvasOrigin, s.eraserSize)]
    ensures !(s.eraser && s.drawing) ==> r.ops == s.ops
  {
    if s.eraser && s.drawing then s.(ops := s.ops + [EraserRect(client, canvasOrigin, s.eraserSize)])
    else s
  }

  /** `changeColour`: only the pencil colour changes, to the argument or to the
      picker's value. */
  function ChangeColour(s: State, colour: Option<string>, pickerValue: string): (r: State)
    ensures r == s.(pencilColour := r.pencilColour)
    ensures r.pencilColour == pickerValue || (colour.Some? && r.pencilColour == colour.value)
    ensures r.pencilColour == ChosenColour(colour, pickerValue)
  {
    s.(pencilColour := ChosenColour(colour, pickerValue))
  }

  /** The effect of one event, handler by handler. The log only grows, by at
      most one operation; mouse events leave the tool settings alone; toolbar
      settings leave the session and the canvas alone; clear only wipes. */
  function Step(s: State, ev: Event): (r: State)
    ensures s.ops <= r.ops && |r.ops| <= |s.ops| + 1
    ensures IsPointerEvent(ev) ==>
      r.eraser == s.eraser && r.lineThickness == s.lineThickness &&
      r.pencilColour == s.pencilColour && r.eraserSize == s.eraserSize
    ensures !IsPointerEvent(ev) && !ev.ClearClick? ==>
      r.drawing == s.drawing && r.path == s.path && r.ops == s.ops
    ensures ev.ClearClick? ==>
      r == s.(ops := s.ops + [ClearRect(0.0, 0.0, ev.width as real, ev.height as real)])
  {
    match ev
    case MouseDown(c, o) => Erase(StartDrawing(s, c), c, o)
    case MouseMove(c, o) => Erase(Draw(s, c), c, o)
    case MouseUp => FinishDrawing(s)
    case ClearClick(w, h) => s.(ops := s.ops + [ClearRect(0.0, 0.0, w as real, h as real)])
    case ThicknessInput(v) => s.(lineThickness := v)
    case EraserSizeInput(v) => s.(eraserSize := v)
    case PickerInput(p) => ChangeColour(s, None, p)
    case ColourButtonClick(id, p) => ChangeColour(s, Some(PaletteColour(id)), p)
    case PencilClick => s.(eraser := false)
    case EraserClick => s.(eraser := true)
  }

  /** The effect of a sequence of events, first to last. */
  function Run(s: State, evs: seq<Event>): State
    decreases |evs|
  {
    if evs == [] then s else Run(Step(s, evs[0]), evs[1..])
  }

  predicate IsPointerEvent(ev: Event) {
    ev.MouseDown? || ev.MouseMove? || ev.MouseUp?
  }

  predicate AllMoves(evs: seq<Event>) {
    forall k :: 0 <= k < |evs| ==> evs[k].MouseMove?
  }

  /** The pointer positions of a run of mouse moves. */
  function Clients(evs: seq<Event>): seq<Point>
    requires AllMoves(evs)
  {
    if evs == [] then [] else [evs[0].client] + Clients(evs[1..])
  }

  /** The strokes that join `start` (if any) and the points `pts` in order. */
  function Polyline(start: Option<Point>, pts: seq<Point>, width: nat, colour: string): (r: seq<Op>)
    ensures |r| == |pts|
    ensures forall k :: 0 <= k < |pts| ==>
      r[k] == Stroke(if k == 0 then start else Some(pts[k - 1]), pts[k], width, colour)
    decreases |pts|
  {
    if pts == [] then [] else [Stroke(start, pts[0], width, colour)] + Polyline(Some(pts[0]), pts[1..], width, colour)
  }

  /** The squares a run of mouse moves clears, one per move. */
  function Stamps(evs: seq<Event>, size: nat): seq<Op>
    requires AllMoves(evs)
  {
    if evs == [] then [] else [EraserRect(evs[0].client, evs[0].canvasOrigin, size)] + Stamps(evs[1..], size)
  }

  // ---------------------------------------------------------------------------
  // One event

  /** On a mouse down or move, at most one operation is added; the eraser flag
      alone decides whether it is a stroke or a clear. A mouse down always sets
      `drawing` and always adds one; a move adds one exactly when drawing. */
  lemma PointerEventEffect(s: State, ev: Event)
    requires ev.MouseDown? || ev.MouseMove?
    ensures Step(s, ev).drawing == (ev.MouseDown? || s.drawing)
    ensures |Step(s, ev).ops| == |s.ops| + (if ev.MouseDown? || s.drawing then 1 else 0)
    ensures Step(s, ev).ops[..|s.ops|] == s.ops
    ensures |Step(s, ev).ops| > |s.ops| ==> (Step(s, ev).ops[|s.ops|].ClearRect? <==> s.eraser)
    ensures s.eraser ==> Step(s, ev).path == s.path
  {
  }

  /** The mouse down does not empty the path: only a mouse up does. A press
      that follows a release the canvas never saw continues the old path. */
  lemma DownContinuesOpenPath(s: State, p: Point, o: Point)
    requires !s.eraser
    ensures Step(s, MouseDown(p, o)).ops == s.ops + [Stroke(s.path, p, s.lineThickness, s.pencilColour)]
    ensures Step(FinishDrawing(s), MouseDown(p, o)).ops == s.ops + [Stroke(None, p, s.lineThickness, s.pencilColour)]
  {
  }

  // ---------------------------------------------------------------------------
  // Sequences of events

  /** The canvas log only grows: no event undoes or alters an earlier operation. */
  lemma {:induction false} RunOnlyAppends(s: State, evs: seq<Event>)
    ensures s.ops <= Run(s, evs).ops
    decreases |evs|
  {
    if evs != [] {
      var t := Step(s, evs[0]);
      assert s.ops <= t.ops;
      RunOnlyAppends(t, evs[1..]);
    }
  }

  /** Mouse events never change the tool settings. */
  lemma {:induction false} PointerEventsKeepTools(s: State, evs: seq<Event>)
    requires forall k :: 0 <= k < |evs| ==> IsPointerEvent(evs[k])
    ensures Run(s, evs).eraser == s.eraser
    ensures Run(s, evs).lineThickness == s.lineThickness
    ensures Run(s, evs).pencilColour == s.pencilColour
    ensures Run(s, evs).eraserSize == s.eraserSize
    decreases |evs|
  {
    if evs != [] {
      assert IsPointerEvent(evs[0]);
      PointerEventsKeepTools(Step(s, evs[0]), evs[1..]);
    }
  }

  /** Toolbar settings (mode, sizes, colours) never touch the session or the canvas. */
  lemma {:induction false} SettingsKeepCanvas(s: State, evs: seq<Event>)
    requires forall k :: 0 <= k < |evs| ==> !IsPointerEvent(evs[k]) && !evs[k].ClearClick?
    ensures Run(s, evs).drawing == s.drawing
    ensures Run(s, evs).path == s.path
    ensures Run(s, evs).ops == s.ops
    decreases |evs|
  {
    if evs != [] {
      assert !IsPointerEvent(evs[0]) && !evs[0].ClearClick?;
      SettingsKeepCanvas(Step(s, evs[0]), evs[1..]);
    }
  }

  /** While the pencil is down, each move adds the segment from the previous
      point to the new one, in the current width and colour. */
  lemma {:induction false} PencilMoves(s: State, evs: seq<Event>)
    requires s.drawing && !s.eraser && AllMoves(evs)
    ensures Run(s, evs) == s.(ops := s.ops + Polyline(s.path, Clients(evs), s.lineThickness, s.pencilColour),
                              path := if evs == [] then s.path else Some(evs[|evs| - 1].client))
    decreases |evs|
  {
    if evs == [] {
      assert s.ops + [] == s.ops;
    } else {
      var c := evs[0].client;
      var st := Stroke(s.path, c, s.lineThickness, s.pencilColour);
      var t := Step(s, evs[0]);
      assert t == s.(ops := s.ops + [st], path := Some(c));
      var rest := evs[1..];
      assert AllMoves(rest) by {
        forall k | 0 <= k < |rest| ensures rest[k].MouseMove? { assert rest[k] == evs[k + 1]; }
      }
      PencilMoves(t, rest);
      var tail := Polyline(Some(c), Clients(rest), s.lineThickness, s.pencilColour);
      assert Clients(evs) == [c] + Clients(rest);
      assert Polyline(s.path, Clients(evs), s.lineThickness, s.pencilColour) == [st] + tail;
      assert t.ops + tail == s.ops + ([st] + tail);
      if rest != [] {
        assert rest[|rest| - 1] == evs[|evs| - 1];
      }
    }
  }

  /** A pencil stroke, from the press through any number of moves, is the
      polyline through the press point and every move point, starting from
      whatever the path held before the press. */
  lemma PencilSession(s: State, evs: seq<Event>)
    requires !s.eraser && |evs| > 0 && evs[0].MouseDown? && AllMoves(evs[1..])
    ensures Run(s, evs).ops ==
            s.ops + Polyline(s.path, [evs[0].client] + Clients(evs[1..]), s.lineThickness, s.pencilColour)
    ensures Run(s, evs).drawing
  {
    RunFirst(s, evs);
    PressThenMoves(s, evs[0], evs[1..]);
  }

  /** The pencil-press step followed by the moves, with the polyline folded back
      together. */
  lemma PressThenMoves(s: State, press: Event, moves: seq<Event>)
    requires !s.eraser && press.MouseDown? && AllMoves(moves)
    ensures Run(Step(s, press), moves).ops ==
            s.ops + Polyline(s.path, [press.client] + Clients(moves), s.lineThickness, s.pencilColour)
    ensures Run(Step(s, press), moves).drawing
  {
    var t := Step(s, press);
    var st := Stroke(s.path, press.client, s.lineThickness, s.pencilColour);
    var tail := Polyline(Some(press.client), Clients(moves), s.lineThickness, s.pencilColour);
    PencilPress(s, press);
    PencilMoves(t, moves);
    PolylineCons(s.path, press.client, Clients(moves), s.lineThickness, s.pencilColour);
    assert t.ops + tail == s.ops + ([st] + tail);
  }

  lemma RunFirst(s: State, evs: seq<Event>)
    requires evs != []
    ensures Run(s, evs) == Run(Step(s, evs[0]), evs[1..])
  {
  }

  /** A press in pencil mode strokes from the path point to the press point. */
  lemma PencilPress(s: State, ev: Event)
    requires !s.eraser && ev.MouseDown?
    ensures Step(s, ev) ==
            s.(drawing := true, ops := s.ops + [Stroke(s.path, ev.client, s.lineThickness, s.pencilColour)],
               path := Some(ev.client))
  {
  }

  lemma PolylineCons(start: Option<Point>, p: Point, pts: seq<Point>, width: nat, colour: string)
    ensures Polyline(start, [p] + pts, width, colour) == [Stroke(start, p, width, colour)] + Polyline(Some(p), pts, width, colour)
  {
  }

  /** After a mouse up, the next stroke starts a new path: by `Polyline`'s
      contract at index 0, its first segment has no start point, so it never
      joins the previous stroke. */
  lemma NewStrokeStartsFresh(s: State, evs: seq<Event>)
    requires !s.eraser && |evs| > 1 && evs[0].MouseUp? && evs[1].MouseDown? && AllMoves(evs[2..])
    ensures Run(s, evs).ops ==
            s.ops + Polyline(None, [evs[1].client] + Clients(evs[2..]), s.lineThickness, s.pencilColour)
  {
    var rest := evs[1..];
    assert rest[0] == evs[1] && rest[1..] == evs[2..];
    PencilSession(FinishDrawing(s), rest);
  }

  /** While the eraser is down, each move clears one square centred on the
      move's canvas-relative point; nothing joins the squares, and the pencil
      path is left as it was. */
  lemma {:induction false} EraserMoves(s: State, evs: seq<Event>)
    requires s.drawing && s.eraser && AllMoves(evs)
    ensures Run(s, evs) == s.(ops := s.ops + Stamps(evs, s.eraserSize))
    decreases |evs|
  {
    if evs == [] {
      assert s.ops + [] == s.ops;
    } else {
      var r := EraserRect(evs[0].client, evs[0].canvasOrigin, s.eraserSize);
      var t := Step(s, evs[0]);
      assert t == s.(ops := s.ops + [r]);
      var rest := evs[1..];
      assert AllMoves(rest) by {
        forall k | 0 <= k < |rest| ensures rest[k].MouseMove? { assert rest[k] == evs[k + 1]; }
      }
      EraserMoves(t, rest);
      assert t.ops + Stamps(rest, s.eraserSize) == s.ops + ([r] + Stamps(rest, s.eraserSize));
    }
  }

  /** An eraser press with its moves clears the square at the press point and
      then one square per move, and changes nothing else but `drawing`. */
  lemma EraserSession(s: State, evs: seq<Event>)
    requires s.eraser && |evs| > 0 && evs[0].MouseDown? && AllMoves(evs[1..])
    ensures Run(s, evs) ==
            s.(drawing := true,
               ops := s.ops + [EraserRect(evs[0].client, evs[0].canvasOrigin, s.eraserSize)] + Stamps(evs[1..], s.eraserSize))
  {
    var t := Step(s, evs[0]);
    assert t == s.(drawing := true, ops := s.ops + [EraserRect(evs[0].client, evs[0].canvasOrigin, s.eraserSize)]);
    EraserMoves(t, evs[1..]);
  }

  // ---------------------------------------------------------------------------
  // The continuity invariant

  /** The path point is the end of the last stroke, and the log is continuous. */
  ghost predicate Consistent(s: State) {
    Continuous(s.ops) && (s.path.Some? ==> LastStrokeEnd(s.ops) == s.path)
  }

  lemma DrawKeepsConsistent(s: State, e: Point)
    requires Consistent(s)
    ensures Consistent(Draw(s, e))
  {
    if s.drawing && !s.eraser {
      AppendStroke(s.ops, Stroke(s.path, e, s.lineThickness, s.pencilColour));
    }
  }

  lemma EraseKeepsConsistent(s: State, client: Point, canvasOrigin: Point)
    requires Consistent(s)
    ensures Consistent(Erase(s, client, canvasOrigin))
  {
    if s.eraser && s.drawing {
      AppendClear(s.ops, EraserRect(client, canvasOrigin, s.eraserSize));
    }
  }

  lemma StepKeepsConsistent(s: State, ev: Event)
    requires Consistent(s)
    ensures Consistent(Step(s, ev))
  {
    match ev
    case MouseDown(c, o) =>
      DrawKeepsConsistent(s.(drawing := true), c);
      EraseKeepsConsistent(StartDrawing(s, c), c, o);
    case MouseMove(c, o) =>
      DrawKeepsConsistent(s, c);
      EraseKeepsConsistent(Draw(s, c), c, o);
    case ClearClick(w, h) =>
      AppendClear(s.ops, ClearRect(0.0, 0.0, w as real, h as real));
    case _ =>
  }

  lemma {:induction false} RunKeepsConsistent(s: State, evs: seq<Event>)
    requires Consistent(s)
    ensures Consistent(Run(s, evs))
    decreases |evs|
  {
    if evs != [] {
      StepKeepsConsistent(s, evs[0]);
      RunKeepsConsistent(Step(s, evs[0]), evs[1..]);
    }
  }

  /** Whatever the user does from page load, every stroke that continues a path
      starts exactly where the previous stroke ended, even across eraser use,
      clears and tool changes in between. */
  lemma ReachableLogIsContinuous(evs: seq<Event>)
    ensures Continuous(Run(Initial, evs).ops)
    ensures Run(Initial, evs).path.Some? ==> LastStrokeEnd(Run(Initial, evs).ops) == Run(Initial, evs).path
  {
    RunKeepsConsistent(Initial, evs);
  }
}
