# Drawing app: the pointer and tool state machine

A model of the drawing logic of a browser freehand-drawing page. The page keeps
five variables: `drawing` (the mouse went down on the canvas and has not come
up there), `eraser` (eraser mode rather than pencil mode), `lineThickness`,
`pencilColour` and `eraserSize`. Its handlers write to a 2D canvas context.
The pencil strokes from the context's current path point to the pointer, and
the eraser clears a square around the pointer. The toolbar sets the mode, the
sliders, the colour, and can clear the whole canvas.

The canvas is modelled as an append-only log of operations:
`Stroke(start, to, width, colour)`, where `start` is the current path point or
`None` when the path is empty, and `ClearRect(x, y, w, h)`. The context's
current path point is a field of its own.

- `Wrappers`: `Option`.
- `Canvas`: points, operations, and the continuity predicate on a log. In a
  continuous log, every stroke with a start point starts where the previous
  stroke ended.
- `Toolbar`: the palette mapping and the truthiness rule of `changeColour`.
- `Session`: the state as a value, and one transition function per handler.
  `Step` runs one event and `Run` runs a sequence of events. The lemmas are
  about single events, about whole pencil and eraser strokes, and about the
  continuity invariant of every reachable state.
- `App`: the class `DrawingApp`. Its fields are the page's variables, plus the
  path point and the log. Each handler is a method. Its postconditions name
  the operation it appends and the fields it changes, and equate the new
  `Snapshot()` with the matching `Session` transition. `Valid()` (the
  continuity invariant) is kept by every handler. `PencilScenario` is a
  usage example: a client that drives the handlers and computes a concrete
  log from their contracts alone.

The mouse's viewport position and the canvas's viewport offset (the
bounding rectangle's left and top) are plain inputs of the mouse handlers.
The canvas width and height are inputs of the clear handler. Slider values
and the colour picker's value are inputs of their handlers.

Behaviours of the code that are easy to miss:
- The path is emptied on mouse up (`finishDrawing`), not on mouse down. The
  mouse-up listener sits on the canvas. If the button is released outside the
  canvas, `drawing` stays true and the path stays open, and the next press
  continues the old path (`Session.DownContinuesOpenPath`).
- The pencil uses the raw viewport position of the pointer. The eraser uses
  the position relative to the canvas.
- `changeColour` tests its argument for truthiness. An empty string therefore
  falls back to the picker's value, just as a missing argument does.

## Model

| member | source | states |
|---|---|---|
| App.DrawingApp.constructor | script.js:17-21 | initial state: not drawing, pencil mode, thickness 5, colour `#000000`, eraser size 20, empty path, empty log |
| App.DrawingApp.Draw | script.js:33-46 | no change at all unless drawing in pencil mode; otherwise appends exactly one stroke from the old path point to the event point in the current thickness and colour, then the path point is the event point; no tool field changes |
| App.DrawingApp.StartDrawing | script.js:23-26 | sets `drawing`, then behaves as `Draw` at the event point |
| App.DrawingApp.FinishDrawing | script.js:28-31 | clears `drawing` and empties the path; log and tool settings untouched |
| App.DrawingApp.Erase | script.js:177-190 | appends the eraser square exactly when `eraser && drawing`, otherwise nothing; path and settings untouched |
| App.DrawingApp.OnMouseDown | script.js:49-52 | `drawing` becomes true and exactly one operation is appended: the eraser square in eraser mode (path untouched), a stroke from the old path point in pencil mode |
| App.DrawingApp.OnMouseMove | script.js:54-58 | nothing unless drawing; otherwise exactly one operation, chosen by `eraser` alone; settings and `drawing` untouched |
| App.DrawingApp.OnClear | script.js:71-73 | appends `ClearRect(0, 0, width, height)` and changes no tool or session state |
| App.DrawingApp.OnThicknessInput | script.js:77-78 | only `lineThickness` changes, to the slider value |
| App.DrawingApp.OnEraserSizeInput | script.js:149-150 | only `eraserSize` changes, to the slider value |
| App.DrawingApp.ChangeColour | script.js:90-101 | a given non-empty colour is stored; a missing or empty one stores the picker value; nothing else changes |
| App.DrawingApp.OnPickerInput | script.js:103-105 | only the pencil colour changes, to the picker value |
| App.DrawingApp.OnColourButton | script.js:108-113 | only the pencil colour changes, to the palette colour of the button |
| App.DrawingApp.OnPencilClick | script.js:117-118 | only `eraser` changes, to false |
| App.DrawingApp.OnEraserClick | script.js:134-135 | only `eraser` changes, to true |
| Toolbar.PaletteColour | script.js:110-112 | `#ff0000` exactly for `red`, `#0000ff` exactly for `blue`, `#ffff00` exactly for every other button |
| Toolbar.PaletteIgnoresPicker | script.js:108-113 | a palette click stores its palette colour whatever the picker holds, always one of the three |
| Toolbar.FalsyColourTakesPicker | script.js:90-101 | the stored colour is the picker value exactly when the argument is missing, empty, or equal to it |
| Session.InitialState | script.js:17-21 | the initial value: not drawing, pencil mode, thickness 5, colour `#000000`, eraser size 20, empty path and log, and consistent |
| Session.Draw | script.js:33-46 | only the log and the path can change; the log is unchanged exactly when not drawing or in eraser mode, and then nothing changes; otherwise one stroke from the old path point to the event point in the current thickness and colour, and the path restarts there |
| Session.StartDrawing | script.js:23-26 | `drawing` is set; in eraser mode nothing else changes; in pencil mode one stroke from the old path point to the press point, with the path restarting there |
| Session.FinishDrawing | script.js:28-31 | `drawing` cleared and the path emptied; nothing else changes |
| Session.Erase | script.js:177-190 | only the log can change: by the eraser square exactly when `eraser && drawing` |
| Session.ChangeColour | script.js:90-101 | only the pencil colour changes, to the picker value or to the given colour, as `ChosenColour` decides |
| Toolbar.ChosenColour | script.js:90-101 | a given non-empty colour is taken; a missing or empty one (falsy in JavaScript) gives the picker's value |
| Session.Step | script.js:49-150 | per event: the log only grows, by at most one operation; mouse events keep mode, thickness, colour and eraser size; mode, slider and colour events keep `drawing`, the path and the log; clear appends the full-canvas `ClearRect` and changes nothing else |
| Session.EraserRect | script.js:185-188 | the cleared square has side `eraserSize` and is centred on the pointer's canvas-relative position |
| Session.Polyline | script.js:36-45 | k-th stroke of a pencil drag joins point k-1 to point k (the first starts from the old path point), one stroke per point |
| Session.PointerEventEffect | script.js:49-58 | on press or move at most one operation is appended and none is altered; a press always sets `drawing` and appends; a move appends exactly when drawing; it is a clear exactly in eraser mode; the eraser leaves the path alone |
| Session.DownContinuesOpenPath | script.js:23-31 | a press does not empty the path (it continues from the old path point); after a mouse up it starts with no start point |
| Session.RunOnlyAppends | script.js:23-190 | over any sequence of events the earlier log is a prefix of the later one |
| Session.PointerEventsKeepTools | script.js:23-58 | mouse events never change mode, thickness, colour or eraser size |
| Session.SettingsKeepCanvas | script.js:77-150 | mode, slider and colour events never change `drawing`, the path or the log |
| Session.PencilMoves | script.js:33-46 | moves with the pencil down append the polyline through their points, and the path ends at the last point |
| Session.PencilSession | script.js:23-58 | press plus moves in pencil mode append the polyline through the press point and every move point |
| Session.NewStrokeStartsFresh | script.js:28-58 | after a mouse up, the next stroke's polyline starts with no start point, so it never joins the previous stroke |
| Session.EraserMoves | script.js:177-190 | moves with the eraser down append one independent centred square per move and change nothing else |
| Session.EraserSession | script.js:49-58 | an eraser press plus moves clears the square at the press point and one per move, sets `drawing`, leaves the path alone |
| Session.StepKeepsConsistent | script.js:23-190 | every event keeps the log continuous and the path point equal to the last stroke's end |
| Session.RunKeepsConsistent | script.js:23-190 | the same for any sequence of events |
| Session.ReachableLogIsContinuous | script.js:17-190 | from page load, whatever happens, every stroke with a start point begins where the previous stroke ended |
| Canvas.AppendStroke | script.js:40-45 | a stroke starting at the last stroke's end keeps the log continuous and becomes the new end |
| Canvas.AppendClear | script.js:71-188 | a clear does not move the last stroke's end and keeps the log continuous |

## Left out

- `resizeCanvas` (script.js:204-208) is not modelled. It does floating-point scaling by 0.99 and writes the canvas size. Writing the size also resets the context, emptying its path. The canvas dimensions are an input of the clear handler instead.
- The toolbar-hiding timer (script.js:10-13) is not modelled: it is a timer and a CSS class.
- Label, swatch, cursor and visibility updates in the slider and mode handlers, and all of `showEraser`, are not modelled. They echo state in the page and change no drawing state.
- Export (script.js:193-199) is not modelled: it is browser I/O (`toDataURL` and a download link).
- Rasterisation is not modelled: round caps, pixel coverage, whether a stroke with no start point shows a dot, clipping. Strokes and clears are log entries only. The constant `lineCap = 'round'` is not recorded.
- The context's rejection of values it cannot take is not modelled: the `lineWidth` setter ignores zero, and the `strokeStyle` setter ignores colour strings it cannot parse. A stroke records the width and colour the code assigns.
- Event-listener registration and the palette `forEach` loop are not modelled. Each handler is a method that the environment calls.
- Coordinates are exact reals, and `eraserSize / 2` is exact division, not IEEE doubles.
- Slider values are taken to be natural numbers. This assumes the range inputs have an integer minimum of at least 0 and an integer step; the page markup that sets them is not part of this model.
