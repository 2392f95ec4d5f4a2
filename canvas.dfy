/**
 The drawing surface, abstracted as an append-only log of the operations the
 application performs on its 2D context. Pixels are not modelled: a stroke is
 the segment the context is asked to paint, a clear the rectangle it is asked
 to wipe.
 */
module Canvas {
  import opened Wrappers

  /** A point in CSS pixels; exact arithmetic stands in for JavaScript numbers. */
  datatype Point = Point(x: real, y: real)

  datatype Op =
      /** `lineTo(to)` then `stroke()`: a segment from the current path point, or
          no segment start at all when the path was empty. The line cap is not
          part of the log. */
    | Stroke(start: Option<Point>, to: Point, width: nat, colour: string)
      /** `clearRect(x, y, w, h)` */
    | ClearRect(x: real, y: real, w: real, h: real)

  /** The end point of the most recent stroke in the log, if there is one. */
  function LastStrokeEnd(ops: seq<Op>): Option<Point>
    decreases |ops|
  {
    if ops == [] then None
    else match ops[|ops| - 1]
      case Stroke(_, to, _, _) => Some(to)
      case ClearRect(_, _, _, _) => LastStrokeEnd(ops[..|ops| - 1])
  }

  /** Every stroke that continues a path starts exactly where the previous
      stroke in the log ended: pencil lines never jump. */
  ghost predicate Continuous(ops: seq<Op>) {
    forall i :: 0 <= i < |ops| && ops[i].Stroke? && ops[i].start.Some? ==>
      LastStrokeEnd(ops[..i]) == ops[i].start
  }

  /** Appending a clear does not move the end of the last stroke and keeps
      the log continuous. */
  lemma AppendClear(ops: seq<Op>, op: Op)
    requires op.ClearRect?
    ensures LastStrokeEnd(ops + [op]) == LastStrokeEnd(ops)
    ensures Continuous(ops) ==> Continuous(ops + [op])
  {
    var t := ops + [op];
    assert t[..|t| - 1] == ops;
    forall i | 0 <= i < |ops| ensures t[..i] == ops[..i] { }
  }

  /** Appending a stroke that starts at the end of the last stroke (or starts a
      new path) keeps the log continuous, and the stroke's end is the new end. */
  lemma AppendStroke(ops: seq<Op>, op: Op)
    requires Continuous(ops)
    requires op.Stroke? && (op.start.Some? ==> LastStrokeEnd(ops) == op.start)
    ensures Continuous(ops + [op])
    ensures LastStrokeEnd(ops + [op]) == Some(op.to)
  {
    var t := ops + [op];
    assert t[..|ops|] == ops;
    forall i | 0 <= i < |ops| ensures t[..i] == ops[..i] { }
  }
}
