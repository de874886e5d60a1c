/**
 * The signature canvas: a stroke state machine over an abstract drawing
 * surface. The surface is the context's current path plus the list of
 * paths stroked onto it since it was last cleared; the encoded image it
 * emits is an opaque token recording those strokes.
 */
module SignaturePad {
  import opened Artifacts

  /** Pointer coordinates in the viewport, as an event carries them. */
  datatype PointerEvent = PointerEvent(clientX: int, clientY: int)

  /** The surface's bounding rectangle in the viewport, as read at an event. */
  datatype Rect = Rect(left: int, top: int)

  /** The event handlers bound on the canvas element, and the Clear button. */
  datatype CanvasEvent =
    | MouseDown(e: PointerEvent)
    | MouseMove(e: PointerEvent)
    | MouseUp
    | MouseLeave
    | TouchStart(touches: seq<PointerEvent>)
    | TouchMove(touches: seq<PointerEvent>)
    | TouchEnd
    | ClearClick

  /** The handler an event runs. */
  datatype Action = Start(at: PointerEvent) | Extend(to: PointerEvent) | Stop | Clear

  /** What a handler passed to the change callback, if it called it. */
  datatype Emission = Quiet | Emit(data: Option<Token>)

  /** The component's drawing state and its surface. */
  datatype Pad = Pad(isDrawing: bool, path: Path, ink: seq<Path>)

  /** A fresh, blank canvas. */
  const Blank: Pad := Pad(false, [], [])

  /** A stroke in progress has its start point; every stroked path has at least one segment. */
  predicate Consistent(p: Pad)
  {
    && (p.isDrawing ==> |p.path| >= 1)
    && (forall i :: 0 <= i < |p.ink| ==> |p.ink[i]| >= 2)
  }

  /** Viewport coordinates to surface-local coordinates, using the rectangle read at this event. */
  function ToLocal(e: PointerEvent, rect: Rect): Point
  {
    Point(e.clientX - rect.left, e.clientY - rect.top)
  }

  /**
   * Touch events carry a list of touches; the handlers use the first one's
   * coordinates. Touch start and touch move always carry at least one touch.
   */
  predicate WellFormedEvent(ev: CanvasEvent)
  {
    (ev.TouchStart? || ev.TouchMove?) ==> |ev.touches| > 0
  }

  /** The binding of events to handlers. */
  function ActionOf(ev: CanvasEvent): Action
    requires WellFormedEvent(ev)
  {
    match ev
    case MouseDown(e) => Start(e)
    case MouseMove(e) => Extend(e)
    case MouseUp => Stop
    case MouseLeave => Stop
    case TouchStart(ts) => Start(PointerEvent(ts[0].clientX, ts[0].clientY))
    case TouchMove(ts) => Extend(PointerEvent(ts[0].clientX, ts[0].clientY))
    case TouchEnd => Stop
    case ClearClick => Clear
  }

  /** startDrawing: a new path that starts at the local point, and drawing on. */
  function StartStroke(p: Pad, e: PointerEvent, rect: Rect): Pad
  {
    p.(path := [ToLocal(e, rect)], isDrawing := true)
  }

  /** draw: while drawing, a line to the local point, and the whole current path stroked. */
  function ExtendStroke(p: Pad, e: PointerEvent, rect: Rect): Pad
  {
    if !p.isDrawing then p
    else
      var path' := p.path + [ToLocal(e, rect)];
      p.(path := path', ink := p.ink + [path'])
  }

  /** stopDrawing: while drawing, the surface encoded and passed on, and drawing off. */
  function StopStroke(p: Pad): (Pad, Emission)
  {
    if !p.isDrawing then (p, Quiet)
    else (p.(isDrawing := false), Emit(Some(SignatureImage(p.ink))))
  }

  /** clearSignature: the surface blanked and null passed on. */
  function ClearSurface(p: Pad): (Pad, Emission)
  {
    (p.(ink := []), Emit(None))
  }

  /** One handler run. */
  function Perform(p: Pad, a: Action, rect: Rect): (Pad, Emission)
  {
    match a
    case Start(e) => (StartStroke(p, e, rect), Quiet)
    case Extend(e) => (ExtendStroke(p, e, rect), Quiet)
    case Stop => StopStroke(p)
    case Clear => ClearSurface(p)
  }

  // ----- what the handlers promise -----

  /**
   * A move while drawing strokes a real segment: the path it strokes runs
   * from the press point through at least one more point.
   */
  lemma DrawStrokesASegment(p: Pad, e: PointerEvent, rect: Rect)
    requires Consistent(p) && p.isDrawing
    ensures var q := ExtendStroke(p, e, rect);
      && |q.path| >= 2 && q.path[0] == p.path[0]
      && q.ink[|q.ink| - 1] == q.path
  {
  }

  /** Every handler keeps the surface consistent. */
  lemma PerformKeepsConsistent(p: Pad, a: Action, rect: Rect)
    requires Consistent(p)
    ensures Consistent(Perform(p, a, rect).0)
  {
  }

  /**
   * Touch start, move and end do what mouse down, move and up do with the
   * first touch's coordinates, and leaving the canvas ends a stroke as
   * releasing the button does.
   */
  lemma TouchBehavesLikeMouse(ts: seq<PointerEvent>)
    requires |ts| > 0
    ensures ActionOf(TouchStart(ts)) == ActionOf(MouseDown(ts[0]))
    ensures ActionOf(TouchMove(ts)) == ActionOf(MouseMove(ts[0]))
    ensures ActionOf(TouchEnd) == ActionOf(MouseUp) == ActionOf(MouseLeave) == Stop
  {
  }

  /**
   * Each event translates its point with the rectangle read at that event:
   * a press and a move give a two-point path whose points use their own
   * rectangles, so a surface that moved in between (scrolling, resizing)
   * gives a different second point than the press's rectangle would.
   */
  lemma EachPointUsesItsEventsRect(p: Pad, e1: PointerEvent, r1: Rect, e2: PointerEvent, r2: Rect)
    ensures var q := ExtendStroke(StartStroke(p, e1, r1), e2, r2);
      && q.isDrawing
      && q.path == [ToLocal(e1, r1), ToLocal(e2, r2)]
      && q.ink == p.ink + [q.path]
      && (r1 != r2 ==> q.path[1] != ToLocal(e2, r1))
  {
  }

  /**
   * The surface keeps the current path through a clear: a move after a
   * clear in the middle of a stroke strokes the whole path again, so the
   * segments drawn before the clear reappear.
   */
  lemma ClearMidStrokeRepaintsThePath(p: Pad, e: PointerEvent, rect: Rect)
    requires p.isDrawing
    ensures var q := ExtendStroke(ClearSurface(p).0, e, rect);
      q.ink == [p.path + [ToLocal(e, rect)]]
  {
  }

  // ----- the component -----

  class SignatureCanvas {
    var isDrawing: bool
    /** The context's current path: the moveTo point, then each lineTo point. */
    var path: Path
    /** The paths stroked onto the surface since it was last cleared, oldest first. */
    var ink: seq<Path>

    function Snap(): Pad
      reads this
    {
      Pad(isDrawing, path, ink)
    }

    ghost predicate Valid()
      reads this
    {
      Consistent(Snap())
    }

    constructor ()
      ensures Valid() && Snap() == Blank
    {
      isDrawing := false;
      path := [];
      ink := [];
    }

    method StartDrawing(e: PointerEvent, rect: Rect)
      requires Valid()
      modifies this
      ensures Valid() && Snap() == StartStroke(old(Snap()), e, rect)
      ensures isDrawing && path == [ToLocal(e, rect)] && ink == old(ink)
    {
      path := [ToLocal(e, rect)];
      isDrawing := true;
    }

    method Draw(e: PointerEvent, rect: Rect)
      requires Valid()
      modifies this
      ensures Valid() && Snap() == ExtendStroke(old(Snap()), e, rect)
      ensures !old(isDrawing) ==> unchanged(this)
      ensures old(isDrawing) ==> isDrawing && path == old(path) + [ToLocal(e, rect)] && ink == old(ink) + [path]
      ensures old(isDrawing) ==> |path| >= 2
    {
      if !isDrawing {
        return;
      }
      path := path + [ToLocal(e, rect)];
      ink := ink + [path];
      PerformKeepsConsistent(old(Snap()), Extend(e), rect);
    }

    method StopDrawing() returns (emitted: Emission)
      requires Valid()
      modifies this
      ensures Valid() && (Snap(), emitted) == StopStroke(old(Snap()))
      ensures !old(isDrawing) ==> emitted == Quiet && unchanged(this)
      ensures old(isDrawing) ==> emitted == Emit(Some(SignatureImage(ink))) && !isDrawing
      ensures path == old(path) && ink == old(ink)
    {
      if !isDrawing {
        return Quiet;
      }
      emitted := Emit(Some(SignatureImage(ink)));
      isDrawing := false;
    }

    method ClearSignature() returns (emitted: Emission)
      requires Valid()
      modifies this
      ensures Valid() && (Snap(), emitted) == ClearSurface(old(Snap()))
      ensures emitted == Emit(None) && ink == []
      ensures isDrawing == old(isDrawing) && path == old(path)
    {
      ink := [];
      emitted := Emit(None);
    }

    /** An event on the canvas (or the Clear button), with the surface's rectangle at that moment. */
    method Handle(ev: CanvasEvent, rect: Rect) returns (emitted: Emission)
      requires Valid() && WellFormedEvent(ev)
      modifies this
      ensures Valid() && (Snap(), emitted) == Perform(old(Snap()), ActionOf(ev), rect)
    {
      match ActionOf(ev)
      case Start(e) =>
        StartDrawing(e, rect);
        emitted := Quiet;
      case Extend(e) =>
        Draw(e, rect);
        emitted := Quiet;
      case Stop =>
        emitted := StopDrawing();
      case Clear =>
        emitted := ClearSignature();
    }
  }
}
