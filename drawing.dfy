/** The drawing gesture of the canvas component: pointer-down starts an
    element (or places a text), pointer-move extends it, pointer-up ends the
    gesture and publishes the element. Pointer positions arrive already in
    canvas coordinates; the fresh element id and the text typed into the
    prompt are inputs. */
module Drawing {
  import opened Canvas
  import P = Protocol
  import History
  import Store
  import Sync

  /** Tools that start a stroke or shape on pointer-down. */
  predicate Draws(tool: Tool) {
    tool != Select && tool != Sticky && tool != Text
  }

  /** Pen and eraser strokes keep every sample; shapes keep two corners. */
  predicate Freehand(tool: Tool) {
    tool == Pen || tool == Eraser
  }

  /** `if (text)`: the prompt returned a non-empty string. */
  predicate Entered(text: Option<string>) {
    text.Some? && text.value != ""
  }

  /** The element placed by the text tool: a text at the point, with no
      points, no size and no sticky colour. */
  function TextElement(id: string, at: Point, color: string, width: int, text: string): (e: Element)
    ensures e.id == id && e.kind == Text && e.color == color && e.strokeWidth == width
    ensures e.points == [] && e.text == Some(text) && e.x == Some(at.x) && e.y == Some(at.y)
    ensures e.width.None? && e.height.None? && e.stickyColor.None?
  {
    Element(id, Text, [], color, width, Some(text), None, None, Some(at.x), Some(at.y), None)
  }

  /** The element a stroke or shape starts as: the tool's kind with the
      start point as its only point, and none of the optional fields. */
  function StrokeStart(id: string, tool: Tool, at: Point, color: string, width: int): (e: Element)
    ensures e.id == id && e.kind == tool && e.color == color && e.strokeWidth == width
    ensures e.points == [at]
    ensures e.text.None? && e.width.None? && e.height.None? && e.x.None? && e.y.None? && e.stickyColor.None?
  {
    Element(id, tool, [at], color, width, None, None, None, None, None, None)
  }

  /** The patch `{ points }`. */
  function PointsPatch(points: seq<Point>): Patch {
    EmptyPatch.(points := Put(points))
  }

  /** What pointer-up emits: the finished element, if it is still there. */
  function Published(store: Store.CanvasStore, id: string): seq<P.ClientMsg>
    reads store`elements, store`roomId
  {
    match Find(store.elements, id)
    case Some(e) => [P.AddElement(store.roomId, e)]
    case None => []
  }

  class Gesture {
    var isDrawing: bool
    var currentPoints: seq<Point>
    var currentElementId: string
    var startPoint: Point

    constructor ()
      ensures !isDrawing && currentPoints == [] && currentElementId == "" && startPoint == Point(0, 0)
    {
      isDrawing, currentPoints, currentElementId, startPoint := false, [], "", Point(0, 0);
    }

    /** `handlePointerDown`. With select or sticky nothing happens. With
        text, a non-empty entry is recorded in history once, added and
        emitted, and the gesture ends at once. Any other tool records
        history once and adds the starting element locally, without
        emitting it. */
    method PointerDown(store: Store.CanvasStore, session: Sync.SocketSession,
                       point: Point, freshId: string, entered: Option<string>)
      requires store.Valid()
      modifies this, store`elements, store`history, store`historyIndex, session`sent
      ensures store.Valid()
      ensures !Draws(store.currentTool) && store.currentTool != Text ==>
        && unchanged(this) && session.sent == old(session.sent)
        && store.elements == old(store.elements) && store.Log() == old(store.Log())
      ensures store.currentTool == Text ==>
        && !isDrawing && currentElementId == freshId && startPoint == point
        && currentPoints == old(currentPoints)
        && if Entered(entered) then
             var e := TextElement(freshId, point, store.strokeColor, store.strokeWidth, entered.value);
             && store.Log() == History.Push(old(store.Log()), old(store.elements))
             && store.elements == old(store.elements) + [e]
             && session.sent == old(session.sent) + [P.AddElement(store.roomId, e)]
           else
             && store.elements == old(store.elements) && store.Log() == old(store.Log())
             && session.sent == old(session.sent)
      ensures Draws(store.currentTool) ==>
        && isDrawing && currentElementId == freshId && startPoint == point
        && currentPoints == [point]
        && store.Log() == History.Push(old(store.Log()), old(store.elements))
        && store.elements == old(store.elements)
             + [StrokeStart(freshId, store.currentTool, point, store.strokeColor, store.strokeWidth)]
        && session.sent == old(session.sent)
    {
      var tool, color, width := store.currentTool, store.strokeColor, store.strokeWidth;
      if tool == Select || tool == Sticky {
        return;
      }
      isDrawing, currentElementId, startPoint := true, freshId, point;
      if tool == Text {
        if entered.Some? && entered.value != "" {
          var e := TextElement(freshId, point, color, width, entered.value);
          store.PushToHistory();
          store.AddElement(e);
          session.EmitAddElement(store, e);
        }
        isDrawing := false;
        return;
      }
      currentPoints := [point];
      var e := StrokeStart(freshId, tool, point, color, width);
      store.PushToHistory();
      store.AddElement(e);
    }

    /** `handlePointerMove`. The cursor position is always emitted. While a
        gesture runs and its element is still on the canvas, a pen or eraser
        appends the point and sets the element's points to all samples so
        far; any other tool sets them to the start and the current point.
        History is never touched. */
    method PointerMove(store: Store.CanvasStore, session: Sync.SocketSession, point: Point)
      modifies this`currentPoints, store`elements, session`sent
      ensures store.Log() == old(store.Log())
      ensures session.sent == old(session.sent) + [P.CursorMove(store.roomId, point.x, point.y)]
      ensures !isDrawing || !HasId(old(store.elements), currentElementId) ==>
        store.elements == old(store.elements) && currentPoints == old(currentPoints)
      ensures isDrawing && HasId(old(store.elements), currentElementId) && Freehand(store.currentTool) ==>
        && currentPoints == old(currentPoints) + [point]
        && store.elements == UpdateAll(old(store.elements), currentElementId, PointsPatch(currentPoints))
      ensures isDrawing && HasId(old(store.elements), currentElementId) && !Freehand(store.currentTool) ==>
        && currentPoints == old(currentPoints)
        && store.elements == UpdateAll(old(store.elements), currentElementId, PointsPatch([startPoint, point]))
      ensures isDrawing && HasId(old(store.elements), currentElementId) ==>
        forall e :: e in store.elements && e.id == currentElementId ==>
          e.points == if Freehand(store.currentTool) then currentPoints else [startPoint, point]
    {
      session.EmitCursorMove(store, point.x, point.y);
      if !isDrawing {
        return;
      }
      var current := Find(store.elements, currentElementId);
      if current.None? {
        return;
      }
      var patch;
      if store.currentTool == Pen || store.currentTool == Eraser {
        currentPoints := currentPoints + [point];
        patch := PointsPatch(currentPoints);
      } else {
        patch := PointsPatch([startPoint, point]);
      }
      store.UpdateElement(currentElementId, patch);
      UpdatedCarryPatch(old(store.elements), currentElementId, patch);
    }

    /** `handlePointerUp` (also run on pointer-leave). Outside a gesture it
        does nothing. Otherwise it ends the gesture, emits the element once
        if it is still on the canvas, and clears the samples. */
    method PointerUp(store: Store.CanvasStore, session: Sync.SocketSession)
      modifies this`isDrawing, this`currentPoints, session`sent
      ensures store.Log() == old(store.Log()) && store.elements == old(store.elements)
      ensures !old(isDrawing) ==> unchanged(this) && session.sent == old(session.sent)
      ensures old(isDrawing) ==> !isDrawing && currentPoints == []
      ensures old(isDrawing) ==>
        session.sent == old(session.sent) + Published(store, currentElementId)
    {
      if !isDrawing {
        return;
      }
      isDrawing := false;
      var element := Find(store.elements, currentElementId);
      if element.Some? {
        session.EmitAddElement(store, element.value);
      }
      currentPoints := [];
    }
  }
}
