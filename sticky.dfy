/** The sticky-note overlay: which elements it shows, and one note's
    handlers for dragging, editing the text and deleting. Each handler is
    given the note as it was last rendered (`note`) and reads the live
    element from the store where the component does. */
module Sticky {
  import opened Canvas
  import Seqs
  import P = Protocol
  import History
  import Store
  import Sync

  predicate IsSticky(e: Element) {
    e.kind == Sticky
  }

  /** The notes the overlay renders: the sticky elements, in list order. */
  function StickyNotes(els: seq<Element>): (r: seq<Element>)
    ensures |r| <= |els|
    ensures forall e :: e in r <==> e in els && e.kind == Sticky
  {
    Seqs.Filter(els, IsSticky)
  }

  /** Order: a new element appears after every note already shown, and only
      if it is a note. */
  lemma StickyNotesAppend(els: seq<Element>, e: Element)
    ensures StickyNotes(els + [e]) == StickyNotes(els) + (if e.kind == Sticky then [e] else [])
  {
    Seqs.FilterConcat(els, [e], IsSticky);
    assert Seqs.Filter([e], IsSticky) == (if IsSticky(e) then [e] else []) + Seqs.Filter([], IsSticky);
  }

  /** The overlay shows the whole list exactly when every element is a note. */
  lemma StickyNotesAll(els: seq<Element>)
    ensures StickyNotes(els) == els <==> forall e :: e in els ==> e.kind == Sticky
  {
    Seqs.FilterIdentity(els, IsSticky);
  }

  /** The text the editor starts from: `note.text || ""`. */
  function InitialText(note: Element): (t: string)
    ensures note.text.Some? ==> t == note.text.value
    ensures note.text.None? ==> t == ""
  {
    match note.text
    case Some(s) => s
    case None => ""
  }

  /** The position a drag starts from: `note.x ?? 0`, `note.y ?? 0`. */
  function Origin(note: Element): (p: Point)
    ensures note.x.Some? ==> p.x == note.x.value
    ensures note.y.Some? ==> p.y == note.y.value
    ensures note.x.None? ==> p.x == 0
    ensures note.y.None? ==> p.y == 0
  {
    Point(if note.x.Some? then note.x.value else 0, if note.y.Some? then note.y.value else 0)
  }

  /** The patch `{ x, y }` sent at the end of a drag. Both keys are present
      even when the element has no position. */
  function PositionPatch(el: Element): (p: Patch)
    ensures p.x == Put(el.x) && p.y == Put(el.y)
    ensures forall e :: Merge(e, p) == e.(x := el.x, y := el.y)
    ensures Merge(el, p) == el
  {
    EmptyPatch.(x := Put(el.x), y := Put(el.y))
  }

  /** The patch `{ text }` written on blur. */
  function TextPatch(text: string): (p: Patch)
    ensures forall e :: Merge(e, p) == e.(text := Some(text))
  {
    EmptyPatch.(text := Put(Some(text)))
  }

  class StickyNoteView {
    var isEditing: bool
    var editText: string
    var isDragging: bool
    var dragStart: Point
    var noteStart: Point

    constructor (note: Element)
      ensures !isEditing && editText == InitialText(note) && !isDragging
      ensures dragStart == Point(0, 0) && noteStart == Point(0, 0)
    {
      isEditing, editText, isDragging := false, InitialText(note), false;
      dragStart, noteStart := Point(0, 0), Point(0, 0);
    }

    /** `handleMouseDown`: ignored while editing; otherwise a drag starts
        from the pointer position and the note's rendered position. */
    method MouseDown(note: Element, pointer: Point)
      modifies this`isDragging, this`dragStart, this`noteStart
      ensures old(isEditing) ==> unchanged(this)
      ensures !old(isEditing) ==> isDragging && dragStart == pointer && noteStart == Origin(note)
    {
      if isEditing {
        return;
      }
      isDragging := true;
      dragStart := pointer;
      noteStart := Origin(note);
    }

    /** The window `mousemove` listener. The position it writes is computed
        from the pointer, `dragStart`, `noteStart` and the zoom, and is given
        here as `to`. Only the local store changes: no history, no emit. */
    method DragMove(store: Store.CanvasStore, session: Sync.SocketSession, note: Element, to: Point)
      modifies store`elements
      ensures store.Log() == old(store.Log()) && session.sent == old(session.sent)
      ensures !isDragging ==> store.elements == old(store.elements)
      ensures isDragging ==>
        store.elements == UpdateAll(old(store.elements), note.id, EmptyPatch.(x := Put(Some(to.x)), y := Put(Some(to.y))))
      ensures isDragging ==> forall e :: e in store.elements && e.id == note.id ==> e.x == Some(to.x) && e.y == Some(to.y)
    {
      if !isDragging {
        return;
      }
      var patch := EmptyPatch.(x := Put(Some(to.x)), y := Put(Some(to.y)));
      store.UpdateElement(note.id, patch);
      UpdatedCarryPatch(old(store.elements), note.id, patch);
    }

    /** The window `mouseup` listener, registered only while a drag runs: the
        drag ends and the note's current position is sent once, if the note
        is still on the canvas. */
    method MouseUp(store: Store.CanvasStore, session: Sync.SocketSession, note: Element)
      modifies this`isDragging, session`sent
      ensures !old(isDragging) ==> unchanged(this) && session.sent == old(session.sent)
      ensures old(isDragging) ==> !isDragging
      ensures old(isDragging) && !HasId(store.elements, note.id) ==> session.sent == old(session.sent)
      ensures old(isDragging) && Find(store.elements, note.id).Some? ==>
        session.sent == old(session.sent)
          + [P.UpdateElement(store.roomId, note.id, PositionPatch(Find(store.elements, note.id).value))]
    {
      if !isDragging {
        return;
      }
      isDragging := false;
      var el := Find(store.elements, note.id);
      if el.Some? {
        session.EmitUpdateElement(store, note.id, PositionPatch(el.value));
      }
    }

    /** `handleDoubleClick`: enter editing from the note's current text. */
    method DoubleClick(note: Element)
      modifies this`isEditing, this`editText
      ensures isEditing && editText == InitialText(note)
    {
      isEditing := true;
      editText := InitialText(note);
    }

    /** The textarea's change handler. */
    method ChangeText(text: string)
      modifies this`editText
      ensures editText == text
    {
      editText := text;
    }

    /** `handleBlur`: leave editing, write the text locally and send the same
        patch; no history is recorded. */
    method Blur(store: Store.CanvasStore, session: Sync.SocketSession, note: Element)
      modifies this`isEditing, store`elements, session`sent
      ensures !isEditing
      ensures store.Log() == old(store.Log())
      ensures store.elements == UpdateAll(old(store.elements), note.id, TextPatch(editText))
      ensures session.sent == old(session.sent) + [P.UpdateElement(store.roomId, note.id, TextPatch(editText))]
      ensures forall e :: e in store.elements && e.id == note.id ==> e.text == Some(editText)
    {
      isEditing := false;
      store.UpdateElement(note.id, TextPatch(editText));
      session.EmitUpdateElement(store, note.id, TextPatch(editText));
      UpdatedCarryPatch(old(store.elements), note.id, TextPatch(editText));
    }

    /** `handleDelete`: record history once, remove the note locally, then
        send its removal. */
    method Delete(store: Store.CanvasStore, session: Sync.SocketSession, note: Element)
      requires store.Valid()
      modifies store`history, store`historyIndex, store`elements, store`selectedElementId, session`sent
      ensures store.Valid() && store.Log() == History.Push(old(store.Log()), old(store.elements))
      ensures store.elements == RemoveById(old(store.elements), note.id) && !HasId(store.elements, note.id)
      ensures store.selectedElementId ==
        if old(store.selectedElementId) == Some(note.id) then None else old(store.selectedElementId)
      ensures session.sent == old(session.sent) + [P.RemoveElement(store.roomId, note.id)]
    {
      store.PushToHistory();
      store.RemoveElement(note.id);
      session.EmitRemoveElement(store, note.id);
    }
  }
}
