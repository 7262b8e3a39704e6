/** The client-side canvas store: tool settings, the ordered element list,
    the selection, the undo/redo history, the user list and the remote
    cursors. Every action overwrites store fields with values computed by
    the pure functions of `Canvas`, `History` and this module. */
module Store {
  import Seqs
  import opened Canvas
  import History

  // ---------------------------------------------------------------------
  // Remote cursors

  predicate HasCursor(cs: seq<RemoteCursor>, id: string) {
    exists i :: 0 <= i < |cs| && cs[i].id == id
  }

  /** `cs.map(x => x.id === c.id ? c : x)`. */
  function ReplaceCursor(cs: seq<RemoteCursor>, c: RemoteCursor): (r: seq<RemoteCursor>)
    ensures |r| == |cs|
    ensures forall i :: 0 <= i < |cs| && cs[i].id == c.id ==> r[i] == c
    ensures forall i :: 0 <= i < |cs| && cs[i].id != c.id ==> r[i] == cs[i]
  {
    if cs == [] then []
    else [if cs[0].id == c.id then c else cs[0]] + ReplaceCursor(cs[1..], c)
  }

  /** `updateCursor`: replace every cursor with the same id in place, or
      append the cursor when no cursor has its id. */
  function UpsertCursor(cs: seq<RemoteCursor>, c: RemoteCursor): (r: seq<RemoteCursor>)
    ensures c in r && HasCursor(r, c.id)
    ensures HasCursor(cs, c.id) ==> r == ReplaceCursor(cs, c)
    ensures !HasCursor(cs, c.id) ==> r == cs + [c]
    ensures forall x :: x in r ==> x == c || (x in cs && x.id != c.id)
    ensures forall x :: x in cs && x.id != c.id ==> x in r
  {
    if HasCursor(cs, c.id) then
      var r := ReplaceCursor(cs, c);
      var i :| 0 <= i < |cs| && cs[i].id == c.id;
      assert r[i] == c;
      assert forall x :: x in r ==> x == c || (x in cs && x.id != c.id) by {
        forall x | x in r ensures x == c || (x in cs && x.id != c.id) {
          var k :| 0 <= k < |r| && r[k] == x;
        }
      }
      assert forall x :: x in cs && x.id != c.id ==> x in r by {
        forall x | x in cs && x.id != c.id ensures x in r {
          var k :| 0 <= k < |cs| && cs[k] == x;
          assert r[k] == x;
        }
      }
      r
    else
      assert (cs + [c])[|cs|] == c;
      cs + [c]
  }

  /** `removeCursor`: `cs.filter(x => x.id !== id)`. */
  function WithoutCursor(cs: seq<RemoteCursor>, id: string): (r: seq<RemoteCursor>)
    ensures !HasCursor(r, id)
    ensures forall x :: x in r <==> x in cs && x.id != id
  {
    var r := Seqs.Filter(cs, (x: RemoteCursor) => x.id != id);
    assert forall i :: 0 <= i < |r| ==> r[i] in r;
    r
  }

  lemma {:induction false} ReplaceThenRemove(cs: seq<RemoteCursor>, c: RemoteCursor)
    ensures WithoutCursor(ReplaceCursor(cs, c), c.id) == WithoutCursor(cs, c.id)
  {
    if cs != [] {
      var keep := (x: RemoteCursor) => x.id != c.id;
      var r := ReplaceCursor(cs, c);
      assert r == [r[0]] + r[1..] && cs == [cs[0]] + cs[1..];
      assert r[1..] == ReplaceCursor(cs[1..], c);
      Seqs.FilterConcat([r[0]], r[1..], keep);
      Seqs.FilterConcat([cs[0]], cs[1..], keep);
      ReplaceThenRemove(cs[1..], c);
    }
  }

  /** A cursor update followed by a departure of the same id leaves the
      cursor list as the departure alone would: presence updates never leave
      a trace once the user has left. */
  lemma UpsertThenRemove(cs: seq<RemoteCursor>, c: RemoteCursor)
    ensures WithoutCursor(UpsertCursor(cs, c), c.id) == WithoutCursor(cs, c.id)
  {
    if HasCursor(cs, c.id) {
      ReplaceThenRemove(cs, c);
    } else {
      Seqs.FilterConcat(cs, [c], (x: RemoteCursor) => x.id != c.id);
    }
  }

  /** Applying the same cursor update twice is applying it once. */
  lemma UpsertIdempotent(cs: seq<RemoteCursor>, c: RemoteCursor)
    ensures UpsertCursor(UpsertCursor(cs, c), c) == UpsertCursor(cs, c)
  {
  }

  // ---------------------------------------------------------------------
  // The store

  class CanvasStore {
    var currentTool: Tool
    var strokeColor: string
    var strokeWidth: int
    var elements: seq<Element>
    var selectedElementId: Option<string>
    var history: seq<seq<Element>>
    var historyIndex: int
    var users: seq<User>
    var cursors: seq<RemoteCursor>
    var roomId: Option<string>
    var userName: string
    var userId: Option<string>

    /** The history fields as one value. */
    function Log(): History.Timeline
      reads this`history, this`historyIndex
    {
      History.Timeline(history, historyIndex)
    }

    /** The history invariant: non-empty, at most 50 entries, index in range. */
    ghost predicate Valid()
      reads this`history, this`historyIndex
    {
      History.Valid(Log())
    }

    constructor ()
      ensures Valid() && Log() == History.Initial()
      ensures currentTool == Pen && strokeColor == "#ffffff" && strokeWidth == 3
      ensures elements == [] && selectedElementId == None
      ensures users == [] && cursors == []
      ensures roomId == None && userName == "" && userId == None
    {
      currentTool, strokeColor, strokeWidth := Pen, "#ffffff", 3;
      elements, selectedElementId := [], None;
      history, historyIndex := [[]], 0;
      users, cursors := [], [];
      roomId, userName, userId := None, "", None;
    }

    method SetTool(tool: Tool)
      modifies this`currentTool
      ensures currentTool == tool
    {
      currentTool := tool;
    }

    method SetStrokeColor(color: string)
      modifies this`strokeColor
      ensures strokeColor == color
    {
      strokeColor := color;
    }

    method SetStrokeWidth(width: int)
      modifies this`strokeWidth
      ensures strokeWidth == width
    {
      strokeWidth := width;
    }

    method SetElements(els: seq<Element>)
      modifies this`elements
      ensures elements == els
    {
      elements := els;
    }

    /** Appends exactly one element; the existing prefix is unchanged. */
    method AddElement(e: Element)
      modifies this`elements
      ensures elements == old(elements) + [e]
      ensures |elements| == |old(elements)| + 1 && elements[..|old(elements)|] == old(elements)
    {
      elements := elements + [e];
      assert elements[..|old(elements)|] == old(elements);
    }

    /** Merges the patch into every element with that id; an absent id
        leaves the list as it was. */
    method UpdateElement(id: string, updates: Patch)
      modifies this`elements
      ensures elements == UpdateAll(old(elements), id, updates)
      ensures !HasId(old(elements), id) ==> elements == old(elements)
    {
      elements := UpdateAll(elements, id, updates);
      if !HasId(old(elements), id) {
        UpdateAbsent(old(elements), id, updates);
      }
    }

    /** Drops every element with that id and clears the selection exactly
        when the selected id is the removed one. */
    method RemoveElement(id: string)
      modifies this`elements, this`selectedElementId
      ensures elements == RemoveById(old(elements), id)
      ensures selectedElementId == if old(selectedElementId) == Some(id) then None else old(selectedElementId)
    {
      elements := RemoveById(elements, id);
      if selectedElementId == Some(id) {
        selectedElementId := None;
      }
    }

    /** Pushes one snapshot of the current elements, then empties the canvas
        and the selection. */
    method ClearCanvas()
      requires Valid()
      modifies this`elements, this`selectedElementId, this`history, this`historyIndex
      ensures Valid() && Log() == History.Push(old(Log()), old(elements))
      ensures elements == [] && selectedElementId == None
    {
      PushToHistory();
      elements, selectedElementId := [], None;
    }

    method SetSelectedElementId(id: Option<string>)
      modifies this`selectedElementId
      ensures selectedElementId == id
    {
      selectedElementId := id;
    }

    /** Records a snapshot of the current elements; the elements themselves
        are not touched. */
    method PushToHistory()
      requires Valid()
      modifies this`history, this`historyIndex
      ensures Valid() && Log() == History.Push(old(Log()), elements)
    {
      var t := History.Push(Log(), elements);
      history, historyIndex := t.snapshots, t.index;
    }

    /** Steps back one snapshot, restoring it and clearing the selection;
        at the oldest snapshot nothing changes. */
    method Undo()
      requires Valid()
      modifies this`historyIndex, this`elements, this`selectedElementId
      ensures Valid() && Log() == History.Undo(old(Log()))
      ensures History.CanUndo(old(Log())) ==> elements == History.Current(Log()) && selectedElementId == None
      ensures !History.CanUndo(old(Log())) ==>
        elements == old(elements) && selectedElementId == old(selectedElementId)
    {
      if historyIndex > 0 {
        var newIndex := historyIndex - 1;
        historyIndex, elements, selectedElementId := newIndex, history[newIndex], None;
      }
    }

    /** Steps forward one snapshot, restoring it and clearing the selection;
        at the newest snapshot nothing changes. */
    method Redo()
      requires Valid()
      modifies this`historyIndex, this`elements, this`selectedElementId
      ensures Valid() && Log() == History.Redo(old(Log()))
      ensures History.CanRedo(old(Log())) ==> elements == History.Current(Log()) && selectedElementId == None
      ensures !History.CanRedo(old(Log())) ==>
        elements == old(elements) && selectedElementId == old(selectedElementId)
    {
      if historyIndex < |history| - 1 {
        var newIndex := historyIndex + 1;
        historyIndex, elements, selectedElementId := newIndex, history[newIndex], None;
      }
    }

    method CanUndo() returns (b: bool)
      ensures b <==> historyIndex > 0
      ensures b <==> History.CanUndo(Log())
    {
      b := historyIndex > 0;
    }

    method CanRedo() returns (b: bool)
      ensures b <==> historyIndex < |history| - 1
      ensures b <==> History.CanRedo(Log())
    {
      b := historyIndex < |history| - 1;
    }

    method SetUsers(us: seq<User>)
      modifies this`users
      ensures users == us
    {
      users := us;
    }

    method SetCursors(cs: seq<RemoteCursor>)
      modifies this`cursors
      ensures cursors == cs
    {
      cursors := cs;
    }

    /** Replaces the cursor with the same id in place, or appends it. */
    method UpdateCursor(c: RemoteCursor)
      modifies this`cursors
      ensures cursors == UpsertCursor(old(cursors), c)
    {
      cursors := UpsertCursor(cursors, c);
    }

    /** Removes every cursor with that id. */
    method RemoveCursor(id: string)
      modifies this`cursors
      ensures cursors == WithoutCursor(old(cursors), id)
    {
      cursors := WithoutCursor(cursors, id);
    }

    method SetRoomId(id: string)
      modifies this`roomId
      ensures roomId == Some(id)
    {
      roomId := Some(id);
    }

    method SetUserName(name: string)
      modifies this`userName
      ensures userName == name
    {
      userName := name;
    }

    method SetUserId(id: string)
      modifies this`userId
      ensures userId == Some(id)
    {
      userId := Some(id);
    }
  }
}
