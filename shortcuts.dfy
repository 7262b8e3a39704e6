/** The undo/redo keyboard shortcuts of the history hook. */
module Shortcuts {
  import opened Canvas
  import History
  import Store

  datatype Action = NoAction | UndoAction | RedoAction

  /** The action a key event asks for, before the history guards: Ctrl or
      Meta with `z` undoes, with Shift held it redoes, and Ctrl or Meta with
      `y` redoes. The key is compared as reported, case included. */
  function ShortcutFor(key: string, ctrl: bool, meta: bool, shift: bool): (a: Action)
    ensures a == UndoAction <==> (ctrl || meta) && key == "z" && !shift
    ensures a == RedoAction <==> (ctrl || meta) && ((key == "z" && shift) || key == "y")
    ensures !ctrl && !meta ==> a == NoAction
    ensures key != "z" && key != "y" ==> a == NoAction
  {
    if !(ctrl || meta) then NoAction
    else if key == "z" then (if shift then RedoAction else UndoAction)
    else if key == "y" then RedoAction
    else NoAction
  }

  /** `handleKeyDown`: the two checks of the handler run one after the
      other; since a key is never both `z` and `y`, at most one fires. The
      chosen action runs only when its guard holds. */
  method HandleKeyDown(store: Store.CanvasStore, key: string, ctrl: bool, meta: bool, shift: bool)
    requires store.Valid()
    modifies store`historyIndex, store`elements, store`selectedElementId
    ensures store.Valid()
    ensures store.Log() == match ShortcutFor(key, ctrl, meta, shift)
      case UndoAction => History.Undo(old(store.Log()))
      case RedoAction => History.Redo(old(store.Log()))
      case NoAction => old(store.Log())
    ensures ShortcutFor(key, ctrl, meta, shift) == NoAction ==>
      store.elements == old(store.elements) && store.selectedElementId == old(store.selectedElementId)
    ensures ShortcutFor(key, ctrl, meta, shift) == UndoAction && !History.CanUndo(old(store.Log())) ==>
      store.elements == old(store.elements) && store.selectedElementId == old(store.selectedElementId)
      && store.Log() == old(store.Log())
    ensures ShortcutFor(key, ctrl, meta, shift) == RedoAction && !History.CanRedo(old(store.Log())) ==>
      store.elements == old(store.elements) && store.selectedElementId == old(store.selectedElementId)
      && store.Log() == old(store.Log())
    ensures ShortcutFor(key, ctrl, meta, shift) != NoAction && store.Log() != old(store.Log()) ==>
      store.elements == History.Current(store.Log()) && store.selectedElementId == None
  {
    if (ctrl || meta) && key == "z" {
      if shift {
        var ok := store.CanRedo();
        if ok {
          store.Redo();
        }
      } else {
        var ok := store.CanUndo();
        if ok {
          store.Undo();
        }
      }
    }
    if (ctrl || meta) && key == "y" {
      var ok := store.CanRedo();
      if ok {
        store.Redo();
      }
    }
  }
}
