/** The client's side of the connection (the `useSocket` hook): the join
    guard, the inbound handlers that reconcile server events into the store,
    the emit helpers the local gestures call, and the cleanup. Inbound events
    only reach the raw store mutators: they can touch neither the history
    nor the outgoing event log. */
module Sync {
  import opened Canvas
  import P = Protocol
  import Store

  /** The effect joins only once both a room id and a user name are set. */
  predicate ReadyToJoin(roomId: Option<string>, userName: string) {
    roomId.Some? && roomId.value != "" && userName != ""
  }

  class SocketSession {
    /** Every event this client has emitted, in order. */
    var sent: seq<P.ClientMsg>
    /** Whether the inbound handlers are registered. */
    var listening: bool
    /** The room id the running effect joined, used by its cleanup. */
    var joinedRoom: string

    constructor ()
      ensures sent == [] && !listening && joinedRoom == ""
    {
      sent, listening, joinedRoom := [], false, "";
    }

    /** The effect body: when both the room id and the user name are
        non-empty, emit `join-room` and register the handlers; otherwise do
        nothing. React runs the previous cleanup before re-running it. */
    method Start(store: Store.CanvasStore)
      requires !listening
      modifies this
      ensures ReadyToJoin(store.roomId, store.userName) ==>
        && sent == old(sent) + [P.JoinRoom(store.roomId.value, store.userName)]
        && listening && joinedRoom == store.roomId.value
      ensures !ReadyToJoin(store.roomId, store.userName) ==>
        sent == old(sent) && !listening && joinedRoom == old(joinedRoom)
    {
      if store.roomId.Some? && store.roomId.value != "" && store.userName != "" {
        sent := sent + [P.JoinRoom(store.roomId.value, store.userName)];
        listening, joinedRoom := true, store.roomId.value;
      }
    }

    /** The effect cleanup: emit `leave-room` for the room the effect joined
        and unregister the handlers. */
    method Cleanup()
      modifies this`sent, this`listening
      ensures old(listening) ==> sent == old(sent) + [P.LeaveRoom(joinedRoom)] && !listening
      ensures !old(listening) ==> sent == old(sent) && !listening
    {
      if listening {
        sent := sent + [P.LeaveRoom(joinedRoom)];
        listening := false;
      }
    }

    /** One inbound server event. Each handler calls the raw store mutator
        with the received payload; the frame leaves out the history fields
        and this session, so no inbound event records history or emits. */
    method Receive(store: Store.CanvasStore, msg: P.ServerMsg)
      modifies store`elements, store`selectedElementId, store`users, store`cursors, store`userId
      ensures store.Log() == old(store.Log()) && sent == old(sent)
      ensures !listening ==> unchanged(store)
      ensures listening ==> match msg
        case RoomState(els, us) =>
          store.elements == els && store.users == us
          && unchanged(store`selectedElementId, store`cursors, store`userId)
        case UserId(id) =>
          store.userId == Some(id)
          && unchanged(store`elements, store`selectedElementId, store`users, store`cursors)
        case ElementAdded(e) =>
          store.elements == old(store.elements) + [e]
          && unchanged(store`selectedElementId, store`users, store`cursors, store`userId)
        case ElementUpdated(id, p) =>
          store.elements == UpdateAll(old(store.elements), id, p)
          && unchanged(store`selectedElementId, store`users, store`cursors, store`userId)
        case ElementRemoved(id) =>
          store.elements == RemoveById(old(store.elements), id)
          && store.selectedElementId == (if old(store.selectedElementId) == Some(id) then None else old(store.selectedElementId))
          && unchanged(store`users, store`cursors, store`userId)
        case CanvasCleared =>
          store.elements == []
          && unchanged(store`selectedElementId, store`users, store`cursors, store`userId)
        case CursorMoved(c) =>
          store.cursors == Store.UpsertCursor(old(store.cursors), c)
          && unchanged(store`elements, store`selectedElementId, store`users, store`userId)
        case UserLeft(id) =>
          store.cursors == Store.WithoutCursor(old(store.cursors), id)
          && unchanged(store`elements, store`selectedElementId, store`users, store`userId)
        case UsersUpdated(us) =>
          store.users == us
          && unchanged(store`elements, store`selectedElementId, store`cursors, store`userId)
    {
      if !listening {
        return;
      }
      match msg
      case RoomState(els, us) =>
        store.SetElements(els);
        store.SetUsers(us);
      case UserId(id) =>
        store.SetUserId(id);
      case ElementAdded(e) =>
        store.AddElement(e);
      case ElementUpdated(id, p) =>
        store.UpdateElement(id, p);
      case ElementRemoved(id) =>
        store.RemoveElement(id);
      case CanvasCleared =>
        store.SetElements([]);
      case CursorMoved(c) =>
        store.UpdateCursor(c);
      case UserLeft(id) =>
        store.RemoveCursor(id);
      case UsersUpdated(us) =>
        store.SetUsers(us);
    }

    // The emit helpers: each sends one event carrying the store's room id.

    method EmitAddElement(store: Store.CanvasStore, e: Element)
      modifies this`sent
      ensures sent == old(sent) + [P.AddElement(store.roomId, e)]
    {
      sent := sent + [P.AddElement(store.roomId, e)];
    }

    method EmitUpdateElement(store: Store.CanvasStore, id: string, updates: Patch)
      modifies this`sent
      ensures sent == old(sent) + [P.UpdateElement(store.roomId, id, updates)]
    {
      sent := sent + [P.UpdateElement(store.roomId, id, updates)];
    }

    method EmitRemoveElement(store: Store.CanvasStore, id: string)
      modifies this`sent
      ensures sent == old(sent) + [P.RemoveElement(store.roomId, id)]
    {
      sent := sent + [P.RemoveElement(store.roomId, id)];
    }

    method EmitClearCanvas(store: Store.CanvasStore)
      modifies this`sent
      ensures sent == old(sent) + [P.ClearCanvas(store.roomId)]
    {
      sent := sent + [P.ClearCanvas(store.roomId)];
    }

    method EmitCursorMove(store: Store.CanvasStore, x: int, y: int)
      modifies this`sent
      ensures sent == old(sent) + [P.CursorMove(store.roomId, x, y)]
    {
      sent := sent + [P.CursorMove(store.roomId, x, y)];
    }
  }
}
