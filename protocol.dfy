/** The events exchanged between a client and the room server. */
module Protocol {
  import opened Canvas

  /** Client-to-server events. The element events carry the room id the
      client had when it emitted them, which may be unset (`null`). */
  datatype ClientMsg =
    | JoinRoom(roomId: string, userName: string)
    | AddElement(room: Option<string>, element: Element)
    | UpdateElement(room: Option<string>, id: string, updates: Patch)
    | RemoveElement(room: Option<string>, id: string)
    | ClearCanvas(room: Option<string>)
    | CursorMove(room: Option<string>, x: int, y: int)
    | LeaveRoom(roomId: string)

  /** Server-to-client events. */
  datatype ServerMsg =
    | UserId(id: string)
    | RoomState(elements: seq<Element>, users: seq<User>)
    | ElementAdded(element: Element)
    | ElementUpdated(id: string, updates: Patch)
    | ElementRemoved(id: string)
    | CanvasCleared
    | CursorMoved(cursor: RemoteCursor)
    | UserLeft(id: string)
    | UsersUpdated(users: seq<User>)
}
