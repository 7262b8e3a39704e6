/** The room server: a registry from room id to the room's shared elements
    and users, created lazily and never deleted, and the handlers one
    connection runs for each event it receives. Every broadcast is recorded
    in the registry's outbox, either to the sending connection alone or to
    every connection in a room except the sender. */
module Server {
  import Seqs
  import opened Canvas
  import P = Protocol

  /** The fixed palette user colours are drawn from. */
  const UserColors: seq<string> := [
    "#ef4444", "#f97316", "#eab308", "#22c55e", "#06b6d4",
    "#3b82f6", "#8b5cf6", "#ec4899", "#14b8a6", "#f59e0b"]

  /** `USER_COLORS[Math.floor(draw * USER_COLORS.length)]` for a random draw
      in [0, 1): always one of the ten palette colours. */
  function RandomColor(draw: real): (c: string)
    requires 0.0 <= draw < 1.0
    ensures c in UserColors
  {
    var k := (draw * |UserColors| as real).Floor;
    assert 0 <= k < |UserColors|;
    UserColors[k]
  }

  /** The users of a room in the insertion order of the source's `Map`, keyed
      by connection id. */
  datatype Room = Room(elements: seq<Element>, users: seq<User>)

  const EmptyRoom := Room([], [])

  predicate HasUser(us: seq<User>, id: string) {
    exists i :: 0 <= i < |us| && us[i].id == id
  }

  function UserKey(u: User): string {
    u.id
  }

  /** The user list has map keys: no id twice. */
  predicate UniqueUsers(us: seq<User>) {
    Seqs.Distinct(us, UserKey)
  }

  /** The position of the entry with that id, or -1. */
  function UserIndex(us: seq<User>, id: string): (i: int)
    ensures -1 <= i < |us|
    ensures i == -1 <==> !HasUser(us, id)
    ensures 0 <= i ==> us[i].id == id
  {
    if us == [] then -1
    else if us[0].id == id then 0
    else var k := UserIndex(us[1..], id); if k == -1 then -1 else k + 1
  }

  /** `users.set(u.id, u)`: overwrite the entry with that id where it stands,
      or append a new entry. */
  function SetUser(us: seq<User>, u: User): (r: seq<User>)
    requires UniqueUsers(us)
    ensures UniqueUsers(r)
    ensures u in r
    ensures HasUser(us, u.id) ==> |r| == |us|
    ensures HasUser(us, u.id) ==>
      forall k :: 0 <= k < |us| ==> r[k] == (if us[k].id == u.id then u else us[k])
    ensures !HasUser(us, u.id) ==> r == us + [u]
    ensures forall v :: v in r ==> v == u || (v in us && v.id != u.id)
    ensures forall v :: v in us && v.id != u.id ==> v in r
  {
    var i := UserIndex(us, u.id);
    if i == -1 then us + [u]
    else
      var r := us[i := u];
      assert r[i] == u;
      assert forall k :: 0 <= k < |us| && k != i ==> r[k] == us[k] && us[k].id != u.id;
      r
  }

  /** `users.delete(id)`. */
  function DeleteUser(us: seq<User>, id: string): (r: seq<User>)
    ensures UniqueUsers(us) ==> UniqueUsers(r)
    ensures !HasUser(r, id)
    ensures forall v :: v in r <==> v in us && v.id != id
    ensures !HasUser(us, id) ==> r == us
  {
    var r := Seqs.Filter(us, (v: User) => v.id != id);
    Seqs.FilterIdentity(us, (v: User) => v.id != id);
    assert UniqueUsers(us) ==> UniqueUsers(r) by {
      if UniqueUsers(us) {
        Seqs.FilterKeepsDistinct(us, UserKey, (v: User) => v.id != id);
      }
    }
    assert forall i :: 0 <= i < |r| ==> r[i] in r;
    r
  }

  /** Order: deleting from a concatenation deletes from each part, so the
      remaining users keep the map's insertion order. */
  lemma DeleteUserConcat(a: seq<User>, b: seq<User>, id: string)
    ensures DeleteUser(a + b, id) == DeleteUser(a, id) + DeleteUser(b, id)
  {
    Seqs.FilterConcat(a, b, (v: User) => v.id != id);
  }

  /** Registering a user and then deleting its id gives the list the delete
      alone would: a join followed by a leave leaves no trace in the room's
      user list. */
  lemma SetThenDelete(us: seq<User>, u: User)
    requires UniqueUsers(us)
    ensures DeleteUser(SetUser(us, u), u.id) == DeleteUser(us, u.id)
  {
    var keep := (v: User) => v.id != u.id;
    assert Seqs.Filter([u], keep) == [];
    var i := UserIndex(us, u.id);
    if i == -1 {
      Seqs.FilterConcat(us, [u], keep);
    } else {
      var before, after := us[..i], us[i + 1..];
      assert us == before + [us[i]] + after;
      assert SetUser(us, u) == before + [u] + after;
      assert Seqs.Filter([us[i]], keep) == [];
      Seqs.FilterConcat(before + [us[i]], after, keep);
      Seqs.FilterConcat(before, [us[i]], keep);
      Seqs.FilterConcat(before + [u], after, keep);
      Seqs.FilterConcat(before, [u], keep);
    }
  }

  /** What the server keeps true of every room: user ids are unique keys,
      every registered user is online and has a palette colour. */
  predicate RoomOk(room: Room) {
    && UniqueUsers(room.users)
    && forall u :: u in room.users ==> u.isOnline && u.color in UserColors
  }

  /** `getRoom`'s effect on the registry: add an empty room under `id` when
      there is none, otherwise change nothing. */
  function WithRoom(rooms: map<string, Room>, id: string): (r: map<string, Room>)
    ensures id in r && r.Keys == rooms.Keys + {id}
    ensures id in rooms ==> r == rooms
    ensures id !in rooms ==> r[id] == EmptyRoom
    ensures forall k :: k in rooms ==> r[k] == rooms[k]
  {
    if id in rooms then rooms else rooms[id := EmptyRoom]
  }

  /** Looking a room up twice is looking it up once. */
  lemma WithRoomIdempotent(rooms: map<string, Room>, id: string)
    ensures WithRoom(WithRoom(rooms, id), id) == WithRoom(rooms, id)
  {
  }

  /** A broadcast: to the sending connection alone, or to every connection
      in `room` except the one with id `except`. */
  datatype Emission =
    | ToSender(socket: string, msg: P.ServerMsg)
    | ToOthers(room: string, except: string, msg: P.ServerMsg)

  /** The process-wide room registry. */
  class Registry {
    var rooms: map<string, Room>
    var outbox: seq<Emission>

    ghost predicate Valid()
      reads this`rooms
    {
      forall id :: id in rooms ==> RoomOk(rooms[id])
    }

    constructor ()
      ensures Valid() && rooms == map[] && outbox == []
    {
      rooms, outbox := map[], [];
    }

    /** Returns the room, creating an empty one only when it is absent. */
    method GetRoom(roomId: string) returns (room: Room)
      requires Valid()
      modifies this`rooms
      ensures Valid()
      ensures rooms == WithRoom(old(rooms), roomId) && room == rooms[roomId]
    {
      if roomId !in rooms {
        rooms := rooms[roomId := EmptyRoom];
      }
      room := rooms[roomId];
    }

    method Emit(e: Emission)
      modifies this`outbox
      ensures outbox == old(outbox) + [e]
    {
      outbox := outbox + [e];
    }
  }

  /** One socket connection: its id, the registry it talks to, and the room
      and user it last joined as. */
  class Connection {
    const socketId: string
    const registry: Registry
    var currentRoomId: Option<string>
    var currentUser: Option<User>

    ghost predicate Valid()
      reads this, registry`rooms
    {
      && registry.Valid()
      && (currentUser.Some? ==>
            && currentUser.value.id == socketId
            && currentUser.value.isOnline
            && currentUser.value.color in UserColors)
    }

    constructor (socketId: string, registry: Registry)
      requires registry.Valid()
      ensures Valid()
      ensures this.socketId == socketId && this.registry == registry
      ensures currentRoomId == None && currentUser == None
    {
      this.socketId, this.registry := socketId, registry;
      currentRoomId, currentUser := None, None;
    }

    /** `join-room`: registers this connection's user (overwriting any
        earlier entry under its id), sends it its id and the room snapshot,
        and sends the new user list to everyone else in the room. */
    method JoinRoom(roomId: string, userName: string, draw: real)
      requires Valid() && 0.0 <= draw < 1.0
      modifies this, registry
      ensures Valid()
      ensures currentRoomId == Some(roomId)
      ensures currentUser == Some(User(socketId, userName, RandomColor(draw), true))
      ensures var room := WithRoom(old(registry.rooms), roomId)[roomId];
        var users := SetUser(room.users, currentUser.value);
        && registry.rooms == WithRoom(old(registry.rooms), roomId)[roomId := Room(room.elements, users)]
        && registry.outbox == old(registry.outbox) + [
             ToSender(socketId, P.UserId(socketId)),
             ToSender(socketId, P.RoomState(room.elements, users)),
             ToOthers(roomId, socketId, P.UsersUpdated(users))]
      ensures currentUser.value in registry.rooms[roomId].users
    {
      currentRoomId := Some(roomId);
      var room := registry.GetRoom(roomId);
      var user := User(socketId, userName, RandomColor(draw), true);
      currentUser := Some(user);
      var users := SetUser(room.users, user);
      registry.rooms := registry.rooms[roomId := room.(users := users)];
      registry.Emit(ToSender(socketId, P.UserId(socketId)));
      registry.Emit(ToSender(socketId, P.RoomState(room.elements, users)));
      registry.Emit(ToOthers(roomId, socketId, P.UsersUpdated(users)));
    }

    /** `add-element`: appends the element to the room (created if needed)
        and relays it to the others; no other room changes. */
    method AddElement(roomId: string, element: Element)
      requires Valid()
      modifies registry
      ensures Valid()
      ensures var room := WithRoom(old(registry.rooms), roomId)[roomId];
        && registry.rooms == WithRoom(old(registry.rooms), roomId)[roomId := room.(elements := room.elements + [element])]
        && registry.outbox == old(registry.outbox) + [ToOthers(roomId, socketId, P.ElementAdded(element))]
      ensures forall id :: id in old(registry.rooms) && id != roomId ==>
        id in registry.rooms && registry.rooms[id] == old(registry.rooms)[id]
    {
      var room := registry.GetRoom(roomId);
      registry.rooms := registry.rooms[roomId := room.(elements := room.elements + [element])];
      registry.Emit(ToOthers(roomId, socketId, P.ElementAdded(element)));
    }

    /** `update-element`: merges the patch into the first element with that
        id, if any, and relays the raw patch in every case. */
    method UpdateElement(roomId: string, id: string, updates: Patch)
      requires Valid()
      modifies registry
      ensures Valid()
      ensures var room := WithRoom(old(registry.rooms), roomId)[roomId];
        && registry.rooms == WithRoom(old(registry.rooms), roomId)[roomId := room.(elements := MergeFirst(room.elements, id, updates))]
        && registry.outbox == old(registry.outbox) + [ToOthers(roomId, socketId, P.ElementUpdated(id, updates))]
    {
      var room := registry.GetRoom(roomId);
      var idx := FindIndex(room.elements, id);
      if idx.Some? {
        registry.rooms := registry.rooms[roomId := room.(elements := room.elements[idx.value := Merge(room.elements[idx.value], updates)])];
      }
      registry.Emit(ToOthers(roomId, socketId, P.ElementUpdated(id, updates)));
    }

    /** `remove-element`: drops every element with that id, keeping the
        order of the rest, and relays the id. */
    method RemoveElement(roomId: string, id: string)
      requires Valid()
      modifies registry
      ensures Valid()
      ensures var room := WithRoom(old(registry.rooms), roomId)[roomId];
        && registry.rooms == WithRoom(old(registry.rooms), roomId)[roomId := room.(elements := RemoveById(room.elements, id))]
        && registry.outbox == old(registry.outbox) + [ToOthers(roomId, socketId, P.ElementRemoved(id))]
    {
      var room := registry.GetRoom(roomId);
      registry.rooms := registry.rooms[roomId := room.(elements := RemoveById(room.elements, id))];
      registry.Emit(ToOthers(roomId, socketId, P.ElementRemoved(id)));
    }

    /** `clear-canvas`: empties the room's elements, keeps its users. */
    method ClearCanvas(roomId: string)
      requires Valid()
      modifies registry
      ensures Valid()
      ensures var room := WithRoom(old(registry.rooms), roomId)[roomId];
        && registry.rooms == WithRoom(old(registry.rooms), roomId)[roomId := room.(elements := [])]
        && registry.outbox == old(registry.outbox) + [ToOthers(roomId, socketId, P.CanvasCleared)]
    {
      var room := registry.GetRoom(roomId);
      registry.rooms := registry.rooms[roomId := room.(elements := [])];
      registry.Emit(ToOthers(roomId, socketId, P.CanvasCleared));
    }

    /** `cursor-move`: never touches a room; relays the position with this
        connection's name and colour only once it has joined. */
    method CursorMove(roomId: string, x: int, y: int)
      requires Valid()
      modifies registry`outbox
      ensures Valid()
      ensures currentUser.Some? ==>
        registry.outbox == old(registry.outbox) + [ToOthers(roomId, socketId,
          P.CursorMoved(RemoteCursor(socketId, currentUser.value.name, currentUser.value.color, x, y)))]
      ensures currentUser.None? ==> registry.outbox == old(registry.outbox)
    {
      if currentUser.Some? {
        var cursor := RemoteCursor(socketId, currentUser.value.name, currentUser.value.color, x, y);
        registry.Emit(ToOthers(roomId, socketId, P.CursorMoved(cursor)));
      }
    }

    /** `leave-room`: the disconnect cleanup for the room the event names. */
    method LeaveRoom(roomId: string)
      requires Valid()
      modifies this, registry
      ensures Valid()
      ensures Departed(old(registry.rooms), old(registry.outbox), roomId)
    {
      HandleDisconnect(roomId);
    }

    /** `disconnect`: the cleanup for the current room, when there is one
        (an empty room id counts as none). */
    method Disconnect()
      requires Valid()
      modifies this, registry
      ensures Valid()
      ensures old(currentRoomId).Some? && old(currentRoomId).value != "" ==>
        Departed(old(registry.rooms), old(registry.outbox), old(currentRoomId).value)
      ensures !(old(currentRoomId).Some? && old(currentRoomId).value != "") ==>
        registry.rooms == old(registry.rooms) && registry.outbox == old(registry.outbox)
        && currentRoomId == old(currentRoomId) && currentUser == old(currentUser)
    {
      if currentRoomId.Some? && currentRoomId.value != "" {
        HandleDisconnect(currentRoomId.value);
      }
    }

    /** The state `handleDisconnect(roomId)` leaves behind, given the
        registry before it: only this connection's user is deleted from that
        room (if the room exists; none is created or deleted), the others
        hear who left and the new user list, and the connection forgets its
        room and user. */
    ghost predicate Departed(before: map<string, Room>, sent: seq<Emission>, roomId: string)
      reads this, registry
    {
      && currentRoomId == None && currentUser == None
      && registry.rooms.Keys == before.Keys
      && (roomId in before ==>
            var users := DeleteUser(before[roomId].users, socketId);
            && registry.rooms == before[roomId := before[roomId].(users := users)]
            && registry.outbox == sent + [
                 ToOthers(roomId, socketId, P.UserLeft(socketId)),
                 ToOthers(roomId, socketId, P.UsersUpdated(users))])
      && (roomId !in before ==> registry.rooms == before && registry.outbox == sent)
    }

    method HandleDisconnect(roomId: string)
      requires Valid()
      modifies this, registry
      ensures Valid()
      ensures Departed(old(registry.rooms), old(registry.outbox), roomId)
    {
      if roomId in registry.rooms {
        var room := registry.rooms[roomId];
        var users := DeleteUser(room.users, socketId);
        registry.rooms := registry.rooms[roomId := room.(users := users)];
        registry.Emit(ToOthers(roomId, socketId, P.UserLeft(socketId)));
        registry.Emit(ToOthers(roomId, socketId, P.UsersUpdated(users)));
      }
      currentRoomId, currentUser := None, None;
    }
  }
}
