# Collaborative whiteboard: shared-canvas state machine

This project models the state machine behind a real-time collaborative whiteboard, on both sides of the socket connection.

- **The client canvas store.** It holds an ordered element list with append, merge-by-id and remove-by-id. It also holds a selection, a bounded undo/redo history of element snapshots, the remote cursors and the user list.
- **The room server.** A registry maps a room id to that room's elements and users. Rooms are created lazily. Each connection runs a handler per event: join, add, update, remove, clear, cursor, leave and disconnect. Every broadcast goes either to the sender alone or to everyone in the room except the sender.
- **The client connection hook.** It has a join guard, the inbound handlers that reconcile server events into the store, the emit helpers, and the cleanup.
- **The local gestures.** These are the drawing gesture of the canvas (pointer down, move and up) and the sticky-note handlers (drag, edit, delete). Each one decides when history is captured and when a change is sent.
- **The undo/redo keyboard shortcuts.**

Files, one module each:

| file | module | what |
|---|---|---|
| seqs.dfy | `Seqs` | order-preserving `Filter` and its laws |
| elements.dfy | `Canvas` | elements, patches and spread merge, the element-list operations of client and server |
| history.dfy | `History` | the snapshot timeline: push, undo, redo, guards |
| store.dfy | `Store` | cursor list operations and the `CanvasStore` class |
| protocol.dfy | `Protocol` | client-to-server and server-to-client events |
| server.dfy | `Server` | palette, rooms, user lists, the `Registry` and `Connection` classes |
| sync.dfy | `Sync` | the client `SocketSession` (join guard, inbound handlers, emits, cleanup) |
| convergence.dfy | `Convergence` | server and client replay of the same event stream |
| drawing.dfy | `Drawing` | the pointer gesture class |
| sticky.dfy | `Sticky` | the sticky-note overlay filter and the `StickyNoteView` class |
| shortcuts.dfy | `Shortcuts` | the key-to-action rule and the keydown handler |

Modelling choices:

- **Patches.** A patch (`Partial<CanvasElement>`) gives each field `Keep` (key absent) or `Put(v)` (key present). An optional field is patched with `Put(None)` when the key is present but `undefined`. A spread copies that `undefined` into the element.
- **Room users.** A room's users are a sequence in the insertion order of the server's `Map`. `set` on an existing key overwrites in place; on a new key it appends.
- **Outgoing events.** Outgoing server events are appended to the registry's `outbox`. Outgoing client events are appended to the session's `sent` log.
- **Inputs instead of environment.** The random draw for a user colour, the fresh element id, the text typed into the prompt and pointer positions are all method inputs.
- **Coordinates** are integers.

Where the code and the natural reading differ, the model follows the code.

- **Undo is not the inverse of the last action.** History starts as one empty snapshot, and a snapshot is taken *before* each change. Undo therefore goes back to the snapshot taken before the previous action. `History.UndoIsNotInverse` shows this on a two-step trace.
- **Server and client merge differently.** The server merges an update into the first element with the id. The client merges it into every element with the id. `Convergence.DuplicateIdsDiverge` shows the two drifting apart. `Convergence.ReplayAgrees` shows they agree when ids are unique and no patch rewrites an id, for a peer that applies each relayed event. A real client can leave that path in two ways: its undo and redo are local and never sent, and the author of a stroke appends it at pointer-down but sends it only at pointer-up.
- **Patches can rewrite `id` and `type`.** See `Canvas.MergeIdentity` and `Canvas.PatchCanRetype`.
- **Absent ids.** The server relays `element-updated` even when the id is not in the room.

## Model

| member | source | states |
|---|---|---|
| Seqs.Filter | src/stores/canvasStore.ts:116-121 | the filtered list is no longer than the input and holds exactly the input's elements that pass the test |
| Seqs.FilterConcat | src/stores/canvasStore.ts:118 | filtering distributes over concatenation, so the kept elements stay in their relative order |
| Seqs.FilterIdentity | src/stores/canvasStore.ts:118 | filtering returns the list unchanged exactly when every element passes |
| Seqs.FilterIdempotent | src/stores/canvasStore.ts:118 | filtering twice with the same test is filtering once |
| Seqs.FilterKeepsDistinct | src/stores/canvasStore.ts:118 | filtering a list whose keys are pairwise distinct leaves them pairwise distinct |
| Canvas.Merge | src/stores/canvasStore.ts:113 | the spread `{...el, ...updates}`, field by field: a key present in the patch overrides the field, an absent key keeps it (the same spread runs at server.ts:105) |
| Canvas.MergeEmpty | src/stores/canvasStore.ts:113 | spreading an empty patch leaves an element unchanged |
| Canvas.MergeCompose | src/stores/canvasStore.ts:113 | spreading two patches one after the other equals spreading their composition, where the later key wins |
| Canvas.MergeIdempotent | src/stores/canvasStore.ts:113 | spreading the same patch twice equals spreading it once |
| Canvas.MergeIdentity | src/stores/canvasStore.ts:113 | a merged element keeps its id exactly when the patch has no id key or repeats the id, and likewise for its type |
| Canvas.PatchCanRetype | server.ts:105 | a `{type: "sticky"}` patch turns any non-sticky element into a sticky note: the spread does not protect the type |
| Canvas.UpdateAll | src/stores/canvasStore.ts:110-115 | the client update keeps length and order, merges the patch into every element with the id, and leaves every other element unchanged |
| Canvas.UpdateAbsent | src/stores/canvasStore.ts:110-115 | updating an id that is not present changes nothing |
| Canvas.UpdatedCarryPatch | src/stores/canvasStore.ts:110-115 | after an update whose patch has no id key, every element carrying the id already holds the patch: merging it again changes nothing |
| Canvas.FindIndex | server.ts:103 | no index exactly when no element has the id; otherwise the index of the first element with the id |
| Canvas.Find | src/components/canvas/WhiteboardCanvas.tsx:246-249 | an element is found exactly when one has the id, and it is the element at the first index holding the id |
| Canvas.MergeFirst | server.ts:103-106 | the server update keeps length, changes nothing for an absent id, and otherwise replaces only the first element with the id by its merge |
| Canvas.RemoveById | src/stores/canvasStore.ts:116-121 | afterwards no element has the id, every other element is kept, and the list is unchanged exactly when the id was absent |
| Canvas.RemoveByIdConcat | src/stores/canvasStore.ts:118 | removal distributes over concatenation, so the order of the survivors is kept |
| Canvas.MergeFirstIsUpdateAll | server.ts:103-106 | with unique ids, merging into the first match and merging into every match give the same list |
| Canvas.MergeFirstDiffersOnDuplicates | server.ts:103-106 | with a duplicated id and a patch that changes the element, the two merges give different lists |
| Canvas.UpdateKeepsUnique | src/stores/canvasStore.ts:110-115 | an update whose patch has no id key keeps the ids unique |
| Canvas.RemoveKeepsUnique | src/stores/canvasStore.ts:116-121 | a removal keeps the ids unique |
| History.Initial | src/stores/canvasStore.ts:132-133 | the initial timeline (one empty snapshot, index 0) is well formed and allows neither undo nor redo |
| History.CanUndo | src/stores/canvasStore.ts:163 | on a well-formed timeline, undo is impossible exactly at the oldest retained snapshot |
| History.CanRedo | src/stores/canvasStore.ts:164 | on a well-formed timeline, redo is impossible exactly at the newest snapshot |
| History.Push | src/stores/canvasStore.ts:134-140 | keeps the timeline well formed with at most 50 entries (`MAX_HISTORY`) and leaves nothing to redo; the new snapshot is last, the index points at it, and the earlier entries are the kept prefix up to the old index, minus the oldest when the cap is exceeded |
| History.Undo | src/stores/canvasStore.ts:141-151 | keeps the timeline well formed and never changes the snapshots |
| History.Redo | src/stores/canvasStore.ts:152-162 | keeps the timeline well formed and never changes the snapshots |
| History.Guards | src/stores/canvasStore.ts:163-164 | undo moves the index exactly when it can undo, and redo exactly when it can redo |
| History.UndoRedoRoundTrip | src/stores/canvasStore.ts:141-162 | an undo that moved is reversed by a redo, which restores the index and the snapshots |
| History.UndoAfterPush | src/stores/canvasStore.ts:134-151 | right after a push an undo is always possible, and it restores the snapshot current before the push (not the elements the push recorded) |
| History.Undos | src/stores/canvasStore.ts:141-151 | repeated undo keeps the timeline well formed and the snapshots unchanged |
| History.UndosStopAtOldest | src/stores/canvasStore.ts:143 | n undos move the index back by n, stopping at the oldest entry |
| History.UndoIsNotInverse | src/stores/canvasStore.ts:132-151 | after adding two elements with a push before each, undo yields the empty canvas and not the canvas holding the first element |
| Store.ReplaceCursor | src/stores/canvasStore.ts:176-178 | keeps length and position, replaces every cursor with that id by the new one, and keeps the others |
| Store.UpsertCursor | src/stores/canvasStore.ts:171-182 | the new cursor is present afterwards; a known id is replaced in place (the result is the pointwise replacement), an unknown id is appended at the end; no other cursor is added or lost |
| Store.WithoutCursor | src/stores/canvasStore.ts:183-186 | no cursor with the id remains and every other cursor is kept |
| Store.ReplaceThenRemove | src/stores/canvasStore.ts:171-186 | replacing a cursor and then removing its id equals removing the id |
| Store.UpsertThenRemove | src/stores/canvasStore.ts:171-186 | removal after upsert equals removal alone: an upsert leaves no trace once its id is removed |
| Store.UpsertIdempotent | src/stores/canvasStore.ts:171-182 | upserting the same cursor twice is upserting it once |
| Store.CanvasStore.constructor | src/stores/canvasStore.ts:98-191 | the initial state: pen, white, width 3, no elements, no selection, a well-formed history of one empty snapshot, no users or cursors, no room |
| Store.CanvasStore.SetTool | src/stores/canvasStore.ts:101 | sets the tool and nothing else |
| Store.CanvasStore.SetStrokeColor | src/stores/canvasStore.ts:102 | sets the colour and nothing else |
| Store.CanvasStore.SetStrokeWidth | src/stores/canvasStore.ts:103 | sets the width and nothing else |
| Store.CanvasStore.SetElements | src/stores/canvasStore.ts:107 | replaces the elements wholesale, touching neither history nor selection |
| Store.CanvasStore.AddElement | src/stores/canvasStore.ts:108-109 | appends exactly one element at the end and keeps the existing prefix |
| Store.CanvasStore.UpdateElement | src/stores/canvasStore.ts:110-115 | the elements become the client merge of the patch; an absent id changes nothing |
| Store.CanvasStore.RemoveElement | src/stores/canvasStore.ts:116-121 | the elements lose every element with the id; the selection is cleared exactly when it was that id |
| Store.CanvasStore.ClearCanvas | src/stores/canvasStore.ts:122-125 | records exactly one snapshot of the old elements, then empties the elements and clears the selection |
| Store.CanvasStore.SetSelectedElementId | src/stores/canvasStore.ts:129 | sets the selection and nothing else |
| Store.CanvasStore.PushToHistory | src/stores/canvasStore.ts:134-140 | the history becomes the push of the current elements, stays well formed, and the elements are untouched |
| Store.CanvasStore.Undo | src/stores/canvasStore.ts:141-151 | when the index is above 0, it steps back, restores that snapshot and clears the selection; otherwise nothing changes |
| Store.CanvasStore.Redo | src/stores/canvasStore.ts:152-162 | when a later entry exists, it steps forward, restores that snapshot and clears the selection; otherwise nothing changes |
| Store.CanvasStore.CanUndo | src/stores/canvasStore.ts:163 | true exactly when the timeline can undo |
| Store.CanvasStore.CanRedo | src/stores/canvasStore.ts:164 | true exactly when the timeline can redo |
| Store.CanvasStore.SetUsers | src/stores/canvasStore.ts:168 | replaces the user list and nothing else |
| Store.CanvasStore.SetCursors | src/stores/canvasStore.ts:170 | replaces the cursor list and nothing else |
| Store.CanvasStore.UpdateCursor | src/stores/canvasStore.ts:171-182 | the cursors become the upsert; elements and history are untouched |
| Store.CanvasStore.RemoveCursor | src/stores/canvasStore.ts:183-186 | the cursors lose that id; elements and history are untouched |
| Store.CanvasStore.SetRoomId | src/stores/canvasStore.ts:192 | sets the room id |
| Store.CanvasStore.SetUserName | src/stores/canvasStore.ts:193 | sets the user name |
| Store.CanvasStore.SetUserId | src/stores/canvasStore.ts:194 | sets the user id |
| Server.RandomColor | server.ts:36-50 | any draw in [0, 1) picks one of the ten palette colours |
| Server.UserIndex | server.ts:79 | -1 exactly when no user has the id; otherwise a position holding that id (the key `set` overwrites) |
| Server.SetUser | server.ts:79 | keeps user ids unique and stores the user; a known id is overwritten at its own position with every other entry where it was, an unknown id is appended at the end; no other user is added or lost |
| Server.DeleteUser | server.ts:147 | afterwards no user has the id, every other user is kept, unique ids stay unique, and an absent id leaves the list as it was |
| Server.DeleteUserConcat | server.ts:147 | deleting distributes over concatenation, so the remaining users keep the map's insertion order |
| Server.SetThenDelete | server.ts:79-147 | a join followed by that connection's departure leaves the other users as they were |
| Server.WithRoom | server.ts:41-46 | the room id is present afterwards, an existing room is unchanged, a missing one is created empty, and every other room is kept |
| Server.WithRoomIdempotent | server.ts:41-46 | looking up a room twice changes nothing the first lookup did not |
| Server.Registry.constructor | server.ts:34 | the registry starts with no rooms and an empty outbox |
| Server.Registry.GetRoom | server.ts:41-46 | the rooms become the lazy creation of that id, and the returned room is the stored one |
| Server.Registry.Emit | server.ts:92 | appends one broadcast to the outbox |
| Server.Connection.constructor | server.ts:64-66 | a new connection has no room and no user |
| Server.Connection.JoinRoom | server.ts:68-93 | the user is stored under the connection id, online and with a palette colour, overwriting any earlier entry; the sender gets its id and then the elements and the full user list including itself; the others get the user list |
| Server.Connection.AddElement | server.ts:95-99 | the room gains exactly one element at the end, other rooms are untouched, and the element is relayed to everyone else in the room |
| Server.Connection.UpdateElement | server.ts:101-108 | the room's elements become the first-match merge (unchanged for an absent id), and the raw patch is relayed in both cases |
| Server.Connection.RemoveElement | server.ts:110-114 | the room loses every element with the id, order kept, and the removal is relayed |
| Server.Connection.ClearCanvas | server.ts:116-120 | the room's elements are emptied, its users kept, and the clear is relayed |
| Server.Connection.CursorMove | server.ts:122-132 | never changes a room; relays the cursor with the user's name and colour only when the connection has joined |
| Server.Connection.LeaveRoom | server.ts:134-136 | departs from the named room |
| Server.Connection.Disconnect | server.ts:138-142 | departs from the current room when one is set and non-empty; otherwise nothing changes |
| Server.Connection.HandleDisconnect | server.ts:144-157 | deletes only this connection's user, never creates or deletes a room, keeps the elements, broadcasts `user-left` then `users-updated` to the others only when the room exists, and resets the connection |
| Convergence.StepAgrees | server.ts:95-120 | on unique ids, one safe event has the same effect at the server and at a receiving client, and keeps the ids unique |
| Convergence.ReplayAgrees | src/hooks/useSocket.ts:42-56 | replaying the same safe event stream, the room and every peer that applies each relayed event end with equal element lists |
| Convergence.DuplicateIdsDiverge | server.ts:103-106 | adding the same element twice and updating it leaves server and client with different lists |
| Convergence.UpdateAfterRemove | server.ts:101-114 | an update that arrives after its element's removal changes nothing on either side |
| Sync.SocketSession.constructor | src/hooks/useSocket.ts:8 | a new session has sent nothing and is not listening |
| Sync.SocketSession.Start | src/hooks/useSocket.ts:23-31 | emits `join-room` and starts listening exactly when both the room id and the user name are non-empty |
| Sync.SocketSession.Cleanup | src/hooks/useSocket.ts:70-71 | emits `leave-room` for the joined room and stops listening |
| Sync.SocketSession.Receive | src/hooks/useSocket.ts:33-68 | no inbound event changes the history or emits anything; each event calls its raw store mutator with the payload (`canvas-cleared` empties the elements and keeps the selection) and leaves the other store fields unchanged |
| Sync.SocketSession.EmitAddElement | src/hooks/useSocket.ts:85-90 | sends one `add-element` carrying the store's room id |
| Sync.SocketSession.EmitUpdateElement | src/hooks/useSocket.ts:92-97 | sends one `update-element` carrying the store's room id |
| Sync.SocketSession.EmitRemoveElement | src/hooks/useSocket.ts:99-104 | sends one `remove-element` carrying the store's room id |
| Sync.SocketSession.EmitClearCanvas | src/hooks/useSocket.ts:106-108 | sends one `clear-canvas` carrying the store's room id |
| Sync.SocketSession.EmitCursorMove | src/hooks/useSocket.ts:110-115 | sends one `cursor-move` carrying the store's room id |
| Drawing.TextElement | src/components/canvas/WhiteboardCanvas.tsx:195-204 | the text element: the fresh id, type text, the current colour and width, no points, the entered text, placed at the pointer, no size and no sticky colour |
| Drawing.StrokeStart | src/components/canvas/WhiteboardCanvas.tsx:215-221 | the starting element: the fresh id, the tool as type, the current colour and width, the start point as its only point, and no optional field |
| Drawing.Gesture.constructor | src/components/canvas/WhiteboardCanvas.tsx:33-36 | no gesture is running initially |
| Drawing.Gesture.PointerDown | src/components/canvas/WhiteboardCanvas.tsx:170-226 | select and sticky change nothing; text with a non-empty entry records history once, appends a text element at the point with no points and sends it, and without an entry changes no element; either way the text gesture ends at once; every other tool records history once and appends an element of that tool with the start point, without sending it |
| Drawing.Gesture.PointerMove | src/components/canvas/WhiteboardCanvas.tsx:228-264 | always sends the cursor; changes elements only while drawing and while the element exists; a pen or eraser element then holds all samples so far in order, any other shape exactly the start and the current point; history is never touched |
| Drawing.Gesture.PointerUp | src/components/canvas/WhiteboardCanvas.tsx:266-278 | outside a gesture nothing happens; otherwise the gesture ends, the element is sent once if it still exists, and the samples are cleared; the store is never changed |
| Sticky.StickyNotes | src/components/canvas/StickyNote.tsx:19 | the overlay shows exactly the sticky elements |
| Sticky.StickyNotesAppend | src/components/canvas/StickyNote.tsx:19 | in list order: a new element is shown after all earlier notes, and only if it is a note |
| Sticky.StickyNotesAll | src/components/canvas/StickyNote.tsx:19 | the overlay shows the whole list exactly when every element is a note |
| Sticky.InitialText | src/components/canvas/StickyNote.tsx:54 | the editor starts from the note's text whenever it has one (an empty text stays empty), and from the empty string when it has none |
| Sticky.Origin | src/components/canvas/StickyNote.tsx:69 | a drag starts from the note's position, with 0 for a missing coordinate |
| Sticky.PositionPatch | src/components/canvas/StickyNote.tsx:85 | the end-of-drag patch carries exactly the `x` and `y` keys, both present even when undefined: merging it into any element sets those two fields to the element's read values and changes nothing else, so merging it into the element it was read from changes nothing |
| Sticky.TextPatch | src/components/canvas/StickyNote.tsx:108-109 | merging the blur patch sets the text and changes no other field |
| Sticky.StickyNoteView.constructor | src/components/canvas/StickyNote.tsx:53-57 | a note view starts outside editing and dragging, with the note's text |
| Sticky.StickyNoteView.MouseDown | src/components/canvas/StickyNote.tsx:60-69 | while editing nothing happens; otherwise a drag starts from the pointer and the note's position |
| Sticky.StickyNoteView.DragMove | src/components/canvas/StickyNote.tsx:71-79 | only while dragging, moves every element with the note's id to the given position; nothing is sent and history is untouched |
| Sticky.StickyNoteView.MouseUp | src/components/canvas/StickyNote.tsx:81-88 | the drag ends; if the note is still on the canvas, one `{x, y}` update is sent, taken from the first element with the note's id (as `find` returns it); otherwise nothing is sent |
| Sticky.StickyNoteView.DoubleClick | src/components/canvas/StickyNote.tsx:96-104 | enters editing and resets the text to the note's text or empty |
| Sticky.StickyNoteView.ChangeText | src/components/canvas/StickyNote.tsx:157 | the edited text becomes the typed value |
| Sticky.StickyNoteView.Blur | src/components/canvas/StickyNote.tsx:106-110 | leaves editing, sets the text of every element with the note's id, and sends the same patch, without recording history |
| Sticky.StickyNoteView.Delete | src/components/canvas/StickyNote.tsx:112-120 | records history once, removes the note (clearing a selection of it), then sends its removal |
| Shortcuts.ShortcutFor | src/hooks/useHistory.ts:11-22 | Ctrl or Meta with `z` asks for undo, with Shift for redo, and Ctrl or Meta with `y` for redo; any other key, or no modifier, asks for nothing |
| Shortcuts.HandleKeyDown | src/hooks/useHistory.ts:10-23 | the history takes exactly the step the shortcut asks for, guarded by its can-undo or can-redo check; at a boundary or for another key no state changes; a step that happens restores its snapshot and clears the selection |

## Left out

- Rendering is not modelled: the canvas redraw effect, the stroke outline geometry and the freehand library. These are floating-point drawing and foreign code.
- The transport is not modelled: the HTTP and socket.io servers, the client socket singleton, `connect`, `disconnectSocket` and `socket.off`. Events are appended to logs instead.
- socket.io room membership is not modelled. `ToOthers(room, sender)` names the intended recipients. `socket.join` and `socket.leave` are not modelled.
- Message timing and concurrency are not modelled. Each registry sees one serialized sequence of events.
- JSON serialisation is not modelled. On the wire a present-but-`undefined` key (`Put(None)`) is dropped, but the model relays the patch as given.
- The canvas-ref null guard in the pointer handlers is left out. The canvas is assumed mounted, so pointer positions arrive already in canvas coordinates.
- The text typed into the prompt is an input. So are the fresh element id (a random uuid) and the random draw for a user colour.
- Sticky.StickyNoteView.DragMove: the position is an input. The source computes it as the note's start plus the pointer offset divided by a zoom `scale`, in floating point, and the store does not declare `scale`.
- The rendered layout of a note is not modelled: its default size and colour, and the pan and zoom transform of the overlay.
- The element type at the server is a string. It is modelled with the client's tool type, so a client cannot send a type outside that set.
- Room eviction is not modelled because the source has none: an empty room stays in the registry.
- The UI chrome is not modelled: toolbar, sidebar, cursor overlay and pages.
