/** How the room's authoritative elements and a peer's local elements evolve
    under the same stream of element deltas: the server applies each event
    in its handler, every other client applies the relayed event with its
    raw store mutator. */
module Convergence {
  import opened Canvas

  /** One element event as the server receives it and relays it. */
  datatype Delta =
    | Added(element: Element)
    | Updated(id: string, updates: Patch)
    | Removed(id: string)
    | Cleared

  /** The server handler's effect on the room's elements. */
  function AtServer(els: seq<Element>, d: Delta): seq<Element> {
    match d
    case Added(e) => els + [e]
    case Updated(id, p) => MergeFirst(els, id, p)
    case Removed(id) => RemoveById(els, id)
    case Cleared => []
  }

  /** The receiving client's effect on its local elements (`addElement`,
      `updateElement`, `removeElement`, `setElements([])`). */
  function AtClient(els: seq<Element>, d: Delta): seq<Element> {
    match d
    case Added(e) => els + [e]
    case Updated(id, p) => UpdateAll(els, id, p)
    case Removed(id) => RemoveById(els, id)
    case Cleared => []
  }

  function ServerReplay(els: seq<Element>, ds: seq<Delta>): seq<Element>
    decreases |ds|
  {
    if ds == [] then els else ServerReplay(AtServer(els, ds[0]), ds[1..])
  }

  function ClientReplay(els: seq<Element>, ds: seq<Delta>): seq<Element>
    decreases |ds|
  {
    if ds == [] then els else ClientReplay(AtClient(els, ds[0]), ds[1..])
  }

  /** The callers' side of the id contract: a new element brings an id not
      yet on the canvas, and no patch rewrites an id. */
  predicate Safe(els: seq<Element>, d: Delta) {
    match d
    case Added(e) => !HasId(els, e.id)
    case Updated(_, p) => p.id.Keep?
    case _ => true
  }

  predicate SafeTrace(els: seq<Element>, ds: seq<Delta>)
    decreases |ds|
  {
    ds == [] || (Safe(els, ds[0]) && SafeTrace(AtServer(els, ds[0]), ds[1..]))
  }

  /** One safe delta on a list with unique ids: both sides compute the same
      list, and ids stay unique. */
  lemma StepAgrees(els: seq<Element>, d: Delta)
    requires UniqueIds(els) && Safe(els, d)
    ensures AtServer(els, d) == AtClient(els, d)
    ensures UniqueIds(AtServer(els, d))
  {
    match d
    case Added(e) =>
      var r := els + [e];
      forall i, j | 0 <= i < j < |r| ensures r[i].id != r[j].id {
        if j == |els| {
          assert r[i] == els[i];
        }
      }
    case Updated(id, p) =>
      MergeFirstIsUpdateAll(els, id, p);
      UpdateKeepsUnique(els, id, p);
    case Removed(id) =>
      RemoveKeepsUnique(els, id);
    case Cleared =>
  }

  /** Replaying the same safe trace from the same unique-id state, the room
      and every peer that applies each relayed event end with equal element
      lists (local undo and redo are never relayed); in particular a late
      joiner's `room-state` snapshot equals what an earlier peer holds after
      applying every relayed event. */
  lemma {:induction false} ReplayAgrees(els: seq<Element>, ds: seq<Delta>)
    requires UniqueIds(els) && SafeTrace(els, ds)
    ensures ServerReplay(els, ds) == ClientReplay(els, ds)
    decreases |ds|
  {
    if ds != [] {
      StepAgrees(els, ds[0]);
      ReplayAgrees(AtServer(els, ds[0]), ds[1..]);
    }
  }

  /** Without the id contract the two sides drift apart: after adding the
      same element twice, one update changes both copies at the client but
      only the first at the server. */
  lemma DuplicateIdsDiverge(e: Element, p: Patch)
    requires Merge(e, p) != e
    ensures ServerReplay([], [Added(e), Added(e), Updated(e.id, p)])
         != ClientReplay([], [Added(e), Added(e), Updated(e.id, p)])
  {
    var ds := [Added(e), Added(e), Updated(e.id, p)];
    assert ds[1..] == [Added(e), Updated(e.id, p)] && ds[1..][1..] == [Updated(e.id, p)];
    var rest := [Updated(e.id, p)];
    assert ds[1..][1..] == rest && rest[1..] == [];
    assert [] + [e] == [e] && [e] + [e] == [e, e];
    MergeFirstDiffersOnDuplicates(e, p);
    calc {
      ServerReplay([], ds);
      ServerReplay([e], ds[1..]);
      ServerReplay([e, e], rest);
      ServerReplay(MergeFirst([e, e], e.id, p), []);
    }
    calc {
      ClientReplay([], ds);
      ClientReplay([e], ds[1..]);
      ClientReplay([e, e], rest);
      ClientReplay(UpdateAll([e, e], e.id, p), []);
    }
  }

  /** An update that arrives after the removal of its element changes
      nothing, on either side. */
  lemma UpdateAfterRemove(els: seq<Element>, id: string, p: Patch)
    ensures AtServer(AtServer(els, Removed(id)), Updated(id, p)) == AtServer(els, Removed(id))
    ensures AtClient(AtClient(els, Removed(id)), Updated(id, p)) == AtClient(els, Removed(id))
  {
  }
}
