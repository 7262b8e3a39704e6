/** The shared element model: canvas elements, partial updates ("patches")
    and the element-list operations the client store and the room server
    apply to them. Coordinates and widths are modelled as integers. */
module Canvas {
  import Seqs

  datatype Option<T> = None | Some(value: T)

  /** One field of a partial update: `Keep` when the key is absent from the
      patch, `Put(v)` when the patch carries the key with value `v`. For the
      element's optional fields `v` is itself an `Option`, because a patch
      may carry a key whose value is `undefined`, which the object spread
      copies over the old value. */
  datatype Upd<T> = Keep | Put(value: T)

  datatype Point = Point(x: int, y: int)

  /** The client's tool set; `Select` is never stored in an element. */
  datatype Tool = Pen | Line | Rectangle | Circle | Eraser | Text | Select | Sticky

  /** A canvas element; `kind` is the source's `type` field. */
  datatype Element = Element(
    id: string,
    kind: Tool,
    points: seq<Point>,
    color: string,
    strokeWidth: int,
    text: Option<string>,
    width: Option<int>,
    height: Option<int>,
    x: Option<int>,
    y: Option<int>,
    stickyColor: Option<string>)

  /** A `Partial<CanvasElement>`: every field may be present or absent. */
  datatype Patch = Patch(
    id: Upd<string>,
    kind: Upd<Tool>,
    points: Upd<seq<Point>>,
    color: Upd<string>,
    strokeWidth: Upd<int>,
    text: Upd<Option<string>>,
    width: Upd<Option<int>>,
    height: Upd<Option<int>>,
    x: Upd<Option<int>>,
    y: Upd<Option<int>>,
    stickyColor: Upd<Option<string>>)

  datatype User = User(id: string, name: string, color: string, isOnline: bool)

  datatype RemoteCursor = RemoteCursor(id: string, name: string, color: string, x: int, y: int)

  /** The patch with no keys. */
  const EmptyPatch := Patch(Keep, Keep, Keep, Keep, Keep, Keep, Keep, Keep, Keep, Keep, Keep)

  function Pick<T>(u: Upd<T>, current: T): T {
    if u.Put? then u.value else current
  }

  /** `after` is what a spread leaves in one field: the patch's value when
      the key is present, the old value `before` otherwise. */
  predicate Overrides<T(==)>(u: Upd<T>, before: T, after: T) {
    match u
    case Keep => after == before
    case Put(v) => after == v
  }

  /** `{ ...e, ...p }`: every key present in the patch overrides the element's
      field, every absent key keeps it. */
  function Merge(e: Element, p: Patch): (r: Element)
    ensures Overrides(p.id, e.id, r.id) && Overrides(p.kind, e.kind, r.kind)
    ensures Overrides(p.points, e.points, r.points) && Overrides(p.color, e.color, r.color)
    ensures Overrides(p.strokeWidth, e.strokeWidth, r.strokeWidth) && Overrides(p.text, e.text, r.text)
    ensures Overrides(p.width, e.width, r.width) && Overrides(p.height, e.height, r.height)
    ensures Overrides(p.x, e.x, r.x) && Overrides(p.y, e.y, r.y)
    ensures Overrides(p.stickyColor, e.stickyColor, r.stickyColor)
  {
    Element(
      Pick(p.id, e.id), Pick(p.kind, e.kind), Pick(p.points, e.points),
      Pick(p.color, e.color), Pick(p.strokeWidth, e.strokeWidth),
      Pick(p.text, e.text), Pick(p.width, e.width), Pick(p.height, e.height),
      Pick(p.x, e.x), Pick(p.y, e.y), Pick(p.stickyColor, e.stickyColor))
  }

  function Then<T>(first: Upd<T>, second: Upd<T>): Upd<T> {
    if second.Put? then second else first
  }

  /** The single patch `{ ...p, ...q }`. */
  function Compose(p: Patch, q: Patch): Patch {
    Patch(
      Then(p.id, q.id), Then(p.kind, q.kind), Then(p.points, q.points),
      Then(p.color, q.color), Then(p.strokeWidth, q.strokeWidth),
      Then(p.text, q.text), Then(p.width, q.width), Then(p.height, q.height),
      Then(p.x, q.x), Then(p.y, q.y), Then(p.stickyColor, q.stickyColor))
  }

  /** Merging the empty patch changes nothing. */
  lemma MergeEmpty(e: Element)
    ensures Merge(e, EmptyPatch) == e
  {
  }

  /** Two successive merges are one merge of the composed patch: the later
      patch wins key by key (last write wins). */
  lemma MergeCompose(e: Element, p: Patch, q: Patch)
    ensures Merge(Merge(e, p), q) == Merge(e, Compose(p, q))
  {
  }

  /** Merging the same patch twice is merging it once. */
  lemma MergeIdempotent(e: Element, p: Patch)
    ensures Merge(Merge(e, p), p) == Merge(e, p)
  {
  }

  /** A merge keeps the element's id exactly when the patch has no `id` key
      or carries the same id, and likewise for the type: the spread does not
      protect either field. */
  lemma MergeIdentity(e: Element, p: Patch)
    ensures Merge(e, p).id == e.id <==> p.id.Keep? || p.id.value == e.id
    ensures Merge(e, p).kind == e.kind <==> p.kind.Keep? || p.kind.value == e.kind
  {
  }

  /** A patch that carries a different `type` changes the element's type. */
  lemma PatchCanRetype(e: Element)
    requires e.kind != Sticky
    ensures Merge(e, EmptyPatch.(kind := Put(Sticky))).kind != e.kind
  {
  }

  // ---------------------------------------------------------------------
  // Element lists

  predicate HasId(els: seq<Element>, id: string) {
    exists i :: 0 <= i < |els| && els[i].id == id
  }

  function IdOf(e: Element): string {
    e.id
  }

  /** No two elements share an id. */
  predicate UniqueIds(els: seq<Element>) {
    Seqs.Distinct(els, IdOf)
  }

  /** `els.map(el => el.id === id ? { ...el, ...p } : el)`: the client store's
      update, which merges into every element with that id. */
  function UpdateAll(els: seq<Element>, id: string, p: Patch): (r: seq<Element>)
    ensures |r| == |els|
    ensures forall i :: 0 <= i < |els| && els[i].id == id ==> r[i] == Merge(els[i], p)
    ensures forall i :: 0 <= i < |els| && els[i].id != id ==> r[i] == els[i]
  {
    if els == [] then []
    else [if els[0].id == id then Merge(els[0], p) else els[0]] + UpdateAll(els[1..], id, p)
  }

  /** An update whose id matches no element leaves the list as it was. */
  lemma UpdateAbsent(els: seq<Element>, id: string, p: Patch)
    requires !HasId(els, id)
    ensures UpdateAll(els, id, p) == els
  {
  }

  /** After an update whose patch keeps ids, every element carrying the id
      already has the patch applied: merging it again changes nothing. */
  lemma UpdatedCarryPatch(els: seq<Element>, id: string, p: Patch)
    requires p.id.Keep?
    ensures forall e :: e in UpdateAll(els, id, p) && e.id == id ==> Merge(e, p) == e
  {
  }

  /** `els.findIndex(el => el.id === id)`: the first index holding that id. */
  function FindIndex(els: seq<Element>, id: string): (r: Option<nat>)
    ensures r.None? <==> !HasId(els, id)
    ensures r.Some? ==> r.value < |els| && els[r.value].id == id
    ensures r.Some? ==> forall j :: 0 <= j < r.value ==> els[j].id != id
  {
    if els == [] then None
    else if els[0].id == id then Some(0)
    else match FindIndex(els[1..], id)
      case None => None
      case Some(k) => Some(k + 1)
  }

  /** `els.find(el => el.id === id)`: the first element with that id. */
  function Find(els: seq<Element>, id: string): (r: Option<Element>)
    ensures r.None? <==> !HasId(els, id)
    ensures r.Some? ==> r.value.id == id && r.value in els
    ensures r.Some? ==> exists i :: FirstWithId(els, id, i) && r.value == els[i]
  {
    match FindIndex(els, id)
    case None => None
    case Some(i) => Some(els[i])
  }

  /** The room server's update: merges into the first element with that id
      only, and leaves the list alone when there is none. */
  function MergeFirst(els: seq<Element>, id: string, p: Patch): (r: seq<Element>)
    ensures |r| == |els|
    ensures !HasId(els, id) ==> r == els
    ensures HasId(els, id) ==>
      (exists i :: FirstWithId(els, id, i) && r == els[i := Merge(els[i], p)])
  {
    match FindIndex(els, id)
    case None => els
    case Some(i) => els[i := Merge(els[i], p)]
  }

  /** `i` is the first index of `els` holding `id`. */
  predicate FirstWithId(els: seq<Element>, id: string, i: int) {
    0 <= i < |els| && els[i].id == id && forall j :: 0 <= j < i ==> els[j].id != id
  }

  /** `els.filter(el => el.id !== id)`, used by both sides. */
  function RemoveById(els: seq<Element>, id: string): (r: seq<Element>)
    ensures !HasId(r, id)
    ensures forall e :: e in r <==> e in els && e.id != id
    ensures r == els <==> !HasId(els, id)
  {
    var r := Seqs.Filter(els, (e: Element) => e.id != id);
    Seqs.FilterIdentity(els, (e: Element) => e.id != id);
    assert forall i :: 0 <= i < |r| ==> r[i] in r;
    r
  }

  /** Removal keeps the relative order of the survivors: removing from a
      concatenation is concatenating the removals. */
  lemma RemoveByIdConcat(a: seq<Element>, b: seq<Element>, id: string)
    ensures RemoveById(a + b, id) == RemoveById(a, id) + RemoveById(b, id)
  {
    Seqs.FilterConcat(a, b, (e: Element) => e.id != id);
  }

  /** When ids are unique the server's first-match merge and the client's
      every-match merge agree. */
  lemma MergeFirstIsUpdateAll(els: seq<Element>, id: string, p: Patch)
    requires UniqueIds(els)
    ensures MergeFirst(els, id, p) == UpdateAll(els, id, p)
  {
  }

  /** With a duplicated id the two merges differ: the server updates only
      the first copy, the client updates both. */
  lemma MergeFirstDiffersOnDuplicates(e: Element, p: Patch)
    requires Merge(e, p) != e
    ensures MergeFirst([e, e], e.id, p) == [Merge(e, p), e]
    ensures UpdateAll([e, e], e.id, p) == [Merge(e, p), Merge(e, p)]
    ensures MergeFirst([e, e], e.id, p) != UpdateAll([e, e], e.id, p)
  {
  }

  /** Updating with a patch that does not carry `id` keeps ids unique. */
  lemma UpdateKeepsUnique(els: seq<Element>, id: string, p: Patch)
    requires UniqueIds(els) && p.id.Keep?
    ensures UniqueIds(UpdateAll(els, id, p))
  {
  }

  /** Removing elements keeps ids unique. */
  lemma RemoveKeepsUnique(els: seq<Element>, id: string)
    requires UniqueIds(els)
    ensures UniqueIds(RemoveById(els, id))
  {
    Seqs.FilterKeepsDistinct(els, IdOf, (e: Element) => e.id != id);
  }
}
