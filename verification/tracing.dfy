/** The tracing id context of `hived/tracing.py`.

 The source keeps one `tracing_id` attribute per thread in a
 `threading.local`. Here that storage is an explicit map from an execution
 context to the id stored for it; a context with no entry is one where the
 attribute was never set. `uuid.uuid4()` is replaced by a draw the caller
 supplies: any non-empty string.
 */
module Tracing {
  import opened Outcomes

  /** Identifies an execution context (a thread in the source). */
  type ContextId = nat

  /** What `str(uuid.uuid4())` may return: never the empty string. */
  type Uuid = s: string | s != "" witness "0"

  /** The per-context storage behind `_local`. */
  datatype Store = Store(ids: map<ContextId, string>)

  /** A freshly started process: no context has set an id yet. */
  const Initial: Store := Store(map[])

  /** Python truthiness of an optional string id: `None` and `""` are falsy. */
  predicate Truthy(id: Option<string>) {
    id.Some? && id.value != ""
  }

  /** `generate_id()`: the string form of a fresh uuid, always truthy.
      `draw` is what `uuid.uuid4` yields; the id is exactly that string. */
  function GenerateId(draw: Uuid): (id: string)
    ensures id == draw
    ensures Truthy(Some(id))
  {
    draw
  }

  /** `get_id()`: the id stored for `ctx`, or `None` when none was set there. */
  function GetId(store: Store, ctx: ContextId): (r: Option<string>)
    ensures r.None? <==> ctx !in store.ids
  {
    if ctx in store.ids then Some(store.ids[ctx]) else None
  }

  /** The state after one `set_id` call, and whether it called `generate_id`. */
  datatype Assignment = Assignment(store: Store, generated: bool)

  /** `set_id(id_)`: stores `id_ or generate_id()` for the calling context.
      `draw` is what `generate_id` would return if it were called. */
  function SetId(store: Store, ctx: ContextId, id: Option<string>, draw: Uuid): (r: Assignment)
    // `or` short-circuits: the generator is consulted exactly for falsy ids
    ensures r.generated <==> !Truthy(id)
    // the stored id is never falsy
    ensures Truthy(GetId(r.store, ctx))
    ensures Truthy(id) ==> GetId(r.store, ctx) == id
    ensures !Truthy(id) ==> GetId(r.store, ctx) == Some(GenerateId(draw))
    // thread-local storage: no other context observes the call
    ensures forall c :: c != ctx ==> GetId(r.store, c) == GetId(store, c)
  {
    if Truthy(id) then Assignment(Store(store.ids[ctx := id.value]), false)
    else Assignment(Store(store.ids[ctx := GenerateId(draw)]), true)
  }

  /** Before any `set_id`, `get_id` answers `None` in every context. */
  lemma GetIdBeforeSet(ctx: ContextId)
    ensures GetId(Initial, ctx) == None
  {
  }

  /** Last call wins: a second `set_id` in the same context overrides the
      first, whatever the first stored. */
  lemma LastSetWins(store: Store, ctx: ContextId, first: Option<string>, second: Option<string>,
                    draw1: Uuid, draw2: Uuid)
    ensures var s1 := SetId(store, ctx, first, draw1).store;
            GetId(SetId(s1, ctx, second, draw2).store, ctx)
              == if Truthy(second) then second else Some(draw2)
  {
  }

  /** `set_id` calls in two different contexts do not interfere: each context
      reads back what it set itself, in either order. */
  lemma ContextsAreIsolated(store: Store, a: ContextId, b: ContextId, idA: Option<string>, idB: Option<string>,
                            drawA: Uuid, drawB: Uuid)
    requires a != b
    ensures var s := SetId(SetId(store, a, idA, drawA).store, b, idB, drawB).store;
            && GetId(s, a) == GetId(SetId(store, a, idA, drawA).store, a)
            && GetId(s, b) == GetId(SetId(store, b, idB, drawB).store, b)
  {
  }
}
