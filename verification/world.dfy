/** The part of the server's entity-component store that the interaction
    handler reads and writes, and the cube spawner that populates it. */
module World {
  import opened Wrappers

  /** Entity ids are allocated by the host; only their identity matters here. */
  type EntityId = nat

  /** An RGBA colour as the renderer's `color` component stores it. */
  datatype Rgba = Rgba(r: real, g: real, b: real, a: real)

  /** The marker colour written on a successful pickup: opaque green. */
  const Green: Rgba := Rgba(0.0, 1.0, 0.0, 1.0)

  /** The three components of an entity that matter to the resolver: the
      `holdable` tag (present or absent), the optional `color` and the
      optional `held_by` holder (the holding player's client entity). */
  datatype EntityRec = EntityRec(holdable: bool, color: Option<Rgba>, heldBy: Option<EntityId>)

  /** The entity table. An id that is not a key is not a live entity. */
  type World = map<EntityId, EntityRec>

  /** `has_component(e, holdable())`: false for an entity that does not exist. */
  predicate HasHoldable(w: World, e: EntityId) {
    e in w && w[e].holdable
  }

  /** An entity a pickup can take: holdable and not carrying a colour marker. */
  predicate Pickable(w: World, e: EntityId) {
    HasHoldable(w, e) && w[e].color.None?
  }

  /** Entity `e` is held by the player whose client entity is `p`. */
  predicate HeldBy(w: World, e: EntityId, p: EntityId) {
    e in w && w[e].heldBy == Some(p)
  }

  /** Player `p` holds at least one entity. */
  ghost predicate Holds(w: World, p: EntityId) {
    exists e :: HeldBy(w, e, p)
  }

  /** Player `p` holds at most one entity. */
  ghost predicate HoldsAtMostOne(w: World, p: EntityId) {
    forall e1, e2 :: HeldBy(w, e1, p) && HeldBy(w, e2, p) ==> e1 == e2
  }

  /** Every held entity carries a colour marker; this is what makes the
      colour check of a pickup protect the current holder. */
  ghost predicate HeldImpliesColoured(w: World) {
    forall e :: e in w && w[e].heldBy.Some? ==> w[e].color.Some?
  }

  /** Only holdable entities are ever held. */
  ghost predicate HeldImpliesHoldable(w: World) {
    forall e :: e in w && w[e].heldBy.Some? ==> w[e].holdable
  }

  /** The invariant every reachable world satisfies. */
  ghost predicate Valid(w: World) {
    HeldImpliesColoured(w) && HeldImpliesHoldable(w)
  }

  /** No entity has a holder, as in a freshly built scene. */
  ghost predicate NoneHeld(w: World) {
    forall e :: e in w ==> w[e].heldBy.None?
  }

  /** `w'` has the same entities as `w` and differs from it at most at `e`. */
  ghost predicate AgreeExcept(w: World, w': World, e: EntityId) {
    w'.Keys == w.Keys && forall id :: id in w && id != e ==> w'[id] == w[id]
  }

  /** The number of holdable cubes the scene builder spawns. */
  const CubeCount: nat := 30

  /** A cube as the scene builder spawns it: holdable, no colour, no holder. */
  const SpawnedCube: EntityRec := EntityRec(true, None, None)

  /** A world grown from `w` only by spawned cubes keeps the invariant and
      keeps having no holders. */
  lemma AddedCubesKeepInvariant(w: World, w': World)
    requires forall e :: e in w' ==> w'[e] == SpawnedCube || (e in w && w'[e] == w[e])
    ensures Valid(w) ==> Valid(w')
    ensures NoneHeld(w) ==> NoneHeld(w')
  {
  }

  /** The ids listed in `ids`, as a set. */
  function IdSet(ids: seq<EntityId>): (s: set<EntityId>)
    ensures forall e :: e in s <==> e in ids
  {
    set i | 0 <= i < |ids| :: ids[i]
  }

  /** The ids in `ids` are pairwise different. */
  ghost predicate Distinct(ids: seq<EntityId>) {
    forall i, j :: 0 <= i < j < |ids| ==> ids[i] != ids[j]
  }

  /** A sequence of pairwise different ids lists as many ids as it has
      elements. */
  lemma {:induction false} DistinctIdCount(ids: seq<EntityId>)
    requires Distinct(ids)
    ensures |IdSet(ids)| == |ids|
    decreases |ids|
  {
    if ids != [] {
      var last := |ids| - 1;
      var prefix := ids[..last];
      DistinctIdCount(prefix);
      assert IdSet(ids) == IdSet(prefix) + {ids[last]};
      assert ids[last] !in IdSet(prefix);
    }
  }

  /** Spawns one cube under each id of `ids`. */
  function SpawnCubes(w: World, ids: seq<EntityId>): (w': World)
    requires forall i :: 0 <= i < |ids| ==> ids[i] !in w
    ensures forall e :: e in w' <==> e in w || e in ids
    ensures forall e :: e in w ==> w'[e] == w[e]
    ensures forall e :: e in ids ==> w'[e] == SpawnedCube
  {
    map e | e in w.Keys + IdSet(ids) :: if e in w then w[e] else SpawnedCube
  }

  /** Spawning pairwise different fresh ids adds exactly that many entities. */
  lemma SpawnCubesCount(w: World, ids: seq<EntityId>)
    requires Distinct(ids)
    requires forall i :: 0 <= i < |ids| ==> ids[i] !in w
    ensures |SpawnCubes(w, ids)| == |w| + |ids|
  {
    DistinctIdCount(ids);
    assert SpawnCubes(w, ids).Keys == w.Keys + IdSet(ids);
    assert w.Keys !! IdSet(ids);
  }

  /** The scene's holdable cubes, spawned under the host-allocated ids `ids`
      (one per iteration of the spawning loop). Positions, colliders and the
      cube mesh are not part of the model. */
  method BuildRandomCubes(w: World, ids: seq<EntityId>) returns (w': World)
    requires |ids| == CubeCount
    requires Distinct(ids)
    requires forall i :: 0 <= i < |ids| ==> ids[i] !in w
    ensures forall e :: e in w' <==> e in w || e in ids
    ensures |w'| == |w| + CubeCount
    ensures forall e :: e in w ==> w'[e] == w[e]
    ensures forall i :: 0 <= i < |ids| ==> Pickable(w', ids[i]) && w'[ids[i]].heldBy.None?
    ensures Valid(w) ==> Valid(w')
    ensures NoneHeld(w) ==> NoneHeld(w')
  {
    w' := SpawnCubes(w, ids);
    SpawnCubesCount(w, ids);
    AddedCubesKeepInvariant(w, w');
  }

  /** A world where nothing is held satisfies the invariant. */
  lemma NoneHeldIsValid(w: World)
    requires NoneHeld(w)
    ensures Valid(w)
    ensures forall p :: !Holds(w, p)
  {
  }
}
