/**
 A sensor that finds the living entities around its owner, keeps those its predicate
 accepts, sorts them by squared distance to the owner and publishes the sorted list under
 `LIVING_ENTITIES` and, wrapped, under `NEAREST_VISIBLE_LIVING_ENTITIES`.
 */
module NearbyLiving {
  import opened Wrappers
  import opened Entities
  import opened Memory

  /** The keys the sensor declares. */
  const MemoriesUsed: seq<MemoryKey> := [LivingEntities, NearestVisibleLivingEntities]

  /** Which candidates to keep: `(world, candidate, owner)`. */
  type TargetPredicate = (World, EntityId, EntityId) -> bool

  /** The default predicate: not the owner itself, and alive. */
  predicate NotSelfAndAlive(world: World, target: EntityId, owner: EntityId)
  {
    target != owner && world.isAlive(target)
  }

  /** The query's filter: a living entity that the predicate accepts. */
  predicate Keeps(world: World, accepts: TargetPredicate, owner: EntityId, x: EntityId)
  {
    world.isLiving(x) && accepts(world, x, owner)
  }

  /**
   The candidates the filter keeps, in query order. Each kept candidate occurs as often as in
   the query, and no other entity occurs at all.
   */
  function Filter(candidates: seq<EntityId>, world: World, accepts: TargetPredicate, owner: EntityId): (r: seq<EntityId>)
    ensures forall x :: multiset(r)[x] == if Keeps(world, accepts, owner, x) then multiset(candidates)[x] else 0
  {
    if candidates == [] then []
    else
      var rest := Filter(candidates[1..], world, accepts, owner);
      assert candidates == [candidates[0]] + candidates[1..];
      if Keeps(world, accepts, owner, candidates[0]) then [candidates[0]] + rest else rest
  }

  /** The radius of a tick: the configured one, or else the follow range on all three axes. */
  function EffectiveRadius(configured: Option<Vec3>, followRange: real): (r: Vec3)
    ensures configured.Some? ==> r == configured.value
    ensures configured.None? ==> r.x == followRange && r.y == followRange && r.z == followRange
  {
    match configured
    case Some(v) => v
    case None => Vec3(followRange, followRange, followRange)
  }

  /** Ascending by squared distance to the owner. */
  predicate SortedByDistance(s: seq<EntityId>, world: World, owner: EntityId)
  {
    forall i, j :: 0 <= i < j < |s| ==> world.distanceSqr(owner, s[i]) <= world.distanceSqr(owner, s[j])
  }

  /** What one tick must leave in memory `m`, starting from `m0`, for the filtered list `kept`. */
  ghost predicate Published(m0: Memory, m: Memory, world: World, owner: EntityId, kept: seq<EntityId>)
  {
    && LivingEntities in m
    && m[LivingEntities].expiry.None?
    && m[LivingEntities].value.EntityList?
    && (var list := m[LivingEntities].value.entities;
        && SortedByDistance(list, world, owner)
        && multiset(list) == multiset(kept)
        && NearestVisibleLivingEntities in m
        && m[NearestVisibleLivingEntities] == Entry(Visible(NearestVisibleEntities(owner, list)), None))
    && forall k :: k !in MemoriesUsed ==> EqualOnKey(m0, m, k)
  }

  /** The default predicate keeps neither the owner nor a dead entity, nor a non-living one. */
  lemma DefaultKeepsOthersAlive(candidates: seq<EntityId>, world: World, owner: EntityId)
    ensures var kept := Filter(candidates, world, NotSelfAndAlive, owner);
            && owner !in kept
            && forall x :: x in kept ==> x in candidates && world.isLiving(x) && world.isAlive(x)
  {
    var kept: seq<EntityId> := Filter(candidates, world, NotSelfAndAlive, owner);
    var counts: multiset<EntityId> := multiset(kept);
    assert counts[owner] == 0;
    forall x | x in kept
      ensures x in candidates && world.isLiving(x) && world.isAlive(x)
    {
      assert counts[x] > 0;
    }
  }

  /** Exchange `a[j - 1]` and `a[j]`, leaving every other element in place. */
  method SwapDown(a: array<EntityId>, j: nat)
    requires 0 < j < a.Length
    modifies a
    ensures a[j - 1] == old(a[j]) && a[j] == old(a[j - 1])
    ensures forall k :: 0 <= k < a.Length && k != j - 1 && k != j ==> a[k] == old(a[k])
    ensures multiset(a[..]) == old(multiset(a[..]))
  {
    a[j - 1], a[j] := a[j], a[j - 1];
  }

  /** Move `a[i]` down into the sorted prefix `a[..i]`, so that `a[..i + 1]` is sorted. */
  method InsertNext(a: array<EntityId>, i: nat, world: World, owner: EntityId)
    requires i < a.Length
    requires SortedByDistance(a[..i], world, owner)
    modifies a
    ensures SortedByDistance(a[..i + 1], world, owner)
    ensures forall k :: i < k < a.Length ==> a[k] == old(a[k])
    ensures multiset(a[..]) == old(multiset(a[..]))
  {
    var j := i;
    while j > 0 && world.distanceSqr(owner, a[j - 1]) > world.distanceSqr(owner, a[j])
      invariant 0 <= j <= i
      invariant forall p, q :: 0 <= p < q <= i && p != j && q != j ==>
                  world.distanceSqr(owner, a[p]) <= world.distanceSqr(owner, a[q])
      invariant forall q :: j < q <= i ==> world.distanceSqr(owner, a[j]) <= world.distanceSqr(owner, a[q])
      invariant forall k :: i < k < a.Length ==> a[k] == old(a[k])
      invariant multiset(a[..]) == old(multiset(a[..]))
    {
      SwapDown(a, j);
      j := j - 1;
    }
  }

  /** Sort `a` in place, ascending by squared distance to `owner` (insertion sort). */
  method SortInPlace(a: array<EntityId>, world: World, owner: EntityId)
    modifies a
    ensures SortedByDistance(a[..], world, owner)
    ensures multiset(a[..]) == old(multiset(a[..]))
  {
    var i := 0;
    while i < a.Length
      invariant 0 <= i <= a.Length
      invariant SortedByDistance(a[..i], world, owner)
      invariant multiset(a[..]) == old(multiset(a[..]))
    {
      InsertNext(a, i, world, owner);
      i := i + 1;
    }
    assert a[..a.Length] == a[..];
  }

  class NearbyLivingEntitySensor {
    var accepts: TargetPredicate
    /** The configured radius; `None` falls back to the follow-range attribute. */
    var radius: Option<Vec3>

    constructor ()
      ensures accepts == NotSelfAndAlive && radius == None
    {
      accepts := NotSelfAndAlive;
      radius := None;
    }

    /** Set the same radius on all three axes. */
    method SetRadius(r: real) returns (self: NearbyLivingEntitySensor)
      modifies this`radius
      ensures self == this && radius == Some(Vec3(r, r, r))
    {
      self := SetRadiusVector(Vec3(r, r, r));
    }

    /** Set the radius triplet as given. */
    method SetRadiusVector(v: Vec3) returns (self: NearbyLivingEntitySensor)
      modifies this`radius
      ensures self == this && radius == Some(v)
    {
      radius := Some(v);
      self := this;
    }

    method DoTick(world: World, entity: EntityId, brain: Brain)
      requires brain.Valid()
      modifies brain`memories
      ensures brain.Valid()
      ensures var r := EffectiveRadius(radius, world.followRange(entity));
              Published(old(brain.memories), brain.memories, world, entity,
                        Filter(world.entitiesInBox(entity, r), world, accepts, entity))
    {
      var r := EffectiveRadius(radius, world.followRange(entity));
      var kept := Filter(world.entitiesInBox(entity, r), world, accepts, entity);
      var entities := new EntityId[|kept|](i requires 0 <= i < |kept| => kept[i]);
      assert entities[..] == kept;
      SortInPlace(entities, world, entity);
      var sorted := entities[..];
      brain.SetMemory(LivingEntities, EntityList(sorted));
      brain.SetMemory(NearestVisibleLivingEntities, Visible(NearestVisibleEntities(entity, sorted)));
    }
  }
}
