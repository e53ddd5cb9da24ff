/**
 The world as the sensors and behaviours see it. Entities are abstract ids; everything the
 core asks of the game (aliveness, the level an entity is in, its last damage source, the
 follow-range attribute, squared distances and the box query) is an uninterpreted function
 gathered in one `World` value, taken as it stands at the moment of the call.
 */
module Entities {
  import opened Wrappers

  type EntityId = nat

  /** Identity of a level (dimension); the source compares levels by reference. */
  type LevelId = nat

  /** A damage event: its kind and the entity held responsible (`getEntity()`), if any. */
  datatype DamageSource = DamageSource(kind: nat, causingEntity: Option<EntityId>)

  /** A radius triplet (`Vector3d`); components are only stored and passed on. */
  datatype Vec3 = Vec3(x: real, y: real, z: real)

  /** The derived structure published by the nearby-entity sensor: the owner and the sorted list. */
  datatype NearestVisibleEntities = NearestVisibleEntities(owner: EntityId, nearest: seq<EntityId>)

  datatype World = World(
    isLiving: EntityId -> bool,                   // instanceof LivingEntity
    isAlive: EntityId -> bool,
    levelOf: EntityId -> LevelId,
    lastDamageSource: EntityId -> Option<DamageSource>,
    followRange: EntityId -> real,                // getAttributeValue(FOLLOW_RANGE)
    distanceSqr: (EntityId, EntityId) -> nat,     // owner.distanceToSqr(other)
    entitiesInBox: (EntityId, Vec3) -> seq<EntityId> // entities in the owner's box inflated by a radius
  )
}
