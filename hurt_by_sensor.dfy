/**
 A sensor that records the agent's last damage source under `HURT_BY` and the entity that
 caused it under `HURT_BY_ENTITY`, clearing a recorded attacker that is no longer valid.
 */
module HurtBy {
  import opened Wrappers
  import opened Entities
  import opened Memory

  /** The keys the sensor declares. */
  const MemoriesUsed: seq<MemoryKey> := [HurtBy, HurtByEntity]

  /** Which damage sources the sensor reacts to, given the world and the agent. */
  type SourcePredicate = (World, DamageSource, EntityId) -> bool

  /** The default predicate accepts every source. */
  predicate AcceptAll(world: World, source: DamageSource, entity: EntityId)
  {
    true
  }

  /** An attacker worth recording: a living entity, alive, in the agent's level. */
  predicate ValidAttacker(world: World, entity: EntityId, attacker: EntityId)
  {
    world.isLiving(attacker) && world.isAlive(attacker) && world.levelOf(attacker) == world.levelOf(entity)
  }

  /** A recorded attacker to drop: dead, or in another level than the agent. */
  predicate Stale(world: World, entity: EntityId, attacker: EntityId)
  {
    !world.isAlive(attacker) || world.levelOf(attacker) != world.levelOf(entity)
  }

  /** The memory after one tick of the sensor, from memory `m` at tick `now`. */
  function AfterTick(accepts: SourcePredicate, world: World, entity: EntityId, m: Memory, now: int): (r: Memory)
    ensures forall k :: k !in MemoriesUsed ==> EqualOnKey(m, r, k)
  {
    match world.lastDamageSource(entity)
    case None => Erase(m, HurtBy)
    case Some(source) =>
      if accepts(world, source, entity) then
        var m1 := Store(m, HurtBy, Damage(source));
        match source.causingEntity
        case Some(attacker) =>
          if ValidAttacker(world, entity, attacker) then Store(m1, HurtByEntity, EntityRef(attacker)) else m1
        case None => m1
      else
        match Get(m, now, HurtByEntity)
        case Some(EntityRef(attacker)) =>
          if Stale(world, entity, attacker) then Erase(m, HurtByEntity) else m
        case _ => m
  }

  /** With no damage source, `HURT_BY` is cleared and `HURT_BY_ENTITY` is left as it was. */
  lemma NoSourceClearsHurtBy(accepts: SourcePredicate, world: World, entity: EntityId, m: Memory, now: int)
    requires world.lastDamageSource(entity).None?
    ensures var r := AfterTick(accepts, world, entity, m, now);
            HurtBy !in r && EqualOnKey(m, r, HurtByEntity)
  {
  }

  /**
   An accepted source is stored under `HURT_BY`; `HURT_BY_ENTITY` becomes its causing entity
   when that is a valid attacker, and otherwise is left as it was, not cleared.
   */
  lemma AcceptedSourceRecorded(accepts: SourcePredicate, world: World, entity: EntityId, m: Memory, now: int)
    requires world.lastDamageSource(entity).Some?
    requires accepts(world, world.lastDamageSource(entity).value, entity)
    ensures var source := world.lastDamageSource(entity).value;
            var r := AfterTick(accepts, world, entity, m, now);
            && HurtBy in r && r[HurtBy] == Entry(Damage(source), None)
            && if source.causingEntity.Some? && ValidAttacker(world, entity, source.causingEntity.value)
               then HurtByEntity in r && r[HurtByEntity] == Entry(EntityRef(source.causingEntity.value), None)
               else EqualOnKey(m, r, HurtByEntity)
  {
  }

  /**
   A rejected source leaves `HURT_BY` untouched; `HURT_BY_ENTITY` is cleared exactly when it
   is present and names a stale attacker, and is left as it was otherwise.
   */
  lemma RejectedSourceValidatesAttacker(accepts: SourcePredicate, world: World, entity: EntityId, m: Memory, now: int)
    requires WellTyped(m)
    requires world.lastDamageSource(entity).Some?
    requires !accepts(world, world.lastDamageSource(entity).value, entity)
    ensures var r := AfterTick(accepts, world, entity, m, now);
            && EqualOnKey(m, r, HurtBy)
            && (HurtByEntity !in r <==>
                  HurtByEntity !in m || (Present(m, now, HurtByEntity) && Stale(world, entity, m[HurtByEntity].value.id)))
            && (HurtByEntity in r ==> EqualOnKey(m, r, HurtByEntity))
  {
  }

  /**
   Under the default predicate every source is accepted, so the rejection branch never runs:
   the tick records the source, and gives the same memory as under any predicate that
   accepts it.
   */
  lemma DefaultAcceptsEverySource(p: SourcePredicate, world: World, entity: EntityId, m: Memory, now: int)
    requires world.lastDamageSource(entity).Some?
    requires p(world, world.lastDamageSource(entity).value, entity)
    ensures var r := AfterTick(AcceptAll, world, entity, m, now);
            && HurtBy in r && r[HurtBy] == Entry(Damage(world.lastDamageSource(entity).value), None)
            && r == AfterTick(p, world, entity, m, now)
  {
    AcceptedSourceRecorded(AcceptAll, world, entity, m, now);
  }

  /** A second tick in an unchanged world leaves the memory as the first one left it. */
  lemma TickIdempotent(accepts: SourcePredicate, world: World, entity: EntityId, m: Memory, now: int)
    ensures var once := AfterTick(accepts, world, entity, m, now);
            AfterTick(accepts, world, entity, once, now) == once
  {
  }

  /** A tick keeps every key with a value of its declared type. */
  lemma TickPreservesTyping(accepts: SourcePredicate, world: World, entity: EntityId, m: Memory, now: int)
    requires WellTyped(m)
    ensures WellTyped(AfterTick(accepts, world, entity, m, now))
  {
  }

  class HurtBySensor {
    var accepts: SourcePredicate

    constructor ()
      ensures accepts == AcceptAll
    {
      accepts := AcceptAll;
    }

    /** Replace the acceptance predicate (the generic predicate-sensor setter). */
    method SetPredicate(p: SourcePredicate) returns (self: HurtBySensor)
      modifies this`accepts
      ensures self == this && accepts == p
    {
      accepts := p;
      self := this;
    }

    method DoTick(world: World, entity: EntityId, brain: Brain)
      requires brain.Valid()
      modifies brain`memories
      ensures brain.Valid()
      ensures brain.memories == AfterTick(accepts, world, entity, old(brain.memories), brain.now)
    {
      var damageSource := world.lastDamageSource(entity);
      if damageSource.None? {
        brain.ClearMemory(HurtBy);
      } else if accepts(world, damageSource.value, entity) {
        brain.SetMemory(HurtBy, Damage(damageSource.value));
        var attacker := damageSource.value.causingEntity;
        if attacker.Some? && ValidAttacker(world, entity, attacker.value) {
          brain.SetMemory(HurtByEntity, EntityRef(attacker.value));
        }
      } else {
        // withMemory: inspect the recorded attacker only when one is present
        var recorded := brain.GetMemory(HurtByEntity);
        if recorded.Some? && recorded.value.EntityRef? && Stale(world, entity, recorded.value.id) {
          brain.ClearMemory(HurtByEntity);
        }
      }
    }
  }
}
