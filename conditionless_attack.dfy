/**
 A cooldown-gated delayed attack that needs neither line of sight nor proximity. It may
 start only while the attack-cooldown memory is absent; when its delay elapses it runs its
 effect once and sets the cooldown for a number of ticks given by the interval supplier,
 asked at that moment.
 */
module Attack {
  import opened Wrappers
  import opened Entities
  import opened Memory

  /** The only memory requirement: `ATTACK_COOLING_DOWN` must be absent. */
  const MemoryRequirements: seq<Requirement> := [Requirement(AttackCoolingDown, ValueAbsent)]

  /** The user-supplied attack callback; its own behaviour is not modelled. */
  datatype Effect = NoOp | Callback(id: nat)

  /** One invocation of the effect, on the given entity. */
  datatype Firing = Firing(effect: Effect, entity: EntityId)

  /** Time between attacks, as a function of the entity at the moment it is asked. */
  type IntervalSupplier = (World, EntityId) -> int

  /** The default interval supplier: 20 ticks. */
  function DefaultInterval(world: World, entity: EntityId): int
  {
    20
  }

  /** The requirement list holds exactly when the cooldown flag is absent. */
  lemma RequirementsMeanNoCooldown(m: Memory, now: int)
    ensures RequirementsMet(m, now, MemoryRequirements) <==> !Present(m, now, AttackCoolingDown)
  {
    assert MemoryRequirements[0] == Requirement(AttackCoolingDown, ValueAbsent);
  }

  /**
   After the cooldown is set at tick `now` for `ttl` ticks, the requirement list fails on every
   tick before `now + ttl` and holds again from that tick on, whatever else is in memory.
   */
  lemma CooldownBlocksRestart(m: Memory, now: int, ttl: int, u: int)
    ensures var m' := StoreFor(m, AttackCoolingDown, Flag(true), now, ttl);
            RequirementsMet(m', u, MemoryRequirements) <==> now + ttl <= u
  {
    RequirementsMeanNoCooldown(StoreFor(m, AttackCoolingDown, Flag(true), now, ttl), u);
  }

  class ConditionlessAttack {
    const delayTicks: int
    var attackInterval: IntervalSupplier
    var requireTarget: bool
    var effect: Effect
    /** The target captured by the last start check (`null` is `None`). */
    var target: Option<EntityId>
    /** Every invocation of the effect so far, oldest first. */
    var fired: seq<Firing>

    constructor (delayTicks: int)
      ensures this.delayTicks == delayTicks
      ensures attackInterval == DefaultInterval && !requireTarget && effect == NoOp
      ensures target == None && fired == []
    {
      this.delayTicks := delayTicks;
      attackInterval := DefaultInterval;
      requireTarget := false;
      effect := NoOp;
      target := None;
      fired := [];
    }

    /** Builder: set the time between attacks. */
    method AttackInterval(supplier: IntervalSupplier) returns (self: ConditionlessAttack)
      modifies this`attackInterval
      ensures self == this && attackInterval == supplier
    {
      attackInterval := supplier;
      self := this;
    }

    /** Builder: require an attack target before activating. The flag is only ever set. */
    method RequiresTarget() returns (self: ConditionlessAttack)
      modifies this`requireTarget
      ensures self == this && requireTarget
    {
      requireTarget := true;
      self := this;
    }

    /** Builder: set the callback run when the delay has elapsed. */
    method SetAttack(callback: Effect) returns (self: ConditionlessAttack)
      modifies this`effect
      ensures self == this && effect == callback
    {
      effect := callback;
      self := this;
    }

    /**
     The extra start check. It always captures the entity's current target (passed in, as
     `BrainUtils.getTargetOfEntity` would return it), and passes when no target is required
     or when `ATTACK_TARGET` is present.
     */
    method CheckExtraStartConditions(brain: Brain, currentTarget: Option<EntityId>) returns (ok: bool)
      modifies this`target
      ensures target == currentTarget
      ensures ok <==> !requireTarget || Present(brain.memories, brain.now, AttackTarget)
    {
      target := currentTarget;
      ok := !requireTarget || brain.Has(AttackTarget);
    }

    /**
     Start gating as the behaviour base class applies it: the memory requirements first, and
     only when they hold the extra start check (which captures the target).
     */
    method TryStart(brain: Brain, currentTarget: Option<EntityId>) returns (started: bool)
      modifies this`target
      ensures started <==> !Present(brain.memories, brain.now, AttackCoolingDown)
                           && (!requireTarget || Present(brain.memories, brain.now, AttackTarget))
      ensures target == if Present(brain.memories, brain.now, AttackCoolingDown)
                        then old(target) else currentTarget
    {
      RequirementsMeanNoCooldown(brain.memories, brain.now);
      started := false;
      if RequirementsMet(brain.memories, brain.now, MemoryRequirements) {
        started := CheckExtraStartConditions(brain, currentTarget);
      }
    }

    /**
     The action run once the delay has elapsed. With a target required and none captured it
     does nothing; otherwise it runs the effect once and sets `ATTACK_COOLING_DOWN` to true
     for as many ticks as the interval supplier gives now.
     */
    method DoDelayedAction(world: World, entity: EntityId, brain: Brain)
      requires brain.Valid()
      modifies this`fired, brain`memories
      ensures brain.Valid()
      ensures requireTarget && target.None? ==>
                fired == old(fired) && brain.memories == old(brain.memories)
      ensures !(requireTarget && target.None?) ==>
                && fired == old(fired) + [Firing(effect, entity)]
                && brain.memories == StoreFor(old(brain.memories), AttackCoolingDown, Flag(true),
                                              brain.now, attackInterval(world, entity))
    {
      if requireTarget && target.None? {
        return;
      }
      fired := fired + [Firing(effect, entity)];
      brain.SetForgettableMemory(AttackCoolingDown, Flag(true), attackInterval(world, entity));
    }
  }
}
