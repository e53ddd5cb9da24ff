# SmartBrainLib sensors and cooldown attack — a Dafny model

This project models three units of SmartBrainLib, a library of AI building blocks for game
mobs. Each unit reads and writes its agent's brain memory, a blackboard keyed by memory
types:

- `ConditionlessAttack`: a delayed attack gated by the `ATTACK_COOLING_DOWN` memory. Its
  start check captures the entity's current target and, when a target is required, needs
  `ATTACK_TARGET`. Once the delay is up it runs its effect and sets the cooldown for a
  number of ticks that its interval supplier gives at that moment.
- `HurtBySensor`: mirrors the agent's last damage source into `HURT_BY` and the attacker into
  `HURT_BY_ENTITY`. When a source is rejected, it clears a recorded attacker that has died or
  left the agent's level.
- `NearbyLivingEntitySensor`: queries the entities in a box around the owner and keeps the
  living ones its predicate accepts. It sorts them by squared distance to the owner and
  publishes the sorted list under `LIVING_ENTITIES` and `NEAREST_VISIBLE_LIVING_ENTITIES`.

Layout, one module per file:

- `wrappers.dfy` (`Wrappers`): `Option`, the model of nullable references.
- `entities.dfy` (`Entities`): entity ids, damage sources, radius triplets. `World` gathers
  the game facts the core asks about as uninterpreted functions: aliveness, level, last
  damage source, follow range, squared distance and the box query.
- `memory.dfy` (`Memory`): memory keys and typed values. An entry has an optional absolute
  expiry tick, and "present" means it exists and has not expired. `Store`, `StoreFor` and
  `Erase` model `setMemory`, `setForgettableMemory` and `clearMemory`. The module also holds
  requirement lists and the `Brain` class, which owns the map as a mutable field.
- `conditionless_attack.dfy` (`Attack`): the class `ConditionlessAttack`, with its builders,
  start check, start gating and delayed action.
- `hurt_by_sensor.dfy` (`HurtBy`): the pure reference `AfterTick`, the lemmas about it, and
  the class `HurtBySensor` whose `DoTick` updates the brain in place.
- `nearby_living_entity_sensor.dfy` (`NearbyLiving`): the filter, the radius fallback and an
  in-place insertion sort on an array. The class `NearbyLivingEntitySensor` holds the radius
  field and `DoTick`.

Things supplied from outside the model become parameters:

- the `World` view;
- the current target that `BrainUtils.getTargetOfEntity` would return;
- the brain's current tick.

The effect callback is an `Effect` value, and each invocation is appended to the attack's
`fired` trace.

## Model

| member | source | states |
|---|---|---|
| `Memory.Get` | src/main/java/net/tslat/smartbrainlib/core/sensor/vanilla/HurtBySensor.java:47 | A value is returned exactly when the key is present (stored and not expired), and it is the stored value. |
| `Memory.Store` | src/main/java/net/tslat/smartbrainlib/core/sensor/vanilla/HurtBySensor.java:41 | `setMemory`: the key is present with the new value at every tick, and every other key is unchanged. |
| `Memory.StoreFor` | src/main/java/net/tslat/smartbrainlib/core/behaviour/custom/attack/ConditionlessAttack.java:87 | `setForgettableMemory` at tick `now` with TTL `t`: the key is present exactly on ticks before `now + t` and holds the value there. Other keys are unchanged. |
| `Memory.Erase` | src/main/java/net/tslat/smartbrainlib/core/sensor/vanilla/HurtBySensor.java:38 | `clearMemory`: the key is absent at every tick, and other keys are unchanged. |
| `Memory.Brain.SetMemory` | src/main/java/net/tslat/smartbrainlib/core/sensor/vanilla/HurtBySensor.java:41 | The brain's map becomes `Store` of the old map, and stays well typed. |
| `Memory.Brain.SetForgettableMemory` | src/main/java/net/tslat/smartbrainlib/core/behaviour/custom/attack/ConditionlessAttack.java:87 | The brain's map becomes `StoreFor` of the old map at the brain's current tick. |
| `Memory.Brain.ClearMemory` | src/main/java/net/tslat/smartbrainlib/core/sensor/vanilla/HurtBySensor.java:38 | The brain's map becomes `Erase` of the old map. |
| `Attack.RequirementsMeanNoCooldown` | src/main/java/net/tslat/smartbrainlib/core/behaviour/custom/attack/ConditionlessAttack.java:24 | The requirement list holds if and only if `ATTACK_COOLING_DOWN` is absent. |
| `Attack.CooldownBlocksRestart` | src/main/java/net/tslat/smartbrainlib/core/behaviour/custom/attack/ConditionlessAttack.java:86-87 | After the cooldown is set at `now` with TTL `t`, the requirements fail on every tick before `now + t` and hold from then on. |
| `Attack.ConditionlessAttack.constructor` | src/main/java/net/tslat/smartbrainlib/core/behaviour/custom/attack/ConditionlessAttack.java:26-35 | Defaults: the interval is a constant 20, no target is required, the effect is a no-op, no target is captured, and nothing has fired. |
| `Attack.ConditionlessAttack.AttackInterval` | src/main/java/net/tslat/smartbrainlib/core/behaviour/custom/attack/ConditionlessAttack.java:42-46 | Replaces only the interval supplier and returns the same instance. |
| `Attack.ConditionlessAttack.RequiresTarget` | src/main/java/net/tslat/smartbrainlib/core/behaviour/custom/attack/ConditionlessAttack.java:52-56 | Sets only the target flag, always to true, and returns the same instance. |
| `Attack.ConditionlessAttack.SetAttack` | src/main/java/net/tslat/smartbrainlib/core/behaviour/custom/attack/ConditionlessAttack.java:63-67 | Replaces only the effect and returns the same instance. |
| `Attack.ConditionlessAttack.CheckExtraStartConditions` | src/main/java/net/tslat/smartbrainlib/core/behaviour/custom/attack/ConditionlessAttack.java:75-79 | The target becomes the current target whatever the outcome. The check passes exactly when no target is required or `ATTACK_TARGET` is present. |
| `Attack.ConditionlessAttack.TryStart` | src/main/java/net/tslat/smartbrainlib/core/behaviour/custom/attack/ConditionlessAttack.java:70-79 | Starts exactly when the cooldown is absent and the extra check passes. The target is captured only when the requirements held, because the requirement check short-circuits. |
| `Attack.ConditionlessAttack.DoDelayedAction` | src/main/java/net/tslat/smartbrainlib/core/behaviour/custom/attack/ConditionlessAttack.java:82-88 | With a target required and none captured, neither the trace nor the memory changes. Otherwise the effect fires exactly once, and the cooldown is set to true with TTL equal to the supplier applied at this call. |
| `HurtBy.AfterTick` | src/main/java/net/tslat/smartbrainlib/core/sensor/vanilla/HurtBySensor.java:33-52 | A tick leaves every key other than `HURT_BY` and `HURT_BY_ENTITY` exactly as it was. |
| `HurtBy.NoSourceClearsHurtBy` | src/main/java/net/tslat/smartbrainlib/core/sensor/vanilla/HurtBySensor.java:37-39 | With no last damage source, `HURT_BY` is cleared and `HURT_BY_ENTITY` is left as it was. |
| `HurtBy.AcceptedSourceRecorded` | src/main/java/net/tslat/smartbrainlib/core/sensor/vanilla/HurtBySensor.java:40-44 | An accepted source is stored under `HURT_BY` without expiry. `HURT_BY_ENTITY` becomes the causing entity if it is living, alive and in the agent's level; otherwise it is left as it was. |
| `HurtBy.RejectedSourceValidatesAttacker` | src/main/java/net/tslat/smartbrainlib/core/sensor/vanilla/HurtBySensor.java:46-50 | A rejected source leaves `HURT_BY` untouched. `HURT_BY_ENTITY` is removed exactly when it is present and names an attacker that is dead or in another level; otherwise it is unchanged. |
| `HurtBy.DefaultAcceptsEverySource` | src/main/java/net/tslat/smartbrainlib/core/sensor/vanilla/HurtBySensor.java:23-25 | Under the default predicate, any damage source is recorded under `HURT_BY`. The tick gives the same memory as under any predicate that accepts the source, so the rejection branch is never taken. |
| `HurtBy.TickIdempotent` | src/main/java/net/tslat/smartbrainlib/core/sensor/vanilla/HurtBySensor.java:33-52 | A second tick in an unchanged world gives the memory the first tick gave. |
| `HurtBy.TickPreservesTyping` | src/main/java/net/tslat/smartbrainlib/core/sensor/vanilla/HurtBySensor.java:33-52 | A tick stores only values of each key's declared type. |
| `HurtBy.HurtBySensor.constructor` | src/main/java/net/tslat/smartbrainlib/core/sensor/vanilla/HurtBySensor.java:23-25 | The predicate starts as "accept every source". |
| `HurtBy.HurtBySensor.SetPredicate` | src/main/java/net/tslat/smartbrainlib/core/sensor/vanilla/HurtBySensor.java:20 | The inherited predicate setter replaces only the predicate and returns the same instance. |
| `HurtBy.HurtBySensor.DoTick` | src/main/java/net/tslat/smartbrainlib/core/sensor/vanilla/HurtBySensor.java:33-52 | The brain's memory becomes `AfterTick` of the old memory, built through the brain's set and clear calls. |
| `NearbyLiving.Filter` | src/main/java/net/tslat/smartbrainlib/core/sensor/vanilla/NearbyLivingEntitySensor.java:84 | Every living candidate the predicate accepts occurs exactly as often as the query returned it. No other entity occurs. |
| `NearbyLiving.DefaultKeepsOthersAlive` | src/main/java/net/tslat/smartbrainlib/core/sensor/vanilla/NearbyLivingEntitySensor.java:39 | Under the default predicate the owner is never kept. Everything kept came from the query and is living and alive. |
| `NearbyLiving.EffectiveRadius` | src/main/java/net/tslat/smartbrainlib/core/sensor/vanilla/NearbyLivingEntitySensor.java:76-82 | The configured radius if one is set, else the follow range on all three axes. |
| `NearbyLiving.SortInPlace` | src/main/java/net/tslat/smartbrainlib/core/sensor/vanilla/NearbyLivingEntitySensor.java:86 | The array ends sorted ascending by squared distance to the owner and is a permutation of its old contents. |
| `NearbyLiving.NearbyLivingEntitySensor.constructor` | src/main/java/net/tslat/smartbrainlib/core/sensor/vanilla/NearbyLivingEntitySensor.java:36-40 | The predicate starts as "not self and alive", and no radius is configured. |
| `NearbyLiving.NearbyLivingEntitySensor.SetRadius` | src/main/java/net/tslat/smartbrainlib/core/sensor/vanilla/NearbyLivingEntitySensor.java:48-50 | Stores `(r, r, r)` and returns the same instance. |
| `NearbyLiving.NearbyLivingEntitySensor.SetRadiusVector` | src/main/java/net/tslat/smartbrainlib/core/sensor/vanilla/NearbyLivingEntitySensor.java:58-62 | Stores the triplet unchanged and returns the same instance. |
| `NearbyLiving.NearbyLivingEntitySensor.DoTick` | src/main/java/net/tslat/smartbrainlib/core/sensor/vanilla/NearbyLivingEntitySensor.java:75-90 | `LIVING_ENTITIES` is set, without expiry, to a list sorted by distance that is a permutation of the filtered query at the effective radius. `NEAREST_VISIBLE_LIVING_ENTITIES` is that same list wrapped. No other key changes, and the radius field is not written. |

The declared key lists (`MemoriesUsed` in `HurtBy` and `NearbyLiving`,
HurtBySensor.java:21 and NearbyLivingEntitySensor.java:33) are constants. `AfterTick`'s
footprint clause and the last clause of `Published` state, in terms of those lists, that a
tick writes no key outside the ones its sensor declares.

## Left out

- Attack.ConditionlessAttack.TryStart: its start test does not include the user-supplied
  `startCondition` predicate. The class's documentation (ConditionlessAttack.java:19-20) calls
  that predicate the actual activation condition, but it and the base class's own cooldown
  belong to the behaviour base classes, which are not part of this model. With such a
  predicate set, the program starts in fewer cases than `TryStart` does.

- The countdown inside `DelayedBehaviour` and the start/stop scheduling of behaviours are not
  part of this model. `TryStart` models only the gating: first the memory requirements, then
  the extra start check. `DoDelayedAction` is called directly.
- `BrainUtils.getTargetOfEntity` is not part of this model. What it returns is the
  `currentTarget` parameter of the start check.
- The brain's own ticking, which drops expired entries, is left out. Presence is read off an
  absolute expiry tick: a TTL of `t` set at tick `now` expires at `now + t`.
- The effect callback's behaviour and the interval supplier's behaviour are left out. The
  effect is an `Effect` value recorded in a trace on each call. The supplier is an arbitrary
  function of the world view and the entity.
- Floating-point geometry is left out. Radii are stored `real` triplets, and the squared
  distance is an uninterpreted natural number. Inflating the bounding box and the box query
  (`EntityRetrievalUtil.getEntities`) form one uninterpreted function. Its filter is modelled
  as `Filter` applied to its result.
- `NearestVisibleLivingEntities` and its visibility tests are not part of this model. The
  value stored is an opaque wrapper of the owner and the sorted list.
- SortInPlace: proves sortedness and permutation but not stability. Java's `List.sort` is
  stable, so entities at equal distance keep their query order there; the model does not
  promise that.
- NearbyLiving.NearbyLivingEntitySensor.DoTick: for the same reason, its contract does not fix
  the order of entities at equal distance in the published list.
- The brain's handling of edge cases in `setMemory` is not part of this model. In the game,
  setting a memory to an empty collection may erase it, so `LIVING_ENTITIES` could be absent
  when nothing is kept; the model stores the empty list. A TTL of zero or less also keeps the
  value until the brain's next tick in the game; in the model the value is absent at once.
- Registry wiring (`type()`, `SBLSensors`, `SBLMemoryTypes`), `MemoryModuleType` identity and
  the unused level parameter are left out.
- `FreePositionTracker` is not part of this model: it only wraps a position.
- Each memory key's value type, which Java's generics enforce, is stated by `Fits`. It is a
  precondition of the brain's setters and an invariant of `Brain`.
