/**
 An agent's memory (its brain's blackboard): a map from memory keys to a value with an
 optional expiry tick. An entry counts as present while it exists and its expiry tick has
 not been reached; an entry written without expiry stays until it is cleared.
 */
module Memory {
  import opened Wrappers
  import opened Entities

  datatype MemoryKey =
    | AttackCoolingDown
    | AttackTarget
    | HurtBy
    | HurtByEntity
    | LivingEntities
    | NearestVisibleLivingEntities

  datatype MemoryValue =
    | Flag(flag: bool)
    | EntityRef(id: EntityId)
    | Damage(source: DamageSource)
    | EntityList(entities: seq<EntityId>)
    | Visible(visible: NearestVisibleEntities)

  datatype Entry = Entry(value: MemoryValue, expiry: Option<int>)

  type Memory = map<MemoryKey, Entry>

  /** The value type each key is declared with. */
  predicate Fits(k: MemoryKey, v: MemoryValue)
  {
    match k
    case AttackCoolingDown => v.Flag?
    case AttackTarget => v.EntityRef?
    case HurtBy => v.Damage?
    case HurtByEntity => v.EntityRef?
    case LivingEntities => v.EntityList?
    case NearestVisibleLivingEntities => v.Visible?
  }

  /** Every stored value has its key's type. */
  ghost predicate WellTyped(m: Memory)
  {
    forall k :: k in m ==> Fits(k, m[k].value)
  }

  /** The key holds a value that has not expired at tick `now`. */
  predicate Present(m: Memory, now: int, k: MemoryKey)
  {
    k in m && (m[k].expiry.None? || now < m[k].expiry.value)
  }

  /** Both maps agree on key `k`: both lack it, or both hold the same entry. */
  predicate EqualOnKey(m: Memory, m': Memory, k: MemoryKey)
  {
    (k !in m && k !in m') || (k in m && k in m' && m[k] == m'[k])
  }

  function Get(m: Memory, now: int, k: MemoryKey): (r: Option<MemoryValue>)
    ensures r.Some? <==> Present(m, now, k)
    ensures r.Some? ==> r.value == m[k].value
  {
    if Present(m, now, k) then Some(m[k].value) else None
  }

  /** `setMemory`: write `v` under `k` with no expiry. */
  function Store(m: Memory, k: MemoryKey, v: MemoryValue): (r: Memory)
    ensures forall u :: Present(r, u, k) && Get(r, u, k) == Some(v)
    ensures forall j :: j != k ==> EqualOnKey(m, r, j)
  {
    m[k := Entry(v, None)]
  }

  /** `setForgettableMemory`: write `v` under `k` at tick `now`, to expire `ttl` ticks later. */
  function StoreFor(m: Memory, k: MemoryKey, v: MemoryValue, now: int, ttl: int): (r: Memory)
    ensures forall u :: Present(r, u, k) <==> u < now + ttl
    ensures forall u :: u < now + ttl ==> Get(r, u, k) == Some(v)
    ensures forall j :: j != k ==> EqualOnKey(m, r, j)
  {
    m[k := Entry(v, Some(now + ttl))]
  }

  /** `clearMemory`: remove the entry under `k`. */
  function Erase(m: Memory, k: MemoryKey): (r: Memory)
    ensures k !in r && forall u :: !Present(r, u, k)
    ensures forall j :: j != k ==> EqualOnKey(m, r, j)
  {
    m - {k}
  }

  /** `MemoryStatus`, restricted to the two statuses the core uses. */
  datatype MemoryStatus = ValuePresent | ValueAbsent

  /** One entry of a behaviour's memory-requirement list. */
  datatype Requirement = Requirement(key: MemoryKey, status: MemoryStatus)

  predicate Satisfies(m: Memory, now: int, r: Requirement)
  {
    match r.status
    case ValuePresent => Present(m, now, r.key)
    case ValueAbsent => !Present(m, now, r.key)
  }

  /** A requirement list is a conjunction. */
  predicate RequirementsMet(m: Memory, now: int, reqs: seq<Requirement>)
  {
    forall i :: 0 <= i < |reqs| ==> Satisfies(m, now, reqs[i])
  }

  /**
   An agent's brain: the memory map it owns and the current game tick, which decides what
   has expired. The brain's own ticking (dropping expired entries) is not modelled; presence
   is read off the expiry tick instead.
   */
  class Brain {
    var memories: Memory
    var now: int

    ghost predicate Valid()
      reads this
    {
      WellTyped(memories)
    }

    constructor (now: int)
      ensures Valid()
      ensures memories == map[] && this.now == now
    {
      memories := map[];
      this.now := now;
    }

    /** `hasMemory` */
    function Has(k: MemoryKey): bool
      reads this
    {
      Present(memories, now, k)
    }

    /** `getMemory` */
    function GetMemory(k: MemoryKey): Option<MemoryValue>
      reads this
    {
      Get(memories, now, k)
    }

    method SetMemory(k: MemoryKey, v: MemoryValue)
      requires Valid() && Fits(k, v)
      modifies this`memories
      ensures Valid()
      ensures memories == Store(old(memories), k, v)
    {
      memories := Store(memories, k, v);
    }

    method SetForgettableMemory(k: MemoryKey, v: MemoryValue, ttl: int)
      requires Valid() && Fits(k, v)
      modifies this`memories
      ensures Valid()
      ensures memories == StoreFor(old(memories), k, v, now, ttl)
    {
      memories := StoreFor(memories, k, v, now, ttl);
    }

    method ClearMemory(k: MemoryKey)
      requires Valid()
      modifies this`memories
      ensures Valid()
      ensures memories == Erase(old(memories), k)
    {
      memories := Erase(memories, k);
    }
  }
}
