/** BaseEntity<TId>: identity-based equality, the == and != operators and the hash code. */
module Entities {
  import opened Common

  /** The concrete runtime type of an entity, as GetType() reports it. */
  datatype Kind = TodoListKind | TodoTaskKind | CommentKind | TagKind | TodoListShareKind

  /** An entity as its equality sees it: the object reference, its concrete type and its Id.
      The Id is `TId?`: None is a null id, possible only when TId is a reference type. */
  datatype Entity<TId(==)> = Entity(ref: object, kind: Kind, id: Option<TId>)

  /** A C# object handed to Equals(object?): null, something that is not a BaseEntity<TId>,
      or an entity. */
  datatype Obj<TId(==)> = Null | Foreign(ref: object) | AnEntity(entity: Entity<TId>)

  /** An entity not yet given an id. */
  predicate IsTransient<TId(==)>(e: Entity<TId>)
  {
    e.id.None?
  }

  /** With TId = Guid, `TId?` on an unconstrained type parameter is a plain Guid, which is never
      null: an entity built from a Guid id. */
  function FromGuid(ref: object, kind: Kind, id: Guid): (e: Entity<Guid>)
    ensures !IsTransient(e)
  {
    Entity(ref, kind, Some(id))
  }

  /** Equals(BaseEntity<TId>? other). */
  predicate Equals<TId(==)>(e: Entity<TId>, other: Option<Entity<TId>>)
  {
    if other.None? then false
    else if e.ref == other.value.ref then true
    else if e.kind != other.value.kind then false
    else if IsTransient(e) || IsTransient(other.value) then false
    else e.id == other.value.id
  }

  /** Equals(object? obj), which casts obj with `as BaseEntity<TId>`. */
  predicate EqualsObject<TId(==)>(e: Entity<TId>, obj: Obj<TId>)
  {
    Equals(e, if obj.AnEntity? then Some(obj.entity) else None)
  }

  /** operator ==. */
  predicate OpEquality<TId(==)>(left: Option<Entity<TId>>, right: Option<Entity<TId>>)
  {
    if left.None? && right.None? then true
    else if left.None? || right.None? then false
    else Equals(left.value, right)
  }

  /** operator !=. */
  predicate OpInequality<TId(==)>(left: Option<Entity<TId>>, right: Option<Entity<TId>>)
  {
    !OpEquality(left, right)
  }

  /** Guid.GetHashCode: the exclusive or of the four 32-bit words of the Guid. */
  function GuidHash(g: Guid): bv32
  {
    ((g ^ (g >> 32) ^ (g >> 64) ^ (g >> 96)) & 0xFFFF_FFFF) as bv32
  }

  /** GetHashCode of an entity with a Guid id: the id's hash. A transient entity hashes by
      reference, which is not modelled (None). */
  function HashCode(e: Entity<Guid>): (h: Option<bv32>)
    ensures h.Some? <==> !IsTransient(e)
  {
    if IsTransient(e) then None else Some(GuidHash(e.id.value))
  }

  /** Two views of entities taken at one moment: the same reference is the same object,
      so it has the same type and id. */
  predicate Coherent<TId(==)>(a: Entity<TId>, b: Entity<TId>)
  {
    a.ref == b.ref ==> a == b
  }

  /** The equality rules, case by case: null is never equal, the same reference always is,
      different types never are, a transient side is equal only by reference, and otherwise
      equality is id equality. */
  lemma EqualsCases<TId>(a: Entity<TId>, b: Entity<TId>)
    ensures !Equals(a, None)
    ensures Equals(a, Some(a))
    ensures a.ref != b.ref && a.kind != b.kind ==> !Equals(a, Some(b))
    ensures a.ref != b.ref && (IsTransient(a) || IsTransient(b)) ==> !Equals(a, Some(b))
    ensures a.ref != b.ref && a.kind == b.kind && !IsTransient(a) && !IsTransient(b) ==>
      (Equals(a, Some(b)) <==> a.id == b.id)
  {
  }

  /** For coherent views of entities that have ids, equality is exactly "same type and same id". */
  lemma EqualsIsTypeAndId<TId>(a: Entity<TId>, b: Entity<TId>)
    requires Coherent(a, b) && !IsTransient(a) && !IsTransient(b)
    ensures Equals(a, Some(b)) <==> a.kind == b.kind && a.id == b.id
  {
  }

  /** Equality of coherent views is an equivalence relation. */
  lemma EqualsIsEquivalence<TId>(a: Entity<TId>, b: Entity<TId>, c: Entity<TId>)
    requires Coherent(a, b) && Coherent(b, c) && Coherent(a, c)
    ensures Equals(a, Some(a))
    ensures Equals(a, Some(b)) <==> Equals(b, Some(a))
    ensures Equals(a, Some(b)) && Equals(b, Some(c)) ==> Equals(a, Some(c))
  {
  }

  /** Equal entities that have ids have equal hash codes. */
  lemma EqualsImpliesSameHash(a: Entity<Guid>, b: Entity<Guid>)
    requires Coherent(a, b) && !IsTransient(a) && !IsTransient(b)
    requires Equals(a, Some(b))
    ensures HashCode(a) == HashCode(b)
  {
  }

  /** Equals(object?) agrees with the typed overload on entities and is false on anything else. */
  lemma EqualsObjectAgrees<TId>(a: Entity<TId>, b: Entity<TId>, r: object)
    ensures EqualsObject(a, AnEntity(b)) == Equals(a, Some(b))
    ensures !EqualsObject(a, Null) && !EqualsObject(a, Foreign(r))
  {
  }

  /** The operators: null == null, null never equals an entity, otherwise Equals decides;
      != is the negation. */
  lemma OperatorCases<TId>(a: Entity<TId>, b: Entity<TId>)
    ensures OpEquality<TId>(None, None)
    ensures !OpEquality(Some(a), None) && !OpEquality(None, Some(a))
    ensures OpEquality(Some(a), Some(b)) == Equals(a, Some(b))
    ensures OpEquality(Some(a), Some(b)) == OpEquality(Some(b), Some(a))
    ensures OpInequality(Some(a), Some(b)) == !Equals(a, Some(b))
  {
  }

  /** The position of the first entity in es that equals e, or |es|: what List<T>.Remove
      looks for with an entity's Equals. */
  function IndexOfEqual<TId(==)>(es: seq<Entity<TId>>, e: Entity<TId>): (k: nat)
    ensures k <= |es|
    ensures k < |es| ==> Equals(es[k], Some(e))
    ensures forall i :: 0 <= i < k ==> !Equals(es[i], Some(e))
  {
    if es == [] then 0
    else if Equals(es[0], Some(e)) then 0
    else 1 + IndexOfEqual(es[1..], e)
  }
}
