/** AggregateRoot: an auditable entity with a buffer of pending domain events. */
module AggregateRoots {
  import opened Common
  import opened Entities
  import opened AuditableEntities
  import Seqs

  /** A domain event, compared by reference (BaseDomainEvent does not override Equals). */
  class DomainEvent {
    const id: Guid
    const occurredAt: DateTime

    constructor(id: Guid, now: DateTime)
      ensures this.id == id && occurredAt == now
    {
      this.id := id;
      occurredAt := now;
    }
  }

  class AggregateRoot {
    const base: AuditableEntity
    var domainEvents: seq<DomainEvent>

    /** A new aggregate: no pending events. */
    constructor(id: Guid, now: DateTime)
      ensures fresh(base) && base.id == id && base.Info() == Initial(now)
      ensures domainEvents == []
    {
      base := new AuditableEntity(id, now);
      domainEvents := [];
    }

    /** DomainEvents: the pending events, in the order they were added. */
    function DomainEvents(): seq<DomainEvent>
      reads this
    {
      domainEvents
    }

    /** HasDomainEvents. */
    predicate HasDomainEvents()
      reads this
    {
      |domainEvents| > 0
    }

    /** AddDomainEvent: null is refused; otherwise the event is appended, even if already present. */
    method AddDomainEvent(domainEvent: DomainEvent?) returns (r: Outcome)
      modifies this`domainEvents
      ensures domainEvent == null ==> r == Fail(ArgumentNull("domainEvent")) && domainEvents == old(domainEvents)
      ensures domainEvent != null ==> r == Pass && domainEvents == old(domainEvents) + [domainEvent]
      ensures domainEvent != null ==> HasDomainEvents() && |domainEvents| == |old(domainEvents)| + 1
    {
      if domainEvent == null {
        return Fail(ArgumentNull("domainEvent"));
      }
      domainEvents := domainEvents + [domainEvent];
      r := Pass;
    }

    /** RemoveDomainEvent: null is refused; otherwise the first occurrence of the event is taken
        out, the others keep their order, and an absent event changes nothing. */
    method RemoveDomainEvent(domainEvent: DomainEvent?) returns (r: Outcome)
      modifies this`domainEvents
      ensures domainEvent == null ==> r == Fail(ArgumentNull("domainEvent")) && domainEvents == old(domainEvents)
      ensures domainEvent != null ==> r == Pass && domainEvents == Seqs.RemoveFirst(old(domainEvents), domainEvent)
      ensures domainEvent != null ==> multiset(domainEvents) == multiset(old(domainEvents)) - multiset{domainEvent}
      ensures domainEvent !in old(domainEvents) ==> domainEvents == old(domainEvents)
    {
      if domainEvent == null {
        return Fail(ArgumentNull("domainEvent"));
      }
      Seqs.RemoveFirstMultiset(domainEvents, domainEvent);
      domainEvents := Seqs.RemoveFirst(domainEvents, domainEvent);
      r := Pass;
    }

    /** ClearDomainEvents: no pending events remain. */
    method ClearDomainEvents()
      modifies this`domainEvents
      ensures domainEvents == [] && !HasDomainEvents()
    {
      domainEvents := [];
    }
  }

  /** Adding the same event twice keeps both copies; removing it once then leaves exactly one,
      at the end. */
  method AddTwiceRemoveOnce(root: AggregateRoot, e: DomainEvent)
    modifies root`domainEvents
    ensures |root.domainEvents| == |old(root.domainEvents)| + 1
    ensures e !in old(root.domainEvents) ==> root.domainEvents == old(root.domainEvents) + [e]
  {
    var r := root.AddDomainEvent(e);
    r := root.AddDomainEvent(e);
    assert root.domainEvents == old(root.domainEvents) + [e, e];
    r := root.RemoveDomainEvent(e);
    if e !in old(root.domainEvents) {
      var s := old(root.domainEvents);
      assert Seqs.IndexOf(s + [e, e], e) == |s|;
      assert Seqs.RemoveAt(s + [e, e], |s|) == s + [e];
    }
  }
}
