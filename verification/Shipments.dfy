/** The shipment lifecycle: a status that must agree with the log of accepted events. */
module Shipments {
  import opened Domain

  datatype ShipmentStatus = Planned | PickedUp | InTransit | Delayed | Delivered | Cancelled

  datatype EventType = PickUp | Transit | Delay | Delivery | Cancellation

  /** The transition table; `None` is an invalid event. */
  function StatusAfterEvent(current: ShipmentStatus, e: EventType): Option<ShipmentStatus> {
    match current
    case Planned =>
      (match e case PickUp => Some(PickedUp) case Delay => Some(Delayed) case Cancellation => Some(Cancelled)
               case _ => None)
    case PickedUp =>
      (match e case Transit => Some(InTransit) case Delay => Some(Delayed) case Delivery => Some(Delivered)
               case Cancellation => Some(Cancelled) case _ => None)
    case InTransit =>
      (match e case Delay => Some(Delayed) case Delivery => Some(Delivered) case Cancellation => Some(Cancelled)
               case _ => None)
    case Delayed =>
      (match e case Transit => Some(InTransit) case Delivery => Some(Delivered) case Cancellation => Some(Cancelled)
               case _ => None)
    case Delivered => None
    case Cancelled => None
  }

  datatype ShipmentEvent = ShipmentEvent(id: string, kind: EventType, occurredAt: Time, reason: Option<string>)

  datatype State = State(status: ShipmentStatus, shippedAt: Option<Time>, deliveredAt: Option<Time>,
                         events: seq<ShipmentEvent>)

  function NewShipment(shippedAt: Option<Time>): State {
    State(Planned, shippedAt, None, [])
  }

  predicate HasEvent(events: seq<ShipmentEvent>, id: string) {
    exists i :: 0 <= i < |events| && events[i].id == id
  }

  function AddEvent(s: State, e: ShipmentEvent): Result<State, ServiceError> {
    if HasEvent(s.events, e.id) then Err(Conflict)
    else
      match StatusAfterEvent(s.status, e.kind)
      case None => Err(Invalid)
      case Some(next) =>
        Ok(State(next,
                 if e.kind == PickUp && s.shippedAt.None? then Some(e.occurredAt) else s.shippedAt,
                 if e.kind == Delivery then Some(e.occurredAt) else s.deliveredAt,
                 s.events + [e]))
  }

  /** A shipment row, updated in place by each accepted event. */
  class Shipment {
    var status: ShipmentStatus
    var shippedAt: Option<Time>
    var deliveredAt: Option<Time>
    var events: seq<ShipmentEvent>

    ghost function View(): State
      reads this
    {
      State(status, shippedAt, deliveredAt, events)
    }

    constructor (shippedAt: Option<Time>)
      ensures View() == NewShipment(shippedAt)
    {
      status, this.shippedAt, deliveredAt, events := Planned, shippedAt, None, [];
    }

    method AddShipmentEvent(e: ShipmentEvent) returns (refused: Option<ServiceError>)
      modifies this
      ensures match AddEvent(old(View()), e)
              case Err(error) => refused == Some(error) && View() == old(View())
              case Ok(after) => refused == None && View() == after
    {
      if HasEvent(events, e.id) {
        return Some(Conflict);
      }
      var next := StatusAfterEvent(status, e.kind);
      if next.None? {
        return Some(Invalid);
      }
      status := next.value;
      if e.kind == PickUp && shippedAt.None? {
        shippedAt := Some(e.occurredAt);
      }
      if e.kind == Delivery {
        deliveredAt := Some(e.occurredAt);
      }
      events := events + [e];
      refused := None;
    }
  }

  /** The shipment after a run of offered events, accepted or refused. */
  function Run(s: State, offered: seq<ShipmentEvent>): State {
    if offered == [] then s
    else
      var before := Run(s, offered[..|offered| - 1]);
      var r := AddEvent(before, offered[|offered| - 1]);
      if r.Ok? then r.value else before
  }

  function StatusNamedBy(e: EventType): ShipmentStatus {
    match e
    case PickUp => PickedUp
    case Transit => InTransit
    case Delay => Delayed
    case Delivery => Delivered
    case Cancellation => Cancelled
  }

  /** The transition table folded over a log, from PLANNED; `None` when some event was invalid. */
  function FoldOf(events: seq<ShipmentEvent>): Option<ShipmentStatus> {
    if events == [] then Some(Planned)
    else
      match FoldOf(events[..|events| - 1])
      case None => None
      case Some(status) => StatusAfterEvent(status, events[|events| - 1].kind)
  }

  ghost predicate AtMostOne(events: seq<ShipmentEvent>, kind: EventType) {
    forall i, j :: 0 <= i < j < |events| && events[i].kind == kind ==> events[j].kind != kind
  }

  /** Ids are distinct, a pick-up comes first or not at all, a delivery or cancellation last or not at all. */
  ghost predicate InOrder(events: seq<ShipmentEvent>) {
    var n := |events|;
    && (forall i, j :: 0 <= i < j < n ==> events[i].id != events[j].id)
    && AtMostOne(events, PickUp) && AtMostOne(events, Delivery)
    && (forall i :: 0 <= i < n - 1 ==> events[i].kind != Delivery && events[i].kind != Cancellation)
    && (forall i :: 0 < i < n ==> events[i].kind != PickUp)
  }

  /** The row agrees with its log. `created` is the ship time given at creation. */
  ghost predicate LogAgreement(s: State, created: Option<Time>) {
    var n := |s.events|;
    && FoldOf(s.events) == Some(s.status)
    && s.status == (if n == 0 then Planned else StatusNamedBy(s.events[n - 1].kind))
    && InOrder(s.events)
    && s.deliveredAt == (if s.status == Delivered then Some(s.events[n - 1].occurredAt) else None)
    && s.shippedAt == (if created.Some? then created
                       else if n > 0 && s.events[0].kind == PickUp then Some(s.events[0].occurredAt)
                       else None)
  }

  lemma AcceptedKeepsOrder(events: seq<ShipmentEvent>, status: ShipmentStatus, e: ShipmentEvent)
    requires InOrder(events) && status == (if |events| == 0 then Planned else StatusNamedBy(events[|events| - 1].kind))
    requires !HasEvent(events, e.id) && StatusAfterEvent(status, e.kind).Some?
    ensures InOrder(events + [e])
  {
    forall i | 0 <= i < |events| ensures events[i].id != e.id {
      assert !HasEvent(events, e.id);
    }
    assert forall i :: 0 <= i < |events| ==> events[i].kind != Delivery;
    assert e.kind == PickUp ==> |events| == 0;
  }

  lemma AcceptedKeepsAgreement(s: State, created: Option<Time>, e: ShipmentEvent)
    requires LogAgreement(s, created) && AddEvent(s, e).Ok?
    ensures LogAgreement(AddEvent(s, e).value, created)
  {
    var t := AddEvent(s, e).value;
    assert t.events[..|t.events| - 1] == s.events;
    AcceptedKeepsOrder(s.events, s.status, e);
  }

  /** When an event may happen: a pick-up only at the start, transit only from a pick-up or a delay, a delay from
      anywhere on the way that is not one, a delivery once under way, a cancellation until the end. */
  predicate MayHappen(status: ShipmentStatus, kind: EventType) {
    match kind
    case PickUp => status == Planned
    case Transit => status == PickedUp || status == Delayed
    case Delay => status == Planned || status == PickedUp || status == InTransit
    case Delivery => status == PickedUp || status == InTransit || status == Delayed
    case Cancellation => status != Delivered && status != Cancelled
  }

  /** An event is accepted exactly when its id is new and it may happen; a repeated id conflicts, anything else is
      invalid. An accepted event names the status, is logged as it came, and sets no other time than its own. */
  lemma EventsExactly(s: State, e: ShipmentEvent)
    ensures var r, known := AddEvent(s, e), exists i :: 0 <= i < |s.events| && s.events[i].id == e.id;
            && (r.Ok? <==> !known && MayHappen(s.status, e.kind))
            && (r.Err? ==> r.error == if known then Conflict else Invalid)
            && (r.Ok? ==>
                  && r.value.status == StatusNamedBy(e.kind) && r.value.events == s.events + [e]
                  && r.value.deliveredAt == (if e.kind == Delivery then Some(e.occurredAt) else s.deliveredAt)
                  && r.value.shippedAt ==
                     if e.kind == PickUp && s.shippedAt == None then Some(e.occurredAt) else s.shippedAt)
  {
  }

  /** In any run of offered events the row agrees with its log: the status is the fold of the table over the
      accepted events and is named by the last of them, ids are distinct, a pick-up can only come first, and a
      delivery or cancellation only last. */
  lemma {:induction false} EveryRunAgrees(created: Option<Time>, offered: seq<ShipmentEvent>)
    ensures LogAgreement(Run(NewShipment(created), offered), created)
  {
    if offered != [] {
      EveryRunAgrees(created, offered[..|offered| - 1]);
      var before := Run(NewShipment(created), offered[..|offered| - 1]);
      if AddEvent(before, offered[|offered| - 1]).Ok? {
        AcceptedKeepsAgreement(before, created, offered[|offered| - 1]);
      }
    }
  }

  /** After a delivery or a cancellation nothing is accepted any more, and a ship time never changes once it
      is set, whatever is offered later. */
  lemma {:induction false} FinalAndStable(s: State, offered: seq<ShipmentEvent>)
    ensures s.status == Delivered || s.status == Cancelled ==> Run(s, offered) == s
    ensures s.shippedAt.Some? ==> Run(s, offered).shippedAt == s.shippedAt
    ensures s.events <= Run(s, offered).events
  {
    if offered != [] {
      FinalAndStable(s, offered[..|offered| - 1]);
    }
  }

  /** A shipment can be delivered without ever having a ship time, exactly when none was given at creation and
      the first accepted event is not a pick-up: the delay branch out of PLANNED skips it. */
  lemma DeliveredWithoutShipTime(created: Option<Time>, offered: seq<ShipmentEvent>)
    requires Run(NewShipment(created), offered).status == Delivered
    ensures var s := Run(NewShipment(created), offered);
            |s.events| > 0 && (s.shippedAt.None? <==> created.None? && s.events[0].kind == Delay)
  {
    EveryRunAgrees(created, offered);
    var s := Run(NewShipment(created), offered);
    FirstEvent(s.events);
  }

  /** Such a shipment: delayed from PLANNED, then delivered. */
  lemma DelayedThenDelivered(delay: ShipmentEvent, delivery: ShipmentEvent)
    requires delay.kind == Delay && delivery.kind == Delivery && delay.id != delivery.id
    ensures Run(NewShipment(None), [delay, delivery]) ==
            State(Delivered, None, Some(delivery.occurredAt), [delay, delivery])
  {
    assert [delay, delivery][..1] == [delay] && [delay][..0] == [];
    assert Run(NewShipment(None), [delay]) == State(Delayed, None, None, [delay]);
  }

  lemma {:induction false} FirstEvent(events: seq<ShipmentEvent>)
    requires FoldOf(events).Some? && |events| > 0
    ensures events[0].kind == PickUp || events[0].kind == Delay || (events[0].kind == Cancellation && |events| == 1)
  {
    if |events| > 1 {
      FirstEvent(events[..|events| - 1]);
      if |events| == 2 {
        assert events[..1][..0] == [];
      }
    } else {
      assert events[..0] == [];
    }
  }
}
