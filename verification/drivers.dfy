/**
  A delivery driver (Repartidor): the list of receipts it has accepted, the
  index of the order it is serving, and the small state machine that takes
  it to a restaurant, makes it wait while the food is picked up, takes it to
  the house and makes it wait again while the food is handed over.

  The firmware looks the orders up by receipt (buscarPedido); here that
  lookup is a parameter returning, for a receipt, whether its order is
  already picked up and the access points of its restaurant and house.
 */
module Drivers {
  import opened Common
  import opened Geometry

  /** EstadoRepartidor */
  datatype DriverState =
    | Idle           // DESOCUPADO
    | ToRestaurant   // EN_CAMINO_A_RESTAURANTE
    | PickingUp      // RECOGIENDO
    | ToHouse        // EN_CAMINO_A_DESTINO
    | Delivering     // ENTREGANDO

  /** What the driver needs to know of an order it has accepted. */
  datatype Leg = Leg(pickedUp: bool, rest: int, restaurant: Pos, house: Pos)

  /** The destination of an idle driver. */
  const NoTarget: Pos := Pos(-1, -1)
  /** How long a pickup keeps the driver at the restaurant, in ms. */
  const PICKUP_MS: nat := 3000
  /** How long a hand-over keeps the driver at the house, in ms. */
  const HANDOVER_MS: nat := 2000
  /** desvioMaximoPermitido of every driver. */
  const MAX_DETOUR: int := 5

  /**
    Where a driver heads for an order: to the house once the order is picked
    up (phase 1), to the restaurant before (phase 0).
   */
  function CourseState(leg: Leg): (s: DriverState)
    ensures s == ToHouse || s == ToRestaurant
  {
    if leg.pickedUp then ToHouse else ToRestaurant
  }

  function CoursePhase(leg: Leg): (p: int)
    ensures p == 1 <==> leg.pickedUp
    ensures p == 0 <==> !leg.pickedUp
  {
    if leg.pickedUp then 1 else 0
  }

  function CourseTarget(leg: Leg): (t: Pos)
    ensures leg.pickedUp ==> t == leg.house
    ensures !leg.pickedUp ==> t == leg.restaurant
  {
    if leg.pickedUp then leg.house else leg.restaurant
  }

  /** Every order the lookup finds has its restaurant and house doors on the map. */
  ghost predicate LegsOnMap(lookup: string -> Option<Leg>, size: int) {
    forall r :: lookup(r).Some? ==> InGrid(lookup(r).value.restaurant, size) && InGrid(lookup(r).value.house, size)
  }

  /** The result of a driver's wait (the blocked branch of moverRepartidor). */
  datatype WaitOutcome =
    | Waiting                     // the wait is not over
    | Resumed                     // unblocked, but the current order was not found
    | PickedUp(receipt: string)   // the pickup of `receipt` is complete
    | Delivered(receipt: string)  // `receipt` has been handed over

  /**
    Everything of a driver that its operations change, as one value: the
    position, the accepted receipts, the current index, the route state and
    the counters. Each operation below is specified by what it makes of it.
   */
  datatype Snap = Snap(pos: Pos, held: seq<string>, current: int, state: DriverState, phase: int,
                       blocked: bool, waitUntil: int, enRoute: bool, target: Pos,
                       acceptedCount: int, rejectedCount: int, deliveredCount: int)

  /** The receipt the driver is serving, if it holds any. */
  function Serving(s: Snap): Option<string> {
    if 0 <= s.current < |s.held| then Some(s.held[s.current]) else None
  }

  /**
    Moving on once the order being served has left the list: the index
    wraps to 0 when it ran off the end, a found next order sets the course,
    a missing one leaves the course as it was, and an empty list leaves the
    driver idle with no destination.
   */
  function MovedOn(s: Snap, lookup: string -> Option<Leg>): Snap
    requires 0 <= s.current
  {
    if |s.held| == 0 then s.(state := Idle, enRoute := false, target := NoTarget, phase := 0)
    else
      var c := if s.current < |s.held| then s.current else 0;
      match lookup(s.held[c])
      case Some(leg) => s.(current := c, state := CourseState(leg), phase := CoursePhase(leg), target := CourseTarget(leg))
      case None => s.(current := c)
  }

  /**
    The driver part of a cancellation of the receipt at index `k`: the
    current order ends the wait (the wait tick going back to 0) and the
    driver moves on; an earlier order shifts the current index down by
    one; a later one only leaves the list.
   */
  function Removed(s: Snap, k: int, lookup: string -> Option<Leg>): Snap
    requires 0 <= k < |s.held| && 0 <= s.current
  {
    var rest := s.held[..k] + s.held[k + 1..];
    if k == s.current then
      MovedOn(s.(held := rest, blocked := false, waitUntil := if s.blocked then 0 else s.waitUntil), lookup)
    else if k < s.current then s.(held := rest, current := s.current - 1)
    else s.(held := rest)
  }

  /** The cancellation of `receipt`: its first slot goes as Removed says; an absent receipt changes nothing. */
  function Released(s: Snap, receipt: string, lookup: string -> Option<Leg>): Snap
    requires 0 <= s.current
  {
    var k := FirstIndex(s.held, receipt);
    if k < 0 then s else Removed(s, k, lookup)
  }

  /** The end of a hand-over: one more delivery, the current order leaves the list and the driver moves on. */
  function HandedOver(s: Snap, lookup: string -> Option<Leg>): Snap
    requires 0 <= s.current < |s.held|
  {
    MovedOn(s.(held := s.held[..s.current] + s.held[s.current + 1..], deliveredCount := s.deliveredCount + 1), lookup)
  }

  /**
    A driver taking `receipt` from a kitchen at `restaurant`: the receipt
    joins the end of its list and is counted; an idle driver starts at once
    for the restaurant with the first order current, in phase 0.
   */
  function AcceptedBy(s: Snap, receipt: string, restaurant: Pos): Snap {
    var t := s.(held := s.held + [receipt], acceptedCount := s.acceptedCount + 1);
    if s.state == Idle then t.(state := ToRestaurant, current := 0, target := restaurant, enRoute := true, phase := 0)
    else t
  }

  /** A driver declining an order: one more rejection and nothing else. */
  function Refused(s: Snap): Snap {
    s.(rejectedCount := s.rejectedCount + 1)
  }

  /** A driver in the confirmation round: declining if it was asked, untouched otherwise. */
  function Asked(s: Snap, asked: bool): Snap {
    if asked then Refused(s) else s
  }

  /**
    A driver after an order was offered round: declining once if it was
    asked and said no, then taking the order if it is the one chosen.
   */
  function AfterOffer(s: Snap, asked: bool, taken: bool, receipt: string, restaurant: Pos): Snap {
    var t := Asked(s, asked);
    if taken then AcceptedBy(t, receipt, restaurant) else t
  }

  /**
    A waiting driver at tick `now`: still waiting before the wait tick;
    afterwards unblocked and, when its current order is found, done with
    the pickup (off to the house, phase 1) or with the hand-over.
   */
  function AfterWait(s: Snap, now: int, lookup: string -> Option<Leg>): (Snap, WaitOutcome)
    requires 0 <= s.current && (|s.held| > 0 ==> s.current < |s.held|)
  {
    if now < s.waitUntil then (s, Waiting)
    else
      var u := s.(blocked := false);
      if |s.held| == 0 || lookup(s.held[s.current]).None? then (u, Resumed)
      else
        var receipt := s.held[s.current];
        if s.phase == 0 then (u.(state := ToHouse, target := lookup(receipt).value.house, phase := 1), PickedUp(receipt))
        else if s.phase == 1 then (HandedOver(u, lookup), Delivered(receipt))
        else (u, Resumed)
  }

  /**
    A driver en route taking `step` at tick `now`: on its destination, with
    its current order found, it starts the 3 s pickup or the 2 s hand-over.
   */
  function Advanced(s: Snap, step: Pos, now: int, lookup: string -> Option<Leg>): Snap
    requires IsTick(now) && 0 <= s.current && (|s.held| > 0 ==> s.current < |s.held|)
  {
    var t := s.(pos := step);
    if step == s.target && |s.held| > 0 && lookup(s.held[s.current]).Some? then
      if s.phase == 0 then t.(state := PickingUp, blocked := true, waitUntil := TickAdd(now, PICKUP_MS))
      else if s.phase == 1 then t.(state := Delivering, blocked := true, waitUntil := TickAdd(now, HANDOVER_MS))
      else t
    else t
  }

  /** The order after slot `k`, the first one when `k` was the last. */
  function NextAfter(held: seq<string>, k: int): string
    requires 0 <= k < |held|
  {
    if k + 1 < |held| then held[k + 1] else held[0]
  }

  /**
    Cancelling an order that is not the current one keeps the driver on
    the same order, on the same course and in the same wait: the index
    repair follows the shift of the list.
   */
  lemma RemovedKeepsServing(s: Snap, k: int, lookup: string -> Option<Leg>)
    requires 0 <= k < |s.held| && 0 <= s.current < |s.held| && k != s.current
    ensures var t := Removed(s, k, lookup);
            Serving(t) == Serving(s) && |t.held| == |s.held| - 1
            && t.state == s.state && t.phase == s.phase && t.target == s.target
            && t.blocked == s.blocked && t.waitUntil == s.waitUntil && t.pos == s.pos
  {
    var t := Removed(s, k, lookup);
    if k < s.current {
      assert t.held[t.current] == s.held[s.current];
    } else {
      assert t.held[t.current] == s.held[..k][s.current];
    }
  }

  /**
    Cancelling the current order ends any wait and puts the driver on the
    order that followed it (the first one when it was the last), on that
    order's course when it is found; with nothing left the driver is idle.
   */
  lemma RemovedServesNext(s: Snap, k: int, lookup: string -> Option<Leg>)
    requires 0 <= k < |s.held| && k == s.current
    ensures var t := Removed(s, k, lookup);
            !t.blocked && t.held == s.held[..k] + s.held[k + 1..] && t.pos == s.pos
            && (|s.held| == 1 ==> t.state == Idle && !t.enRoute && t.target == NoTarget && Serving(t).None?)
            && (|s.held| > 1 ==> Serving(t) == Some(NextAfter(s.held, k)))
            && (|s.held| > 1 && lookup(NextAfter(s.held, k)).Some? ==>
                  t.state == CourseState(lookup(NextAfter(s.held, k)).value)
                  && t.target == CourseTarget(lookup(NextAfter(s.held, k)).value))
  {
    var rest := s.held[..k] + s.held[k + 1..];
    if |s.held| > 1 {
      if k + 1 < |s.held| {
        assert rest[k] == s.held[k + 1];
      } else {
        assert rest[0] == s.held[0];
      }
    }
  }

  /**
    A hand-over counts one delivery and puts the driver on the order that
    followed the delivered one (the first one when it was the last), or
    leaves it idle when it was the only one.
   */
  lemma HandedOverServesNext(s: Snap, lookup: string -> Option<Leg>)
    requires 0 <= s.current < |s.held|
    ensures var t := HandedOver(s, lookup);
            t.deliveredCount == s.deliveredCount + 1 && |t.held| == |s.held| - 1 && t.pos == s.pos
            && (|s.held| == 1 ==> t.state == Idle && !t.enRoute && t.target == NoTarget)
            && (|s.held| > 1 ==> Serving(t) == Some(NextAfter(s.held, s.current)))
            && (|s.held| > 1 && lookup(NextAfter(s.held, s.current)).Some? ==>
                  t.state == CourseState(lookup(NextAfter(s.held, s.current)).value)
                  && t.target == CourseTarget(lookup(NextAfter(s.held, s.current)).value))
  {
    var k := s.current;
    var rest := s.held[..k] + s.held[k + 1..];
    if |s.held| > 1 {
      if k + 1 < |s.held| {
        assert rest[k] == s.held[k + 1];
      } else {
        assert rest[0] == s.held[0];
      }
    }
  }

  /** On the list of receipts a cancellation is the removal of the first occurrence; an absent receipt changes nothing. */
  lemma ReleasedHeld(s: Snap, receipt: string, lookup: string -> Option<Leg>)
    requires 0 <= s.current
    ensures Released(s, receipt, lookup).held == Without(s.held, receipt)
    ensures receipt !in s.held ==> Released(s, receipt, lookup) == s
  {
    var k := FirstIndex(s.held, receipt);
    if k < 0 {
      WithoutAbsent(s.held, receipt);
    } else {
      WithoutAt(s.held, receipt, k);
      var rest := s.held[..k] + s.held[k + 1..];
      if k == s.current {
        MovedOnKeepsList(s.(held := rest, blocked := false, waitUntil := if s.blocked then 0 else s.waitUntil), lookup);
      }
    }
  }

  /**
    What taking an order means for the course: an idle driver with an empty
    list now serves the new receipt and heads for its restaurant; a busy
    driver keeps serving what it served, on the same course; either way the
    list grows by that receipt alone and no position, wait or other count moves.
   */
  lemma AcceptedByServes(s: Snap, receipt: string, restaurant: Pos)
    ensures var r := AcceptedBy(s, receipt, restaurant);
            r.held == s.held + [receipt] && multiset(r.held) == multiset(s.held) + multiset{receipt}
            && r.acceptedCount == s.acceptedCount + 1 && r.rejectedCount == s.rejectedCount
            && r.deliveredCount == s.deliveredCount && r.pos == s.pos
            && r.blocked == s.blocked && r.waitUntil == s.waitUntil
    ensures s.state == Idle && s.held == [] ==>
              var r := AcceptedBy(s, receipt, restaurant);
              Serving(r) == Some(receipt) && r.state == ToRestaurant && r.target == restaurant && r.phase == 0 && r.enRoute
    ensures s.state != Idle && 0 <= s.current < |s.held| ==>
              var r := AcceptedBy(s, receipt, restaurant);
              Serving(r) == Serving(s) && r.state == s.state && r.target == s.target && r.phase == s.phase && r.enRoute == s.enRoute
  {
    var r := AcceptedBy(s, receipt, restaurant);
    assert r.held == s.held + [receipt];
  }

  /**
    What an offer round does to one driver: its list grows by the receipt
    exactly when it took the order, its refusals by one exactly when it was
    asked and said no; its position, wait and deliveries stay, and a driver
    neither asked nor chosen is untouched.
   */
  lemma AfterOfferEffects(s: Snap, asked: bool, taken: bool, receipt: string, restaurant: Pos)
    ensures var r := AfterOffer(s, asked, taken, receipt, restaurant);
            r.held == s.held + (if taken then [receipt] else [])
            && r.rejectedCount == s.rejectedCount + (if asked then 1 else 0)
            && r.acceptedCount == s.acceptedCount + (if taken then 1 else 0)
            && r.deliveredCount == s.deliveredCount && r.pos == s.pos
            && r.blocked == s.blocked && r.waitUntil == s.waitUntil
    ensures !asked && !taken ==> AfterOffer(s, asked, taken, receipt, restaurant) == s
  {
    var t := Asked(s, asked);
    AcceptedByServes(t, receipt, restaurant);
  }

  /** Moving on changes the course, the index and idleness, never the list. */
  lemma MovedOnKeepsList(s: Snap, lookup: string -> Option<Leg>)
    requires 0 <= s.current
    ensures MovedOn(s, lookup).held == s.held
  {
  }

  /**
    What a wait can end in: it goes on exactly before the wait tick, and
    then nothing changes; once over the driver is unblocked where it stands,
    and a found current order in phase 0 is collected (the driver now heads
    for the house), in phase 1 it is delivered (it leaves the list and is
    counted), and in any other case the driver only resumes.
   */
  lemma WaitOutcomes(s: Snap, now: int, lookup: string -> Option<Leg>)
    requires 0 <= s.current && (|s.held| > 0 ==> s.current < |s.held|)
    ensures var (t, r) := AfterWait(s, now, lookup);
            (r == Waiting <==> now < s.waitUntil) && (r == Waiting ==> t == s)
            && (r != Waiting ==> !t.blocked && t.pos == s.pos && t.acceptedCount == s.acceptedCount)
            && (r.PickedUp? <==>
                  now >= s.waitUntil && Serving(s).Some? && lookup(Serving(s).value).Some? && s.phase == 0)
            && (r.Delivered? <==>
                  now >= s.waitUntil && Serving(s).Some? && lookup(Serving(s).value).Some? && s.phase == 1)
            && (r.PickedUp? ==>
                  r.receipt == Serving(s).value && t.held == s.held && t.current == s.current
                  && t.state == ToHouse && t.phase == 1 && t.target == lookup(r.receipt).value.house)
            && (r.Delivered? ==>
                  r.receipt == Serving(s).value && t.deliveredCount == s.deliveredCount + 1
                  && t.held == s.held[..s.current] + s.held[s.current + 1..])
            && (r == Resumed ==> t == s.(blocked := false))
  {
    var (t, r) := AfterWait(s, now, lookup);
    if r.Delivered? {
      var u := s.(blocked := false);
      MovedOnKeepsList(u.(held := u.held[..u.current] + u.held[u.current + 1..], deliveredCount := u.deliveredCount + 1), lookup);
    }
  }

  /**
    Taking a step moves the driver and nothing else, unless it reaches its
    target with its current order found: then it stops there, blocked, in
    the pickup (phase 0) or hand-over (phase 1) wait. The list, the index,
    the target, the phase and the counters never change.
   */
  lemma AdvancedKeepsCourse(s: Snap, step: Pos, now: int, lookup: string -> Option<Leg>)
    requires IsTick(now) && 0 <= s.current && (|s.held| > 0 ==> s.current < |s.held|)
    ensures var t := Advanced(s, step, now, lookup);
            t.pos == step && t.held == s.held && t.current == s.current && t.target == s.target
            && t.phase == s.phase && t.enRoute == s.enRoute
            && t.acceptedCount == s.acceptedCount && t.rejectedCount == s.rejectedCount
            && t.deliveredCount == s.deliveredCount
            && (t.blocked != s.blocked ==> step == s.target && t.blocked)
            && (step != s.target || Serving(s).None? ==> t == s.(pos := step))
  {
  }

  /**
    A pickup takes exactly three seconds: a driver that reaches the
    restaurant with its order found waits until PICKUP_MS after arriving
    and, from then on, collects the order and heads for the house.
   */
  lemma PickupWaitsThreeSeconds(s: Snap, now: int, later: int, lookup: string -> Option<Leg>)
    requires IsTick(now) && 0 <= s.current < |s.held| && lookup(s.held[s.current]).Some? && s.phase == 0
    ensures var t := Advanced(s, s.target, now, lookup);
            t.blocked && t.state == PickingUp && t.pos == s.target
            && (AfterWait(t, later, lookup).1 == Waiting <==> later < TickAdd(now, PICKUP_MS))
            && (later >= TickAdd(now, PICKUP_MS) ==>
                  AfterWait(t, later, lookup).1 == PickedUp(s.held[s.current])
                  && AfterWait(t, later, lookup).0.state == ToHouse
                  && AfterWait(t, later, lookup).0.target == lookup(s.held[s.current]).value.house)
  {
  }

  /**
    A hand-over takes exactly two seconds: a driver that reaches the house
    with its order found waits until HANDOVER_MS after arriving and, from
    then on, delivers the order.
   */
  lemma HandoverWaitsTwoSeconds(s: Snap, now: int, later: int, lookup: string -> Option<Leg>)
    requires IsTick(now) && 0 <= s.current < |s.held| && lookup(s.held[s.current]).Some? && s.phase == 1
    ensures var t := Advanced(s, s.target, now, lookup);
            t.blocked && t.state == Delivering && t.pos == s.target
            && (AfterWait(t, later, lookup).1 == Waiting <==> later < TickAdd(now, HANDOVER_MS))
            && (later >= TickAdd(now, HANDOVER_MS) ==>
                  AfterWait(t, later, lookup) == (HandedOver(t.(blocked := false), lookup), Delivered(s.held[s.current])))
  {
  }

  class Driver {
    /** posxyUnificado */
    var pos: Pos
    /** pedidosAceptados: the first `num` slots are live, in acceptance order. */
    const slots: array<string>
    var num: int
    /** capacidadMaxima */
    const capacity: int
    /** indicePedidoActual: the order being served. */
    var current: int
    var state: DriverState
    /** fase: 0 while going for the food, 1 while taking it to the house. */
    var phase: int
    /** bloqueado / tiempoEspera: waiting at a door until the tick `waitUntil`. */
    var blocked: bool
    var waitUntil: int
    var enRoute: bool
    /** destino */
    var target: Pos
    /** pedidosAceptadosPorRR, pedidosRechazadosPorDesvio, pedidosEntregados */
    var acceptedCount: int
    var rejectedCount: int
    var deliveredCount: int

    /**
      The driver invariant: the list never exceeds the capacity, the current
      index points into it when it is not empty, a driver is idle exactly
      when its list is empty (and then has no destination), the phase agrees
      with the state, and only a driver at a door waits.
     */
    ghost predicate Valid()
      reads this
    {
      slots.Length == MAX_PEDIDOS_POR_REPARTIDOR && capacity == MAX_PEDIDOS_POR_REPARTIDOR
      && 0 <= num <= capacity
      && 0 <= current && (num == 0 ==> current == 0) && (num > 0 ==> current < num)
      && (state == Idle <==> num == 0)
      && (enRoute <==> num > 0)
      && (state == Idle ==> target == NoTarget && phase == 0)
      && ((state == ToRestaurant || state == PickingUp) ==> phase == 0)
      && ((state == ToHouse || state == Delivering) ==> phase == 1)
      && (blocked ==> state == PickingUp || state == Delivering)
      && IsTick(waitUntil)
    }

    /** The driver stands on the map of side `size` and, while en route, heads for a cell on it. */
    ghost predicate OnMap(size: int)
      reads this
    {
      InGrid(pos, size) && (enRoute ==> InGrid(target, size))
    }

    /** The accepted receipts, oldest first. */
    function Accepted(): (r: seq<string>)
      reads this, slots
      requires Valid()
      ensures |r| == num <= capacity
    {
      slots[..num]
    }

    /** The driver's changing state as one value. */
    ghost function Snapshot(): Snap
      reads this, slots
      requires 0 <= num <= slots.Length
    {
      Snap(pos, slots[..num], current, state, phase, blocked, waitUntil, enRoute, target,
           acceptedCount, rejectedCount, deliveredCount)
    }

    /** A driver placed at `pos` with no orders, as the map generator creates them. */
    constructor(pos: Pos)
      ensures Valid() && fresh(slots)
      ensures Accepted() == [] && state == Idle && !blocked && !enRoute
      ensures this.pos == pos && target == NoTarget && current == 0
      ensures acceptedCount == 0 && rejectedCount == 0 && deliveredCount == 0
    {
      this.pos := pos;
      slots := new string[MAX_PEDIDOS_POR_REPARTIDOR](_ => "");
      num := 0;
      capacity := MAX_PEDIDOS_POR_REPARTIDOR;
      current := 0;
      state := Idle;
      phase := 0;
      blocked := false;
      waitUntil := 0;
      enRoute := false;
      target := NoTarget;
      acceptedCount := 0;
      rejectedCount := 0;
      deliveredCount := 0;
    }

    /** Takes the route an order calls for. */
    method SetCourse(leg: Leg)
      modifies this
      ensures state == CourseState(leg) && phase == CoursePhase(leg) && target == CourseTarget(leg)
      ensures pos == old(pos) && num == old(num) && current == old(current)
      ensures blocked == old(blocked) && waitUntil == old(waitUntil) && enRoute == old(enRoute)
      ensures acceptedCount == old(acceptedCount) && rejectedCount == old(rejectedCount)
      ensures deliveredCount == old(deliveredCount)
      ensures 0 <= num <= slots.Length ==>
                Snapshot() == old(Snapshot().(state := CourseState(leg), phase := CoursePhase(leg), target := CourseTarget(leg)))
    {
      state, phase, target := CourseState(leg), CoursePhase(leg), CourseTarget(leg);
    }

    /** The driver has nothing left to do. */
    method GoIdle()
      modifies this
      ensures state == Idle && !enRoute && target == NoTarget && phase == 0
      ensures pos == old(pos) && num == old(num) && current == old(current)
      ensures blocked == old(blocked) && waitUntil == old(waitUntil)
      ensures acceptedCount == old(acceptedCount) && rejectedCount == old(rejectedCount)
      ensures deliveredCount == old(deliveredCount)
      ensures 0 <= num <= slots.Length ==>
                Snapshot() == old(Snapshot().(state := Idle, enRoute := false, target := NoTarget, phase := 0))
    {
      state, enRoute, target, phase := Idle, false, NoTarget, 0;
    }

    /** Drops the receipt at index `k`, closing the gap. */
    method Drop(k: int)
      requires Valid() && 0 <= k < num
      modifies this, slots
      ensures num == old(num) - 1
      ensures slots[..num] == old(Accepted())[..k] + old(Accepted())[k + 1..]
      ensures pos == old(pos) && current == old(current) && state == old(state) && phase == old(phase)
      ensures blocked == old(blocked) && waitUntil == old(waitUntil) && enRoute == old(enRoute)
      ensures target == old(target)
      ensures acceptedCount == old(acceptedCount) && rejectedCount == old(rejectedCount)
      ensures deliveredCount == old(deliveredCount)
      ensures Snapshot() == old(Snapshot().(held := Snapshot().held[..k] + Snapshot().held[k + 1..]))
    {
      RemoveAt(slots, num, k);
      num := num - 1;
    }

    /**
      Moves on after the current order has left the list: to the next order
      (the index wraps to 0 when it ran off the end), or to idleness when the
      list is empty. A next order that cannot be found leaves the course as
      it was.
     */
    method Continue(lookup: string -> Option<Leg>, ghost size: int)
      requires slots.Length == MAX_PEDIDOS_POR_REPARTIDOR && capacity == MAX_PEDIDOS_POR_REPARTIDOR
      requires 0 <= num < capacity && 0 <= current <= num && !blocked && IsTick(waitUntil)
      requires num > 0 ==> state != Idle && enRoute
      requires (state == ToRestaurant || state == PickingUp) ==> phase == 0
      requires (state == ToHouse || state == Delivering) ==> phase == 1
      requires OnMap(size) && LegsOnMap(lookup, size)
      modifies this
      ensures OnMap(size)
      ensures Valid()
      ensures Snapshot() == MovedOn(old(Snapshot()), lookup)
    {
      if num > 0 {
        if current >= num {
          current := 0;
        }
        var next := lookup(slots[current]);
        if next.Some? {
          SetCourse(next.value);
        }
      } else {
        GoIdle();
      }
    }

    /**
      Acceptance of an order (the append in asignarPedidoARepartidor): the
      receipt goes to the end of the list, and an idle driver sets off for
      the order's restaurant.
     */
    method Accept(receipt: string, restaurant: Pos, ghost size: int)
      requires Valid() && num < capacity
      requires OnMap(size) && InGrid(restaurant, size)
      modifies this, slots
      ensures OnMap(size)
      ensures Valid()
      ensures Accepted() == old(Accepted()) + [receipt]
      ensures acceptedCount == old(acceptedCount) + 1
      ensures old(state) == Idle ==>
                state == ToRestaurant && current == 0 && target == restaurant && phase == 0
      ensures old(state) != Idle ==>
                state == old(state) && current == old(current) && target == old(target) && phase == old(phase)
      ensures pos == old(pos) && blocked == old(blocked) && waitUntil == old(waitUntil)
      ensures rejectedCount == old(rejectedCount) && deliveredCount == old(deliveredCount)
      ensures Snapshot() == AcceptedBy(old(Snapshot()), receipt, restaurant)
    {
      slots[num] := receipt;
      num := num + 1;
      acceptedCount := acceptedCount + 1;
      if state == Idle {
        state := ToRestaurant;
        current := 0;
        target := restaurant;
        enRoute := true;
        phase := 0;
      }
    }

    /** A driver declining an order it was asked to take (pedidosRechazadosPorDesvio): only the refusal count moves. */
    method Decline()
      modifies this
      ensures rejectedCount == old(rejectedCount) + 1
      ensures pos == old(pos) && num == old(num) && current == old(current) && state == old(state)
      ensures phase == old(phase) && blocked == old(blocked) && waitUntil == old(waitUntil)
      ensures enRoute == old(enRoute) && target == old(target)
      ensures acceptedCount == old(acceptedCount) && deliveredCount == old(deliveredCount)
      ensures 0 <= num <= slots.Length ==> Snapshot() == Refused(old(Snapshot()))
    {
      rejectedCount := rejectedCount + 1;
    }

    /**
      The driver part of cancelarPedido, once the caller has checked that
      the driver is not handing an order over: the first slot holding the
      receipt is removed, if any, and `k` is where it was, or -1.
     */
    method Release(receipt: string, lookup: string -> Option<Leg>, ghost size: int) returns (k: int)
      requires Valid()
      requires OnMap(size) && LegsOnMap(lookup, size)
      modifies this, slots
      ensures OnMap(size)
      ensures Valid()
      ensures k == FirstIndex(old(Accepted()), receipt)
      ensures Snapshot() == Released(old(Snapshot()), receipt, lookup)
    {
      ghost var before := Snapshot();
      k := Find(receipt);
      if k >= 0 {
        FirstIndexAt(before.held, receipt, k);
        RemoveSlot(k, lookup, size);
      }
    }

    /** The first slot holding `receipt`, or -1. */
    method Find(receipt: string) returns (k: int)
      requires Valid()
      ensures -1 <= k < num
      ensures k == -1 <==> receipt !in Accepted()
      ensures k >= 0 ==> Accepted()[k] == receipt && receipt !in Accepted()[..k]
    {
      k := IndexOf(slots, num, receipt);
      if k >= 0 {
        ghost var held := slots[..num];
        assert held[k] == receipt && held[..k] == slots[..k];
      }
    }

    /**
      Removal of the receipt at index `k` on cancellation, with the repair of
      the current index and of the course.
     */
    method RemoveSlot(k: int, lookup: string -> Option<Leg>, ghost size: int)
      requires Valid() && 0 <= k < num
      requires OnMap(size) && LegsOnMap(lookup, size)
      modifies this, slots
      ensures OnMap(size)
      ensures Valid()
      ensures Snapshot() == Removed(old(Snapshot()), k, lookup)
    {
      if k == current {
        DropCurrent(lookup, size);
      } else {
        DropOther(k, size);
      }
    }

    /** The cancelled order is the current one: the wait ends and the driver moves on. */
    method DropCurrent(lookup: string -> Option<Leg>, ghost size: int)
      requires Valid() && 0 <= current < num
      requires OnMap(size) && LegsOnMap(lookup, size)
      modifies this, slots
      ensures OnMap(size)
      ensures Valid()
      ensures Snapshot() == Removed(old(Snapshot()), old(current), lookup)
    {
      ghost var s := Snapshot();
      Unblock();
      ghost var t := Snapshot();
      Drop(current);
      ghost var u := t.(held := t.held[..t.current] + t.held[t.current + 1..]);
      assert Removed(s, s.current, lookup) == MovedOn(u, lookup);
      assert Snapshot() == u;
      Continue(lookup, size);
    }

    /** A waiting driver stops waiting, its wait tick going back to 0. */
    method Unblock()
      requires Valid()
      modifies this
      ensures Valid() && !blocked
      ensures Snapshot() == old(Snapshot().(blocked := false, waitUntil := if blocked then 0 else waitUntil))
    {
      if blocked {
        blocked, waitUntil := false, 0;
      }
    }

    /** The cancelled order is another one: the current index follows the shift of the list. */
    method DropOther(k: int, ghost size: int)
      requires Valid() && 0 <= k < num && k != current && OnMap(size)
      modifies this, slots
      ensures OnMap(size)
      ensures Valid()
      ensures var s := old(Snapshot());
              Snapshot() == s.(held := s.held[..k] + s.held[k + 1..], current := if k < s.current then s.current - 1 else s.current)
    {
      Drop(k);
      if k < current {
        current := current - 1;
      }
    }

    /**
      The blocked branch of moverRepartidor at tick `now`: once the wait is
      over the driver is unblocked and, if its current order is found,
      either completes the pickup (and heads for the house) or completes the
      hand-over (counts the delivery, drops the order and moves on).
     */
    method FinishWait(now: int, lookup: string -> Option<Leg>, ghost size: int) returns (r: WaitOutcome)
      requires Valid() && blocked && IsTick(now)
      requires OnMap(size) && LegsOnMap(lookup, size)
      modifies this, slots
      ensures OnMap(size)
      ensures Valid()
      ensures (Snapshot(), r) == AfterWait(old(Snapshot()), now, lookup)
      ensures r.PickedUp? || r.Delivered? ==> lookup(r.receipt).Some?
      ensures r.PickedUp? ==> old(state) == PickingUp
      ensures r.Delivered? ==> old(state) == Delivering
    {
      if now < waitUntil {
        return Waiting;
      }
      blocked := false;
      ghost var u := Snapshot();
      r := Resumed;
      if num > 0 {
        var receipt := slots[current];
        var leg := lookup(receipt);
        if leg.Some? {
          if phase == 0 {
            state, target, phase := ToHouse, leg.value.house, 1;
            r := PickedUp(receipt);
            assert Snapshot() == u.(state := ToHouse, target := leg.value.house, phase := 1);
          } else if phase == 1 {
            var handed := Handover(lookup, size);
            r := Delivered(handed);
            assert Snapshot() == HandedOver(u, lookup);
          }
        }
      }
    }

    /**
      The end of a hand-over: the delivery is counted, the current order
      leaves the list and the driver moves on to the next order or goes idle.
     */
    method Handover(lookup: string -> Option<Leg>, ghost size: int) returns (receipt: string)
      requires Valid() && num > 0 && !blocked
      requires OnMap(size) && LegsOnMap(lookup, size)
      modifies this, slots
      ensures OnMap(size)
      ensures Valid()
      ensures receipt == old(Accepted())[old(current)]
      ensures Snapshot() == HandedOver(old(Snapshot()), lookup)
    {
      ghost var s := Snapshot();
      receipt := slots[current];
      deliveredCount := deliveredCount + 1;
      ghost var t := Snapshot();
      Drop(current);
      ghost var u := t.(held := t.held[..t.current] + t.held[t.current + 1..]);
      assert HandedOver(s, lookup) == MovedOn(u, lookup);
      assert Snapshot() == u;
      Continue(lookup, size);
    }

    /**
      The moving branch of moverRepartidor, after the route search chose
      `step`: the driver takes it and, on reaching its destination with its
      current order found, starts waiting at the door (3 s for a pickup, 2 s
      for a hand-over).
     */
    method Advance(step: Pos, now: int, lookup: string -> Option<Leg>, ghost size: int) returns (arrived: bool)
      requires Valid() && !blocked && enRoute && IsTick(now)
      requires OnMap(size) && InGrid(step, size)
      modifies this
      ensures OnMap(size)
      ensures Valid()
      ensures arrived <==> step == old(target) && lookup(old(Accepted())[old(current)]).Some?
      ensures Snapshot() == Advanced(old(Snapshot()), step, now, lookup)
    {
      pos := step;
      arrived := false;
      if pos == target && num > 0 {
        if lookup(slots[current]).Some? {
          arrived := true;
          if phase == 0 {
            state, blocked, waitUntil := PickingUp, true, TickAdd(now, PICKUP_MS);
          } else if phase == 1 {
            state, blocked, waitUntil := Delivering, true, TickAdd(now, HANDOVER_MS);
          }
        }
      }
    }
  }
}
