/**
  The controller's shared state (`sistema`): the order list, the kitchens,
  the houses, the fleet of drivers and the unified street map, together
  with the operations the firmware's tasks perform on it — creating a web
  order, cancelling an order, starting and finishing preparation, assigning
  a driver, moving a driver one step, and the global statistics.
 */
module System {
  import opened Common
  import opened Geometry
  import opened Orders
  import opened Kitchen
  import opened Drivers
  import opened Assign
  import opened Routing
  import opened Sorting
  import opened Commands

  // ---------------------------------------------------------------------
  // Looking orders up by receipt (buscarPedido)
  // ---------------------------------------------------------------------

  /** The first order at or after `from` carrying `receipt`. */
  function FindFrom(os: seq<Order>, receipt: string, from: nat): (r: Option<nat>)
    ensures r.Some? ==> from <= r.value < |os| && os[r.value].receipt == receipt
                        && forall j :: from <= j < r.value ==> os[j].receipt != receipt
    ensures r.None? ==> forall j :: from <= j < |os| ==> os[j].receipt != receipt
    decreases |os| - from
  {
    if from >= |os| then None
    else if os[from].receipt == receipt then Some(from)
    else FindFrom(os, receipt, from + 1)
  }

  /** The first order in the list carrying `receipt`, or None. */
  function FindOrder(os: seq<Order>, receipt: string): (r: Option<nat>)
    ensures r.Some? ==> r.value < |os| && os[r.value].receipt == receipt
                        && forall j :: 0 <= j < r.value ==> os[j].receipt != receipt
    ensures r.None? <==> forall j :: 0 <= j < |os| ==> os[j].receipt != receipt
  {
    FindFrom(os, receipt, 0)
  }

  /**
    What a driver needs to know about the order behind a receipt: whether it
    has been picked up, its restaurant, and the access points of the
    restaurant and of the house (getPuntoAccesoRestaurante, getPuntoAccesoCasa).
   */
  function LegOf(os: seq<Order>, kitchens: seq<Restaurant>, houses: seq<Site>, receipt: string): (leg: Option<Leg>)
    ensures leg.Some? ==> FindOrder(os, receipt).Some?
    ensures FindOrder(os, receipt).Some? ==>
              var o := os[FindOrder(os, receipt).value];
              0 <= o.rest < |kitchens| && 0 <= o.house < |houses| ==>
                leg == Some(Leg(o.state == OrderState.PickedUp, o.rest,
                                RestaurantAccess(kitchens[o.rest].site), HouseAccess(houses[o.house])))
  {
    match FindOrder(os, receipt)
    case None => None
    case Some(i) =>
      var o := os[i];
      if 0 <= o.rest < |kitchens| && 0 <= o.house < |houses|
      then Some(Leg(o.state == OrderState.PickedUp, o.rest, RestaurantAccess(kitchens[o.rest].site), HouseAccess(houses[o.house])))
      else None
  }

  // ---------------------------------------------------------------------
  // Tick arithmetic of the preparation check
  // ---------------------------------------------------------------------

  /** `now - since` on the unsigned 32-bit tick counter. */
  function Elapsed(now: int, since: int): (d: int)
    requires IsTick(now) && IsTick(since)
    ensures IsTick(d)
    ensures since <= now ==> d == now - since
    ensures since > now ==> d == now - since + TICK_MOD
  {
    (now - since) % TICK_MOD
  }

  /** The elapsed time undoes a wrapped addition. */
  lemma ElapsedAfterAdd(since: int, d: nat)
    requires IsTick(since) && d < TICK_MOD
    ensures Elapsed(TickAdd(since, d), since) == d
  {
  }

  /**
    The preparation check of the kitchen task for one order: an order in
    preparation becomes ready once the time since it started reaches its
    preparation time (hundredths of a second, hence the factor 10 to ms).
   */
  function ReadyCheck(o: Order, now: int): (p: Order)
    requires IsTick(now) && IsTick(o.prepStartTick)
    ensures (o.preparing && !o.ready && Elapsed(now, o.prepStartTick) >= o.prepTime * 10) ==>
              p.ready && !p.preparing && p.state == Ready && p.tPrepEnd == now
    ensures !(o.preparing && !o.ready && Elapsed(now, o.prepStartTick) >= o.prepTime * 10) ==> p == o
    ensures p.receipt == o.receipt && p.rest == o.rest && p.house == o.house && p.id == o.id
    ensures p.prepStartTick == o.prepStartTick && p.hasDriver == o.hasDriver && p.driver == o.driver
  {
    if o.preparing && !o.ready && Elapsed(now, o.prepStartTick) >= o.prepTime * 10
    then o.(ready := true, preparing := false, state := Ready, tPrepEnd := now)
    else o
  }

  /**
    An order in preparation is found ready exactly when the check comes at
    least its preparation time after the start, across a wrap of the tick
    counter too.
   */
  lemma ReadyExactlyWhenDue(o: Order, e: nat)
    requires o.preparing && !o.ready && IsTick(o.prepStartTick) && e < TICK_MOD
    ensures ReadyCheck(o, TickAdd(o.prepStartTick, e)).ready <==> e >= o.prepTime * 10
  {
    ElapsedAfterAdd(o.prepStartTick, e);
  }

  /** procesarPedidosRestaurante, order part: the order starts preparing at kitchen `r`. */
  function StartPreparing(o: Order, r: int, now: int): (p: Order)
    ensures p.state == Preparing && p.preparing && !p.ready && p.rest == r
    ensures p.prepStartTick == now && p.tPrepStart == now
    ensures p.tCreated == (if o.tCreated == 0 then now else o.tCreated)
    ensures p.receipt == o.receipt && p.house == o.house && p.id == o.id && p.prepTime == o.prepTime
    ensures p.hasDriver == o.hasDriver && p.driver == o.driver && p.delivered == o.delivered
  {
    o.(state := Preparing, preparing := true, ready := false, rest := r,
       tCreated := if o.tCreated == 0 then now else o.tCreated,
       prepStartTick := now, tPrepStart := now)
  }

  /** cancelarPedido, order part: the order is marked cancelled and loses its driver and its flags. */
  function Withdrawn(o: Order): (p: Order)
    ensures p.state == Cancelled && !p.hasDriver && p.driver == -1
    ensures !p.preparing && !p.ready && !p.onRoute && !p.delivered
    ensures p.receipt == o.receipt && p.rest == o.rest && p.house == o.house && p.id == o.id
    ensures p.tCreated == o.tCreated && p.metricsSent == o.metricsSent
  {
    o.(state := Cancelled, hasDriver := false, preparing := false, ready := false,
       onRoute := false, delivered := false, driver := -1)
  }

  /** asignarPedidoARepartidor, order part: the order now belongs to driver `d`. */
  function Assigned(o: Order, d: int, now: int): (p: Order)
    ensures p.state == OrderState.Accepted && p.hasDriver && p.driver == d
    ensures p.retries == 0 && p.tAssigned == now
    ensures p.receipt == o.receipt && p.rest == o.rest && p.house == o.house && p.id == o.id
    ensures p.prepStartTick == o.prepStartTick && p.ready == o.ready && p.tCreated == o.tCreated
  {
    o.(hasDriver := true, driver := d, state := OrderState.Accepted, retries := 0, tAssigned := now)
  }

  /** A search that found no driver with room: one more attempt, the count starting over after the fifth. */
  function Retried(o: Order): (p: Order)
    ensures p == o.(retries := p.retries)
    ensures o.retries < 5 ==> p.retries == o.retries + 1
    ensures o.retries >= 5 ==> p.retries == 0
  {
    var n := o.retries + 1;
    o.(retries := if n > 5 then 0 else n)
  }

  /** The attempt count of an order never leaves 0..5. */
  lemma RetriesBounded(o: Order)
    requires 0 <= o.retries <= 5
    ensures 0 <= Retried(o).retries <= 5
  {
  }

  /** Six fruitless searches in a row bring the attempt count back to where it was. */
  lemma RetriesCycle(o: Order)
    requires 0 <= o.retries <= 5
    ensures Retried(Retried(Retried(Retried(Retried(Retried(o)))))).retries == o.retries
  {
  }

  /** moverRepartidor, end of a pickup: the order leaves the kitchen and is on its way. */
  function Collected(o: Order, now: int): (p: Order)
    ensures p.state == OrderState.PickedUp && p.onRoute && !p.preparing && !p.ready && p.tPickedUp == now
    ensures p.receipt == o.receipt && p.rest == o.rest && p.house == o.house && p.id == o.id
    ensures p.prepStartTick == o.prepStartTick && p.delivered == o.delivered && p.metricsSent == o.metricsSent
  {
    o.(preparing := false, ready := false, onRoute := true, state := OrderState.PickedUp, tPickedUp := now)
  }

  /** moverRepartidor, end of a hand-over: the order is delivered. */
  function Handed(o: Order, now: int): (p: Order)
    ensures p.state == OrderState.Delivered && p.delivered && !p.onRoute && p.tDelivered == now
    ensures p.receipt == o.receipt && p.rest == o.rest && p.house == o.house && p.id == o.id
    ensures p.prepStartTick == o.prepStartTick && p.metricsSent == o.metricsSent
  {
    o.(onRoute := false, delivered := true, state := OrderState.Delivered, tDelivered := now)
  }

  /** The zeroed slot of an order list that has not been filled yet. */
  const Blank: Order := NewOrder(0, 0, 0, Pos(0, 0), Pos(0, 0), "", [], 0, 0)

  /** Why a web order is refused, in the order the checks are made. */
  datatype OrderError = BadRestaurant | BadHouse | NoDishes | Full

  /** How a cancellation ends (CANCEL_FAILED, CANCEL_REJECTED, CANCELLED). */
  datatype CancelOutcome = CancelFailed | CancelRejected | CancelDone

  class Dispatch {
    /** listaPedidos: the first `numOrders` slots are live; an order's index is its id. */
    const orders: array<Order>
    var numOrders: int
    /** contadorPedidos: the number of the next receipt. */
    var counter: nat
    /** The receipt number each live order was given. */
    ghost var issued: seq<nat>
    const kitchens: seq<Restaurant>
    /** The houses' sites. */
    const houses: seq<Site>
    const drivers: seq<Driver>
    /** mapaUnificado and its side. */
    const grid: array2<char>
    const size: int
    /** indiceMotoristaRR: the driver after the last one that got an order. */
    var nextDriver: int

    /** The fixed capacities and the side of the map. */
    ghost predicate Sizes()
      reads this
    {
      orders.Length == MAX_PEDIDOS && 0 <= numOrders <= MAX_PEDIDOS
      && |kitchens| <= MAX_RESTAURANTES && |houses| <= MAX_CASAS && |drivers| <= MAX_REPARTIDORES
      && 0 < size <= grid.Length0 && size <= grid.Length1
    }

    /** Every restaurant and house door is a cell of the map. */
    ghost predicate DoorsOnMap() {
      (forall k :: 0 <= k < |kitchens| ==> InGrid(RestaurantAccess(kitchens[k].site), size))
      && (forall h :: 0 <= h < |houses| ==> InGrid(HouseAccess(houses[h]), size))
    }

    /** No two kitchens, and no two drivers, share an object or a buffer. */
    ghost predicate Distinct() {
      (forall i, j :: 0 <= i < j < |kitchens| ==> kitchens[i] != kitchens[j] && kitchens[i].queue != kitchens[j].queue)
      && (forall i, j :: 0 <= i < j < |drivers| ==> drivers[i] != drivers[j] && drivers[i].slots != drivers[j].slots)
    }

    /** The shape of the world, which no operation changes. */
    ghost predicate Shape()
      reads this
    {
      Sizes() && DoorsOnMap() && Distinct()
    }

    /** Every kitchen is well formed. */
    ghost predicate KitchensOk()
      reads kitchens, set k | k in kitchens :: k.queue
    {
      forall k :: 0 <= k < |kitchens| ==> kitchens[k].Valid()
    }

    /** Every driver is well formed, stands on the map and heads for a cell on it. */
    ghost predicate DriversOk()
      reads drivers
    {
      forall d :: 0 <= d < |drivers| ==> drivers[d].Valid() && drivers[d].OnMap(size)
    }

    /**
      Every live order sits at the index of its id, names an existing
      restaurant and house, and carries a receipt issued before, no two
      orders sharing a receipt number.
     */
    ghost predicate OrdersOk()
      reads this, orders
      requires Sizes()
    {
      |issued| == numOrders
      && (forall i :: 0 <= i < numOrders ==>
            orders[i].id == i && 0 <= orders[i].rest < |kitchens| && 0 <= orders[i].house < |houses|
            && issued[i] < counter && orders[i].receipt == Receipt(issued[i]) && IsTick(orders[i].prepStartTick))
      && (forall i, j :: 0 <= i < j < numOrders ==> issued[i] < issued[j])
    }

    ghost predicate Valid()
      reads this, orders, kitchens, set k | k in kitchens :: k.queue, drivers
    {
      Shape() && KitchensOk() && DriversOk() && OrdersOk()
    }

    /** The live orders. */
    function Live(): (os: seq<Order>)
      reads this, orders
      requires Sizes()
      ensures |os| == numOrders
    {
      orders[..numOrders]
    }

    /** buscarPedido with the door positions a driver needs, over the live orders. */
    function Lookup(): (lookup: string -> Option<Leg>)
      reads this, orders
      requires Sizes()
    {
      var os, ks, hs := orders[..numOrders], kitchens, houses;
      r => LegOf(os, ks, hs, r)
    }

    /** Every order the lookup finds has both doors on the map. */
    lemma LookupOnMap()
      requires Valid()
      ensures LegsOnMap(Lookup(), size)
    {
      forall r | Lookup()(r).Some?
        ensures InGrid(Lookup()(r).value.restaurant, size) && InGrid(Lookup()(r).value.house, size)
      {
        var i := FindOrder(Live(), r).value;
        assert 0 <= orders[i].rest < |kitchens| && 0 <= orders[i].house < |houses|;
      }
    }

    /** No live order carries the receipt the counter would issue next. */
    lemma NextReceiptFresh()
      requires Valid()
      ensures FindOrder(Live(), Receipt(counter)).None?
    {
      forall i | 0 <= i < numOrders
        ensures orders[i].receipt != Receipt(counter)
      {
        if orders[i].receipt == Receipt(counter) {
          ReceiptInjective(issued[i], counter);
        }
      }
    }

    /** Receipts identify live orders: two live orders never share one. */
    lemma ReceiptsUnique(i: int, j: int)
      requires Valid() && 0 <= i < j < numOrders
      ensures orders[i].receipt != orders[j].receipt
    {
      if orders[i].receipt == orders[j].receipt {
        ReceiptInjective(issued[i], issued[j]);
      }
    }

    /**
      The state after initialisation: no orders, receipts numbered from 1,
      and the generated kitchens, houses, drivers and map.
     */
    constructor(kitchens: seq<Restaurant>, houses: seq<Site>, drivers: seq<Driver>, grid: array2<char>, size: int)
      requires |kitchens| <= MAX_RESTAURANTES && |houses| <= MAX_CASAS && |drivers| <= MAX_REPARTIDORES
      requires 0 < size <= grid.Length0 && size <= grid.Length1
      requires forall k :: 0 <= k < |kitchens| ==> InGrid(RestaurantAccess(kitchens[k].site), size)
      requires forall h :: 0 <= h < |houses| ==> InGrid(HouseAccess(houses[h]), size)
      requires forall i, j :: 0 <= i < j < |kitchens| ==> kitchens[i] != kitchens[j] && kitchens[i].queue != kitchens[j].queue
      requires forall i, j :: 0 <= i < j < |drivers| ==> drivers[i] != drivers[j] && drivers[i].slots != drivers[j].slots
      requires forall k :: 0 <= k < |kitchens| ==> kitchens[k].Valid() && kitchens[k].Queue() == []
      requires forall d :: 0 <= d < |drivers| ==> drivers[d].Valid() && drivers[d].OnMap(size)
      ensures Valid() && fresh(orders)
      ensures Live() == [] && counter == 1 && nextDriver == 0
      ensures this.kitchens == kitchens && this.houses == houses && this.drivers == drivers
      ensures this.grid == grid && this.size == size
    {
      orders := new Order[MAX_PEDIDOS](_ => Blank);
      numOrders := 0;
      counter := 1;
      issued := [];
      this.kitchens := kitchens;
      this.houses := houses;
      this.drivers := drivers;
      this.grid := grid;
      this.size := size;
      nextDriver := 0;
    }

    /** buscarPedido: the index of the first live order carrying `receipt`. */
    method FindIndex(receipt: string) returns (r: Option<nat>)
      requires Sizes()
      ensures r == FindOrder(Live(), receipt)
    {
      var i := 0;
      while i < numOrders
        invariant 0 <= i <= numOrders
        invariant FindFrom(Live(), receipt, i) == FindOrder(Live(), receipt)
      {
        if orders[i].receipt == receipt {
          return Some(i);
        }
        i := i + 1;
      }
      return None;
    }
  
    /**
      The creation half of PEDIDO_WEB: the request is checked (restaurant,
      house, at least one dish, room in the order list, in that order) and,
      when it passes, a new order with the next receipt number is appended
      to the list and to its restaurant's queue.
     */
    method PlaceWebOrder(req: WebOrderRequest, now: int) returns (r: Result<string, OrderError>)
      requires Valid()
      modifies this, orders
      modifies if 0 <= req.restId < |kitchens| then {kitchens[req.restId]} else {}
      modifies if 0 <= req.restId < |kitchens| then {kitchens[req.restId].queue} else {}
      ensures Valid()
      ensures !(0 <= req.restId < |kitchens|) ==> r == Err(BadRestaurant)
      ensures 0 <= req.restId < |kitchens| && !(0 <= req.houseId < |houses|) ==> r == Err(BadHouse)
      ensures 0 <= req.restId < |kitchens| && 0 <= req.houseId < |houses| && req.dishes == [] ==> r == Err(NoDishes)
      ensures 0 <= req.restId < |kitchens| && 0 <= req.houseId < |houses| && req.dishes != []
              && old(numOrders) >= MAX_PEDIDOS
              ==> r == Err(Full)
      ensures r.Err? ==> numOrders == old(numOrders) && counter == old(counter) && orders[..] == old(orders[..])
      ensures r.Err? && 0 <= req.restId < |kitchens| ==>
                kitchens[req.restId].Queue() == old(kitchens[req.restId].Queue())
      ensures r.Ok? ==>
                r.value == Receipt(old(counter)) && counter == old(counter) + 1
                && numOrders == old(numOrders) + 1 && Live() == old(Live()) + [orders[old(numOrders)]]
                && orders[old(numOrders)]
                   == NewOrder(old(numOrders), req.restId, req.houseId,
                               kitchens[req.restId].site.unified, houses[req.houseId].unified,
                               r.value, req.dishes, PrepTime(kitchens[req.restId].menu, req.dishes), now)
                && kitchens[req.restId].Queue()
                   == old(kitchens[req.restId].Queue()) + (if old(kitchens[req.restId].count) < MAX_PEDIDOS then [old(numOrders)] else [])
      ensures r.Ok? ==> FindOrder(Live(), r.value) == Some(old(numOrders))
      ensures nextDriver == old(nextDriver)
    {
      if !(0 <= req.restId < |kitchens|) {
        r := Err(BadRestaurant);
      } else if !(0 <= req.houseId < |houses|) {
        r := Err(BadHouse);
      } else if req.dishes == [] {
        r := Err(NoDishes);
      } else if numOrders >= MAX_PEDIDOS {
        r := Err(Full);
      } else {
        var receipt := AddOrder(req.restId, req.houseId, req.dishes, now);
        r := Ok(receipt);
      }
    }

    /** Appends a validated web order and queues it at its restaurant. */
    method AddOrder(rest: int, house: int, dishes: seq<int>, now: int) returns (receipt: string)
      requires Valid() && 0 <= rest < |kitchens| && 0 <= house < |houses| && numOrders < MAX_PEDIDOS
      modifies this, orders, kitchens[rest], kitchens[rest].queue
      ensures Valid()
      ensures receipt == Receipt(old(counter)) && counter == old(counter) + 1
      ensures numOrders == old(numOrders) + 1 && Live() == old(Live()) + [orders[old(numOrders)]]
      ensures orders[old(numOrders)]
              == NewOrder(old(numOrders), rest, house, kitchens[rest].site.unified, houses[house].unified,
                          receipt, dishes, PrepTime(kitchens[rest].menu, dishes), now)
      ensures kitchens[rest].Queue()
              == old(kitchens[rest].Queue()) + (if old(kitchens[rest].count) < MAX_PEDIDOS then [old(numOrders)] else [])
      ensures FindOrder(Live(), receipt) == Some(old(numOrders))
      ensures nextDriver == old(nextDriver)
    {
      NextReceiptFresh();
      receipt := Receipt(counter);
      var o := NewOrder(numOrders, rest, house, kitchens[rest].site.unified, houses[house].unified,
                        receipt, dishes, PrepTime(kitchens[rest].menu, dishes), now);
      var id := numOrders;
      AppendOrder(o);
      QueueOrder(rest, id);
    }

    /** Stores an order with the next receipt number at the end of the list. */
    method AppendOrder(o: Order)
      requires Shape() && OrdersOk() && numOrders < MAX_PEDIDOS
      requires o.id == numOrders && 0 <= o.rest < |kitchens| && 0 <= o.house < |houses|
      requires o.receipt == Receipt(counter) && FindOrder(Live(), o.receipt).None? && IsTick(o.prepStartTick)
      modifies this, orders
      ensures Shape() && OrdersOk()
      ensures numOrders == old(numOrders) + 1 && counter == old(counter) + 1
      ensures Live() == old(Live()) + [o]
      ensures FindOrder(Live(), o.receipt) == Some(old(numOrders))
      ensures nextDriver == old(nextDriver)
    {
      orders[numOrders] := o;
      issued := issued + [counter];
      counter := counter + 1;
      numOrders := numOrders + 1;
      assert Live() == old(Live()) + [o];
      assert forall j :: 0 <= j < old(numOrders) ==> Live()[j] == old(Live())[j];
    }

    /** Queues order `id` at kitchen `rest` (when its queue has room). */
    method QueueOrder(rest: int, id: int)
      requires KitchensOk() && Distinct() && 0 <= rest < |kitchens| && 0 <= id < MAX_PEDIDOS
      modifies kitchens[rest], kitchens[rest].queue
      ensures KitchensOk()
      ensures kitchens[rest].Queue()
              == old(kitchens[rest].Queue()) + (if old(kitchens[rest].count) < MAX_PEDIDOS then [id] else [])
    {
      var kitchen := kitchens[rest];
      var _ := kitchen.Enqueue(id);
      forall k | 0 <= k < |kitchens| && k != rest
        ensures kitchens[k] != kitchen && kitchens[k].queue != kitchen.queue
      {
      }
    }

    /** Replaces one live order by an update that keeps its id, receipt and house. */
    method SetOrder(i: int, o: Order)
      requires Valid() && 0 <= i < numOrders
      requires o.id == orders[i].id && o.receipt == orders[i].receipt && o.house == orders[i].house
      requires 0 <= o.rest < |kitchens| && IsTick(o.prepStartTick)
      modifies orders
      ensures Valid()
      ensures orders[..] == old(orders[..])[i := o]
      ensures Live() == old(Live())[i := o]
    {
      orders[i] := o;
      assert Live() == old(Live())[i := o];
    }

    // -------------------------------------------------------------------
    // Cancellation (cancelarPedido)
    // -------------------------------------------------------------------

    /** The kitchen queue a cancellation of live order `i` may touch: only a queued order's. */
    ghost function QueueFrame(i: int): (f: set<object>)
      reads this, orders
      requires Sizes() && 0 <= i < numOrders
    {
      var o := orders[i];
      if o.state == Created && 0 <= o.rest < |kitchens|
      then {kitchens[o.rest] as object, kitchens[o.rest].queue as object} else {}
    }

    /** The driver a cancellation of live order `i` may touch: only an assigned order's. */
    ghost function DriverFrame(i: int): (f: set<object>)
      reads this, orders
      requires Sizes() && 0 <= i < numOrders
    {
      var o := orders[i];
      if o.hasDriver && 0 <= o.driver < |drivers|
      then {drivers[o.driver] as object, drivers[o.driver].slots as object} else {}
    }

    /** What cancelling live order `i` may touch: its kitchen's queue and its driver. */
    ghost function Touched(i: int): (f: set<object>)
      reads this, orders
      requires Sizes() && 0 <= i < numOrders
    {
      QueueFrame(i) + DriverFrame(i)
    }

    /** What a cancellation of `receipt` may touch. */
    ghost function CancelFrame(receipt: string): (f: set<object>)
      reads this, orders
      requires Sizes()
    {
      match FindOrder(Live(), receipt)
      case None => {}
      case Some(i) => Touched(i)
    }

    /**
      cancelarPedido: an unknown receipt fails; otherwise the order behind
      it is cancelled as CancelAt describes.
     */
    method CancelOrder(receipt: string) returns (out: CancelOutcome)
      requires Valid()
      modifies orders, CancelFrame(receipt)
      ensures Valid()
      ensures out == CancelFailed <==> FindOrder(old(Live()), receipt).None?
      ensures out == CancelFailed ==> orders[..] == old(orders[..])
      ensures out != CancelFailed ==>
                var i := FindOrder(old(Live()), receipt).value;
                var o := old(orders[i]);
                (out == CancelRejected <==>
                   o.hasDriver && 0 <= o.driver < |drivers|
                   && old(drivers[o.driver].state) == Delivering && old(drivers[o.driver].blocked))
                && (out == CancelRejected ==>
                      orders[..] == old(orders[..]) && drivers[o.driver].Snapshot() == old(drivers[o.driver].Snapshot()))
                && (out == CancelDone ==> orders[..] == old(orders[..])[i := Withdrawn(o)])
                && (o.state == Created ==> kitchens[o.rest].Queue() == Without(old(kitchens[o.rest].Queue()), o.id))
                && (out == CancelDone && o.hasDriver && 0 <= o.driver < |drivers| ==>
                      drivers[o.driver].Snapshot() == Released(old(drivers[o.driver].Snapshot()), receipt, old(Lookup())))
    {
      var found := FindIndex(receipt);
      if found.None? {
        out := CancelFailed;
      } else {
        out := CancelAt(found.value, receipt);
      }
    }

    /**
      The cancellation of live order `i`: a queued order leaves its kitchen's
      queue; an order whose driver is handing it over at the door cannot be
      cancelled any more; otherwise the driver drops it and it is marked
      cancelled.
     */
    method CancelAt(i: int, receipt: string) returns (out: CancelOutcome)
      requires Valid() && 0 <= i < numOrders && orders[i].receipt == receipt
      modifies orders, Touched(i)
      ensures Valid() && out != CancelFailed
      ensures var o := old(orders[i]);
              (out == CancelRejected <==>
                 o.hasDriver && 0 <= o.driver < |drivers|
                 && old(drivers[o.driver].state) == Delivering && old(drivers[o.driver].blocked))
              && (out == CancelRejected ==>
                    orders[..] == old(orders[..]) && drivers[o.driver].Snapshot() == old(drivers[o.driver].Snapshot()))
              && (out == CancelDone ==> orders[..] == old(orders[..])[i := Withdrawn(o)])
              && (o.state == Created ==> kitchens[o.rest].Queue() == Without(old(kitchens[o.rest].Queue()), o.id))
              && (out == CancelDone && o.hasDriver && 0 <= o.driver < |drivers| ==>
                    drivers[o.driver].Snapshot() == Released(old(drivers[o.driver].Snapshot()), receipt, old(Lookup())))
    {
      var o := orders[i];
      if o.state == Created {
        Unqueue(o.rest, o.id);
        assert orders[i] == o && Lookup() == old(Lookup());
        out := Withdraw(i, receipt);
      } else {
        out := Withdraw(i, receipt);
      }
    }

    /**
      The rest of a cancellation once the queue is dealt with: refused while
      the driver is handing the order over, otherwise the driver drops it and
      the order is marked cancelled.
     */
    method Withdraw(i: int, receipt: string) returns (out: CancelOutcome)
      requires Valid() && 0 <= i < numOrders && orders[i].receipt == receipt
      modifies orders, DriverFrame(i)
      ensures Valid() && out != CancelFailed
      ensures var o := old(orders[i]);
              (out == CancelRejected <==>
                 o.hasDriver && 0 <= o.driver < |drivers|
                 && old(drivers[o.driver].state) == Delivering && old(drivers[o.driver].blocked))
              && (out == CancelRejected ==>
                    orders[..] == old(orders[..]) && drivers[o.driver].Snapshot() == old(drivers[o.driver].Snapshot()))
              && (out == CancelDone ==> orders[..] == old(orders[..])[i := Withdrawn(o)])
              && (out == CancelDone && o.hasDriver && 0 <= o.driver < |drivers| ==>
                    drivers[o.driver].Snapshot() == Released(old(drivers[o.driver].Snapshot()), receipt, old(Lookup())))
    {
      var o := orders[i];
      var rejected := false;
      if o.hasDriver && 0 <= o.driver < |drivers| {
        LookupOnMap();
        rejected := Unassign(o.driver, receipt);
      }
      if rejected {
        out := CancelRejected;
      } else {
        SetOrder(i, Withdrawn(o));
        out := CancelDone;
      }
    }

    /** The kitchen part of a cancellation: the order leaves the queue, if it is there. */
    method Unqueue(rest: int, id: int)
      requires Valid() && 0 <= rest < |kitchens|
      modifies kitchens[rest], kitchens[rest].queue
      ensures Valid()
      ensures kitchens[rest].Queue() == Without(old(kitchens[rest].Queue()), id)
    {
      var kitchen := kitchens[rest];
      ghost var q := kitchen.Queue();
      var pos := kitchen.Remove(id);
      if pos >= 0 {
        WithoutAt(q, id, pos);
      } else {
        WithoutAbsent(q, id);
      }
      forall k | 0 <= k < |kitchens| && k != rest
        ensures kitchens[k] != kitchen && kitchens[k].queue != kitchen.queue
      {
      }
    }

    /**
      The driver part of a cancellation: refused while the driver is handing
      an order over at a door; otherwise the receipt leaves its list.
     */
    method Unassign(d: int, receipt: string) returns (rejected: bool)
      requires Valid() && 0 <= d < |drivers|
      requires LegsOnMap(Lookup(), size)
      modifies drivers[d], drivers[d].slots
      ensures Valid()
      ensures rejected <==> old(drivers[d].state) == Delivering && old(drivers[d].blocked)
      ensures rejected ==> drivers[d].Snapshot() == old(drivers[d].Snapshot())
      ensures !rejected ==> drivers[d].Snapshot() == Released(old(drivers[d].Snapshot()), receipt, Lookup())
      ensures !rejected ==> drivers[d].Accepted() == Without(old(drivers[d].Accepted()), receipt)
    {
      var driver := drivers[d];
      rejected := driver.state == Delivering && driver.blocked;
      if !rejected {
        forall e | 0 <= e < |drivers| && e != d
          ensures drivers[e] != driver && drivers[e].slots != driver.slots
        {
        }
        ghost var before := driver.Snapshot();
        var _ := driver.Release(receipt, Lookup(), size);
        ReleasedHeld(before, receipt, Lookup());
      }
    }

    // -------------------------------------------------------------------
    // Assignment (asignarPedidoARepartidor)
    // -------------------------------------------------------------------

    /**
      What the assigner reads of driver `d`: state, position, load and the
      order behind its current receipt (buscarPedido over the live orders).
     */
    function ViewOf(d: int): View
      reads this, orders, drivers[d], drivers[d].slots
      requires Sizes() && 0 <= d < |drivers| && drivers[d].Valid()
    {
      var driver := drivers[d];
      View(driver.state, driver.pos, driver.num,
           if driver.num > 0 then Lookup()(driver.slots[driver.current]) else None)
    }

    /** The assigner's view of every driver, in driver order. */
    method Views() returns (views: seq<View>)
      requires Sizes() && DriversOk()
      ensures |views| == |drivers|
      ensures forall d :: 0 <= d < |drivers| ==> views[d] == ViewOf(d)
    {
      views := [];
      for d := 0 to |drivers|
        invariant |views| == d
        invariant forall e :: 0 <= e < d ==> views[e] == ViewOf(e)
      {
        var driver := drivers[d];
        var current := if driver.num > 0 then LegOf(Live(), kitchens, houses, driver.slots[driver.current]) else None;
        views := views + [View(driver.state, driver.pos, driver.num, current)];
      }
    }

    /** Driver `d` says no: its refusal count goes up and nothing else changes. */
    method DeclineAt(d: int)
      requires Valid() && 0 <= d < |drivers|
      modifies drivers[d]
      ensures Valid()
      ensures drivers[d].rejectedCount == old(drivers[d].rejectedCount) + 1
      ensures drivers[d].num == old(drivers[d].num) && drivers[d].current == old(drivers[d].current)
      ensures drivers[d].state == old(drivers[d].state) && drivers[d].pos == old(drivers[d].pos)
      ensures drivers[d].Snapshot() == Refused(old(drivers[d].Snapshot()))
      ensures forall e :: 0 <= e < |drivers| && e != d ==> drivers[e].Snapshot() == old(drivers[e].Snapshot())
    {
      drivers[d].Decline();
      forall e | 0 <= e < |drivers| && e != d
        ensures drivers[e] != drivers[d]
      {
      }
    }

    /**
      The confirmation round: the ranked drivers are asked in turn, with one
      draw each, until one confirms; `k` is its position, or -1 when all
      decline. The first `stop` drivers of the ranking are the ones that
      declined: each counts one more refusal, and no other driver changes.
     */
    method AskInTurn(ranked: seq<Candidate>, draws: seq<int>) returns (k: int, ghost stop: int)
      requires Valid() && |draws| == |ranked|
      requires forall j :: 0 <= j < |ranked| ==> 0 <= ranked[j].idx < |drivers|
      requires forall i, j :: 0 <= i < j < |ranked| ==> ranked[i].idx != ranked[j].idx
      modifies set d | d in drivers
      ensures Valid()
      ensures k == match FirstConfirming(ranked, draws, 0) case Some(j) => j case None => -1
      ensures forall j :: 0 <= j < |ranked| ==> (Declined(ranked, draws, j) <==> j < stop)
      ensures forall d :: 0 <= d < |drivers| ==>
                drivers[d].Snapshot() == Asked(old(drivers[d].Snapshot()), AskedBefore(ranked, stop, d))
    {
      k := -1;
      var i := 0;
      while i < |ranked|
        invariant 0 <= i <= |ranked|
        invariant Valid()
        invariant FirstConfirming(ranked, draws, i) == FirstConfirming(ranked, draws, 0)
        invariant forall d :: 0 <= d < |drivers| ==>
                    drivers[d].Snapshot() == Asked(old(drivers[d].Snapshot()), AskedBefore(ranked, i, d))
      {
        if Confirms(ranked[i].score, ranked[i].detour, draws[i]) {
          k := i;
          break;
        }
        DeclineAt(ranked[i].idx);
        i := i + 1;
      }
      stop := if k < 0 then |ranked| else k;
    }

    /** Driver `d`, which has room, appends the receipt of live order `i` and, if idle, sets off for its restaurant. */
    method AcceptAt(d: int, i: int)
      requires Valid() && 0 <= d < |drivers| && 0 <= i < numOrders && drivers[d].num < drivers[d].capacity
      modifies drivers[d], drivers[d].slots
      ensures Valid()
      ensures drivers[d].Accepted() == old(drivers[d].Accepted()) + [orders[i].receipt]
      ensures old(drivers[d].state) == Idle ==>
                drivers[d].state == ToRestaurant && drivers[d].target == RestaurantAccess(kitchens[orders[i].rest].site)
      ensures old(drivers[d].state) != Idle ==> drivers[d].state == old(drivers[d].state)
      ensures drivers[d].rejectedCount == old(drivers[d].rejectedCount)
      ensures drivers[d].Snapshot()
              == AcceptedBy(old(drivers[d].Snapshot()), orders[i].receipt, RestaurantAccess(kitchens[orders[i].rest].site))
      ensures forall e :: 0 <= e < |drivers| && e != d ==> drivers[e].Snapshot() == old(drivers[e].Snapshot())
    {
      var driver := drivers[d];
      forall e | 0 <= e < |drivers| && e != d
        ensures drivers[e] != driver && drivers[e].slots != driver.slots
      {
      }
      driver.Accept(orders[i].receipt, RestaurantAccess(kitchens[orders[i].rest].site), size);
    }

    /** The order goes to driver `d`, which has room: the driver takes it and the order records the driver. */
    method Hand(i: int, d: int, now: int)
      requires Valid() && 0 <= d < |drivers| && 0 <= i < numOrders && drivers[d].num < drivers[d].capacity
      modifies orders, drivers[d], drivers[d].slots
      ensures Valid()
      ensures drivers[d].Accepted() == old(drivers[d].Accepted()) + [old(orders[i].receipt)]
      ensures drivers[d].rejectedCount == old(drivers[d].rejectedCount)
      ensures orders[..] == old(orders[..])[i := Assigned(old(orders[i]), d, now)]
      ensures forall e :: 0 <= e < |drivers| && e != d ==>
                drivers[e].Accepted() == old(drivers[e].Accepted()) && drivers[e].rejectedCount == old(drivers[e].rejectedCount)
      ensures drivers[d].Snapshot()
              == AcceptedBy(old(drivers[d].Snapshot()), old(orders[i].receipt), RestaurantAccess(kitchens[old(orders[i].rest)].site))
      ensures forall e :: 0 <= e < |drivers| && e != d ==> drivers[e].Snapshot() == old(drivers[e].Snapshot())
    {
      var o := orders[i];
      AcceptAt(d, i);
      SetOrder(i, Assigned(o, d, now));
    }

    /** Live order `id` is ready and has no driver yet: the only orders the assigner looks at. */
    ghost predicate Eligible(id: int)
      reads this, orders
      requires Sizes()
    {
      0 <= id < numOrders && !orders[id].hasDriver && orders[id].ready
    }

    /**
      asignarPedidoARepartidor: a live order that is ready and has no driver
      is offered to the drivers; any other order is left alone.
     */
    method AssignOrder(id: int, now: int, draws: seq<int>)
      returns (chosen: int, ghost views: seq<View>, ghost ranked: seq<Candidate>, ghost stop: int)
      requires Valid() && 0 <= id && IsTick(now) && |draws| >= |drivers|
      modifies this, orders, set d | d in drivers, set d | d in drivers :: d.slots
      ensures Valid()
      ensures !old(Eligible(id)) ==> chosen == -1 && orders[..] == old(orders[..]) && nextDriver == old(nextDriver)
      ensures old(Eligible(id)) && chosen < 0 ==>
                orders[..] == old(orders[..])[id := Retried(old(orders[id]))] && nextDriver == old(nextDriver)
      ensures chosen >= 0 ==>
                old(Eligible(id)) && chosen < |drivers|
                && orders[..] == old(orders[..])[id := Assigned(old(orders[id]), chosen, now)]
                && nextDriver == (chosen + 1) % |drivers|
      ensures |ranked| <= |draws|
      ensures old(Eligible(id)) ==> old(Surveyed(orders[id].rest, views, ranked))
      ensures chosen >= 0 <==> old(Eligible(id)) && ranked != []
      ensures chosen >= 0 ==> chosen == ranked[Chosen(ranked, draws[..|ranked|])].idx
      ensures forall j :: 0 <= j < |ranked| ==> (Declined(ranked, draws[..|ranked|], j) <==> j < stop)
      ensures !old(Eligible(id)) ==> ranked == [] && forall d :: 0 <= d < |drivers| ==> drivers[d].Snapshot() == old(drivers[d].Snapshot())
      ensures old(Eligible(id)) ==>
                forall d :: 0 <= d < |drivers| ==>
                  drivers[d].Snapshot()
                  == AfterOffer(old(drivers[d].Snapshot()), AskedBefore(ranked, stop, d), d == chosen,
                                old(orders[id].receipt), RestaurantAccess(kitchens[old(orders[id].rest)].site))
    {
      chosen, views, ranked, stop := -1, [], [], 0;
      if id < numOrders && !orders[id].hasDriver && orders[id].ready {
        chosen, views, ranked, stop := FindDriver(id, now, draws);
      }
    }

    /**
      The assigner at work on an eligible order: every driver with room is
      scored, the candidates are ranked best first and offered the order;
      with no candidate at all the order counts a failed attempt.
     */
    method FindDriver(id: int, now: int, draws: seq<int>)
      returns (chosen: int, ghost views: seq<View>, ghost ranked: seq<Candidate>, ghost stop: int)
      requires Valid() && Eligible(id) && IsTick(now) && |draws| >= |drivers|
      modifies this, orders, set d | d in drivers, set d | d in drivers :: d.slots
      ensures Valid()
      ensures old(Surveyed(orders[id].rest, views, ranked)) && |ranked| <= |draws|
      ensures ranked == [] ==>
                chosen == -1 && orders[..] == old(orders[..])[id := Retried(old(orders[id]))] && nextDriver == old(nextDriver)
      ensures ranked != [] ==>
                chosen == ranked[Chosen(ranked, draws[..|ranked|])].idx && 0 <= chosen < |drivers|
                && orders[..] == old(orders[..])[id := Assigned(old(orders[id]), chosen, now)]
                && nextDriver == (chosen + 1) % |drivers|
      ensures forall j :: 0 <= j < |ranked| ==> (Declined(ranked, draws[..|ranked|], j) <==> j < stop)
      ensures forall d :: 0 <= d < |drivers| ==>
                drivers[d].Snapshot()
                == AfterOffer(old(drivers[d].Snapshot()), AskedBefore(ranked, stop, d), d == chosen,
                              old(orders[id].receipt), RestaurantAccess(kitchens[old(orders[id].rest)].site))
    {
      chosen := -1;
      var o := orders[id];
      var order;
      order, views := Survey(o.rest);
      ranked := order;
      if order == [] {
        stop := 0;
        SetOrder(id, Retried(o));
      } else {
        chosen, stop := Offer(id, now, order, draws[..|order|]);
      }
    }

    /**
      `views` is what the assigner sees of every driver, and `ranked` the
      candidates for an order of kitchen `rest`, best first: a rearrangement
      of one candidate per driver with room.
     */
    ghost predicate Surveyed(rest: int, views: seq<View>, ranked: seq<Candidate>)
      reads this, orders, drivers, set d | d in drivers :: d.slots
      requires Sizes() && DriversOk() && 0 <= rest < |kitchens|
    {
      |views| == |drivers| && (forall d :: 0 <= d < |drivers| ==> views[d] == ViewOf(d))
      && |ranked| <= |drivers| && Ranked(ranked)
      && multiset(ranked) == multiset(CandidatesOf(views, |views|, rest, RestaurantAccess(kitchens[rest].site)))
      && forall j :: 0 <= j < |ranked| ==> 0 <= ranked[j].idx < |drivers| && HasRoom(views[ranked[j].idx])
    }

    /**
      The scoring and ranking passes for an order of kitchen `rest`: one
      candidate for every driver with room, ranked best first. Every
      candidate names a distinct driver that still has room.
     */
    method Survey(rest: int) returns (ranked: seq<Candidate>, ghost views: seq<View>)
      requires Valid() && 0 <= rest < |kitchens|
      ensures Surveyed(rest, views, ranked)
      ensures forall j :: 0 <= j < |ranked| ==> drivers[ranked[j].idx].num < drivers[ranked[j].idx].capacity
      ensures forall i, j :: 0 <= i < j < |ranked| ==> ranked[i].idx != ranked[j].idx
    {
      var seen := Views();
      views := seen;
      var pickup := RestaurantAccess(kitchens[rest].site);
      var cands, n := Gather(seen, rest, pickup);
      RankCandidates(cands, n);
      ranked := cands[..n];
      RearrangedCandidates(seen, rest, pickup, ranked);
    }

    /**
      The ranked candidates, all with room, are asked in turn; the first to
      confirm gets the order or, when all decline, the best ranked one is
      given it (the forced assignment). The round robin index moves past the
      chosen driver.
     */
    method Offer(id: int, now: int, ranked: seq<Candidate>, draws: seq<int>) returns (chosen: int, ghost stop: int)
      requires Valid() && 0 <= id < numOrders && IsTick(now)
      requires ranked != [] && |draws| == |ranked|
      requires forall j :: 0 <= j < |ranked| ==>
                 0 <= ranked[j].idx < |drivers| && drivers[ranked[j].idx].num < drivers[ranked[j].idx].capacity
      requires forall i, j :: 0 <= i < j < |ranked| ==> ranked[i].idx != ranked[j].idx
      modifies this, orders, set d | d in drivers, set d | d in drivers :: d.slots
      ensures Valid()
      ensures chosen == ranked[Chosen(ranked, draws)].idx
      ensures orders[..] == old(orders[..])[id := Assigned(old(orders[id]), chosen, now)]
      ensures nextDriver == (chosen + 1) % |drivers|
      ensures forall j :: 0 <= j < |ranked| ==> (Declined(ranked, draws, j) <==> j < stop)
      ensures forall d :: 0 <= d < |drivers| ==>
                drivers[d].Snapshot()
                == AfterOffer(old(drivers[d].Snapshot()), AskedBefore(ranked, stop, d), d == chosen,
                              old(orders[id].receipt), RestaurantAccess(kitchens[old(orders[id].rest)].site))
    {
      ghost var receipt, pickup := orders[id].receipt, RestaurantAccess(kitchens[orders[id].rest].site);
      var k;
      k, stop := AskInTurn(ranked, draws);
      if k < 0 {
        k := 0;
      }
      assert k == Chosen(ranked, draws);
      chosen := ranked[k].idx;
      label asked:
      Award(id, chosen, now);
      forall d | 0 <= d < |drivers|
        ensures drivers[d].Snapshot()
                == AfterOffer(old(drivers[d].Snapshot()), AskedBefore(ranked, stop, d), d == chosen, receipt, pickup)
      {
        assert old@asked(drivers[d].Snapshot()) == Asked(old(drivers[d].Snapshot()), AskedBefore(ranked, stop, d));
      }
    }

    /** The order goes to driver `d`, and the turn passes to the driver after it. */
    method Award(i: int, d: int, now: int)
      requires Valid() && 0 <= d < |drivers| && 0 <= i < numOrders && drivers[d].num < drivers[d].capacity
      modifies this, orders, drivers[d], drivers[d].slots
      ensures Valid() && nextDriver == (d + 1) % |drivers|
      ensures drivers[d].Accepted() == old(drivers[d].Accepted()) + [old(orders[i].receipt)]
      ensures orders[..] == old(orders[..])[i := Assigned(old(orders[i]), d, now)]
      ensures forall e :: 0 <= e < |drivers| ==> drivers[e].rejectedCount == old(drivers[e].rejectedCount)
      ensures forall e :: 0 <= e < |drivers| && e != d ==> drivers[e].Accepted() == old(drivers[e].Accepted())
      ensures drivers[d].Snapshot()
              == AcceptedBy(old(drivers[d].Snapshot()), old(orders[i].receipt), RestaurantAccess(kitchens[old(orders[i].rest)].site))
      ensures forall e :: 0 <= e < |drivers| && e != d ==> drivers[e].Snapshot() == old(drivers[e].Snapshot())
    {
      Hand(i, d, now);
      PassTurn(d);
    }

    /** indiceMotoristaRR moves to the driver after `d`. */
    method PassTurn(d: int)
      requires Valid() && 0 <= d < |drivers|
      modifies this
      ensures Valid() && nextDriver == (d + 1) % |drivers|
      ensures numOrders == old(numOrders) && counter == old(counter) && issued == old(issued)
    {
      nextDriver := (d + 1) % |drivers|;
    }

    // -------------------------------------------------------------------
    // Driver movement (moverRepartidor)
    // -------------------------------------------------------------------

    /**
      moverRepartidor for driver `d` at tick `now`: a waiting driver checks
      whether its wait is over (and then completes a pickup or a hand-over,
      updating the order), a driver en route takes one step, and an idle one
      stays put. `metrics` is the breakdown sent when an order is delivered.
     */
    method MoveDriver(d: int, now: int)
      returns (outcome: WaitOutcome, arrived: bool, metrics: Option<Breakdown>, ghost route: seq<Pos>)
      requires Valid() && 0 <= d && IsTick(now)
      modifies orders, grid
      modifies if d < |drivers| then {drivers[d], drivers[d].slots} else {}
      ensures Valid()
      ensures d >= |drivers| || !(old(drivers[d].blocked) || old(drivers[d].enRoute)) ==>
                outcome == Waiting && !arrived && metrics.None? && orders[..] == old(orders[..])
      ensures d < |drivers| && !old(drivers[d].blocked) ==> outcome == Waiting && metrics.None? && orders[..] == old(orders[..])
      ensures d < |drivers| && old(drivers[d].blocked) ==>
                !arrived && (drivers[d].Snapshot(), outcome) == AfterWait(old(drivers[d].Snapshot()), now, old(Lookup()))
      ensures d < |drivers| && !old(drivers[d].blocked) && old(drivers[d].enRoute) ==>
                (drivers[d].pos == old(drivers[d].pos) || Adjacent(old(drivers[d].pos), drivers[d].pos))
                && grid[drivers[d].pos.x, drivers[d].pos.y] == 'p'
                && drivers[d].Snapshot() == Advanced(old(drivers[d].Snapshot()), drivers[d].pos, now, old(Lookup()))
                && (drivers[d].pos != old(drivers[d].pos) ==>
                      RouteVia(grid, size, old(drivers[d].pos), drivers[d].pos, old(drivers[d].target), route))
                && forall x, y :: 0 <= x < grid.Length0 && 0 <= y < grid.Length1
                                  && Pos(x, y) != old(drivers[d].pos) && Pos(x, y) != drivers[d].pos
                                  ==> grid[x, y] == old(grid[x, y])
      ensures d < |drivers| && !old(drivers[d].blocked) && !old(drivers[d].enRoute) ==>
                drivers[d].Snapshot() == old(drivers[d].Snapshot())
      ensures !(d < |drivers| && !old(drivers[d].blocked) && old(drivers[d].enRoute)) ==>
                forall x, y :: 0 <= x < grid.Length0 && 0 <= y < grid.Length1 ==> grid[x, y] == old(grid[x, y])
      ensures outcome.PickedUp? ==>
                var i := FindOrder(old(Live()), outcome.receipt);
                i.Some? && orders[..] == old(orders[..])[i.value := Collected(old(orders[i.value]), now)]
                && metrics.None?
      ensures outcome.Delivered? ==>
                var i := FindOrder(old(Live()), outcome.receipt);
                i.Some? && orders[..] == old(orders[..])[i.value := EmitMetrics(Handed(old(orders[i.value]), now)).0]
                && metrics == EmitMetrics(Handed(old(orders[i.value]), now)).1
      ensures outcome == Waiting || outcome == Resumed ==> orders[..] == old(orders[..]) && metrics.None?
    {
      outcome, arrived, metrics, route := Waiting, false, None, [];
      if d < |drivers| {
        if drivers[d].blocked {
          outcome, metrics := EndWait(d, now);
        } else if drivers[d].enRoute {
          arrived, route := Step(d, now);
        }
      }
    }

    /**
      The moving branch: the driver's cell is marked as street ('o'), the
      route search picks the next cell, the driver takes it, which is then
      marked as holding a driver ('p'); on reaching its destination with its
      current order found the driver starts waiting at the door.
     */
    method Step(d: int, now: int) returns (arrived: bool, ghost route: seq<Pos>)
      requires Valid() && 0 <= d < |drivers| && !drivers[d].blocked && drivers[d].enRoute && IsTick(now)
      modifies grid, drivers[d]
      ensures Valid()
      ensures var from, to := old(drivers[d].pos), drivers[d].pos;
              (to == from || Adjacent(from, to)) && grid[to.x, to.y] == 'p'
      ensures old(drivers[d].pos) == old(drivers[d].target) ==> drivers[d].pos == old(drivers[d].pos)
      ensures forall x, y :: 0 <= x < grid.Length0 && 0 <= y < grid.Length1
                             && Pos(x, y) != old(drivers[d].pos) && Pos(x, y) != drivers[d].pos
                             ==> grid[x, y] == old(grid[x, y])
      ensures arrived <==>
                drivers[d].pos == old(drivers[d].target)
                && Lookup()(old(drivers[d].Accepted())[old(drivers[d].current)]).Some?
      ensures drivers[d].Snapshot() == Advanced(old(drivers[d].Snapshot()), drivers[d].pos, now, Lookup())
      ensures drivers[d].pos != old(drivers[d].pos) ==>
                RouteVia(grid, size, old(drivers[d].pos), drivers[d].pos, old(drivers[d].target), route)
    {
      var step;
      step, route := Route(drivers[d].pos, drivers[d].target);
      arrived := AdvanceAt(d, step, now);
    }

    /**
      The map side of a step: the driver leaves cell `from`, which becomes
      street again ('o'), the route search picks its next cell towards
      `goal`, and that cell is marked as holding a driver ('p').
     */
    method Route(from: Pos, goal: Pos) returns (step: Pos, ghost route: seq<Pos>)
      requires Sizes() && InGrid(from, size) && InGrid(goal, size)
      modifies grid
      ensures InGrid(step, size) && (step == from || Adjacent(from, step))
      ensures from == goal ==> step == from
      ensures grid[step.x, step.y] == 'p' && (step != from ==> grid[from.x, from.y] == 'o')
      ensures forall x, y :: 0 <= x < grid.Length0 && 0 <= y < grid.Length1 && Pos(x, y) != from && Pos(x, y) != step
                             ==> grid[x, y] == old(grid[x, y])
      ensures step != from ==> RouteVia(grid, size, from, step, goal, route)
    {
      grid[from.x, from.y] := 'o';
      step, route := NextStep(grid, size, from, goal);
      label searched:
      grid[step.x, step.y] := 'p';
      if step != from {
        forall i | 0 < i < |route|
          ensures MoveOk(grid, size, goal, route[i - 1], route[i])
        {
          assert old@searched(MoveOk(grid, size, goal, route[i - 1], route[i]));
        }
      }
    }

    /** Driver `d` takes the step the route search chose, and starts waiting if it has arrived. */
    method AdvanceAt(d: int, step: Pos, now: int) returns (arrived: bool)
      requires Valid() && 0 <= d < |drivers| && !drivers[d].blocked && drivers[d].enRoute && IsTick(now)
      requires InGrid(step, size)
      modifies drivers[d]
      ensures Valid() && drivers[d].pos == step
      ensures arrived <==>
                step == old(drivers[d].target) && Lookup()(old(drivers[d].Accepted())[old(drivers[d].current)]).Some?
      ensures drivers[d].Snapshot() == Advanced(old(drivers[d].Snapshot()), step, now, Lookup())
    {
      var driver := drivers[d];
      LookupOnMap();
      arrived := driver.Advance(step, now, Lookup(), size);
      forall e | 0 <= e < |drivers| && e != d
        ensures drivers[e] != driver
      {
      }
    }

    /**
      The blocked branch: once the wait is over the driver resumes and, when
      its current order is found, the pickup or the hand-over is recorded on
      the order as well.
     */
    method EndWait(d: int, now: int) returns (outcome: WaitOutcome, metrics: Option<Breakdown>)
      requires Valid() && 0 <= d < |drivers| && drivers[d].blocked && IsTick(now)
      modifies orders, drivers[d], drivers[d].slots
      ensures Valid()
      ensures (drivers[d].Snapshot(), outcome) == AfterWait(old(drivers[d].Snapshot()), now, old(Lookup()))
      ensures outcome.PickedUp? ==> old(drivers[d].state) == PickingUp
      ensures outcome.Delivered? ==> old(drivers[d].state) == Delivering
      ensures outcome.PickedUp? ==>
                var i := FindOrder(old(Live()), outcome.receipt);
                i.Some? && orders[..] == old(orders[..])[i.value := Collected(old(orders[i.value]), now)]
                && metrics.None?
      ensures outcome.Delivered? ==>
                var i := FindOrder(old(Live()), outcome.receipt);
                i.Some? && orders[..] == old(orders[..])[i.value := EmitMetrics(Handed(old(orders[i.value]), now)).0]
                && metrics == EmitMetrics(Handed(old(orders[i.value]), now)).1
      ensures outcome == Waiting || outcome == Resumed ==> orders[..] == old(orders[..]) && metrics.None?
    {
      metrics := None;
      outcome := FinishAt(d, now);
      if outcome.PickedUp? || outcome.Delivered? {
        var found := FindIndex(outcome.receipt);
        var i := found.value;
        var o := orders[i];
        if outcome.PickedUp? {
          SetOrder(i, Collected(o, now));
        } else {
          var sent := EmitMetrics(Handed(o, now));
          SetOrder(i, sent.0);
          metrics := sent.1;
        }
      }
    }

    /** The driver's own part of the blocked branch, with the lookup over the live orders. */
    method FinishAt(d: int, now: int) returns (outcome: WaitOutcome)
      requires Valid() && 0 <= d < |drivers| && drivers[d].blocked && IsTick(now)
      modifies drivers[d], drivers[d].slots
      ensures Valid()
      ensures (drivers[d].Snapshot(), outcome) == AfterWait(old(drivers[d].Snapshot()), now, Lookup())
      ensures outcome.PickedUp? || outcome.Delivered? ==> FindOrder(Live(), outcome.receipt).Some?
      ensures outcome.PickedUp? ==> old(drivers[d].state) == PickingUp
      ensures outcome.Delivered? ==> old(drivers[d].state) == Delivering
    {
      var driver := drivers[d];
      LookupOnMap();
      outcome := driver.FinishWait(now, Lookup(), size);
      forall e | 0 <= e < |drivers| && e != d
        ensures drivers[e] != driver && drivers[e].slots != driver.slots
      {
      }
    }

    // -------------------------------------------------------------------
    // Kitchens (StartTaskRestaurantes, procesarPedidosRestaurante)
    // -------------------------------------------------------------------

    /**
      The preparation check over the whole order list: every order whose
      preparation time has elapsed becomes ready; nothing else changes.
     */
    method MarkReady(now: int)
      requires Valid() && IsTick(now)
      modifies orders
      ensures Valid()
      ensures forall j :: 0 <= j < numOrders ==> orders[j] == ReadyCheck(old(orders[j]), now)
      ensures forall j :: numOrders <= j < orders.Length ==> orders[j] == old(orders[j])
    {
      var p := 0;
      while p < numOrders
        invariant 0 <= p <= numOrders
        invariant Shape() && OrdersOk()
        invariant forall j :: 0 <= j < p ==> orders[j] == ReadyCheck(old(orders[j]), now)
        invariant forall j :: p <= j < orders.Length ==> orders[j] == old(orders[j])
      {
        var o := orders[p];
        var checked := ReadyCheck(o, now);
        if o.preparing && !o.ready && Elapsed(now, o.prepStartTick) >= o.prepTime * 10 {
          orders[p] := checked;
        }
        assert orders[p] == checked;
        p := p + 1;
      }
    }

    /** Whether kitchen `r` already has an order in preparation (yaPreparando). */
    method KitchenBusy(r: int) returns (busy: bool)
      requires Shape()
      ensures busy <==> exists p :: 0 <= p < numOrders && orders[p].rest == r && orders[p].preparing && !orders[p].ready
    {
      busy := false;
      var p := 0;
      while p < numOrders && !busy
        invariant 0 <= p <= numOrders
        invariant !busy ==> forall q :: 0 <= q < p ==> !(orders[q].rest == r && orders[q].preparing && !orders[q].ready)
        invariant busy ==> exists q :: 0 <= q < numOrders && orders[q].rest == r && orders[q].preparing && !orders[q].ready
      {
        if orders[p].rest == r && orders[p].preparing && !orders[p].ready {
          busy := true;
        }
        p := p + 1;
      }
    }

    /**
      The kitchen step of the restaurant task for kitchen `r`: when its queue
      is not empty and none of its orders is being prepared, it starts the
      next one.
     */
    method ServeKitchen(r: int, now: int) returns (taken: int, slot: int, started: bool)
      requires Valid() && 0 <= r < |kitchens| && IsTick(now)
      modifies orders, kitchens[r], kitchens[r].queue
      ensures Valid()
      ensures taken >= 0 <==>
                old(kitchens[r].count) > 0
                && !exists p :: 0 <= p < old(numOrders) && old(orders[p]).rest == r && old(orders[p]).preparing && !old(orders[p]).ready
      ensures taken < 0 ==> !started && orders[..] == old(orders[..]) && kitchens[r].Queue() == old(kitchens[r].Queue())
      ensures taken >= 0 ==> Served(old(orders[..]), old(kitchens[r].Queue()), kitchens[r].threshold, slot, taken)
                             && kitchens[r].Queue() == old(kitchens[r].Queue())[..slot] + old(kitchens[r].Queue())[slot + 1..]
      ensures started <==> 0 <= taken < numOrders
      ensures started ==> orders[..] == old(orders[..])[taken := StartPreparing(old(orders[taken]), r, now)]
      ensures taken >= 0 && !started ==> orders[..] == old(orders[..])
    {
      taken, slot, started := -1, -1, false;
      if kitchens[r].count == 0 {
        return;
      }
      var busy := KitchenBusy(r);
      if busy {
        return;
      }
      taken, slot, started := ProcessRestaurant(r, now);
      assert taken >= 0;
    }

    /**
      procesarPedidosRestaurante: the kitchen takes the next order from its
      queue (first come first served up to its threshold, shortest
      preparation first beyond it) and, if it is a live order, starts
      preparing it.
     */
    method ProcessRestaurant(r: int, now: int) returns (taken: int, slot: int, started: bool)
      requires Valid() && 0 <= r && IsTick(now)
      modifies orders
      modifies if r < |kitchens| then {kitchens[r]} else {}
      modifies if r < |kitchens| then {kitchens[r].queue} else {}
      ensures Valid()
      ensures taken >= 0 <==> r < |kitchens| && old(kitchens[r].count) > 0
      ensures taken < 0 ==> !started && orders[..] == old(orders[..])
      ensures taken >= 0 ==>
                Served(old(orders[..]), old(kitchens[r].Queue()), kitchens[r].threshold, slot, taken)
                && kitchens[r].Queue() == old(kitchens[r].Queue())[..slot] + old(kitchens[r].Queue())[slot + 1..]
      ensures started <==> 0 <= taken < numOrders
      ensures started ==> orders[..] == old(orders[..])[taken := StartPreparing(old(orders[taken]), r, now)]
      ensures taken >= 0 && !started ==> orders[..] == old(orders[..])
    {
      taken, slot, started := -1, -1, false;
      if r < |kitchens| && kitchens[r].count > 0 {
        slot, taken := TakeFrom(r);
        if taken < numOrders {
          SetOrder(taken, StartPreparing(orders[taken], r, now));
          started := true;
        }
      }
    }

    /** The queue half of procesarPedidosRestaurante: the entry the kitchen serves next leaves its queue. */
    method TakeFrom(r: int) returns (slot: int, taken: int)
      requires Valid() && 0 <= r < |kitchens| && kitchens[r].count > 0
      modifies kitchens[r], kitchens[r].queue
      ensures Valid()
      ensures Served(orders[..], old(kitchens[r].Queue()), kitchens[r].threshold, slot, taken)
      ensures kitchens[r].Queue() == old(kitchens[r].Queue())[..slot] + old(kitchens[r].Queue())[slot + 1..]
    {
      var kitchen := kitchens[r];
      slot, taken := kitchen.TakeNext(orders);
      forall k' | 0 <= k' < |kitchens|
        ensures kitchens[k'].Valid()
      {
        if k' != r {
          assert kitchens[k'] != kitchen && kitchens[k'].queue != kitchen.queue;
        }
      }
    }
  }
}
