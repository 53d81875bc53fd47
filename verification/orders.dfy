/**
  Orders (Pedido) of the delivery controller, their lifecycle timestamps and
  the two metric computations built on them: the per-order breakdown sent
  once when an order is delivered, and the sample filter behind the global
  percentiles. Timestamps are millisecond values of the 32-bit tick counter;
  0 means "not yet recorded".
 */
module Orders {
  import opened Common
  import opened Geometry

  /** EstadoPedido */
  datatype OrderState =
    | Created            // CREADO
    | Preparing          // PREPARANDO
    | Ready              // LISTO
    | SeekingDriver      // BUSCANDO_MOTORISTA
    | Accepted           // ACEPTADO
    | HeadingToRestaurant  // EN_CAMINO_RESTAURANTE
    | PickedUp           // RECOGIDO
    | HeadingToHouse     // EN_CAMINO_DESTINO
    | Delivered          // ENTREGADO
    | Cancelled          // CANCELADO

  /**
    One order. `prepTime` is the preparation time in hundredths of a second
    (menu dishes take 20.00 to 29.99 s). `driver` is -1 while unassigned.
   */
  datatype Order = Order(
    id: int,
    rest: int,
    house: int,
    restPos: Pos,
    housePos: Pos,
    receipt: string,
    state: OrderState,
    prepTime: int,
    hasDriver: bool,
    preparing: bool,
    ready: bool,
    onRoute: bool,
    delivered: bool,
    driver: int,
    dishes: seq<int>,
    prepStartTick: int,
    retries: int,
    tCreated: int,
    tPrepStart: int,
    tPrepEnd: int,
    tAssigned: int,
    tPickedUp: int,
    tDelivered: int,
    metricsSent: bool)

  /**
    A freshly created web order: every flag, counter and timestamp zero
    except the creation tick, state CREADO and no driver.
   */
  function NewOrder(id: int, rest: int, house: int, restPos: Pos, housePos: Pos,
                    receipt: string, dishes: seq<int>, prepTime: int, now: int): (o: Order)
    ensures o.state == Created && !o.hasDriver && !o.preparing && !o.ready
    ensures !o.onRoute && !o.delivered && !o.metricsSent && o.driver == -1
    ensures o.tCreated == now && o.tPrepStart == 0 && o.tPrepEnd == 0
    ensures o.tAssigned == 0 && o.tPickedUp == 0 && o.tDelivered == 0
    ensures o.id == id && o.rest == rest && o.house == house && o.receipt == receipt
    ensures o.dishes == dishes && o.prepTime == prepTime
  {
    Order(id, rest, house, restPos, housePos, receipt, Created, prepTime,
          false, false, false, false, false, -1, dishes, 0, 0,
          now, 0, 0, 0, 0, 0, false)
  }

  // ---------------------------------------------------------------------
  // Per-order breakdown (enviarMetricasPedido)
  // ---------------------------------------------------------------------

  /** Durations above 4000 s are treated as impossible. */
  const MAX_SPAN_MS: int := 4000000

  /**
    `d` is a well-measured duration from `earlier` to `later`: between 0 and
    4000 s, positive exactly when both stamps were recorded in order at most
    4000 s apart, and then the gap between them.
   */
  predicate Measures(d: int, later: int, earlier: int) {
    0 <= d <= MAX_SPAN_MS
    && (d > 0 <==> 0 < earlier < later && later - earlier <= MAX_SPAN_MS)
    && (d > 0 ==> d == later - earlier)
  }

  /**
    Duration between two lifecycle timestamps: counted only when both were
    recorded and the later one really is later; an impossible value (above
    4000 s) is reported as 0.
   */
  function Span(later: int, earlier: int): (d: int)
    ensures Measures(d, later, earlier)
  {
    if later > 0 && earlier > 0 && later > earlier && later - earlier <= MAX_SPAN_MS
    then later - earlier
    else 0
  }

  datatype Breakdown = Breakdown(queue: int, prep: int, wait: int, drive: int, total: int)

  /** Kitchen queue, preparation, wait for the driver, drive, and end to end. */
  function OrderMetrics(o: Order): (b: Breakdown)
    ensures Measures(b.queue, o.tPrepStart, o.tCreated)
    ensures Measures(b.prep, o.tPrepEnd, o.tPrepStart)
    ensures Measures(b.wait, o.tPickedUp, o.tPrepEnd)
    ensures Measures(b.drive, o.tDelivered, o.tPickedUp)
    ensures Measures(b.total, o.tDelivered, o.tCreated)
  {
    Breakdown(Span(o.tPrepStart, o.tCreated), Span(o.tPrepEnd, o.tPrepStart),
              Span(o.tPickedUp, o.tPrepEnd), Span(o.tDelivered, o.tPickedUp),
              Span(o.tDelivered, o.tCreated))
  }

  /**
    When the lifecycle timestamps were recorded in order and the whole trip
    took at most 4000 s, the four phases add up to the end-to-end time.
   */
  lemma PhasesAddUp(o: Order)
    requires 0 < o.tCreated < o.tPrepStart < o.tPrepEnd < o.tPickedUp < o.tDelivered
    requires o.tDelivered - o.tCreated <= MAX_SPAN_MS
    ensures var b := OrderMetrics(o);
            b.total == b.queue + b.prep + b.wait + b.drive && b.total > 0
  {
  }

  /**
    enviarMetricasPedido: the breakdown is produced only if it was not sent
    before, and the order is marked as sent either way.
   */
  function EmitMetrics(o: Order): (r: (Order, Option<Breakdown>))
    ensures r.0 == o.(metricsSent := true)
    ensures r.1.Some? <==> !o.metricsSent
    ensures r.1.Some? ==> r.1.value == OrderMetrics(o)
  {
    if o.metricsSent then (o, None) else (o.(metricsSent := true), Some(OrderMetrics(o)))
  }

  /** At most once: emitting again after an emission produces nothing and changes nothing. */
  lemma EmitAtMostOnce(o: Order)
    ensures EmitMetrics(EmitMetrics(o).0).1 == None
    ensures EmitMetrics(EmitMetrics(o).0).0 == EmitMetrics(o).0
  {
  }

  // ---------------------------------------------------------------------
  // Samples of calcularMetricasGlobales
  // ---------------------------------------------------------------------

  /** Only delivered orders with both end timestamps recorded are analysed. */
  predicate Analyzable(o: Order) {
    o.delivered && o.tDelivered > 0 && o.tCreated > 0
  }

  /** End-to-end sample: strictly between 0 and 4000 s. */
  function TotalSample(o: Order): (r: Option<int>)
    ensures r.Some? <==> Analyzable(o) && 0 < OrderMetrics(o).total < MAX_SPAN_MS
    ensures r.Some? ==> r.value == OrderMetrics(o).total
  {
    if Analyzable(o) && o.tDelivered > o.tCreated && o.tDelivered - o.tCreated < MAX_SPAN_MS
    then Some(o.tDelivered - o.tCreated)
    else None
  }

  /** Preparation sample: both preparation timestamps recorded, in order, under 4000 s. */
  function PrepSample(o: Order): (r: Option<int>)
    ensures r.Some? <==> Analyzable(o) && 0 < OrderMetrics(o).prep < MAX_SPAN_MS
    ensures r.Some? ==> r.value == OrderMetrics(o).prep
  {
    if Analyzable(o) && o.tPrepEnd > 0 && o.tPrepStart > 0 && o.tPrepEnd > o.tPrepStart
       && o.tPrepEnd - o.tPrepStart < MAX_SPAN_MS
    then Some(o.tPrepEnd - o.tPrepStart)
    else None
  }

  /** The samples `pick` yields over `os`, in list order. */
  function Collect(os: seq<Order>, pick: Order -> Option<int>): seq<int> {
    if os == [] then []
    else Collect(os[..|os| - 1], pick)
         + (if pick(os[|os| - 1]).Some? then [pick(os[|os| - 1]).value] else [])
  }

  /** Taking one more order of a list adds its sample, if it has one, at the end. */
  lemma CollectStep(os: seq<Order>, i: nat, pick: Order -> Option<int>)
    requires i < |os|
    ensures Collect(os[..i + 1], pick) == Collect(os[..i], pick) + (if pick(os[i]).Some? then [pick(os[i]).value] else [])
  {
    assert os[..i + 1][..i] == os[..i];
  }

  function TotalSamples(os: seq<Order>): seq<int> {
    Collect(os, TotalSample)
  }

  function PrepSamples(os: seq<Order>): seq<int> {
    Collect(os, PrepSample)
  }

  /** Every collected sample lies strictly between 0 and 4000 s, and there are at most as many as orders. */
  lemma {:induction false} TotalSamplesBounded(os: seq<Order>)
    ensures |TotalSamples(os)| <= |os|
    ensures forall k :: 0 <= k < |TotalSamples(os)| ==> 0 < TotalSamples(os)[k] < MAX_SPAN_MS
  {
    if os != [] {
      TotalSamplesBounded(os[..|os| - 1]);
    }
  }

  lemma {:induction false} PrepSamplesBounded(os: seq<Order>)
    ensures |PrepSamples(os)| <= |os|
    ensures forall k :: 0 <= k < |PrepSamples(os)| ==> 0 < PrepSamples(os)[k] < MAX_SPAN_MS
  {
    if os != [] {
      PrepSamplesBounded(os[..|os| - 1]);
    }
  }

  /** Orders that are not analysable contribute no sample at all. */
  lemma {:induction false} OnlyAnalyzableCounted(os: seq<Order>)
    requires forall k :: 0 <= k < |os| ==> !Analyzable(os[k])
    ensures TotalSamples(os) == [] && PrepSamples(os) == []
  {
    if os != [] {
      OnlyAnalyzableCounted(os[..|os| - 1]);
    }
  }

  /**
    The end-to-end sample and the per-order total agree on every delivery
    shorter than 4000 s; a delivery of exactly 4000 s is reported in its own
    breakdown but excluded from the global samples.
   */
  lemma SampleMatchesBreakdown(o: Order)
    requires Analyzable(o) && o.tDelivered > o.tCreated
    ensures o.tDelivered - o.tCreated < MAX_SPAN_MS ==> TotalSample(o) == Some(OrderMetrics(o).total)
    ensures o.tDelivered - o.tCreated == MAX_SPAN_MS ==> TotalSample(o) == None && OrderMetrics(o).total == MAX_SPAN_MS
  {
  }
}
