/**
  A restaurant and its kitchen queue (colaPedidos): order indices waiting to
  be prepared, served first come first served while the queue is short and
  shortest job first once it grows past the restaurant's switch threshold
  (cantidadDeCambio).
 */
module Kitchen {
  import opened Common
  import opened Geometry
  import opened Orders

  class Restaurant {
    /** Where the restaurant sits and which side its door faces. */
    const site: Site
    /** Preparation time of each menu dish, in hundredths of a second. */
    const menu: seq<int>
    /** Queue length above which the kitchen switches from FCFS to SJF. */
    const threshold: int
    /** colaPedidos: indices into the order list; the first `count` slots are live. */
    const queue: array<int>
    var count: int

    /** The queue fits its buffer and holds indices of the order list. */
    ghost predicate Valid()
      reads this, queue
    {
      queue.Length == MAX_PEDIDOS && 0 <= count <= MAX_PEDIDOS && |menu| <= MAX_MENU
      && forall i :: 0 <= i < count ==> 0 <= queue[i] < MAX_PEDIDOS
    }

    /** The waiting orders, oldest first. */
    function Queue(): seq<int>
      reads this, queue
      requires Valid()
    {
      queue[..count]
    }

    constructor(site: Site, menu: seq<int>, threshold: int)
      requires |menu| <= MAX_MENU
      ensures Valid() && fresh(queue)
      ensures Queue() == []
      ensures this.site == site && this.menu == menu && this.threshold == threshold
    {
      this.site := site;
      this.menu := menu;
      this.threshold := threshold;
      this.queue := new int[MAX_PEDIDOS];
      this.count := 0;
    }

    /**
      The enqueue guard used when an order is created: the index is appended
      only while the queue has room.
     */
    method Enqueue(id: int) returns (added: bool)
      requires Valid() && 0 <= id < MAX_PEDIDOS
      modifies this, queue
      ensures Valid()
      ensures added <==> old(count) < MAX_PEDIDOS
      ensures Queue() == if added then old(Queue()) + [id] else old(Queue())
    {
      added := count < MAX_PEDIDOS;
      if added {
        queue[count] := id;
        count := count + 1;
      }
    }

    /**
      The slot the kitchen serves next: the head of the queue under FCFS;
      under SJF the first entry whose order has the smallest preparation time.
     */
    method SelectIndex(orders: array<Order>) returns (k: int)
      requires Valid() && count > 0 && orders.Length == MAX_PEDIDOS
      ensures 0 <= k < count
      ensures count <= threshold ==> k == 0
      ensures count > threshold ==> FirstQuickest(orders[..], Queue(), k)
    {
      if count <= threshold {
        return 0;
      }
      k := 0;
      var least := orders[queue[0]].prepTime;
      var i := 1;
      while i < count
        invariant 1 <= i <= count && 0 <= k < i
        invariant least == orders[queue[k]].prepTime
        invariant forall j :: 0 <= j < i ==> least <= orders[queue[j]].prepTime
        invariant forall j :: 0 <= j < k ==> least < orders[queue[j]].prepTime
      {
        var t := orders[queue[i]].prepTime;
        if t < least {
          least := t;
          k := i;
        }
        i := i + 1;
      }
      QuickestByIndex(orders[..], Queue(), queue[k]);
    }

    /**
      procesarPedidosRestaurante, queue part: removes the selected entry and
      closes the gap, keeping the other entries in their order.
     */
    method TakeNext(orders: array<Order>) returns (k: int, id: int)
      requires Valid() && count > 0 && orders.Length == MAX_PEDIDOS
      modifies this, queue
      ensures Valid() && count == old(count) - 1
      ensures 0 <= k < old(count) && id == old(Queue())[k]
      ensures old(count) <= threshold ==> k == 0
      ensures old(count) > threshold ==> FirstQuickest(orders[..], old(Queue()), k)
      ensures Queue() == old(Queue())[..k] + old(Queue())[k + 1..]
      ensures multiset(Queue()) == multiset(old(Queue())) - multiset{id}
    {
      k := SelectIndex(orders);
      id := queue[k];
      Cut(k);
    }

    /** Removes the entry at `k`, closing the gap; the other entries keep their order. */
    method Cut(k: int)
      requires Valid() && 0 <= k < count
      modifies this, queue
      ensures Valid() && count == old(count) - 1
      ensures Queue() == old(Queue())[..k] + old(Queue())[k + 1..]
      ensures multiset(Queue()) == multiset(old(Queue())) - multiset{old(Queue())[k]}
    {
      ghost var q := Queue();
      assert q[..k] == queue[..k] && q[k + 1..] == queue[k + 1..count];
      RemoveAt(queue, count, k);
      count := count - 1;
      forall i | 0 <= i < count
        ensures 0 <= queue[i] < MAX_PEDIDOS
      {
        assert queue[i] == (if i < k then q[i] else q[i + 1]);
      }
      CutMultiset(q, k);
    }

    /**
      Cancellation of a queued order: its first occurrence is removed and the
      rest keep their order; `pos` is where it was, or -1 if it was not queued.
     */
    method Remove(id: int) returns (pos: int)
      requires Valid()
      modifies this, queue
      ensures Valid()
      ensures -1 <= pos < old(count)
      ensures pos == -1 <==> id !in old(Queue())
      ensures pos == -1 ==> Queue() == old(Queue())
      ensures pos >= 0 ==> old(Queue())[pos] == id && id !in old(Queue())[..pos]
                           && Queue() == old(Queue())[..pos] + old(Queue())[pos + 1..]
    {
      pos := IndexOf(queue, count, id);
      if pos >= 0 {
        ghost var q := queue[..count];
        assert q[pos] == id && q[..pos] == queue[..pos];
        assert id !in q[..pos];
        Cut(pos);
      }
    }
  }

  // ---------------------------------------------------------------------
  // Preparation time of a web order
  // ---------------------------------------------------------------------

  /** A dish id names an entry of the menu. */
  predicate OnMenu(menu: seq<int>, dish: int) {
    0 <= dish < |menu|
  }

  /**
    Total preparation time of the dishes of an order: the menu time of each
    dish that is on the menu; dish ids that are not on the menu add nothing.
   */
  function PrepTime(menu: seq<int>, dishes: seq<int>): (t: int)
    ensures (forall k :: 0 <= k < |menu| ==> menu[k] >= 0) ==> t >= 0
  {
    if dishes == [] then 0
    else PrepTime(menu, dishes[..|dishes| - 1])
         + (if OnMenu(menu, dishes[|dishes| - 1]) then menu[dishes[|dishes| - 1]] else 0)
  }

  /** Each dish adds at most the slowest menu time, so the total is bounded by count * slowest. */
  lemma {:induction false} PrepTimeBounded(menu: seq<int>, dishes: seq<int>, slowest: int)
    requires slowest >= 0 && forall k :: 0 <= k < |menu| ==> 0 <= menu[k] <= slowest
    ensures 0 <= PrepTime(menu, dishes) <= |dishes| * slowest
  {
    if dishes != [] {
      var rest := dishes[..|dishes| - 1];
      var last := dishes[|dishes| - 1];
      PrepTimeBounded(menu, rest, slowest);
      var c := if OnMenu(menu, last) then menu[last] else 0;
      assert 0 <= c <= slowest;
      assert PrepTime(menu, dishes) == PrepTime(menu, rest) + c;
      assert |dishes| * slowest == |rest| * slowest + slowest;
    }
  }

  /** Order `id` takes no longer to prepare than any order queued in `q`. */
  ghost predicate QuickestIn(orders: seq<Order>, q: seq<int>, id: int) {
    0 <= id < |orders|
    && forall x :: x in q && 0 <= x < |orders| ==> orders[id].prepTime <= orders[x].prepTime
  }

  /**
    Entry `k` of the queue is the one shortest job first serves: its order
    is the quickest, and every entry before it is strictly slower.
   */
  ghost predicate FirstQuickest(orders: seq<Order>, q: seq<int>, k: int) {
    0 <= k < |q| && QuickestIn(orders, q, q[k])
    && forall i :: 0 <= i < k && 0 <= q[i] < |orders| ==> orders[q[k]].prepTime < orders[q[i]].prepTime
  }

  /**
    The kitchen with switch threshold `threshold` serves entry `slot` of
    queue `q`, which names order `taken`: the head while the queue is no
    longer than the threshold, the first quickest entry beyond it.
   */
  ghost predicate Served(orders: seq<Order>, q: seq<int>, threshold: int, slot: int, taken: int) {
    0 <= slot < |q| && taken == q[slot]
    && (|q| <= threshold ==> slot == 0)
    && (|q| > threshold ==> FirstQuickest(orders, q, slot))
  }

  /** An order no slower than every queued entry, position by position, is the quickest in the queue. */
  lemma QuickestByIndex(orders: seq<Order>, q: seq<int>, id: int)
    requires 0 <= id < |orders|
    requires forall i :: 0 <= i < |q| && 0 <= q[i] < |orders| ==> orders[id].prepTime <= orders[q[i]].prepTime
    ensures QuickestIn(orders, q, id)
  {
  }

  /** The time of two dish lists back to back is the sum of their times. */
  lemma {:induction false} PrepTimeAppend(menu: seq<int>, dishes: seq<int>, more: seq<int>)
    ensures PrepTime(menu, dishes + more) == PrepTime(menu, dishes) + PrepTime(menu, more)
    decreases |more|
  {
    if more == [] {
      assert dishes + more == dishes;
    } else {
      var last := more[|more| - 1];
      assert (dishes + more)[..|dishes + more| - 1] == dishes + more[..|more| - 1];
      PrepTimeAppend(menu, dishes, more[..|more| - 1]);
    }
  }

  /**
    The firmware's guard on a dish id before reading its menu time: only the
    upper bound is checked.
   */
  predicate GuardAsWritten(numDishes: int, dish: int) {
    dish < numDishes
  }

  /** A negative dish id passes that guard although it names no menu entry. */
  lemma NegativeDishPassesGuard(menu: seq<int>)
    requires |menu| > 0
    ensures GuardAsWritten(|menu|, -1) && !OnMenu(menu, -1)
  {
  }
}
