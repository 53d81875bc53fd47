/**
  The hybrid assigner (asignarPedidoARepartidor): every driver with room is
  scored for a ready order, the candidates are ranked best first, and they
  are asked in that order to confirm. The firmware's pseudo-random draw
  behind each confirmation is a parameter here.
 */
module Assign {
  import opened Common
  import opened Geometry
  import opened Drivers
  import opened Sorting

  /** What the assigner reads of a driver: its state, position, load and current order. */
  datatype View = View(state: DriverState, pos: Pos, load: int, current: Option<Leg>)

  /** calcularDesvioRuta's answer when the driver's current order cannot be found. */
  const UNKNOWN_DETOUR: int := 999

  /** obtenerDestinoActual: where the driver is heading for its current order. */
  function Destination(v: View, leg: Leg): Pos {
    match v.state
    case ToRestaurant => leg.restaurant
    case PickingUp => leg.restaurant
    case ToHouse => leg.house
    case Delivering => leg.house
    case Idle => v.pos
  }

  /**
    calcularDesvioRuta: the extra distance of calling at the new order's
    pickup point on the way to the current destination. It is never
    negative, by the triangle inequality of the Manhattan distance.
   */
  function Deviation(v: View, pickup: Pos): (dev: int)
    ensures dev >= 0
    ensures v.state == Idle || v.load == 0 ==> dev == 0
    ensures v.state != Idle && v.load != 0 && v.current.None? ==> dev == UNKNOWN_DETOUR
  {
    if v.state == Idle || v.load == 0 then 0
    else match v.current
      case None => UNKNOWN_DETOUR
      case Some(leg) =>
        var dest := Destination(v, leg);
        TriangleInequality(v.pos, pickup, dest);
        Distance(v.pos, pickup) + Distance(pickup, dest) - Distance(v.pos, dest)
  }

  /** A pickup at the driver's own destination, or where the driver stands, costs no detour. */
  lemma NoDetourOnTheWay(v: View, leg: Leg)
    requires v.current == Some(leg)
    ensures Deviation(v, Destination(v, leg)) == 0
    ensures Deviation(v, v.pos) == 0
  {
    assert Distance(Destination(v, leg), Destination(v, leg)) == 0;
    assert Distance(v.pos, v.pos) == 0;
  }

  /**
    A pickup point off the driver's way costs twice the distance by which it
    sticks out, when it lies straight behind the driver along one line.
   */
  lemma DetourBehind(v: View, leg: Leg, back: nat)
    requires v.state != Idle && v.load > 0 && v.current == Some(leg)
    requires Destination(v, leg).y == v.pos.y && Destination(v, leg).x >= v.pos.x
    ensures Deviation(v, Pos(v.pos.x - back, v.pos.y)) == 2 * back
  {
  }

  /**
    calcularScoreCompleto, on integers (every term of the firmware's float
    score is a whole number): 100 less the distance to the pickup and 10
    per accepted order; a loaded driver gains 50 when its current order
    comes from the same restaurant, otherwise 20 for a detour of at most 3;
    an idle driver gains 5; a detour above the allowed maximum costs twice
    its length.
   */
  function Score(v: View, rest: int, pickup: Pos, dev: int): (s: int)
    ensures v.load == 0 && dev <= MAX_DETOUR ==> s == 100 - Distance(v.pos, pickup) + (if v.state == Idle then 5 else 0)
  {
    100 - Distance(v.pos, pickup) - 10 * v.load
    + (if v.load > 0 then
         (if v.current.Some? && v.current.value.rest == rest then 50
          else if dev <= 3 then 20 else 0)
       else 0)
    + (if v.state == Idle then 5 else 0)
    - (if dev > MAX_DETOUR then 2 * dev else 0)
  }

  /** Each further step away from the pickup point costs one point. */
  lemma ScoreByDistance(v: View, w: View, rest: int, pickup: Pos, dev: int)
    requires v.state == w.state && v.load == w.load && v.current == w.current
    ensures Score(v, rest, pickup, dev) - Score(w, rest, pickup, dev)
            == Distance(w.pos, pickup) - Distance(v.pos, pickup)
  {
  }

  /** Each order already accepted costs ten points, unless it changes the bonus. */
  lemma ScoreByLoad(v: View, rest: int, pickup: Pos, dev: int)
    requires v.load > 0
    ensures Score(v.(load := v.load + 1), rest, pickup, dev) == Score(v, rest, pickup, dev) - 10
  {
  }

  /** Within the allowed detour, a driver whose current order comes from the same restaurant outscores any other loaded driver at the same spot. */
  lemma SameRestaurantPreferred(v: View, w: View, rest: int, pickup: Pos, dv: int, dw: int)
    requires v.pos == w.pos && v.state == w.state && 0 < v.load == w.load
    requires v.current.Some? && v.current.value.rest == rest
    requires w.current.None? || w.current.value.rest != rest
    requires dv <= MAX_DETOUR && dw <= MAX_DETOUR
    ensures Score(v, rest, pickup, dv) >= Score(w, rest, pickup, dw) + 30
  {
  }

  // ---------------------------------------------------------------------
  // verificarConfirmacion
  // ---------------------------------------------------------------------

  /**
    Whether a driver confirms, given the draw `draw` in [0, 100): a driver
    asked for too long a detour confirms 5% of the time; otherwise always
    from a score of 70, 60% from 50, 25% from 30 and 10% below.
   */
  predicate Confirms(score: int, dev: int, draw: int) {
    if dev > MAX_DETOUR then draw < 5
    else if score >= 70 then true
    else if score >= 50 then draw < 60
    else if score >= 30 then draw < 25
    else draw < 10
  }

  /** The chance of a confirmation, in percent. */
  function AcceptChance(score: int, dev: int): (p: int)
    ensures 5 <= p <= 100
  {
    if dev > MAX_DETOUR then 5
    else if score >= 70 then 100
    else if score >= 50 then 60
    else if score >= 30 then 25
    else 10
  }

  /** A draw confirms exactly when it falls below the chance of confirmation. */
  lemma ConfirmsBelowChance(score: int, dev: int, draw: int)
    requires 0 <= draw < 100
    ensures Confirms(score, dev, draw) <==> draw < AcceptChance(score, dev)
  {
  }

  /** The chance never falls as the score rises. */
  lemma ChanceMonotone(s: int, t: int, dev: int)
    requires s <= t
    ensures AcceptChance(s, dev) <= AcceptChance(t, dev)
  {
  }

  // ---------------------------------------------------------------------
  // Candidates and their ranking
  // ---------------------------------------------------------------------

  /** One candidate driver: its index, score and detour. */
  datatype Candidate = Candidate(idx: int, score: int, detour: int)

  /** `a` goes before `b`: a higher score, or the same score and a smaller detour. */
  predicate Better(a: Candidate, b: Candidate) {
    a.score > b.score || (a.score == b.score && a.detour < b.detour)
  }

  /** Best first: no candidate is better than one before it. */
  predicate Ranked(s: seq<Candidate>) {
    forall i, j :: 0 <= i < j < |s| ==> !Better(s[j], s[i])
  }

  /** Whether a driver has room for one more order. */
  predicate HasRoom(v: View) {
    v.load < MAX_PEDIDOS_POR_REPARTIDOR
  }

  /** The candidate a driver makes for an order picked up at `pickup`. */
  function CandidateOf(views: seq<View>, i: int, rest: int, pickup: Pos): (c: Candidate)
    requires 0 <= i < |views|
    ensures c.idx == i && c.detour == Deviation(views[i], pickup)
  {
    var dev := Deviation(views[i], pickup);
    Candidate(i, Score(views[i], rest, pickup, dev), dev)
  }

  /** The candidates among the first `n` drivers, in driver order: those with room. */
  function CandidatesOf(views: seq<View>, n: nat, rest: int, pickup: Pos): seq<Candidate>
    requires n <= |views|
  {
    if n == 0 then []
    else CandidatesOf(views, n - 1, rest, pickup)
         + (if HasRoom(views[n - 1]) then [CandidateOf(views, n - 1, rest, pickup)] else [])
  }

  /**
    Exactly the drivers with room are candidates, each once, in driver
    order, with the score and detour computed for it.
   */
  lemma {:induction false} CandidatesExact(views: seq<View>, n: nat, rest: int, pickup: Pos)
    requires n <= |views|
    ensures var cs := CandidatesOf(views, n, rest, pickup);
            |cs| <= n
            && (forall k :: 0 <= k < |cs| ==> 0 <= cs[k].idx < n && HasRoom(views[cs[k].idx])
                                               && cs[k] == CandidateOf(views, cs[k].idx, rest, pickup))
            && (forall k, l :: 0 <= k < l < |cs| ==> cs[k].idx < cs[l].idx)
            && (forall i :: 0 <= i < n && HasRoom(views[i]) ==> exists k :: 0 <= k < |cs| && cs[k].idx == i)
  {
    if n > 0 {
      CandidatesExact(views, n - 1, rest, pickup);
      var prev := CandidatesOf(views, n - 1, rest, pickup);
      var cs := CandidatesOf(views, n, rest, pickup);
      assert forall k :: 0 <= k < |prev| ==> cs[k] == prev[k];
      if HasRoom(views[n - 1]) {
        assert cs[|prev|].idx == n - 1;
      }
    }
  }

  /**
    The scoring pass: one candidate for every driver with room, in driver
    order, collected in a buffer of MAX_REPARTIDORES slots.
   */
  method Gather(views: seq<View>, rest: int, pickup: Pos) returns (cands: array<Candidate>, n: int)
    requires |views| <= MAX_REPARTIDORES
    ensures fresh(cands) && cands.Length == MAX_REPARTIDORES
    ensures 0 <= n <= |views| && cands[..n] == CandidatesOf(views, |views|, rest, pickup)
  {
    cands := new Candidate[MAX_REPARTIDORES](_ => Candidate(-1, 0, 0));
    n := 0;
    for i := 0 to |views|
      invariant 0 <= n <= i
      invariant cands[..n] == CandidatesOf(views, i, rest, pickup)
    {
      if HasRoom(views[i]) {
        var dev := Deviation(views[i], pickup);
        var score := Score(views[i], rest, pickup, dev);
        cands[n] := Candidate(i, score, dev);
        n := n + 1;
      }
    }
  }

  /** Exchanges two slots of the candidate buffer. */
  method SwapCandidates(a: array<Candidate>, i: int, j: int)
    requires 0 <= i < a.Length && 0 <= j < a.Length
    modifies a
    ensures a[..] == old(a[..])[i := old(a[j])][j := old(a[i])]
    ensures multiset(a[..]) == multiset(old(a[..]))
  {
    a[i], a[j] := a[j], a[i];
  }

  /**
    The selection pass for slot `i`: every later candidate better than the
    one in slot `i` is swapped into it, so that slot `i` ends up holding a
    candidate no later one beats.
   */
  method SelectBest(a: array<Candidate>, n: int, i: int)
    requires 0 <= i < n <= a.Length
    modifies a
    ensures forall j :: i < j < n ==> !Better(a[j], a[i])
    ensures SameOutside(old(a[..]), a[..], i, n - 1)
    ensures multiset(a[..]) == multiset(old(a[..]))
  {
    for j := i + 1 to n
      invariant forall k :: i < k < j ==> !Better(a[k], a[i])
      invariant SameOutside(old(a[..]), a[..], i, n - 1)
      invariant multiset(a[..]) == multiset(old(a[..]))
    {
      SelectStep(a, i, j);
    }
  }

  /**
    One comparison of the selection pass: a candidate at `j` better than the
    one at `i` takes its place, which stays unbeaten by those in between.
   */
  method SelectStep(a: array<Candidate>, i: int, j: int)
    requires 0 <= i < j < a.Length
    requires forall k :: i < k < j ==> !Better(a[k], a[i])
    modifies a
    ensures forall k :: i < k <= j ==> !Better(a[k], a[i])
    ensures SameOutside(old(a[..]), a[..], i, j)
    ensures multiset(a[..]) == multiset(old(a[..]))
  {
    if Better(a[j], a[i]) {
      SwapCandidates(a, i, j);
    }
  }

  /**
    The firmware's exchange sort of the candidates: best first by score,
    ties to the smaller detour, as a rearrangement of the same candidates.
   */
  method RankCandidates(a: array<Candidate>, n: int)
    requires 0 <= n <= a.Length
    modifies a
    ensures Ranked(a[..n])
    ensures multiset(a[..n]) == multiset(old(a[..n]))
    ensures a[n..] == old(a[n..])
  {
    if n == 0 {
      return;
    }
    for i := 0 to n - 1
      invariant forall p, q :: 0 <= p < q < n && p < i ==> !Better(a[q], a[p])
      invariant multiset(a[..]) == multiset(old(a[..]))
      invariant SameOutside(old(a[..]), a[..], 0, n - 1)
    {
      RankPass(a, n, i);
    }
    RangeMultiset(old(a[..]), a[..], 0, n - 1);
    assert a[n..] == old(a[n..]) by {
      assert forall k :: n <= k < a.Length ==> a[k] == old(a[k]);
    }
  }

  /** Pass `i` of the exchange sort: slot `i` receives the best of the rest. */
  method RankPass(a: array<Candidate>, n: int, i: int)
    requires 0 <= i < n <= a.Length
    requires forall p, q :: 0 <= p < q < n && p < i ==> !Better(a[q], a[p])
    modifies a
    ensures forall p, q :: 0 <= p < q < n && p < i + 1 ==> !Better(a[q], a[p])
    ensures multiset(a[..]) == multiset(old(a[..]))
    ensures SameOutside(old(a[..]), a[..], 0, n - 1)
  {
    ghost var before := a[..];
    SelectBest(a, n, i);
    RangeMultiset(before, a[..], i, n - 1);
    RankStep(before, a[..], n, i);
  }

  /**
    One selection pass keeps the ranked prefix ranked and extends it by one:
    the candidates it rearranges were all no better than the prefix.
   */
  lemma RankStep(s: seq<Candidate>, t: seq<Candidate>, n: int, i: int)
    requires 0 <= i < n <= |s| == |t|
    requires forall p, q :: 0 <= p < q < n && p < i ==> !Better(s[q], s[p])
    requires forall j :: i < j < n ==> !Better(t[j], t[i])
    requires SameOutside(s, t, i, n - 1)
    requires multiset(t[i..n]) == multiset(s[i..n])
    ensures forall p, q :: 0 <= p < q < n && p < i + 1 ==> !Better(t[q], t[p])
  {
    forall p, q | 0 <= p < q < n && p < i + 1
      ensures !Better(t[q], t[p])
    {
      if p < i && q >= i {
        assert t[q] in multiset(s[i..n]) by {
          assert t[q] == t[i..n][q - i];
        }
        var m :| 0 <= m < |s[i..n]| && s[i..n][m] == t[q];
        assert s[i + m] == t[q];
        assert !Better(s[i + m], s[p]);
      }
    }
  }

  /** The first candidate of a ranking is one no other candidate beats. */
  lemma RankedHeadIsBest(s: seq<Candidate>)
    requires Ranked(s) && |s| > 0
    ensures forall k :: 0 <= k < |s| ==> !Better(s[k], s[0])
  {
  }

  // ---------------------------------------------------------------------
  // The decision
  // ---------------------------------------------------------------------

  /**
    The first position of the ranking whose driver confirms, given one
    draw per position, or None when every driver declines.
   */
  function FirstConfirming(ranked: seq<Candidate>, draws: seq<int>, from: nat): (r: Option<nat>)
    requires |draws| == |ranked|
    ensures r.Some? ==> from <= r.value < |ranked|
                        && Confirms(ranked[r.value].score, ranked[r.value].detour, draws[r.value])
                        && forall k :: from <= k < r.value ==> !Confirms(ranked[k].score, ranked[k].detour, draws[k])
    ensures r.None? ==> forall k :: from <= k < |ranked| ==> !Confirms(ranked[k].score, ranked[k].detour, draws[k])
    decreases |ranked| - from
  {
    if from >= |ranked| then None
    else if Confirms(ranked[from].score, ranked[from].detour, draws[from]) then Some(from)
    else FirstConfirming(ranked, draws, from + 1)
  }

  /**
    The driver an order goes to: the first in the ranking to confirm or,
    when none does, the best ranked one (the forced assignment).
   */
  function Chosen(ranked: seq<Candidate>, draws: seq<int>): (k: nat)
    requires |draws| == |ranked| > 0
    ensures k < |ranked|
    ensures k > 0 ==> Confirms(ranked[k].score, ranked[k].detour, draws[k])
    ensures forall j :: 0 <= j < k ==> !Confirms(ranked[j].score, ranked[j].detour, draws[j])
    ensures !Confirms(ranked[k].score, ranked[k].detour, draws[k]) ==>
              k == 0 && forall j :: 0 <= j < |ranked| ==> !Confirms(ranked[j].score, ranked[j].detour, draws[j])
  {
    match FirstConfirming(ranked, draws, 0)
    case Some(k) => k
    case None => 0
  }

  /** A driver sure to confirm (score 70 or more, detour allowed) is never passed over for a worse one. */
  lemma SureDriverNotPassed(ranked: seq<Candidate>, draws: seq<int>, k: nat)
    requires |draws| == |ranked| && k < |ranked|
    requires ranked[k].score >= 70 && ranked[k].detour <= MAX_DETOUR
    ensures Chosen(ranked, draws) <= k
  {
    assert Confirms(ranked[k].score, ranked[k].detour, draws[k]);
  }

  /**
    A rearrangement of the candidates keeps what the scoring pass
    guarantees: every entry is the candidate of a driver with room, and no
    driver appears twice.
   */
  lemma RearrangedCandidates(views: seq<View>, rest: int, pickup: Pos, ranked: seq<Candidate>)
    requires multiset(ranked) == multiset(CandidatesOf(views, |views|, rest, pickup))
    ensures forall k :: 0 <= k < |ranked| ==>
              0 <= ranked[k].idx < |views| && HasRoom(views[ranked[k].idx])
              && ranked[k] == CandidateOf(views, ranked[k].idx, rest, pickup)
    ensures forall k, l :: 0 <= k < l < |ranked| ==> ranked[k].idx != ranked[l].idx
  {
    var cs := CandidatesOf(views, |views|, rest, pickup);
    CandidatesExact(views, |views|, rest, pickup);
    forall k | 0 <= k < |ranked|
      ensures 0 <= ranked[k].idx < |views| && HasRoom(views[ranked[k].idx])
              && ranked[k] == CandidateOf(views, ranked[k].idx, rest, pickup)
    {
      assert ranked[k] in multiset(ranked);
      assert ranked[k] in cs;
    }
    forall k, l | 0 <= k < l < |ranked|
      ensures ranked[k].idx != ranked[l].idx
    {
      if ranked[k].idx == ranked[l].idx {
        TwiceCounted(ranked, k, l);
        CountedOnce(cs, ranked[k]);
      }
    }
  }

  /**
    Whether the driver at position `j` of the ranking was asked and said no:
    everyone before the first to confirm, or everyone when nobody does.
   */
  predicate Declined(ranked: seq<Candidate>, draws: seq<int>, j: int)
    requires |draws| == |ranked|
  {
    match FirstConfirming(ranked, draws, 0)
    case Some(k) => j < k
    case None => true
  }

  /** Driver `d` is among the first `i` positions of the ranking. */
  predicate AskedBefore(ranked: seq<Candidate>, i: int, d: int) {
    exists j :: 0 <= j < i && j < |ranked| && ranked[j].idx == d
  }

  /**
    With the drivers of a ranking all distinct, the first `stop` positions
    of it are exactly the drivers that declined, once `Declined` holds
    exactly below `stop`; a driver outside the ranking was never asked.
   */
  lemma AskedExactlyDeclined(ranked: seq<Candidate>, draws: seq<int>, stop: int, d: int)
    requires |draws| == |ranked|
    requires forall i, j :: 0 <= i < j < |ranked| ==> ranked[i].idx != ranked[j].idx
    requires forall j :: 0 <= j < |ranked| ==> (Declined(ranked, draws, j) <==> j < stop)
    ensures forall j :: 0 <= j < |ranked| && ranked[j].idx == d ==> (AskedBefore(ranked, stop, d) <==> Declined(ranked, draws, j))
    ensures (forall j :: 0 <= j < |ranked| ==> ranked[j].idx != d) ==> !AskedBefore(ranked, stop, d)
  {
    forall j | 0 <= j < |ranked| && ranked[j].idx == d
      ensures AskedBefore(ranked, stop, d) <==> Declined(ranked, draws, j)
    {
      if j < stop {
        assert AskedBefore(ranked, stop, d);
      }
    }
  }
}
