/**
  Shared constants, result wrappers, tick arithmetic and small helpers on
  fixed-capacity buffers used throughout the controller model.
 */
module Common {

  // Capacities of the controller's static tables.
  const MAX_GRID_SIZE: int := 20
  const MAX_REPARTIDORES: int := 10
  const MAX_PEDIDOS: int := 50
  const MAX_RESTAURANTES: int := 10
  const MAX_CASAS: int := 20
  const MAX_PLATILLOS: int := 10
  const MAX_MENU: int := 6
  const INF: int := 999999
  const MAX_PEDIDOS_POR_REPARTIDOR: int := 3

  /** Receipt numbers live in `char[20]` buffers: at most 19 characters. */
  const RECEIPT_CAPACITY: int := 19

  /** The millisecond tick counter is an unsigned 32-bit value. */
  const TICK_MOD: int := 0x1_0000_0000

  datatype Option<+T> = None | Some(value: T)

  datatype Result<+T, +E> = Ok(value: T) | Err(error: E)

  predicate IsTick(t: int) {
    0 <= t < TICK_MOD
  }

  /** `t + d` on the 32-bit tick counter: wraps around past 2^32 - 1. */
  function TickAdd(t: int, d: nat): (r: int)
    requires IsTick(t)
    ensures IsTick(r)
    ensures t + d < TICK_MOD ==> r == t + d
    ensures t + d >= TICK_MOD && d < TICK_MOD ==> r == t + d - TICK_MOD
  {
    (t + d) % TICK_MOD
  }

  /** Decimal rendering of a natural number, as `%d` prints it. */
  function NatToString(n: nat): (s: string)
    ensures 1 <= |s|
    ensures forall k :: 0 <= k < |s| ==> '0' <= s[k] <= '9'
    ensures n < 10 <==> |s| == 1
    decreases n
  {
    if n < 10 then [DigitChar(n)] else NatToString(n / 10) + [DigitChar(n % 10)]
  }

  function DigitChar(d: int): (c: char)
    requires 0 <= d < 10
    ensures '0' <= c <= '9' && c as int - '0' as int == d
  {
    ('0' as int + d) as char
  }

  /**
    Shifts `a[idx + 1 .. count)` one slot to the left, the way the firmware
    removes an entry from each of its fixed-size lists; the last old slot
    keeps its stale copy.
   */
  method RemoveAt<T>(a: array<T>, count: int, idx: int)
    requires 0 <= idx < count <= a.Length
    modifies a
    ensures a[..count - 1] == old(a[..idx]) + old(a[idx + 1..count])
    ensures forall k :: 0 <= k < idx ==> a[k] == old(a[k])
    ensures forall k :: idx <= k < count - 1 ==> a[k] == old(a[k + 1])
    ensures a[count - 1..] == old(a[count - 1..])
  {
    var i := idx;
    while i < count - 1
      invariant idx <= i <= count - 1
      invariant a[..idx] == old(a[..idx])
      invariant forall k :: idx <= k < i ==> a[k] == old(a[k + 1])
      invariant a[i..] == old(a[i..])
    {
      a[i] := a[i + 1];
      i := i + 1;
    }
    assert a[..count - 1] == old(a[..idx]) + old(a[idx + 1..count]) by {
      forall k | 0 <= k < count - 1
        ensures a[k] == (old(a[..idx]) + old(a[idx + 1..count]))[k]
      {
        if k < idx {
          assert a[k] == a[..idx][k];
        }
      }
    }
  }

  /** Linear search for the first slot of `a[..count]` holding `x`, or -1. */
  method IndexOf<T(==)>(a: array<T>, count: int, x: T) returns (i: int)
    requires 0 <= count <= a.Length
    ensures -1 <= i < count
    ensures i >= 0 ==> a[i] == x && forall k :: 0 <= k < i ==> a[k] != x
    ensures i == -1 <==> x !in a[..count]
  {
    i := 0;
    while i < count
      invariant 0 <= i <= count
      invariant forall k :: 0 <= k < i ==> a[k] != x
    {
      if a[i] == x {
        return;
      }
      i := i + 1;
    }
    i := -1;
  }

  /** The first position of `x` in `q`, or -1: what IndexOf finds, on a list value. */
  function FirstIndex<T(==)>(q: seq<T>, x: T): (i: int)
    ensures -1 <= i < |q|
    ensures i >= 0 ==> q[i] == x && x !in q[..i]
    ensures i == -1 <==> x !in q
  {
    if q == [] then -1
    else if q[0] == x then 0
    else
      var j := FirstIndex(q[1..], x);
      assert q == [q[0]] + q[1..];
      if j < 0 then -1
      else
        assert q[..j + 1] == [q[0]] + q[1..][..j];
        j + 1
  }

  /** A position holding `x` with no `x` before it is the first position of `x`. */
  lemma FirstIndexAt<T>(q: seq<T>, x: T, k: nat)
    requires k < |q| && q[k] == x && x !in q[..k]
    ensures FirstIndex(q, x) == k
  {
  }

  /** `q` with its first occurrence of `x` removed; `q` itself when `x` is absent. */
  function Without<T(==)>(q: seq<T>, x: T): seq<T> {
    if q == [] then []
    else if q[0] == x then q[1..]
    else [q[0]] + Without(q[1..], x)
  }

  /** Removing the first occurrence at `k` is cutting the list at `k`. */
  lemma {:induction false} WithoutAt<T>(q: seq<T>, x: T, k: nat)
    requires k < |q| && q[k] == x && x !in q[..k]
    ensures Without(q, x) == q[..k] + q[k + 1..]
  {
    if k > 0 {
      assert q[1..][..k - 1] == q[1..k];
      assert x !in q[1..][..k - 1];
      WithoutAt(q[1..], x, k - 1);
      assert q[1..][k..] == q[k + 1..];
      assert [q[0]] + q[1..k] == q[..k];
    }
  }

  /** Removing an absent value changes nothing. */
  lemma {:induction false} WithoutAbsent<T>(q: seq<T>, x: T)
    requires x !in q
    ensures Without(q, x) == q
  {
    if q != [] {
      assert x !in q[1..];
      WithoutAbsent(q[1..], x);
    }
  }

  /** Exactly one copy of `x` goes, if there was one. */
  lemma {:induction false} WithoutMultiset<T>(q: seq<T>, x: T)
    ensures multiset(Without(q, x)) == multiset(q) - multiset{x}
  {
    if q != [] {
      assert q == [q[0]] + q[1..];
      assert multiset(q) == multiset{q[0]} + multiset(q[1..]);
      if q[0] != x {
        WithoutMultiset(q[1..], x);
        assert multiset(Without(q, x)) == multiset{q[0]} + multiset(Without(q[1..], x));
      }
    }
  }

  /** Cutting out the entry at `k` takes exactly one copy of it out of the multiset. */
  lemma CutMultiset<T>(q: seq<T>, k: nat)
    requires k < |q|
    ensures multiset(q[..k] + q[k + 1..]) == multiset(q) - multiset{q[k]}
  {
    assert q == q[..k] + [q[k]] + q[k + 1..];
  }

  /** A value at two positions of a list is counted at least twice. */
  lemma TwiceCounted<T>(q: seq<T>, i: int, j: int)
    requires 0 <= i < j < |q| && q[i] == q[j]
    ensures multiset(q)[q[i]] >= 2
  {
    assert q == q[..j] + [q[j]] + q[j + 1..];
    assert q[..j][i] == q[i];
  }

  /** In a list without repeats every value is counted at most once. */
  lemma {:induction false} CountedOnce<T>(q: seq<T>, x: T)
    requires forall i, j :: 0 <= i < j < |q| ==> q[i] != q[j]
    ensures multiset(q)[x] <= 1
  {
    if q != [] {
      CountedOnce(q[1..], x);
      assert q == [q[0]] + q[1..];
      if q[0] == x {
        assert x !in q[1..];
      }
    }
  }
}
