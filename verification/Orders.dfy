/** The order list, the walk over its playable entries, and the walk's inverse. */
module Orders {

  const MAX_ORDERS := 255
  const MAX_PATTERNS := 200
  const ORDER_EMPTY := 255

  type OrderList = s: seq<int> | |s| == MAX_ORDERS witness seq(MAX_ORDERS, _ => ORDER_EMPTY)

  predicate Playable(orders: OrderList, k: int) {
    0 <= k < MAX_ORDERS && orders[k] < MAX_PATTERNS
  }

  /** Neither a pattern nor the end: a separator or another mark. */
  predicate Skipped(orders: OrderList, k: int) {
    0 <= k < MAX_ORDERS && orders[k] >= MAX_PATTERNS && orders[k] != ORDER_EMPTY
  }

  predicate Stops(orders: OrderList, k: int) {
    k >= MAX_ORDERS || (0 <= k && orders[k] == ORDER_EMPTY)
  }

  /** The next playable order, or 0 when the song ends first. */
  function NextOrder(orders: OrderList, p: int): (k: int)
    requires -1 <= p
    ensures k == 0 || (p < k && Playable(orders, k) && forall i | p < i < k :: Skipped(orders, i))
    ensures !(p < k && Playable(orders, k)) ==>
      exists stop :: p < stop && Stops(orders, stop) && forall i | p < i < stop :: Skipped(orders, i)
    decreases MAX_ORDERS - p
  {
    if Stops(orders, p + 1) then 0
    else if Playable(orders, p + 1) then p + 1
    else NextOrder(orders, p + 1)
  }

  method GetNextOrder(order: array<int>, position: int) returns (next: int)
    requires order.Length == MAX_ORDERS && -1 <= position
    ensures next == NextOrder(order[..], position)
  {
    var orderCounter := -1;
    var baseOrder := position;
    var more := true;
    while more
      invariant position <= baseOrder && orderCounter == baseOrder - position - 1
      invariant more ==> NextOrder(order[..], baseOrder) == NextOrder(order[..], position)
      invariant !more ==> baseOrder < MAX_ORDERS && NextOrder(order[..], position) == baseOrder
      decreases MAX_ORDERS - baseOrder, more
    {
      baseOrder := baseOrder + 1;
      if baseOrder > MAX_ORDERS - 1 || order[baseOrder] == ORDER_EMPTY {
        return 0;
      }
      orderCounter := orderCounter + 1;
      more := order[baseOrder] > MAX_PATTERNS - 1 && orderCounter < MAX_ORDERS;
    }
    if orderCounter == MAX_ORDERS {
      return -1;
    }
    next := baseOrder;
  }

  /** The orders the song plays again and again: order 0 and the playable ones before the first empty one. */
  predicate OnWalk(orders: OrderList, t: int) {
    t == 0 || (Playable(orders, t) && forall i | 0 < i < t :: orders[i] != ORDER_EMPTY)
  }

  function Walk(orders: OrderList, p: int, n: nat): int
    requires -1 <= p
    ensures -1 <= Walk(orders, p, n)
  {
    if n == 0 then p else NextOrder(orders, Walk(orders, p, n - 1))
  }

  lemma NextIsOnWalk(orders: OrderList, p: int)
    requires OnWalk(orders, p)
    ensures OnWalk(orders, NextOrder(orders, p))
  {
    var k := NextOrder(orders, p);
    forall i | 0 < i < k
      ensures orders[i] != ORDER_EMPTY
    {
      assert p < i ==> Skipped(orders, i);
    }
  }

  /** Short of a later order of the walk, the next order neither misses it nor starts over. */
  lemma NextApproaches(orders: OrderList, p: int, t: int)
    requires 0 <= p < t && OnWalk(orders, t)
    ensures p < NextOrder(orders, p) <= t
  {
    var k := NextOrder(orders, p);
    assert !Skipped(orders, t);
    forall stop | p < stop && Stops(orders, stop)
      ensures t < stop
    {
    }
    assert t < k ==> Skipped(orders, t);
  }

  /** How far the walk is from reaching t: first around the end of the song, then up to t. */
  function Distance(p: int, t: int): int {
    if p < t then t - p else MAX_ORDERS - p + t
  }

  lemma NextIsCloser(orders: OrderList, p: int, t: int)
    requires 0 <= p < MAX_ORDERS && OnWalk(orders, t) && NextOrder(orders, p) != t
    ensures 0 <= Distance(NextOrder(orders, p), t) < Distance(p, t)
    ensures 0 <= NextOrder(orders, p) < MAX_ORDERS
  {
    if p < t {
      NextApproaches(orders, p, t);
    }
  }

  /** From an order off the walk, no number of steps leads back to it. */
  lemma {:induction false} NeverReturns(orders: OrderList, t: int, n: nat)
    requires 0 <= t < MAX_ORDERS && !OnWalk(orders, t) && 0 < n
    ensures OnWalk(orders, Walk(orders, t, n)) || t < Walk(orders, t, n)
    ensures Walk(orders, t, n) != t
  {
    if n > 1 {
      NeverReturns(orders, t, n - 1);
      if OnWalk(orders, Walk(orders, t, n - 1)) {
        NextIsOnWalk(orders, Walk(orders, t, n - 1));
      }
    } else {
      assert Walk(orders, t, 0) == t;
    }
  }

  lemma {:induction false} Returns(orders: OrderList, p: int, t: int, n: nat)
    requires 0 <= p < MAX_ORDERS && 0 <= t < MAX_ORDERS && OnWalk(orders, t)
    requires Walk(orders, t, n) == p
    ensures exists m :: n < m && Walk(orders, t, m) == t
    decreases Distance(p, t)
  {
    if NextOrder(orders, p) == t {
      assert Walk(orders, t, n + 1) == t;
    } else {
      NextIsCloser(orders, p, t);
      Returns(orders, NextOrder(orders, p), t, n + 1);
    }
  }

  /** goto_previous_order's loop ends exactly for the orders on the walk. */
  lemma WalkReturnsIff(orders: OrderList, t: int)
    requires 0 <= t < MAX_ORDERS
    ensures (exists n | 0 < n :: Walk(orders, t, n) == t) <==> OnWalk(orders, t)
  {
    if OnWalk(orders, t) {
      Returns(orders, t, t, 0);
    } else {
      forall n: nat | 0 < n
        ensures Walk(orders, t, n) != t
      {
        NeverReturns(orders, t, n);
      }
    }
  }

  /** The search of goto_previous_order: it inverts NextOrder. */
  method PreviousOrder(order: array<int>, current: int) returns (previous: int)
    requires order.Length == MAX_ORDERS && 0 <= current < MAX_ORDERS && OnWalk(order[..], current)
    ensures 0 <= previous < MAX_ORDERS && NextOrder(order[..], previous) == current
    ensures OnWalk(order[..], previous)
  {
    var currentOrder := current;
    var nextOrder := GetNextOrder(order, currentOrder);
    while nextOrder != current && nextOrder != -1
      invariant 0 <= currentOrder < MAX_ORDERS && OnWalk(order[..], currentOrder)
      invariant nextOrder == NextOrder(order[..], currentOrder)
      decreases Distance(currentOrder, current)
    {
      NextIsCloser(order[..], currentOrder, current);
      NextIsOnWalk(order[..], currentOrder);
      currentOrder := nextOrder;
      nextOrder := GetNextOrder(order, currentOrder);
    }
    previous := currentOrder;
  }
}
