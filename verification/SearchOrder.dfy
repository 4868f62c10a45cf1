/**
 A state query visits the writes of each depth in the order of a hash map.  What it can return over all
 such orders, with the comparison as written and whatever ids were reused.
 */
module SearchOrder {
  import opened Types
  import opened ForkTree
  import opened FlatState

  /** The blocks with a write of the key filed at a depth. */
  function Writers(s: State, k: Key, d: nat): (ids: set<BlockId>)
    ensures forall at :: at in ids <==> Entry(s, k, d, at).Some?
  {
    if k in s && d in s[k] then s[k][d].Keys else {}
  }

  ghost predicate Lists(order: seq<BlockId>, ids: set<BlockId>) {
    multiset(order) == multiset(ids)
  }

  /** The writes at one depth checked in the given order, up to the first that decides. */
  function CheckInOrder(g: Guard, t: Tree, s: State, k: Key, id: BlockId, d: nat, order: seq<BlockId>)
    : Result<Option<Option<Value>>, QueryError>
    requires Terminates(g, t)
  {
    if order == [] then Ok(None)
    else
      match IsAncestor(g, t, id, order[0])
      case Err(e) => Err(e)
      case Ok(true) => Ok(Entry(s, k, d, order[0]))
      case Ok(false) => CheckInOrder(g, t, s, k, id, d, order[1..])
  }

  /** The depths below `n`, deepest first, each with its own order. */
  function SearchInOrder(g: Guard, t: Tree, s: State, k: Key, id: BlockId, n: nat, orders: seq<seq<BlockId>>)
    : Result<Option<Value>, QueryError>
    requires Terminates(g, t) && n <= |orders|
  {
    if n == 0 then Ok(None)
    else
      match CheckInOrder(g, t, s, k, id, n - 1, orders[n - 1])
      case Err(e) => Err(e)
      case Ok(Some(v)) => Ok(v)
      case Ok(None) => SearchInOrder(g, t, s, k, id, n - 1, orders)
  }

  // ----- One depth -----

  /** What checking the writes of the given blocks can return: what any block that decides says. */
  ghost predicate DepthOutcome(
    g: Guard, t: Tree, s: State, k: Key, id: BlockId, d: nat, ids: set<BlockId>,
    r: Result<Option<Option<Value>>, QueryError>)
    requires Terminates(g, t)
  {
    match r
    case Err(e) => exists at :: at in ids && IsAncestor(g, t, id, at) == Err(e)
    case Ok(Some(v)) => exists at :: at in ids && IsAncestor(g, t, id, at) == Ok(true) && Entry(s, k, d, at) == Some(v)
    case Ok(None) => forall at :: at in ids ==> IsAncestor(g, t, id, at) == Ok(false)
  }

  lemma {:induction false} EveryOrder(
    g: Guard, t: Tree, s: State, k: Key, id: BlockId, d: nat, order: seq<BlockId>, ids: set<BlockId>)
    requires Terminates(g, t) && ids <= Writers(s, k, d) && forall at :: at in order <==> at in ids
    ensures DepthOutcome(g, t, s, k, id, d, ids, CheckInOrder(g, t, s, k, id, d, order))
  {
    if order != [] {
      var rest := set at | at in order[1..];
      assert forall at :: at in ids ==> at == order[0] || at in rest;
      EveryOrder(g, t, s, k, id, d, order[1..], rest);
    }
  }

  ghost function Listing(ids: set<BlockId>): (order: seq<BlockId>)
    ensures Lists(order, ids)
  {
    if ids == {} then []
    else
      var at :| at in ids;
      assert multiset(ids) == multiset{at} + multiset(ids - {at});
      [at] + Listing(ids - {at})
  }

  lemma Listed(order: seq<BlockId>, ids: set<BlockId>)
    requires Lists(order, ids)
    ensures forall at :: at in order <==> at in ids
  {
    assert forall at :: at in order <==> at in multiset(order);
  }

  /** Any block may come first, so each of these outcomes is that of some order. */
  lemma SomeOrder(
    g: Guard, t: Tree, s: State, k: Key, id: BlockId, d: nat, r: Result<Option<Option<Value>>, QueryError>)
    returns (order: seq<BlockId>)
    requires Terminates(g, t) && DepthOutcome(g, t, s, k, id, d, Writers(s, k, d), r)
    ensures Lists(order, Writers(s, k, d)) && CheckInOrder(g, t, s, k, id, d, order) == r
  {
    var ids := Writers(s, k, d);
    if r == Ok(None) {
      order := Listing(ids);
      Listed(order, ids);
      EveryOrder(g, t, s, k, id, d, order, ids);
    } else {
      var at :| at in ids && match IsAncestor(g, t, id, at)
                             case Err(e) => r == Err(e)
                             case Ok(above) => above && r == Ok(Entry(s, k, d, at));
      assert multiset(ids) == multiset{at} + multiset(ids - {at});
      order := [at] + Listing(ids - {at});
    }
  }

  // ----- The whole query, as written -----

  ghost predicate SameDepth(t: Tree, id: BlockId, at: BlockId)
    requires id in t.blocks
  {
    at in t.blocks && t.blocks[at].depth == t.blocks[id].depth
  }

  /** As written, a block has no ancestor but itself, and only a block at its own depth is not an error. */
  lemma OnlyItself(t: Tree, id: BlockId, at: BlockId)
    requires Filed(t) && id in t.blocks
    ensures IsAncestor(AsWritten, t, id, at) ==
            if SameDepth(t, id, at) then Ok(at == id)
            else Err(if at in t.blocks then InvalidAncestorDepth else UnknownBlock)
  {
  }

  /** From depth `n` on nothing decides: all writes are by other blocks that are now as deep as this one. */
  ghost predicate Clear(t: Tree, s: State, k: Key, id: BlockId, n: nat)
    requires id in t.blocks
  {
    forall d, at :: n <= d <= t.blocks[id].depth && Entry(s, k, d, at).Some? ==> at != id && SameDepth(t, id, at)
  }

  /** A write filed at depth `d` is by a block that is not, or no longer, as deep as this one. */
  ghost predicate Blocked(t: Tree, s: State, k: Key, id: BlockId, d: nat, e: QueryError)
    requires id in t.blocks
  {
    exists at :: Entry(s, k, d, at).Some? && !SameDepth(t, id, at) &&
                 e == if at in t.blocks then InvalidAncestorDepth else UnknownBlock
  }

  ghost predicate OwnDecides(t: Tree, s: State, k: Key, id: BlockId, d: nat)
    requires id in t.blocks
  {
    d <= t.blocks[id].depth && Entry(s, k, d, id).Some? && Clear(t, s, k, id, d + 1)
  }

  ghost predicate BlockDecides(t: Tree, s: State, k: Key, id: BlockId, d: nat, e: QueryError)
    requires id in t.blocks
  {
    d <= t.blocks[id].depth && Blocked(t, s, k, id, d, e) && Clear(t, s, k, id, d + 1)
  }

  /**
   What a query as written can return: at the deepest depth with a write that decides, the block's own
   write or the error for a blocking one; none if no write decides.
   */
  ghost predicate WrittenOutcome(t: Tree, s: State, k: Key, id: BlockId, r: Result<Option<Value>, QueryError>)
    requires id in t.blocks
  {
    match r
    case Err(e) => exists d :: BlockDecides(t, s, k, id, d, e)
    case Ok(v) =>
      || (exists d :: OwnDecides(t, s, k, id, d) && Entry(s, k, d, id) == Some(v))
      || (v == None && Clear(t, s, k, id, 0))
  }

  /** One depth, below which nothing decided: it settles the query or is clear itself. */
  lemma DepthWritten(
    t: Tree, s: State, k: Key, id: BlockId, d: nat, r: Result<Option<Option<Value>>, QueryError>)
    requires Filed(t) && id in t.blocks && d <= t.blocks[id].depth && Clear(t, s, k, id, d + 1)
    requires DepthOutcome(AsWritten, t, s, k, id, d, Writers(s, k, d), r)
    ensures match r
            case Err(e) => WrittenOutcome(t, s, k, id, Err(e))
            case Ok(Some(v)) => WrittenOutcome(t, s, k, id, Ok(v))
            case Ok(None) => Clear(t, s, k, id, d)
  {
    forall at ensures IsAncestor(AsWritten, t, id, at) ==
                      if SameDepth(t, id, at) then Ok(at == id)
                      else Err(if at in t.blocks then InvalidAncestorDepth else UnknownBlock) {
      OnlyItself(t, id, at);
    }
    match r {
      case Err(e) => assert BlockDecides(t, s, k, id, d, e);
      case Ok(Some(v)) => assert OwnDecides(t, s, k, id, d);
      case Ok(None) =>
    }
  }

  /** Every depth below `n` has an order that lists its writers. */
  ghost predicate Orders(s: State, k: Key, n: nat, orders: seq<seq<BlockId>>) {
    |orders| == n && forall d :: 0 <= d < n ==> Lists(orders[d], Writers(s, k, d))
  }

  lemma {:induction false} OrdersGiveOutcome(
    t: Tree, s: State, k: Key, id: BlockId, n: nat, orders: seq<seq<BlockId>>)
    requires Filed(t) && id in t.blocks && n <= t.blocks[id].depth + 1 && Clear(t, s, k, id, n)
    requires Orders(s, k, t.blocks[id].depth + 1, orders)
    ensures WrittenOutcome(t, s, k, id, SearchInOrder(AsWritten, t, s, k, id, n, orders))
    decreases n
  {
    if n > 0 {
      Listed(orders[n - 1], Writers(s, k, n - 1));
      EveryOrder(AsWritten, t, s, k, id, n - 1, orders[n - 1], Writers(s, k, n - 1));
      var found := CheckInOrder(AsWritten, t, s, k, id, n - 1, orders[n - 1]);
      DepthWritten(t, s, k, id, n - 1, found);
      if found == Ok(None) {
        OrdersGiveOutcome(t, s, k, id, n - 1, orders);
      }
    }
  }

  lemma {:induction false} ClearIsPassed(
    t: Tree, s: State, k: Key, id: BlockId, m: nat, n: nat, orders: seq<seq<BlockId>>)
    requires Filed(t) && id in t.blocks && m <= n <= t.blocks[id].depth + 1 && Clear(t, s, k, id, m)
    requires Orders(s, k, t.blocks[id].depth + 1, orders)
    ensures SearchInOrder(AsWritten, t, s, k, id, n, orders) == SearchInOrder(AsWritten, t, s, k, id, m, orders)
    decreases n
  {
    if m < n {
      Listed(orders[n - 1], Writers(s, k, n - 1));
      EveryOrder(AsWritten, t, s, k, id, n - 1, orders[n - 1], Writers(s, k, n - 1));
      forall at | at in Writers(s, k, n - 1) ensures IsAncestor(AsWritten, t, id, at) == Ok(false) {
        OnlyItself(t, id, at);
      }
      ClearIsPassed(t, s, k, id, m, n - 1, orders);
    }
  }

  ghost function AnyOrders(s: State, k: Key, n: nat): (orders: seq<seq<BlockId>>)
    ensures Orders(s, k, n, orders)
  {
    seq(n, (d: nat) => Listing(Writers(s, k, d)))
  }

  /** The query, iterating in the given orders, returns `r`. */
  ghost predicate Returns(
    t: Tree, s: State, k: Key, id: BlockId, orders: seq<seq<BlockId>>, r: Result<Option<Value>, QueryError>)
    requires id in t.blocks
  {
    var n := t.blocks[id].depth + 1;
    Orders(s, k, n, orders) && SearchInOrder(AsWritten, t, s, k, id, n, orders) == r
  }

  /** If depth `d` decides, some orders lead to each outcome that it allows. */
  lemma DecidedInSomeOrder(
    t: Tree, s: State, k: Key, id: BlockId, d: nat, found: Result<Option<Option<Value>>, QueryError>)
    returns (orders: seq<seq<BlockId>>)
    requires Filed(t) && id in t.blocks && d <= t.blocks[id].depth && Clear(t, s, k, id, d + 1)
    requires DepthOutcome(AsWritten, t, s, k, id, d, Writers(s, k, d), found) && found != Ok(None)
    ensures Returns(t, s, k, id, orders, if found.Err? then Err(found.error) else Ok(found.value.value))
  {
    var n := t.blocks[id].depth + 1;
    var order := SomeOrder(AsWritten, t, s, k, id, d, found);
    orders := AnyOrders(s, k, n)[d := order];
    ClearIsPassed(t, s, k, id, d + 1, n, orders);
  }

  lemma OutcomeInSomeOrder(t: Tree, s: State, k: Key, id: BlockId, r: Result<Option<Value>, QueryError>)
    returns (orders: seq<seq<BlockId>>)
    requires Filed(t) && id in t.blocks && WrittenOutcome(t, s, k, id, r)
    ensures Returns(t, s, k, id, orders, r)
  {
    var n := t.blocks[id].depth + 1;
    if r.Err? {
      var d :| BlockDecides(t, s, k, id, d, r.error);
      var at :| at in Writers(s, k, d) && !SameDepth(t, id, at) &&
                r.error == if at in t.blocks then InvalidAncestorDepth else UnknownBlock;
      OnlyItself(t, id, at);
      orders := DecidedInSomeOrder(t, s, k, id, d, Err(r.error));
    } else if d :| OwnDecides(t, s, k, id, d) && Entry(s, k, d, id) == Some(r.value) {
      OnlyItself(t, id, id);
      assert id in Writers(s, k, d);
      orders := DecidedInSomeOrder(t, s, k, id, d, Ok(Some(r.value)));
    } else {
      orders := AnyOrders(s, k, n);
      ClearIsPassed(t, s, k, id, 0, n, orders);
    }
  }

  /** The outcomes over all orders are exactly these. */
  lemma OutcomeIffSomeOrder(t: Tree, s: State, k: Key, id: BlockId, r: Result<Option<Value>, QueryError>)
    requires Filed(t) && id in t.blocks
    ensures WrittenOutcome(t, s, k, id, r) <==> exists orders :: Returns(t, s, k, id, orders, r)
  {
    if WrittenOutcome(t, s, k, id, r) {
      var orders := OutcomeInSomeOrder(t, s, k, id, r);
    }
    if orders :| Returns(t, s, k, id, orders, r) {
      OrdersGiveOutcome(t, s, k, id, t.blocks[id].depth + 1, orders);
    }
  }

  /** The deepest depth that decides holds both the block's own write and a blocking one. */
  ghost predicate Ambiguous(t: Tree, s: State, k: Key, id: BlockId)
    requires id in t.blocks
  {
    exists d :: OwnDecides(t, s, k, id, d) && Blocked(t, s, k, id, d, InvalidAncestorDepth)
  }

  /** With known writers, the outcome is the same in every order if and only if it is not ambiguous. */
  lemma OutcomeUniqueIff(t: Tree, s: State, k: Key, id: BlockId)
    requires id in t.blocks && KnownWriters(t, s)
    ensures !Ambiguous(t, s, k, id) <==>
            forall r, r' :: WrittenOutcome(t, s, k, id, r) && WrittenOutcome(t, s, k, id, r') ==> r == r'
  {
    if d :| OwnDecides(t, s, k, id, d) && Blocked(t, s, k, id, d, InvalidAncestorDepth) {
      assert BlockDecides(t, s, k, id, d, InvalidAncestorDepth);
      assert WrittenOutcome(t, s, k, id, Err(InvalidAncestorDepth));
      assert WrittenOutcome(t, s, k, id, Ok(Entry(s, k, d, id).value));
    }
  }
}
