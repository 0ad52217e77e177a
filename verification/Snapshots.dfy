/** A book's aggregated depth: per side, one row per price with the total resting quantity at it. */
module Snapshots {
  import opened Types
  import opened Matching
  import opened Ladders

  datatype DepthLevel = DepthLevel(price: Price, quantity: int)
  datatype Snapshot = Snapshot(bids: seq<DepthLevel>, asks: seq<DepthLevel>)

  /** A price-then-arrival list with each run of equal prices summed up into one row. */
  function Aggregate(list: seq<Order>): seq<DepthLevel> {
    if list == [] then []
    else
      var rows := Aggregate(list[1..]);
      if rows != [] && rows[0].price == list[0].price then
        [DepthLevel(rows[0].price, rows[0].quantity + list[0].quantity)] + rows[1..]
      else [DepthLevel(list[0].price, list[0].quantity)] + rows
  }

  function SnapshotOf(s: BookState): Snapshot {
    Snapshot(Aggregate(s.bids), Aggregate(s.asks))
  }

  function Total(rows: seq<DepthLevel>): int {
    if rows == [] then 0 else rows[0].quantity + Total(rows[1..])
  }

  /** A snapshot loses no quantity. */
  lemma {:induction false} AggregateKeepsDepth(list: seq<Order>)
    ensures Total(Aggregate(list)) == Depth(list)
  {
    if list != [] { AggregateKeepsDepth(list[1..]); }
  }

  /** Each row's price is strictly worse than the row's before it. */
  predicate Worsening(side: Side, rows: seq<DepthLevel>) {
    |rows| <= 1 || (Better(side, rows[0].price, rows[1].price) && Worsening(side, rows[1..]))
  }

  /** A sorted side aggregates to rows of strictly worsening price, the first at its best price. */
  lemma {:induction false} AggregateIsSorted(side: Side, list: seq<Order>)
    requires side != UnknownSide && Sorted(side, list)
    ensures var rows := Aggregate(list);
      && (list == [] <==> rows == [])
      && (list != [] ==> rows[0].price == list[0].price)
      && Worsening(side, rows)
  {
    if list != [] {
      AggregateIsSorted(side, list[1..]);
      var rows := Aggregate(list[1..]);
      if |list| > 1 {
        assert !Better(side, list[1].price, list[0].price);
        if rows[0].price == list[0].price {
          var head := DepthLevel(rows[0].price, rows[0].quantity + list[0].quantity);
          assert ([head] + rows[1..])[1..] == rows[1..];
        }
      }
    }
  }

  predicate HasPrice(list: seq<Order>, p: Price) {
    exists o :: o in list && o.price == p
  }

  /** The quantity of these orders at one price. */
  function QuantityAt(list: seq<Order>, p: Price): int {
    if list == [] then 0 else (if list[0].price == p then list[0].quantity else 0) + QuantityAt(list[1..], p)
  }

  lemma {:induction false} NoneAtPrice(list: seq<Order>, p: Price)
    requires !HasPrice(list, p)
    ensures QuantityAt(list, p) == 0
  {
    if list != [] {
      assert list[0] in list;
      assert HasPrice(list[1..], p) ==> HasPrice(list, p);
      NoneAtPrice(list[1..], p);
    }
  }

  lemma {:induction false} WorseningTail(side: Side, rows: seq<DepthLevel>)
    requires side != UnknownSide && Worsening(side, rows) && rows != []
    ensures forall r :: r in rows[1..] ==> Better(side, rows[0].price, r.price)
  {
    if |rows| > 1 { WorseningTail(side, rows[1..]); }
  }

  lemma PriceInRest(list: seq<Order>, p: Price)
    requires list != []
    ensures HasPrice(list, p) <==> list[0].price == p || HasPrice(list[1..], p)
  {
    assert list[0] in list;
    if HasPrice(list, p) && list[0].price != p {
      var o :| o in list && o.price == p;
      assert o in list[1..];
    }
  }

  /** Each price at which an order rests is a row, with all that rests there, and nothing else is. */
  lemma {:induction false} AggregateRows(side: Side, list: seq<Order>, p: Price, q: int)
    requires side != UnknownSide && Sorted(side, list)
    ensures DepthLevel(p, q) in Aggregate(list) <==> HasPrice(list, p) && q == QuantityAt(list, p)
  {
    if list != [] {
      var rest, p0 := list[1..], list[0].price;
      var rows := Aggregate(rest);
      AggregateIsSorted(side, rest);
      PriceInRest(list, p);
      AggregateRows(side, rest, p, q);
      AggregateRows(side, rest, p, q - list[0].quantity);
      if rows != [] { WorseningTail(side, rows); }
      if rows != [] && rows[0].price == p0 {
        AggregateMerges(rows, list[0], p, q);
      } else {
        AggregateAdds(side, list, p, q);
      }
    }
  }

  lemma AggregateMerges(rows: seq<DepthLevel>, o: Order, p: Price, q: int)
    requires rows != [] && rows[0].price == o.price && forall r :: r in rows[1..] ==> r.price != o.price
    ensures DepthLevel(p, q) in [DepthLevel(o.price, rows[0].quantity + o.quantity)] + rows[1..]
      <==> DepthLevel(p, if p == o.price then q - o.quantity else q) in rows
  {
    assert rows == [rows[0]] + rows[1..];
  }

  lemma AggregateAdds(side: Side, list: seq<Order>, p: Price, q: int)
    requires side != UnknownSide && Sorted(side, list) && list != []
    requires |list| > 1 ==> list[1].price != list[0].price
    requires DepthLevel(p, q) in Aggregate(list[1..]) <==> HasPrice(list[1..], p) && q == QuantityAt(list[1..], p)
    requires Aggregate(list[1..]) == [] || Aggregate(list[1..])[0].price != list[0].price
    ensures DepthLevel(p, q) in Aggregate(list) <==> HasPrice(list, p) && q == QuantityAt(list, p)
  {
    PriceInRest(list, p);
    forall o | o in list[1..] ensures o.price != list[0].price {
      var k :| 0 < k < |list| && list[k] == o;
      assert !Better(side, list[k].price, list[1].price) && !Better(side, list[1].price, list[0].price);
    }
    if p == list[0].price { NoneAtPrice(list[1..], p); }
    hide Aggregate;
    assert Aggregate(list) == [DepthLevel(list[0].price, list[0].quantity)] + Aggregate(list[1..]);
  }

  /**
   * A snapshot's bids are the prices at which bids rest, best first, each with all that rests at it,
   * and its asks those of the asks.
   */
  lemma SnapshotIsExact(s: BookState)
    requires WellFormed(s)
    ensures var snap := SnapshotOf(s);
      && (forall p, q :: DepthLevel(p, q) in snap.bids <==> HasPrice(s.bids, p) && q == QuantityAt(s.bids, p))
      && (forall p, q :: DepthLevel(p, q) in snap.asks <==> HasPrice(s.asks, p) && q == QuantityAt(s.asks, p))
      && Worsening(Buy, snap.bids) && Worsening(Sell, snap.asks)
      && Total(snap.bids) == Depth(s.bids) && Total(snap.asks) == Depth(s.asks)
      && |snap.bids| <= |s.bids| && |snap.asks| <= |s.asks|
      && (s.bids != [] ==> snap.bids != [] && snap.bids[0].price == s.bids[0].price)
      && (s.asks != [] ==> snap.asks != [] && snap.asks[0].price == s.asks[0].price)
  {
    hide HasPrice, QuantityAt, Aggregate;
    SideIsExact(Buy, s.bids);
    SideIsExact(Sell, s.asks);
  }

  lemma SideIsExact(side: Side, list: seq<Order>)
    requires side != UnknownSide && Sorted(side, list)
    ensures var rows := Aggregate(list);
      && (forall p, q :: DepthLevel(p, q) in rows <==> HasPrice(list, p) && q == QuantityAt(list, p))
      && Worsening(side, rows) && Total(rows) == Depth(list) && |rows| <= |list|
      && (list != [] ==> rows != [] && rows[0].price == list[0].price)
  {
    hide HasPrice, QuantityAt, Aggregate;
    forall p, q ensures DepthLevel(p, q) in Aggregate(list) <==> HasPrice(list, p) && q == QuantityAt(list, p) {
      AggregateRows(side, list, p, q);
    }
    AggregateIsSorted(side, list);
    AggregateKeepsDepth(list);
    AggregateIsShort(list);
  }

  lemma {:induction false} AggregateIsShort(list: seq<Order>)
    ensures |Aggregate(list)| <= |list|
  {
    if list != [] { AggregateIsShort(list[1..]); }
  }

  /** One level's queue in front of worse prices becomes one row. */
  lemma {:induction false} AggregateLevel(q: seq<Order>, back: seq<Order>, p: Price)
    requires q != [] && forall i :: 0 <= i < |q| ==> q[i].price == p
    requires back != [] ==> back[0].price != p
    ensures Aggregate(q + back) == [DepthLevel(p, Depth(q))] + Aggregate(back)
  {
    assert (q + back)[1..] == q[1..] + back;
    if |q| == 1 {
      assert q[1..] + back == back;
      AggregateHead(back);
      assert Depth(q) == q[0].quantity + Depth([]);
    } else {
      AggregateLevel(q[1..], back, p);
    }
  }

  lemma AggregateHead(list: seq<Order>)
    ensures list != [] ==> Aggregate(list) != [] && Aggregate(list)[0].price == list[0].price
  {
    if list != [] {
      var rows := Aggregate(list[1..]);
    }
  }

  /** The ladder's rows, level by level, are the aggregation of its flat list. */
  function Rows(ladder: seq<Price>, levels: Levels): seq<DepthLevel>
    requires InLevels(ladder, levels)
  {
    if ladder == [] then []
    else [DepthLevel(ladder[0], Depth(Orders(levels[ladder[0]].elems)))] + Rows(ladder[1..], levels)
  }

  lemma {:induction false} RowsAreAggregate(side: Side, ladder: seq<Price>, levels: Levels, index: Index)
    requires StrictlySorted(side, ladder) && InLevels(ladder, levels) && LevelsOk(levels, index)
    ensures Rows(ladder, levels) == Aggregate(Flat(ladder, levels))
    ensures ladder != [] ==> Flat(ladder, levels) != [] && Flat(ladder, levels)[0].price == ladder[0]
  {
    if ladder != [] {
      var p, rest := ladder[0], ladder[1..];
      RowsAreAggregate(side, rest, levels, index);
      var q := levels[p].elems;
      assert QueueOk(index, p, levels[p]);
      assert forall i :: 0 <= i < |q| ==> ElementOk(index, p, levels[p].side, q[i]);
      if rest != [] { assert Better(side, ladder[0], ladder[1]); }
      AggregateLevel(Orders(q), Flat(rest, levels), p);
    }
  }

  lemma {:induction false} RowsSnoc(ladder: seq<Price>, p: Price, levels: Levels)
    requires InLevels(ladder + [p], levels)
    ensures InLevels(ladder, levels) && p in levels
    ensures Rows(ladder + [p], levels) == Rows(ladder, levels) + [DepthLevel(p, Depth(Orders(levels[p].elems)))]
  {
    assert (ladder + [p])[|ladder|] == p;
    assert forall i :: 0 <= i < |ladder| ==> (ladder + [p])[i] == ladder[i];
    if ladder == [] {
      assert ladder + [p] == [p];
    } else {
      assert (ladder + [p])[1..] == ladder[1..] + [p];
      assert forall i :: 0 <= i < |ladder[1..] + [p]| ==> (ladder[1..] + [p])[i] == (ladder + [p])[i + 1];
      RowsSnoc(ladder[1..], p, levels);
    }
  }

  lemma {:induction false} DepthSnoc(list: seq<Order>, o: Order)
    ensures Depth(list + [o]) == Depth(list) + o.quantity
  {
    if list == [] {
      assert list + [o] == [o];
    } else {
      assert (list + [o])[1..] == list[1..] + [o];
      DepthSnoc(list[1..], o);
    }
  }
}
