/** The limit order book: price ladders, per-price FIFO queues and an id index, updated in place. */
module BookModule {
  import opened Types
  import opened Matching
  import opened Ladders
  import opened Snapshots

  /** A FIFO queue of the orders resting at one price; every element is one list node. */
  class PriceLevel {
    const price: Price
    const side: Side
    var orders: seq<Element>

    constructor (side: Side, price: Price)
      ensures this.side == side && this.price == price && orders == []
    {
      this.side, this.price, orders := side, price, [];
    }

    method Push(o: Order) returns (e: Element)
      modifies this
      ensures fresh(e) && e.order == o && orders == old(orders) + [e]
    {
      e := new Element(o);
      orders := orders + [e];
    }

    method PushFront(o: Order) returns (e: Element)
      modifies this
      ensures fresh(e) && e.order == o && orders == [e] + old(orders)
    {
      e := new Element(o);
      orders := [e] + orders;
    }

    method PopFront() returns (o: Option<Order>)
      modifies this
      ensures old(orders) == [] ==> o == None && orders == []
      ensures old(orders) != [] ==> o == Some(old(orders)[0].order) && orders == old(orders)[1..]
    {
      if orders == [] { return None; }
      o := Some(orders[0].order);
      orders := orders[1..];
    }

    /** Remove the node e, found by identity. */
    method Remove(e: Element) returns (ghost k: nat)
      requires e in orders
      modifies this
      ensures k < |old(orders)| && old(orders)[k] == e && orders == DropAt(old(orders), k)
    {
      var n := 0;
      while orders[n] != e
        invariant 0 <= n < |orders| && e !in orders[..n]
        decreases |orders| - n
      {
        assert orders == orders[..n + 1] + orders[n + 1..];
        n := n + 1;
      }
      k := n;
      orders := orders[..n] + orders[n + 1..];
    }
  }

  lemma SomeMember(ids: set<SeqID>)
    ensures ids == {} || exists id :: id in ids
  {
    if forall id :: id !in ids { assert ids == {}; }
  }

  /** Any member of a non-empty set of ids. */
  method PickId(ids: set<SeqID>) returns (id: SeqID)
    requires ids != {}
    ensures id in ids
  {
    SomeMember(ids);
    id :| id in ids;
  }

  /** Where a resting order lives. */
  datatype OrderRef = OrderRef(level: PriceLevel, element: Element)

  class Book {
    var bids: seq<Price>
    var asks: seq<Price>
    var levels: map<Price, PriceLevel>
    var index: map<SeqID, OrderRef>
    var nextTradeID: SeqID
    var maxOrderID: SeqID

    ghost var Repr: set<object>

    ghost function State(): Core
      reads `bids, `asks, `levels, `index, levels.Values
    {
      Core(bids, asks, Queues(), Slots())
    }

    ghost function Queues(): Levels
      reads `levels, levels.Values
    {
      map p | p in levels :: Queue(levels[p].side, levels[p].orders)
    }

    ghost function Slots(): Index
      reads `index
    {
      map id | id in index :: Slot(index[id].level.price, index[id].element)
    }

    /** Levels are filed under their own price, and the index points into filed levels. */
    ghost predicate Linked()
      reads `levels, `index, `Repr
    {
      && this in Repr && levels.Values <= Repr
      && (forall p :: p in levels ==> levels[p].price == p)
      && (forall id :: id in index ==> var l := index[id].level; l.price in levels && levels[l.price] == l)
    }

    ghost predicate Valid()
      reads this, Repr
    {
      Linked() && CoreInv(State()) && WellFormed(View())
    }

    /** The book as flat lists. */
    ghost function View(): BookState
      reads this, Repr
      requires Linked() && CoreInv(State())
    {
      Ladders.View(State(), nextTradeID, maxOrderID)
    }

    constructor ()
      ensures Valid() && fresh(Repr) && View() == EmptyBook
    {
      bids, asks, levels, index, nextTradeID, maxOrderID := [], [], map[], map[], 0, 0;
      Repr := {this};
    }

    /** Binary search for the first position whose price is not strictly better than price. */
    method Search(side: Side, price: Price) returns (i: nat)
      requires StrictlySorted(side, if side == Buy then bids else asks)
      ensures SplitsAt(side, if side == Buy then bids else asks, price, i)
    {
      var ladder := if side == Buy then bids else asks;
      var j := |ladder|;
      i := 0;
      while i < j
        invariant 0 <= i <= j <= |ladder|
        invariant forall k :: 0 <= k < i ==> Better(side, ladder[k], price)
        invariant forall k :: j <= k < |ladder| ==> !Better(side, ladder[k], price)
      {
        var h := (i + j) / 2;
        if Better(side, ladder[h], price) { i := h + 1; } else { j := h; }
      }
    }

    method GetOrCreateLevel(side: Side, price: Price) returns (lvl: PriceLevel, ghost i: nat)
      requires Linked() && side != UnknownSide
      requires StrictlySorted(side, if side == Buy then bids else asks)
      modifies this
      ensures price !in old(levels) ==> SplitsAt(side, old(if side == Buy then bids else asks), price, i)
      ensures Linked() && fresh(Repr - old(Repr))
      ensures price in levels && levels[price] == lvl && levels == old(levels)[price := lvl]
      ensures price in Queues() && Queues() == old(Queues())[price := Queues()[price]]
      ensures Queues()[price] == if price in old(levels) then old(Queues())[price] else Queue(side, [])
      ensures index == old(index) && nextTradeID == old(nextTradeID) && maxOrderID == old(maxOrderID)
      ensures price in old(levels) ==>
        i == 0 && lvl == old(levels)[price] && bids == old(bids) && asks == old(asks)
      ensures price !in old(levels) ==>
        && fresh(lvl) && lvl.orders == [] && lvl.side == side
        && bids == (if side == Buy then InsertAt(old(bids), i, price) else old(bids))
        && asks == (if side == Buy then old(asks) else InsertAt(old(asks), i, price))
    {
      if price in levels { return levels[price], 0; }
      var n := Search(side, price);
      i := n;
      lvl := new PriceLevel(side, price);
      if side == Buy {
        bids := bids[..n] + [price] + bids[n..];
      } else {
        asks := asks[..n] + [price] + asks[n..];
      }
      levels := levels[price := lvl];
      Repr := Repr + {lvl};
    }

    /** Forget an emptied level: its rung on the ladder and its entry in levels. */
    method RemoveLevel(side: Side, price: Price) returns (removed: bool, ghost i: nat)
      requires Linked() && side != UnknownSide
      requires StrictlySorted(side, if side == Buy then bids else asks)
      requires price in levels ==> price in if side == Buy then bids else asks
      requires forall id :: id in index ==> index[id].level.price != price
      modifies this
      ensures Linked() && Repr == old(Repr)
      ensures removed == (price in old(levels))
      ensures index == old(index) && nextTradeID == old(nextTradeID) && maxOrderID == old(maxOrderID)
      ensures !removed ==> levels == old(levels) && bids == old(bids) && asks == old(asks)
      ensures removed ==>
        && levels == old(levels) - {price} && Queues() == old(Queues()) - {price}
        && i < |old(if side == Buy then bids else asks)|
        && old(if side == Buy then bids else asks)[i] == price
        && bids == (if side == Buy then DropAt(old(bids), i) else old(bids))
        && asks == (if side == Buy then old(asks) else DropAt(old(asks), i))
    {
      if price !in levels { return false, 0; }
      var n := Search(side, price);
      i := n;
      SplitFindsPrice(side, if side == Buy then bids else asks, price, n);
      if side == Buy {
        bids := bids[..n] + bids[n + 1..];
      } else {
        asks := asks[..n] + asks[n + 1..];
      }
      levels := levels - {price};
      removed := true;
    }

    /** Changing the queue of one filed level changes that level's entry and nothing else. */
    twostate lemma OneQueueChanged(lvl: PriceLevel)
      requires old(Linked()) && Linked() && levels == old(levels)
      requires lvl.price in levels && levels[lvl.price] == lvl
      requires forall p :: p in levels && levels[p] != lvl ==> levels[p].orders == old(levels[p].orders)
      ensures Queues() == old(Queues())[lvl.price := Queue(lvl.side, lvl.orders)]
    {
      assert forall p :: p in levels && p != lvl.price ==> levels[p] != lvl;
    }

    // --- Matching ------------------------------------------------------------------

    method BestBid() returns (p: Option<Price>)
      ensures bids == [] ==> p == None
      ensures bids != [] ==> p == Some(bids[0])
    {
      p := if bids != [] then Some(bids[0]) else None;
    }

    method BestAsk() returns (p: Option<Price>)
      ensures asks == [] ==> p == None
      ensures asks != [] ==> p == Some(asks[0])
    {
      p := if asks != [] then Some(asks[0]) else None;
    }

    /** Pop the oldest order of the level at this side's best price and take it out of the index. */
    method TakeBest(side: Side, best: Price) returns (lvl: PriceLevel, maker: Order)
      requires Linked() && Locates(State(), side, 0, 0) && best == State().Ladder(side)[0]
      modifies Repr
      ensures Linked() && Repr == old(Repr)
      ensures State() == PopHead(old(State()), side)
      ensures nextTradeID == old(nextTradeID) && maxOrderID == old(maxOrderID)
      ensures best in levels && lvl == levels[best]
      ensures maker == old(State()).levels[best].elems[0].order
    {
      lvl := levels[best];
      ghost var c := State();
      assert c.levels[best].elems == lvl.orders;
      var popped := lvl.PopFront();
      maker := popped.value;
      OneQueueChanged(lvl);
      index := index - {maker.id};
      assert Slots() == PopHead(c, side).index;
    }

    /** Put an unfinished maker back at the front of its level, so it keeps its place in line. */
    method PutBack(side: Side, lvl: PriceLevel, maker: Order)
      requires Linked()
      requires State().Ladder(side) != [] && State().Ladder(side)[0] in levels
      requires lvl == levels[State().Ladder(side)[0]]
      modifies Repr
      ensures Linked() && Repr == old(Repr) && levels == old(levels)
      ensures exists e: Element :: e.order == maker && State() == PushHead(old(State()), side, e)
      ensures nextTradeID == old(nextTradeID) && maxOrderID == old(maxOrderID)
    {
      ghost var c := State();
      ghost var best := c.Ladder(side)[0];
      var e := lvl.PushFront(maker);
      OneQueueChanged(lvl);
      index := index[maker.id := OrderRef(lvl, e)];
      assert Slots() == PushHead(c, side, e).index;
      assert State() == PushHead(c, side, e);
    }

    /** Drop the best level if the last match emptied it. */
    method DropIfEmpty(side: Side, lvl: PriceLevel)
      requires Linked() && side != UnknownSide
      requires StrictlySorted(side, State().Ladder(side))
      requires State().Ladder(side) != [] && State().Ladder(side)[0] in levels
      requires lvl == levels[State().Ladder(side)[0]]
      requires lvl.orders == [] ==> forall id :: id in index ==> index[id].level != lvl
      modifies this
      ensures Linked() && Repr == old(Repr)
      ensures State() == DropEmptyHead(old(State()), side)
      ensures nextTradeID == old(nextTradeID) && maxOrderID == old(maxOrderID)
    {
      ghost var c := State();
      ghost var ladder := c.Ladder(side);
      assert ladder[0] in ladder;
      if lvl.orders == [] {
        ghost var removed, i := RemoveLevel(side, lvl.price);
        assert i == 0;
        assert DropAt(ladder, 0) == ladder[1..];
      }
    }

    /**
     * Finish with the maker just popped from state c: put the survivor back at the
     * front, or let it go, and drop the level if that leaves it empty.
     */
    method FinishBest(side: Side, lvl: PriceLevel, survivor: Option<Order>, ghost c: Core)
      requires Linked() && CoreInv(c) && Locates(c, side, 0, 0) && UniqueIds(List(c, side))
      requires State() == PopHead(c, side) && c.Ladder(side)[0] in levels && lvl == levels[c.Ladder(side)[0]]
      requires survivor.Some? ==>
        survivor.value.quantity > 0 && SameButQuantity(survivor.value, List(c, side)[0])
      modifies Repr
      ensures Linked() && Repr == old(Repr) && CoreInv(State())
      ensures List(c, side) != []
      ensures var rest := List(c, side)[1..];
        List(State(), side) == if survivor.Some? then [survivor.value] + rest else rest
      ensures List(State(), Opposite(side)) == List(c, Opposite(side))
      ensures nextTradeID == old(nextTradeID) && maxOrderID == old(maxOrderID)
    {
      hide CoreInv;
      HeadOfList(c, side);
      LadderHeadIsLocated(c, side);
      if survivor.Some? {
        PutBack(side, lvl, survivor.value);
        ghost var e: Element :| e.order == survivor.value && State() == PushHead(PopHead(c, side), side, e);
        PopThenPush(c, side, e);
        ReplaceHeadView(c, side, e);
      } else {
        DroppedHeadView(c, side);
        assert State().levels[lvl.price].elems == lvl.orders;
        if lvl.orders == [] {
          LastOrderLeavesNoSlot(c, lvl.price, List(c, side)[0].id);
          assert forall id :: id in index ==> id in Slots() && Slots()[id] == c.index[id];
        }
      }
      DropIfEmpty(side, lvl);
    }

    /** A match against this side is under way: only this side's list and the trade counter have moved. */
    ghost predicate Consuming(side: Side, from: BookState, o: Order,
                              trades: seq<Trade>, prevented: seq<SeqID>, taker: Order)
      reads this, Repr
    {
      && side != UnknownSide && Linked() && CoreInv(State())
      && maxOrderID == from.maxOrderId
      && nextTradeID == from.tradeId + |trades|
      && List(State(), Opposite(side)) == Makers(from, side)
      && InProgress(from, o, Progress(List(State(), side), taker, trades, prevented))
    }

    ghost function MakersLeft(side: Side): nat
      reads this, Repr
    {
      if Linked() && CoreInv(State()) then |List(State(), side)| else 0
    }

    /**
     * Trade with the oldest order at this side's best price, or cancel it when it is
     * the taker's own. The two matching loops share this body; they differ in which
     * best price they read and how they compare it with the taker's limit.
     */
    method ConsumeBest(side: Side, best: Price, ghost from: BookState, ghost o: Order,
                       trades: seq<Trade>, prevented: seq<SeqID>, taker: Order)
      returns (trades': seq<Trade>, prevented': seq<SeqID>, taker': Order)
      requires this in Repr && Consuming(side, from, o, trades, prevented, taker)
      requires var ladder := if side == Buy then bids else asks; ladder != [] && best == ladder[0]
      requires taker.quantity > 0 && Acceptable(taker, best)
      modifies Repr
      ensures this in Repr && Repr == old(Repr)
      ensures Consuming(side, from, o, trades', prevented', taker')
      ensures taker' == taker.(quantity := taker'.quantity)
      ensures MakersLeft(side) < old(MakersLeft(side))
        || (MakersLeft(side) == old(MakersLeft(side)) && taker'.quantity < taker.quantity)
    {
      hide CoreInv, Linked, Queues, Slots, PopHead, Join, Match;
      ghost var c := State();
      BestOfSide(c, side);
      ghost var at := Progress(List(c, side), taker, trades, prevented);
      trades', prevented', taker' := trades, prevented, taker;
      var lvl, maker := TakeBest(side, best);
      if SelfMatch(taker, maker) {
        prevented' := prevented' + [maker.id];
        OwnMakerDropped(from, o, at);
        FinishBest(side, lvl, None, c);
      } else {
        var fill := Min(taker.quantity, maker.quantity);
        nextTradeID := nextTradeID + 1;
        var t := TradeOf(taker, maker, best, fill, nextTradeID);
        MakerTraded(from, o, at, t);
        trades' := trades' + [t];
        taker' := taker'.(quantity := taker.quantity - fill);
        maker := maker.(quantity := maker.quantity - fill);
        FinishBest(side, lvl, if maker.quantity > 0 then Some(maker) else None, c);
      }
    }

    lemma StartConsuming(o: Order)
      requires Valid() && o.side != UnknownSide
      ensures this in Repr && Linked() && CoreInv(State())
      ensures Consuming(Opposite(o.side), View(), o, [], [], o)
    {
    }

    /** Match a Buy taker against the resting Sell orders. */
    method MatchAgainstAsks(o: Order) returns (trades: seq<Trade>, prevented: seq<SeqID>, taker: Order)
      requires Valid() && o.side == Buy
      modifies Repr
      ensures this in Repr && Repr == old(Repr)
      ensures Consuming(Sell, old(View()), o, trades, prevented, taker)
      ensures taker == o.(quantity := taker.quantity)
      ensures taker.quantity <= 0 || asks == [] || !Acceptable(o, asks[0])
    {
      hide Valid, Consuming, MakersLeft, Linked, CoreInv, State;
      StartConsuming(o);
      trades, prevented, taker := [], [], o;
      ghost var from := View();
      while taker.quantity > 0
        invariant this in Repr && Repr == old(Repr)
        invariant Consuming(Sell, from, o, trades, prevented, taker)
        invariant taker == o.(quantity := taker.quantity)
        decreases MakersLeft(Sell), taker.quantity
      {
        var askingPrice := BestAsk();
        if askingPrice == None { break; }
        if taker.kind == Limit && askingPrice.value > taker.price { break; }
        trades, prevented, taker := ConsumeBest(Sell, askingPrice.value, from, o, trades, prevented, taker);
      }
    }

    /** Match a Sell taker against the resting Buy orders. */
    method MatchAgainstBids(o: Order) returns (trades: seq<Trade>, prevented: seq<SeqID>, taker: Order)
      requires Valid() && o.side == Sell
      modifies Repr
      ensures this in Repr && Repr == old(Repr)
      ensures Consuming(Buy, old(View()), o, trades, prevented, taker)
      ensures taker == o.(quantity := taker.quantity)
      ensures taker.quantity <= 0 || bids == [] || !Acceptable(o, bids[0])
    {
      hide Valid, Consuming, MakersLeft, Linked, CoreInv, State;
      StartConsuming(o);
      trades, prevented, taker := [], [], o;
      ghost var from := View();
      while taker.quantity > 0
        invariant this in Repr && Repr == old(Repr)
        invariant Consuming(Buy, from, o, trades, prevented, taker)
        invariant taker == o.(quantity := taker.quantity)
        decreases MakersLeft(Buy), taker.quantity
      {
        var biddingPrice := BestBid();
        if biddingPrice == None { break; }
        if taker.kind == Limit && biddingPrice.value < taker.price { break; }
        trades, prevented, taker := ConsumeBest(Buy, biddingPrice.value, from, o, trades, prevented, taker);
      }
    }

    /** Match either way; afterwards the book is the old one with the match applied. */
    method MatchOrder(o: Order) returns (trades: seq<Trade>, prevented: seq<SeqID>, taker: Order)
      requires Valid() && Known(o) && o.id <= maxOrderID
      modifies Repr
      ensures Valid() && Repr == old(Repr)
      ensures var m := Match(o, Makers(old(View()), o.side), old(nextTradeID));
        && m == Matched(trades, prevented, taker.quantity, m.makers)
        && View() == AfterMatch(old(View()), o, m)
      ensures taker == o.(quantity := taker.quantity)
      ensures taker.quantity > 0 ==>
        var best := State().Ladder(Opposite(o.side)); best == [] || !Acceptable(o, best[0])
    {
      hide CoreInv, WellFormed, Queues, Slots, Match, Join, Linked, InProgress, List, Acceptable;
      StartConsuming(o);
      ghost var from := View();
      MatchKeepsWellFormed(from, o);
      if o.side == Buy {
        trades, prevented, taker := MatchAgainstAsks(o);
      } else {
        trades, prevented, taker := MatchAgainstBids(o);
      }
      BestOfSide(State(), Opposite(o.side));
      ProgressIsResult(from, o, Progress(List(State(), Opposite(o.side)), taker, trades, prevented));
    }

    lemma ValidParts()
      requires Valid()
      ensures this in Repr && Linked() && CoreInv(State()) && WellFormed(View())
    {
    }

    lemma ViewCounters()
      requires Valid()
      ensures View().tradeId == nextTradeID && View().maxOrderId == maxOrderID
    {
    }

    /** Find or create the price's level and push the order at its back. */
    method PushToLevel(o: Order) returns (lvl: PriceLevel, e: Element, ghost i: nat)
      requires this in Repr && Linked() && o.side != UnknownSide
      requires StrictlySorted(o.side, if o.side == Buy then bids else asks)
      modifies Repr
      ensures this in Repr && Linked() && fresh(Repr - old(Repr)) && index == old(index)
      ensures nextTradeID == old(nextTradeID) && maxOrderID == old(maxOrderID)
      ensures e.order == o && o.price in levels && lvl == levels[o.price]
      ensures Queues() == LevelsWith(old(Queues()), o.side, e)
      ensures var ladder := old(if o.side == Buy then bids else asks);
        && i <= |ladder|
        && (o.price !in old(levels) ==> SplitsAt(o.side, ladder, o.price, i))
        && var ladder' := if o.price in old(levels) then ladder else InsertAt(ladder, i, o.price);
           (bids, asks) == if o.side == Buy then (ladder', old(asks)) else (old(bids), ladder')
    {
      lvl, i := GetOrCreateLevel(o.side, o.price);
      label created:
      e := lvl.Push(o);
      OneQueueChanged@created(lvl);
    }

    /** Push an order at the back of its price's queue and index it. */
    method Enqueue(o: Order) returns (ghost e: Element, ghost i: nat)
      requires this in Repr && Linked() && o.side != UnknownSide
      requires StrictlySorted(o.side, State().Ladder(o.side))
      modifies Repr
      ensures this in Repr && Linked() && fresh(Repr - old(Repr))
      ensures nextTradeID == old(nextTradeID) && maxOrderID == old(maxOrderID)
      ensures e.order == o && InsertsAt(o.side, old(State()).Ladder(o.side), old(State()).levels, o.price, i)
      ensures State() == Add(old(State()), o.side, e, i)
    {
      hide Queues;
      assert o.price in old(Queues()) <==> o.price in old(levels) by { QueuesKeys(); }
      ghost var slots := Slots();
      var lvl, node, at := PushToLevel(o);
      e, i := node, at;
      index := index[o.id := OrderRef(lvl, node)];
      assert Slots() == slots[o.id := Slot(o.price, e)];
    }

    lemma QueuesKeys()
      ensures Queues().Keys == levels.Keys
    {
    }

    /** Rest a limit order at the back of its price's queue. */
    method RestOrder(o: Order)
      requires Valid() && MayRest(State(), o) && WellFormed(Place(View(), o))
      modifies Repr
      ensures Valid() && fresh(Repr - old(Repr))
      ensures View() == Place(old(View()), o)
    {
      hide CoreInv, WellFormed, Add, Linked, Queues, Slots;
      ghost var c := State();
      ValidParts();
      LadderHeadIsLocated(c, o.side);
      ghost var e, i := Enqueue(o);
      AddView(c, e, i);
    }

    /** Match an order of known side and type, then rest what is left of a limit order. */
    method MatchThenRest(o: Order) returns (res: Outcome)
      requires Valid() && Known(o) && o.id <= maxOrderID && o.id !in RestingIds(View())
      modifies Repr
      ensures Valid() && fresh(Repr - old(Repr))
      ensures (View(), Some(res)) == Submit(old(View()), o)
    {
      hide CoreInv, WellFormed, State, Match, Linked, RestingIds, Place, Makers, MayRest;
      ghost var from := View();
      SubmitKeepsWellFormed(from, o);
      var trades, prevented, taker := MatchOrder(o);
      if taker.kind == Limit && taker.quantity > 0 {
        LeftoverMayRest(State(), nextTradeID, maxOrderID, o, taker.quantity, from);
        RestOrder(taker);
        return Outcome(trades, prevented, taker.quantity);
      }
      return Outcome(trades, prevented, 0);
    }

    /** The full result of a submit. None stands for the unknown-side-or-type error. */
    method SubmitOrder(o: Order) returns (res: Option<Outcome>)
      requires Valid()
      requires o.id !in RestingIds(View())
      modifies Repr
      ensures Valid() && fresh(Repr - old(Repr))
      ensures (View(), res) == Submit(old(View()), o)
    {
      hide CoreInv, WellFormed, Queues, Slots, Match, Linked, Submit, RestingIds;
      ghost var from := View();
      ValidParts();
      if o.side == UnknownSide || o.kind == UnknownType {
        UnknownIsRefused(from, o);
        return None;
      }
      RaisingMaxIdFirst(from, o);
      if o.id > maxOrderID { maxOrderID := o.id; }
      var outcome := MatchThenRest(o);
      res := Some(outcome);
    }

    /** Take the indexed element out of its level's queue and the id out of the index. */
    method Detach(id: SeqID) returns (lvl: PriceLevel, ghost k: nat)
      requires this in Repr && Linked() && id in index && index[id].element in index[id].level.orders
      modifies Repr
      ensures this in Repr && Linked() && Repr == old(Repr) && levels == old(levels)
      ensures bids == old(bids) && asks == old(asks) && nextTradeID == old(nextTradeID) && maxOrderID == old(maxOrderID)
      ensures lvl == old(index[id].level) && lvl.price in levels && levels[lvl.price] == lvl
      ensures k < |old(index[id].level.orders)| && old(index[id].level.orders)[k] == old(index[id].element)
      ensures lvl.orders == DropAt(old(index[id].level.orders), k)
      ensures index == old(index) - {id} && Slots() == old(Slots()) - {id}
      ensures Queues() == old(Queues())[lvl.price := Queue(lvl.side, lvl.orders)]
    {
      var ref := index[id];
      lvl := ref.level;
      k := lvl.Remove(ref.element);
      OneQueueChanged(lvl);
      index := index - {id};
    }

    /** Take an indexed order out of the book, and drop its level if that empties it. */
    method Unlink(id: SeqID) returns (ghost side: Side, ghost i: nat, ghost k: nat)
      requires this in Repr && Linked() && CoreInv(State()) && id in index
      modifies Repr
      ensures this in Repr && Linked() && Repr == old(Repr)
      ensures nextTradeID == old(nextTradeID) && maxOrderID == old(maxOrderID)
      ensures Locates(old(State()), side, i, k)
      ensures old(State()).levels[old(State()).Ladder(side)[i]].elems[k].order
           == old(State()).index[id].element.order
      ensures State() == RemoveAt(old(State()), side, i, k)
    {
      hide CoreInv;
      ghost var c := State();
      side, i := SlotIsLocated(c, id);
      LadderHeadIsLocated(c, side);
      assert c.index[id] == Slot(index[id].level.price, index[id].element);
      var lvl;
      lvl, k := Detach(id);
      ghost var p := lvl.price;
      assert c.levels[p].elems[k] == c.index[id].element;
      if lvl.orders == [] {
        LastOrderLeavesNoSlot(c, p, id);
        assert forall x :: x in index ==> x in Slots() && Slots()[x] == c.index[x];
        ghost var removed;
        removed, i := RemoveLevel(lvl.side, lvl.price);
      }
      assert Queues() == LevelsWithout(c.levels, p, k);
    }

    /** Remove a resting order by id; a non-empty caller must be its owner. */
    method CancelOwned(id: SeqID, who: Account) returns (err: Option<CancelError>)
      requires Valid()
      modifies Repr
      ensures Valid() && Repr == old(Repr)
      ensures (View(), err) == Cancel(old(View()), id, who)
    {
      hide CoreInv, Queues, WellFormed, FindResting;
      ghost var c := State();
      IndexFindsResting(c, nextTradeID, maxOrderID, id);
      if id !in index { return Some(OrderNotFound); }
      var owner := index[id].element.order.placer;
      if who != "" && owner != who { return Some(NotOrderOwner); }
      ghost var side, i, k := Unlink(id);
      CancelIsRemoveAt(c, nextTradeID, maxOrderID, side, i, k);
      return None;
    }

    // --- Reading -------------------------------------------------------------------------

    lemma IndexHolds(id: SeqID)
      requires Valid() && id in index
      ensures var o := index[id].element.order;
        o.id == id && (o in View().bids || o in View().asks) && FindResting(View(), id) == Some(o)
    {
      IndexFindsResting(State(), nextTradeID, maxOrderID, id);
      assert State().index[id] == Slots()[id];
    }

    lemma IndexIsComplete(o: Order)
      requires Valid() && (o in View().bids || o in View().asks)
      ensures o.id in index && index[o.id].element.order == o
    {
      IndexIsRestingIds(State(), nextTradeID, maxOrderID);
      assert o.id in RestingIds(View());
      assert o.id in Slots();
      IndexHolds(o.id);
      SameIdSameOrder(View(), o, index[o.id].element.order);
    }

    /** Every resting order, each once, in no particular order. */
    method RestingOrders() returns (orders: seq<Order>)
      requires Valid()
      ensures Lists(View(), orders)
    {
      hide CoreInv, WellFormed, Linked, State, View;
      var ids: set<SeqID> := index.Keys;
      orders := [];
      while ids != {}
        invariant ids <= index.Keys
        invariant forall i :: 0 <= i < |orders| ==>
          orders[i].id in index && orders[i].id !in ids && orders[i] == index[orders[i].id].element.order
        invariant forall id :: id in index && id !in ids ==> index[id].element.order in orders
        invariant UniqueIds(orders)
        decreases |ids|
      {
        var id := PickId(ids);
        IndexHolds(id);
        ids := ids - {id};
        orders := orders + [index[id].element.order];
      }
      forall o | o in View().bids || o in View().asks ensures o in orders { IndexIsComplete(o); }
      forall o | o in orders ensures o in View().bids || o in View().asks { IndexHolds(o.id); }
    }

    /** Total quantity resting at one level. */
    method LevelQuantity(lvl: PriceLevel) returns (total: int)
      ensures total == Depth(Orders(lvl.orders))
    {
      total := 0;
      for i := 0 to |lvl.orders|
        invariant total == Depth(Orders(lvl.orders[..i]))
      {
        DepthSnoc(Orders(lvl.orders[..i]), lvl.orders[i].order);
        assert Orders(lvl.orders[..i + 1]) == Orders(lvl.orders[..i]) + [lvl.orders[i].order];
        total := total + lvl.orders[i].order.quantity;
      }
      assert lvl.orders[..|lvl.orders|] == lvl.orders;
    }

    method LadderRows(ladder: seq<Price>) returns (rows: seq<DepthLevel>)
      requires Linked() && InLevels(ladder, Queues())
      ensures rows == Rows(ladder, Queues())
    {
      rows := [];
      assert ladder[..0] == [];
      for i := 0 to |ladder|
        invariant InLevels(ladder[..i], Queues()) && rows == Rows(ladder[..i], Queues())
      {
        assert ladder[..i + 1] == ladder[..i] + [ladder[i]];
        assert forall j :: 0 <= j < i + 1 ==> ladder[..i + 1][j] == ladder[j];
        assert ladder[i] in Queues();
        RowsSnoc(ladder[..i], ladder[i], Queues());
        var total := LevelQuantity(levels[ladder[i]]);
        rows := rows + [DepthLevel(ladder[i], total)];
      }
      assert ladder[..|ladder|] == ladder;
    }

    /** The aggregated depth of both sides, read level by level. */
    method TakeSnapshot() returns (s: Snapshot)
      requires Valid()
      ensures s == SnapshotOf(View())
    {
      hide WellFormed;
      RowsAreAggregate(Buy, bids, Queues(), Slots());
      RowsAreAggregate(Sell, asks, Queues(), Slots());
      hide CoreInv;
      var b := LadderRows(bids);
      var a := LadderRows(asks);
      return Snapshot(b, a);
    }
  }
}
