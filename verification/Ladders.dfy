/**
 * The book's three structures as one value: sorted price ladders, a FIFO queue
 * per price, and an index from order id to the element holding the order. The
 * lemmas say what each update of the three means for the flat per-side lists of
 * `Matching`: pushing at the back of a level, taking the best order, putting a
 * smaller one back, and removing an order from the middle of its queue.
 */
module Ladders {
  import opened Types
  import opened Matching

  /** A list element: identity matters to the index, the order inside never changes. */
  class Element {
    const order: Order

    constructor (order: Order)
      ensures this.order == order
    {
      this.order := order;
    }
  }

  datatype Queue = Queue(side: Side, elems: seq<Element>)
  datatype Slot = Slot(price: Price, element: Element)

  type Levels = map<Price, Queue>
  type Index = map<SeqID, Slot>

  datatype Core = Core(bids: seq<Price>, asks: seq<Price>, levels: Levels, index: Index)
  {
    function Ladder(side: Side): seq<Price> {
      if side == Buy then bids else asks
    }

    function WithLadder(side: Side, ladder: seq<Price>): Core {
      if side == Buy then this.(bids := ladder) else this.(asks := ladder)
    }
  }

  function Orders(elems: seq<Element>): seq<Order> {
    seq(|elems|, i requires 0 <= i < |elems| => elems[i].order)
  }

  ghost predicate InLevels(ladder: seq<Price>, levels: Levels) {
    forall i :: 0 <= i < |ladder| ==> ladder[i] in levels
  }

  function Flat(ladder: seq<Price>, levels: Levels): seq<Order>
    requires InLevels(ladder, levels)
  {
    if ladder == [] then []
    else Orders(levels[ladder[0]].elems) + Flat(ladder[1..], levels)
  }

  // --- The invariant -------------------------------------------------------------

  ghost predicate StrictlySorted(side: Side, ladder: seq<Price>) {
    forall i, j :: 0 <= i < j < |ladder| ==> Better(side, ladder[i], ladder[j])
  }

  /** The ladder holds exactly the prices of the levels of its own side. */
  ghost predicate LadderOk(side: Side, ladder: seq<Price>, levels: Levels) {
    && StrictlySorted(side, ladder)
    && InLevels(ladder, levels)
    && (forall p :: p in ladder <==> p in levels && levels[p].side == side)
  }

  ghost predicate ElementOk(index: Index, p: Price, side: Side, e: Element) {
    && e.order.price == p && e.order.side == side && e.order.kind == Limit && e.order.quantity > 0
    && e.order.id in index && index[e.order.id] == Slot(p, e)
  }

  ghost predicate NoRepeats<T>(s: seq<T>) {
    forall i, j :: 0 <= i < j < |s| ==> s[i] != s[j]
  }

  ghost predicate QueueOk(index: Index, p: Price, q: Queue) {
    && q.side != UnknownSide
    && q.elems != []
    && (forall e :: e in q.elems ==> ElementOk(index, p, q.side, e))
    && NoRepeats(q.elems)
  }

  ghost predicate LevelsOk(levels: Levels, index: Index) {
    forall p :: p in levels ==> QueueOk(index, p, levels[p])
  }

  ghost predicate SlotOk(levels: Levels, id: SeqID, slot: Slot) {
    slot.price in levels && slot.element in levels[slot.price].elems && slot.element.order.id == id
  }

  ghost predicate IndexOk(levels: Levels, index: Index) {
    forall id :: id in index ==> SlotOk(levels, id, index[id])
  }

  ghost predicate NotCrossed(bids: seq<Price>, asks: seq<Price>) {
    forall b, a :: b in bids && a in asks ==> b < a
  }

  /**
   * Ladder prices are exactly the non-empty levels of the matching side, strictly
   * sorted; the index names exactly the resting orders at their true elements;
   * resting quantities are positive; the best bid is below the best ask.
   */
  ghost predicate CoreInv(c: Core) {
    && LadderOk(Buy, c.bids, c.levels) && LadderOk(Sell, c.asks, c.levels)
    && LevelsOk(c.levels, c.index)
    && IndexOk(c.levels, c.index)
    && NotCrossed(c.bids, c.asks)
  }

  /** Both ladders name existing levels, so the flat lists are defined. */
  ghost predicate Viewable(c: Core) {
    InLevels(c.bids, c.levels) && InLevels(c.asks, c.levels)
  }

  function List(c: Core, side: Side): seq<Order>
    requires Viewable(c)
  {
    Flat(c.Ladder(side), c.levels)
  }

  function View(c: Core, tradeId: SeqID, maxOrderId: SeqID): BookState
    requires Viewable(c)
  {
    BookState(List(c, Buy), List(c, Sell), tradeId, maxOrderId)
  }

  // --- Sequences ---------------------------------------------------------------------

  function DropAt<T>(s: seq<T>, i: nat): seq<T>
    requires i < |s|
  {
    s[..i] + s[i + 1..]
  }

  function InsertAt<T>(s: seq<T>, i: nat, x: T): seq<T>
    requires i <= |s|
  {
    s[..i] + [x] + s[i..]
  }

  lemma DropAtMembers<T>(s: seq<T>, i: nat)
    requires i < |s| && NoRepeats(s)
    ensures forall x :: x in DropAt(s, i) <==> x in s && x != s[i]
    ensures NoRepeats(DropAt(s, i))
  {
    assert s == s[..i] + [s[i]] + s[i + 1..];
  }

  lemma InsertAtMembers<T>(s: seq<T>, i: nat, x: T)
    requires i <= |s|
    ensures forall y :: y in InsertAt(s, i, x) <==> y == x || y in s
  {
    assert s == s[..i] + s[i..];
  }

  lemma AppendHasNoRepeats<T>(s: seq<T>, x: T)
    ensures NoRepeats(s) && x !in s ==> NoRepeats(s + [x])
  {
  }

  lemma SortedHasNoRepeats(side: Side, ladder: seq<Price>)
    requires StrictlySorted(side, ladder)
    ensures NoRepeats(ladder)
  {
  }

  lemma DropAtSorted(side: Side, ladder: seq<Price>, i: nat)
    requires StrictlySorted(side, ladder) && i < |ladder|
    ensures StrictlySorted(side, DropAt(ladder, i))
  {
  }

  /** Position i separates the ladder's strictly better prices from the rest. */
  ghost predicate SplitsAt(side: Side, ladder: seq<Price>, price: Price, i: nat) {
    && i <= |ladder|
    && (forall j :: 0 <= j < i ==> Better(side, ladder[j], price))
    && (forall j :: i <= j < |ladder| ==> !Better(side, ladder[j], price))
  }

  /** Where a new price goes; a price that already has a level is not inserted at all. */
  ghost predicate InsertsAt(side: Side, ladder: seq<Price>, levels: Levels, price: Price, i: nat) {
    i <= |ladder| && (price in levels || SplitsAt(side, ladder, price, i))
  }

  /** On a ladder that holds the price, the split position is the price's own. */
  lemma SplitFindsPrice(side: Side, ladder: seq<Price>, price: Price, i: nat)
    requires side != UnknownSide && StrictlySorted(side, ladder)
    requires SplitsAt(side, ladder, price, i) && price in ladder
    ensures i < |ladder| && ladder[i] == price
  {
    var n :| 0 <= n < |ladder| && ladder[n] == price;
  }

  lemma InsertAtSorted(side: Side, ladder: seq<Price>, price: Price, i: nat)
    requires side != UnknownSide && StrictlySorted(side, ladder)
    requires SplitsAt(side, ladder, price, i) && price !in ladder
    ensures StrictlySorted(side, InsertAt(ladder, i, price))
  {
    var r := InsertAt(ladder, i, price);
    assert forall j :: 0 <= j < |r| ==> r[j] == if j < i then ladder[j] else if j == i then price else ladder[j - 1];
    assert forall j :: i <= j < |ladder| ==> ladder[j] in ladder;
  }

  // --- Flat lists ------------------------------------------------------------------

  lemma {:induction false} FlatFrame(ladder: seq<Price>, a: Levels, b: Levels)
    requires InLevels(ladder, a) && InLevels(ladder, b)
    requires forall i :: 0 <= i < |ladder| ==> a[ladder[i]] == b[ladder[i]]
    ensures Flat(ladder, a) == Flat(ladder, b)
  {
    if ladder != [] { FlatFrame(ladder[1..], a, b); }
  }

  lemma {:induction false} FlatSplit(front: seq<Price>, back: seq<Price>, levels: Levels)
    requires InLevels(front, levels) && InLevels(back, levels)
    ensures Flat(front + back, levels) == Flat(front, levels) + Flat(back, levels)
  {
    if front == [] {
      assert front + back == back;
    } else {
      assert front[0] in front;
      FlatSplit(front[1..], back, levels);
      assert (front + back)[0] == front[0] && (front + back)[1..] == front[1..] + back;
    }
  }

  /** The list around one level: what is better, the level's queue, what is worse. */
  lemma FlatAround(front: seq<Price>, p: Price, back: seq<Price>, levels: Levels)
    requires InLevels(front, levels) && InLevels(back, levels) && p in levels
    ensures Flat(front + [p] + back, levels)
         == Flat(front, levels) + Orders(levels[p].elems) + Flat(back, levels)
  {
    FlatSplit(front, [p] + back, levels);
    assert front + [p] + back == front + ([p] + back);
    assert ([p] + back)[1..] == back;
  }

  ghost predicate HeldAt(ladder: seq<Price>, levels: Levels, o: Order, p: Price, e: Element) {
    p in ladder && p in levels && e in levels[p].elems && e.order == o
  }

  lemma {:induction false} MemberIsHeld(ladder: seq<Price>, levels: Levels, o: Order) returns (p: Price, e: Element)
    requires InLevels(ladder, levels) && o in Flat(ladder, levels)
    ensures HeldAt(ladder, levels, o, p, e)
  {
    assert ladder[0] in ladder;
    var q := levels[ladder[0]].elems;
    if o in Orders(q) {
      var i :| 0 <= i < |q| && Orders(q)[i] == o;
      p, e := ladder[0], q[i];
    } else {
      p, e := MemberIsHeld(ladder[1..], levels, o);
    }
  }

  lemma {:induction false} HeldIsMember(ladder: seq<Price>, levels: Levels, p: Price, e: Element)
    requires InLevels(ladder, levels) && HeldAt(ladder, levels, e.order, p, e)
    ensures e.order in Flat(ladder, levels)
  {
    assert ladder[0] in ladder;
    var q := levels[ladder[0]].elems;
    if p == ladder[0] {
      var i :| 0 <= i < |q| && q[i] == e;
      assert Orders(q)[i] == e.order;
    } else {
      HeldIsMember(ladder[1..], levels, p, e);
    }
  }

  /** The index holds exactly the ids of the two lists. */
  lemma IndexIsRestingIds(c: Core, tradeId: SeqID, maxOrderId: SeqID)
    requires CoreInv(c)
    ensures RestingIds(View(c, tradeId, maxOrderId)) == c.index.Keys
  {
    var s := View(c, tradeId, maxOrderId);
    forall id | id in c.index ensures id in RestingIds(s) {
      var slot := c.index[id];
      assert SlotOk(c.levels, id, slot);
      assert QueueOk(c.index, slot.price, c.levels[slot.price]);
      HeldIsMember(c.Ladder(c.levels[slot.price].side), c.levels, slot.price, slot.element);
    }
    forall id | id in RestingIds(s) ensures id in c.index {
      var o :| (o in s.bids || o in s.asks) && o.id == id;
      var p, e := MemberIsHeld(if o in s.bids then c.bids else c.asks, c.levels, o);
      assert QueueOk(c.index, p, c.levels[p]);
    }
  }

  // --- Removing one element ------------------------------------------------------------

  /** The k-th element of price p's level is gone, and the level with it if that empties it. */
  function LevelsWithout(levels: Levels, p: Price, k: nat): Levels
    requires p in levels && k < |levels[p].elems|
  {
    if |levels[p].elems| == 1 then levels - {p}
    else levels[p := Queue(levels[p].side, DropAt(levels[p].elems, k))]
  }

  ghost predicate Locates(c: Core, side: Side, i: nat, k: nat) {
    && side != UnknownSide
    && i < |c.Ladder(side)| && c.Ladder(side)[i] in c.levels
    && k < |c.levels[c.Ladder(side)[i]].elems|
  }

  /** Remove the k-th element of the level at ladder position i. */
  function RemoveAt(c: Core, side: Side, i: nat, k: nat): Core
    requires Locates(c, side, i, k)
  {
    var ladder := c.Ladder(side);
    var q := c.levels[ladder[i]].elems;
    var ladder' := if |q| == 1 then DropAt(ladder, i) else ladder;
    c.(levels := LevelsWithout(c.levels, ladder[i], k), index := c.index - {q[k].order.id}).WithLadder(side, ladder')
  }

  lemma RemovedLadder(side: Side, ladder: seq<Price>, levels: Levels, i: nat, k: nat)
    requires LadderOk(side, ladder, levels)
    requires i < |ladder| && ladder[i] in levels && k < |levels[ladder[i]].elems|
    ensures LadderOk(side, if |levels[ladder[i]].elems| == 1 then DropAt(ladder, i) else ladder,
                     LevelsWithout(levels, ladder[i], k))
  {
    if |levels[ladder[i]].elems| == 1 {
      SortedHasNoRepeats(side, ladder);
      DropAtMembers(ladder, i);
      DropAtSorted(side, ladder, i);
    }
  }

  lemma OtherLadder(side: Side, ladder: seq<Price>, levels: Levels, p: Price, k: nat)
    requires LadderOk(side, ladder, levels) && p in levels && levels[p].side != side && k < |levels[p].elems|
    ensures p !in ladder
    ensures LadderOk(side, ladder, LevelsWithout(levels, p, k))
    ensures Flat(ladder, LevelsWithout(levels, p, k)) == Flat(ladder, levels)
  {
    assert forall i :: 0 <= i < |ladder| ==> ladder[i] in ladder;
    FlatFrame(ladder, levels, LevelsWithout(levels, p, k));
  }

  lemma RemovedLevels(levels: Levels, index: Index, p: Price, k: nat)
    requires LevelsOk(levels, index) && p in levels && k < |levels[p].elems|
    ensures LevelsOk(LevelsWithout(levels, p, k), index - {levels[p].elems[k].order.id})
  {
    var gone := levels[p].elems[k];
    var index' := index - {gone.order.id};
    var levels' := LevelsWithout(levels, p, k);
    assert QueueOk(index, p, levels[p]);
    DropAtMembers(levels[p].elems, k);
    forall r | r in levels' ensures QueueOk(index', r, levels'[r]) {
      assert QueueOk(index, r, levels[r]);
      forall e | e in levels'[r].elems ensures ElementOk(index', r, levels'[r].side, e) {
        assert ElementOk(index, r, levels[r].side, e);
        assert ElementOk(index, p, levels[p].side, gone);
        assert e != gone;
      }
    }
  }

  lemma RemovedIndex(levels: Levels, index: Index, p: Price, k: nat)
    requires IndexOk(levels, index) && LevelsOk(levels, index) && p in levels && k < |levels[p].elems|
    ensures IndexOk(LevelsWithout(levels, p, k), index - {levels[p].elems[k].order.id})
  {
    var gone := levels[p].elems[k];
    assert QueueOk(index, p, levels[p]);
    DropAtMembers(levels[p].elems, k);
    var levels' := LevelsWithout(levels, p, k);
    forall id | id in index && id != gone.order.id ensures SlotOk(levels', id, index[id]) {
      assert SlotOk(levels, id, index[id]);
    }
  }

  /** Every removal keeps the whole invariant. */
  lemma RemoveAtKeepsInv(c: Core, side: Side, i: nat, k: nat)
    requires CoreInv(c) && Locates(c, side, i, k)
    ensures CoreInv(RemoveAt(c, side, i, k))
  {
    var ladder := c.Ladder(side);
    var p := ladder[i];
    assert c.levels[p].side == side;
    RemovedLadder(side, ladder, c.levels, i, k);
    OtherLadder(Opposite(side), c.Ladder(Opposite(side)), c.levels, p, k);
    RemovedLevels(c.levels, c.index, p, k);
    RemovedIndex(c.levels, c.index, p, k);
    SortedHasNoRepeats(side, ladder);
    DropAtMembers(ladder, i);
  }

  lemma WithoutInside(front: seq<Order>, q: seq<Order>, back: seq<Order>, k: nat)
    requires k < |q| && UniqueIds(front + q + back)
    ensures Without(front + q + back, q[k].id) == front + DropAt(q, k) + back
  {
    var list := front + q + back;
    assert list[|front| + k] == q[k];
    var i := WithoutShape(list, q[k].id);
    assert DropAt(list, |front| + k) == front + DropAt(q, k) + back;
  }

  lemma OrdersWithout(q: seq<Element>, k: nat)
    requires k < |q|
    ensures |Orders(q)| == |q| && Orders(DropAt(q, k)) == DropAt(Orders(q), k)
    ensures |q| == 1 ==> DropAt(Orders(q), k) == []
  {
  }

  /** Removing an element drops exactly its order from the list around its level. */
  lemma RemovedFlat(front: seq<Price>, p: Price, back: seq<Price>, levels: Levels, k: nat)
    requires InLevels(front, levels) && InLevels(back, levels) && p in levels && k < |levels[p].elems|
    requires p !in front && p !in back
    ensures var q := levels[p].elems;
      var ladder := if |q| == 1 then front + back else front + [p] + back;
      var levels' := LevelsWithout(levels, p, k);
      && InLevels(ladder, levels')
      && Flat(ladder, levels') == Flat(front, levels) + DropAt(Orders(q), k) + Flat(back, levels)
  {
    hide Flat, Orders;
    var q := levels[p].elems;
    var levels' := LevelsWithout(levels, p, k);
    OrdersWithout(q, k);
    assert forall i :: 0 <= i < |front| ==> front[i] in front;
    assert forall i :: 0 <= i < |back| ==> back[i] in back;
    FlatFrame(front, levels, levels');
    FlatFrame(back, levels, levels');
    if |q| == 1 {
      FlatSplit(front, back, levels');
      assert Flat(front, levels) + [] == Flat(front, levels);
    } else {
      FlatAround(front, p, back, levels');
    }
  }

  lemma RemovedView(front: seq<Price>, p: Price, back: seq<Price>, levels: Levels, k: nat)
    requires InLevels(front, levels) && InLevels(back, levels) && p in levels && k < |levels[p].elems|
    requires p !in front && p !in back
    requires InLevels(front + [p] + back, levels) && UniqueIds(Flat(front + [p] + back, levels))
    ensures var q := levels[p].elems;
      var ladder := if |q| == 1 then front + back else front + [p] + back;
      var levels' := LevelsWithout(levels, p, k);
      && InLevels(ladder, levels')
      && Flat(ladder, levels') == Without(Flat(front + [p] + back, levels), q[k].order.id)
      && q[k].order in Flat(front + [p] + back, levels)
  {
    var q := levels[p].elems;
    RemovedFlat(front, p, back, levels, k);
    FlatAround(front, p, back, levels);
    WithoutInside(Flat(front, levels), Orders(q), Flat(back, levels), k);
    assert q[k].order in Orders(q) by { assert Orders(q)[k] == q[k].order; }
  }

  lemma SplitAround<T>(s: seq<T>, i: nat)
    requires i < |s| && NoRepeats(s)
    ensures s == s[..i] + [s[i]] + s[i + 1..] && s[i] !in s[..i] && s[i] !in s[i + 1..]
    ensures DropAt(s, i) == s[..i] + s[i + 1..]
  {
  }

  lemma RemoveAtView(c: Core, side: Side, i: nat, k: nat)
    requires CoreInv(c) && Locates(c, side, i, k) && UniqueIds(List(c, side))
    ensures var c' := RemoveAt(c, side, i, k);
      && CoreInv(c')
      && List(c', side) == Without(List(c, side), c.levels[c.Ladder(side)[i]].elems[k].order.id)
      && List(c', Opposite(side)) == List(c, Opposite(side))
      && c.levels[c.Ladder(side)[i]].elems[k].order in List(c, side)
  {
    var c' := RemoveAt(c, side, i, k);
    RemoveAtKeepsInv(c, side, i, k);
    var ladder := c.Ladder(side);
    SortedHasNoRepeats(side, ladder);
    SplitAround(ladder, i);
    RemovedView(ladder[..i], ladder[i], ladder[i + 1..], c.levels, k);
    OtherLadder(Opposite(side), c.Ladder(Opposite(side)), c.levels, ladder[i], k);
  }

  /** Where the index says an order is. */
  lemma SlotIsLocated(c: Core, id: SeqID) returns (side: Side, i: nat)
    requires CoreInv(c) && id in c.index
    ensures var p := c.index[id].price;
      && p in c.levels && side == c.levels[p].side && side != UnknownSide
      && i < |c.Ladder(side)| && c.Ladder(side)[i] == p
      && c.index[id].element in c.levels[p].elems && c.index[id].element.order.id == id
  {
    var slot := c.index[id];
    assert SlotOk(c.levels, id, slot);
    assert QueueOk(c.index, slot.price, c.levels[slot.price]);
    side := c.levels[slot.price].side;
    assert slot.price in c.Ladder(side);
    i :| 0 <= i < |c.Ladder(side)| && c.Ladder(side)[i] == slot.price;
  }

  lemma {:induction false} WithoutAbsent(list: seq<Order>, id: SeqID)
    requires id !in Ids(list)
    ensures Without(list, id) == list
  {
    var i := WithoutShape(list, id);
    FreshOnSide(list, id);
  }

  /** Whoever the index finds is who the flat lists find. */
  lemma IndexFindsResting(c: Core, tradeId: SeqID, maxOrderId: SeqID, id: SeqID)
    requires CoreInv(c) && WellFormed(View(c, tradeId, maxOrderId))
    ensures var found := FindResting(View(c, tradeId, maxOrderId), id);
      && found == (if id in c.index then Some(c.index[id].element.order) else None)
      && (found.Some? ==> found.value.id == id)
  {
    if id in c.index {
      var side, i := SlotIsLocated(c, id);
      HeldIsMember(c.Ladder(side), c.levels, c.index[id].price, c.index[id].element);
      hide CoreInv;
      RemovedIsFound(View(c, tradeId, maxOrderId), c.index[id].element.order);
    } else {
      IndexIsRestingIds(c, tradeId, maxOrderId);
    }
  }

  /** What a cancel looks up and what it leaves behind. */
  lemma CancelIsRemoveAt(c: Core, tradeId: SeqID, maxOrderId: SeqID, side: Side, i: nat, k: nat)
    requires CoreInv(c) && Locates(c, side, i, k) && WellFormed(View(c, tradeId, maxOrderId))
    ensures var s := View(c, tradeId, maxOrderId); var o := c.levels[c.Ladder(side)[i]].elems[k].order;
      var c' := RemoveAt(c, side, i, k);
      && CoreInv(c')
      && FindResting(s, o.id) == Some(o)
      && View(c', tradeId, maxOrderId) == s.(bids := Without(s.bids, o.id), asks := Without(s.asks, o.id))
      && WellFormed(View(c', tradeId, maxOrderId))
  {
    hide CoreInv, WellFormed, UniqueIds, RemoveAt, FindResting;
    LadderHeadIsLocated(c, side);
    var s := View(c, tradeId, maxOrderId);
    WellFormedIsUnique(s);
    RemoveAtView(c, side, i, k);
    RemovedStaysWellFormed(s, c.levels[c.Ladder(side)[i]].elems[k].order);
  }

  lemma WellFormedIsUnique(s: BookState)
    requires WellFormed(s)
    ensures UniqueIds(s.bids) && UniqueIds(s.asks)
  {
  }

  /** Taking a resting order out leaves the other side as it was. */
  lemma RemovedStaysWellFormed(s: BookState, o: Order)
    requires WellFormed(s) && (o in s.bids || o in s.asks)
    ensures FindResting(s, o.id) == Some(o)
    ensures WellFormed(s.(bids := Without(s.bids, o.id), asks := Without(s.asks, o.id)))
    ensures o in s.bids ==> Without(s.asks, o.id) == s.asks
    ensures o in s.asks ==> Without(s.bids, o.id) == s.bids
  {
    hide WellFormed;
    RemovedIsFound(s, o);
    CancelKeepsWellFormed(s, o.id, "");
    if o in s.bids { WithoutAbsent(s.asks, o.id); }
    if o in s.asks { WithoutAbsent(s.bids, o.id); }
  }

  lemma RemovedIsFound(s: BookState, o: Order)
    requires WellFormed(s) && (o in s.bids || o in s.asks)
    ensures FindResting(s, o.id) == Some(o)
    ensures o in s.bids ==> o.id !in Ids(s.asks)
    ensures o in s.asks ==> o.id !in Ids(s.bids)
  {
    FreshOnSide(s.bids, o.id);
    FreshOnSide(s.asks, o.id);
    assert o.id in RestingIds(s);
    var f := FindResting(s, o.id);
    SameIdSameOrder(s, f.value, o);
  }

  // --- Putting a partly filled maker back at the front ------------------------------------

  function LevelsWithHead(levels: Levels, p: Price, e: Element): Levels
    requires p in levels && levels[p].elems != []
  {
    levels[p := Queue(levels[p].side, [e] + levels[p].elems[1..])]
  }

  function ReplaceHead(c: Core, side: Side, e: Element): Core
    requires Locates(c, side, 0, 0)
  {
    var p := c.Ladder(side)[0];
    c.(levels := LevelsWithHead(c.levels, p, e), index := c.index[e.order.id := Slot(p, e)])
  }

  ghost predicate SameButQuantity(a: Order, b: Order) {
    a == b.(quantity := a.quantity)
  }

  lemma ReplacedHeadLevels(levels: Levels, index: Index, p: Price, e: Element)
    requires LevelsOk(levels, index) && p in levels && levels[p].elems != []
    requires SameButQuantity(e.order, levels[p].elems[0].order) && e.order.quantity > 0
    ensures LevelsOk(LevelsWithHead(levels, p, e), index[e.order.id := Slot(p, e)])
  {
    var levels' := LevelsWithHead(levels, p, e);
    var index' := index[e.order.id := Slot(p, e)];
    assert QueueOk(index, p, levels[p]);
    var head := levels[p].elems[0];
    assert ElementOk(index, p, levels[p].side, head);
    forall r | r in levels' ensures QueueOk(index', r, levels'[r]) {
      assert QueueOk(index, r, levels[r]);
      var q' := levels'[r].elems;
      forall x | x in q' && x != e ensures x != head && ElementOk(index', r, levels'[r].side, x) {
        assert ElementOk(index, r, levels[r].side, x);
        if r == p {
          var j :| 0 <= j < |q'| && q'[j] == x;
          assert levels[p].elems[j] == x;
        }
      }
      if r == p {
        assert forall j :: 0 < j < |q'| ==> q'[j] == levels[p].elems[j] && q'[j] in levels[p].elems;
        assert NoRepeats(q') by {
          forall j | 0 < j < |q'| ensures q'[j] != e {
            assert ElementOk(index, p, levels[p].side, q'[j]);
          }
        }
      }
    }
  }

  lemma ReplacedHeadIndex(levels: Levels, index: Index, p: Price, e: Element)
    requires IndexOk(levels, index) && LevelsOk(levels, index) && p in levels && levels[p].elems != []
    requires SameButQuantity(e.order, levels[p].elems[0].order)
    ensures IndexOk(LevelsWithHead(levels, p, e), index[e.order.id := Slot(p, e)])
  {
    var q := levels[p].elems;
    var levels' := LevelsWithHead(levels, p, e);
    forall id | id in index && id != e.order.id ensures SlotOk(levels', id, index[id]) {
      var slot := index[id];
      assert SlotOk(levels, id, slot);
      if slot.price == p {
        var j :| 0 <= j < |q| && q[j] == slot.element;
        assert levels'[p].elems[j] == slot.element;
      }
    }
  }

  lemma ReplacedHeadLadder(side: Side, ladder: seq<Price>, levels: Levels, p: Price, e: Element)
    requires LadderOk(side, ladder, levels) && p in levels && levels[p].elems != []
    ensures LadderOk(side, ladder, LevelsWithHead(levels, p, e))
    ensures levels[p].side != side ==> Flat(ladder, LevelsWithHead(levels, p, e)) == Flat(ladder, levels)
  {
    if levels[p].side != side {
      assert p !in ladder;
      FlatFrame(ladder, levels, LevelsWithHead(levels, p, e));
    }
  }

  lemma OrdersWithHead(q: seq<Element>, e: Element)
    requires q != []
    ensures Orders(q) != [] && Orders([e] + q[1..]) == [e.order] + Orders(q)[1..]
  {
  }

  lemma HeadReplaced<T>(a: seq<T>, x: T, rest: seq<T>)
    requires a != []
    ensures ([x] + a[1..]) + rest == [x] + (a + rest)[1..]
  {
    assert (a + rest)[1..] == a[1..] + rest;
  }

  lemma TailHasNoHead<T>(s: seq<T>)
    requires s != [] && NoRepeats(s)
    ensures s[0] !in s[1..] && forall i :: 0 <= i < |s[1..]| ==> s[1..][i] != s[0]
  {
  }

  lemma FlatHead(ladder: seq<Price>, levels: Levels)
    requires InLevels(ladder, levels) && ladder != []
    ensures InLevels(ladder[1..], levels)
    ensures Flat(ladder, levels) == Orders(levels[ladder[0]].elems) + Flat(ladder[1..], levels)
  {
  }

  lemma ReplacedHeadFlat(ladder: seq<Price>, levels: Levels, e: Element)
    requires InLevels(ladder, levels) && NoRepeats(ladder) && ladder != [] && levels[ladder[0]].elems != []
    ensures var levels' := LevelsWithHead(levels, ladder[0], e);
      && InLevels(ladder, levels') && Flat(ladder, levels) != []
      && Flat(ladder, levels') == [e.order] + Flat(ladder, levels)[1..]
  {
    hide Orders, Flat, NoRepeats;
    var p := ladder[0];
    var levels' := LevelsWithHead(levels, p, e);
    TailHasNoHead(ladder);
    FlatHead(ladder, levels);
    FlatHead(ladder, levels');
    FlatFrame(ladder[1..], levels, levels');
    OrdersWithHead(levels[p].elems, e);
    HeadReplaced(Orders(levels[p].elems), e.order, Flat(ladder[1..], levels));
  }

  /** A partly filled maker keeps its place at the head of the list. */
  lemma ReplaceHeadView(c: Core, side: Side, e: Element)
    requires CoreInv(c) && Locates(c, side, 0, 0)
    requires SameButQuantity(e.order, c.levels[c.Ladder(side)[0]].elems[0].order) && e.order.quantity > 0
    ensures var c' := ReplaceHead(c, side, e);
      && CoreInv(c')
      && List(c, side) != []
      && List(c', side) == [e.order] + List(c, side)[1..]
      && List(c', Opposite(side)) == List(c, Opposite(side))
  {
    hide LevelsOk, IndexOk, Flat, LevelsWithHead, SameButQuantity;
    var ladder := c.Ladder(side);
    var p := ladder[0];
    assert p in ladder && c.levels[p].side == side;
    ReplacedHeadLevels(c.levels, c.index, p, e);
    ReplacedHeadIndex(c.levels, c.index, p, e);
    ReplacedHeadLadder(side, ladder, c.levels, p, e);
    ReplacedHeadLadder(Opposite(side), c.Ladder(Opposite(side)), c.levels, p, e);
    SortedHasNoRepeats(side, ladder);
    ReplacedHeadFlat(ladder, c.levels, e);
  }

  // --- A maker popped from the best level and then dropped or put back ------------------

  /** The best level's first element popped and de-indexed; the level may now be empty. */
  function PopHead(c: Core, side: Side): Core
    requires Locates(c, side, 0, 0)
  {
    var p := c.Ladder(side)[0];
    var q := c.levels[p];
    c.(levels := c.levels[p := Queue(q.side, q.elems[1..])], index := c.index - {q.elems[0].order.id})
  }

  function PushHead(c: Core, side: Side, e: Element): Core
    requires c.Ladder(side) != [] && c.Ladder(side)[0] in c.levels
  {
    var p := c.Ladder(side)[0];
    var q := c.levels[p];
    c.(levels := c.levels[p := Queue(q.side, [e] + q.elems)], index := c.index[e.order.id := Slot(p, e)])
  }

  function DropEmptyHead(c: Core, side: Side): Core
    requires c.Ladder(side) != [] && c.Ladder(side)[0] in c.levels
  {
    var p := c.Ladder(side)[0];
    if c.levels[p].elems == [] then c.(levels := c.levels - {p}).WithLadder(side, c.Ladder(side)[1..]) else c
  }

  lemma PopThenDrop(c: Core, side: Side)
    requires Locates(c, side, 0, 0)
    ensures DropEmptyHead(PopHead(c, side), side) == RemoveAt(c, side, 0, 0)
  {
    var p := c.Ladder(side)[0];
    var q := c.levels[p];
    assert c.Ladder(side)[1..] == DropAt(c.Ladder(side), 0);
    assert q.elems[1..] == DropAt(q.elems, 0);
    if |q.elems| == 1 {
      assert PopHead(c, side).levels - {p} == c.levels - {p};
    }
  }

  /** Once a level's only order is out of the index, no slot points into that level. */
  lemma LastOrderLeavesNoSlot(c: Core, p: Price, id: SeqID)
    requires CoreInv(c) && p in c.levels && |c.levels[p].elems| == 1 && c.levels[p].elems[0].order.id == id
    ensures forall x :: x in c.index && x != id ==> c.index[x].price != p
  {
    forall x | x in c.index && x != id ensures c.index[x].price != p {
      assert SlotOk(c.levels, x, c.index[x]);
    }
  }

  lemma PopThenPush(c: Core, side: Side, e: Element)
    requires Locates(c, side, 0, 0)
    requires e.order.id == c.levels[c.Ladder(side)[0]].elems[0].order.id
    ensures DropEmptyHead(PushHead(PopHead(c, side), side, e), side) == ReplaceHead(c, side, e)
  {
  }

  /** The head of the list is the first element of the best level. */
  lemma HeadOfList(c: Core, side: Side)
    requires CoreInv(c) && Locates(c, side, 0, 0)
    ensures List(c, side) != [] && List(c, side)[0] == c.levels[c.Ladder(side)[0]].elems[0].order
    ensures List(c, side)[0].price == c.Ladder(side)[0]
    ensures List(c, side)[0].quantity > 0
  {
    var p := c.Ladder(side)[0];
    assert QueueOk(c.index, p, c.levels[p]);
    assert ElementOk(c.index, p, c.levels[p].side, c.levels[p].elems[0]);
  }

  lemma LadderHeadIsLocated(c: Core, side: Side)
    requires CoreInv(c) && side != UnknownSide
    ensures StrictlySorted(side, c.Ladder(side)) && Viewable(c)
    ensures c.Ladder(side) != [] ==> Locates(c, side, 0, 0) && c.levels[c.Ladder(side)[0]].side == side
    ensures c.Ladder(side) == [] <==> List(c, side) == []
  {
    if c.Ladder(side) != [] {
      assert c.Ladder(side)[0] in c.Ladder(side);
      assert QueueOk(c.index, c.Ladder(side)[0], c.levels[c.Ladder(side)[0]]);
    }
  }

  /** What a matching loop needs to know about a side's best level. */
  lemma BestOfSide(c: Core, side: Side)
    requires CoreInv(c) && side != UnknownSide
    ensures StrictlySorted(side, c.Ladder(side)) && Viewable(c)
    ensures c.Ladder(side) == [] <==> List(c, side) == []
    ensures c.Ladder(side) != [] ==>
      && Locates(c, side, 0, 0)
      && List(c, side)[0] == c.levels[c.Ladder(side)[0]].elems[0].order
      && List(c, side)[0].price == c.Ladder(side)[0]
  {
    LadderHeadIsLocated(c, side);
    if c.Ladder(side) != [] { HeadOfList(c, side); }
  }

  /** Dropping the popped head leaves the tail of its side's list. */
  lemma DroppedHeadView(c: Core, side: Side)
    requires CoreInv(c) && Locates(c, side, 0, 0) && UniqueIds(List(c, side))
    ensures var c' := DropEmptyHead(PopHead(c, side), side);
      && CoreInv(c')
      && List(c, side) != []
      && List(c', side) == List(c, side)[1..]
      && List(c', Opposite(side)) == List(c, Opposite(side))
  {
    PopThenDrop(c, side);
    HeadOfList(c, side);
    RemoveAtView(c, side, 0, 0);
  }

  // --- Resting a new order -------------------------------------------------------------------

  /** The level lookup of the book: by price alone, so the side of an existing level is not looked at. */
  function LevelsWith(levels: Levels, side: Side, e: Element): Levels {
    var q := if e.order.price in levels then levels[e.order.price] else Queue(side, []);
    levels[e.order.price := Queue(q.side, q.elems + [e])]
  }

  function Add(c: Core, side: Side, e: Element, i: nat): Core
    requires i <= |c.Ladder(side)|
  {
    var price := e.order.price;
    var ladder := if price in c.levels then c.Ladder(side) else InsertAt(c.Ladder(side), i, price);
    c.(levels := LevelsWith(c.levels, side, e), index := c.index[e.order.id := Slot(price, e)]).WithLadder(side, ladder)
  }

  /** An incoming order that may rest: its id is new and it does not cross the other side. */
  ghost predicate MayRest(c: Core, o: Order) {
    && o.side != UnknownSide && o.kind == Limit && o.quantity > 0
    && o.id !in c.index
    && (o.side == Buy ==> forall p :: p in c.asks ==> o.price < p)
    && (o.side == Sell ==> forall p :: p in c.bids ==> p < o.price)
  }

  /** While the book is uncrossed, looking a level up by price alone never finds the wrong side's level. */
  lemma LookupFindsOwnSide(c: Core, o: Order)
    requires CoreInv(c) && MayRest(c, o) && o.price in c.levels
    ensures c.levels[o.price].side == o.side
  {
    assert QueueOk(c.index, o.price, c.levels[o.price]);
    assert c.levels[o.price].side == Buy ==> o.price in c.bids;
    assert c.levels[o.price].side == Sell ==> o.price in c.asks;
  }

  /** A limit order left over after matching does not cross the opposite ladder. */
  lemma LeftoverDoesNotCross(c: Core, o: Order)
    requires CoreInv(c) && o.side != UnknownSide && o.kind == Limit
    requires var best := c.Ladder(Opposite(o.side)); best != [] ==> !Acceptable(o, best[0])
    ensures o.side == Buy ==> forall p :: p in c.asks ==> o.price < p
    ensures o.side == Sell ==> forall p :: p in c.bids ==> p < o.price
  {
  }

  /** After matching o, what is left of it may rest. */
  lemma LeftoverMayRest(c: Core, tradeId: SeqID, maxOrderId: SeqID, o: Order, left: int, from: BookState)
    requires CoreInv(c) && WellFormed(from) && Known(o) && o.id !in RestingIds(from)
    requires o.kind == Limit && left > 0
    requires View(c, tradeId, maxOrderId) == AfterMatch(from, o, Match(o, Makers(from, o.side), from.tradeId))
    requires var best := c.Ladder(Opposite(o.side)); best != [] ==> !Acceptable(o, best[0])
    ensures MayRest(c, o.(quantity := left))
  {
    hide WellFormed, Match;
    LeftoverDoesNotCross(c, o);
    FreshAfterMatch(from, o);
    var s := View(c, tradeId, maxOrderId);
    FreshOnSide(s.bids, o.id);
    FreshOnSide(s.asks, o.id);
    IndexIsRestingIds(c, tradeId, maxOrderId);
  }

  lemma AddedLadder(side: Side, ladder: seq<Price>, levels: Levels, e: Element, i: nat)
    requires side != UnknownSide && LadderOk(side, ladder, levels)
    requires InsertsAt(side, ladder, levels, e.order.price, i)
    requires e.order.price in levels ==> levels[e.order.price].side == side
    ensures LadderOk(side, if e.order.price in levels then ladder else InsertAt(ladder, i, e.order.price),
                     LevelsWith(levels, side, e))
  {
    if e.order.price !in levels {
      InsertAtSorted(side, ladder, e.order.price, i);
      InsertAtMembers(ladder, i, e.order.price);
    }
  }

  lemma AddedLevels(levels: Levels, index: Index, e: Element)
    requires LevelsOk(levels, index) && e.order.id !in index
    requires e.order.side != UnknownSide && e.order.kind == Limit && e.order.quantity > 0
    requires e.order.price in levels ==> levels[e.order.price].side == e.order.side
    ensures LevelsOk(LevelsWith(levels, e.order.side, e), index[e.order.id := Slot(e.order.price, e)])
  {
    var levels' := LevelsWith(levels, e.order.side, e);
    var index' := index[e.order.id := Slot(e.order.price, e)];
    forall r | r in levels' ensures QueueOk(index', r, levels'[r]) {
      if r in levels {
        assert QueueOk(index, r, levels[r]);
        forall x | x in levels[r].elems ensures x != e && ElementOk(index', r, levels[r].side, x) {
          assert ElementOk(index, r, levels[r].side, x);
        }
        AppendHasNoRepeats(levels[r].elems, e);
      }
    }
  }

  lemma AddedIndex(levels: Levels, index: Index, side: Side, e: Element)
    requires IndexOk(levels, index)
    ensures IndexOk(LevelsWith(levels, side, e), index[e.order.id := Slot(e.order.price, e)])
  {
    forall id | id in index && id != e.order.id
      ensures SlotOk(LevelsWith(levels, side, e), id, index[id])
    {
      assert SlotOk(levels, id, index[id]);
    }
  }

  /** The ladders once o rests, with its price inserted at i unless its level is already there. */
  lemma AddedNotCrossed(c: Core, o: Order, ladder': seq<Price>)
    requires NotCrossed(c.bids, c.asks) && MayRest(c, o)
    requires forall p :: p in ladder' ==> p == o.price || p in c.Ladder(o.side)
    ensures var c' := c.WithLadder(o.side, ladder'); NotCrossed(c'.bids, c'.asks)
  {
  }

  lemma AddKeepsInv(c: Core, e: Element, i: nat)
    requires CoreInv(c) && MayRest(c, e.order)
    requires InsertsAt(e.order.side, c.Ladder(e.order.side), c.levels, e.order.price, i)
    ensures CoreInv(Add(c, e.order.side, e, i))
  {
    var side := e.order.side;
    if e.order.price in c.levels { LookupFindsOwnSide(c, e.order); }
    AddedLadder(side, c.Ladder(side), c.levels, e, i);
    AddedLevels(c.levels, c.index, e);
    AddedIndex(c.levels, c.index, side, e);
    InsertAtMembers(c.Ladder(side), i, e.order.price);
    AddedNotCrossed(c, e.order, Add(c, side, e, i).Ladder(side));
    AddedOtherLadder(Opposite(side), c.Ladder(Opposite(side)), c.levels, side, e);
  }

  lemma AddedOtherLadder(other: Side, ladder: seq<Price>, levels: Levels, side: Side, e: Element)
    requires LadderOk(other, ladder, levels) && other != side
    requires e.order.price in levels ==> levels[e.order.price].side == side
    ensures LadderOk(other, ladder, LevelsWith(levels, side, e))
    ensures Flat(ladder, LevelsWith(levels, side, e)) == Flat(ladder, levels)
  {
    assert forall i :: 0 <= i < |ladder| ==> ladder[i] in ladder;
    FlatFrame(ladder, levels, LevelsWith(levels, side, e));
  }

  ghost predicate PricedLevels(levels: Levels) {
    forall p, e :: p in levels && e in levels[p].elems ==> e.order.price == p
  }

  lemma LevelsArePriced(levels: Levels, index: Index)
    requires LevelsOk(levels, index)
    ensures PricedLevels(levels)
  {
    forall p, e | p in levels && e in levels[p].elems ensures e.order.price == p {
      assert QueueOk(index, p, levels[p]);
      assert ElementOk(index, p, levels[p].side, e);
    }
  }

  /** Where an order stands in a list whose front is no worse and whose back is worse. */
  lemma {:induction false} RestBetween(side: Side, front: seq<Order>, back: seq<Order>, o: Order)
    requires forall x :: x in front ==> !Better(side, o.price, x.price)
    requires forall x :: x in back ==> Better(side, o.price, x.price)
    ensures Rest(side, front + back, o) == front + [o] + back
  {
    var list := front + back;
    if front == [] {
      assert list == back;
      if back != [] { assert back[0] in back; }
    } else {
      assert list[0] == front[0] && list[0] in front;
      assert list[1..] == front[1..] + back;
      RestBetween(side, front[1..], back, o);
      assert [front[0]] + (front[1..] + [o] + back) == front + [o] + back;
    }
  }

  lemma FlatPrices(ladder: seq<Price>, levels: Levels)
    requires InLevels(ladder, levels) && PricedLevels(levels)
    ensures forall x :: x in Flat(ladder, levels) ==> x.price in ladder
  {
    forall x | x in Flat(ladder, levels) ensures x.price in ladder {
      var p, e := MemberIsHeld(ladder, levels, x);
    }
  }

  lemma AddedFlatNew(side: Side, ladder: seq<Price>, levels: Levels, e: Element, i: nat)
    requires side != UnknownSide && InLevels(ladder, levels) && PricedLevels(levels)
    requires SplitsAt(side, ladder, e.order.price, i) && e.order.price !in levels
    ensures var ladder' := InsertAt(ladder, i, e.order.price); var levels' := LevelsWith(levels, side, e);
      InLevels(ladder', levels') && Flat(ladder', levels') == Rest(side, Flat(ladder, levels), e.order)
  {
    hide Flat, Rest;
    var front, back := ladder[..i], ladder[i..];
    var levels' := LevelsWith(levels, side, e);
    assert ladder == front + back;
    FlatSplit(front, back, levels);
    FlatPrices(front, levels);
    FlatPrices(back, levels);
    RestBetween(side, Flat(front, levels), Flat(back, levels), e.order);
    FlatFrame(front, levels, levels');
    FlatFrame(back, levels, levels');
    FlatAround(front, e.order.price, back, levels');
    assert Orders(levels'[e.order.price].elems) == [e.order];
  }

  lemma AddedFlatExisting(side: Side, front: seq<Price>, back: seq<Price>, levels: Levels, e: Element)
    requires var p := e.order.price;
      && InLevels(front, levels) && InLevels(back, levels) && p in levels && p !in front && p !in back
      && (forall r :: r in front ==> !Better(side, p, r)) && (forall r :: r in back ==> Better(side, p, r))
    requires PricedLevels(levels)
    ensures var ladder := front + [e.order.price] + back; var levels' := LevelsWith(levels, side, e);
      && InLevels(ladder, levels) && InLevels(ladder, levels')
      && Flat(ladder, levels') == Rest(side, Flat(ladder, levels), e.order)
  {
    var p := e.order.price;
    var levels' := LevelsWith(levels, side, e);
    assert forall i :: 0 <= i < |front| ==> front[i] in front;
    assert forall i :: 0 <= i < |back| ==> back[i] in back;
    FlatAround(front, p, back, levels);
    FlatAround(front, p, back, levels');
    FlatFrame(front, levels, levels');
    FlatFrame(back, levels, levels');
    FlatPrices(front, levels);
    FlatPrices(back, levels);
    RestInOwnLevel(side, Flat(front, levels), levels[p].elems, Flat(back, levels), e);
  }

  lemma RestInOwnLevel(side: Side, front: seq<Order>, q: seq<Element>, back: seq<Order>, e: Element)
    requires forall x :: x in front ==> !Better(side, e.order.price, x.price)
    requires forall x :: x in q ==> x.order.price == e.order.price
    requires forall x :: x in back ==> Better(side, e.order.price, x.price)
    ensures Rest(side, front + Orders(q) + back, e.order) == front + Orders(q + [e]) + back
  {
    assert forall i :: 0 <= i < |q| ==> q[i] in q;
    RestBetween(side, front + Orders(q), back, e.order);
    assert Orders(q + [e]) == Orders(q) + [e.order];
  }

  /** A new order rests behind every equal or better price and ahead of every worse one. */
  lemma AddView(c: Core, e: Element, i: nat)
    requires CoreInv(c) && MayRest(c, e.order)
    requires InsertsAt(e.order.side, c.Ladder(e.order.side), c.levels, e.order.price, i)
    ensures var side := e.order.side; var c' := Add(c, side, e, i);
      && CoreInv(c')
      && List(c', side) == Rest(side, List(c, side), e.order)
      && List(c', Opposite(side)) == List(c, Opposite(side))
  {
    var side := e.order.side;
    AddKeepsInv(c, e, i);
    LevelsArePriced(c.levels, c.index);
    if e.order.price in c.levels { LookupFindsOwnSide(c, e.order); }
    AddedOtherLadder(Opposite(side), c.Ladder(Opposite(side)), c.levels, side, e);
    AddedFlat(side, c.Ladder(side), c.levels, e, i);
  }

  lemma AddedFlat(side: Side, ladder: seq<Price>, levels: Levels, e: Element, i: nat)
    requires side != UnknownSide && LadderOk(side, ladder, levels) && PricedLevels(levels)
    requires InsertsAt(side, ladder, levels, e.order.price, i)
    requires e.order.price in levels ==> levels[e.order.price].side == side
    ensures var ladder' := if e.order.price in levels then ladder else InsertAt(ladder, i, e.order.price);
      var levels' := LevelsWith(levels, side, e);
      InLevels(ladder', levels') && Flat(ladder', levels') == Rest(side, Flat(ladder, levels), e.order)
  {
    if e.order.price in levels {
      var n :| 0 <= n < |ladder| && ladder[n] == e.order.price;
      SortedHasNoRepeats(side, ladder);
      SplitAround(ladder, n);
      AddedFlatExisting(side, ladder[..n], ladder[n + 1..], levels, e);
    } else {
      AddedFlatNew(side, ladder, levels, e, i);
    }
  }
}
