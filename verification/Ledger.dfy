/** The settlement ledger: trades become journal rows in one transaction, balances are summed back out of them. */
module LedgerModule {
  import opened Types
  import opened AccountState
  import opened Holds
  import opened Journal

  /** One group of the balance query: an account's cash or position rows under one symbol. */
  datatype Group = Group(account: Account, asset: AssetKind, symbol: Symbol)

  predicate InGroup(k: LegKey, g: Group) {
    k.account == g.account && k.asset == g.asset && k.symbol == g.symbol
  }

  /** A group's debits minus its credits. */
  function GroupNet(g: Group): Weight {
    (k: LegKey, v: int) => if InGroup(k, g) then Signed(k, v) else 0
  }

  /** What the rows of these groups add to an asset. */
  function NetWithin(x: Asset, groups: set<Group>): Weight {
    (k: LegKey, v: int) => if Group(k.account, k.asset, k.symbol) in groups then NetAt(x, k, v) else 0
  }

  /** Once the groups of every row are in, everything is counted. */
  lemma AllGroupsIn(rows: Rows, groups: set<Group>, x: Asset)
    requires forall k :: k in rows ==> Group(k.account, k.asset, k.symbol) in groups
    ensures Sum(rows, NetOf(x)) == Sum(rows, NetWithin(x, groups))
  {
    SumIsSame(rows, NetOf(x), NetWithin(x, groups));
  }

  lemma NoGroupsYet(rows: Rows, x: Asset)
    ensures Sum(rows, NetWithin(x, {})) == 0
  {
    SumOfNothing(rows, NetWithin(x, {}));
  }

  lemma {:induction false} SumOfParts(rows: Rows, a: Weight, b: Weight, whole: Weight)
    requires forall k :: k in rows ==> whole(k, rows[k]) == a(k, rows[k]) + b(k, rows[k])
    ensures Sum(rows, whole) == Sum(rows, a) + Sum(rows, b)
    decreases |rows|
  {
    if rows != map[] {
      var k :| k in rows && Sum(rows, whole) == whole(k, rows[k]) + Sum(rows - {k}, whole);
      SumSplits(rows, a, k);
      SumSplits(rows, b, k);
      SumOfParts(rows - {k}, a, b, whole);
    }
  }

  lemma {:induction false} SumIsSame(rows: Rows, a: Weight, b: Weight)
    requires forall k :: k in rows ==> a(k, rows[k]) == b(k, rows[k])
    ensures Sum(rows, a) == Sum(rows, b)
    decreases |rows|
  {
    if rows != map[] {
      var k :| k in rows && Sum(rows, a) == a(k, rows[k]) + Sum(rows - {k}, a);
      SumSplits(rows, b, k);
      SumIsSame(rows - {k}, a, b);
    }
  }

  lemma {:induction false} SumOfNothing(rows: Rows, a: Weight)
    requires forall k :: k in rows ==> a(k, rows[k]) == 0
    ensures Sum(rows, a) == 0
    decreases |rows|
  {
    if rows != map[] {
      var k :| k in rows && Sum(rows, a) == a(k, rows[k]) + Sum(rows - {k}, a);
      SumOfNothing(rows - {k}, a);
    }
  }

  /** What one group's net adds to an asset. */
  function Adds(g: Group, x: Asset, net: int): int {
    match x
    case Cash(a) => if g.asset == CASH && g.account == a then net else 0
    case Shares(a, s) => if g.asset == POSITION && g.account == a && g.symbol == s then net else 0
  }

  /** Taking one more group into account adds exactly its net to the assets it belongs to. */
  lemma OneMoreGroup(rows: Rows, done: set<Group>, g: Group, x: Asset)
    requires g !in done
    ensures Sum(rows, NetWithin(x, done + {g})) == Sum(rows, NetWithin(x, done)) + Adds(g, x, Sum(rows, GroupNet(g)))
  {
    forall k | k in rows ensures RowAdds(k, rows[k], done, g, x) { OneRowMore(k, rows[k], done, g, x); }
    if Adds(g, x, 1) == 1 {
      SumOfParts(rows, NetWithin(x, done), GroupNet(g), NetWithin(x, done + {g}));
    } else {
      SumIsSame(rows, NetWithin(x, done + {g}), NetWithin(x, done));
    }
  }

  predicate RowAdds(k: LegKey, v: int, done: set<Group>, g: Group, x: Asset) {
    NetWithin(x, done + {g})(k, v)
      == NetWithin(x, done)(k, v) + (if Adds(g, x, 1) == 1 then GroupNet(g)(k, v) else 0)
  }

  lemma OneRowMore(k: LegKey, v: int, done: set<Group>, g: Group, x: Asset)
    requires g !in done
    ensures RowAdds(k, v, done, g, x)
  {
    var h := Group(k.account, k.asset, k.symbol);
    assert InGroup(k, g) <==> h == g;
    assert h in done + {g} <==> h in done || h == g;
  }

  class Ledger {
    var rows: Rows

    constructor ()
      ensures rows == map[]
    {
      rows := map[];
    }

    /** Queue the legs of every trade; none when one of them cannot be settled. */
    method QueueTrades(trades: seq<Trade>) returns (batch: Option<seq<Leg>>)
      requires AllInt64Trades(trades)
      ensures batch == QueueAll(trades)
    {
      hide Queue;
      var legs: seq<Leg> := [];
      assert trades[0..] == trades;
      Prefixed([], QueueAll(trades));
      for i := 0 to |trades|
        invariant QueueAll(trades) == Prefix(legs, QueueAll(trades[i..]))
      {
        assert trades[i..][1..] == trades[i + 1..] && trades[i..][0] == trades[i];
        QueueStep(trades[i..]);
        var four := Queue(trades[i]);
        if four == None { return None; }
        Regroup(legs, four.value, QueueAll(trades[i + 1..]));
        legs := legs + four.value;
      }
      assert legs + [] == legs;
      return Some(legs);
    }

    /** Execute the queued inserts on the transaction's copy of the rows. */
    method Execute(batch: seq<Leg>) returns (tx: Option<Rows>)
      ensures tx == InsertAll(rows, batch)
    {
      hide Insert;
      var r := rows;
      assert batch[0..] == batch;
      for i := 0 to |batch|
        invariant InsertAll(rows, batch) == InsertAll(r, batch[i..])
      {
        assert batch[i..][1..] == batch[i + 1..] && batch[i..][0] == batch[i];
        var inserted := Insert(r, batch[i]);
        if inserted == None { return None; }
        r := inserted.value;
      }
      return Some(r);
    }

    /** Post the double-entry rows of every trade, all or none. */
    method Settle(trades: seq<Trade>) returns (ok: bool)
      requires AllInt64Trades(trades)
      modifies this
      ensures ok == Journal.Settle(old(rows), trades).Some?
      ensures rows == if ok then Journal.Settle(old(rows), trades).value else old(rows)
    {
      if |trades| == 0 { return true; }
      var batch := QueueTrades(trades);
      if batch == None { return false; }
      var tx := Execute(batch.value);
      if tx == None { return false; }
      rows := tx.value;
      return true;
    }

    /** The query's groups. */
    function Groups(): set<Group>
      reads this
    {
      set k | k in rows :: Group(k.account, k.asset, k.symbol)
    }

    /** Every account's cash, accumulated across symbols, and its position in each symbol. */
    method Balances() returns (cash: map<Account, int>, positions: PerSymbol)
      ensures forall a :: Get(cash, a) == Sum(rows, NetOf(Cash(a)))
      ensures forall a, s :: Get2(positions, a, s) == Sum(rows, NetOf(Shares(a, s)))
    {
      hide Sum, NetWithin, NetOf, Get, Get2, Adds, Put2;
      var groups, done := Groups(), {};
      cash, positions := map[], map[];
      forall x ensures Sum(rows, NetWithin(x, {})) == 0 { NoGroupsYet(rows, x); }
      NothingInMaps();
      while groups != {}
        invariant groups !! done && groups + done == Groups()
        invariant forall a :: Get(cash, a) == Sum(rows, NetWithin(Cash(a), done))
        invariant forall a, s :: Get2(positions, a, s) == Sum(rows, NetWithin(Shares(a, s), done))
        decreases |groups|
      {
        var g := PickGroup(groups);
        var net := RowsNet(g);
        forall x
          ensures Sum(rows, NetWithin(x, done + {g})) == Sum(rows, NetWithin(x, done)) + Adds(g, x, net)
        {
          OneMoreGroup(rows, done, g, x);
        }
        forall a ensures Get(WithCash(cash, g, net), a) == Get(cash, a) + Adds(g, Cash(a), net) {
          CashAdds(cash, g, net, a);
        }
        forall a, s
          ensures Get2(WithPosition(positions, g, net), a, s) == Get2(positions, a, s) + Adds(g, Shares(a, s), net)
        {
          PositionAdds(positions, g, net, a, s);
        }
        cash, positions := WithCash(cash, g, net), WithPosition(positions, g, net);
        groups, done := groups - {g}, done + {g};
      }
      forall x ensures Sum(rows, NetOf(x)) == Sum(rows, NetWithin(x, done)) { AllGroupsIn(rows, done, x); }
    }

    /** The query's SUM over one group. */
    method RowsNet(g: Group) returns (net: int)
      ensures net == Sum(rows, GroupNet(g))
    {
      var keys, rest := rows.Keys, rows;
      net := 0;
      while keys != {}
        invariant rest.Keys == keys && keys <= rows.Keys && forall k :: k in rest ==> rest[k] == rows[k]
        invariant net + Sum(rest, GroupNet(g)) == Sum(rows, GroupNet(g))
        decreases |keys|
      {
        var k := PickKey(keys);
        SumSplits(rest, GroupNet(g), k);
        if InGroup(k, g) { net := net + Signed(k, rows[k]); }
        keys, rest := keys - {k}, rest - {k};
      }
      assert rest == map[];
    }
  }

  /** Cash is not per symbol: an account's cash groups accumulate. */
  function WithCash(cash: map<Account, int>, g: Group, net: int): map<Account, int> {
    if g.asset == CASH then cash[g.account := Get(cash, g.account) + net] else cash
  }

  function WithPosition(positions: PerSymbol, g: Group, net: int): PerSymbol {
    if g.asset == POSITION then Add2(positions, g.account, g.symbol, net) else positions
  }

  lemma CashAdds(cash: map<Account, int>, g: Group, net: int, a: Account)
    ensures Get(WithCash(cash, g, net), a) == Get(cash, a) + Adds(g, Cash(a), net)
  {
  }

  lemma PositionAdds(positions: PerSymbol, g: Group, net: int, a: Account, s: Symbol)
    ensures Get2(WithPosition(positions, g, net), a, s) == Get2(positions, a, s) + Adds(g, Shares(a, s), net)
  {
    SharesAfter(positions, g.account, g.symbol, net, a, s);
  }

  lemma NothingInMaps()
    ensures forall a: Account :: Get(map[], a) == 0
    ensures forall a, s :: Get2(map[], a, s) == 0
  {
  }

  lemma SomeGroup(groups: set<Group>)
    ensures groups == {} || exists g :: g in groups
  {
    if forall g :: g !in groups { assert groups == {}; }
  }

  method PickGroup(groups: set<Group>) returns (g: Group)
    requires groups != {}
    ensures g in groups
  {
    SomeGroup(groups);
    g :| g in groups;
  }

  lemma SomeKey(keys: set<LegKey>)
    ensures keys == {} || exists k :: k in keys
  {
    if forall k :: k !in keys { assert keys == {}; }
  }

  method PickKey(keys: set<LegKey>) returns (k: LegKey)
    requires keys != {}
    ensures k in keys
  {
    SomeKey(keys);
    k :| k in keys;
  }

  /** Legs already queued in front of what the rest queues. */
  function Prefix(batch: seq<Leg>, rest: Option<seq<Leg>>): Option<seq<Leg>> {
    match rest
    case None => None
    case Some(legs) => Some(batch + legs)
  }

  lemma Prefixed(batch: seq<Leg>, rest: Option<seq<Leg>>)
    requires batch == []
    ensures Prefix(batch, rest) == rest
  {
    if rest.Some? { assert batch + rest.value == rest.value; }
  }

  lemma Regroup(batch: seq<Leg>, legs: seq<Leg>, rest: Option<seq<Leg>>)
    ensures Prefix(batch + legs, rest) == Prefix(batch, Prefix(legs, rest))
  {
    if rest.Some? { assert batch + legs + rest.value == batch + (legs + rest.value); }
  }

  lemma QueueStep(trades: seq<Trade>)
    requires trades != [] && AllInt64Trades(trades)
    ensures QueueAll(trades) ==
      match Queue(trades[0])
      case None => None
      case Some(legs) => Prefix(legs, QueueAll(trades[1..]))
  {
  }

  /** Balances read from the journal at startup are the movements of everything settled. */
  lemma LoadedBalancesAreMovements(rows: Rows, trades: set<Trade>, cash: map<Account, int>, positions: PerSymbol,
                                   st: State, x: Asset)
    requires Holds4(rows, trades) && Identified(trades)
    requires forall a :: Get(cash, a) == Sum(rows, NetOf(Cash(a)))
    requires forall a, s :: Get2(positions, a, s) == Sum(rows, NetOf(Shares(a, s)))
    requires LoadBalances(st, cash, positions).Some?
    ensures Owned(LoadBalances(st, cash, positions).value, x) == MovementsOf(trades, x)
  {
    BalancesAreMovements(rows, trades, x);
  }
}
