/**
 * Nothing is created or destroyed: over every run, and whether or not a trade's
 * value overflows, total cash changes only by deposits and total shares of each
 * symbol never change.
 */
module Conservation {
  import opened Types
  import opened Matching
  import opened AccountState
  import opened Commit
  import opened World

  ghost function TotalCash(cash: map<Account, int>): int
    decreases |cash|
  {
    if cash == map[] then 0
    else
      var a :| a in cash;
      cash[a] + TotalCash(cash - {a})
  }

  ghost function TotalShares(positions: PerSymbol, s: Symbol): int
    decreases |positions|
  {
    if positions == map[] then 0
    else
      var a :| a in positions;
      Get(positions[a], s) + TotalShares(positions - {a}, s)
  }

  lemma {:induction false} CashSplits(cash: map<Account, int>, a: Account)
    requires a in cash
    ensures TotalCash(cash) == cash[a] + TotalCash(cash - {a})
    decreases |cash|
  {
    var b :| b in cash && TotalCash(cash) == cash[b] + TotalCash(cash - {b});
    if a != b {
      CashSplits(cash - {b}, a);
      CashSplits(cash - {a}, b);
      assert cash - {b} - {a} == cash - {a} - {b};
    }
  }

  lemma CashAfter(cash: map<Account, int>, a: Account, delta: int)
    ensures TotalCash(cash[a := Get(cash, a) + delta]) == TotalCash(cash) + delta
  {
    var cash' := cash[a := Get(cash, a) + delta];
    CashSplits(cash', a);
    assert cash' - {a} == cash - {a};
    if a in cash { CashSplits(cash, a); } else { assert cash - {a} == cash; }
  }

  lemma {:induction false} SharesSplit(positions: PerSymbol, s: Symbol, a: Account)
    requires a in positions
    ensures TotalShares(positions, s) == Get(positions[a], s) + TotalShares(positions - {a}, s)
    decreases |positions|
  {
    var b :| b in positions && TotalShares(positions, s) == Get(positions[b], s) + TotalShares(positions - {b}, s);
    if a != b {
      SharesSplit(positions - {b}, s, a);
      SharesSplit(positions - {a}, s, b);
      assert positions - {b} - {a} == positions - {a} - {b};
    }
  }

  lemma SharesAdded(positions: PerSymbol, a: Account, t: Symbol, delta: int, s: Symbol)
    ensures TotalShares(Add2(positions, a, t, delta), s) == TotalShares(positions, s) + (if s == t then delta else 0)
  {
    var p := Add2(positions, a, t, delta);
    SharesSplit(p, s, a);
    assert p - {a} == positions - {a};
    if a in positions { SharesSplit(positions, s, a); } else { assert positions - {a} == positions; }
  }

  /** Cash and every symbol's shares add up to the same in both states, but for this much more cash. */
  ghost predicate Conserved(a: State, b: State, more: int) {
    TotalCash(b.cash) == TotalCash(a.cash) + more
    && forall s :: TotalShares(b.positions, s) == TotalShares(a.positions, s)
  }

  lemma MoveConserves(st: State, t: Trade, value: int)
    ensures Conserved(st, MoveValue(st, t, value), 0)
  {
    hide TotalCash, TotalShares, Add2;
    CashAfter(st.cash, t.Buyer(), -value);
    var paid := st.cash[t.Buyer() := Get(st.cash, t.Buyer()) - value];
    CashAfter(paid, t.Seller(), value);
    forall s ensures TotalShares(MoveValue(st, t, value).positions, s) == TotalShares(st.positions, s) {
      var bought := Add2(st.positions, t.Buyer(), t.symbol, t.quantity);
      SharesAdded(st.positions, t.Buyer(), t.symbol, t.quantity, s);
      SharesAdded(bought, t.Seller(), t.symbol, -t.quantity, s);
    }
  }

  lemma ShrinkKeepsBalances(st: State, key: HoldKey, q: int)
    ensures var st' := ShrinkTraded(st, key, q); st'.cash == st.cash && st'.positions == st.positions
  {
    hide AddShares, TakeOff, Notional;
  }

  /** A trade moves value between its two accounts and creates none, overflow or not. */
  lemma TradeConserves(st: State, symbol: Symbol, t: Trade)
    ensures Conserved(st, ApplyTrade(st, symbol, t), 0)
  {
    hide ShrinkTraded, MoveValue, Notional;
    match Notional(t.price, t.quantity)
    case None =>
    case Some(value) =>
      var moved := MoveValue(st, t, value);
      MoveConserves(st, t, value);
      ShrinkKeepsBalances(moved, HoldKey(symbol, t.makerId), t.quantity);
      var st1 := ShrinkTraded(moved, HoldKey(symbol, t.makerId), t.quantity);
      ShrinkKeepsBalances(st1, HoldKey(symbol, t.takerId), t.quantity);
  }

  lemma {:induction false} TradesConserve(st: State, symbol: Symbol, trades: seq<Trade>)
    ensures Conserved(st, ApplyTrades(st, symbol, trades), 0)
    decreases |trades|
  {
    hide ApplyTrade;
    if trades != [] {
      TradeConserves(st, symbol, trades[0]);
      TradesConserve(ApplyTrade(st, symbol, trades[0]), symbol, trades[1..]);
    }
  }

  lemma ReleaseKeepsBalances(st: State, key: HoldKey)
    ensures Release(st, key).cash == st.cash && Release(st, key).positions == st.positions
  {
    hide AddShares, TakeOff, Notional;
  }

  lemma {:induction false} ReleasesKeepBalances(st: State, symbol: Symbol, ids: seq<SeqID>)
    ensures var st' := ReleaseAll(st, symbol, ids); st'.cash == st.cash && st'.positions == st.positions
    decreases |ids|
  {
    hide Release;
    if ids != [] {
      ReleaseKeepsBalances(st, HoldKey(symbol, ids[0]));
      ReleasesKeepBalances(Release(st, HoldKey(symbol, ids[0])), symbol, ids[1..]);
    }
  }

  /** Applying an order's whole outcome conserves cash and shares. */
  lemma CompleteConserves(st: State, symbol: Symbol, id: SeqID, outcome: Outcome)
    ensures Conserved(st, Complete(st, symbol, id, outcome), 0)
  {
    hide ApplyTrades, ReleaseAll, Release;
    TradesConserve(st, symbol, outcome.trades);
    var traded := ApplyTrades(st, symbol, outcome.trades);
    ReleasesKeepBalances(traded, symbol, outcome.selfPrevented);
    ReleaseKeepsBalances(ReleaseAll(traded, symbol, outcome.selfPrevented), HoldKey(symbol, id));
  }

  lemma ProcessConserves(v: Venue, symbol: Symbol, w: Work, failed: bool, seqNo: int)
    ensures Conserved(v.accounts, ProcessWork(v, symbol, w, failed, seqNo).0.accounts, 0)
  {
    hide Release, Complete;
    ReleaseKeepsBalances(v.accounts, HoldKey(symbol, w.orderId));
    if w.request.CancelRequest? { ReleaseKeepsBalances(v.accounts, HoldKey(symbol, w.request.id)); }
    if w.request.SubmitRequest? {
      var res := Submit(v.book, w.request.order).1;
      if res.Some? { CompleteConserves(v.accounts, symbol, w.orderId, res.value); }
    }
  }

  lemma ReservingKeepsBalances(st: State, w: Work, s: Symbol, o: Order)
    ensures ReserveWork(st, w).0.cash == st.cash && ReserveWork(st, w).0.positions == st.positions
    ensures RestoreHold(st, s, o).cash == st.cash && RestoreHold(st, s, o).positions == st.positions
  {
    hide AddShares, Notional;
  }

  function Funded(step: Step): int {
    if step.Fund? then step.amount else 0
  }

  lemma StepConserves(w: World, step: Step)
    requires Enabled(w, step)
    ensures Conserved(w.accounts, Do(w, step).accounts, Funded(step))
  {
    hide ProcessWork, RestoreHold, ReserveWork, Inv;
    match step
    case RestoreNext(s) =>
      if w.desks[s].phase.unrestored != [] {
        ReservingKeepsBalances(w.accounts, Work(SnapshotRequest, 0, 0, None), s, w.desks[s].phase.unrestored[0]);
      }
    case Fund(a, amount) => CashAfter(w.accounts.cash, a, amount);
    case ReserveNext(s) =>
      var first := w.desks[s].phase.unreserved[0];
      ReservingKeepsBalances(w.accounts, first, s, Order(0, "", "", Market, 0, 0, Buy));
    case ProcessNext(s) =>
      var d := w.desks[s];
      if d.phase.unprocessed != [] {
        ProcessConserves(Venue(d.book, w.accounts), s, d.phase.unprocessed[0], d.failed, d.position);
      }
    case _ =>
  }

  function FundedBy(steps: seq<Step>): int {
    if steps == [] then 0 else Funded(steps[0]) + FundedBy(steps[1..])
  }

  /** Over any run of any interleaving, cash changes in total by what was deposited, and shares not at all. */
  lemma {:induction false} RunsConserve(w: World, steps: seq<Step>)
    requires AnyRun(w, steps)
    ensures Conserved(w.accounts, End(w, steps).accounts, FundedBy(steps))
    decreases |steps|
  {
    hide Enabled, Do, Funded;
    if steps != [] {
      StepConserves(w, steps[0]);
      RunsConserve(Do(w, steps[0]), steps[1..]);
    }
  }
}
