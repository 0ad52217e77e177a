/**
 * The journal against the account store over whole runs of all symbols: settle what a run
 * printed, in any batches, any order and with repeats, and every balance is what it
 * was at the start, plus deposits, plus the journal's net.
 */
module SettledWorld {
  import opened Types
  import opened Matching
  import opened AccountState
  import opened Holds
  import opened Settling
  import opened LiveHolds
  import opened LiveIds
  import opened Guards
  import opened Commit
  import opened World
  import opened Journal
  import GroupCommit
  import Durability
  import Conservation
  import SolventWorld

  /** The trades a step prints, and those of a whole run in order. */
  function StepTrades(w: World, step: Step): seq<Trade>
    requires Enabled(w, step)
  {
    if step.ProcessNext? && w.desks[step.symbol].phase.unprocessed != [] then
      var d := w.desks[step.symbol];
      ProcessWork(Venue(d.book, w.accounts), step.symbol, d.phase.unprocessed[0], d.failed, d.position).1.outcome.trades
    else []
  }

  function Printed(w: World, steps: seq<Step>): seq<Trade>
    requires AnyRun(w, steps)
    decreases |steps|
  {
    if steps == [] then [] else StepTrades(w, steps[0]) + Printed(Do(w, steps[0]), steps[1..])
  }

  function DepositOf(step: Step, x: Asset): int {
    if step.Fund? && x == Cash(step.account) then step.amount else 0
  }

  function Deposits(steps: seq<Step>, x: Asset): int {
    if steps == [] then 0 else DepositOf(steps[0], x) + Deposits(steps[1..], x)
  }

  // --- Balances move by deposits and printed trades ---------------------------------------------------

  lemma {:induction false} MovementsJoin(a: seq<Trade>, b: seq<Trade>, x: Asset)
    ensures Movements(a + b, x) == Movements(a, x) + Movements(b, x)
  {
    hide Movement;
    if a == [] {
      assert a + b == b;
    } else {
      MovementsJoin(a[1..], b, x);
      assert (a + b)[1..] == a[1..] + b;
    }
  }

  lemma ProcessMoves(w: World, s: Symbol, x: Asset)
    requires Inv(w) && Enabled(w, ProcessNext(s)) && StepDoesNotOverflow(w, ProcessNext(s))
    ensures Owned(Do(w, ProcessNext(s)).accounts, x)
      == Owned(w.accounts, x) + Movements(StepTrades(w, ProcessNext(s)), x)
  {
    hide Sound, Exact, ProcessWork, Accepted, NoOverflow, Owned, Movement;
    var d := w.desks[s];
    var todo := d.phase.unprocessed;
    assert DeskOk(w.accounts.holds, s, d);
    if todo != [] {
      assert todo == [todo[0]] + todo[1..] && [todo[0]][0] == todo[0];
      ProcessWorkStaysExact(Venue(d.book, w.accounts), s, todo[0], todo[1..], d.failed, d.position);
    }
  }

  lemma SameBalances(a: State, b: State, x: Asset)
    requires a.cash == b.cash && a.positions == b.positions
    ensures Owned(a, x) == Owned(b, x)
  {
  }

  lemma StepMoves(w: World, step: Step, x: Asset)
    requires Inv(w) && Enabled(w, step) && StepDoesNotOverflow(w, step)
    ensures Owned(Do(w, step).accounts, x)
         == Owned(w.accounts, x) + DepositOf(step, x) + Movements(StepTrades(w, step), x)
  {
    hide Inv, ProcessWork, RestoreHold, ReserveWork, Owned, Movement, StepDoesNotOverflow, AssignAll, Numbered;
    match step
    case RestoreNext(s) =>
      if w.desks[s].phase.unrestored != [] {
        var none := Work(SnapshotRequest, 0, 0, None);
        Conservation.ReservingKeepsBalances(w.accounts, none, s, w.desks[s].phase.unrestored[0]);
      }
      SameBalances(w.accounts, Do(w, step).accounts, x);
    case Fund(a, amount) => FundMoves(w, a, amount, x);
    case ReserveNext(s) =>
      var none := Order(0, "", "", Market, 0, 0, Buy);
      Conservation.ReservingKeepsBalances(w.accounts, w.desks[s].phase.unreserved[0], s, none);
      SameBalances(w.accounts, Do(w, step).accounts, x);
    case ProcessNext(s) => ProcessMoves(w, s, x);
    case _ =>
  }

  lemma FundMoves(w: World, a: Account, amount: int, x: Asset)
    requires Inv(w)
    ensures Owned(Deposit(w.accounts, a, amount), x) == Owned(w.accounts, x) + if x == Cash(a) then amount else 0
  {
    hide Sound, Exact;
    DepositEffect(w.accounts, a, amount);
  }

  /** What a run prints overflows nowhere exactly when none of its steps does. */
  lemma {:induction false} OverflowIsPrinted(w: World, steps: seq<Step>)
    requires AnyRun(w, steps)
    ensures Runs(w, steps) <==> TradesOk(Printed(w, steps))
    ensures Runs(w, steps) ==> After(w, steps) == End(w, steps)
    decreases |steps|
  {
    hide Enabled, StepDoesNotOverflow, Do, StepTrades, TradesOk;
    if steps == [] {
      NothingPrintedIsOk();
    } else {
      var w' := Do(w, steps[0]);
      StepOverflowIsPrinted(w, steps[0]);
      OverflowIsPrinted(w', steps[1..]);
      OkJoin(StepTrades(w, steps[0]), Printed(w', steps[1..]));
    }
  }

  lemma NothingPrintedIsOk()
    ensures TradesOk([])
  {
  }

  lemma OkJoin(a: seq<Trade>, b: seq<Trade>)
    ensures TradesOk(a + b) <==> TradesOk(a) && TradesOk(b)
  {
    hide TradeOk;
    if TradesOk(a + b) {
      assert forall i :: 0 <= i < |a| ==> a[i] == (a + b)[i];
      assert forall i :: 0 <= i < |b| ==> b[i] == (a + b)[|a| + i];
    }
  }

  lemma StepOverflowIsPrinted(w: World, step: Step)
    requires Enabled(w, step)
    ensures StepDoesNotOverflow(w, step) <==> TradesOk(StepTrades(w, step))
  {
    hide ProcessWork;
  }

  lemma {:induction false} RunMoves(w: World, steps: seq<Step>, x: Asset)
    requires Inv(w) && AnyRun(w, steps) && Runs(w, steps)
    ensures Owned(End(w, steps).accounts, x)
         == Owned(w.accounts, x) + Deposits(steps, x) + Movements(Printed(w, steps), x)
    decreases |steps|
  {
    hide Inv, Enabled, StepDoesNotOverflow, Do, Owned, Movement, StepTrades, DepositOf;
    if steps != [] {
      StepMoves(w, steps[0], x);
      StepKeepsInv(w, steps[0]);
      RunMoves(Do(w, steps[0]), steps[1..], x);
      MovementsJoin(StepTrades(w, steps[0]), Printed(Do(w, steps[0]), steps[1..]), x);
    }
  }

  // --- A run never prints a trade twice ---------------------------------------------------------------

  /** Trades of this symbol, numbered one after another from a counter. */
  predicate RunOn(ts: seq<Trade>, s: Symbol, from: SeqID) {
    forall i :: 0 <= i < |ts| ==> ts[i].symbol == s && ts[i].id == from + 1 + i
  }

  lemma {:induction false} TradesCarrySymbol(taker: Order, makers: seq<Order>, tradeId: SeqID)
    ensures forall t :: t in Match(taker, makers, tradeId).trades ==> t.symbol == taker.symbol
    decreases |makers|
  {
    if taker.quantity <= 0 || makers == [] || !Acceptable(taker, makers[0].price) {
    } else if SelfMatch(taker, makers[0]) {
      TradesCarrySymbol(taker, makers[1..], tradeId);
    } else {
      var fill := Min(taker.quantity, makers[0].quantity);
      if fill >= makers[0].quantity {
        TradesCarrySymbol(taker.(quantity := taker.quantity - fill), makers[1..], tradeId + 1);
      }
    }
  }

  lemma RecordPrints(book: BookState, r: Record, s: Symbol)
    requires WellFormed(book) && (r.op.SubmitOrder? ==> r.op.order.symbol == s)
    ensures RunOn(GroupCommit.RecordTrades(book, r), s, book.tradeId)
    ensures ApplyRecord(book, r).tradeId == book.tradeId + |GroupCommit.RecordTrades(book, r)|
  {
    hide WellFormed, Match;
    Durability.RecordTradesAreDense(book, r);
    if r.op.SubmitOrder? && Known(r.op.order) {
      TradesCarrySymbol(r.op.order, Makers(book, r.op.order.side), book.tradeId);
    }
  }

  /** The id of the latest trade of a symbol. */
  function Counter(w: World, s: Symbol): SeqID {
    if s in w.desks then w.desks[s].book.tradeId else 0
  }

  /** What one request prints is numbered on from its book's counter, which moves past it. */
  lemma ProcessPrints(w: World, s: Symbol)
    requires Inv(w) && Enabled(w, ProcessNext(s))
    ensures RunOn(StepTrades(w, ProcessNext(s)), s, Counter(w, s))
    ensures Counter(Do(w, ProcessNext(s)), s) == Counter(w, s) + |StepTrades(w, ProcessNext(s))|
  {
    hide Sound, Exact, ProcessWork, Accepted, WellFormed, GroupCommit.RecordTrades, ApplyRecord, Guarded;
    var d := w.desks[s];
    var todo := d.phase.unprocessed;
    assert DeskOk(w.accounts.holds, s, d);
    if todo != [] {
      var v := Venue(d.book, w.accounts);
      assert todo == [todo[0]] + todo[1..] && [todo[0]][0] == todo[0];
      if d.failed {
        FailedPrints(v, s, todo[0], d.position);
      } else {
        ExactIsGuarded(w.accounts.holds, s, d.book, Accepted(todo));
        GuardedBook(w.accounts.holds, s, d.book, Accepted(todo));
        GroupCommit.ProcessedLikeRecord(v, s, todo[0], todo[1..], d.position, 0, 0);
        if IsLogged(todo[0]) { RecordPrints(d.book, Record(0, 0, MutationOf(todo[0].request)), s); }
      }
    }
  }

  lemma GuardedBook(holds: HoldMap, s: Symbol, book: BookState, pending: seq<Order>)
    requires Guarded(holds, s, book, pending)
    ensures WellFormed(book)
  {
  }

  lemma FailedPrints(v: Venue, s: Symbol, w: Work, at: int)
    ensures ProcessWork(v, s, w, true, at).1.outcome.trades == [] && ProcessWork(v, s, w, true, at).0.book == v.book
  {
    hide Release;
  }

  /** A symbol already open prints only trades past its counter, and one not yet open anything. */
  ghost predicate Later(w: World, t: Trade) {
    t.symbol in w.desks ==> t.id > Counter(w, t.symbol)
  }

  /** No two of these trades share symbol and id. */
  predicate NoneRepeated(ts: seq<Trade>) {
    forall i, j :: 0 <= i < j < |ts| ==> !(ts[i].symbol == ts[j].symbol && ts[i].id == ts[j].id)
  }

  lemma StepPrints(w: World, step: Step, t: Trade)
    requires Inv(w) && Enabled(w, step)
    ensures NoneRepeated(StepTrades(w, step))
    ensures t in StepTrades(w, step) ==>
      && Later(w, t) && var w' := Do(w, step); t.symbol in w'.desks && t.id <= Counter(w', t.symbol)
    ensures Later(Do(w, step), t) ==> Later(w, t)
  {
    hide Inv, ProcessWork, RestoreHold, ReserveWork, AssignAll, Numbered, Records;
    if step.ProcessNext? { ProcessPrints(w, step.symbol); }
  }

  /** Everything printed from here on is later, and no two of those trades share symbol and id. */
  lemma {:induction false} PrintedOnce(w: World, steps: seq<Step>)
    requires Inv(w) && AnyRun(w, steps) && Runs(w, steps)
    ensures forall t :: t in Printed(w, steps) ==> Later(w, t)
    ensures NoneRepeated(Printed(w, steps))
    decreases |steps|
  {
    hide Inv, Enabled, StepDoesNotOverflow, Do, StepTrades, Later, NoneRepeated;
    NothingRepeated();
    if steps != [] {
      var w' := Do(w, steps[0]);
      StepKeepsInv(w, steps[0]);
      PrintedOnce(w', steps[1..]);
      var now, later := StepTrades(w, steps[0]), Printed(w', steps[1..]);
      forall t ensures t in now + later ==> Later(w, t) { StepPrints(w, steps[0], t); }
      NoneTwice(w, w', steps[0], now, later);
    }
  }

  lemma NothingRepeated()
    ensures NoneRepeated([])
  {
  }

  lemma NoneTwice(w: World, w': World, step: Step, now: seq<Trade>, later: seq<Trade>)
    requires Inv(w) && Enabled(w, step) && w' == Do(w, step) && now == StepTrades(w, step)
    requires forall t :: t in later ==> Later(w', t)
    requires NoneRepeated(later)
    ensures NoneRepeated(now + later)
  {
    hide Inv, Enabled, Do, StepTrades;
    var ts := now + later;
    forall i, j | 0 <= i < j < |ts| ensures !(ts[i].symbol == ts[j].symbol && ts[i].id == ts[j].id) {
      if i < |now| {
        StepPrints(w, step, now[i]);
        if j >= |now| {
          assert now[i] in now && ts[j] == later[j - |now|] && ts[j] in later;
        }
      }
    }
  }

  // --- Settling what was printed -------------------------------------------------------------------------

  /** Settle some batches, one transaction each. */
  function SettleBatches(rows: Rows, batches: seq<seq<Trade>>): Option<Rows>
    requires forall b :: b in batches ==> AllInt64Trades(b)
    decreases |batches|
  {
    if batches == [] then Some(rows)
    else
      match Settle(rows, batches[0])
      case None => None
      case Some(rows') => SettleBatches(rows', batches[1..])
  }

  function AllOf(batches: seq<seq<Trade>>): set<Trade> {
    if batches == [] then {} else SetOf(batches[0]) + AllOf(batches[1..])
  }

  lemma {:induction false} BatchesAreUnion(rows: Rows, batches: seq<seq<Trade>>, settled: set<Trade>)
    requires Holds4(rows, settled) && Identified(settled + AllOf(batches))
    requires forall b :: b in batches ==> AllSettleable(b)
    ensures forall b :: b in batches ==> AllInt64Trades(b)
    ensures var r := SettleBatches(rows, batches); r.Some? && Holds4(r.value, settled + AllOf(batches))
    decreases |batches|
  {
    hide Holds4, Identified, Settle, AllSettleable;
    forall b | b in batches ensures AllInt64Trades(b) { SettleableIsInt64(b); }
    if batches == [] {
      assert settled + {} == settled;
    } else {
      IdentifiedSubset(settled + SetOf(batches[0]), settled + AllOf(batches));
      SettleIsUnion(rows, batches[0], settled);
      assert settled + SetOf(batches[0]) + AllOf(batches[1..]) == settled + AllOf(batches);
      BatchesAreUnion(Settle(rows, batches[0]).value, batches[1..], settled + SetOf(batches[0]));
    }
  }

  lemma {:induction false} BadBatchFails(rows: Rows, batches: seq<seq<Trade>>, b: seq<Trade>)
    requires b in batches && !AllSettleable(b) && forall b :: b in batches ==> AllInt64Trades(b)
    ensures SettleBatches(rows, batches).None?
    decreases |batches|
  {
    hide Settle, Settleable;
    if b == batches[0] {
      var t :| t in b && !Settleable(t);
      var i :| 0 <= i < |b| && b[i] == t;
      OneBadTradeFailsAll(rows, b, i);
    } else if Settle(rows, batches[0]).Some? {
      BadBatchFails(Settle(rows, batches[0]).value, batches[1..], b);
    }
  }

  lemma SettleableIsOk(ts: seq<Trade>)
    requires AllSettleable(ts)
    ensures TradesOk(ts)
  {
    hide Representable;
    forall i | 0 <= i < |ts| ensures TradeOk(ts[i]) { assert ts[i] in ts && Settleable(ts[i]); }
  }

  /**
   * Over any run of any interleaving: settle the trades it printed, batched, ordered and repeated
   * in any way. Every batch is settled if and only if every printed trade can be; then no value has
   * overflowed, and every account's cash and shares are what they were, plus what was deposited,
   * plus the journal's net.
   */
  lemma LedgerAgreesWithAccounts(cash: map<Account, int>, positions: PerSymbol, steps: seq<Step>,
                                 batches: seq<seq<Trade>>, x: Asset)
    requires AnyRun(Opened(cash, positions), steps)
    requires AllOf(batches) == SetOf(Printed(Opened(cash, positions), steps))
    requires forall b :: b in batches ==> AllInt64Trades(b)
    ensures var w := Opened(cash, positions); var r := SettleBatches(map[], batches);
      && (r.Some? <==> AllSettleable(Printed(w, steps)))
      && (r.Some? ==>
            && Runs(w, steps)
            && Owned(End(w, steps).accounts, x)
                 == Owned(w.accounts, x) + Deposits(steps, x) + Sum(r.value, NetOf(x)))
  {
    hide Inv, Runs, AnyRun, Printed, End, Owned, Movement, Sum, Settle, SettleBatches, Identified, Holds4, NoneRepeated,
         AllSettleable;
    var w := Opened(cash, positions);
    var ts := Printed(w, steps);
    if AllSettleable(ts) {
      PartsAreSettleable(batches, ts);
      SettleableIsOk(ts);
      OverflowIsPrinted(w, steps);
      OpenedIsSound(cash, positions);
      RunMoves(w, steps, x);
      PrintedOnce(w, steps);
      DistinctIsIdentified(ts);
      NothingSettled();
      assert {} + AllOf(batches) == SetOf(ts);
      BatchesAreUnion(map[], batches, {});
      BalancesAreMovements(SettleBatches(map[], batches).value, SetOf(ts), x);
      MovementsOfList(ts, x);
    } else {
      var b := SomeBadBatch(batches, ts);
      BadBatchFails(map[], batches, b);
    }
  }

  lemma SomeBadBatch(batches: seq<seq<Trade>>, ts: seq<Trade>) returns (b: seq<Trade>)
    requires !AllSettleable(ts) && AllOf(batches) == SetOf(ts)
    ensures b in batches && !AllSettleable(b)
  {
    hide Settleable;
    var t :| t in ts && !Settleable(t);
    assert t in SetOf(ts);
    b := BatchHolding(batches, t);
  }

  lemma {:induction false} BatchHolding(batches: seq<seq<Trade>>, t: Trade) returns (b: seq<Trade>)
    requires t in AllOf(batches)
    ensures b in batches && t in b
  {
    if t in SetOf(batches[0]) { b := batches[0]; } else { b := BatchHolding(batches[1..], t); }
  }

  lemma DistinctIsIdentified(ts: seq<Trade>)
    requires NoneRepeated(ts)
    ensures Identified(SetOf(ts))
    ensures forall i, j :: 0 <= i < j < |ts| ==> ts[i] != ts[j]
  {
    forall t, u | t in SetOf(ts) && u in SetOf(ts) && t.symbol == u.symbol && t.id == u.id ensures t == u {
      var i :| 0 <= i < |ts| && ts[i] == t;
      var j :| 0 <= j < |ts| && ts[j] == u;
    }
  }

  // --- Orders whose trades can be settled ------------------------------------------------------------------

  /** A resting order the ledger can settle against: placed by a named account, priced at one or more. */
  predicate Tradable(o: Order) {
    o.placer != "" && o.price >= 1
  }

  predicate AllTradable(list: seq<Order>) {
    forall m :: m in list ==> Tradable(m)
  }

  /** A MARKET order has no price of its own; it prints at its makers'. */
  predicate TradableRequest(r: Request) {
    r.SubmitRequest? ==> r.order.placer != "" && (r.order.kind == Limit ==> r.order.price >= 1)
  }

  predicate TradableWorks(works: seq<Work>) {
    forall i :: 0 <= i < |works| ==> TradableRequest(works[i].request)
  }

  predicate TradableStep(step: Step) {
    match step
    case Open(_, book, _, _) => AllTradable(book.bids) && AllTradable(book.asks)
    case Begin(_, batch) => forall i :: 0 <= i < |batch| ==> TradableRequest(batch[i])
    case _ => true
  }

  predicate TradableDesk(d: Desk) {
    && AllTradable(d.book.bids) && AllTradable(d.book.asks)
    && match d.phase
       case Restoring(_, _) => true
       case Idle => true
       case Reserving(reserved, unreserved) => TradableWorks(reserved) && TradableWorks(unreserved)
       case Processing(unprocessed) => TradableWorks(unprocessed)
  }

  ghost predicate TradableWorld(w: World) {
    forall s :: s in w.desks ==> TradableDesk(w.desks[s])
  }

  /** A representable trade at a positive price between named accounts. */
  lemma NamedIsSettleable(t: Trade)
    requires TradeOk(t) && t.price >= 1 && t.Buyer() != "" && t.Seller() != ""
    ensures Settleable(t)
  {
    ProductMonotone(1, t.price, t.quantity);
    ProductMonotone(1, t.quantity, t.price);
  }

  lemma MatchIsSettleable(taker: Order, makers: seq<Order>, tradeId: SeqID)
    requires AllTradable(makers) && taker.placer != "" && forall j :: 0 <= j < |makers| ==> makers[j].quantity > 0
    requires TradesOk(Match(taker, makers, tradeId).trades)
    ensures AllSettleable(Match(taker, makers, tradeId).trades)
  {
    hide Match, Settleable, TradeOk;
    var ts := Match(taker, makers, tradeId).trades;
    MakersPriceWins(taker, makers, tradeId);
    TradesAreProper(taker, makers, tradeId);
    forall t | t in ts ensures Settleable(t) {
      var i :| 0 <= i < |ts| && ts[i] == t;
      ProperTradesAt(taker, ts, tradeId, i);
      assert NamesMaker(makers, t);
      NamedIsSettleable(t);
    }
  }

  lemma SurvivorsTradable(makers: seq<Order>, o: Order, tradeId: SeqID)
    requires AllTradable(makers)
    ensures AllTradable(Match(o, makers, tradeId).makers)
  {
    SurvivorsAreASuffix(o, makers, tradeId);
    var r := Match(o, makers, tradeId);
    hide Match;
    var k := |makers| - |r.makers|;
    if r.makers != makers[k..] {
      assert PartlyFilledHead(makers, k, r);
      assert makers[k] in makers;
    }
  }

  lemma SubmitKeepsTradable(book: BookState, o: Order)
    requires WellFormed(book) && AllTradable(book.bids) && AllTradable(book.asks)
    requires o.placer != "" && (o.kind == Limit ==> o.price >= 1)
    ensures var book' := Submit(book, o).0; AllTradable(book'.bids) && AllTradable(book'.asks)
  {
    if Known(o) {
      SubmittedLists(book, o);
      SurvivorsTradable(Makers(book, o.side), o, book.tradeId);
      hide Submit;
      var book' := Submit(book, o).0;
      assert AllTradable(Makers(book', o.side)) && AllTradable(Makers(book', Opposite(o.side)));
    }
  }

  lemma SubmitIsSettleable(book: BookState, o: Order)
    requires WellFormed(book) && AllTradable(book.bids) && AllTradable(book.asks) && o.placer != ""
    requires Submit(book, o).1.Some? ==> TradesOk(Submit(book, o).1.value.trades)
    ensures Submit(book, o).1.Some? ==> AllSettleable(Submit(book, o).1.value.trades)
  {
    hide TradeOk, Settleable;
    if Known(o) { MatchIsSettleable(o, Makers(book, o.side), book.tradeId); }
  }

  lemma NothingSettleable()
    ensures AllSettleable([])
  {
  }

  /** One request's turn prints only trades the ledger can settle, and leaves such orders resting. */
  lemma ProcessIsSettleable(v: Venue, symbol: Symbol, w: Work, failed: bool, seqNo: int)
    requires WellFormed(v.book) && AllTradable(v.book.bids) && AllTradable(v.book.asks)
    requires TradableRequest(w.request) && NoOverflow(v, symbol, w, failed, seqNo)
    ensures var (v', r) := ProcessWork(v, symbol, w, failed, seqNo);
      AllSettleable(r.outcome.trades) && AllTradable(v'.book.bids) && AllTradable(v'.book.asks)
  {
    hide WellFormed, AllTradable, AllSettleable, TradesOk, Release, Complete, Submit;
    NothingSettleable();
    if w.request.SubmitRequest? && w.preErr.None? && !failed {
      SubmitIsSettleable(v.book, w.request.order);
      SubmitKeepsTradable(v.book, w.request.order);
    } else if w.request.CancelRequest? {
      CancelKeepsTradable(v.book, w.request.id, w.request.who);
    }
  }

  lemma CancelKeepsTradable(book: BookState, id: SeqID, who: Account)
    requires WellFormed(book) && AllTradable(book.bids) && AllTradable(book.asks)
    ensures var book' := Cancel(book, id, who).0; AllTradable(book'.bids) && AllTradable(book'.asks)
  {
    CancelKeepsWellFormed(book, id, who);
  }

  lemma {:induction false} AssignKeepsTradable(symbol: Symbol, batch: seq<Request>, nextId: SeqID)
    requires forall i :: 0 <= i < |batch| ==> TradableRequest(batch[i])
    ensures TradableWorks(AssignAll(symbol, batch, nextId).0)
  {
    if batch != [] {
      var (w, n) := Assign(symbol, batch[0], nextId);
      assert TradableRequest(batch[0]);
      AssignKeepsTradable(symbol, batch[1..], n);
    }
  }

  lemma {:induction false} NumberingKeepsTradable(works: seq<Work>, seqNo: int)
    requires TradableWorks(works)
    ensures TradableWorks(Numbered(works, seqNo))
  {
    if works != [] {
      assert TradableRequest(works[0].request);
      NumberingKeepsTradable(works[1..], if IsLogged(works[0]) then seqNo + 1 else seqNo);
    }
  }

  lemma ProcessNextIsSettleable(w: World, s: Symbol)
    requires Inv(w) && TradableWorld(w) && Enabled(w, ProcessNext(s)) && StepDoesNotOverflow(w, ProcessNext(s))
    ensures AllSettleable(StepTrades(w, ProcessNext(s))) && TradableWorld(Do(w, ProcessNext(s)))
  {
    hide Sound, Exact, ProcessWork, Accepted, NoOverflow, AllTradable, AllSettleable, TradableRequest;
    var d := w.desks[s];
    var todo := d.phase.unprocessed;
    assert DeskOk(w.accounts.holds, s, d) && TradableDesk(d);
    NothingSettleable();
    if todo != [] {
      SolventWorld.ExactIsWellFormed(w.accounts.holds, s, d.book, Accepted(todo));
      assert TradableRequest(todo[0].request);
      ProcessIsSettleable(Venue(d.book, w.accounts), s, todo[0], d.failed, d.position);
    }
  }

  lemma StepIsSettleable(w: World, step: Step)
    requires Inv(w) && TradableWorld(w) && Enabled(w, step) && StepDoesNotOverflow(w, step) && TradableStep(step)
    ensures AllSettleable(StepTrades(w, step)) && TradableWorld(Do(w, step))
  {
    hide Inv, ProcessWork, RestoreHold, Reserve, AssignAll, Numbered, Deposit, AllTradable, AllSettleable,
         TradableRequest, StepDoesNotOverflow, Recovered, Lists;
    NothingSettleable();
    match step
    case Begin(s, batch) => AssignKeepsTradable(s, batch, w.desks[s].nextOrderId);
    case ReserveNext(s) =>
      assert TradableDesk(w.desks[s]);
      assert TradableRequest(w.desks[s].phase.unreserved[0].request);
    case Log(s, ts, ok) =>
      assert TradableDesk(w.desks[s]);
      NumberingKeepsTradable(w.desks[s].phase.reserved, w.desks[s].position);
    case ProcessNext(s) => ProcessNextIsSettleable(w, s);
    case _ =>
  }

  /** Whatever a run of such orders prints, MARKET orders included, the ledger can settle, unless a value overflows. */
  lemma {:induction false} RunIsSettleable(w: World, steps: seq<Step>)
    requires Inv(w) && TradableWorld(w) && AnyRun(w, steps) && Runs(w, steps)
    requires forall i :: 0 <= i < |steps| ==> TradableStep(steps[i])
    ensures AllSettleable(Printed(w, steps))
    decreases |steps|
  {
    hide Inv, Enabled, StepDoesNotOverflow, Do, StepTrades, TradableWorld, TradableStep, Settleable;
    if steps != [] {
      StepIsSettleable(w, steps[0]);
      StepKeepsInv(w, steps[0]);
      RunIsSettleable(Do(w, steps[0]), steps[1..]);
    }
  }

  /**
   * With LIMIT orders priced at one or more and MARKET sells, all of named accounts, from
   * non-negative balances and nothing recovered: however the symbols interleave, no value
   * overflows, the ledger settles everything printed, and its net is what every balance moved by.
   */
  lemma SolventLedgerAgrees(cash: map<Account, int>, positions: PerSymbol, steps: seq<Step>,
                            batches: seq<seq<Trade>>, x: Asset)
    requires forall a :: a in cash ==> cash[a] >= 0
    requires forall a, s :: a in positions && s in positions[a] ==> positions[a][s] >= 0
    requires AnyRun(Opened(cash, positions), steps)
    requires forall i :: 0 <= i < |steps| ==> SolventWorld.FreshStep(steps[i]) && TradableStep(steps[i])
    requires AllOf(batches) == SetOf(Printed(Opened(cash, positions), steps))
    ensures forall b :: b in batches ==> AllInt64Trades(b)
    ensures var w := Opened(cash, positions); var r := SettleBatches(map[], batches);
      && Runs(w, steps) && r.Some?
      && Owned(End(w, steps).accounts, x) == Owned(w.accounts, x) + Deposits(steps, x) + Sum(r.value, NetOf(x))
  {
    hide Inv, Runs, AnyRun, Printed, End, Owned, Sum, SettleBatches, SolventWorld.FreshStep, TradableStep,
         AllSettleable;
    var w := Opened(cash, positions);
    SolventWorld.AlwaysSolvent(cash, positions, steps);
    OpenedIsSound(cash, positions);
    RunIsSettleable(w, steps);
    PartsAreSettleable(batches, Printed(w, steps));
    forall b | b in batches ensures AllInt64Trades(b) { SettleableIsInt64(b); }
    LedgerAgreesWithAccounts(cash, positions, steps, batches, x);
  }

  lemma {:induction false} BatchIsPart(batches: seq<seq<Trade>>, b: seq<Trade>)
    requires b in batches
    ensures SetOf(b) <= AllOf(batches)
  {
    if b != batches[0] { BatchIsPart(batches[1..], b); }
  }

  lemma PartsAreSettleable(batches: seq<seq<Trade>>, ts: seq<Trade>)
    requires AllSettleable(ts) && AllOf(batches) == SetOf(ts)
    ensures forall b :: b in batches ==> AllSettleable(b)
  {
    hide Settleable;
    forall b | b in batches ensures AllSettleable(b) {
      BatchIsPart(batches, b);
      forall t | t in b ensures Settleable(t) { assert t in SetOf(b) && t in SetOf(ts); }
    }
  }
}
