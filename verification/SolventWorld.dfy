/**
 * Solvency of every run: with LIMIT orders and MARKET sells only, whichever way the
 * symbols' steps interleave, no trade value overflows, and no account is ever reserved
 * past what it owns exactly when every step leaves room for recovered orders.
 */
module SolventWorld {
  import opened Types
  import opened Matching
  import opened AccountState
  import opened Holds
  import opened Settling
  import opened LiveHolds
  import opened Solvency
  import opened Commit
  import opened World

  /** A LIMIT order priced at zero or more, or a MARKET sell. */
  predicate GoodOrder(o: Order) {
    Bounded(o) && (o.kind == Limit ==> o.price >= 0)
  }

  predicate GoodRequest(r: Request) {
    r.SubmitRequest? ==> GoodOrder(r.order)
  }

  predicate GoodWorks(works: seq<Work>) {
    forall i :: 0 <= i < |works| ==> GoodRequest(works[i].request)
  }

  predicate GoodDesk(d: Desk) {
    && Priced(d.book.bids) && Priced(d.book.asks)
    && match d.phase
       case Restoring(restored, unrestored) => true
       case Idle => true
       case Reserving(reserved, unreserved) => GoodWorks(reserved) && GoodWorks(unreserved)
       case Processing(unprocessed) => GoodWorks(unprocessed)
  }

  /** The orders a symbol has still to restore. */
  function Unrestored(d: Desk): seq<Order> {
    if d.phase.Restoring? then d.phase.unrestored else []
  }

  ghost predicate NobodyRestoring(w: World) {
    forall s :: s in w.desks ==> Unrestored(w.desks[s]) == []
  }

  /** Requests inside the claim; symbols are recovered one at a time, under the registry's lock. */
  ghost predicate InScope(w: World, step: Step) {
    match step
    case Open(_, book, _, _) => NobodyRestoring(w) && Priced(book.bids) && Priced(book.asks)
    case Begin(_, batch) => forall i :: 0 <= i < |batch| ==> GoodRequest(batch[i])
    case _ => true
  }

  /** What is owned covers what is reserved, this much more, and these orders still to be restored. */
  ghost predicate Fits(st: State, more: seq<Order>, unrestored: seq<Order>) {
    forall x :: Reserved(st, x) + OrdersDemand(more, x) + OrdersDemand(unrestored, x) <= Owned(st, x)
  }

  /** The order this symbol reserves for next, if it is accepted. */
  function NextAccepted(w: World, s: Symbol): seq<Order>
    requires Enabled(w, ReserveNext(s))
  {
    var r := w.desks[s].phase.unreserved[0].request;
    if r.SubmitRequest? && Reserve(w.accounts, r.order).1.None? then [r.order] else []
  }

  /** An accepted order leaves room for every order still to be restored, of whatever symbol. */
  ghost predicate ReserveFits(w: World, s: Symbol)
    requires Enabled(w, ReserveNext(s))
  {
    forall t :: t in w.desks ==> Fits(w.accounts, NextAccepted(w, s), Unrestored(w.desks[t]))
  }

  /**
   * Balances cover a recovered book's orders on top of everything reserved when its symbol is
   * opened, and go on covering what is left of them whenever another symbol's order is accepted.
   */
  ghost predicate LeavesRoom(w: World, step: Step)
    requires Enabled(w, step)
  {
    match step
    case Open(_, _, _, orders) => Fits(w.accounts, [], orders)
    case ReserveNext(s) => ReserveFits(w, s)
    case _ => true
  }

  /** What is owned covers what is reserved and what one symbol at most has still to restore. */
  ghost predicate Covered(w: World) {
    && Solvent(w.accounts)
    && (forall s :: s in w.desks ==> Fits(w.accounts, [], Unrestored(w.desks[s])))
    && (forall s, t :: s in w.desks && t in w.desks && s != t ==>
          Unrestored(w.desks[s]) == [] || Unrestored(w.desks[t]) == [])
  }

  /** 0 <= reserved <= owned for every account's cash and for its shares of every symbol. */
  ghost predicate SafeWorld(w: World) {
    && Inv(w) && Covered(w)
    && (forall s :: s in w.desks ==> GoodDesk(w.desks[s]))
  }

  lemma {:induction false} AssignKeepsGood(symbol: Symbol, batch: seq<Request>, nextId: SeqID)
    requires forall i :: 0 <= i < |batch| ==> GoodRequest(batch[i])
    ensures GoodWorks(AssignAll(symbol, batch, nextId).0)
  {
    if batch != [] {
      var (w, n) := Assign(symbol, batch[0], nextId);
      assert GoodRequest(batch[0]);
      AssignKeepsGood(symbol, batch[1..], n);
    }
  }

  lemma {:induction false} NumberingKeepsGood(works: seq<Work>, seqNo: int)
    requires GoodWorks(works)
    ensures GoodWorks(Numbered(works, seqNo))
  {
    if works != [] {
      assert GoodRequest(works[0].request);
      NumberingKeepsGood(works[1..], if IsLogged(works[0]) then seqNo + 1 else seqNo);
    }
  }

  lemma ProcessSubmitIsSafe(v: Venue, symbol: Symbol, o: Order, reply: Reply, rest: seq<Order>)
    requires Sound(v.accounts) && Exact(v.accounts.holds, symbol, v.book, [o] + rest) && GoodOrder(o)
    requires Priced(v.book.bids) && Priced(v.book.asks) && reply.outcome.trades == []
    ensures var (v', r) := ProcessSubmit(v, symbol, o, o.id, reply);
      && TradesOk(r.outcome.trades)
      && NoLessUncommitted(v.accounts, v'.accounts)
      && Priced(v'.book.bids) && Priced(v'.book.asks)
  {
    hide Sound, Release, Complete, Uncommitted, WellFormed;
    SubmitKeepsSolvent(v.accounts, symbol, v.book, o, rest);
    SubmitKeepsPriced(v.book, o);
  }

  lemma SameIsNoLess(a: State)
    ensures NoLessUncommitted(a, a)
  {
  }

  /** One request's turn: no value overflows and nobody's uncommitted cash or shares fall. */
  lemma ProcessWorkIsSafe(v: Venue, symbol: Symbol, w: Work, rest: seq<Work>, failed: bool, seqNo: int)
    requires Sound(v.accounts) && Exact(v.accounts.holds, symbol, v.book, Accepted([w] + rest))
    requires Assigned(symbol, [w]) && GoodRequest(w.request)
    requires Priced(v.book.bids) && Priced(v.book.asks)
    ensures NoOverflow(v, symbol, w, failed, seqNo)
    ensures var v' := ProcessWork(v, symbol, w, failed, seqNo).0;
      NoLessUncommitted(v.accounts, v'.accounts) && Priced(v'.book.bids) && Priced(v'.book.asks)
  {
    hide Sound, Exact, Release, ProcessSubmit, Accepted, NoLessUncommitted, GoodOrder, Priced;
    AcceptedHead(w, rest);
    assert [w][0] == w;
    SameIsNoLess(v.accounts);
    var reply := Reply(w.seqNo, w.orderId, None, NoOutcome, None);
    if w.request.SnapshotRequest? || w.preErr.Some? {
    } else if failed {
      if w.request.SubmitRequest? { ReleaseKeepsUncommitted(v.accounts, HoldKey(symbol, w.orderId)); }
    } else if w.request.CancelRequest? {
      ExactIsWellFormed(v.accounts.holds, symbol, v.book, Accepted([w] + rest));
      CancelKeepsPriced(v.book, w.request.id, w.request.who);
      ReleaseKeepsUncommitted(v.accounts, HoldKey(symbol, w.request.id));
    } else {
      ProcessSubmitIsSafe(v, symbol, w.request.order, reply, Accepted(rest));
    }
  }

  lemma ExactIsWellFormed(holds: HoldMap, symbol: Symbol, book: BookState, pending: seq<Order>)
    requires Exact(holds, symbol, book, pending)
    ensures WellFormed(book)
  {
  }

  lemma ProcessNextIsSafe(w: World, s: Symbol)
    requires SafeWorld(w) && Enabled(w, ProcessNext(s))
    ensures StepDoesNotOverflow(w, ProcessNext(s))
    ensures var w' := Do(w, ProcessNext(s)); NoLessUncommitted(w.accounts, w'.accounts) && GoodDesk(w'.desks[s])
  {
    hide Sound, Exact, ProcessWork, NoLessUncommitted, NoOverflow, Accepted, Priced, GoodRequest;
    var d := w.desks[s];
    var todo := d.phase.unprocessed;
    assert DeskOk(w.accounts.holds, s, d) && GoodDesk(d);
    SameIsNoLess(w.accounts);
    if todo != [] {
      assert todo == [todo[0]] + todo[1..] && [todo[0]][0] == todo[0];
      assert GoodRequest(todo[0].request);
      ProcessWorkIsSafe(Venue(d.book, w.accounts), s, todo[0], todo[1..], d.failed, d.position);
    }
  }

  lemma FundKeepsSolvent(st: State, a: Account, amount: int)
    requires Sound(st) && Solvent(st) && amount >= 0
    ensures Solvent(Deposit(st, a, amount))
  {
    DepositEffect(st, a, amount);
    var st' := Deposit(st, a, amount);
    hide Deposit, Sound;
    forall x ensures 0 <= Reserved(st', x) <= Owned(st', x) {
      assert Reserved(st, x) <= Owned(st, x);
    }
  }

  lemma LessFits(a: State, b: State, unrestored: seq<Order>)
    requires Fits(a, [], unrestored) && NoLessUncommitted(a, b)
    ensures Fits(b, [], unrestored)
  {
    hide Owned, Reserved;
    forall x ensures Reserved(b, x) + OrdersDemand([], x) + OrdersDemand(unrestored, x) <= Owned(b, x) {
      assert Uncommitted(a, x) <= Uncommitted(b, x);
    }
  }

  /** Nobody's uncommitted assets falling, and nobody starting to restore, keeps the world covered. */
  lemma StaysCovered(w: World, w': World, s: Symbol)
    requires Covered(w) && Sound(w'.accounts) && NoLessUncommitted(w.accounts, w'.accounts)
    requires s in w'.desks && w'.desks == w.desks[s := w'.desks[s]]
    requires s in w.desks && Unrestored(w'.desks[s]) == Unrestored(w.desks[s])
    ensures Covered(w')
  {
    hide Sound, Fits, Unrestored, NoLessUncommitted;
    StaysSolvent(w.accounts, w'.accounts);
    forall t | t in w'.desks ensures Fits(w'.accounts, [], Unrestored(w'.desks[t])) {
      LessFits(w.accounts, w'.accounts, Unrestored(w.desks[t]));
    }
  }

  lemma SolventFits(st: State)
    requires Solvent(st)
    ensures Fits(st, [], [])
  {
  }

  /** Opening a symbol on a recovered book keeps the world covered exactly when balances cover its orders too. */
  lemma OpenIsCoveredIff(w: World, step: Step)
    requires SafeWorld(w) && step.Open? && Enabled(w, step) && InScope(w, step)
    ensures Covered(Do(w, step)) <==> LeavesRoom(w, step)
  {
    hide Inv, Sound, Fits, Recovered, Lists, Solvent;
    var w' := Do(w, step);
    SolventFits(w.accounts);
    assert Unrestored(w'.desks[step.symbol]) == step.orders;
    forall t | t in w'.desks && t != step.symbol ensures Unrestored(w'.desks[t]) == [] {
      assert Unrestored(w.desks[t]) == [];
    }
  }

  lemma RestoreIsCovered(w: World, s: Symbol)
    requires SafeWorld(w) && Enabled(w, RestoreNext(s))
    ensures Covered(Do(w, RestoreNext(s)))
  {
    hide Sound, Exact, Reserved, Recovered, RestoreHold, Demand, HoldFor, Fits, Solvent;
    var w' := Do(w, RestoreNext(s));
    var d := w.desks[s];
    var p := d.phase;
    assert DeskOk(w.accounts.holds, s, d);
    if p.unrestored != [] {
      var o := p.unrestored[0];
      NextListed(s, d.book, p.restored, p.unrestored);
      NotYetHeld(w.accounts.holds, s, p.restored, o);
      RestoreEffect(w.accounts, s, o);
      RestIsNonNegative(s, d.book, p.restored, p.unrestored);
      RestoredFits(w.accounts, w'.accounts, p.unrestored);
      RestoredIsCovered(w, w', s);
    }
  }

  lemma NotYetHeld(holds: HoldMap, s: Symbol, restored: seq<Order>, o: Order)
    requires Exact(holds, s, EmptyBook, restored) && o.symbol == s && o.id !in Ids(restored)
    ensures Key(o) !in holds
  {
  }

  lemma RestoredFits(st: State, st': State, todo: seq<Order>)
    requires Fits(st, [], todo) && todo != [] && Sound(st')
    requires forall x :: Owned(st', x) == Owned(st, x)
    requires forall x :: Reserved(st', x) == Reserved(st, x) + Demand(HoldFor(todo[0]), x)
    requires forall x :: OrdersDemand(todo[1..], x) >= 0
    ensures Fits(st', [], todo[1..]) && Solvent(st')
  {
    hide Sound, Demand, HoldFor, Reserved, Owned;
    forall x
      ensures 0 <= Reserved(st', x) <= Owned(st', x)
      ensures Reserved(st', x) + OrdersDemand([], x) + OrdersDemand(todo[1..], x) <= Owned(st', x)
    {
      ReservedIsNonNegative(st', x);
      assert OrdersDemand(todo[1..], x) >= 0;
      assert Reserved(st, x) + OrdersDemand([], x) + OrdersDemand(todo, x) <= Owned(st, x);
    }
  }

  lemma RestoredIsCovered(w: World, w': World, s: Symbol)
    requires Covered(w) && s in w.desks && w.desks[s].phase.Restoring? && Unrestored(w.desks[s]) != []
    requires w'.desks == w.desks[s := AfterRestore(w.desks[s])]
    requires Solvent(w'.accounts) && Fits(w'.accounts, [], Unrestored(w.desks[s])[1..])
    ensures Covered(w')
  {
    hide Solvent, Fits;
    SolventFits(w'.accounts);
    assert Unrestored(w'.desks[s]) == Unrestored(w.desks[s])[1..];
    forall t | t in w'.desks && t != s ensures Unrestored(w'.desks[t]) == [] {
      assert Unrestored(w.desks[t]) == [];
    }
  }

  lemma RestIsNonNegative(s: Symbol, book: BookState, restored: seq<Order>, unrestored: seq<Order>)
    requires Recovered(s, book) && Lists(book, restored + unrestored) && unrestored != []
    ensures forall x :: OrdersDemand(unrestored[1..], x) >= 0
  {
    hide HoldFor, HoldOk, WellFormed, Demand;
    assert forall o :: o in unrestored[1..] ==> o in restored + unrestored;
    forall x ensures OrdersDemand(unrestored[1..], x) >= 0 { DemandedIsNonNegative(unrestored[1..], x); }
  }

  /** What reserving for one request does to the accounts: the accepted order's demand is reserved. */
  lemma ReserveWorkTotals(w: World, s: Symbol)
    requires Sound(w.accounts) && Enabled(w, ReserveNext(s))
    ensures var st' := Do(w, ReserveNext(s)).accounts;
      && Sound(st')
      && (forall x :: Owned(st', x) == Owned(w.accounts, x))
      && (forall x :: Reserved(st', x) == Reserved(w.accounts, x) + OrdersDemand(NextAccepted(w, s), x))
  {
    var r := w.desks[s].phase.unreserved[0].request;
    if r.SubmitRequest? { ReserveEffect(w.accounts, r.order); }
    hide Sound, Reserve, Demand, Owned, Reserved;
  }

  lemma ReservedFitsIff(st: State, st': State, more: seq<Order>, unrestored: seq<Order>)
    requires forall x :: Owned(st', x) == Owned(st, x)
    requires forall x :: Reserved(st', x) == Reserved(st, x) + OrdersDemand(more, x)
    ensures Fits(st', [], unrestored) <==> Fits(st, more, unrestored)
  {
    hide Owned, Reserved;
    if Fits(st', [], unrestored) {
      forall x ensures Reserved(st, x) + OrdersDemand(more, x) + OrdersDemand(unrestored, x) <= Owned(st, x) {
        assert Reserved(st', x) + OrdersDemand([], x) + OrdersDemand(unrestored, x) <= Owned(st', x);
      }
    }
    if Fits(st, more, unrestored) {
      forall x ensures Reserved(st', x) + OrdersDemand([], x) + OrdersDemand(unrestored, x) <= Owned(st', x) {
        assert Reserved(st, x) + OrdersDemand(more, x) + OrdersDemand(unrestored, x) <= Owned(st, x);
      }
    }
  }

  lemma FitsIsSolvent(st: State)
    requires Sound(st) && Fits(st, [], [])
    ensures Solvent(st)
  {
    hide Sound, Owned, Reserved;
    forall x ensures 0 <= Reserved(st, x) <= Owned(st, x) {
      ReservedIsNonNegative(st, x);
      assert Reserved(st, x) + OrdersDemand([], x) + OrdersDemand([], x) <= Owned(st, x);
    }
  }

  /** Reserving for one request keeps the world covered exactly when the order leaves room for the unrestored. */
  lemma ReserveIsCoveredIff(w: World, s: Symbol)
    requires SafeWorld(w) && Enabled(w, ReserveNext(s))
    ensures Covered(Do(w, ReserveNext(s))) <==> ReserveFits(w, s)
  {
    hide DeskOk, GoodDesk, Sound, Fits, Owned, Reserved, Solvent, NextAccepted, ReserveWork;
    var w' := Do(w, ReserveNext(s));
    ReserveWorkTotals(w, s);
    forall t | t in w.desks
      ensures Unrestored(w'.desks[t]) == Unrestored(w.desks[t])
      ensures Fits(w'.accounts, [], Unrestored(w'.desks[t]))
         <==> Fits(w.accounts, NextAccepted(w, s), Unrestored(w.desks[t]))
    {
      ReservedFitsIff(w.accounts, w'.accounts, NextAccepted(w, s), Unrestored(w.desks[t]));
    }
    if ReserveFits(w, s) {
      assert Unrestored(w'.desks[s]) == [];
      FitsIsSolvent(w'.accounts);
    }
  }

  /** While nobody is being restored every acceptance leaves room: the check was against what is uncommitted. */
  lemma OthersMayReserve(w: World, s: Symbol)
    requires SafeWorld(w) && NobodyRestoring(w) && Enabled(w, ReserveNext(s))
    ensures ReserveFits(w, s)
  {
    hide DeskOk, GoodDesk, Sound, Fits, Owned, Reserved, Solvent, NextAccepted, Reserve;
    var w' := Do(w, ReserveNext(s));
    var r := w.desks[s].phase.unreserved[0].request;
    ReserveWorkTotals(w, s);
    if r.SubmitRequest? { ReserveKeepsSolvent(w.accounts, r.order); }
    SolventFits(w'.accounts);
    ReservedFitsIff(w.accounts, w'.accounts, NextAccepted(w, s), []);
  }

  lemma ReserveKeepsGoodDesk(w: World, s: Symbol)
    requires SafeWorld(w) && Enabled(w, ReserveNext(s))
    ensures GoodDesk(Do(w, ReserveNext(s)).desks[s])
  {
    hide Inv, Covered, Priced, Reserve, GoodOrder;
    var p := w.desks[s].phase;
    assert GoodDesk(w.desks[s]) && GoodRequest(p.unreserved[0].request);
    assert ReserveWork(w.accounts, p.unreserved[0]).1.request == p.unreserved[0].request;
  }

  lemma FundIsCovered(w: World, a: Account, amount: int)
    requires SafeWorld(w) && amount >= 0
    ensures Covered(Do(w, Fund(a, amount)))
  {
    hide Sound, Deposit, Fits, Solvent;
    FundKeepsSolvent(w.accounts, a, amount);
    DepositEffect(w.accounts, a, amount);
    var w' := Do(w, Fund(a, amount));
    assert NoLessUncommitted(w.accounts, w'.accounts);
    forall t | t in w'.desks ensures Fits(w'.accounts, [], Unrestored(w'.desks[t])) {
      LessFits(w.accounts, w'.accounts, Unrestored(w.desks[t]));
    }
  }

  /** What a step inside the claim does to the accounts and to the one desk it moves. */
  lemma StepIsGood(w: World, step: Step)
    requires SafeWorld(w) && Enabled(w, step) && InScope(w, step)
    ensures StepDoesNotOverflow(w, step)
    ensures Inv(Do(w, step)) ==> (Covered(Do(w, step)) <==> LeavesRoom(w, step))
    ensures var w' := Do(w, step); forall s :: s in w'.desks ==> GoodDesk(w'.desks[s])
  {
    hide Sound, Exact, DeskOk, Covered, Priced, NoOverflow, Deposit, ReserveWork, AssignAll, Numbered, ProcessWork,
         GoodRequest, RestoreHold, NobodyRestoring, Owned, Reserved, Fits, ReserveFits;
    match step
    case Open(s, book, position, orders) => OpenIsCoveredIff(w, step);
    case RestoreNext(s) =>
      assert GoodDesk(w.desks[s]);
      RestoreIsCovered(w, s);
    case Fund(a, amount) => FundIsCovered(w, a, amount);
    case Begin(s, batch) =>
      assert GoodDesk(w.desks[s]);
      AssignKeepsGood(s, batch, w.desks[s].nextOrderId);
      SameIsNoLess(w.accounts);
      StaysCovered(w, Do(w, step), s);
    case ReserveNext(s) =>
      ReserveIsCoveredIff(w, s);
      ReserveKeepsGoodDesk(w, s);
    case Log(s, ts, ok) =>
      var d := w.desks[s];
      assert GoodDesk(d);
      NumberingKeepsGood(d.phase.reserved, d.position);
      SameIsNoLess(w.accounts);
      StaysCovered(w, Do(w, step), s);
    case ProcessNext(s) =>
      ProcessNextIsSafe(w, s);
      if Inv(Do(w, step)) { StaysCovered(w, Do(w, step), s); }
  }

  /** A step keeps the world safe if and only if it leaves room; that no value overflows is proved, not assumed. */
  lemma StepKeepsSafe(w: World, step: Step)
    requires SafeWorld(w) && Enabled(w, step) && InScope(w, step)
    ensures StepDoesNotOverflow(w, step)
    ensures SafeWorld(Do(w, step)) <==> LeavesRoom(w, step)
  {
    hide Inv, Covered, GoodDesk, Do, Enabled, InScope, LeavesRoom, StepDoesNotOverflow;
    StepIsGood(w, step);
    StepKeepsInv(w, step);
  }

  /** A run of steps inside the claim. */
  ghost predicate ScopedRun(w: World, steps: seq<Step>)
    decreases |steps|
  {
    steps == [] || (Enabled(w, steps[0]) && InScope(w, steps[0]) && ScopedRun(Do(w, steps[0]), steps[1..]))
  }

  /** Each step of the run leaves room for what is still to be restored. */
  ghost predicate RoomThroughout(w: World, steps: seq<Step>)
    requires ScopedRun(w, steps)
    decreases |steps|
  {
    steps == [] || (LeavesRoom(w, steps[0]) && RoomThroughout(Do(w, steps[0]), steps[1..]))
  }

  ghost predicate SafeThroughout(w: World, steps: seq<Step>)
    requires ScopedRun(w, steps)
    decreases |steps|
  {
    SafeWorld(w) && (steps == [] || SafeThroughout(Do(w, steps[0]), steps[1..]))
  }

  /** A run is safe at every moment if and only if each of its steps leaves room. */
  lemma {:induction false} RunsStaySafeIff(w: World, steps: seq<Step>)
    requires SafeWorld(w) && ScopedRun(w, steps)
    ensures SafeThroughout(w, steps) <==> RoomThroughout(w, steps)
    ensures RoomThroughout(w, steps) ==> Runs(w, steps) && SafeWorld(After(w, steps))
    decreases |steps|
  {
    hide SafeWorld, Enabled, InScope, LeavesRoom, Do, StepDoesNotOverflow;
    if steps != [] {
      var w' := Do(w, steps[0]);
      StepKeepsSafe(w, steps[0]);
      if SafeWorld(w') { RunsStaySafeIff(w', steps[1..]); }
      assert SafeThroughout(w', steps[1..]) ==> SafeWorld(w');
    }
  }

  // --- Runs that always leave room ---------------------------------------------------------------

  /** Recovered orders are covered when their symbol is opened, and nobody reserves until they are restored. */
  ghost predicate Orderly(w: World, step: Step) {
    match step
    case Open(_, _, _, orders) => Fits(w.accounts, [], orders)
    case ReserveNext(_) => NobodyRestoring(w)
    case _ => true
  }

  ghost predicate OrderlyRun(w: World, steps: seq<Step>)
    decreases |steps|
  {
    steps == []
    || (Enabled(w, steps[0]) && InScope(w, steps[0]) && Orderly(w, steps[0])
        && OrderlyRun(Do(w, steps[0]), steps[1..]))
  }

  /** Reserving only while nobody is being restored, each acceptance is inside what the pre-trade check allows. */
  lemma {:induction false} OrderlyLeavesRoom(w: World, steps: seq<Step>)
    requires SafeWorld(w) && OrderlyRun(w, steps)
    ensures ScopedRun(w, steps) && RoomThroughout(w, steps)
    decreases |steps|
  {
    hide SafeWorld, Enabled, InScope, Do, StepDoesNotOverflow, NobodyRestoring, Fits, ReserveFits;
    if steps != [] {
      if steps[0].ReserveNext? { OthersMayReserve(w, steps[0].symbol); }
      StepKeepsSafe(w, steps[0]);
      OrderlyLeavesRoom(Do(w, steps[0]), steps[1..]);
    }
  }

  /** Nothing is recovered, and every order is a LIMIT priced at zero or more or a MARKET sell. */
  predicate FreshStep(step: Step) {
    match step
    case Open(_, _, _, orders) => orders == []
    case Begin(_, batch) => forall i :: 0 <= i < |batch| ==> GoodRequest(batch[i])
    case _ => true
  }

  lemma NothingListed(book: BookState)
    requires Lists(book, [])
    ensures Priced(book.bids) && Priced(book.asks)
  {
  }

  lemma FreshIsOrderly(w: World, step: Step)
    requires SafeWorld(w) && NobodyRestoring(w) && Enabled(w, step) && FreshStep(step)
    ensures InScope(w, step) && Orderly(w, step) && NobodyRestoring(Do(w, step))
  {
    hide Inv, GoodDesk, Fits, Solvent, Recovered, Lists, ProcessWork, RestoreHold, ReserveWork, AssignAll, Numbered,
         Records, Deposit;
    match step
    case Open(s, book, position, orders) =>
      NothingListed(book);
      SolventFits(w.accounts);
    case _ =>
  }

  /** A process that recovers nothing leaves room at every step. */
  lemma {:induction false} FreshIsOrderlyRun(w: World, steps: seq<Step>)
    requires SafeWorld(w) && NobodyRestoring(w) && AnyRun(w, steps)
    requires forall i :: 0 <= i < |steps| ==> FreshStep(steps[i])
    ensures OrderlyRun(w, steps)
    decreases |steps|
  {
    hide SafeWorld, Enabled, InScope, Do, StepDoesNotOverflow, NobodyRestoring, Fits, ReserveFits, FreshStep;
    if steps != [] {
      FreshIsOrderly(w, steps[0]);
      if steps[0].ReserveNext? { OthersMayReserve(w, steps[0].symbol); }
      StepKeepsSafe(w, steps[0]);
      FreshIsOrderlyRun(Do(w, steps[0]), steps[1..]);
    }
  }

  lemma OpenedIsSafe(cash: map<Account, int>, positions: PerSymbol)
    requires forall a :: a in cash ==> cash[a] >= 0
    requires forall a, s :: a in positions && s in positions[a] ==> positions[a][s] >= 0
    ensures SafeWorld(Opened(cash, positions))
  {
    OpenedIsSound(cash, positions);
    var st := Opened(cash, positions).accounts;
    forall x ensures 0 <= Reserved(st, x) <= Owned(st, x) {}
  }

  /** From non-negative balances and no recovered orders, whatever happens and in whatever order. */
  lemma AlwaysSolvent(cash: map<Account, int>, positions: PerSymbol, steps: seq<Step>)
    requires forall a :: a in cash ==> cash[a] >= 0
    requires forall a, s :: a in positions && s in positions[a] ==> positions[a][s] >= 0
    requires AnyRun(Opened(cash, positions), steps)
    requires forall i :: 0 <= i < |steps| ==> FreshStep(steps[i])
    ensures Runs(Opened(cash, positions), steps)
    ensures var end := After(Opened(cash, positions), steps).accounts;
      forall x :: 0 <= Reserved(end, x) <= Owned(end, x)
  {
    hide FreshStep;
    OpenedIsSafe(cash, positions);
    FreshIsOrderlyRun(Opened(cash, positions), steps);
    OrderlyStaysSolvent(Opened(cash, positions), steps);
  }

  /** And with recoveries, from any safe state, as long as each is covered and nobody reserves during it. */
  lemma OrderlyStaysSolvent(w: World, steps: seq<Step>)
    requires SafeWorld(w) && OrderlyRun(w, steps)
    ensures Runs(w, steps)
    ensures var end := After(w, steps).accounts; forall x :: 0 <= Reserved(end, x) <= Owned(end, x)
  {
    hide Inv, GoodDesk, Enabled, InScope, Do, StepDoesNotOverflow;
    OrderlyLeavesRoom(w, steps);
    RunsStaySafeIff(w, steps);
  }

  // --- Reserving around a restore ---------------------------------------------------------------

  /** A buy for all of account "a"'s cash. */
  function AllIn(s: Symbol): Order {
    Order(1, s, "a", Limit, 10, 1, Buy)
  }

  /** Symbol s comes back with the order it recovered. */
  function Reopen(s: Symbol): Step {
    Open(s, BookState([AllIn(s)], [], 0, 1), 1, [AllIn(s)])
  }

  /**
   * Symbol t accepts an order while symbol s, which recovered one, is not restored yet: either s
   * is opened first and its hold not filed in time, or, lazily, s is first used only afterwards.
   */
  function OvercommittingRun(s: Symbol, t: Symbol, lazily: bool): seq<Step> {
    var accept := [Begin(t, [SubmitRequest(AllIn(t))]), ReserveNext(t)];
    [Open(t, EmptyBook, 0, []), RestoreNext(t)]
    + (if lazily then accept + [Reopen(s)] else [Reopen(s)] + accept)
    + [RestoreNext(s)]
  }

  /** Account "a" owns ten and these symbols have each reserved ten of it. */
  function Ten(symbols: seq<Symbol>): State
    decreases |symbols|
  {
    if symbols == [] then State(map["a" := 10], map[], map[], map[], map[])
    else
      var st := Ten(symbols[1..]);
      st.(reservedCash := map["a" := 10 * |symbols|],
          holds := st.holds[HoldKey(symbols[0], 1) := Hold("a", symbols[0], Buy, 10, 1)])
  }

  function DeskOf(book: BookState, position: int, phase: Phase): Desk {
    Desk(book, book.maxOrderId, position, false, phase)
  }

  function Accepting(t: Symbol, accepted: bool): Desk {
    var work := Work(SubmitRequest(AllIn(t)), 0, 1, None);
    DeskOf(EmptyBook, 0, if accepted then Reserving([work], []) else Reserving([], [work]))
  }

  function Restored(s: Symbol, restored: bool): Desk {
    var phase := if restored then Restoring([AllIn(s)], []) else Restoring([], [AllIn(s)]);
    DeskOf(BookState([AllIn(s)], [], 0, 1), 1, phase)
  }

  /** The step is in scope and leads here. */
  ghost predicate Leads(w: World, step: Step, w': World) {
    Enabled(w, step) && InScope(w, step) && StepDoesNotOverflow(w, step) && Do(w, step) == w'
  }

  lemma LeadsOn(w: World, step: Step, w': World, rest: seq<Step>)
    requires Leads(w, step, w') && ScopedRun(w', rest) && Runs(w', rest)
    ensures ScopedRun(w, [step] + rest) && Runs(w, [step] + rest)
    ensures After(w, [step] + rest) == After(w', rest)
  {
    hide Enabled, InScope, StepDoesNotOverflow, Do;
    assert ([step] + rest)[1..] == rest;
  }

  lemma StopsHere(w: World)
    ensures ScopedRun(w, []) && Runs(w, []) && After(w, []) == w
  {
  }

  lemma RecoverLeads(w: World, s: Symbol)
    requires s !in w.desks && NobodyRestoring(w)
    ensures Leads(w, Reopen(s), w.(desks := w.desks[s := Restored(s, false)]))
  {
    assert [AllIn(s)][0] == AllIn(s);
  }

  lemma StartLeads(t: Symbol)
    ensures Leads(World(Ten([]), map[]), Open(t, EmptyBook, 0, []),
                  World(Ten([]), map[t := DeskOf(EmptyBook, 0, Restoring([], []))]))
    ensures Leads(World(Ten([]), map[t := DeskOf(EmptyBook, 0, Restoring([], []))]), RestoreNext(t),
                  World(Ten([]), map[t := DeskOf(EmptyBook, 0, Idle)]))
  {
  }

  lemma BeginLeads(w: World, t: Symbol)
    requires t in w.desks && w.desks[t] == DeskOf(EmptyBook, 0, Idle)
    ensures Leads(w, Begin(t, [SubmitRequest(AllIn(t))]), w.(desks := w.desks[t := Accepting(t, false)]))
  {
    var batch := [SubmitRequest(AllIn(t))];
    var work := Work(SubmitRequest(AllIn(t)), 0, 1, None);
    assert batch[1..] == [];
    assert AssignAll(t, batch, 0) == ([work] + [], 0) && [work] + [] == [work];
    assert Do(w, Begin(t, batch)).desks[t] == Accepting(t, false);
  }

  lemma ReserveLeads(w: World, t: Symbol)
    requires t in w.desks && w.desks[t] == Accepting(t, false) && w.accounts == Ten([])
    ensures Leads(w, ReserveNext(t), World(Ten([t]), w.desks[t := Accepting(t, true)]))
  {
    var work := Work(SubmitRequest(AllIn(t)), 0, 1, None);
    assert [t][1..] == [] && [] + [work] == [work] && [work][1..] == [];
    assert Reserve(Ten([]), AllIn(t)).0 == Ten([t]);
  }

  lemma RestoreLeads(w: World, s: Symbol, t: Symbol)
    requires s != t && s in w.desks && w.desks[s] == Restored(s, false) && w.accounts == Ten([t])
    ensures Leads(w, RestoreNext(s), World(Ten([s, t]), w.desks[s := Restored(s, true)]))
  {
    assert [s, t][1..] == [t] && [t][1..] == [];
    assert [AllIn(s)][1..] == [] && [] + [AllIn(s)] == [AllIn(s)];
    assert RestoreHold(Ten([t]), s, AllIn(s)) == Ten([s, t]);
  }

  lemma BusyOrRestoring(s: Symbol, t: Symbol)
    ensures Unrestored(DeskOf(EmptyBook, 0, Idle)) == []
    ensures forall accepted :: Unrestored(Accepting(t, accepted)) == []
  {
  }

  /** Lazily: t's order is accepted, then s is opened. */
  lemma AcceptedThenOpened(w: World, s: Symbol, t: Symbol, rest: seq<Step>, w': World)
    requires s != t && w.accounts == Ten([]) && w.desks == map[t := DeskOf(EmptyBook, 0, Idle)]
    requires w' == World(Ten([t]), map[t := Accepting(t, true), s := Restored(s, false)])
    requires ScopedRun(w', rest) && Runs(w', rest)
    ensures var steps := [Begin(t, [SubmitRequest(AllIn(t))])] + ([ReserveNext(t)] + ([Reopen(s)] + rest));
      ScopedRun(w, steps) && Runs(w, steps) && After(w, steps) == After(w', rest)
  {
    hide Leads, ScopedRun, Runs, After, AllIn, Reopen, Ten, DeskOf, Accepting, Restored, Unrestored;
    BusyOrRestoring(s, t);
    var a := w.(desks := w.desks[t := Accepting(t, false)]);
    var b := World(Ten([t]), a.desks[t := Accepting(t, true)]);
    BeginLeads(w, t);
    ReserveLeads(a, t);
    RecoverLeads(b, s);
    assert w'.desks == b.desks[s := Restored(s, false)];
    LeadsOn(b, Reopen(s), w', rest);
    LeadsOn(a, ReserveNext(t), b, [Reopen(s)] + rest);
    LeadsOn(w, Begin(t, [SubmitRequest(AllIn(t))]), a, [ReserveNext(t)] + ([Reopen(s)] + rest));
  }

  /** Or s is opened, and t's order is accepted before s is restored. */
  lemma OpenedThenAccepted(w: World, s: Symbol, t: Symbol, rest: seq<Step>, w': World)
    requires s != t && w.accounts == Ten([]) && w.desks == map[t := DeskOf(EmptyBook, 0, Idle)]
    requires w' == World(Ten([t]), map[t := Accepting(t, true), s := Restored(s, false)])
    requires ScopedRun(w', rest) && Runs(w', rest)
    ensures var steps := [Reopen(s)] + ([Begin(t, [SubmitRequest(AllIn(t))])] + ([ReserveNext(t)] + rest));
      ScopedRun(w, steps) && Runs(w, steps) && After(w, steps) == After(w', rest)
  {
    hide Leads, ScopedRun, Runs, After, AllIn, Reopen, Ten, DeskOf, Accepting, Restored, Unrestored;
    BusyOrRestoring(s, t);
    var a := w.(desks := w.desks[s := Restored(s, false)]);
    var b := a.(desks := a.desks[t := Accepting(t, false)]);
    RecoverLeads(w, s);
    BeginLeads(a, t);
    ReserveLeads(b, t);
    assert w'.desks == b.desks[t := Accepting(t, true)];
    LeadsOn(b, ReserveNext(t), w', rest);
    LeadsOn(a, Begin(t, [SubmitRequest(AllIn(t))]), b, [ReserveNext(t)] + rest);
    LeadsOn(w, Reopen(s), a, [Begin(t, [SubmitRequest(AllIn(t))])] + ([ReserveNext(t)] + rest));
  }

  /**
   * Restoring checks nothing, so cash that covered the recovered order is promised to another
   * symbol's order first: ten owned, twenty reserved.
   */
  lemma ReservingAroundRestoreOvercommits(s: Symbol, t: Symbol, lazily: bool)
    requires s != t
    ensures var w, steps := Opened(map["a" := 10], map[]), OvercommittingRun(s, t, lazily);
      && Fits(w.accounts, [], [AllIn(s)])
      && ScopedRun(w, steps) && Runs(w, steps)
      && var end := After(w, steps).accounts; Reserved(end, Cash("a")) == 20 > Owned(end, Cash("a"))
  {
    hide Leads, ScopedRun, Runs, After, Accepting, Restored, DeskOf;
    assert [AllIn(s)][1..] == [] && [s, t][1..] == [t];
    var start, first := World(Ten([]), map[]), World(Ten([]), map[t := DeskOf(EmptyBook, 0, Restoring([], []))]);
    var opening, restore := Open(t, EmptyBook, 0, []), RestoreNext(t);
    var accepted := World(Ten([t]), map[t := Accepting(t, true), s := Restored(s, false)]);
    var end := World(Ten([s, t]), accepted.desks[s := Restored(s, true)]);
    StopsHere(end);
    RestoreLeads(accepted, s, t);
    LeadsOn(accepted, RestoreNext(s), end, []);
    StartLeads(t);
    var begin, reserve := Begin(t, [SubmitRequest(AllIn(t))]), ReserveNext(t);
    var rest := if lazily then [begin] + ([reserve] + ([Reopen(s)] + ([RestoreNext(s)] + [])))
      else [Reopen(s)] + ([begin] + ([reserve] + ([RestoreNext(s)] + [])));
    var idle := World(Ten([]), map[t := DeskOf(EmptyBook, 0, Idle)]);
    if lazily { AcceptedThenOpened(idle, s, t, [RestoreNext(s)] + [], accepted); }
    else { OpenedThenAccepted(idle, s, t, [RestoreNext(s)] + [], accepted); }
    LeadsOn(first, restore, idle, rest);
    LeadsOn(start, opening, first, [restore] + rest);
    assert OvercommittingRun(s, t, lazily) == [opening] + ([restore] + rest);
  }
}
