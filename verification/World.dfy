/**
 * Every symbol's sequencer at once, over one shared account store. Each step is
 * one critical section of the program: restoring one hold, reserving for one
 * request, logging a batch, processing one request. Steps of different symbols
 * interleave in any order, and each symbol's own steps come in its own order.
 */
module World {
  import opened Types
  import opened Matching
  import opened AccountState
  import opened Holds
  import opened Settling
  import opened LiveHolds
  import opened Commit

  /** Where one symbol's sequencer stands. */
  datatype Phase =
    | Restoring(restored: seq<Order>, unrestored: seq<Order>)
    | Idle
    | Reserving(reserved: seq<Work>, unreserved: seq<Work>)
    | Processing(unprocessed: seq<Work>)

  datatype Desk = Desk(book: BookState, nextOrderId: SeqID, position: int, failed: bool, phase: Phase)

  datatype World = World(accounts: State, desks: map<Symbol, Desk>)

  datatype Step =
    | Open(symbol: Symbol, book: BookState, position: int, orders: seq<Order>)
    | RestoreNext(symbol: Symbol)
    | Fund(account: Account, amount: int)
    | Begin(symbol: Symbol, batch: seq<Request>)
    | ReserveNext(symbol: Symbol)
    | Log(symbol: Symbol, ts: int, ok: bool)
    | ProcessNext(symbol: Symbol)

  ghost predicate Enabled(w: World, step: Step) {
    match step
    case Open(s, book, _, orders) => s !in w.desks && Recovered(s, book) && Lists(book, orders)
    case RestoreNext(s) => s in w.desks && w.desks[s].phase.Restoring?
    case Fund(_, amount) => amount >= 0
    case Begin(s, batch) => s in w.desks && w.desks[s].phase.Idle?
    case ReserveNext(s) => s in w.desks && w.desks[s].phase.Reserving? && w.desks[s].phase.unreserved != []
    case Log(s, _, _) => s in w.desks && w.desks[s].phase.Reserving? && w.desks[s].phase.unreserved == []
    case ProcessNext(s) => s in w.desks && w.desks[s].phase.Processing?
  }

  function AfterRestore(d: Desk): Desk
    requires d.phase.Restoring?
  {
    var p := d.phase;
    if p.unrestored == [] then d.(phase := Idle)
    else d.(phase := Restoring(p.restored + [p.unrestored[0]], p.unrestored[1..]))
  }

  /** A failed log is failed for good; while it is, nothing is logged and no position is used. */
  function AfterLog(d: Desk, ts: int, ok: bool): Desk
    requires d.phase.Reserving?
  {
    var works := d.phase.reserved;
    if d.failed || !ok then d.(failed := true, phase := Processing(works))
    else
      var records := Records(works, d.position, ts);
      d.(position := d.position + |records|, phase := Processing(Numbered(works, d.position)))
  }

  function Do(w: World, step: Step): World
    requires Enabled(w, step)
  {
    match step
    case Open(s, book, position, orders) =>
      w.(desks := w.desks[s := Desk(book, book.maxOrderId, position, false, Restoring([], orders))])
    case RestoreNext(s) =>
      var d := w.desks[s];
      var todo := d.phase.unrestored;
      var accounts := if todo == [] then w.accounts else RestoreHold(w.accounts, s, todo[0]);
      World(accounts, w.desks[s := AfterRestore(d)])
    case Fund(account, amount) => w.(accounts := Deposit(w.accounts, account, amount))
    case Begin(s, batch) =>
      var (works, next) := AssignAll(s, batch, w.desks[s].nextOrderId);
      w.(desks := w.desks[s := w.desks[s].(nextOrderId := next, phase := Reserving([], works))])
    case ReserveNext(s) =>
      var p := w.desks[s].phase;
      var (accounts, work) := ReserveWork(w.accounts, p.unreserved[0]);
      World(accounts, w.desks[s := w.desks[s].(phase := Reserving(p.reserved + [work], p.unreserved[1..]))])
    case Log(s, ts, ok) => w.(desks := w.desks[s := AfterLog(w.desks[s], ts, ok)])
    case ProcessNext(s) =>
      var d := w.desks[s];
      var todo := d.phase.unprocessed;
      if todo == [] then w.(desks := w.desks[s := d.(phase := Idle)])
      else
        var (v, _) := ProcessWork(Venue(d.book, w.accounts), s, todo[0], d.failed, d.position);
        World(v.accounts, w.desks[s := d.(book := v.book, phase := Processing(todo[1..]))])
  }

  // --- The invariant of every run ---------------------------------------------------------------

  /** The orders of the book whose holds stand; while holds are being restored, none yet by virtue of resting. */
  function Standing(d: Desk): BookState {
    if d.phase.Restoring? then EmptyBook else d.book
  }

  /** The other live orders: restored so far, or accepted and not yet processed. */
  function Pending(d: Desk): seq<Order> {
    match d.phase
    case Restoring(restored, _) => restored
    case Idle => []
    case Reserving(reserved, _) => Accepted(reserved)
    case Processing(unprocessed) => Accepted(unprocessed)
  }

  ghost predicate PhaseOk(s: Symbol, d: Desk) {
    match d.phase
    case Restoring(restored, unrestored) => Recovered(s, d.book) && Lists(d.book, restored + unrestored)
    case Idle => true
    case Reserving(reserved, unreserved) =>
      && Assigned(s, reserved) && Assigned(s, unreserved)
      && (forall i :: 0 <= i < |unreserved| ==> unreserved[i].preErr.None?)
    case Processing(unprocessed) => Assigned(s, unprocessed)
  }

  ghost predicate DeskOk(holds: HoldMap, s: Symbol, d: Desk) {
    Exact(holds, s, Standing(d), Pending(d)) && PhaseOk(s, d)
  }

  /** Reserved totals are the sums over holds, and every symbol's holds are exactly its live orders. */
  ghost predicate Inv(w: World) {
    && Sound(w.accounts)
    && (forall k :: k in w.accounts.holds ==> k.symbol in w.desks)
    && (forall s :: s in w.desks ==> DeskOk(w.accounts.holds, s, w.desks[s]))
  }

  /** Only processing can overflow, and only by a trade whose value is not representable. */
  ghost predicate StepDoesNotOverflow(w: World, step: Step)
    requires Enabled(w, step)
  {
    step.ProcessNext? && w.desks[step.symbol].phase.unprocessed != [] ==>
      var d := w.desks[step.symbol];
      NoOverflow(Venue(d.book, w.accounts), step.symbol, d.phase.unprocessed[0], d.failed, d.position)
  }

  /** One symbol's step that keeps its own desk in order keeps all of them in order. */
  lemma OneDeskMoved(w: World, w': World, s: Symbol)
    requires Inv(w) && s in w'.desks && w'.desks == w.desks[s := w'.desks[s]]
    requires Sound(w'.accounts) && OthersUntouched(w.accounts.holds, w'.accounts.holds, s)
    requires DeskOk(w'.accounts.holds, s, w'.desks[s])
    ensures Inv(w')
  {
    hide Sound, Exact, PhaseOk;
    forall t | t in w'.desks ensures DeskOk(w'.accounts.holds, t, w'.desks[t]) {
      if t != s {
        assert DeskOk(w.accounts.holds, t, w.desks[t]);
        OtherSymbolsStayExact(w.accounts.holds, w'.accounts.holds, s, t, Standing(w.desks[t]), Pending(w.desks[t]));
      }
    }
    forall k | k in w'.accounts.holds ensures k.symbol in w'.desks {
      assert k.symbol != s ==> Untouched(w.accounts.holds, w'.accounts.holds, k);
    }
  }

  lemma NothingUntouched(holds: HoldMap, s: Symbol)
    ensures OthersUntouched(holds, holds, s)
  {
  }

  // --- Restoring ------------------------------------------------------------------------------------

  lemma OpenedIsExact(holds: HoldMap, s: Symbol)
    requires forall k :: k in holds ==> k.symbol != s
    ensures Exact(holds, s, EmptyBook, [])
  {
  }

  lemma RestoreStaysExact(st: State, s: Symbol, restored: seq<Order>, o: Order)
    requires Sound(st) && Exact(st.holds, s, EmptyBook, restored)
    requires o.symbol == s && o.kind == Limit && HoldOk(HoldFor(o)) && o.id !in Ids(restored)
    ensures var st' := RestoreHold(st, s, o);
      && Sound(st') && Exact(st'.holds, s, EmptyBook, restored + [o])
      && OthersUntouched(st.holds, st'.holds, s)
  {
    hide Sound, RestoreHold, HoldOk;
    RestoreEffect(st, s, o);
    assert Key(o) !in st.holds;
    IdsSplit(o, restored);
    FreshOnSide(restored, o.id);
    HoldIsPositive(o);
    var holds' := st.holds[Key(o) := HoldFor(o)];
    forall x | x in restored ensures HeldBy(holds', x) {
      assert HeldBy(st.holds, x);
    }
  }

  lemma HoldIsPositive(o: Order)
    requires HoldOk(HoldFor(o))
    ensures o.quantity > 0
  {
  }

  /** Once every resting order's hold is restored, holds are exactly the recovered book. */
  lemma RestoredIsExact(holds: HoldMap, s: Symbol, book: BookState, orders: seq<Order>)
    requires Exact(holds, s, EmptyBook, orders) && Recovered(s, book) && Lists(book, orders)
    ensures Exact(holds, s, book, [])
  {
    forall id | id in Ids(orders) ensures id in RestingIds(book) {
      var o :| o in orders && o.id == id;
    }
  }

  lemma RestoreNextKeeps(w: World, s: Symbol)
    requires Inv(w) && Enabled(w, RestoreNext(s))
    ensures Inv(Do(w, RestoreNext(s)))
  {
    hide Sound, Exact, Recovered, RestoreHold;
    var d := w.desks[s];
    var p := d.phase;
    var w' := Do(w, RestoreNext(s));
    assert DeskOk(w.accounts.holds, s, d);
    if p.unrestored == [] {
      assert p.restored + p.unrestored == p.restored;
      RestoredIsExact(w.accounts.holds, s, d.book, p.restored);
      NothingUntouched(w.accounts.holds, s);
    } else {
      var o := p.unrestored[0];
      NextListed(s, d.book, p.restored, p.unrestored);
      RestoreStaysExact(w.accounts, s, p.restored, o);
      assert p.restored + p.unrestored == (p.restored + [o]) + p.unrestored[1..];
    }
    OneDeskMoved(w, w', s);
  }

  lemma NextListed(s: Symbol, book: BookState, restored: seq<Order>, unrestored: seq<Order>)
    requires Recovered(s, book) && Lists(book, restored + unrestored) && unrestored != []
    ensures var o := unrestored[0];
      o.symbol == s && o.kind == Limit && HoldOk(HoldFor(o)) && o.id !in Ids(restored)
  {
    var all := restored + unrestored;
    var o := unrestored[0];
    assert all[|restored|] == o && o in all;
    forall x | x in restored ensures x.id != o.id {
      var i :| 0 <= i < |restored| && restored[i] == x;
      assert all[i] == x;
    }
  }

  // --- Reserving, logging, processing ------------------------------------------------------------------

  lemma ReserveNextKeeps(w: World, s: Symbol)
    requires Inv(w) && Enabled(w, ReserveNext(s))
    ensures Inv(Do(w, ReserveNext(s)))
  {
    hide Sound, Exact, ReserveWork, Accepted;
    var p := w.desks[s].phase;
    var first := p.unreserved[0];
    assert DeskOk(w.accounts.holds, s, w.desks[s]);
    ReserveWorkStaysExact(w.accounts, s, w.desks[s].book, p.reserved, first);
    var (accounts, work) := ReserveWork(w.accounts, first);
    var reserved' := p.reserved + [work];
    assert [work][0] == work;
    assert forall i :: 0 <= i < |reserved'| ==> reserved'[i] == if i < |p.reserved| then p.reserved[i] else work;
    assert Assigned(s, reserved');
    OneDeskMoved(w, Do(w, ReserveNext(s)), s);
  }

  lemma {:induction false} NumberingIsHarmless(s: Symbol, works: seq<Work>, seqNo: int)
    requires Assigned(s, works)
    ensures var ws := Numbered(works, seqNo); Accepted(ws) == Accepted(works) && Assigned(s, ws) && |ws| == |works|
  {
    if works != [] {
      assert works == [works[0]] + works[1..];
      NumberingIsHarmless(s, works[1..], if IsLogged(works[0]) then seqNo + 1 else seqNo);
    }
  }

  lemma LogKeeps(w: World, s: Symbol, ts: int, ok: bool)
    requires Inv(w) && Enabled(w, Log(s, ts, ok))
    ensures Inv(Do(w, Log(s, ts, ok)))
  {
    hide Sound, Exact, Records, Numbered, Accepted;
    var d := w.desks[s];
    assert DeskOk(w.accounts.holds, s, d);
    NumberingIsHarmless(s, d.phase.reserved, d.position);
    NothingUntouched(w.accounts.holds, s);
    OneDeskMoved(w, Do(w, Log(s, ts, ok)), s);
  }

  lemma ProcessNextKeeps(w: World, s: Symbol)
    requires Inv(w) && Enabled(w, ProcessNext(s)) && StepDoesNotOverflow(w, ProcessNext(s))
    ensures Inv(Do(w, ProcessNext(s)))
  {
    hide Sound, Exact, ProcessWork, Accepted, NoOverflow;
    var d := w.desks[s];
    var todo := d.phase.unprocessed;
    assert DeskOk(w.accounts.holds, s, d);
    if todo == [] {
      assert Accepted([]) == [] by { NoneAccepted(); }
      NothingUntouched(w.accounts.holds, s);
    } else {
      assert todo == [todo[0]] + todo[1..];
      assert [todo[0]][0] == todo[0];
      ProcessWorkStaysExact(Venue(d.book, w.accounts), s, todo[0], todo[1..], d.failed, d.position);
    }
    OneDeskMoved(w, Do(w, ProcessNext(s)), s);
  }

  lemma NoneAccepted()
    ensures Accepted([]) == []
  {
  }

  lemma DepositEffect(st: State, a: Account, amount: int)
    requires Sound(st)
    ensures var st' := Deposit(st, a, amount);
      && Sound(st') && st'.holds == st.holds
      && (forall x :: Reserved(st', x) == Reserved(st, x))
      && (forall x :: Owned(st', x) == Owned(st, x) + if x == Cash(a) then amount else 0)
  {
    assert forall x :: Reserved(Deposit(st, a, amount), x) == Reserved(st, x);
  }

  /** Every step of every symbol keeps every symbol's holds exactly its live orders, unless a trade value overflows. */
  lemma StepKeepsInv(w: World, step: Step)
    requires Inv(w) && Enabled(w, step) && StepDoesNotOverflow(w, step)
    ensures Inv(Do(w, step))
  {
    hide Sound, Exact;
    match step
    case Open(s, book, position, orders) =>
      OpenedIsExact(w.accounts.holds, s);
      assert [] + orders == orders;
      NothingUntouched(w.accounts.holds, s);
      OneDeskMoved(w, Do(w, step), s);
    case RestoreNext(s) => RestoreNextKeeps(w, s);
    case Fund(a, amount) => DepositEffect(w.accounts, a, amount);
    case Begin(s, batch) =>
      AssignAllAssigns(s, batch, w.desks[s].nextOrderId);
      assert DeskOk(w.accounts.holds, s, w.desks[s]);
      NothingUntouched(w.accounts.holds, s);
      OneDeskMoved(w, Do(w, step), s);
    case ReserveNext(s) => ReserveNextKeeps(w, s);
    case Log(s, ts, ok) => LogKeeps(w, s, ts, ok);
    case ProcessNext(s) => ProcessNextKeeps(w, s);
  }

  /** Any run: every step enabled when it is taken. */
  ghost predicate AnyRun(w: World, steps: seq<Step>)
    decreases |steps|
  {
    steps == [] || (Enabled(w, steps[0]) && AnyRun(Do(w, steps[0]), steps[1..]))
  }

  function End(w: World, steps: seq<Step>): World
    requires AnyRun(w, steps)
    decreases |steps|
  {
    if steps == [] then w else End(Do(w, steps[0]), steps[1..])
  }

  /** A run: every step enabled when it is taken, none overflowing. */
  ghost predicate Runs(w: World, steps: seq<Step>)
    decreases |steps|
  {
    steps == []
    || (Enabled(w, steps[0]) && StepDoesNotOverflow(w, steps[0]) && Runs(Do(w, steps[0]), steps[1..]))
  }

  function After(w: World, steps: seq<Step>): World
    requires Runs(w, steps)
    decreases |steps|
  {
    if steps == [] then w else After(Do(w, steps[0]), steps[1..])
  }

  function Opened(cash: map<Account, int>, positions: PerSymbol): World {
    World(State(cash, positions, map[], map[], map[]), map[])
  }

  /** From any balances and no orders, every run of every interleaving keeps holds exact. */
  lemma {:induction false} RunsKeepInv(w: World, steps: seq<Step>)
    requires Inv(w) && Runs(w, steps)
    ensures Inv(After(w, steps))
    decreases |steps|
  {
    hide Inv, Enabled, StepDoesNotOverflow, Do;
    if steps != [] {
      StepKeepsInv(w, steps[0]);
      RunsKeepInv(Do(w, steps[0]), steps[1..]);
    }
  }

  lemma OpenedIsSound(cash: map<Account, int>, positions: PerSymbol)
    ensures Inv(Opened(cash, positions))
  {
    var st := Opened(cash, positions).accounts;
    forall x ensures Reserved(st, x) == TotalDemand(st.holds, x) {}
  }

  /** Between batches the holds are the resting orders, one for one: none leaked, none missing. */
  lemma BetweenBatches(w: World)
    requires Inv(w) && forall s :: s in w.desks ==> w.desks[s].phase.Idle?
    ensures forall k: HoldKey ::
      k in w.accounts.holds <==> k.symbol in w.desks && k.orderId in RestingIds(w.desks[k.symbol].book)
  {
    hide Sound, WellFormed, HoldFor;
    forall k: HoldKey
      ensures k in w.accounts.holds <==> k.symbol in w.desks && k.orderId in RestingIds(w.desks[k.symbol].book)
    {
      if k.symbol in w.desks {
        var d := w.desks[k.symbol];
        assert DeskOk(w.accounts.holds, k.symbol, d);
        if k.orderId in RestingIds(d.book) {
          var o :| (o in d.book.bids || o in d.book.asks) && o.id == k.orderId;
          assert HeldBy(w.accounts.holds, o) && Key(o) == k;
        }
      }
    }
  }

  /**
   * Restoring holds from the books reproduces the live process's holds and reservations:
   * two idle worlds with the same books hold and reserve the same, however each got there.
   */
  lemma BooksDetermineHolds(a: World, b: World)
    requires Inv(a) && Inv(b) && a.desks.Keys == b.desks.Keys
    requires forall s :: s in a.desks ==> a.desks[s].phase.Idle? && b.desks[s].phase.Idle?
    requires forall s :: s in a.desks ==> SameSides(a.desks[s].book, b.desks[s].book)
    ensures a.accounts.holds == b.accounts.holds
    ensures forall x :: Reserved(a.accounts, x) == Reserved(b.accounts, x)
  {
    hide Sound, Exact, SameSides;
    forall k | k in a.accounts.holds || k in b.accounts.holds
      ensures k in a.accounts.holds && k in b.accounts.holds && a.accounts.holds[k] == b.accounts.holds[k]
    {
      assert SameSides(a.desks[k.symbol].book, b.desks[k.symbol].book);
      assert DeskOk(a.accounts.holds, k.symbol, a.desks[k.symbol])
          && DeskOk(b.accounts.holds, k.symbol, b.desks[k.symbol]);
      SameBookSameHold(a.accounts.holds, b.accounts.holds, a.desks[k.symbol].book, b.desks[k.symbol].book, k);
    }
    assert a.accounts.holds.Keys == b.accounts.holds.Keys;
    SameHoldsSameReservations(a.accounts, b.accounts);
  }

  lemma SameBookSameHold(a: HoldMap, b: HoldMap, d: BookState, e: BookState, k: HoldKey)
    requires Exact(a, k.symbol, d, []) && Exact(b, k.symbol, e, []) && SameSides(d, e)
    requires k in a || k in b
    ensures k in a && k in b && a[k] == b[k]
  {
    hide WellFormed, HoldFor;
    var o :| (o in d.bids || o in d.asks) && o.id == k.orderId;
    assert HeldBy(a, o) && HeldBy(b, o) && Key(o) == k;
  }

  predicate SameSides(a: BookState, b: BookState) {
    a.bids == b.bids && a.asks == b.asks
  }

  lemma SameHoldsSameReservations(a: State, b: State)
    requires Sound(a) && Sound(b) && a.holds == b.holds
    ensures forall x :: Reserved(a, x) == Reserved(b, x)
  {
  }
}
