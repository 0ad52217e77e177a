/**
 * The steps of a symbol's life are the sequencer's program. Taken without interruption
 * they are one commit, and to every other symbol each of them is activity elsewhere.
 */
module SharedAccounts {
  import opened Types
  import opened Matching
  import opened AccountState
  import opened Guards
  import opened Holds
  import opened Settling
  import opened LiveHolds
  import opened LiveIds
  import opened Commit
  import opened Framing
  import opened Wal
  import opened GroupCommit
  import opened Durability

  function Repeat(event: Event, n: nat): seq<Event> {
    if n == 0 then [] else [event] + Repeat(event, n - 1)
  }

  // --- One commit ---------------------------------------------------------------------------------------

  lemma {:induction false} ReserveRun(c: Codec, symbol: Symbol, h: History)
    requires h.machine.Up? && h.machine.phase.Reserving?
    ensures var m := h.machine; var events := Repeat(ReserveNext, |m.phase.unreserved|);
      var (st, ws) := ReserveAll(m.accounts, m.phase.unreserved);
      && CanLive(c, symbol, h, events)
      && Lived(c, symbol, h, events)
         == h.(machine := Up(m.engine, st, Reserving(m.phase.reserved + ws, [])))
    decreases |h.machine.phase.unreserved|
  {
    hide ReserveWork;
    var m := h.machine;
    var done, todo := m.phase.reserved, m.phase.unreserved;
    if todo == [] {
      assert done + [] == done;
    } else {
      var h1 := Next(c, symbol, h, ReserveNext);
      var (st1, w) := ReserveWork(m.accounts, todo[0]);
      ReserveRun(c, symbol, h1);
      var ws := ReserveAll(st1, todo[1..]).1;
      assert done + [w] + ws == done + ([w] + ws);
      assert Repeat(ReserveNext, |todo|)[1..] == Repeat(ReserveNext, |todo[1..]|);
    }
  }

  lemma {:induction false} ReplyRun(c: Codec, symbol: Symbol, h: History)
    requires h.machine.Up? && h.machine.phase.Replying?
    ensures var m := h.machine; var events := Repeat(ReplyNext, |m.phase.unreplied| + 1); var e := m.engine;
      var (v, rs) := ProcessAll(Venue(e.book, m.accounts), symbol, m.phase.unreplied, e.failed, e.seqNo);
      && CanLive(c, symbol, h, events)
      && Lived(c, symbol, h, events)
         == h.(machine := Up(e.(book := v.book), v.accounts, Idle), replies := h.replies + rs)
    decreases |h.machine.phase.unreplied|
  {
    hide ProcessWork;
    var m := h.machine;
    var todo := m.phase.unreplied;
    var h1 := Next(c, symbol, h, ReplyNext);
    assert Repeat(ReplyNext, |todo| + 1)[1..] == Repeat(ReplyNext, |todo|);
    if todo == [] {
      assert h.replies + [] == h.replies;
      assert Lived(c, symbol, h1, []) == h1;
    } else {
      var (v, r) := ProcessWork(Venue(m.engine.book, m.accounts), symbol, todo[0], m.engine.failed, m.engine.seqNo);
      ReplyRun(c, symbol, h1);
      var rs := ProcessAll(v, symbol, todo[1..], m.engine.failed, m.engine.seqNo).1;
      assert h.replies + [r] + rs == h.replies + ([r] + rs);
    }
  }

  /** The events of one batch, one after another. */
  function BatchEvents(batch: seq<Request>, ts: int, faults: seq<Fault>, syncOk: bool): seq<Event> {
    [Begin(batch)] + (Repeat(ReserveNext, |batch|)
      + ([Event.LogBatch(ts, faults, syncOk)] + Repeat(ReplyNext, |batch| + 1)))
  }

  /**
   * With no other symbol in between, the events of a batch do to the engine and the accounts
   * what one commit of it does, byte for byte in the log, and send the same replies.
   */
  lemma UninterruptedLifeIsCommit(c: Codec, symbol: Symbol, h: History, batch: seq<Request>, ts: int,
                                  faults: seq<Fault>, syncOk: bool)
    requires h.machine.Up? && h.machine.phase.Idle?
    requires RoomFor(h.machine.engine.seqNo, |batch|) && IsInt64(ts) && |faults| == |batch|
    ensures var Up(e, st, _) := h.machine; var events := BatchEvents(batch, ts, faults, syncOk);
      var (e', st', replies) := CommitBatch(c, symbol, e, st, batch, ts, faults, syncOk);
      && CanLive(c, symbol, h, events)
      && var h' := Lived(c, symbol, h, events);
      && h'.machine == Up(e', st', Idle) && h'.replies == h.replies + replies
      && h'.log == (if e'.failed then h.log
                    else h.log + Records(Prepared(symbol, e, st, batch).1, e.seqNo, ts))
  {
    hide ReserveAll, ProcessAll, AssignAll, LogWorks, Numbered, Records, CanLive, Lived, SameWorks;
    var Up(e, st, _) := h.machine;
    AssignAllKeepsLength(symbol, batch, e.nextOrderId);
    var (works0, next) := AssignAll(symbol, batch, e.nextOrderId);
    var (st1, works) := Prepared(symbol, e, st, batch);
    var h1 := Next(c, symbol, h, Begin(batch));
    OneEvent(c, symbol, h, Begin(batch));
    ReserveRun(c, symbol, h1);
    var h2 := Lived(c, symbol, h1, Repeat(ReserveNext, |batch|));
    assert [] + works == works;
    var log := Event.LogBatch(ts, faults, syncOk);
    LoggingIgnoresCounter(c, e, next, works, ts, faults, syncOk);
    LoggingIsHarmless(c, e, works, ts, faults, syncOk);
    LoggedKeeps(c, e, works, ts, faults, syncOk);
    var h3 := Next(c, symbol, h2, log);
    OneEvent(c, symbol, h2, log);
    ReplyRun(c, symbol, h3);
    SameLength(works, h3.machine.phase.unreplied);
    LifeJoin(c, symbol, h2, [log], Repeat(ReplyNext, |batch| + 1));
    LifeJoin(c, symbol, h1, Repeat(ReserveNext, |batch|), [log] + Repeat(ReplyNext, |batch| + 1));
    LifeJoin(c, symbol, h, [Begin(batch)], Repeat(ReserveNext, |batch|) + ([log] + Repeat(ReplyNext, |batch| + 1)));
  }

  lemma LoggingIgnoresCounter(c: Codec, e: Engine, next: SeqID, works: seq<Work>, ts: int, faults: seq<Fault>,
                              syncOk: bool)
    requires RoomFor(e.seqNo, |works|) && IsInt64(ts) && |faults| == |works|
    ensures var (e', ws) := Logged(c, e, works, ts, faults, syncOk);
      Logged(c, e.(nextOrderId := next), works, ts, faults, syncOk) == (e'.(nextOrderId := next), ws)
  {
    hide LogWorks;
  }

  // --- What other symbols see ------------------------------------------------------------------------------

  lemma ReserveTouchesOwn(st: State, symbol: Symbol, w: Work)
    requires Assigned(symbol, [w])
    ensures OthersUntouched(st.holds, ReserveWork(st, w).0.holds, symbol)
  {
    hide AddShares, Notional;
    assert [w][0] == w;
  }

  lemma ShrinkTouchesOwn(st: State, symbol: Symbol, id: SeqID, q: int)
    ensures OthersUntouched(st.holds, ShrinkTraded(st, HoldKey(symbol, id), q).holds, symbol)
  {
    hide ShrinkTraded;
    ShrinkTradedHolds(st, HoldKey(symbol, id), q);
  }

  lemma UntouchedJoin(a: HoldMap, b: HoldMap, d: HoldMap, symbol: Symbol)
    requires OthersUntouched(a, b, symbol) && OthersUntouched(b, d, symbol)
    ensures OthersUntouched(a, d, symbol)
  {
    forall k: HoldKey | k.symbol != symbol ensures Untouched(a, d, k) {
      assert Untouched(a, b, k) && Untouched(b, d, k);
    }
  }

  lemma TradeTouchesOwn(st: State, symbol: Symbol, t: Trade)
    ensures OthersUntouched(st.holds, ApplyTrade(st, symbol, t).holds, symbol)
  {
    hide ShrinkTraded, Notional, MoveValue, OthersUntouched;
    match Notional(t.price, t.quantity)
    case None => SameIsUntouched(st.holds, symbol);
    case Some(value) =>
      var moved := MoveValue(st, t, value);
      MoveKeepsHolds(st, t, value);
      var st1 := ShrinkTraded(moved, HoldKey(symbol, t.makerId), t.quantity);
      ShrinkTouchesOwn(moved, symbol, t.makerId, t.quantity);
      ShrinkTouchesOwn(st1, symbol, t.takerId, t.quantity);
      UntouchedJoin(st.holds, st1.holds, ApplyTrade(st, symbol, t).holds, symbol);
  }

  lemma SameIsUntouched(holds: HoldMap, symbol: Symbol)
    ensures OthersUntouched(holds, holds, symbol)
  {
  }

  lemma {:induction false} TradesTouchOwn(st: State, symbol: Symbol, trades: seq<Trade>)
    ensures OthersUntouched(st.holds, ApplyTrades(st, symbol, trades).holds, symbol)
    decreases |trades|
  {
    hide ApplyTrade, OthersUntouched;
    SameIsUntouched(st.holds, symbol);
    if trades != [] {
      var st1 := ApplyTrade(st, symbol, trades[0]);
      TradeTouchesOwn(st, symbol, trades[0]);
      TradesTouchOwn(st1, symbol, trades[1..]);
      UntouchedJoin(st.holds, st1.holds, ApplyTrades(st, symbol, trades).holds, symbol);
    }
  }

  lemma CompleteTouchesOwn(st: State, symbol: Symbol, id: SeqID, outcome: Outcome)
    ensures OthersUntouched(st.holds, Complete(st, symbol, id, outcome).holds, symbol)
  {
    hide Release, ApplyTrades, ReleaseAll;
    TradesTouchOwn(st, symbol, outcome.trades);
    var traded := ApplyTrades(st, symbol, outcome.trades);
    ReleaseAllHolds(traded, symbol, outcome.selfPrevented);
    ReleaseHolds(ReleaseAll(traded, symbol, outcome.selfPrevented), HoldKey(symbol, id));
    forall k: HoldKey | k.symbol != symbol ensures Untouched(st.holds, Complete(st, symbol, id, outcome).holds, k) {
      assert Untouched(st.holds, traded.holds, k);
    }
  }

  lemma ProcessTouchesOwn(v: Venue, symbol: Symbol, w: Work, failed: bool, at: int)
    ensures OthersUntouched(v.accounts.holds, ProcessWork(v, symbol, w, failed, at).0.accounts.holds, symbol)
  {
    hide Release, Complete, OthersUntouched;
    SameIsUntouched(v.accounts.holds, symbol);
    ReleaseTouchesOwn(v.accounts, symbol, w.orderId);
    if w.request.CancelRequest? { ReleaseTouchesOwn(v.accounts, symbol, w.request.id); }
    if w.request.SubmitRequest? {
      var res := Submit(v.book, w.request.order).1;
      if res.Some? { CompleteTouchesOwn(v.accounts, symbol, w.orderId, res.value); }
    }
  }

  lemma ReleaseTouchesOwn(st: State, symbol: Symbol, id: SeqID)
    ensures OthersUntouched(st.holds, Release(st, HoldKey(symbol, id)).holds, symbol)
  {
    hide Release;
    ReleaseHolds(st, HoldKey(symbol, id));
  }

  /**
   * Whatever step one symbol takes, trade values overflowing or not, every other symbol may take
   * it for activity elsewhere: reserved totals are sums over holds again, and none of its own
   * holds has been touched.
   */
  lemma StepIsElsewhere(c: Codec, symbol: Symbol, other: Symbol, h: History, at: Layout, event: Event, m: Machine)
    requires Faithful(c) && HistoryOk(c, symbol, h, at) && Enabled(c, symbol, h.machine, event)
    requires other != symbol && h.machine.Up? && !event.Crash? && !event.CrashInLog? && !event.Elsewhere?
    requires m.Up? && m.accounts == h.machine.accounts
    ensures Next(c, symbol, h, event).machine.Up?
    ensures Enabled(c, other, m, Elsewhere(Next(c, symbol, h, event).machine.accounts))
  {
    hide HistoryOk, Sound, ReserveWork, ProcessWork, AssignAll, Logged;
    var at' := EventKeepsHistory(c, symbol, h, at, event);
    var h' := Next(c, symbol, h, event);
    UpIsSound(c, symbol, h', at');
    var a, b := h.machine.accounts.holds, h'.machine.accounts.holds;
    assert OthersUntouched(a, b, symbol) by {
      SameIsUntouched(a, symbol);
      if event.ReserveNext? {
        UnreservedIsAssigned(c, symbol, h, at);
        ReserveTouchesOwn(h.machine.accounts, symbol, h.machine.phase.unreserved[0]);
      } else if event.ReplyNext? && h.machine.phase.unreplied != [] {
        var e := h.machine.engine;
        ProcessTouchesOwn(Venue(e.book, h.machine.accounts), symbol, h.machine.phase.unreplied[0], e.failed, e.seqNo);
      }
    }
  }

  lemma UnreservedIsAssigned(c: Codec, symbol: Symbol, h: History, at: Layout)
    requires HistoryOk(c, symbol, h, at) && Enabled(c, symbol, h.machine, ReserveNext)
    ensures Assigned(symbol, [h.machine.phase.unreserved[0]])
  {
    var todo := h.machine.phase.unreserved;
    assert todo == [todo[0]] + todo[1..];
    AssignedCons(symbol, todo[0], todo[1..]);
  }
}
