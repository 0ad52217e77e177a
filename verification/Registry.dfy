/** Creating a symbol's sequencer: recover its book, reopen its log, restore its orders' holds. */
module Registry {
  import opened Types
  import opened Matching
  import opened Ladders
  import opened AccountState
  import opened Holds
  import opened LiveHolds
  import opened LiveIds
  import opened Solvency
  import opened Commit
  import opened Framing
  import opened Wal
  import opened WalFiles
  import opened GroupCommit
  import opened World
  import opened BookModule
  import opened AccountsModule
  import opened SequencerModule
  import Durability
  import Recovery
  import opened SolventWorld

  /** Restoring the holds of these orders, one after another. */
  function RestoreAll(st: State, symbol: Symbol, orders: seq<Order>): State
    decreases |orders|
  {
    if orders == [] then st else RestoreAll(RestoreHold(st, symbol, orders[0]), symbol, orders[1..])
  }

  lemma {:induction false} RestoreAllSnoc(st: State, symbol: Symbol, orders: seq<Order>, o: Order)
    ensures RestoreAll(st, symbol, orders + [o]) == RestoreHold(RestoreAll(st, symbol, orders), symbol, o)
    decreases |orders|
  {
    hide RestoreHold;
    if orders == [] {
      assert orders + [o] == [o] && [o][1..] == [];
    } else {
      RestoreAllSnoc(RestoreHold(st, symbol, orders[0]), symbol, orders[1..], o);
      assert (orders + [o])[1..] == orders[1..] + [o];
    }
  }

  lemma {:induction false} RestoringStaysExact(st: State, symbol: Symbol, book: BookState, done: seq<Order>,
                                               todo: seq<Order>)
    requires Sound(st) && Exact(st.holds, symbol, EmptyBook, done)
    requires Recovered(symbol, book) && Lists(book, done + todo)
    ensures var st' := RestoreAll(st, symbol, todo);
      && Sound(st') && Exact(st'.holds, symbol, EmptyBook, done + todo)
      && OthersUntouched(st.holds, st'.holds, symbol)
      && st'.cash == st.cash && st'.positions == st.positions
    decreases |todo|
  {
    hide Sound, Exact, Recovered, RestoreHold;
    if todo == [] {
      assert done + todo == done;
      NothingUntouched(st.holds, symbol);
    } else {
      var o := todo[0];
      NextListed(symbol, book, done, todo);
      RestoreStaysExact(st, symbol, done, o);
      RestoreEffect(st, symbol, o);
      assert done + todo == (done + [o]) + todo[1..];
      RestoringStaysExact(RestoreHold(st, symbol, o), symbol, book, done + [o], todo[1..]);
      forall k: HoldKey | k.symbol != symbol
        ensures Settling.Untouched(st.holds, RestoreAll(st, symbol, todo).holds, k)
      {
        assert Settling.Untouched(st.holds, RestoreHold(st, symbol, o).holds, k);
      }
    }
  }

  /** Whatever order they come in, restored holds are exactly the recovered book's resting orders. */
  lemma RestoreAllIsExact(st: State, symbol: Symbol, book: BookState, orders: seq<Order>)
    requires Sound(st) && forall k :: k in st.holds ==> k.symbol != symbol
    requires Recovered(symbol, book) && Lists(book, orders)
    ensures var st' := RestoreAll(st, symbol, orders);
      && Sound(st') && Exact(st'.holds, symbol, book, [])
      && OthersUntouched(st.holds, st'.holds, symbol)
      && st'.cash == st.cash && st'.positions == st.positions
  {
    OpenedIsExact(st.holds, symbol);
    hide Sound, Exact, Recovered;
    assert [] + orders == orders;
    RestoringStaysExact(st, symbol, book, [], orders);
    RestoredIsExact(RestoreAll(st, symbol, orders).holds, symbol, book, orders);
  }

  lemma {:induction false} RestoringReserves(st: State, symbol: Symbol, book: BookState, done: seq<Order>,
                                              todo: seq<Order>, x: Asset)
    requires Sound(st) && Exact(st.holds, symbol, EmptyBook, done)
    requires Recovered(symbol, book) && Lists(book, done + todo)
    ensures Reserved(RestoreAll(st, symbol, todo), x) == Reserved(st, x) + OrdersDemand(todo, x)
    decreases |todo|
  {
    hide Sound, Exact, Recovered, RestoreHold, Demand, HoldFor;
    if todo != [] {
      var o := todo[0];
      NextListed(symbol, book, done, todo);
      NotYetHeld(st.holds, symbol, done, o);
      RestoreStaysExact(st, symbol, done, o);
      RestoreEffect(st, symbol, o);
      assert done + todo == (done + [o]) + todo[1..];
      RestoringReserves(RestoreHold(st, symbol, o), symbol, book, done + [o], todo[1..], x);
    }
  }

  /** Half-way or from the start, restoring the rest overcommits nobody exactly when balances cover the rest too. */
  lemma RestoringIsSolventIff(st: State, symbol: Symbol, book: BookState, done: seq<Order>, todo: seq<Order>)
    requires Sound(st) && Exact(st.holds, symbol, EmptyBook, done)
    requires Recovered(symbol, book) && Lists(book, done + todo)
    ensures Solvent(RestoreAll(st, symbol, todo)) <==> Fits(st, [], todo)
  {
    RestoringStaysExact(st, symbol, book, done, todo);
    var st' := RestoreAll(st, symbol, todo);
    hide Sound, Exact, Recovered, RestoreAll, Reserved, Lists;
    forall x
      ensures 0 <= Reserved(st', x) == Reserved(st, x) + OrdersDemand([], x) + OrdersDemand(todo, x)
    {
      RestoringReserves(st, symbol, book, done, todo, x);
      ReservedIsNonNegative(st', x);
    }
    SolventMeansFits(st, st', todo);
  }

  lemma SolventMeansFits(st: State, st': State, todo: seq<Order>)
    requires forall x :: 0 <= Reserved(st', x) == Reserved(st, x) + OrdersDemand([], x) + OrdersDemand(todo, x)
    requires st'.cash == st.cash && st'.positions == st.positions
    ensures Solvent(st') <==> Fits(st, [], todo)
  {
    hide Reserved, OrdersDemand;
    assert forall x :: Owned(st', x) == Owned(st, x);
    if Solvent(st') {
      forall x ensures Reserved(st, x) + OrdersDemand([], x) + OrdersDemand(todo, x) <= Owned(st, x) {
        assert Reserved(st', x) <= Owned(st', x);
      }
    }
    if Fits(st, [], todo) {
      forall x ensures 0 <= Reserved(st', x) <= Owned(st', x) {
        assert Reserved(st, x) + OrdersDemand([], x) + OrdersDemand(todo, x) <= Owned(st, x);
      }
    }
  }

  /**
   * Restoring a recovered book checks nothing; it overcommits nobody if and only if what every
   * account owns covers the book's orders on top of all it has reserved by then.
   */
  lemma RestoreSolventIff(st: State, symbol: Symbol, book: BookState, orders: seq<Order>)
    requires Sound(st) && forall k :: k in st.holds ==> k.symbol != symbol
    requires Recovered(symbol, book) && Lists(book, orders)
    ensures Solvent(RestoreAll(st, symbol, orders))
       <==> forall x :: Reserved(st, x) + OrdersDemand(orders, x) <= Owned(st, x)
  {
    OpenedIsExact(st.holds, symbol);
    hide Sound, Exact, Recovered, RestoreAll, Reserved, Owned;
    assert [] + orders == orders;
    RestoringIsSolventIff(st, symbol, book, [], orders);
    FitsNothingMore(st, orders);
  }

  lemma FitsNothingMore(st: State, orders: seq<Order>)
    ensures Fits(st, [], orders) <==> forall x :: Reserved(st, x) + OrdersDemand(orders, x) <= Owned(st, x)
  {
    hide Reserved, Owned;
    if Fits(st, [], orders) {
      forall x ensures Reserved(st, x) + OrdersDemand(orders, x) <= Owned(st, x) {
        assert Reserved(st, x) + OrdersDemand([], x) + OrdersDemand(orders, x) <= Owned(st, x);
      }
    }
    if forall x :: Reserved(st, x) + OrdersDemand(orders, x) <= Owned(st, x) {
      forall x ensures Reserved(st, x) + OrdersDemand([], x) + OrdersDemand(orders, x) <= Owned(st, x) {}
    }
  }

  /** Restoring what a symbol has left to restore, if anything. */
  function FinishRestoring(w: World, t: Symbol): State
    requires t in w.desks
  {
    RestoreAll(w.accounts, t, Unrestored(w.desks[t]))
  }

  /**
   * Accepting an order while a recovered book is being restored leaves nobody overcommitted, then
   * and once the restoring is finished, if and only if the order leaves room.
   */
  lemma AcceptingIsSolventIff(w: World, s: Symbol)
    requires SafeWorld(w) && Enabled(w, ReserveNext(s))
    ensures ReserveFits(w, s)
       <==> forall t :: t in w.desks ==> Solvent(FinishRestoring(Do(w, ReserveNext(s)), t))
  {
    hide Sound, Exact, DeskOk, PhaseOk, GoodDesk, Fits, Solvent, ReserveWork, NextAccepted, SolventWorld.Covered;
    var w' := Do(w, ReserveNext(s));
    ReserveNextKeeps(w, s);
    ReserveWorkTotals(w, s);
    forall t | t in w.desks
      ensures Solvent(FinishRestoring(w', t)) <==> Fits(w.accounts, NextAccepted(w, s), Unrestored(w.desks[t]))
    {
      ReservedFitsIff(w.accounts, w'.accounts, NextAccepted(w, s), Unrestored(w.desks[t]));
      assert Unrestored(w'.desks[t]) == Unrestored(w.desks[t]);
      FinishedIsSolventIff(w', t);
    }
  }

  lemma FinishedIsSolventIff(w: World, t: Symbol)
    requires Inv(w) && t in w.desks
    ensures Solvent(FinishRestoring(w, t)) <==> Fits(w.accounts, [], Unrestored(w.desks[t]))
  {
    hide Sound, Exact, Recovered, RestoreHold, Solvent, Fits;
    var d := w.desks[t];
    assert DeskOk(w.accounts.holds, t, d);
    if d.phase.Restoring? {
      RestoringIsSolventIff(w.accounts, t, d.book, d.phase.restored, d.phase.unrestored);
    } else {
      SolventIffFits(w.accounts);
    }
  }

  lemma SolventIffFits(st: State)
    requires Sound(st)
    ensures Solvent(st) <==> Fits(st, [], [])
  {
    hide Sound;
    if Fits(st, [], []) { FitsIsSolvent(st); }
  }

  /** With its holds restored, a symbol's first commit may go ahead: every live order's id is guarded. */
  lemma RestoredMayCommit(st: State, symbol: Symbol, book: BookState, orders: seq<Order>)
    requires Sound(st) && forall k :: k in st.holds ==> k.symbol != symbol
    requires Recovered(symbol, book) && Lists(book, orders)
    ensures var st' := RestoreAll(st, symbol, orders); Sound(st') && Guarded(st'.holds, symbol, book, [])
  {
    hide Sound, Exact, Recovered, RestoreAll, Guarded;
    RestoreAllIsExact(st, symbol, book, orders);
    ExactIsGuarded(RestoreAll(st, symbol, orders).holds, symbol, book, []);
  }

  /**
   * Whatever a stopped symbol went through, creating its sequencer again is a restart of that
   * life: its directory opens and, once its holds are restored, the life may go on.
   */
  lemma StoppedMayRestart(c: Codec, symbol: Symbol, st: State, maxBytes: int, events: seq<Durability.Event>,
                          now: State, orders: seq<Order>, maxBytes': int)
    requires Faithful(c) && Sound(st) && Durability.CanLive(c, symbol, Durability.Beginning(c, st, maxBytes), events)
    requires Durability.Lived(c, symbol, Durability.Beginning(c, st, maxBytes), events).machine.Down?
    requires Sound(now) && forall k :: k in now.holds ==> k.symbol != symbol
    requires var m := Durability.Lived(c, symbol, Durability.Beginning(c, st, maxBytes), events).machine;
      Lists(Replay(EmptyBook, ReadAll(c, m.dir).0), orders)
    ensures var m := Durability.Lived(c, symbol, Durability.Beginning(c, st, maxBytes), events).machine;
      Durability.Enabled(c, symbol, m, Durability.Restart(RestoreAll(now, symbol, orders), maxBytes'))
  {
    hide Durability.CanLive, Durability.Lived, Durability.Beginning, Sound, Recovered, RestoreAll, Guarded, Replay,
         Replayable, ReadAll, Lists, Above, Wal.OpenWriter, Durability.Restarted;
    Recovery.StoppedMayOpen(c, symbol, st, maxBytes, events, maxBytes');
    var m := Durability.Lived(c, symbol, Durability.Beginning(c, st, maxBytes), events).machine;
    RestoredMayCommit(now, symbol, Replay(EmptyBook, ReadAll(c, m.dir).0), orders);
  }

  /** Two orderings of the same book's orders restore the same holds and reservations. */
  lemma RestoringOrderIsIrrelevant(st: State, symbol: Symbol, book: BookState, a: seq<Order>, b: seq<Order>)
    requires Sound(st) && forall k :: k in st.holds ==> k.symbol != symbol
    requires Recovered(symbol, book) && Lists(book, a) && Lists(book, b)
    ensures SameAccounts(RestoreAll(st, symbol, a), RestoreAll(st, symbol, b))
  {
    RestoreAllIsExact(st, symbol, book, a);
    RestoreAllIsExact(st, symbol, book, b);
    var x, y := RestoreAll(st, symbol, a), RestoreAll(st, symbol, b);
    hide Sound, Exact, Recovered, RestoreAll;
    forall k | k in x.holds || k in y.holds ensures k in x.holds && k in y.holds && x.holds[k] == y.holds[k] {
      if k.symbol == symbol {
        SameBookSameHold(x.holds, y.holds, book, book, k);
      } else {
        assert Settling.Untouched(st.holds, x.holds, k) && Settling.Untouched(st.holds, y.holds, k);
      }
    }
    assert x.holds == y.holds;
    assert forall z :: Owned(x, z) == Owned(y, z);
    HoldsDetermineReservations(x, y);
  }

  /** Wire a fresh sequencer to the shared accounts: restore the hold of every order its book recovered. */
  method Attach(symbol: Symbol, book: Book, accounts: Accounts) returns (ghost orders: seq<Order>)
    requires book.Valid() && accounts.Valid() && book.Repr !! accounts.Repr && book in book.Repr
    modifies accounts
    ensures accounts.Valid() && fresh(accounts.Repr - old(accounts.Repr)) && book.Valid()
    ensures book.View() == old(book.View()) && Lists(book.View(), orders)
    ensures accounts.View() == RestoreAll(old(accounts.View()), symbol, orders)
  {
    hide RestoreHold, Lists, CoreInv, WellFormed, Book.Linked, Book.State, Book.View, Accounts.View;
    var resting := book.RestingOrders();
    orders := resting;
    ghost var st, view := accounts.View(), book.View();
    for i := 0 to |resting|
      invariant accounts.Valid() && fresh(accounts.Repr - old(accounts.Repr)) && book.Valid() && book.View() == view
      invariant accounts.View() == RestoreAll(st, symbol, resting[..i])
    {
      RestoreAllSnoc(st, symbol, resting[..i], resting[i]);
      assert resting[..i + 1] == resting[..i] + [resting[i]];
      accounts.RestoreHold(symbol, resting[i]);
    }
    assert resting[..|resting|] == resting;
  }

  /** Create a symbol's sequencer over its log: null when the log is damaged. */
  method NewSequencer(symbol: Symbol, disk: Directory, codec: Codec, accounts: Accounts, maxSegmentBytes: int)
    returns (s: Sequencer?, ghost orders: seq<Order>)
    requires accounts.Valid() && accounts in accounts.Repr && disk !in accounts.Repr
    requires Replayable(EmptyBook, Above(ReadAll(codec, disk.segments).0, 0))
    modifies disk, accounts
    ensures var (rs, clean) := ReadAll(codec, old(disk.segments));
      var w := Wal.OpenWriter(codec, old(disk.segments), maxSegmentBytes);
      var book := Replay(EmptyBook, Above(rs, 0));
      && (s != null <==> clean && w.Some?)
      && (s == null ==> accounts.Valid() && accounts.View() == old(accounts.View()))
      && (s != null ==>
            && s.Valid() && s.symbol == symbol && s.accounts == accounts && s.wal.disk == disk
            && s.Engine() == Engine(book, w.value, w.value.lastSeq, book.maxOrderId, false)
            && Lists(book, orders)
            && accounts.View() == RestoreAll(old(accounts.View()), symbol, orders))
  {
    hide RestoreAll, Replay, Replayable, ReadAll, Wal.OpenWriter, Lists, Above,
         CoreInv, WellFormed, Book.Linked, Book.State, Book.View, Accounts.View;
    s, orders := null, [];
    var book := new Book();
    book.ValidParts();
    var _, clean := Recover(disk, codec, book, 0);
    book.ValidParts();
    if !clean { return; }
    var w := WalFiles.OpenWriter(disk, codec, maxSegmentBytes);
    if w == null { return; }
    orders := Attach(symbol, book, accounts);
    book.ViewCounters();
    s := new Sequencer(symbol, book, accounts, w);
  }
}
