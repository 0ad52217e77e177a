/** The shared account store: balances, reservations and one hold cell per live order, updated in place. */
module AccountsModule {
  import opened Types
  import opened AccountState

  /** One order's outstanding reservation; only its quantity changes. */
  class HoldCell {
    const account: Account
    const symbol: Symbol
    const side: Side
    const price: Price
    var quantity: int

    /** The key this cell is filed under, which is what keeps cells from being shared. */
    ghost const key: HoldKey

    constructor (h: Hold, ghost key: HoldKey)
      ensures Value() == h && this.key == key
    {
      account, symbol, side, price, quantity := h.account, h.symbol, h.side, h.price, h.quantity;
      this.key := key;
    }

    ghost function Value(): Hold
      reads this
    {
      Hold(account, symbol, side, price, quantity)
    }
  }

  class Accounts {
    var cash: map<Account, int>
    var positions: PerSymbol
    var reservedCash: map<Account, int>
    var reservedShares: PerSymbol
    var holds: map<HoldKey, HoldCell>

    ghost var Repr: set<object>

    ghost predicate Valid()
      reads `holds, `Repr
    {
      && this in Repr && holds.Values <= Repr
      && (forall k :: k in holds ==> holds[k].key == k)
    }

    ghost function Holds(): map<HoldKey, Hold>
      reads `holds, holds.Values
    {
      map k | k in holds :: holds[k].Value()
    }

    ghost function View(): State
      reads this, holds.Values
    {
      State(cash, positions, reservedCash, reservedShares, Holds())
    }

    constructor ()
      ensures Valid() && fresh(Repr) && View() == EmptyState
    {
      cash, positions, reservedCash, reservedShares, holds := map[], map[], map[], map[], map[];
      Repr := {this};
    }

    /** Changing one filed cell changes that key's hold and nothing else. */
    twostate lemma OneHoldChanged(key: HoldKey)
      requires old(Valid()) && Valid() && holds == old(holds) && key in holds
      requires forall k :: k in holds && holds[k] != holds[key] ==> holds[k].quantity == old(holds[k].quantity)
      ensures Holds() == old(Holds())[key := holds[key].Value()]
    {
    }

    method Deposit(account: Account, amount: int)
      requires Valid()
      modifies this
      ensures Valid() && Repr == old(Repr)
      ensures View() == AccountState.Deposit(old(View()), account, amount)
    {
      cash := cash[account := Get(cash, account) + amount];
    }

    method SetPosition(account: Account, symbol: Symbol, qty: int)
      requires Valid()
      modifies this
      ensures Valid() && Repr == old(Repr)
      ensures View() == AccountState.SetPosition(old(View()), account, symbol, qty)
    {
      positions := Put2(positions, account, symbol, qty);
    }

    /** File a new cell for this hold. */
    method AddHold(key: HoldKey, h: Hold)
      requires Valid()
      modifies this
      ensures Valid() && fresh(Repr - old(Repr))
      ensures Holds() == old(Holds())[key := h]
      ensures cash == old(cash) && positions == old(positions)
      ensures reservedCash == old(reservedCash) && reservedShares == old(reservedShares)
    {
      var cell := new HoldCell(h, key);
      holds := holds[key := cell];
      Repr := Repr + {cell};
    }

    /** Check that o is affordable out of what is not committed, and hold that amount against its id. */
    method Reserve(o: Order) returns (err: Option<ReserveError>)
      requires Valid()
      modifies this
      ensures Valid() && fresh(Repr - old(Repr))
      ensures (View(), err) == AccountState.Reserve(old(View()), o)
    {
      if !(o.placer in cash || o.placer in positions) { return Some(UnknownAccount); }
      if o.quantity <= 0 { return Some(BadQuantity); }
      var key := HoldKey(o.symbol, o.id);
      if key in holds { return Some(AlreadyReserved); }
      if o.side == Sell {
        var available := Get2(positions, o.placer, o.symbol) - Get2(reservedShares, o.placer, o.symbol);
        if available < o.quantity { return Some(InsufficientShares); }
        reservedShares := AddShares(reservedShares, o.placer, o.symbol, o.quantity);
        AddHold(key, Hold(o.placer, o.symbol, Sell, o.price, o.quantity));
        return None;
      }
      var available := Get(cash, o.placer) - Get(reservedCash, o.placer);
      if o.kind == Market {
        if available <= 0 { return Some(InsufficientFunds); }
        AddHold(key, Hold(o.placer, o.symbol, Buy, 0, o.quantity));
        return None;
      }
      var cost := Notional(o.price, o.quantity);
      if cost == None { return Some(BadValue); }
      if available < cost.value { return Some(InsufficientFunds); }
      reservedCash := reservedCash[o.placer := Get(reservedCash, o.placer) + cost.value];
      AddHold(key, Hold(o.placer, o.symbol, Buy, o.price, o.quantity));
      return None;
    }

    method RestoreHold(symbol: Symbol, o: Order)
      requires Valid()
      modifies this
      ensures Valid() && fresh(Repr - old(Repr))
      ensures View() == AccountState.RestoreHold(old(View()), symbol, o)
    {
      var key := HoldKey(symbol, o.id);
      if key in holds { return; }
      if o.side == Sell {
        reservedShares := AddShares(reservedShares, o.placer, symbol, o.quantity);
        AddHold(key, Hold(o.placer, symbol, Sell, o.price, o.quantity));
        return;
      }
      var cost := Notional(o.price, o.quantity);
      if cost.Some? {
        reservedCash := reservedCash[o.placer := Get(reservedCash, o.placer) + cost.value];
      }
      AddHold(key, Hold(o.placer, symbol, Buy, o.price, o.quantity));
    }

    /** Give back what q units of this cell had reserved. */
    method FreeUnits(h: HoldCell, q: int)
      requires Valid()
      modifies this
      ensures Valid() && Repr == old(Repr) && holds == old(holds)
      ensures View() == Free(old(View()), old(h.Value()), q)
    {
      hide AddShares, TakeOff, Notional;
      if h.side == Sell {
        reservedShares := AddShares(reservedShares, h.account, h.symbol, -q);
        return;
      }
      if h.price == 0 { return; }
      var freed := Notional(h.price, q);
      if freed == None { return; }
      reservedCash := TakeOff(reservedCash, h.account, freed.value);
    }

    /** Reduce a filed cell by qty, freeing the corresponding reservation. */
    method ShrinkHold(h: HoldCell, qty: int)
      requires Valid() && h.key in holds && holds[h.key] == h
      modifies this, h
      ensures Valid() && Repr == old(Repr) && holds == old(holds)
      ensures View() == AccountState.ShrinkHold(old(View()), h.key, qty)
    {
      hide Free;
      if qty <= 0 { return; }
      var q := if qty > h.quantity then h.quantity else qty;
      FreeUnits(h, q);
      label freed:
      h.quantity := h.quantity - q;
      OneHoldChanged@freed(h.key);
      FreeIgnoresHolds(old(View()), old(h.Value()), q, Holds());
    }

    /** Free an order's entire reservation and forget it; an order without a hold is not an error. */
    method Release(key: HoldKey)
      requires Valid()
      modifies Repr
      ensures Valid() && Repr == old(Repr)
      ensures View() == AccountState.Release(old(View()), key)
    {
      if key !in holds { return; }
      var h := holds[key];
      ShrinkHold(h, h.quantity);
      ghost var before := Holds();
      holds := holds - {key};
      assert Holds() == before - {key};
    }

    method ShrinkTraded(key: HoldKey, qty: int)
      requires Valid()
      modifies Repr
      ensures Valid() && Repr == old(Repr)
      ensures View() == AccountState.ShrinkTraded(old(View()), key, qty)
    {
      if key !in holds { return; }
      var h := holds[key];
      ShrinkHold(h, qty);
      ghost var before := Holds();
      assert before[key] == h.Value();
      if h.quantity == 0 {
        holds := holds - {key};
        assert Holds() == before - {key};
      }
    }

    method MoveValue(t: Trade, value: int)
      requires Valid()
      modifies this
      ensures Valid() && Repr == old(Repr)
      ensures View() == AccountState.MoveValue(old(View()), t, value)
    {
      hide Get, Add2;
      var buyer, seller := t.Buyer(), t.Seller();
      cash := cash[buyer := Get(cash, buyer) - value];
      cash := cash[seller := Get(cash, seller) + value];
      positions := Add2(positions, buyer, t.symbol, t.quantity);
      positions := Add2(positions, seller, t.symbol, -t.quantity);
    }

    /** Move one trade's value and shrink both sides' holds. */
    method ApplyTrade(symbol: Symbol, t: Trade)
      requires Valid()
      modifies Repr
      ensures Valid() && Repr == old(Repr)
      ensures View() == AccountState.ApplyTrade(old(View()), symbol, t)
    {
      hide AccountState.ShrinkTraded, AccountState.MoveValue, Notional, View;
      var value := Notional(t.price, t.quantity);
      if value == None { return; }
      MoveValue(t, value.value);
      ShrinkTraded(HoldKey(symbol, t.makerId), t.quantity);
      ShrinkTraded(HoldKey(symbol, t.takerId), t.quantity);
    }

    /** Apply an order's whole outcome: value, both sides' holds, and the taker's remainder. */
    method Complete(symbol: Symbol, id: SeqID, trades: seq<Trade>, resting: int, selfPrevented: seq<SeqID>)
      requires Valid()
      modifies Repr
      ensures Valid() && Repr == old(Repr)
      ensures View() == AccountState.Complete(old(View()), symbol, id, Outcome(trades, selfPrevented, resting))
    {
      ghost var st := View();
      for i := 0 to |trades|
        invariant Valid() && Repr == old(Repr)
        invariant View() == ApplyTrades(st, symbol, trades[..i])
      {
        assert trades[..i + 1] == trades[..i] + [trades[i]];
        ApplyTradesSnoc(st, symbol, trades[..i], trades[i]);
        ApplyTrade(symbol, trades[i]);
      }
      assert trades[..|trades|] == trades;
      ghost var traded := View();
      for i := 0 to |selfPrevented|
        invariant Valid() && Repr == old(Repr)
        invariant View() == ReleaseAll(traded, symbol, selfPrevented[..i])
      {
        assert selfPrevented[..i + 1] == selfPrevented[..i] + [selfPrevented[i]];
        ReleaseAllSnoc(traded, symbol, selfPrevented[..i], selfPrevented[i]);
        Release(HoldKey(symbol, selfPrevented[i]));
      }
      assert selfPrevented[..|selfPrevented|] == selfPrevented;
      if resting <= 0 { Release(HoldKey(symbol, id)); }
    }

    /** Replace every balance, discarding reservations; refused while holds exist. */
    method LoadBalances(cash: map<Account, int>, positions: PerSymbol) returns (ok: bool)
      requires Valid()
      modifies this
      ensures Valid() && Repr == old(Repr)
      ensures var loaded := AccountState.LoadBalances(old(View()), cash, positions);
        && ok == loaded.Some?
        && View() == if ok then loaded.value else old(View())
    {
      if holds != map[] {
        ghost var k :| k in holds;
        assert k in Holds();
        return false;
      }
      assert Holds() == map[];
      this.cash, this.positions, reservedCash, reservedShares := cash, NonEmptyRows(positions), map[], map[];
      ok := true;
    }
  }
}
