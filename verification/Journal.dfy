/**
 * The settlement journal as a map keyed by its unique index, filled by
 * insert-if-absent: four balanced rows a trade, however settling is batched,
 * ordered and repeated.
 */
module Journal {
  import opened Types
  import opened Guards
  import opened Holds
  import opened Settling

  datatype AssetKind = CASH | POSITION
  datatype Direction = DEBIT | CREDIT

  /** The unique index: two rows of the same key cannot both exist. */
  datatype LegKey = LegKey(symbol: Symbol, tradeId: SeqID, account: Account, asset: AssetKind, direction: Direction)

  datatype Leg = Leg(key: LegKey, amount: int)

  type Rows = map<LegKey, int>

  /** The four legs of a trade of this value. */
  function Legs(t: Trade, value: int): seq<Leg> {
    [ Leg(LegKey(t.symbol, t.id, t.Buyer(), POSITION, DEBIT), t.quantity),
      Leg(LegKey(t.symbol, t.id, t.Buyer(), CASH, CREDIT), value),
      Leg(LegKey(t.symbol, t.id, t.Seller(), CASH, DEBIT), value),
      Leg(LegKey(t.symbol, t.id, t.Seller(), POSITION, CREDIT), t.quantity) ]
  }

  predicate Int64Trade(t: Trade) {
    IsInt64(t.price) && IsInt64(t.quantity)
  }

  /** None when the trade cannot be settled: its value overflows, or a side is unnamed. */
  function Queue(t: Trade): Option<seq<Leg>>
    requires Int64Trade(t)
  {
    match TradeValue(t.price, t.quantity)
    case None => None
    case Some(value) => if t.Buyer() == "" || t.Seller() == "" then None else Some(Legs(t, value))
  }

  predicate AllInt64Trades(trades: seq<Trade>) {
    forall t :: t in trades ==> Int64Trade(t)
  }

  function QueueAll(trades: seq<Trade>): Option<seq<Leg>>
    requires AllInt64Trades(trades)
  {
    if trades == [] then Some([])
    else
      match Queue(trades[0])
      case None => None
      case Some(legs) =>
        match QueueAll(trades[1..])
        case None => None
        case Some(more) => Some(legs + more)
  }

  /** Insert one row, doing nothing on conflict; a row whose amount is not positive is refused. */
  function Insert(rows: Rows, leg: Leg): Option<Rows> {
    if leg.amount <= 0 then None
    else if leg.key in rows then Some(rows)
    else Some(rows[leg.key := leg.amount])
  }

  function InsertAll(rows: Rows, legs: seq<Leg>): Option<Rows>
    decreases |legs|
  {
    if legs == [] then Some(rows)
    else
      match Insert(rows, legs[0])
      case None => None
      case Some(rows') => InsertAll(rows', legs[1..])
  }

  /** Settle a batch in one transaction; None leaves the journal as it was. */
  function Settle(rows: Rows, trades: seq<Trade>): Option<Rows>
    requires AllInt64Trades(trades)
  {
    match QueueAll(trades)
    case None => None
    case Some(legs) => InsertAll(rows, legs)
  }

  // --- What a journal stands for -----------------------------------------------------------------

  /** A trade the ledger can settle. */
  predicate Settleable(t: Trade) {
    && Int64Trade(t) && Representable(t.price, t.quantity)
    && t.price * t.quantity > 0 && t.quantity > 0
    && t.Buyer() != "" && t.Seller() != ""
  }

  function LegsOf(t: Trade): seq<Leg> {
    Legs(t, t.price * t.quantity)
  }

  /** (symbol, trade id) names one trade. */
  ghost predicate Identified(trades: set<Trade>) {
    forall t, u :: t in trades && u in trades && t.symbol == u.symbol && t.id == u.id ==> t == u
  }

  /** The keys of a trade's four rows, and the amount under each. */
  function KeysOf(t: Trade): set<LegKey> {
    var l := LegsOf(t);
    {l[0].key, l[1].key, l[2].key, l[3].key}
  }

  function AmountOf(t: Trade, k: LegKey): int {
    if k.asset == CASH then t.price * t.quantity else t.quantity
  }

  lemma KeyNames(t: Trade, k: LegKey)
    requires k in KeysOf(t)
    ensures k.symbol == t.symbol && k.tradeId == t.id
  {
  }

  /** The journal holds exactly the four legs of each of these trades. */
  ghost predicate Holds4(rows: Rows, trades: set<Trade>) {
    && (forall t, k :: t in trades && k in KeysOf(t) ==> k in rows && rows[k] == AmountOf(t, k))
    && (forall k :: k in rows ==> exists t :: t in trades && k in KeysOf(t))
  }

  /** A journal is determined by the trades it stands for. */
  lemma JournalIsUnique(a: Rows, b: Rows, trades: set<Trade>)
    requires Holds4(a, trades) && Holds4(b, trades)
    ensures a == b
  {
    hide KeysOf, AmountOf;
    forall k | k in a || k in b ensures k in a && k in b && a[k] == b[k] {
      var t :| t in trades && k in KeysOf(t);
    }
  }

  lemma QueueSettleable(t: Trade)
    requires Settleable(t)
    ensures Queue(t) == Some(LegsOf(t))
  {
    TradeValueIsExact(t.price, t.quantity);
  }

  lemma {:induction false} InsertJoin(rows: Rows, a: seq<Leg>, b: seq<Leg>)
    ensures InsertAll(rows, a + b) ==
      match InsertAll(rows, a)
      case None => None
      case Some(rows') => InsertAll(rows', b)
    decreases |a|
  {
    if a == [] {
      assert a + b == b;
    } else {
      assert (a + b)[0] == a[0] && (a + b)[1..] == a[1..] + b;
      match Insert(rows, a[0])
      case None =>
      case Some(rows') => InsertJoin(rows', a[1..], b);
    }
  }

  /** The rows with this trade's four legs in. */
  function With(rows: Rows, t: Trade): Rows {
    var l := LegsOf(t);
    rows[l[0].key := l[0].amount][l[1].key := l[1].amount][l[2].key := l[2].amount][l[3].key := l[3].amount]
  }

  /** No row belongs to this trade. */
  ghost predicate Absent(rows: Rows, t: Trade) {
    forall k :: k in rows ==> k.symbol != t.symbol || k.tradeId != t.id
  }

  lemma InsertNew(rows: Rows, t: Trade)
    requires Settleable(t) && Absent(rows, t)
    ensures InsertAll(rows, LegsOf(t)) == Some(With(rows, t))
  {
    var l := LegsOf(t);
    var r1 := rows[l[0].key := l[0].amount];
    var r2 := r1[l[1].key := l[1].amount];
    var r3 := r2[l[2].key := l[2].amount];
    var r4 := r3[l[3].key := l[3].amount];
    FourInserts(rows, r1, r2, r3, r4, l);
  }

  lemma FourInserts(r0: Rows, r1: Rows, r2: Rows, r3: Rows, r4: Rows, l: seq<Leg>)
    requires |l| == 4
    requires Insert(r0, l[0]) == Some(r1) && Insert(r1, l[1]) == Some(r2)
    requires Insert(r2, l[2]) == Some(r3) && Insert(r3, l[3]) == Some(r4)
    ensures InsertAll(r0, l) == Some(r4)
  {
    hide Insert;
    assert l[1..][0] == l[1] && l[1..][1..] == l[2..] && l[2..][0] == l[2] && l[2..][1..] == l[3..];
    assert l[3..][0] == l[3] && l[3..][1..] == [];
    assert InsertAll(r3, l[3..]) == InsertAll(r4, []);
    assert InsertAll(r2, l[2..]) == InsertAll(r3, l[3..]);
    assert InsertAll(r1, l[1..]) == InsertAll(r2, l[2..]);
  }

  lemma LegsAreKeys(t: Trade)
    ensures forall i :: 0 <= i < 4 ==>
      LegsOf(t)[i].key in KeysOf(t) && AmountOf(t, LegsOf(t)[i].key) == LegsOf(t)[i].amount
  {
  }

  lemma InsertAgain(rows: Rows, t: Trade, trades: set<Trade>)
    requires Settleable(t) && t in trades && Holds4(rows, trades)
    ensures InsertAll(rows, LegsOf(t)) == Some(rows)
  {
    LegsAreKeys(t);
    var l := LegsOf(t);
    assert forall i :: 0 <= i < 4 ==> l[i].key in rows && l[i].amount > 0;
    hide Holds4;
    FourInserts(rows, rows, rows, rows, rows, l);
  }

  lemma NewTradeIsAbsent(rows: Rows, t: Trade, trades: set<Trade>)
    requires Holds4(rows, trades) && Identified(trades + {t}) && t !in trades
    ensures Absent(rows, t)
  {
    hide KeysOf, AmountOf;
    forall k | k in rows ensures k.symbol != t.symbol || k.tradeId != t.id {
      var u :| u in trades && k in KeysOf(u);
      KeyNames(u, k);
      assert u in trades + {t} && t in trades + {t};
    }
  }

  /** Adding a trade's legs changes exactly the rows under its keys. */
  lemma WithRows(rows: Rows, t: Trade)
    ensures var rows' := With(rows, t);
      && rows'.Keys == rows.Keys + KeysOf(t)
      && (forall k :: k in KeysOf(t) ==> rows'[k] == AmountOf(t, k))
      && (forall k :: k in rows && k !in KeysOf(t) ==> rows'[k] == rows[k])
  {
  }

  lemma WithHolds4(rows: Rows, t: Trade, trades: set<Trade>)
    requires Holds4(rows, trades) && Absent(rows, t)
    ensures Holds4(With(rows, t), trades + {t})
  {
    hide KeysOf, AmountOf, With;
    WithRows(rows, t);
    var rows' := With(rows, t);
    forall u, k | u in trades + {t} && k in KeysOf(u) ensures k in rows' && rows'[k] == AmountOf(u, k) {
      if u != t {
        assert u in trades && k in rows;
        if k in KeysOf(t) { KeyNames(t, k); }
      }
    }
    forall k | k in rows' ensures exists u :: u in trades + {t} && k in KeysOf(u) {
      if k in rows {
        var u :| u in trades && k in KeysOf(u);
        assert u in trades + {t};
      }
    }
  }

  /** Settling one trade makes the journal stand for it too; settling it again changes nothing. */
  lemma SettleOne(rows: Rows, t: Trade, trades: set<Trade>)
    requires Settleable(t) && Holds4(rows, trades) && Identified(trades + {t})
    ensures var r := InsertAll(rows, LegsOf(t));
      r.Some? && Holds4(r.value, trades + {t}) && (t in trades ==> r.value == rows)
  {
    if t in trades {
      InsertAgain(rows, t, trades);
      assert trades + {t} == trades;
    } else {
      NewTradeIsAbsent(rows, t, trades);
      InsertNew(rows, t);
      WithHolds4(rows, t, trades);
    }
  }

  function SetOf(trades: seq<Trade>): set<Trade> {
    set t | t in trades
  }

  predicate AllSettleable(trades: seq<Trade>) {
    forall t :: t in trades ==> Settleable(t)
  }

  lemma SettleableIsInt64(trades: seq<Trade>)
    requires AllSettleable(trades)
    ensures AllInt64Trades(trades)
  {
  }

  lemma {:induction false} QueueAllSettleable(trades: seq<Trade>)
    requires AllSettleable(trades)
    ensures QueueAll(trades).Some?
    ensures trades != [] ==> QueueAll(trades).value == LegsOf(trades[0]) + QueueAll(trades[1..]).value
  {
    if trades != [] {
      QueueSettleable(trades[0]);
      QueueAllSettleable(trades[1..]);
    }
  }

  /**
   * Settling any batch of valid trades, some perhaps settled before: the journal afterwards
   * stands for the union. So any batching, order and repeats end in the same journal.
   */
  lemma {:induction false} SettleIsUnion(rows: Rows, trades: seq<Trade>, settled: set<Trade>)
    requires Holds4(rows, settled) && Identified(settled + SetOf(trades))
    requires AllSettleable(trades)
    ensures var r := Settle(rows, trades); r.Some? && Holds4(r.value, settled + SetOf(trades))
    decreases |trades|
  {
    hide Holds4, Identified, Settleable, Queue, LegsOf, InsertAll;
    QueueAllSettleable(trades);
    if trades == [] {
      assert settled + SetOf(trades) == settled;
      NothingToInsert(rows);
    } else {
      var t, rest := trades[0], trades[1..];
      assert SetOf(trades) == {t} + SetOf(rest);
      IdentifiedSubset(settled + {t}, settled + SetOf(trades));
      SettleOne(rows, t, settled);
      var rows' := InsertAll(rows, LegsOf(t)).value;
      assert settled + {t} + SetOf(rest) == settled + SetOf(trades);
      SettleIsUnion(rows', rest, settled + {t});
      SettleableIsInt64(rest);
      InsertJoin(rows, LegsOf(t), QueueAll(rest).value);
    }
  }

  lemma NothingToInsert(rows: Rows)
    ensures InsertAll(rows, []) == Some(rows)
  {
  }

  lemma IdentifiedSubset(a: set<Trade>, b: set<Trade>)
    requires Identified(b) && a <= b
    ensures Identified(a)
  {
  }

  /** Two histories of settlement over the same trades, however batched, ordered and repeated, give one journal. */
  lemma SettlementIsConfluent(a: Rows, b: Rows, xs: seq<Trade>, ys: seq<Trade>, settled: set<Trade>)
    requires Holds4(a, settled) && Holds4(b, settled) && SetOf(xs) == SetOf(ys)
    requires Identified(settled + SetOf(xs)) && AllSettleable(xs) && AllSettleable(ys)
    ensures Settle(a, xs).Some? && Settle(a, xs) == Settle(b, ys)
    ensures Settle(Settle(a, xs).value, ys) == Settle(a, xs)
  {
    hide Holds4, Identified, Settleable, Settle;
    SettleableIsInt64(xs);
    SettleableIsInt64(ys);
    SettleIsUnion(a, xs, settled);
    SettleIsUnion(b, ys, settled);
    JournalIsUnique(Settle(a, xs).value, Settle(b, ys).value, settled + SetOf(xs));
    var once := settled + SetOf(xs);
    assert once + SetOf(ys) == once;
    SettleIsUnion(Settle(a, xs).value, ys, once);
    JournalIsUnique(Settle(a, xs).value, Settle(Settle(a, xs).value, ys).value, once);
  }

  /** A row once posted is never changed or taken back, whatever is settled afterwards. */
  lemma {:induction false} RowsStay(rows: Rows, legs: seq<Leg>, k: LegKey)
    requires k in rows
    ensures InsertAll(rows, legs).Some? ==>
      k in InsertAll(rows, legs).value && InsertAll(rows, legs).value[k] == rows[k]
    decreases |legs|
  {
    if legs != [] && Insert(rows, legs[0]).Some? { RowsStay(Insert(rows, legs[0]).value, legs[1..], k); }
  }

  lemma SettlingKeepsRows(rows: Rows, trades: seq<Trade>, k: LegKey)
    requires AllInt64Trades(trades) && k in rows && Settle(rows, trades).Some?
    ensures k in Settle(rows, trades).value && Settle(rows, trades).value[k] == rows[k]
  {
    RowsStay(rows, QueueAll(trades).value, k);
  }

  /** A trade the ledger cannot settle fails its whole batch, so nothing of the batch is posted. */
  lemma {:induction false} OneBadTradeFailsAll(rows: Rows, trades: seq<Trade>, i: nat)
    requires i < |trades| && AllInt64Trades(trades) && !Settleable(trades[i])
    ensures Settle(rows, trades).None?
    decreases |trades|
  {
    if QueueAll(trades).Some? {
      if i == 0 {
        BadTradeFails(rows, trades[0]);
      } else {
        var legs := Queue(trades[0]).value;
        match InsertAll(rows, legs)
        case None =>
        case Some(rows') => OneBadTradeFailsAll(rows', trades[1..], i - 1);
      }
      InsertJoin(rows, Queue(trades[0]).value, QueueAll(trades[1..]).value);
    }
  }

  lemma BadTradeFails(rows: Rows, t: Trade)
    requires Int64Trade(t) && !Settleable(t) && Queue(t).Some?
    ensures InsertAll(rows, Queue(t).value).None?
  {
    TradeValueIsExact(t.price, t.quantity);
    var l := Queue(t).value;
    assert l[0].amount <= 0 || l[1].amount <= 0 by {
      if t.quantity > 0 { ProductMonotone(0, t.price, t.quantity); }
    }
    match Insert(rows, l[0])
    case None =>
    case Some(r1) => assert InsertAll(r1, l[1..]).None? by { assert l[1..][0] == l[1]; }
  }

  // --- Sums over a journal ---------------------------------------------------------------------------

  /** What a row adds to a sum. */
  type Weight = (LegKey, int) -> int

  ghost function Sum(rows: Rows, w: Weight): int
    decreases |rows|
  {
    if rows == map[] then 0
    else
      var k :| k in rows;
      w(k, rows[k]) + Sum(rows - {k}, w)
  }

  lemma {:induction false} SumSplits(rows: Rows, w: Weight, k: LegKey)
    requires k in rows
    ensures Sum(rows, w) == w(k, rows[k]) + Sum(rows - {k}, w)
    decreases |rows|
  {
    var c :| c in rows && Sum(rows, w) == w(c, rows[c]) + Sum(rows - {c}, w);
    if c != k {
      SumSplits(rows - {c}, w, k);
      SumSplits(rows - {k}, w, c);
      assert rows - {c} - {k} == rows - {k} - {c};
    }
  }

  lemma SumOfNew(rows: Rows, w: Weight, k: LegKey, v: int)
    requires k !in rows
    ensures Sum(rows[k := v], w) == Sum(rows, w) + w(k, v)
  {
    SumSplits(rows[k := v], w, k);
    assert rows[k := v] - {k} == rows;
  }

  /** The same sum, leg by leg, for one trade. */
  function TradeSum(t: Trade, w: Weight): int {
    var l := LegsOf(t);
    w(l[0].key, l[0].amount) + w(l[1].key, l[1].amount) + w(l[2].key, l[2].amount) + w(l[3].key, l[3].amount)
  }

  lemma SumWith(rows: Rows, t: Trade, w: Weight)
    requires Absent(rows, t)
    ensures Sum(With(rows, t), w) == Sum(rows, w) + TradeSum(t, w)
  {
    var l := LegsOf(t);
    var r1 := rows[l[0].key := l[0].amount];
    var r2 := r1[l[1].key := l[1].amount];
    var r3 := r2[l[2].key := l[2].amount];
    hide Sum;
    SumOfNew(rows, w, l[0].key, l[0].amount);
    SumOfNew(r1, w, l[1].key, l[1].amount);
    SumOfNew(r2, w, l[2].key, l[2].amount);
    SumOfNew(r3, w, l[3].key, l[3].amount);
  }

  ghost function SetSum(trades: set<Trade>, w: Weight): int
    decreases |trades|
  {
    if trades == {} then 0
    else
      var t :| t in trades;
      TradeSum(t, w) + SetSum(trades - {t}, w)
  }

  /** The rows of all trades but one. */
  function Minus(rows: Rows, t: Trade): Rows {
    map k | k in rows && (k.symbol != t.symbol || k.tradeId != t.id) :: rows[k]
  }

  lemma MinusStands(rows: Rows, t: Trade, trades: set<Trade>)
    requires Holds4(rows, trades) && Identified(trades) && t in trades
    ensures Holds4(Minus(rows, t), trades - {t}) && Absent(Minus(rows, t), t)
  {
    hide KeysOf, AmountOf;
    var rows' := Minus(rows, t);
    forall u, k | u in trades - {t} && k in KeysOf(u) ensures k in rows' && rows'[k] == AmountOf(u, k) {
      KeyNames(u, k);
      assert u in trades && (u.symbol != t.symbol || u.id != t.id);
    }
    forall k | k in rows' ensures exists u :: u in trades - {t} && k in KeysOf(u) {
      var u :| u in trades && k in KeysOf(u);
      KeyNames(u, k);
      assert u in trades - {t};
    }
  }

  /** A journal is that of all its trades but one, with that one's legs added. */
  lemma MinusHolds4(rows: Rows, t: Trade, trades: set<Trade>)
    requires Holds4(rows, trades) && Identified(trades) && t in trades
    ensures Holds4(Minus(rows, t), trades - {t}) && Absent(Minus(rows, t), t) && With(Minus(rows, t), t) == rows
  {
    hide Holds4, Identified, LegsOf, With, Minus, Absent;
    MinusStands(rows, t, trades);
    assert trades - {t} + {t} == trades;
    WithHolds4(Minus(rows, t), t, trades - {t});
    JournalIsUnique(With(Minus(rows, t), t), rows, trades);
  }

  /** Any sum over the journal is the sum over its trades. */
  lemma {:induction false} SumOverTrades(rows: Rows, trades: set<Trade>, w: Weight)
    requires Holds4(rows, trades) && Identified(trades)
    ensures Sum(rows, w) == SetSum(trades, w)
    decreases |trades|
  {
    hide Holds4, Identified, TradeSum;
    if trades == {} {
      EmptyJournal(rows);
    } else {
      var t :| t in trades && SetSum(trades, w) == TradeSum(t, w) + SetSum(trades - {t}, w);
      MinusHolds4(rows, t, trades);
      SumWith(Minus(rows, t), t, w);
      IdentifiedSubset(trades - {t}, trades);
      SumOverTrades(Minus(rows, t), trades - {t}, w);
    }
  }

  lemma EmptyJournal(rows: Rows)
    requires Holds4(rows, {})
    ensures rows == map[]
  {
    assert rows.Keys == {};
  }

  // --- Balances and imbalances ---------------------------------------------------------------------------

  function Signed(k: LegKey, amount: int): int {
    if k.direction == DEBIT then amount else -amount
  }

  /** Debits minus credits of one account's cash, or of its shares of one symbol. */
  function NetAt(x: Asset, k: LegKey, v: int): int {
    match x
    case Cash(a) => if k.asset == CASH && k.account == a then Signed(k, v) else 0
    case Shares(a, s) => if k.asset == POSITION && k.account == a && k.symbol == s then Signed(k, v) else 0
  }

  function NetOf(x: Asset): Weight {
    (k: LegKey, v: int) => NetAt(x, k, v)
  }

  /** Debits minus credits of one (symbol, trade, asset) group. */
  function GroupOf(symbol: Symbol, tradeId: SeqID, asset: AssetKind): Weight {
    (k: LegKey, v: int) => if k.symbol == symbol && k.tradeId == tradeId && k.asset == asset then Signed(k, v) else 0
  }

  lemma TradeNet(t: Trade, x: Asset)
    ensures TradeSum(t, NetOf(x)) == Movement(t, x)
  {
  }

  lemma TradeGroup(t: Trade, symbol: Symbol, tradeId: SeqID, asset: AssetKind)
    ensures TradeSum(t, GroupOf(symbol, tradeId, asset)) == 0
  {
  }

  ghost function MovementsOf(trades: set<Trade>, x: Asset): int
    decreases |trades|
  {
    if trades == {} then 0
    else
      var t :| t in trades;
      Movement(t, x) + MovementsOf(trades - {t}, x)
  }

  lemma {:induction false} MovementsSplit(trades: set<Trade>, x: Asset, t: Trade)
    requires t in trades
    ensures MovementsOf(trades, x) == Movement(t, x) + MovementsOf(trades - {t}, x)
    decreases |trades|
  {
    hide Movement;
    var c :| c in trades && MovementsOf(trades, x) == Movement(c, x) + MovementsOf(trades - {c}, x);
    if c != t {
      MovementsSplit(trades - {c}, x, t);
      MovementsSplit(trades - {t}, x, c);
      assert trades - {c} - {t} == trades - {t} - {c};
    }
  }

  lemma {:induction false} SetSumIsMovements(trades: set<Trade>, x: Asset)
    ensures SetSum(trades, NetOf(x)) == MovementsOf(trades, x)
    decreases |trades|
  {
    hide Movement, TradeSum;
    if trades != {} {
      var t :| t in trades && SetSum(trades, NetOf(x)) == TradeSum(t, NetOf(x)) + SetSum(trades - {t}, NetOf(x));
      TradeNet(t, x);
      SetSumIsMovements(trades - {t}, x);
      MovementsSplit(trades, x, t);
    }
  }

  lemma {:induction false} SetSumOfZeroes(trades: set<Trade>, w: Weight)
    requires forall t :: t in trades ==> TradeSum(t, w) == 0
    ensures SetSum(trades, w) == 0
    decreases |trades|
  {
    hide TradeSum;
    if trades != {} {
      var t :| t in trades && SetSum(trades, w) == TradeSum(t, w) + SetSum(trades - {t}, w);
      SetSumOfZeroes(trades - {t}, w);
    }
  }

  /** The journal's balances are the movements of its trades, each counted once. */
  lemma BalancesAreMovements(rows: Rows, trades: set<Trade>, x: Asset)
    requires Holds4(rows, trades) && Identified(trades)
    ensures Sum(rows, NetOf(x)) == MovementsOf(trades, x)
  {
    SumOverTrades(rows, trades, NetOf(x));
    SetSumIsMovements(trades, x);
  }

  /** Debits equal credits in every group, self-trades included: the imbalance check finds nothing. */
  lemma NoImbalance(rows: Rows, trades: set<Trade>, symbol: Symbol, tradeId: SeqID, asset: AssetKind)
    requires Holds4(rows, trades) && Identified(trades)
    ensures Sum(rows, GroupOf(symbol, tradeId, asset)) == 0
  {
    var w := GroupOf(symbol, tradeId, asset);
    SumOverTrades(rows, trades, w);
    forall t | t in trades ensures TradeSum(t, w) == 0 { TradeGroup(t, symbol, tradeId, asset); }
    SetSumOfZeroes(trades, w);
  }

  /** Debits minus credits of all cash, or of all shares of one symbol. */
  function AllCash(): Weight {
    (k: LegKey, v: int) => if k.asset == CASH then Signed(k, v) else 0
  }

  function AllShares(symbol: Symbol): Weight {
    (k: LegKey, v: int) => if k.asset == POSITION && k.symbol == symbol then Signed(k, v) else 0
  }

  /** The journal creates no cash and no shares of any symbol. */
  lemma JournalConserves(rows: Rows, trades: set<Trade>, symbol: Symbol)
    requires Holds4(rows, trades) && Identified(trades)
    ensures Sum(rows, AllCash()) == 0 && Sum(rows, AllShares(symbol)) == 0
  {
    hide Sum, SetSum, Holds4, Identified;
    SumOverTrades(rows, trades, AllCash());
    SumOverTrades(rows, trades, AllShares(symbol));
    assert forall t :: t in trades ==> TradeSum(t, AllCash()) == 0;
    assert forall t :: t in trades ==> TradeSum(t, AllShares(symbol)) == 0;
    SetSumOfZeroes(trades, AllCash());
    SetSumOfZeroes(trades, AllShares(symbol));
  }

  /** Rows of one trade. */
  function EntriesOf(rows: Rows, symbol: Symbol, tradeId: SeqID): set<LegKey> {
    set k | k in rows && k.symbol == symbol && k.tradeId == tradeId
  }

  lemma EntriesAreLegs(rows: Rows, trades: set<Trade>, t: Trade)
    requires Holds4(rows, trades) && Identified(trades) && t in trades
    ensures EntriesOf(rows, t.symbol, t.id) == KeysOf(t)
  {
    hide KeysOf, AmountOf;
    forall k | k in KeysOf(t) ensures k in EntriesOf(rows, t.symbol, t.id) { KeyNames(t, k); }
    forall k | k in EntriesOf(rows, t.symbol, t.id) ensures k in KeysOf(t) {
      var u :| u in trades && k in KeysOf(u);
      KeyNames(u, k);
      assert u == t;
    }
  }

  /** A settled trade has exactly four rows, even when one account is on both sides. */
  lemma FourRowsPerTrade(rows: Rows, trades: set<Trade>, t: Trade)
    requires Holds4(rows, trades) && Identified(trades) && t in trades
    ensures |EntriesOf(rows, t.symbol, t.id)| == 4
  {
    EntriesAreLegs(rows, trades, t);
    hide Holds4, Identified, EntriesOf;
    assert |KeysOf(t)| == 4;
  }

  /** A list of different trades moves what the set of them moves. */
  lemma {:induction false} MovementsOfList(trades: seq<Trade>, x: Asset)
    requires forall i, j :: 0 <= i < j < |trades| ==> trades[i] != trades[j]
    ensures MovementsOf(SetOf(trades), x) == Movements(trades, x)
  {
    hide Movement;
    if trades != [] {
      var t, rest := trades[0], trades[1..];
      MovementsOfList(rest, x);
      assert t in SetOf(trades);
      assert t !in SetOf(rest);
      assert SetOf(trades) - {t} == SetOf(rest);
      MovementsSplit(SetOf(trades), x, t);
    }
  }

  lemma NothingSettled()
    ensures Holds4(map[], {})
  {
  }
}
