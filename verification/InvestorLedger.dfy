/** The unitised investor pool: each store transaction is one atomic step on its tables. */
module InvestorLedger {
  import opened Common
  import opened MapSums

  /** Only `Active` investors count towards the pool; statuses are set outside this code. */
  datatype Status = Active | Frozen | Closed

  datatype Investor = Investor(totalDeposited: real, totalWithdrawn: real, poolUnits: real, status: Status)

  datatype Transaction = Transaction(investor: nat, amount: real, units: real, nav: real)

  datatype Refusal = NotFound | InsufficientBalance | InsufficientLiquidity | InvalidAmount | NumericOverflow

  datatype Book = Book(investors: map<nat, Investor>, transactions: seq<Transaction>)

  const EMPTY: Book := Book(map[], [])

  ghost function ActiveUnits(investors: map<nat, Investor>): map<nat, real> {
    map i | i in investors :: if investors[i].status.Active? then investors[i].poolUnits else 0.0
  }

  /** `SUM(pool_units) WHERE status = 'ACTIVE'`. */
  ghost function TotalUnits(b: Book): real {
    MapSum(ActiveUnits(b.investors))
  }

  /** NAV per unit, rounded to six places; one when the pool is empty or worthless. */
  function CalculateNAV(equity: real, totalUnits: real): real {
    if totalUnits <= 0.0 || equity <= 0.0 then 1.0 else RoundTo(equity / totalUnits, 1000000)
  }

  datatype Op =
    | Create(id: nat, deposit: real, equity: real)
    | Deposit(id: nat, amount: real, equity: real)
    | Withdraw(id: nat, amount: real, equity: real, tier1Cash: real)
    | SetStatus(id: nat, status: Status)

  /**
   * One operation. A NAV that rounds to zero turns the division into an infinity, which the
   * numeric columns reject on deposit and which exceeds every balance on withdrawal.
   */
  ghost function Step(b: Book, op: Op): (Book, Option<Refusal>) {
    match op
    case Create(id, deposit, equity) =>
      var nav := CalculateNAV(equity, TotalUnits(b));
      if id in b.investors then (b, None)
      else if deposit <= 0.0 then (b.(investors := b.investors[id := Investor(deposit, 0.0, 0.0, Active)]), None)
      else if nav == 0.0 then (b, Some(NumericOverflow))
      else (Book(b.investors[id := Investor(deposit, 0.0, deposit / nav, Active)],
                 b.transactions + [Transaction(id, deposit, deposit / nav, nav)]), None)
    case Deposit(id, amount, equity) =>
      if amount <= 0.0 then (b, Some(InvalidAmount))
      else if id !in b.investors then (b, Some(NotFound))
      else
        var nav := CalculateNAV(equity, TotalUnits(b));
        if nav == 0.0 then (b, Some(NumericOverflow))
        else
          var v := b.investors[id];
          (Book(b.investors[id := v.(totalDeposited := v.totalDeposited + amount,
                                     poolUnits := v.poolUnits + amount / nav)],
                b.transactions + [Transaction(id, amount, amount / nav, nav)]), None)
    case Withdraw(id, amount, equity, tier1Cash) =>
      if amount <= 0.0 then (b, Some(InvalidAmount))
      else if amount > tier1Cash then (b, Some(InsufficientLiquidity))
      else if id !in b.investors then (b, Some(NotFound))
      else
        var nav := CalculateNAV(equity, TotalUnits(b));
        var v := b.investors[id];
        if nav == 0.0 || v.poolUnits < amount / nav then (b, Some(InsufficientBalance))
        else
          (Book(b.investors[id := v.(totalWithdrawn := v.totalWithdrawn + amount,
                                     poolUnits := Max(0.0, v.poolUnits - amount / nav))],
                b.transactions + [Transaction(id, amount, -(amount / nav), nav)]), None)
    case SetStatus(id, status) =>
      if id in b.investors then (b.(investors := b.investors[id := b.investors[id].(status := status)]), None)
        else (b, Some(NotFound))
  }

  ghost function Run(b: Book, ops: seq<Op>): Book
    decreases |ops|
  {
    if ops == [] then b else Run(Step(b, ops[0]).0, ops[1..])
  }

  // ------------------------------------------------------ the store's methods

  class Store {
    var investors: map<nat, Investor>
    var transactions: seq<Transaction>
    var nextId: nat

    ghost function Tables(): Book
      reads this
    {
      Book(investors, transactions)
    }

    ghost predicate Valid()
      reads this
    {
      forall i | i in investors :: i < nextId
    }

    constructor ()
      ensures Valid() && Tables() == EMPTY
    {
      investors, transactions, nextId := map[], [], 0;
    }

    method SumActiveUnits() returns (total: real)
      ensures total == TotalUnits(Tables())
    {
      total := 0.0;
      var left := investors.Keys;
      ghost var rest := ActiveUnits(investors);
      while left != {}
        invariant rest.Keys == left && left <= investors.Keys
        invariant forall i | i in left :: rest[i] == ActiveUnits(investors)[i]
        invariant total + MapSum(rest) == TotalUnits(Tables())
        decreases left
      {
        var i :| i in left;
        MapSumRemove(rest, i);
        if investors[i].status.Active? {
          total := total + investors[i].poolUnits;
        }
        left, rest := left - {i}, rest - {i};
      }
    }

    method CreateInvestor(initialDeposit: real, masterPortfolioEquity: real) returns (id: nat, error: Option<Refusal>)
      requires Valid()
      modifies this
      ensures Valid() && id == old(nextId)
      ensures (Tables(), error) == Step(old(Tables()), Create(id, initialDeposit, masterPortfolioEquity))
    {
      id := nextId;
      var totalPoolUnits := SumActiveUnits();
      var nav := CalculateNAV(masterPortfolioEquity, totalPoolUnits);
      var unitsIssued := 0.0;
      if initialDeposit > 0.0 {
        if nav == 0.0 {
          return id, Some(NumericOverflow);
        }
        unitsIssued := initialDeposit / nav;
      }
      investors := investors[id := Investor(initialDeposit, 0.0, unitsIssued, Active)];
      nextId := nextId + 1;
      if initialDeposit > 0.0 {
        transactions := transactions + [Transaction(id, initialDeposit, unitsIssued, nav)];
      }
      error := None;
    }

    method RecordDeposit(id: nat, amount: real, masterPortfolioEquity: real) returns (error: Option<Refusal>)
      requires Valid()
      modifies this
      ensures Valid()
      ensures (Tables(), error) == Step(old(Tables()), Deposit(id, amount, masterPortfolioEquity))
    {
      if amount <= 0.0 {
        return Some(InvalidAmount);
      }
      if id !in investors {
        return Some(NotFound);
      }
      var totalPoolUnits := SumActiveUnits();
      var nav := CalculateNAV(masterPortfolioEquity, totalPoolUnits);
      if nav == 0.0 {
        return Some(NumericOverflow);
      }
      var unitsIssued := amount / nav;
      var v := investors[id];
      transactions := transactions + [Transaction(id, amount, unitsIssued, nav)];
      investors := investors[id := v.(totalDeposited := v.totalDeposited + amount,
                                      poolUnits := v.poolUnits + unitsIssued)];
      error := None;
    }

    method RecordWithdrawal(id: nat, amount: real, masterPortfolioEquity: real, tier1CashReserve: real)
      returns (error: Option<Refusal>)
      requires Valid()
      modifies this
      ensures Valid()
      ensures (Tables(), error) == Step(old(Tables()), Withdraw(id, amount, masterPortfolioEquity, tier1CashReserve))
    {
      if amount <= 0.0 {
        return Some(InvalidAmount);
      }
      if amount > tier1CashReserve {
        return Some(InsufficientLiquidity);
      }
      if id !in investors {
        return Some(NotFound);
      }
      var totalPoolUnits := SumActiveUnits();
      var nav := CalculateNAV(masterPortfolioEquity, totalPoolUnits);
      if nav == 0.0 {
        return Some(InsufficientBalance);
      }
      var unitsToRedeem := amount / nav;
      var v := investors[id];
      if v.poolUnits < unitsToRedeem {
        return Some(InsufficientBalance);
      }
      transactions := transactions + [Transaction(id, amount, -unitsToRedeem, nav)];
      investors := investors[id := v.(totalWithdrawn := v.totalWithdrawn + amount,
                                      poolUnits := Max(0.0, v.poolUnits - unitsToRedeem))];
      error := None;
    }
  }

  // ------------------------------------------------------------ over any run

  /** Units of one investor according to the transaction table. */
  function UnitsOf(txs: seq<Transaction>, id: nat): real
    decreases |txs|
  {
    if txs == [] then 0.0
    else UnitsOf(txs[..|txs| - 1], id) + if txs[|txs| - 1].investor == id then txs[|txs| - 1].units else 0.0
  }

  ghost predicate Reconciled(b: Book) {
    && (forall i | i in b.investors ::
        b.investors[i].poolUnits >= 0.0 && b.investors[i].poolUnits == UnitsOf(b.transactions, i))
    && (forall k | 0 <= k < |b.transactions| ::
        b.transactions[k].investor in b.investors && b.transactions[k].nav > 0.0)
  }

  lemma NAVNonNegative(equity: real, units: real)
    ensures CalculateNAV(equity, units) >= 0.0
  {
    if units > 0.0 && equity > 0.0 {
      assert equity / units > 0.0;
      var y := equity / units * 1000000.0;
      assert y > 0.0 && RoundAway(y) >= 0;
      assert 1000000 as real == 1000000.0;
    }
  }

  lemma {:induction false} NoTransactionsNoUnits(txs: seq<Transaction>, id: nat)
    requires forall k | 0 <= k < |txs| :: txs[k].investor != id
    ensures UnitsOf(txs, id) == 0.0
    decreases |txs|
  {
    if txs != [] {
      NoTransactionsNoUnits(txs[..|txs| - 1], id);
    }
  }

  lemma Record(txs: seq<Transaction>, t: Transaction, id: nat)
    ensures UnitsOf(txs + [t], id) == UnitsOf(txs, id) + if t.investor == id then t.units else 0.0
  {
    assert (txs + [t])[..|txs|] == txs;
  }

  /** Posting one transaction to one investor, whose balance it moves by its units and no further down than zero. */
  lemma Posting(b: Book, id: nat, t: Transaction, v: Investor)
    requires Reconciled(b) && t.investor == id && t.nav > 0.0
    requires id !in b.investors ==> v.poolUnits == t.units >= 0.0
    requires id in b.investors ==> v.poolUnits == b.investors[id].poolUnits + t.units >= 0.0
    ensures Reconciled(Book(b.investors[id := v], b.transactions + [t]))
  {
    if id !in b.investors {
      NoTransactionsNoUnits(b.transactions, id);
    }
    hide UnitsOf;
    var b' := Book(b.investors[id := v], b.transactions + [t]);
    forall i | i in b'.investors
      ensures b'.investors[i].poolUnits >= 0.0 && b'.investors[i].poolUnits == UnitsOf(b'.transactions, i)
    {
      Record(b.transactions, t, i);
    }
    forall k | 0 <= k < |b'.transactions|
      ensures b'.transactions[k].investor in b'.investors && b'.transactions[k].nav > 0.0
    {
    }
  }

  lemma StepReconciled(b: Book, op: Op)
    requires Reconciled(b)
    ensures Reconciled(Step(b, op).0)
  {
    if !op.SetStatus? {
      var nav := CalculateNAV(op.equity, TotalUnits(b));
      NAVNonNegative(op.equity, TotalUnits(b));
      match op
      case Create(id, deposit, equity) =>
        if id !in b.investors && deposit > 0.0 && nav > 0.0 {
          assert deposit / nav > 0.0;
          Posting(b, id, Transaction(id, deposit, deposit / nav, nav), Investor(deposit, 0.0, deposit / nav, Active));
        } else if id !in b.investors {
          NoTransactionsNoUnits(b.transactions, id);
        }
      case Deposit(id, amount, equity) =>
        if Step(b, op).1.None? {
          assert amount / nav > 0.0;
          Posting(b, id, Transaction(id, amount, amount / nav, nav), Step(b, op).0.investors[id]);
        }
      case Withdraw(id, amount, equity, tier1Cash) =>
        if Step(b, op).1.None? {
          Posting(b, id, Transaction(id, amount, -(amount / nav), nav), Step(b, op).0.investors[id]);
        }
    }
  }

  /**
   * Over any run every investor's units equal the signed sum of its transactions and are never
   * negative, so the clamp to zero on withdrawal never takes anything away.
   */
  lemma {:induction false} UnitsMatchTransactions(b: Book, ops: seq<Op>)
    requires Reconciled(b)
    ensures Reconciled(Run(b, ops))
    decreases |ops|
  {
    if ops != [] {
      StepReconciled(b, ops[0]);
      UnitsMatchTransactions(Step(b, ops[0]).0, ops[1..]);
    }
  }

  // --------------------------------------------------------- what NAV is worth

  /** The rounded NAV is within half a millionth of the exact one. */
  lemma RoundedNAV(equity: real, units: real)
    requires equity > 0.0 && units > 0.0
    ensures Abs(equity / units - CalculateNAV(equity, units)) <= 0.0000005
  {
    RoundToIsNear(equity / units, 1000000);
    assert 0.5 / 1000000 as real == 0.0000005;
  }

  lemma MeanAtLeast(lo: real, x: real, u: real, n: real, v: real)
    requires u > 0.0 && v > 0.0 && lo <= x && lo <= n
    ensures lo <= (x * u + n * v) / (u + v)
  {
    MulMonotone(lo, x, u);
    MulMonotone(lo, n, v);
    Distributes(lo, u, v);
    DivMonotone(lo * (u + v), x * u + n * v, u + v);
    MulDivCancel(lo, u + v);
  }

  lemma Distributes(x: real, u: real, v: real)
    ensures x * (u + v) == x * u + x * v
  {
  }

  lemma MeanAtMost(hi: real, x: real, u: real, n: real, v: real)
    requires u > 0.0 && v > 0.0 && x <= hi && n <= hi
    ensures (x * u + n * v) / (u + v) <= hi
  {
    MulMonotone(x, hi, u);
    MulMonotone(n, hi, v);
    Distributes(hi, u, v);
    DivMonotone(x * u + n * v, hi * (u + v), u + v);
    MulDivCancel(hi, u + v);
  }

  /** The pool's units after a deposit into an active investor. */
  lemma DepositUnits(b: Book, id: nat, amount: real, equity: real)
    requires Step(b, Deposit(id, amount, equity)).1.None?
    ensures CalculateNAV(equity, TotalUnits(b)) != 0.0
    ensures TotalUnits(Step(b, Deposit(id, amount, equity)).0) ==
            TotalUnits(b) + if b.investors[id].status.Active? then amount / CalculateNAV(equity, TotalUnits(b)) else 0.0
  {
    var b' := Step(b, Deposit(id, amount, equity)).0;
    var u := ActiveUnits(b'.investors)[id];
    assert ActiveUnits(b'.investors) == ActiveUnits(b.investors)[id := u];
    MapSumInsert(ActiveUnits(b.investors), id, u);
  }

  /**
   * When the pool's equity rises by the deposit, the exact NAV moves to somewhere between the old
   * exact NAV and the rounded one the units were priced at - by at most half a millionth.
   */
  lemma DepositKeepsNAV(b: Book, id: nat, amount: real, equity: real)
    requires equity > 0.0 && TotalUnits(b) > 0.0 && Reconciled(b)
    requires Step(b, Deposit(id, amount, equity)).1.None? && b.investors[id].status.Active?
    ensures var was, priced := equity / TotalUnits(b), CalculateNAV(equity, TotalUnits(b));
            var units := TotalUnits(Step(b, Deposit(id, amount, equity)).0);
            && units > 0.0
            && Min(was, priced) <= (equity + amount) / units <= Max(was, priced)
            && Abs((equity + amount) / units - was) <= 0.0000005
  {
    var u, nav := TotalUnits(b), CalculateNAV(equity, TotalUnits(b));
    NAVNonNegative(equity, u);
    DepositUnits(b, id, amount, equity);
    RoundedNAV(equity, u);
    NewNAV(equity, u, amount, nav);
  }

  /** The first deposit of a new investor buys its units the same way, and moves the exact NAV no further. */
  lemma CreateKeepsNAV(b: Book, id: nat, deposit: real, equity: real)
    requires equity > 0.0 && TotalUnits(b) > 0.0 && Reconciled(b)
    requires id !in b.investors && deposit > 0.0 && Step(b, Create(id, deposit, equity)).1.None?
    ensures var was, priced := equity / TotalUnits(b), CalculateNAV(equity, TotalUnits(b));
            var units := TotalUnits(Step(b, Create(id, deposit, equity)).0);
            && units > 0.0
            && Min(was, priced) <= (equity + deposit) / units <= Max(was, priced)
            && Abs((equity + deposit) / units - was) <= 0.0000005
  {
    var u, nav := TotalUnits(b), CalculateNAV(equity, TotalUnits(b));
    NAVNonNegative(equity, u);
    var b' := Step(b, Create(id, deposit, equity)).0;
    assert ActiveUnits(b'.investors) == ActiveUnits(b.investors)[id := deposit / nav];
    MapSumInsert(ActiveUnits(b.investors), id, deposit / nav);
    hide CalculateNAV;
    RoundedNAV(equity, u);
    NewNAV(equity, u, deposit, nav);
  }

  lemma NewNAV(equity: real, u: real, amount: real, nav: real)
    requires equity > 0.0 && u > 0.0 && amount > 0.0 && nav > 0.0
    ensures u + amount / nav > 0.0
    ensures Min(equity / u, nav) <= (equity + amount) / (u + amount / nav) <= Max(equity / u, nav)
  {
    var v := amount / nav;
    assert v > 0.0 && nav * v == amount;
    DivMulCancel(equity, u);
    MeanAtLeast(Min(equity / u, nav), equity / u, u, nav, v);
    MeanAtMost(Max(equity / u, nav), equity / u, u, nav, v);
  }

  /** Units issued to an investor that is not active never enter the total: the NAV jumps by the whole deposit. */
  lemma FrozenDepositJumpsNAV(b: Book, id: nat, amount: real, equity: real)
    requires equity > 0.0 && TotalUnits(b) > 0.0
    requires Step(b, Deposit(id, amount, equity)).1.None? && !b.investors[id].status.Active?
    ensures var after := Step(b, Deposit(id, amount, equity)).0;
            TotalUnits(after) == TotalUnits(b) && (equity + amount) / TotalUnits(after) > equity / TotalUnits(b)
  {
    DepositUnits(b, id, amount, equity);
    var u := TotalUnits(b);
    assert (equity + amount) / u == equity / u + amount / u;
    assert amount / u > 0.0;
  }

  /** So a deposit leaves the exact NAV where it was, up to the rounding of a unit price, in exactly these cases. */
  lemma DepositKeepsNAVIff(b: Book, id: nat, amount: real, equity: real)
    requires equity > 0.0 && TotalUnits(b) > 0.0 && Reconciled(b)
    requires Step(b, Deposit(id, amount, equity)).1.None?
    ensures var after := Step(b, Deposit(id, amount, equity)).0;
            && TotalUnits(after) > 0.0
            && (Abs((equity + amount) / TotalUnits(after) - equity / TotalUnits(b)) <= 0.0000005 <==>
                  b.investors[id].status.Active? || amount / TotalUnits(b) <= 0.0000005)
  {
    if b.investors[id].status.Active? {
      DepositKeepsNAV(b, id, amount, equity);
    } else {
      FrozenDepositJumpsNAV(b, id, amount, equity);
      SumOverUnits(equity, amount, TotalUnits(b));
    }
    hide *;
  }

  lemma SumOverUnits(equity: real, amount: real, u: real)
    requires u > 0.0 && amount > 0.0
    ensures Abs((equity + amount) / u - equity / u) == amount / u
  {
    assert (equity + amount) / u == equity / u + amount / u;
    assert amount / u > 0.0;
  }

  /** The exact NAV moves by the rounding gap, scaled by the units redeemed over those that stay. */
  predicate ShiftedByGap(equity: real, amount: real, nav: real, before: real, after: real)
    requires nav != 0.0 && before != 0.0 && after != 0.0
  {
    (equity - amount) / after - equity / before == (amount / nav) * (equity / before - nav) / after
  }

  lemma WithdrawalShift(equity: real, u: real, amount: real, nav: real)
    requires u > 0.0 && nav > 0.0 && amount > 0.0 && u > amount / nav
    ensures ShiftedByGap(equity, amount, nav, u, u - amount / nav)
  {
    var v := amount / nav;
    var rest, x := u - v, equity / u;
    assert nav * v == amount && x * u == equity;
    assert equity - amount == x * rest + v * (x - nav);
    assert (x * rest + v * (x - nav)) / rest == x * rest / rest + v * (x - nav) / rest;
    MulDivCancel(x, rest);
  }

  /** With no unit redeemed the gap formula cannot hold: the money paid out is missing. */
  lemma NoShiftWithoutUnits(equity: real, u: real, amount: real, nav: real)
    requires equity > 0.0 && u > 0.0 && nav > 0.0 && amount > 0.0
    ensures !ShiftedByGap(equity, amount, nav, u, u)
    ensures (equity - amount) / u == equity / u - amount / u < equity / u
  {
    var v, x := amount / nav, equity / u;
    assert nav * v == amount && v > 0.0 && x > 0.0;
    assert (equity - amount) / u == x - amount / u;
    SplitGap(v, x, nav, u);
    assert v * x > 0.0;
    assert v * x / u > 0.0;
    assert amount / u > 0.0;
  }

  lemma SplitGap(v: real, x: real, nav: real, u: real)
    requires u > 0.0
    ensures v * (x - nav) / u == v * x / u - nav * v / u
  {
    assert v * (x - nav) == v * x - nav * v;
    assert (v * x - nav * v) / u == v * x / u - nav * v / u;
  }

  /**
   * What a successful withdrawal that leaves units does to the exact NAV: it shifts it by the rounding
   * gap exactly when the investor is ACTIVE. Any other is paid all the same, from units the total does
   * not hold, and the NAV of the others falls by the whole amount.
   */
  lemma WithdrawalNAV(b: Book, id: nat, amount: real, equity: real, tier1Cash: real)
    requires Reconciled(b) && equity > 0.0 && TotalUnits(b) > 0.0
    requires Step(b, Withdraw(id, amount, equity, tier1Cash)).1.None?
    requires TotalUnits(Step(b, Withdraw(id, amount, equity, tier1Cash)).0) > 0.0
    ensures id in b.investors
    ensures var u, n := TotalUnits(b), CalculateNAV(equity, TotalUnits(b));
            var u' := TotalUnits(Step(b, Withdraw(id, amount, equity, tier1Cash)).0);
            && n > 0.0 && Abs(equity / u - n) <= 0.0000005
            && u' == (if b.investors[id].status.Active? then u - amount / n else u)
            && (ShiftedByGap(equity, amount, n, u, u') <==> b.investors[id].status.Active?)
            && (!b.investors[id].status.Active? ==> (equity - amount) / u' == equity / u - amount / u < equity / u)
  {
    WithdrawalUnits(b, id, amount, equity, tier1Cash);
    hide *;
    var u, n := TotalUnits(b), CalculateNAV(equity, TotalUnits(b));
    RoundedNAV(equity, u);
    if b.investors[id].status.Active? {
      WithdrawalShift(equity, u, amount, n);
    } else {
      NoShiftWithoutUnits(equity, u, amount, n);
    }
  }

  lemma WithdrawalUnits(b: Book, id: nat, amount: real, equity: real, tier1Cash: real)
    requires Reconciled(b)
    requires Step(b, Withdraw(id, amount, equity, tier1Cash)).1.None?
    ensures id in b.investors && CalculateNAV(equity, TotalUnits(b)) > 0.0 && amount > 0.0
    ensures TotalUnits(Step(b, Withdraw(id, amount, equity, tier1Cash)).0) == TotalUnits(b) -
            if b.investors[id].status.Active? then amount / CalculateNAV(equity, TotalUnits(b)) else 0.0
  {
    hide CalculateNAV;
    var b' := Step(b, Withdraw(id, amount, equity, tier1Cash)).0;
    NAVNonNegative(equity, TotalUnits(b));
    var left := ActiveUnits(b'.investors)[id];
    assert ActiveUnits(b'.investors) == ActiveUnits(b.investors)[id := left];
    MapSumInsert(ActiveUnits(b.investors), id, left);
  }

  // ------------------------------------------------------------ in plain terms

  /** A NAV is a whole number of millionths, one for a pool without units or worth. */
  lemma NAVIs(equity: real, units: real) returns (millionths: int)
    ensures units <= 0.0 || equity <= 0.0 ==> CalculateNAV(equity, units) == 1.0
    ensures CalculateNAV(equity, units) * 1000000.0 == millionths as real
  {
    if units <= 0.0 || equity <= 0.0 {
      millionths := 1000000;
    } else {
      millionths := GridIndex(equity / units, 1000000);
      assert 1000000 as real == 1000000.0;
      DivMulCancel(millionths as real, 1000000.0);
    }
  }

  /** Nothing but one investor changes, and not their status. */
  predicate OnlyChanges(b: Book, b': Book, id: nat)
    requires id in b.investors && id in b'.investors
  {
    b'.investors == b.investors[id := b'.investors[id]] && b'.investors[id].status == b.investors[id].status
  }

  /** One transaction is recorded, whose units are worth `value` at `nav`. */
  predicate Appends(b: Book, b': Book, id: nat, amount: real, value: real, nav: real) {
    && |b'.transactions| == |b.transactions| + 1 && b'.transactions[..|b.transactions|] == b.transactions
    && var x := b'.transactions[|b.transactions|];
       x.investor == id && x.amount == amount && x.nav == nav && x.units * nav == value
  }

  /** A withdrawal goes through exactly when the amount is positive, the cash reserve covers it, and so do the units. */
  lemma WithdrawalIff(b: Book, id: nat, amount: real, equity: real, tier1Cash: real)
    requires Reconciled(b)
    ensures var nav := CalculateNAV(equity, TotalUnits(b));
            var (b', refusal) := Step(b, Withdraw(id, amount, equity, tier1Cash));
            && (refusal == Some(InvalidAmount) <==> amount <= 0.0)
            && (refusal == Some(InsufficientLiquidity) <==> amount > 0.0 && amount > tier1Cash)
            && (refusal == Some(NotFound) <==> 0.0 < amount <= tier1Cash && id !in b.investors)
            && (refusal == Some(InsufficientBalance) <==>
                  0.0 < amount <= tier1Cash && id in b.investors
                    && (nav == 0.0 || b.investors[id].poolUnits * nav < amount))
            && (refusal.Some? ==> b' == b)
            && (refusal.None? ==>
                  && id in b.investors && id in b'.investors
                  && b'.investors[id].totalWithdrawn == b.investors[id].totalWithdrawn + amount
                  && b'.investors[id].totalDeposited == b.investors[id].totalDeposited
                  && b'.investors[id].poolUnits * nav == b.investors[id].poolUnits * nav - amount
                  && OnlyChanges(b, b', id) && Appends(b, b', id, amount, -amount, nav))
  {
    var nav := CalculateNAV(equity, TotalUnits(b));
    NAVNonNegative(equity, TotalUnits(b));
    if id in b.investors && nav != 0.0 {
      UnitsWorth(b.investors[id].poolUnits, nav, amount);
    }
    hide CalculateNAV;
  }

  lemma UnitsWorth(units: real, nav: real, amount: real)
    requires nav > 0.0
    ensures units < amount / nav <==> units * nav < amount
    ensures (units - amount / nav) * nav == units * nav - amount
  {
    var v := amount / nav;
    DivMulCancel(amount, nav);
    if units < v { assert (v - units) * nav > 0.0; } else { MulMonotone(v, units, nav); }
  }

  /** A deposit goes through exactly for a positive amount to a known investor at a NAV that is not zero. */
  lemma DepositIff(b: Book, id: nat, amount: real, equity: real)
    ensures var nav, (b', refusal) := CalculateNAV(equity, TotalUnits(b)), Step(b, Deposit(id, amount, equity));
            && (refusal == Some(InvalidAmount) <==> amount <= 0.0)
            && (refusal == Some(NotFound) <==> amount > 0.0 && id !in b.investors)
            && (refusal == Some(NumericOverflow) <==> amount > 0.0 && id in b.investors && nav == 0.0)
            && (refusal.Some? ==> b' == b)
            && (refusal.None? ==>
                  && id in b.investors && id in b'.investors
                  && b'.investors[id].totalDeposited == b.investors[id].totalDeposited + amount
                  && b'.investors[id].totalWithdrawn == b.investors[id].totalWithdrawn
                  && (b'.investors[id].poolUnits - b.investors[id].poolUnits) * nav == amount
                  && OnlyChanges(b, b', id) && Appends(b, b', id, amount, amount, nav))
  {
    var nav := CalculateNAV(equity, TotalUnits(b));
    if nav != 0.0 {
      DivMulCancel(amount, nav);
    }
    hide CalculateNAV;
  }

  /** A new investor starts with what is put in, at the NAV of the others, and with a transaction if it is anything. */
  lemma CreateIff(b: Book, id: nat, deposit: real, equity: real)
    requires id !in b.investors
    ensures var nav, (b', refusal) := CalculateNAV(equity, TotalUnits(b)), Step(b, Create(id, deposit, equity));
            && (refusal == Some(NumericOverflow) <==> deposit > 0.0 && nav == 0.0) && (refusal.Some? ==> b' == b)
            && (refusal.None? <==> deposit <= 0.0 || nav != 0.0)
            && (refusal.None? ==>
                  && id in b'.investors && b'.investors == b.investors[id := b'.investors[id]]
                  && var v := b'.investors[id];
                     && v.totalDeposited == deposit && v.totalWithdrawn == 0.0 && v.status.Active?
                     && (if deposit > 0.0 then v.poolUnits * nav == deposit && Appends(b, b', id, deposit, deposit, nav)
                         else v.poolUnits == 0.0 && b'.transactions == b.transactions))
  {
    var nav := CalculateNAV(equity, TotalUnits(b));
    if nav != 0.0 {
      DivMulCancel(deposit, nav);
    }
    hide CalculateNAV;
  }
}
