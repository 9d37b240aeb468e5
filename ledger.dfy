/**
 * The paper-trading ledger of the dashboard: a cash balance and a portfolio
 * dictionary from asset id to holding. Buying debits the notional and
 * merges into the holding at a weighted-average price; selling credits the
 * principal plus the leveraged, direction-signed profit; the account is
 * marked to market against the price feed.
 */
module Ledger {
  import opened Wrappers
  import opened Types
  import Collections

  /** The balance of an account that has never traded. */
  const InitialBalance: real := 10000.0

  /**
   * The cash balance and the portfolio dictionary. The map holds the
   * portfolio's own entries only: nothing is inherited, as it would be from
   * `Object.prototype` for a plain JavaScript object.
   */
  datatype Account = Account(balance: real, portfolio: map<string, Holding>)

  datatype TradeOutcome = Executed | InvalidAmount | InsufficientFunds | NoPosition

  datatype Trade = Trade(outcome: TradeOutcome, account: Account)

  /** Every stored holding has a positive amount. */
  ghost predicate PositiveHoldings(p: map<string, Holding>) {
    forall id :: id in p ==> p[id].amount > 0.0
  }

  /**
   * The price move in the holding's favour: up for a long, down for a
   * short. It is zero exactly at the entry price.
   */
  function PriceChange(h: Holding, currentPrice: real): (r: real)
    ensures r == 0.0 <==> currentPrice == h.averagePrice
    ensures !h.isShort ==> (r > 0.0 <==> currentPrice > h.averagePrice)
    ensures h.isShort ==> (r > 0.0 <==> currentPrice < h.averagePrice)
  {
    if h.isShort then h.averagePrice - currentPrice else currentPrice - h.averagePrice
  }

  /**
   * The leveraged profit on `amount` units of `h` at `currentPrice`: none
   * at the entry price or on no units; on a positive amount at a positive
   * leverage, a gain exactly when the price moved in the holding's favour
   * and a loss exactly when it moved against it.
   */
  function Profit(h: Holding, currentPrice: real, amount: real): (r: real)
    ensures currentPrice == h.averagePrice || amount == 0.0 ==> r == 0.0
    ensures amount > 0.0 && h.leverage > 0 ==> (r > 0.0 <==> PriceChange(h, currentPrice) > 0.0)
    ensures amount > 0.0 && h.leverage > 0 ==> (r < 0.0 <==> PriceChange(h, currentPrice) < 0.0)
  {
    var d := PriceChange(h, currentPrice);
    var q := amount * (h.leverage as real);
    assert d * amount * (h.leverage as real) == d * q;
    SignOfProduct(d, q);
    d * amount * (h.leverage as real)
  }

  /** With a positive factor, the product has the other factor's sign. */
  lemma SignOfProduct(d: real, q: real)
    ensures q > 0.0 ==> (d * q > 0.0 <==> d > 0.0) && (d * q < 0.0 <==> d < 0.0)
    ensures d == 0.0 || q == 0.0 ==> d * q == 0.0
  {
  }

  /**
   * What closing `amount` units of `h` at `currentPrice` pays back:
   * principal plus profit, so exactly the principal at the entry price, and
   * on a positive amount at a positive leverage more than the principal
   * exactly when the price moved in the holding's favour.
   */
  function Proceeds(h: Holding, currentPrice: real, amount: real): (r: real)
    ensures currentPrice == h.averagePrice ==> r == amount * h.averagePrice
    ensures amount > 0.0 && h.leverage > 0 ==> (r > amount * h.averagePrice <==> PriceChange(h, currentPrice) > 0.0)
    ensures amount > 0.0 && h.leverage > 0 ==> (r < amount * h.averagePrice <==> PriceChange(h, currentPrice) < 0.0)
  {
    amount * h.averagePrice + Profit(h, currentPrice, amount)
  }

  /** What a holding is worth at `currentPrice`: the proceeds of closing all of it. */
  function PositionMark(h: Holding, currentPrice: real): real {
    Proceeds(h, currentPrice, h.amount)
  }

  /** What a buy starts from when the asset is not held yet. */
  const NoHolding: Holding := Holding(0.0, 0.0, 1, false, None, None)

  /** The holding a buy merges into. */
  function Existing(p: map<string, Holding>, id: string): Holding {
    if id in p then p[id] else NoHolding
  }

  /**
   * The holding after adding `amount` units that cost `cost` to `existing`:
   * the new average price is the cost-weighted mean, and the order's terms
   * replace the old ones.
   */
  function Merge(existing: Holding, amount: real, cost: real, leverage: int, isShort: bool,
                 takeProfit: Option<real>, stopLoss: Option<real>): (h: Holding)
    requires existing.amount >= 0.0 && amount > 0.0
    ensures h.amount == existing.amount + amount
    ensures h.leverage == leverage && h.isShort == isShort
    ensures h.takeProfit == takeProfit && h.stopLoss == stopLoss
  {
    var totalAmount := existing.amount + amount;
    var totalCost := existing.amount * existing.averagePrice + cost;
    Holding(totalAmount, totalCost / totalAmount, leverage, isShort, takeProfit, stopLoss)
  }

  /**
   * A buy order of `amount` units at the asset's current price. A
   * non-positive amount, or a notional above the balance, leaves the
   * account as it was.
   */
  function BuyStep(a: Account, crypto: Crypto, amount: real, leverage: int, isShort: bool,
                   takeProfit: Option<real>, stopLoss: Option<real>): (r: Trade)
    requires PositiveHoldings(a.portfolio)
    ensures r.outcome != NoPosition
    ensures r.outcome != Executed ==> r.account == a
    ensures r.outcome == Executed ==>
      crypto.id in r.account.portfolio && r.account.portfolio - {crypto.id} == a.portfolio - {crypto.id}
  {
    if amount <= 0.0 then Trade(InvalidAmount, a)
    else if amount * crypto.currentPrice > a.balance then Trade(InsufficientFunds, a)
    else Trade(Executed, Bought(a, crypto, amount, leverage, isShort, takeProfit, stopLoss))
  }

  /** The account after an accepted buy: the notional is debited and merged into the holding. */
  function Bought(a: Account, crypto: Crypto, amount: real, leverage: int, isShort: bool,
                  takeProfit: Option<real>, stopLoss: Option<real>): (b: Account)
    requires PositiveHoldings(a.portfolio) && amount > 0.0
    ensures crypto.id in b.portfolio && b.portfolio - {crypto.id} == a.portfolio - {crypto.id}
  {
    var cost := amount * crypto.currentPrice;
    var h := Merge(Existing(a.portfolio, crypto.id), amount, cost, leverage, isShort, takeProfit, stopLoss);
    var p := a.portfolio[crypto.id := h];
    assert p - {crypto.id} == a.portfolio - {crypto.id};
    Account(a.balance - cost, p)
  }

  /** An order that passes both checks merges into the holding and debits the notional. */
  lemma BuyExecutes(a: Account, crypto: Crypto, amount: real, leverage: int, isShort: bool,
                    takeProfit: Option<real>, stopLoss: Option<real>)
    requires PositiveHoldings(a.portfolio)
    requires amount > 0.0 && amount * crypto.currentPrice <= a.balance
    ensures
      var cost := amount * crypto.currentPrice;
      var h := Merge(Existing(a.portfolio, crypto.id), amount, cost, leverage, isShort, takeProfit, stopLoss);
      BuyStep(a, crypto, amount, leverage, isShort, takeProfit, stopLoss) ==
        Trade(Executed, Account(a.balance - cost, a.portfolio[crypto.id := h]))
  {
    var cost := amount * crypto.currentPrice;
    var h := Merge(Existing(a.portfolio, crypto.id), amount, cost, leverage, isShort, takeProfit, stopLoss);
    var b := Bought(a, crypto, amount, leverage, isShort, takeProfit, stopLoss);
    assert b.balance == a.balance - cost;
    assert b.portfolio == a.portfolio[crypto.id := h];
  }

  /** Which orders a buy refuses, and why. */
  lemma BuyOutcome(a: Account, crypto: Crypto, amount: real, leverage: int, isShort: bool,
                   takeProfit: Option<real>, stopLoss: Option<real>)
    requires PositiveHoldings(a.portfolio)
    ensures var r := BuyStep(a, crypto, amount, leverage, isShort, takeProfit, stopLoss);
      && (r.outcome == InvalidAmount <==> amount <= 0.0)
      && (r.outcome == InsufficientFunds <==> amount > 0.0 && amount * crypto.currentPrice > a.balance)
      && (r.outcome == Executed <==> amount > 0.0 && amount * crypto.currentPrice <= a.balance)
  {
  }

  /**
   * An executed buy debits the notional, never overdraws, keeps every
   * holding positive, adds the amount to the holding and takes the order's
   * leverage, direction and limits.
   */
  lemma BuyExecuted(a: Account, crypto: Crypto, amount: real, leverage: int, isShort: bool,
                    takeProfit: Option<real>, stopLoss: Option<real>)
    requires PositiveHoldings(a.portfolio)
    requires BuyStep(a, crypto, amount, leverage, isShort, takeProfit, stopLoss).outcome == Executed
    ensures var r := BuyStep(a, crypto, amount, leverage, isShort, takeProfit, stopLoss).account;
      var old_ := Existing(a.portfolio, crypto.id);
      var new_ := r.portfolio[crypto.id];
      && r.balance == a.balance - amount * crypto.currentPrice
      && r.balance >= 0.0
      && PositiveHoldings(r.portfolio)
      && new_.amount == old_.amount + amount
      && new_.leverage == leverage && new_.isShort == isShort
      && new_.takeProfit == takeProfit && new_.stopLoss == stopLoss
  {
    var p := Bought(a, crypto, amount, leverage, isShort, takeProfit, stopLoss).portfolio;
    forall id | id in p
      ensures p[id].amount > 0.0
    {
      if id != crypto.id {
        assert id in p - {crypto.id};
      }
    }
  }

  /** A merge keeps the cost basis: the new amount times the new average is the old basis plus the cost. */
  lemma MergeKeepsCostBasis(existing: Holding, amount: real, cost: real, leverage: int, isShort: bool,
                            takeProfit: Option<real>, stopLoss: Option<real>)
    requires existing.amount >= 0.0 && amount > 0.0
    ensures var h := Merge(existing, amount, cost, leverage, isShort, takeProfit, stopLoss);
      h.amount * h.averagePrice == existing.amount * existing.averagePrice + cost
  {
  }

  /**
   * Two successive entries into one holding end at the same amount and the
   * same average price whichever comes first: the notional-weighted mean of
   * the old basis and both costs.
   */
  lemma {:induction false} OpensCommute(o: Holding,
                                        x1: real, c1: real, l1: int, s1: bool, tp1: Option<real>, sl1: Option<real>,
                                        x2: real, c2: real, l2: int, s2: bool, tp2: Option<real>, sl2: Option<real>)
    requires o.amount >= 0.0 && x1 > 0.0 && x2 > 0.0
    ensures var h12 := Merge(Merge(o, x1, c1, l1, s1, tp1, sl1), x2, c2, l2, s2, tp2, sl2);
      var h21 := Merge(Merge(o, x2, c2, l2, s2, tp2, sl2), x1, c1, l1, s1, tp1, sl1);
      && h12.amount == h21.amount == o.amount + x1 + x2
      && h12.averagePrice == h21.averagePrice
      && h12.amount * h12.averagePrice == o.amount * o.averagePrice + c1 + c2
  {
    var h1 := Merge(o, x1, c1, l1, s1, tp1, sl1);
    var h12 := Merge(h1, x2, c2, l2, s2, tp2, sl2);
    var h2 := Merge(o, x2, c2, l2, s2, tp2, sl2);
    var h21 := Merge(h2, x1, c1, l1, s1, tp1, sl1);
    MergeKeepsCostBasis(o, x1, c1, l1, s1, tp1, sl1);
    MergeKeepsCostBasis(h1, x2, c2, l2, s2, tp2, sl2);
    MergeKeepsCostBasis(o, x2, c2, l2, s2, tp2, sl2);
    MergeKeepsCostBasis(h2, x1, c1, l1, s1, tp1, sl1);
    SameBasisSameAverage(h12, h21);
  }

  /** Two holdings of one positive amount and one cost basis have one average price. */
  lemma SameBasisSameAverage(h: Holding, g: Holding)
    requires h.amount == g.amount && h.amount > 0.0
    requires h.amount * h.averagePrice == g.amount * g.averagePrice
    ensures h.averagePrice == g.averagePrice
  {
    assert (h.averagePrice - g.averagePrice) * h.amount == 0.0;
  }

  /**
   * A buy sets the average price to the cost-weighted mean of the old
   * average and the current price; a fresh position is entered at the
   * current price.
   */
  lemma BuyAveragesCost(a: Account, crypto: Crypto, amount: real, leverage: int, isShort: bool,
                        takeProfit: Option<real>, stopLoss: Option<real>)
    requires PositiveHoldings(a.portfolio)
    requires BuyStep(a, crypto, amount, leverage, isShort, takeProfit, stopLoss).outcome == Executed
    ensures
      var old_ := Existing(a.portfolio, crypto.id);
      var new_ := BuyStep(a, crypto, amount, leverage, isShort, takeProfit, stopLoss).account.portfolio[crypto.id];
      && new_.amount * new_.averagePrice == old_.amount * old_.averagePrice + amount * crypto.currentPrice
      && (crypto.id !in a.portfolio ==> new_.averagePrice == crypto.currentPrice)
  {
    BuyOutcome(a, crypto, amount, leverage, isShort, takeProfit, stopLoss);
    var cost := amount * crypto.currentPrice;
    var o := Existing(a.portfolio, crypto.id);
    var h := Merge(o, amount, cost, leverage, isShort, takeProfit, stopLoss);
    BuyExecutes(a, crypto, amount, leverage, isShort, takeProfit, stopLoss);
    MergeKeepsCostBasis(o, amount, cost, leverage, isShort, takeProfit, stopLoss);
    if crypto.id !in a.portfolio {
      EntryPrice(h, amount, crypto.currentPrice);
    }
  }

  /** A position opened with `amount` units costing `amount * price` has average price `price`. */
  lemma EntryPrice(h: Holding, amount: real, price: real)
    requires h.amount == amount && amount > 0.0
    requires h.amount * h.averagePrice == amount * price
    ensures h.averagePrice == price
  {
    assert (h.averagePrice - price) * amount == 0.0;
  }

  /**
   * A sell order closing `amount` units at the asset's current price. The
   * order is refused when the asset is not held (or held at zero) and when
   * the amount is not in (0, held amount].
   */
  function SellStep(a: Account, crypto: Crypto, amount: real): (r: Trade)
    ensures r.outcome == NoPosition <==>
      crypto.id !in a.portfolio || a.portfolio[crypto.id].amount == 0.0
    ensures r.outcome == InvalidAmount <==>
      crypto.id in a.portfolio && a.portfolio[crypto.id].amount != 0.0 &&
      (amount <= 0.0 || amount > a.portfolio[crypto.id].amount)
    ensures r.outcome != InsufficientFunds
    ensures r.outcome != Executed ==> r.account == a
    ensures r.outcome == Executed ==>
      var h := a.portfolio[crypto.id];
      && r.account.balance == a.balance + Proceeds(h, crypto.currentPrice, amount)
      && (crypto.id in r.account.portfolio <==> amount != h.amount)
      && (crypto.id in r.account.portfolio ==>
            r.account.portfolio[crypto.id] ==
              Holding(h.amount - amount, h.averagePrice, h.leverage, h.isShort, None, None))
      && r.account.portfolio - {crypto.id} == a.portfolio - {crypto.id}
    ensures PositiveHoldings(a.portfolio) ==> PositiveHoldings(r.account.portfolio)
  {
    if crypto.id !in a.portfolio || a.portfolio[crypto.id].amount == 0.0 then Trade(NoPosition, a)
    else
      var h := a.portfolio[crypto.id];
      if amount <= 0.0 || amount > h.amount then Trade(InvalidAmount, a)
      else
        var profit := Profit(h, crypto.currentPrice, amount);
        var remaining := h.amount - amount;
        var p := if remaining == 0.0 then a.portfolio - {crypto.id}
                 else a.portfolio[crypto.id := Holding(remaining, h.averagePrice, h.leverage, h.isShort, None, None)];
        assert p - {crypto.id} == a.portfolio - {crypto.id};
        Trade(Executed, Account(a.balance + (amount * h.averagePrice) + profit, p))
  }

  /** The reduce step of the valuation: principal plus profit, or 0 off the feed. */
  function MarkedValue(cryptos: seq<Crypto>, id: string, h: Holding): real {
    match FindCrypto(cryptos, id)
    case Some(c) => (h.amount * h.averagePrice) + Profit(h, c.currentPrice, h.amount)
    case None => 0.0
  }

  /** `MarkedValue` against one feed snapshot, as the term of a sum. */
  function Marking(cryptos: seq<Crypto>): (string, Holding) -> real {
    (id, h) => MarkedValue(cryptos, id, h)
  }

  /**
   * The account marked to market: balance plus every holding found in the
   * feed. Holdings missing from the feed add nothing, so an account with
   * no holding in the feed is worth its balance.
   */
  ghost function TotalValue(a: Account, cryptos: seq<Crypto>): (r: real)
    ensures (forall id :: id in a.portfolio ==> FindCrypto(cryptos, id).None?) ==> r == a.balance
  {
    var holdings := Collections.Sum(a.portfolio, Marking(cryptos));
    assert (forall id :: id in a.portfolio ==> FindCrypto(cryptos, id).None?) ==> holdings == 0.0 by {
      if forall id :: id in a.portfolio ==> FindCrypto(cryptos, id).None? {
        Collections.SumRestrict(a.portfolio, Marking(cryptos), {});
      }
    }
    holdings + a.balance
  }

  /** The cash a holding cost: amount times average entry price. */
  function CostBasis(id: string, h: Holding): real {
    h.amount * h.averagePrice
  }

  /** Cash plus the cost basis of every holding. */
  ghost function Principal(a: Account): real {
    a.balance + Collections.Sum(a.portfolio, CostBasis)
  }

  /** A buy moves cash into cost basis and creates or destroys none. */
  lemma BuyPreservesPrincipal(a: Account, crypto: Crypto, amount: real, leverage: int, isShort: bool,
                              takeProfit: Option<real>, stopLoss: Option<real>)
    requires PositiveHoldings(a.portfolio)
    ensures Principal(BuyStep(a, crypto, amount, leverage, isShort, takeProfit, stopLoss).account) == Principal(a)
  {
    BuyOutcome(a, crypto, amount, leverage, isShort, takeProfit, stopLoss);
    if BuyStep(a, crypto, amount, leverage, isShort, takeProfit, stopLoss).outcome == Executed {
      var k := crypto.id;
      var cost := amount * crypto.currentPrice;
      var o := Existing(a.portfolio, k);
      var h := Merge(o, amount, cost, leverage, isShort, takeProfit, stopLoss);
      BuyExecutes(a, crypto, amount, leverage, isShort, takeProfit, stopLoss);
      MergeKeepsCostBasis(o, amount, cost, leverage, isShort, takeProfit, stopLoss);
      Collections.SumReplace(a.portfolio, CostBasis, k, h, cost);
    }
  }

  /** Against a feed that lists `c`, a holding of `c` is marked at `c`'s price. */
  lemma MarkedAt(cryptos: seq<Crypto>, c: Crypto, h: Holding)
    requires FindCrypto(cryptos, c.id) == Some(c)
    ensures Marking(cryptos)(c.id, h) == PositionMark(h, c.currentPrice)
  {
  }

  /** The arithmetic of a partial close: what is paid back plus what stays equals what was held. */
  lemma SplitValue(h: Holding, rest: Holding, price: real, amount: real)
    requires rest == Holding(h.amount - amount, h.averagePrice, h.leverage, h.isShort, None, None)
    ensures Proceeds(h, price, amount) + PositionMark(rest, price) == PositionMark(h, price)
  {
    var d := PriceChange(h, price);
    var lev := h.leverage as real;
    assert PriceChange(rest, price) == d;
    assert d * h.amount * lev == d * amount * lev + d * rest.amount * lev;
  }

  /** Selling at the marking price turns position value into exactly as much cash. */
  lemma SellAtMarkKeepsTotalValue(a: Account, cryptos: seq<Crypto>, crypto: Crypto, amount: real)
    requires FindCrypto(cryptos, crypto.id) == Some(crypto)
    ensures TotalValue(SellStep(a, crypto, amount).account, cryptos) == TotalValue(a, cryptos)
  {
    var r := SellStep(a, crypto, amount);
    if r.outcome == Executed {
      var f := Marking(cryptos);
      var k := crypto.id;
      var h := a.portfolio[k];
      var p := r.account.portfolio;
      var credit := Proceeds(h, crypto.currentPrice, amount);
      assert r.account.balance == a.balance + credit;
      assert p - {k} == a.portfolio - {k};
      Collections.SumRemove(a.portfolio, f, k);
      MarkedAt(cryptos, crypto, h);
      if k in p {
        Collections.SumRemove(p, f, k);
        MarkedAt(cryptos, crypto, p[k]);
        SplitValue(h, p[k], crypto.currentPrice, amount);
        assert f(k, p[k]) + credit == f(k, h);
      } else {
        assert p == a.portfolio - {k};
        assert amount == h.amount;
        assert credit == f(k, h);
      }
      assert TotalValue(r.account, cryptos) == Collections.Sum(p, f) + r.account.balance;
      assert TotalValue(a, cryptos) == Collections.Sum(a.portfolio, f) + a.balance;
    }
  }

  /**
   * Buying at the marking price keeps the account's value when the order
   * opens a position or keeps its leverage and direction.
   */
  lemma BuyAtMarkKeepsTotalValue(a: Account, cryptos: seq<Crypto>, crypto: Crypto, amount: real,
                                 leverage: int, isShort: bool, takeProfit: Option<real>, stopLoss: Option<real>)
    requires PositiveHoldings(a.portfolio)
    requires FindCrypto(cryptos, crypto.id) == Some(crypto)
    requires crypto.id in a.portfolio ==>
      a.portfolio[crypto.id].leverage == leverage && a.portfolio[crypto.id].isShort == isShort
    ensures TotalValue(BuyStep(a, crypto, amount, leverage, isShort, takeProfit, stopLoss).account, cryptos)
         == TotalValue(a, cryptos)
  {
    var r := BuyStep(a, crypto, amount, leverage, isShort, takeProfit, stopLoss);
    BuyOutcome(a, crypto, amount, leverage, isShort, takeProfit, stopLoss);
    if r.outcome == Executed {
      var cost := amount * crypto.currentPrice;
      var o := Existing(a.portfolio, crypto.id);
      var h := Merge(o, amount, cost, leverage, isShort, takeProfit, stopLoss);
      BuyExecutes(a, crypto, amount, leverage, isShort, takeProfit, stopLoss);
      MergeKeepsCostBasis(o, amount, cost, leverage, isShort, takeProfit, stopLoss);
      MarkAfterBuy(cryptos, crypto, a.portfolio, h, amount);
      ValueAfterBuy(a, r.account, cryptos, crypto.id, h, cost);
    }
  }

  /** Debiting `cost` while adding `cost` of marked value leaves the total value unchanged. */
  lemma ValueAfterBuy(a: Account, b: Account, cryptos: seq<Crypto>, k: string, h: Holding, cost: real)
    requires b == Account(a.balance - cost, a.portfolio[k := h])
    requires Marking(cryptos)(k, h) == (if k in a.portfolio then Marking(cryptos)(k, a.portfolio[k]) else 0.0) + cost
    ensures TotalValue(b, cryptos) == TotalValue(a, cryptos)
  {
    Collections.SumReplace(a.portfolio, Marking(cryptos), k, h, cost);
  }

  /** The marked value an executed buy adds to the portfolio: the notional it paid. */
  lemma MarkAfterBuy(cryptos: seq<Crypto>, crypto: Crypto, p: map<string, Holding>, h: Holding, amount: real)
    requires FindCrypto(cryptos, crypto.id) == Some(crypto)
    requires var o := Existing(p, crypto.id);
      && h.amount == o.amount + amount
      && h.amount * h.averagePrice == o.amount * o.averagePrice + amount * crypto.currentPrice
      && (crypto.id in p ==> h.isShort == o.isShort && h.leverage == o.leverage)
    ensures Marking(cryptos)(crypto.id, h) ==
      (if crypto.id in p then Marking(cryptos)(crypto.id, p[crypto.id]) else 0.0) + amount * crypto.currentPrice
  {
    var o := Existing(p, crypto.id);
    MarkAfterMerge(cryptos, crypto, o, h, amount);
    if crypto.id in p {
      MarkedAt(cryptos, crypto, o);
    }
  }

  /** The marked value of a holding after a merge at the marking price. */
  lemma MarkAfterMerge(cryptos: seq<Crypto>, crypto: Crypto, o: Holding, n: Holding, amount: real)
    requires FindCrypto(cryptos, crypto.id) == Some(crypto)
    requires n.amount == o.amount + amount
    requires n.amount * n.averagePrice == o.amount * o.averagePrice + amount * crypto.currentPrice
    requires o.amount == 0.0 || (n.isShort == o.isShort && n.leverage == o.leverage)
    ensures Marking(cryptos)(crypto.id, n) == PositionMark(o, crypto.currentPrice) + amount * crypto.currentPrice
  {
    MarkedAt(cryptos, crypto, n);
    MergedValue(o, n, amount, crypto.currentPrice);
  }

  /** The arithmetic of a merge at the marking price under unchanged terms. */
  lemma MergedValue(o: Holding, n: Holding, amount: real, price: real)
    requires n.amount == o.amount + amount
    requires n.amount * n.averagePrice == o.amount * o.averagePrice + amount * price
    requires o.amount == 0.0 || (n.isShort == o.isShort && n.leverage == o.leverage)
    ensures PositionMark(n, price) == PositionMark(o, price) + amount * price
  {
    var lev := n.leverage as real;
    var sign := if n.isShort then -1.0 else 1.0;
    assert Profit(n, price, n.amount) == sign * (price * n.amount - n.amount * n.averagePrice) * lev;
    if o.amount != 0.0 {
      assert Profit(o, price, o.amount) == sign * (price * o.amount - o.amount * o.averagePrice) * lev;
      assert price * n.amount == price * o.amount + price * amount;
    }
  }

  /**
   * Opening a position and closing all of it restores the portfolio and
   * leaves the balance changed by exactly the realised profit.
   */
  lemma OpenThenCloseAll(a: Account, atOpen: Crypto, atClose: Crypto, amount: real, leverage: int,
                         isShort: bool, takeProfit: Option<real>, stopLoss: Option<real>)
    requires PositiveHoldings(a.portfolio)
    requires atOpen.id !in a.portfolio && atClose.id == atOpen.id
    requires BuyStep(a, atOpen, amount, leverage, isShort, takeProfit, stopLoss).outcome == Executed
    ensures
      var bought := BuyStep(a, atOpen, amount, leverage, isShort, takeProfit, stopLoss).account;
      var sold := SellStep(bought, atClose, amount);
      && sold.outcome == Executed
      && sold.account.portfolio == a.portfolio
      && bought.portfolio[atOpen.id].averagePrice == atOpen.currentPrice
      && sold.account.balance == a.balance +
           Profit(Holding(amount, atOpen.currentPrice, leverage, isShort, takeProfit, stopLoss), atClose.currentPrice, amount)
  {
    var bought := BuyStep(a, atOpen, amount, leverage, isShort, takeProfit, stopLoss).account;
    var k := atOpen.id;
    BuyAveragesCost(a, atOpen, amount, leverage, isShort, takeProfit, stopLoss);
    BuyExecuted(a, atOpen, amount, leverage, isShort, takeProfit, stopLoss);
    assert bought.portfolio - {k} == a.portfolio;
    var sold := SellStep(bought, atClose, amount);
    assert sold.account.portfolio == bought.portfolio - {k};
  }


  /** The dashboard's balance and portfolio state. */
  class Ledger {
    var balance: real
    var portfolio: map<string, Holding>

    ghost function State(): Account
      reads this
    {
      Account(balance, portfolio)
    }

    ghost predicate Valid()
      reads this
    {
      PositiveHoldings(portfolio)
    }

    constructor ()
      ensures Valid()
      ensures balance == InitialBalance && portfolio == map[]
    {
      balance := InitialBalance;
      portfolio := map[];
    }

    /** `handleBuy`, with the amount the user typed passed in. */
    method Buy(crypto: Crypto, amount: real, leverage: int, isShort: bool,
               takeProfit: Option<real>, stopLoss: Option<real>) returns (outcome: TradeOutcome)
      requires Valid()
      modifies this
      ensures Valid()
      ensures Trade(outcome, State()) == BuyStep(old(State()), crypto, amount, leverage, isShort, takeProfit, stopLoss)
    {
      if amount <= 0.0 {
        return InvalidAmount;
      }
      var cost := amount * crypto.currentPrice;
      if cost > balance {
        return InsufficientFunds;
      }
      var existing := Existing(portfolio, crypto.id);
      var h := Merge(existing, amount, cost, leverage, isShort, takeProfit, stopLoss);
      balance := balance - cost;
      portfolio := portfolio[crypto.id := h];
      outcome := Executed;
      BuyExecutes(old(State()), crypto, amount, leverage, isShort, takeProfit, stopLoss);
      BuyExecuted(old(State()), crypto, amount, leverage, isShort, takeProfit, stopLoss);
    }

    /** `handleSell`, with the amount the user typed passed in. */
    method Sell(crypto: Crypto, amount: real) returns (outcome: TradeOutcome)
      requires Valid()
      modifies this
      ensures Valid()
      ensures Trade(outcome, State()) == SellStep(old(State()), crypto, amount)
    {
      if crypto.id !in portfolio || portfolio[crypto.id].amount == 0.0 {
        return NoPosition;
      }
      var holding := portfolio[crypto.id];
      if amount <= 0.0 || amount > holding.amount {
        return InvalidAmount;
      }
      var profit := Profit(holding, crypto.currentPrice, amount);
      balance := balance + amount * holding.averagePrice + profit;
      var remaining := holding.amount - amount;
      if remaining == 0.0 {
        portfolio := portfolio - {crypto.id};
      } else {
        portfolio := portfolio[crypto.id := Holding(remaining, holding.averagePrice, holding.leverage,
                                                    holding.isShort, None, None)];
      }
      outcome := Executed;
    }
  }
}
