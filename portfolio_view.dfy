/**
 * The portfolio panel: the account's total value, and one row per holding
 * whose asset is in the feed showing the position value plus profit.
 */
module PortfolioView {
  import opened Wrappers
  import opened Types
  import Collections
  import Ledger

  /** `calculateProfit`: the leveraged profit of the whole holding, 0 when the asset is not in the feed. */
  function CalculateProfit(cryptos: seq<Crypto>, id: string, h: Holding): (r: real)
    ensures FindCrypto(cryptos, id).None? ==> r == 0.0
    ensures FindCrypto(cryptos, id).Some? ==> r == Ledger.Profit(h, FindCrypto(cryptos, id).value.currentPrice, h.amount)
  {
    match FindCrypto(cryptos, id)
    case Some(c) =>
      var priceChange := if h.isShort then h.averagePrice - c.currentPrice else c.currentPrice - h.averagePrice;
      priceChange * h.amount * (h.leverage as real)
    case None => 0.0
  }

  /** `holding.amount * holding.averagePrice`: what the holding is worth at its entry price. */
  function PositionValue(h: Holding): (r: real)
    ensures r == Ledger.PositionMark(h, h.averagePrice)
  {
    h.amount * h.averagePrice
  }

  /** The reduce step of the panel's `calculateTotalValue`. */
  function ValueTerm(cryptos: seq<Crypto>, id: string, h: Holding): real {
    match FindCrypto(cryptos, id)
    case Some(c) =>
      var priceChange := if h.isShort then h.averagePrice - c.currentPrice else c.currentPrice - h.averagePrice;
      var profit := priceChange * h.amount * (h.leverage as real);
      (h.amount * h.averagePrice) + profit
    case None => 0.0
  }

  /** `ValueTerm` against one feed snapshot, as the term of a sum. */
  function Valuation(cryptos: seq<Crypto>): (string, Holding) -> real {
    (id, h) => ValueTerm(cryptos, id, h)
  }

  /**
   * The panel's `calculateTotalValue`: the holdings only, without the
   * balance; holdings whose asset is not in the feed add nothing.
   */
  ghost function CalculateTotalValue(portfolio: map<string, Holding>, cryptos: seq<Crypto>): (r: real)
    ensures (forall id :: id in portfolio ==> FindCrypto(cryptos, id).None?) ==> r == 0.0
  {
    assert (forall id :: id in portfolio ==> FindCrypto(cryptos, id).None?) ==>
      Collections.Sum(portfolio, Valuation(cryptos)) == 0.0 by {
      if forall id :: id in portfolio ==> FindCrypto(cryptos, id).None? {
        Collections.SumRestrict(portfolio, Valuation(cryptos), {});
      }
    }
    Collections.Sum(portfolio, Valuation(cryptos))
  }

  /**
   * The "total value" line of the panel: holdings plus balance, so just
   * the balance when no holding is in the feed.
   */
  ghost function DisplayedTotal(portfolio: map<string, Holding>, cryptos: seq<Crypto>, balance: real): (r: real)
    ensures (forall id :: id in portfolio ==> FindCrypto(cryptos, id).None?) ==> r == balance
  {
    CalculateTotalValue(portfolio, cryptos) + balance
  }

  /**
   * The value shown on a holding's row, or no row at all when its asset is
   * not in the feed.
   */
  function RowValue(cryptos: seq<Crypto>, id: string, h: Holding): (r: Option<real>)
    ensures r.None? <==> FindCrypto(cryptos, id).None?
    ensures r.Some? ==> r.value == PositionValue(h) + CalculateProfit(cryptos, id, h)
  {
    if FindCrypto(cryptos, id).None? then None
    else Some(PositionValue(h) + CalculateProfit(cryptos, id, h))
  }

  /** The holdings that get a row. */
  function Listed(portfolio: map<string, Holding>, cryptos: seq<Crypto>): (r: map<string, Holding>)
    ensures forall id :: id in r <==> id in portfolio && FindCrypto(cryptos, id).Some?
    ensures forall id :: id in r ==> r[id] == portfolio[id]
  {
    map id | id in portfolio && FindCrypto(cryptos, id).Some? :: portfolio[id]
  }

  /** A row's value, as the term of a sum (0 for a holding without a row). */
  function Shown(cryptos: seq<Crypto>): (string, Holding) -> real {
    (id, h) => RowValue(cryptos, id, h).GetOr(0.0)
  }

  /** For the same holding and price, a short's profit is the negation of the long's. */
  lemma ShortIsNegatedLong(cryptos: seq<Crypto>, id: string, h: Holding)
    ensures CalculateProfit(cryptos, id, h.(isShort := true)) == -CalculateProfit(cryptos, id, h.(isShort := false))
  {
    match FindCrypto(cryptos, id)
    case Some(c) =>
      var lev := h.leverage as real;
      assert (h.averagePrice - c.currentPrice) * h.amount * lev == -((c.currentPrice - h.averagePrice) * h.amount * lev);
    case None =>
  }

  /** At the entry price there is no profit, whatever the leverage or direction. */
  lemma NoProfitAtEntryPrice(cryptos: seq<Crypto>, id: string, h: Holding)
    requires FindCrypto(cryptos, id).Some? && FindCrypto(cryptos, id).value.currentPrice == h.averagePrice
    ensures CalculateProfit(cryptos, id, h) == 0.0
  {
    var lev := h.leverage as real;
    assert Ledger.PriceChange(h, h.averagePrice) == 0.0;
    assert 0.0 * h.amount * lev == 0.0;
  }

  /** A long position at leverage 1 is shown at its market value. */
  lemma UnleveredLongAtMarket(cryptos: seq<Crypto>, id: string, h: Holding)
    requires FindCrypto(cryptos, id).Some? && !h.isShort && h.leverage == 1
    ensures RowValue(cryptos, id, h).Some?
    ensures RowValue(cryptos, id, h).value == h.amount * FindCrypto(cryptos, id).value.currentPrice
  {
    var p := FindCrypto(cryptos, id).value.currentPrice;
    var profit := CalculateProfit(cryptos, id, h);
    assert profit == (p - h.averagePrice) * h.amount * (h.leverage as real);
    assert (h.leverage as real) == 1.0;
    assert PositionValue(h) + profit == h.amount * p;
  }

  /** The panel's total value is the dashboard's total value of the same account. */
  lemma DisplayedTotalIsTotalValue(a: Ledger.Account, cryptos: seq<Crypto>)
    ensures DisplayedTotal(a.portfolio, cryptos, a.balance) == Ledger.TotalValue(a, cryptos)
  {
    forall id | id in a.portfolio
      ensures Valuation(cryptos)(id, a.portfolio[id]) == Ledger.Marking(cryptos)(id, a.portfolio[id])
    {
    }
    Collections.SumCongruent(a.portfolio, Valuation(cryptos), Ledger.Marking(cryptos));
  }

  /**
   * The holdings part of the total is the sum of the values shown on the
   * rows; holdings without a row contribute nothing.
   */
  lemma TotalIsSumOfRows(portfolio: map<string, Holding>, cryptos: seq<Crypto>)
    ensures CalculateTotalValue(portfolio, cryptos) == Collections.Sum(Listed(portfolio, cryptos), Shown(cryptos))
  {
    var keep := set id | id in portfolio && FindCrypto(cryptos, id).Some?;
    var listed := Listed(portfolio, cryptos);
    UnlistedAddNothing(portfolio, cryptos, keep);
    Collections.SumRestrict(portfolio, Valuation(cryptos), keep);
    ListedIsRestriction(portfolio, cryptos, keep);
    RowsMatchTerms(listed, cryptos);
    Collections.SumCongruent(listed, Valuation(cryptos), Shown(cryptos));
  }

  lemma UnlistedAddNothing(portfolio: map<string, Holding>, cryptos: seq<Crypto>, keep: set<string>)
    requires keep == set id | id in portfolio && FindCrypto(cryptos, id).Some?
    ensures forall k :: k in portfolio && k !in keep ==> Valuation(cryptos)(k, portfolio[k]) == 0.0
  {
  }

  lemma ListedIsRestriction(portfolio: map<string, Holding>, cryptos: seq<Crypto>, keep: set<string>)
    requires keep == set id | id in portfolio && FindCrypto(cryptos, id).Some?
    ensures (map k | k in portfolio && k in keep :: portfolio[k]) == Listed(portfolio, cryptos)
  {
  }

  lemma RowsMatchTerms(listed: map<string, Holding>, cryptos: seq<Crypto>)
    ensures forall id :: id in listed ==> Valuation(cryptos)(id, listed[id]) == Shown(cryptos)(id, listed[id])
  {
    forall id | id in listed
      ensures Valuation(cryptos)(id, listed[id]) == Shown(cryptos)(id, listed[id])
    {
      RowMatchesTerm(cryptos, id, listed[id]);
    }
  }

  lemma RowMatchesTerm(cryptos: seq<Crypto>, id: string, h: Holding)
    ensures ValueTerm(cryptos, id, h) == RowValue(cryptos, id, h).GetOr(0.0)
  {
  }
}
