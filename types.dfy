/** The records shared by the components. */
module Types {
  import opened Wrappers
  import Collections

  /** A JavaScript number as far as the feed is concerned: finite, or NaN. */
  datatype Num = Finite(value: real) | NaN

  /** One asset of the market feed (`sparkline_in_7d.price` is `sparkline`). */
  datatype Crypto = Crypto(
    id: string,
    symbol: string,
    name: string,
    currentPrice: real,
    priceChange24h: real,
    sparkline: seq<Num>)

  /**
   * One entry of the portfolio dictionary. The take-profit and stop-loss
   * levels are written by a buy and never read.
   */
  datatype Holding = Holding(
    amount: real,
    averagePrice: real,
    leverage: int,
    isShort: bool,
    takeProfit: Option<real>,
    stopLoss: Option<real>)

  datatype User = User(email: string, id: string, friends: seq<string>)

  /** An absent `isFriend` reads as false everywhere, so it is a plain flag here. */
  datatype LeaderboardEntry = LeaderboardEntry(email: string, totalValue: real, rank: int, isFriend: bool)

  /** `cryptos.find((c) => c.id === id)`: the first asset with that id. */
  function FindCrypto(cryptos: seq<Crypto>, id: string): (r: Option<Crypto>)
    ensures r.Some? ==> r.value in cryptos && r.value.id == id
    ensures r.None? <==> forall c :: c in cryptos ==> c.id != id
    ensures r.Some? ==> exists i :: 0 <= i < |cryptos| && cryptos[i] == r.value &&
                                    forall j :: 0 <= j < i ==> cryptos[j].id != id
  {
    Collections.Find(cryptos, (c: Crypto) => c.id == id)
  }

  /** `list || []`: a missing list reads as the empty list. */
  function OrEmpty(list: Option<seq<string>>): (r: seq<string>)
    ensures list.None? ==> r == []
    ensures list.Some? ==> r == list.value
  {
    list.GetOr([])
  }
}
