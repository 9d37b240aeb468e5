/**
 * The market list: per-asset order settings (leverage and long/short), a
 * search box, and a sort by name, price or 24h change in either
 * direction.
 */
module CryptoList {
  import opened Types
  import Collections
  import Strings

  datatype SortField = Name | Price | Change

  datatype SortDirection = Asc | Desc

  /** The leverages the list offers. */
  const LeverageOptions: seq<int> := [1, 2, 5, 10]

  function Flip(d: SortDirection): SortDirection {
    if d == Asc then Desc else Asc
  }

  /**
   * The sort state after a click on `field`: the same field flips the
   * direction, another field is selected descending.
   */
  function SortAfter(current: SortField, direction: SortDirection, field: SortField): (r: (SortField, SortDirection))
    ensures r.0 == field
    ensures current == field ==> r.1 != direction
    ensures current != field ==> r.1 == Desc
  {
    if current == field then (current, Flip(direction)) else (field, Desc)
  }

  /** Clicking the current field twice restores the direction. */
  lemma SortTwiceRestores(current: SortField, direction: SortDirection)
    ensures var once := SortAfter(current, direction, current);
      SortAfter(once.0, once.1, current) == (current, direction)
  {
  }

  /** Whether a search term selects an asset: its lowercased name or symbol contains the lowercased term. */
  function Matches(c: Crypto, term: string, lower: string -> string): bool {
    Strings.Contains(lower(c.name), lower(term)) || Strings.Contains(lower(c.symbol), lower(term))
  }

  /** The filter half of `filteredAndSortedCryptos`. */
  function Filtered(cryptos: seq<Crypto>, term: string, lower: string -> string): (r: seq<Crypto>)
    ensures forall c :: c in r <==> c in cryptos && Matches(c, term, lower)
    ensures Collections.IsSubsequence(r, cryptos)
    ensures forall c :: multiset(r)[c] == if Matches(c, term, lower) then multiset(cryptos)[c] else 0
  {
    Collections.Filter(cryptos, (c: Crypto) => Matches(c, term, lower))
  }

  /** An empty search term keeps every asset (when lowercasing keeps the empty string empty). */
  lemma EmptyTermKeepsAll(cryptos: seq<Crypto>, lower: string -> string)
    requires lower("") == ""
    ensures Filtered(cryptos, "", lower) == cryptos
  {
    forall c | c in cryptos ensures Matches(c, "", lower) {
      assert Strings.Contains(lower(c.name), []);
    }
  }

  /**
   * The comparator: the field's difference, negated when descending. It is
   * negative exactly when `a` comes first in the chosen order, and zero
   * for equal prices or equal changes.
   */
  function Compare(a: Crypto, b: Crypto, field: SortField, direction: SortDirection,
                   localeCompare: (string, string) -> int): (r: real)
    ensures field == Name ==>
      (r < 0.0 <==> if direction == Asc then localeCompare(a.name, b.name) < 0 else localeCompare(a.name, b.name) > 0)
    ensures field == Price ==>
      (r < 0.0 <==> if direction == Asc then a.currentPrice < b.currentPrice else a.currentPrice > b.currentPrice)
    ensures field == Change ==>
      (r < 0.0 <==> if direction == Asc then a.priceChange24h < b.priceChange24h else a.priceChange24h > b.priceChange24h)
    ensures field == Price && a.currentPrice == b.currentPrice ==> r == 0.0
    ensures field == Change && a.priceChange24h == b.priceChange24h ==> r == 0.0
  {
    var sign := if direction == Asc then 1 else -1;
    match field
    case Name => (sign * localeCompare(a.name, b.name)) as real
    case Price => (sign as real) * (a.currentPrice - b.currentPrice)
    case Change => (sign as real) * (a.priceChange24h - b.priceChange24h)
  }

  /**
   * What a collation promises about the sign of `localeCompare`: swapping
   * the arguments never gives the same non-zero sign again.
   */
  ghost predicate SignsOpposed(localeCompare: (string, string) -> int) {
    forall x, y :: !(localeCompare(x, y) > 0 && localeCompare(y, x) > 0) &&
                   !(localeCompare(x, y) < 0 && localeCompare(y, x) < 0)
  }

  /** `a` may precede `b` when the comparator does not put it after. */
  function Before(field: SortField, direction: SortDirection, localeCompare: (string, string) -> int):
    (r: (Crypto, Crypto) -> bool)
    ensures field != Name ==> Collections.Total(r)
    ensures SignsOpposed(localeCompare) ==> Collections.Total(r)
  {
    var before := (a, b) => Compare(a, b, field, direction, localeCompare) <= 0.0;
    assert SignsOpposed(localeCompare) ==> Collections.Total(before) by {
      if SignsOpposed(localeCompare) {
        forall a, b ensures before(a, b) || before(b, a) {
          assert !(localeCompare(a.name, b.name) > 0 && localeCompare(b.name, a.name) > 0);
          assert !(localeCompare(a.name, b.name) < 0 && localeCompare(b.name, a.name) < 0);
        }
      }
    }
    before
  }

  /** `filteredAndSortedCryptos`: the matching assets, stably sorted by the comparator. */
  function FilteredAndSorted(cryptos: seq<Crypto>, term: string, field: SortField, direction: SortDirection,
                             lower: string -> string, localeCompare: (string, string) -> int): (r: seq<Crypto>)
    ensures multiset(r) == multiset(Filtered(cryptos, term, lower))
    ensures forall c :: c in r <==> c in cryptos && Matches(c, term, lower)
  {
    var f := Filtered(cryptos, term, lower);
    var r := Collections.SortBy(f, Before(field, direction, localeCompare));
    assert forall c :: c in r <==> c in multiset(f);
    r
  }

  /** The price key, negated for a descending sort. */
  function PriceKey(direction: SortDirection): Crypto -> real {
    (c: Crypto) => if direction == Asc then c.currentPrice else -c.currentPrice
  }

  /** The change key, negated for a descending sort. */
  function ChangeKey(direction: SortDirection): Crypto -> real {
    (c: Crypto) => if direction == Asc then c.priceChange24h else -c.priceChange24h
  }

  /** The price comparator may put `a` first only when `a`'s price key is at most `b`'s. */
  lemma PriceKeyRespected(direction: SortDirection, localeCompare: (string, string) -> int)
    ensures forall a, b :: Before(Price, direction, localeCompare)(a, b) ==> PriceKey(direction)(a) <= PriceKey(direction)(b)
  {
    forall a, b | Before(Price, direction, localeCompare)(a, b)
      ensures PriceKey(direction)(a) <= PriceKey(direction)(b)
    {
      assert Compare(a, b, Price, direction, localeCompare) <= 0.0;
    }
  }

  /** The change comparator may put `a` first only when `a`'s change key is at most `b`'s. */
  lemma ChangeKeyRespected(direction: SortDirection, localeCompare: (string, string) -> int)
    ensures forall a, b :: Before(Change, direction, localeCompare)(a, b) ==> ChangeKey(direction)(a) <= ChangeKey(direction)(b)
  {
    forall a, b | Before(Change, direction, localeCompare)(a, b)
      ensures ChangeKey(direction)(a) <= ChangeKey(direction)(b)
    {
      assert Compare(a, b, Change, direction, localeCompare) <= 0.0;
    }
  }

  /** Sorted by price: non-decreasing ascending, non-increasing descending. */
  lemma SortedByPrice(cryptos: seq<Crypto>, term: string, direction: SortDirection,
                      lower: string -> string, localeCompare: (string, string) -> int)
    ensures var r := FilteredAndSorted(cryptos, term, Price, direction, lower, localeCompare);
      forall i, j :: 0 <= i <= j < |r| ==>
        if direction == Asc then r[i].currentPrice <= r[j].currentPrice else r[i].currentPrice >= r[j].currentPrice
  {
    var before := Before(Price, direction, localeCompare);
    var f := Filtered(cryptos, term, lower);
    var r := Collections.SortBy(f, before);
    Collections.SortByOrdered(f, before);
    PriceKeyRespected(direction, localeCompare);
    forall i, j | 0 <= i <= j < |r|
      ensures PriceKey(direction)(r[i]) <= PriceKey(direction)(r[j])
    {
      Collections.OrderedByKey(r, before, PriceKey(direction), i, j);
    }
  }

  /** Sorted by 24h change: non-decreasing ascending, non-increasing descending. */
  lemma SortedByChange(cryptos: seq<Crypto>, term: string, direction: SortDirection,
                       lower: string -> string, localeCompare: (string, string) -> int)
    ensures var r := FilteredAndSorted(cryptos, term, Change, direction, lower, localeCompare);
      forall i, j :: 0 <= i <= j < |r| ==>
        if direction == Asc then r[i].priceChange24h <= r[j].priceChange24h
        else r[i].priceChange24h >= r[j].priceChange24h
  {
    var before := Before(Change, direction, localeCompare);
    var f := Filtered(cryptos, term, lower);
    var r := Collections.SortBy(f, before);
    Collections.SortByOrdered(f, before);
    ChangeKeyRespected(direction, localeCompare);
    forall i, j | 0 <= i <= j < |r|
      ensures ChangeKey(direction)(r[i]) <= ChangeKey(direction)(r[j])
    {
      Collections.OrderedByKey(r, before, ChangeKey(direction), i, j);
    }
  }

  /**
   * Sorted by name: neighbours are in comparator order, provided
   * swapping the arguments of `localeCompare` never keeps a non-zero sign
   * (as for any collation order).
   */
  lemma SortedByName(cryptos: seq<Crypto>, term: string, direction: SortDirection,
                     lower: string -> string, localeCompare: (string, string) -> int)
    requires forall x, y :: !(localeCompare(x, y) > 0 && localeCompare(y, x) > 0) &&
                            !(localeCompare(x, y) < 0 && localeCompare(y, x) < 0)
    ensures Collections.Ordered(FilteredAndSorted(cryptos, term, Name, direction, lower, localeCompare),
                                Before(Name, direction, localeCompare))
  {
    Collections.SortByOrdered(Filtered(cryptos, term, lower), Before(Name, direction, localeCompare));
  }

  /** The assets priced at `price`. */
  function PricedAt(price: real): Crypto -> bool {
    (c: Crypto) => c.currentPrice == price
  }

  /**
   * The sort is stable: listed assets of equal price keep their feed
   * order, whatever the direction.
   */
  lemma EqualPricesKeepFeedOrder(cryptos: seq<Crypto>, term: string, direction: SortDirection,
                                 lower: string -> string, localeCompare: (string, string) -> int, price: real)
    ensures Collections.Filter(FilteredAndSorted(cryptos, term, Price, direction, lower, localeCompare), PricedAt(price))
         == Collections.Filter(Filtered(cryptos, term, lower), PricedAt(price))
  {
    var before := Before(Price, direction, localeCompare);
    forall a, b | PricedAt(price)(a) && PricedAt(price)(b) ensures before(a, b) {
      assert Compare(a, b, Price, direction, localeCompare) == 0.0;
    }
    Collections.SortByKeepsTies(Filtered(cryptos, term, lower), before, PricedAt(price));
  }

  /** The assets whose 24h change is `change`. */
  function ChangedBy(change: real): Crypto -> bool {
    (c: Crypto) => c.priceChange24h == change
  }

  /** Listed assets of equal 24h change keep their feed order, whatever the direction. */
  lemma EqualChangesKeepFeedOrder(cryptos: seq<Crypto>, term: string, direction: SortDirection,
                                  lower: string -> string, localeCompare: (string, string) -> int, change: real)
    ensures Collections.Filter(FilteredAndSorted(cryptos, term, Change, direction, lower, localeCompare), ChangedBy(change))
         == Collections.Filter(Filtered(cryptos, term, lower), ChangedBy(change))
  {
    var before := Before(Change, direction, localeCompare);
    forall a, b | ChangedBy(change)(a) && ChangedBy(change)(b) ensures before(a, b) {
      assert Compare(a, b, Change, direction, localeCompare) == 0.0;
    }
    Collections.SortByKeepsTies(Filtered(cryptos, term, lower), before, ChangedBy(change));
  }

  /** The list's state. */
  class CryptoList {
    var selectedLeverage: map<string, int>
    var shortMode: map<string, bool>
    var searchTerm: string
    var sortField: SortField
    var sortDirection: SortDirection

    /** Only offered leverages are ever selected. */
    ghost predicate Valid()
      reads this
    {
      forall id :: id in selectedLeverage ==> selectedLeverage[id] in LeverageOptions
    }

    /** Nothing selected, an empty search, sorted by price descending. */
    constructor ()
      ensures Valid()
      ensures selectedLeverage == map[] && shortMode == map[] && searchTerm == ""
      ensures sortField == Price && sortDirection == Desc
    {
      selectedLeverage := map[];
      shortMode := map[];
      searchTerm := "";
      sortField := Price;
      sortDirection := Desc;
    }

    /** `handleSort`. */
    method HandleSort(field: SortField)
      modifies this
      ensures (sortField, sortDirection) == SortAfter(old(sortField), old(sortDirection), field)
      ensures selectedLeverage == old(selectedLeverage) && shortMode == old(shortMode)
      ensures searchTerm == old(searchTerm)
    {
      if sortField == field {
        sortDirection := if sortDirection == Asc then Desc else Asc;
      } else {
        sortField := field;
        sortDirection := Desc;
      }
    }

    /** A leverage button: one of the offered leverages for one asset. */
    method SelectLeverage(id: string, leverage: int)
      requires Valid() && leverage in LeverageOptions
      modifies this
      ensures Valid()
      ensures selectedLeverage == old(selectedLeverage)[id := leverage]
      ensures shortMode == old(shortMode) && searchTerm == old(searchTerm)
      ensures sortField == old(sortField) && sortDirection == old(sortDirection)
    {
      selectedLeverage := selectedLeverage[id := leverage];
    }

    /** The Long and Short buttons of one asset. */
    method SetShortMode(id: string, isShort: bool)
      requires Valid()
      modifies this
      ensures Valid()
      ensures shortMode == old(shortMode)[id := isShort]
      ensures selectedLeverage == old(selectedLeverage) && searchTerm == old(searchTerm)
      ensures sortField == old(sortField) && sortDirection == old(sortDirection)
    {
      shortMode := shortMode[id := isShort];
    }

    /** Typing in the search box. */
    method SetSearchTerm(term: string)
      requires Valid()
      modifies this
      ensures Valid()
      ensures searchTerm == term
      ensures selectedLeverage == old(selectedLeverage) && shortMode == old(shortMode)
      ensures sortField == old(sortField) && sortDirection == old(sortDirection)
    {
      searchTerm := term;
    }

    /**
     * The order terms `handleBuy` passes on for an asset: its selected
     * leverage (1 when none) and its short flag (long when none).
     */
    method OrderTerms(id: string) returns (leverage: int, isShort: bool)
      requires Valid()
      ensures leverage in LeverageOptions
      ensures id !in selectedLeverage ==> leverage == 1
      ensures id in selectedLeverage ==> leverage == selectedLeverage[id]
      ensures isShort <==> id in shortMode && shortMode[id]
    {
      leverage := if id in selectedLeverage && selectedLeverage[id] != 0 then selectedLeverage[id] else 1;
      isShort := if id in shortMode then shortMode[id] else false;
    }
  }
}
