# Crypto paper-trading simulator — verified model of its core

The simulator is a single-page app. A user signs in with any email and a
password of at least six characters. They trade simulated positions in
crypto assets against a live market feed: long or short, with leverage 1,
2, 5 or 10. They track the account's value and compare it with a
leaderboard of simulated traders, some of whom they mark as friends.

This project models that core in Dafny:

- **Ledger** (`ledger.dfy`): the dashboard's cash balance and portfolio
  dictionary.
  - A buy debits `amount × price` and merges into the holding at the
    cost-weighted average price. The order's leverage, direction and
    take-profit/stop-loss levels overwrite the old ones.
  - A sell credits the principal plus the leveraged, direction-signed
    profit. It deletes the holding when nothing remains.
  - The account is marked to market against the feed.
  - Each of `handleBuy` and `handleSell` is a pure step function
    (`BuyStep`, `SellStep`) plus a method of the class `Ledger` that
    updates the two fields and is proved equal to the step.
- **Feed** (`feed.dfy`): the sanitiser applied to each record of the feed.
  It works over a small JSON datatype, using the JavaScript coercions
  `String(x)`, `Number(x) || 0` and `Array.isArray`.
- **Ranking** (`ranking.dfy`): the dashboard's leaderboard. It takes the
  user's entry and the simulated traders, flags friends, sorts by value
  (highest first) and numbers the entries from 1.
- **PortfolioView** (`portfolio_view.dfy`): the portfolio panel's total
  and per-row values, and `calculateProfit`.
- **CryptoList** (`crypto_list.dfy`): the market list.
  - Per-asset leverage and long/short choices live in a class with those
    maps as fields.
  - It holds the search box and the sort toggle.
  - It defines the order terms handed to a buy.
  - The filter-and-sort pipeline is a pure function.
- **LeaderboardView** (`leaderboard_view.dfy`): the leaderboard panel's
  friends-only toggle and filter.
- **Auth** (`auth.dfy`): the session.
  - `login` and `register` check the password length.
  - A session is restored from the saved record, with a missing friend
    list read as empty.
  - `addFriend` skips emails already listed; `logout` clears the session.
- **FriendsList** (`friends_list.dfy`): the add-friend form, which trims
  the input and ignores a blank one.
- **Collections**, **Strings**, **Types**, **Wrappers**: the JavaScript
  built-ins the components use, plus the shared records.
  - The built-ins are `find`, `filter`, the stable `sort`, the `reduce`
    over `Object.entries`, `includes` and `trim`.
  - The shared records come from `src/types.ts`.

Money and amounts are `real`, so the arithmetic is exact; leverage is an
`int`. JavaScript's `Number` can be NaN, so feed values are `Num`
(`Finite(v)` or `NaN`) until the sanitiser replaces NaN with 0.

### Notes on the code

- A buy stores the take-profit and stop-loss levels with the holding.
  Nothing in the code ever triggers on them.
- A partial sell writes the remaining holding without its take-profit and
  stop-loss (`src/components/Dashboard.tsx:176-183`). `SellStep` does the
  same and sets them to `None`.
- The only leverages offered are 1, 2, 5 and 10
  (`src/components/CryptoList.tsx:22`).
- A sell is refused as `NoPosition` both when the holding is missing and
  when its amount is 0. The portfolio is a dictionary with only its own
  keys, so "missing" means no own entry for the id (see "## Left out" for
  ids that name members of `Object.prototype`).
- A first buy computes the average price with the same weighted formula
  as later buys, starting from an empty holding. `Ledger.BuyAveragesCost`
  proves this gives the current price.
- `fetchCryptos` (`src/components/Dashboard.tsx:76-115`) has no check that
  the session is still live when a response arrives: whatever response
  lands replaces the feed. `Feed.SanitizeFeed` likewise depends on the
  response alone.

## Model

| member | source | states |
|---|---|---|
| Collections.Find | src/components/Portfolio.tsx:13 | `find`: no result exactly when no element satisfies the predicate; otherwise the result is the first element that does |
| Collections.Filter | src/components/Leaderboard.tsx:14 | `filter`: the result holds exactly the kept elements of the input, each as many times as in the input and none of the others, as an order-preserving subsequence; when every element is kept, the input is returned unchanged |
| Collections.Insert | src/components/Dashboard.tsx:69 | inserting one element adds exactly that element (as a multiset) |
| Collections.SortBy | src/components/Dashboard.tsx:69 | `sort` returns a permutation of its input |
| Collections.SortByOrdered | src/components/Dashboard.tsx:69 | under a comparator relating every pair, the sorted sequence is ordered |
| Collections.InsertOrdered | src/components/Dashboard.tsx:69 | inserting into an ordered sequence keeps it ordered |
| Collections.InsertKeepsTies | src/components/Dashboard.tsx:69 | inserting an element that may precede all elements of its tie class lands it ahead of them and leaves their order alone |
| Collections.SortByKeepsTies | src/components/Dashboard.tsx:69 | `sort` is stable: elements that may precede one another keep their input order |
| Collections.OrderedByKey | src/components/Dashboard.tsx:69 | in a sequence ordered by a comparator that respects a numeric key, the key is non-decreasing along the whole sequence, not only between neighbours |
| Collections.SubsequencePairwise | src/components/Leaderboard.tsx:13-15 | any relation holding between every earlier and later element still holds after filtering |
| Collections.SumReplace | src/components/Dashboard.tsx:24-36 | replacing one portfolio entry changes the reduced total by exactly that entry's change |
| Strings.Contains | src/components/CryptoList.tsx:41-42 | `includes` holds exactly when the term occurs as a contiguous block at some index; the empty term is always included |
| Strings.TrimStart | src/components/FriendsList.tsx:15 | the result is a suffix of the input; what was dropped is all whitespace; the result does not start with whitespace |
| Strings.TrimEnd | src/components/FriendsList.tsx:15 | the result is a prefix of the input; what was dropped is all whitespace; the result does not end with whitespace |
| Strings.Trim | src/components/FriendsList.tsx:15-16 | `trim`: the input is the result with whitespace before and after it, and the result neither starts nor ends with ECMAScript whitespace |
| Strings.TrimEmptyIffBlank | src/components/FriendsList.tsx:15 | a string trims to "" exactly when it is all whitespace |
| Strings.TrimIdempotent | src/components/FriendsList.tsx:16 | trimming twice is trimming once |
| Types.FindCrypto | src/components/Dashboard.tsx:25 | the asset found is the first in the feed with the id looked for; nothing is found exactly when no asset has that id |
| Types.OrEmpty | src/components/FriendsList.tsx:22 | a missing friend list reads as `[]`, a present one is kept |
| Ledger.PriceChange | src/components/Dashboard.tsx:162-166 | the move is zero exactly at the entry price, and positive for a long exactly when the price rose and for a short exactly when it fell |
| Ledger.Profit | src/components/Dashboard.tsx:167 | no profit at the entry price or on no units; on a positive amount at a positive leverage, a gain exactly when the price moved in the holding's favour and a loss exactly when against it |
| Ledger.Proceeds | src/components/Dashboard.tsx:169 | closing pays back exactly the principal at the entry price, and on a positive amount at a positive leverage more than the principal exactly on a favourable move and less exactly on an unfavourable one |
| Ledger.Merge | src/components/Dashboard.tsx:135-147 | the merged holding's amount is old plus bought, and it takes the order's leverage, direction and limits |
| Ledger.MergeKeepsCostBasis | src/components/Dashboard.tsx:136-142 | amount × new average price equals the old cost basis plus the cost of the purchase |
| Ledger.OpensCommute | src/components/Dashboard.tsx:135-142 | two successive entries into one holding give the same amount and average price in either order, and amount × average price is the old basis plus both costs (the notional-weighted mean) |
| Ledger.BuyStep | src/components/Dashboard.tsx:123-150 | a buy never reports a missing position; a refused buy leaves the account unchanged; an executed buy holds the asset and changes no other holding |
| Ledger.Bought | src/components/Dashboard.tsx:133-149 | the account after an accepted buy holds the asset and has every other holding unchanged |
| Ledger.BuyOutcome | src/components/Dashboard.tsx:125-131 | a buy is `InvalidAmount` exactly when amount ≤ 0, `InsufficientFunds` exactly when amount > 0 and the cost exceeds the balance, and executed exactly otherwise |
| Ledger.BuyExecutes | src/components/Dashboard.tsx:133-149 | an executed buy produces exactly the balance minus the cost and the portfolio with that one entry replaced by the merged holding |
| Ledger.BuyExecuted | src/components/Dashboard.tsx:133-147 | an executed buy debits the cost, never leaves a negative balance, keeps every holding positive, adds the amount, and takes the order's leverage, direction and limits |
| Ledger.BuyAveragesCost | src/components/Dashboard.tsx:135-142 | the new average price is the cost-weighted mean of the old average and the current price; a fresh position is entered at the current price |
| Ledger.EntryPrice | src/components/Dashboard.tsx:142 | a position opened with amount units costing amount × price has average price price |
| Ledger.SellStep | src/components/Dashboard.tsx:152-186 | refused as `NoPosition` exactly when the portfolio has no own entry for the asset or holds it at 0, and as `InvalidAmount` exactly when the amount is outside (0, held]; a refused sell changes nothing; an executed one credits principal plus profit, deletes the holding exactly when all of it is sold, otherwise keeps the rest at the same price, leverage and direction without limits, and touches no other holding; positive holdings stay positive |
| Ledger.BuyPreservesPrincipal | src/components/Dashboard.tsx:133-149 | cash plus the cost basis of all holdings is the same before and after any buy |
| Ledger.TotalValue | src/components/Dashboard.tsx:23-38 | holdings missing from the feed add nothing, so an account with no holding in the feed is worth its balance |
| Ledger.MarkedAt | src/components/Dashboard.tsx:25-33 | a holding whose asset is in the feed is valued at that asset's price |
| Ledger.SplitValue | src/components/Dashboard.tsx:162-183 | what a partial close pays back plus the value of what remains equals the value of the whole holding |
| Ledger.SellAtMarkKeepsTotalValue | src/components/Dashboard.tsx:152-186 | selling at the feed's price leaves the marked-to-market total value unchanged |
| Ledger.BuyAtMarkKeepsTotalValue | src/components/Dashboard.tsx:123-150 | buying at the feed's price leaves the total value unchanged, when the order keeps the holding's leverage and direction |
| Ledger.ValueAfterBuy | src/components/Dashboard.tsx:133-149 | when the merged holding is worth the old one plus the cost, the debit and the merge cancel out in the total value |
| Ledger.MarkAfterBuy | src/components/Dashboard.tsx:135-142 | at the feed's price, the merged holding is worth the old holding plus the cost of the purchase |
| Ledger.MarkAfterMerge | src/components/Dashboard.tsx:135-142 | the same against the feed, for any holding whose amount and cost basis add up |
| Ledger.MergedValue | src/components/Dashboard.tsx:135-142 | at one price, a merged holding is worth the old one plus the amount bought at that price |
| Ledger.OpenThenCloseAll | src/components/Dashboard.tsx:123-186 | opening a new position and then selling all of it restores the portfolio; the position is entered at the opening price, and the balance changes by exactly the profit of that entry at the closing price |
| Ledger.Ledger.constructor | src/components/Dashboard.tsx:15-16 | a new ledger has a balance of 10000 and no holdings |
| Ledger.Ledger.Buy | src/components/Dashboard.tsx:123-150 | `handleBuy` updates the balance and portfolio fields exactly as `BuyStep` and keeps every holding positive |
| Ledger.Ledger.Sell | src/components/Dashboard.tsx:152-186 | `handleSell` updates the balance and portfolio fields exactly as `SellStep` and keeps every holding positive |
| Feed.Get | src/components/Dashboard.tsx:98-102 | a field read on a record already known not to be null or undefined gives the field's value, or undefined when it is absent or the record is not an object |
| Feed.GetOptional | src/components/Dashboard.tsx:93 | optional chaining gives undefined on null or undefined, and is a plain field read otherwise |
| Feed.ToString | src/components/Dashboard.tsx:98-102 | where it does not throw (`Feed.Throws`), `String` keeps a string and gives "[object Object]" for an object; an empty array, or one holding only null or undefined, is ""; a one-element array is its element's string |
| Feed.ToNumber | src/components/Dashboard.tsx:101-102 | where it does not throw (`Feed.Throws`), `Number` keeps a number; undefined and an object without its own `toString` key are NaN; a blank string and an empty array are 0; a one-element array of a string is that string's number |
| Feed.StringToNumber | src/components/Dashboard.tsx:101-102 | a blank or whitespace-only string converts to 0 |
| Feed.OrZero | src/components/Dashboard.tsx:101-102 | `|| 0` keeps a finite number and turns NaN into 0 |
| Feed.SanitizeRecord | src/components/Dashboard.tsx:92-107 | a record has a sanitised form exactly when it is not null or undefined (reading a field of those throws) and coercing none of its fields or sparkline elements throws (an object with its own `toString` key, or an array holding one) |
| Feed.SanitizeFeed | src/components/Dashboard.tsx:92-110 | the feed is replaced exactly when the response is an array with no record on which the sanitiser throws; it then has one sanitised asset per record, in order, and otherwise the catch keeps the old feed |
| Feed.SanitizedNumbers | src/components/Dashboard.tsx:101-102 | each numeric field is the number its raw value coerces to, or 0 when that is NaN |
| Feed.NonNumericFieldsBecomeZero | src/components/Dashboard.tsx:101-102 | in a record on which nothing throws, a missing, NaN or object-valued price or change becomes 0, and the record is kept |
| Feed.OwnToStringAborts | src/components/Dashboard.tsx:92-110 | a text or numeric field holding an object with its own `toString` key makes the record and the whole response throw, so the old feed is kept |
| Feed.FiniteFieldsKept | src/components/Dashboard.tsx:101-102 | a finite numeric field is kept as it is |
| Feed.SanitizedSparkline | src/components/Dashboard.tsx:93-105 | the sparkline is `[]` unless the raw prices are an array; then it has one coerced number per element, in order |
| Feed.MissingSparklineIsEmpty | src/components/Dashboard.tsx:93-95 | a record whose `sparkline_in_7d` is missing, null or not an object gets an empty sparkline |
| Feed.StringFieldsKept | src/components/Dashboard.tsx:98-100 | string-valued id, symbol and name fields are copied verbatim |
| Ranking.MockPeers | src/components/Dashboard.tsx:45-51 | the five simulated traders have fixed emails and preset friend flags, and each value lies in [base, base + spread) for a random draw in [0, 1) |
| Ranking.MarkFriends | src/components/Dashboard.tsx:62-65 | one entry per peer, in order, flagged a friend when the user lists its email or its preset flag is set |
| Ranking.ByValueDesc | src/components/Dashboard.tsx:69 | an entry may precede another exactly when its value is at least the other's |
| Ranking.Ranked | src/components/Dashboard.tsx:70 | each entry keeps its data and gets rank = position + 1 |
| Ranking.Leaderboard | src/components/Dashboard.tsx:54-72 | one entry more than there are peers, ranks 1..N in order with no gaps, values non-increasing down the list, and with ranks cleared exactly the user's entry plus the flagged peers (a permutation) |
| Ranking.EqualValuesKeepOrder | src/components/Dashboard.tsx:68-70 | entries of equal value keep their order in `[user's entry, ...peers]`, so the user ranks ahead of every peer with the same value |
| Ranking.RankedByValue | src/components/Dashboard.tsx:69-70 | ranking a list sorted by the descending comparator lists values in non-increasing order |
| Ranking.UnrankRanked | src/components/Dashboard.tsx:70 | numbering entries that all had rank 0 and clearing the ranks again gives back the sorted entries |
| Ranking.EveryPeerListed | src/components/Dashboard.tsx:62-70 | every peer appears with its email and value, ranked by position, and flagged a friend exactly when listed by the user or preset |
| Ranking.UserListed | src/components/Dashboard.tsx:54-70 | the user's own entry appears with the user's value, not as a friend |
| Ranking.OnlyUserAndPeers | src/components/Dashboard.tsx:54-70 | every entry is the user's or one of the flagged peers' |
| PortfolioView.PositionValue | src/components/Portfolio.tsx:57 | the position value is what the holding is worth at its entry price |
| PortfolioView.CalculateTotalValue | src/components/Portfolio.tsx:11-25 | 0 when no holding's asset is in the feed |
| PortfolioView.DisplayedTotal | src/components/Portfolio.tsx:48 | just the balance when no holding's asset is in the feed |
| PortfolioView.CalculateProfit | src/components/Portfolio.tsx:27-38 | 0 when the asset is not in the feed, otherwise the leveraged, direction-signed profit on the whole holding at the feed's price |
| PortfolioView.RowValue | src/components/Portfolio.tsx:52-57 | a holding gets a row exactly when its asset is in the feed, and the row shows principal plus profit |
| PortfolioView.Listed | src/components/Portfolio.tsx:52-54 | the holdings with a row are exactly those whose asset is in the feed, unchanged |
| PortfolioView.ShortIsNegatedLong | src/components/Portfolio.tsx:31-35 | for the same holding and price, a short's profit is the negation of the long's |
| PortfolioView.NoProfitAtEntryPrice | src/components/Portfolio.tsx:30-35 | at the entry price the profit is 0, whatever the leverage or direction |
| PortfolioView.UnleveredLongAtMarket | src/components/Portfolio.tsx:56-57 | an unlevered long's row value is its amount times the current price |
| PortfolioView.DisplayedTotalIsTotalValue | src/components/Portfolio.tsx:48 | the panel's total (holdings plus balance) equals the dashboard's marked-to-market total of the same account |
| PortfolioView.TotalIsSumOfRows | src/components/Portfolio.tsx:11-25 | the holdings part of the total is the sum of the values on the rows; holdings without a row add nothing |
| PortfolioView.RowMatchesTerm | src/components/Portfolio.tsx:21-23 | a holding's term in the total equals its row value, or 0 when it has no row |
| CryptoList.SortAfter | src/components/CryptoList.tsx:30-37 | clicking the current field flips the direction; clicking another field selects it, descending |
| CryptoList.SortTwiceRestores | src/components/CryptoList.tsx:31-32 | clicking the current field twice restores the direction |
| CryptoList.Filtered | src/components/CryptoList.tsx:39-43 | the listed assets are exactly those whose lowercased name or symbol contains the lowercased term, each as many times as in the feed, in feed order |
| CryptoList.EmptyTermKeepsAll | src/components/CryptoList.tsx:41-42 | an empty search lists every asset |
| CryptoList.Compare | src/components/CryptoList.tsx:44-56 | the comparator is negative exactly when the first asset comes first in the chosen field and direction, and zero for equal prices or equal changes |
| CryptoList.Before | src/components/CryptoList.tsx:44-56 | the "may precede" relation relates every pair of assets for price and change, and for name when swapping the arguments of `localeCompare` never keeps a non-zero sign |
| CryptoList.FilteredAndSorted | src/components/CryptoList.tsx:39-56 | the sorted list is a permutation of the filtered list and holds exactly the matching assets |
| CryptoList.SortedByPrice | src/components/CryptoList.tsx:49-50 | sorted by price, the list is non-decreasing ascending and non-increasing descending |
| CryptoList.SortedByChange | src/components/CryptoList.tsx:51-52 | the same for the 24h change |
| CryptoList.EqualPricesKeepFeedOrder | src/components/CryptoList.tsx:39-56 | sorted by price, listed assets of equal price keep their feed order |
| CryptoList.EqualChangesKeepFeedOrder | src/components/CryptoList.tsx:39-56 | sorted by 24h change, listed assets of equal change keep their feed order |
| CryptoList.SortedByName | src/components/CryptoList.tsx:47-48 | sorted by name, neighbours are in the direction-adjusted collation order |
| CryptoList.CryptoList.constructor | src/components/CryptoList.tsx:16-20 | no leverage or direction chosen, an empty search, sorted by price descending |
| CryptoList.CryptoList.HandleSort | src/components/CryptoList.tsx:30-37 | the sort state becomes `SortAfter` of the old one, and nothing else changes |
| CryptoList.CryptoList.SelectLeverage | src/components/CryptoList.tsx:157 | sets one asset's leverage to an offered option, and nothing else changes |
| CryptoList.CryptoList.SetShortMode | src/components/CryptoList.tsx:130-140 | sets one asset's long/short choice, and nothing else changes |
| CryptoList.CryptoList.SetSearchTerm | src/components/CryptoList.tsx:68 | replaces the search term, and nothing else changes |
| CryptoList.CryptoList.OrderTerms | src/components/CryptoList.tsx:24-28 | the order uses the asset's chosen leverage, or 1 when none was chosen, so always an offered one for an id that names no `Object.prototype` member; it is short exactly when Short was chosen |
| LeaderboardView.FilteredEntries | src/components/Leaderboard.tsx:13-15 | with the toggle off, the entries unchanged; with it on, exactly the friends' and the user's entries, each as many times as in the input, as an order-preserving subsequence |
| LeaderboardView.OwnEntryKept | src/components/Leaderboard.tsx:14 | the user's own entry is never filtered out, and every shown entry is an input entry |
| LeaderboardView.FilteringKeepsRanks | src/components/Leaderboard.tsx:13-15 | filtering keeps ranks increasing and values non-increasing down the list, so shown ranks are the overall ranks |
| LeaderboardView.ViewOfLeaderboardInRankOrder | src/components/Leaderboard.tsx:13-15 | either view of the dashboard's leaderboard is in strict rank order with non-increasing values |
| LeaderboardView.LeaderboardPanel.constructor | src/components/Leaderboard.tsx:11 | the panel opens showing all entries |
| LeaderboardView.LeaderboardPanel.ToggleFriends | src/components/Leaderboard.tsx:25 | the button flips the friends-only view |
| LeaderboardView.LeaderboardPanel.Shown | src/components/Leaderboard.tsx:13-15 | the panel shows the filtered entries for its current toggle |
| Auth.Restore | src/contexts/AuthContext.tsx:23-34 | a session exists exactly when a saved user does; it keeps the email and id, and a missing friend list becomes `[]` |
| Auth.Persist | src/contexts/AuthContext.tsx:36-45 | a session is saved with its friend list present; no session saves nothing |
| Auth.RestorePersisted | src/contexts/AuthContext.tsx:23-45 | restoring what was saved gives back the same session |
| Auth.WithFriend | src/contexts/AuthContext.tsx:75-85 | email and id are kept; a listed email changes nothing; a new one is appended at the end |
| Auth.WithFriendMembers | src/contexts/AuthContext.tsx:77-82 | afterwards the friend is listed, and the list holds exactly the old friends and the new one |
| Auth.WithFriendIdempotent | src/contexts/AuthContext.tsx:78 | adding the same friend twice is adding it once |
| Auth.WithFriendKeepsDistinct | src/contexts/AuthContext.tsx:78-82 | a list without duplicates stays without duplicates |
| Auth.AuthProvider.constructor | src/contexts/AuthContext.tsx:23-34 | the session starts as the restored saved user |
| Auth.AuthProvider.Login | src/contexts/AuthContext.tsx:47-59 | a password shorter than 6 fails with the login error and keeps the session; otherwise the email is signed in with the given id and no friends |
| Auth.AuthProvider.Register | src/contexts/AuthContext.tsx:61-73 | the same, with the registration error |
| Auth.AuthProvider.AddFriend | src/contexts/AuthContext.tsx:75-85 | nothing happens without a session; otherwise the session becomes `WithFriend` of it; a friend list without duplicates stays so |
| Auth.AuthProvider.Logout | src/contexts/AuthContext.tsx:87-89 | the session is cleared |
| FriendsList.Submission | src/components/FriendsList.tsx:15-16 | a blank input submits nothing; any other submits its trimmed form, which is non-empty and has no surrounding whitespace |
| FriendsList.SubmissionOfTrimmed | src/components/FriendsList.tsx:15-16 | submitting an already-submitted email submits the same email |
| FriendsList.SubmitTwiceAddsOnce | src/components/FriendsList.tsx:16 | two inputs that trim to the same email add it once: the second submission changes nothing, and a new email is listed exactly once |
| FriendsList.FriendsForm.constructor | src/components/FriendsList.tsx:11 | the field starts empty |
| FriendsList.FriendsForm.SetEmail | src/components/FriendsList.tsx:36 | typing replaces the field |
| FriendsList.FriendsForm.HandleSubmit | src/components/FriendsList.tsx:13-19 | the submitted email is `Submission` of the field; a blank field adds nothing and is kept; otherwise the field is cleared |

## Left out

- The network fetch, the 30-second polling and the refresh flag (`src/components/Dashboard.tsx:76-121`) are not modelled. `Feed.SanitizeFeed` takes the decoded JSON response as a value; a failed fetch keeps the old feed.
- Prompts, alerts, navigation and rendering are not modelled. The amount typed into a prompt is a parameter of `Ledger.Ledger.Buy` and `Ledger.Ledger.Sell`. A refusal is a `TradeOutcome` in place of the alert or the silent return.
- Storage I/O is not modelled: `localStorage` and `useLocalStorage` for the user, portfolio and balance. `Auth.Restore` and `Auth.Persist` relate the session to a saved record without the JSON text. The ledger's constructor is the first start, with nothing saved.
- `Math.random()` is not modelled. User ids are a `freshId` parameter and the simulated traders' draws are a parameter of `Ranking.MockPeers`.
- IEEE-754 arithmetic is not modelled: amounts are exact reals.
  - A NaN amount from `parseFloat` passes both buy checks in the code (`NaN <= 0` and `NaN > balance` are both false), is then stored, and makes the balance NaN too. The model has no NaN amount.
  - Rounding that makes `remaining === 0` miss is not modelled.
  - Infinity is not modelled.
- The feed sanitiser leaves out `Number::toString` and the numeric-literal grammar. Both are fields of `Feed.Coercions`; only the rule that blank strings convert to 0 is spelled out.
- `Feed.ToString`: the string forms of objects without their own `toString` key and of special numbers are the fixed strings of the standard. Number formatting is not spelled out.
- `Feed.ToString` and `Feed.ToNumber` are defined only where the coercion does not throw. The TypeError case is `Feed.Throws`, and `Feed.SanitizeRecord` and `Feed.SanitizeFeed` model it as no result.
- `toLowerCase` and `localeCompare` are function parameters and not modelled; Unicode case mapping and collation are out of scope.
- `CryptoList.SortedByName`: proved only for a `localeCompare` whose sign flips (or stays 0) when its arguments are swapped, as any collation's does; the model does not define collation.
- `CryptoList.CryptoList.OrderTerms`: the leverage and short-mode maps hold own entries only. In the code they are plain objects, so for an id with no own entry that names a member of `Object.prototype` ("constructor", "toString", "valueOf", "__proto__"), `selectedLeverage[crypto.id] || 1` gives that member, which is not one of 1, 2, 5 or 10, and `shortMode[crypto.id] || false` is truthy, so the order is placed as a short. Such ids are not covered.
- `CryptoList.SortedByName`: stability for names that `localeCompare` ranks equal is not stated, since the model assumes nothing about when it returns 0; `Collections.SortByKeepsTies` covers any such tie class.
- `password.length` counts UTF-16 code units. The model counts characters, so the two differ for characters outside the Basic Multilingual Plane.
- In the code, buys and sells update state through the state setter with `prev`, while the checks read the rendered balance and holding. The model applies each order to the current state, as happens when orders do not interleave within a render.
- The take-profit and stop-loss levels are stored but nothing in the code acts on them, so no trigger evaluator is modelled.
- The `Transaction` record of `src/types.ts` is never used, and the price chart (`CryptoChart.tsx`), routing (`App.tsx`) and start-up (`main.tsx`) are not part of this model.
- The exact `reduce` over `Object.entries` is a sum over the map in no particular order. With exact reals the order cannot matter.
- Display formatting (`toLocaleString`, colours, badges) is not modelled.
- `Ledger.BuyStep`: the portfolio is a dictionary without inherited keys. In the code it is a plain object, and `prev[crypto.id] || {...}` also finds members of `Object.prototype`, so an id such as "constructor", "toString", "valueOf" or "__proto__" reads as an existing holding whose amount and average price are not numbers, and the stored amount and average price become NaN. Such ids are not covered.
- `Ledger.SellStep`: for the same reason, an id that names a member of `Object.prototype` is refused as `NoPosition` in the model. In the code `portfolio[crypto.id]` finds the inherited member, both refusal checks pass, and the balance and the stored amount become NaN. Such ids are not covered.
- `Ledger.BuyStep`: requires every stored holding to have a positive amount. That is the class invariant `Ledger.Ledger.Valid`, which the ledger starts with and every buy and sell keeps. `Ledger.Merge` itself needs only a non-negative existing amount, since the bought amount is positive. The code has no such check: only an existing amount of exactly minus the bought amount makes the total amount 0, and the division then gives ±Infinity, or NaN when the total cost is also 0.
- `CryptoList.CryptoList.SelectLeverage`: requires one of the offered leverages. The buttons at `src/components/CryptoList.tsx:154-157` are the only caller, and each passes an entry of the leverage list.
