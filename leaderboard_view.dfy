/**
 * The leaderboard panel: it shows the ranked entries, or with the friends
 * toggle on only the friends' entries and the signed-in user's own.
 */
module LeaderboardView {
  import opened Types
  import Collections
  import Ranking

  /** An entry the friends-only view keeps. */
  function FriendOrSelf(currentUserEmail: string): LeaderboardEntry -> bool {
    (e: LeaderboardEntry) => e.isFriend || e.email == currentUserEmail
  }

  /**
   * `filteredEntries`: all entries, or in the friends-only view the
   * order-preserving subsequence of friends and the user's own entry.
   */
  function FilteredEntries(entries: seq<LeaderboardEntry>, currentUserEmail: string, showOnlyFriends: bool):
    (r: seq<LeaderboardEntry>)
    ensures !showOnlyFriends ==> r == entries
    ensures Collections.IsSubsequence(r, entries)
    ensures showOnlyFriends ==>
      forall e :: e in r <==> e in entries && (e.isFriend || e.email == currentUserEmail)
    ensures showOnlyFriends ==>
      forall e :: multiset(r)[e] == if e.isFriend || e.email == currentUserEmail then multiset(entries)[e] else 0
  {
    if showOnlyFriends then Collections.Filter(entries, FriendOrSelf(currentUserEmail))
    else
      assert Collections.IsSubsequence(entries, entries) by { Collections.SubsequenceOfItself(entries); }
      entries
  }

  /** The user's own entries are never filtered out, and nothing shown is made up. */
  lemma OwnEntryKept(entries: seq<LeaderboardEntry>, currentUserEmail: string, showOnlyFriends: bool)
    ensures var r := FilteredEntries(entries, currentUserEmail, showOnlyFriends);
      forall e :: e in entries && e.email == currentUserEmail ==> e in r
    ensures forall e :: e in FilteredEntries(entries, currentUserEmail, showOnlyFriends) ==> e in entries
  {
    Collections.SubsequenceMembers(FilteredEntries(entries, currentUserEmail, showOnlyFriends), entries);
  }

  /** An earlier entry has a smaller rank and at least the value of a later one. */
  function RankOrder(a: LeaderboardEntry, b: LeaderboardEntry): bool {
    a.rank < b.rank && a.totalValue >= b.totalValue
  }

  /**
   * Filtering changes no entry: ranks still increase down the list and
   * values still do not, so the friends-only view shows the overall ranks,
   * with gaps.
   */
  lemma FilteringKeepsRanks(entries: seq<LeaderboardEntry>, currentUserEmail: string, showOnlyFriends: bool)
    requires Collections.Pairwise(entries, RankOrder)
    ensures Collections.Pairwise(FilteredEntries(entries, currentUserEmail, showOnlyFriends), RankOrder)
  {
    Collections.SubsequencePairwise(FilteredEntries(entries, currentUserEmail, showOnlyFriends), entries, RankOrder);
  }

  /** The dashboard's leaderboard is in rank order, so either view of it is too. */
  lemma ViewOfLeaderboardInRankOrder(user: User, totalValue: real, peers: seq<Ranking.Peer>, showOnlyFriends: bool)
    ensures var r := FilteredEntries(Ranking.Leaderboard(user, totalValue, peers), user.email, showOnlyFriends);
      forall i, j :: 0 <= i < j < |r| ==> r[i].rank < r[j].rank && r[i].totalValue >= r[j].totalValue
  {
    var board := Ranking.Leaderboard(user, totalValue, peers);
    assert Collections.Pairwise(board, RankOrder);
    FilteringKeepsRanks(board, user.email, showOnlyFriends);
  }

  /** The panel's toggle. */
  class LeaderboardPanel {
    var showOnlyFriends: bool

    /** The panel opens on all entries. */
    constructor ()
      ensures !showOnlyFriends
    {
      showOnlyFriends := false;
    }

    /** The Friends / All button. */
    method ToggleFriends()
      modifies this
      ensures showOnlyFriends == !old(showOnlyFriends)
    {
      showOnlyFriends := !showOnlyFriends;
    }

    /** The entries the panel shows. */
    method Shown(entries: seq<LeaderboardEntry>, currentUserEmail: string) returns (r: seq<LeaderboardEntry>)
      ensures r == FilteredEntries(entries, currentUserEmail, showOnlyFriends)
    {
      r := FilteredEntries(entries, currentUserEmail, showOnlyFriends);
    }
  }
}
