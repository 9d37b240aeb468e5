/**
 * The dashboard's leaderboard: the signed-in user's entry and the peer
 * entries, flagged as friends, sorted by total value (highest first) and
 * numbered from 1.
 */
module Ranking {
  import opened Types
  import Collections

  /** A peer entry before ranking; its value and preset friend flag are inputs. */
  datatype Peer = Peer(email: string, totalValue: real, isFriend: bool)

  /** The simulated traders: email, base value, random spread and preset friend flag. */
  const MockEmails: seq<string> :=
    ["trader1@example.com", "crypto_king@example.com", "hodler99@example.com",
     "satoshi_fan@example.com", "altcoin_lover@example.com"]
  const MockBases: seq<real> := [12500.0, 15000.0, 8000.0, 20000.0, 5000.0]
  const MockSpreads: seq<real> := [5000.0, 7000.0, 3000.0, 10000.0, 2000.0]
  const MockFriends: seq<bool> := [true, false, false, false, true]

  /**
   * The simulated traders for five draws of `Math.random()`: each value is
   * its base plus the draw times its spread, so a draw in [0, 1) puts the
   * value in [base, base + spread).
   */
  function MockPeers(draws: seq<real>): (r: seq<Peer>)
    requires |draws| == 5
    ensures |r| == 5
    ensures forall i :: 0 <= i < 5 ==> r[i].email == MockEmails[i] && r[i].isFriend == MockFriends[i]
    ensures forall i :: 0 <= i < 5 && 0.0 <= draws[i] < 1.0 ==>
      MockBases[i] <= r[i].totalValue < MockBases[i] + MockSpreads[i]
  {
    seq(5, i requires 0 <= i < 5 => Peer(MockEmails[i], MockBases[i] + draws[i] * MockSpreads[i], MockFriends[i]))
  }

  /** The signed-in user's entry: rank 0 until ranked, never a friend. */
  function UserEntry(user: User, totalValue: real): LeaderboardEntry {
    LeaderboardEntry(user.email, totalValue, 0, false)
  }

  /** A peer is a friend when the user lists its email or its preset flag is set. */
  function MarkFriend(user: User, p: Peer): LeaderboardEntry {
    LeaderboardEntry(p.email, p.totalValue, 0, p.email in user.friends || p.isFriend)
  }

  function MarkFriends(user: User, peers: seq<Peer>): (r: seq<LeaderboardEntry>)
    ensures |r| == |peers| && forall k :: 0 <= k < |peers| ==> r[k] == MarkFriend(user, peers[k])
  {
    seq(|peers|, k requires 0 <= k < |peers| => MarkFriend(user, peers[k]))
  }

  /** The comparator `(a, b) => b.totalValue - a.totalValue`, as "a may precede b". */
  function ByValueDesc(a: LeaderboardEntry, b: LeaderboardEntry): (r: bool)
    ensures r <==> a.totalValue >= b.totalValue
  {
    b.totalValue - a.totalValue <= 0.0
  }

  /** `map((entry, index) => ({ ...entry, rank: index + 1 }))`. */
  function Ranked(s: seq<LeaderboardEntry>): (r: seq<LeaderboardEntry>)
    ensures |r| == |s|
    ensures forall i :: 0 <= i < |s| ==> r[i] == s[i].(rank := i + 1)
  {
    seq(|s|, i requires 0 <= i < |s| => s[i].(rank := i + 1))
  }

  /** The entries with their ranks cleared. */
  function Unranked(s: seq<LeaderboardEntry>): seq<LeaderboardEntry> {
    seq(|s|, i requires 0 <= i < |s| => s[i].(rank := 0))
  }

  /**
   * The leaderboard for `user` at `totalValue` among `peers`: one entry
   * more than there are peers, ranked 1..N in order, with non-increasing
   * values, and holding exactly the user's entry and the flagged peers.
   */
  function Leaderboard(user: User, totalValue: real, peers: seq<Peer>): (r: seq<LeaderboardEntry>)
    ensures |r| == |peers| + 1
    ensures forall i :: 0 <= i < |r| ==> r[i].rank == i + 1
    ensures forall i, j :: 0 <= i <= j < |r| ==> r[i].totalValue >= r[j].totalValue
    ensures multiset(Unranked(r)) == multiset([UserEntry(user, totalValue)] + MarkFriends(user, peers))
  {
    var entries := [UserEntry(user, totalValue)] + MarkFriends(user, peers);
    var sorted := Collections.SortBy(entries, ByValueDesc);
    Collections.SortByOrdered(entries, ByValueDesc);
    RankedByValue(sorted);
    UnrankRanked(sorted, entries);
    Ranked(sorted)
  }

  /** The entries valued at `v`. */
  function ValueIs(v: real): LeaderboardEntry -> bool {
    (e: LeaderboardEntry) => e.totalValue == v
  }

  /**
   * The sort is stable: entries of equal value keep their order in
   * `[user's entry] + peers`, so the user is ranked ahead of every peer
   * with the same value.
   */
  lemma EqualValuesKeepOrder(user: User, totalValue: real, peers: seq<Peer>, v: real)
    ensures Collections.Filter(Unranked(Leaderboard(user, totalValue, peers)), ValueIs(v))
         == Collections.Filter([UserEntry(user, totalValue)] + MarkFriends(user, peers), ValueIs(v))
  {
    var entries := [UserEntry(user, totalValue)] + MarkFriends(user, peers);
    var sorted := Collections.SortBy(entries, ByValueDesc);
    UnrankRanked(sorted, entries);
    Collections.SortByKeepsTies(entries, ByValueDesc, ValueIs(v));
  }

  /** Ranking a sequence sorted by `ByValueDesc` lists non-increasing values. */
  lemma RankedByValue(sorted: seq<LeaderboardEntry>)
    requires Collections.Ordered(sorted, ByValueDesc)
    ensures var r := Ranked(sorted);
      forall i, j :: 0 <= i <= j < |r| ==> r[i].totalValue >= r[j].totalValue
  {
    var r := Ranked(sorted);
    forall i, j | 0 <= i <= j < |r| ensures r[i].totalValue >= r[j].totalValue {
      Collections.OrderedByKey(sorted, ByValueDesc, (e: LeaderboardEntry) => -e.totalValue, i, j);
    }
  }

  /** Ranks assigned to unranked entries can be cleared again. */
  lemma UnrankRanked(sorted: seq<LeaderboardEntry>, entries: seq<LeaderboardEntry>)
    requires multiset(sorted) == multiset(entries)
    requires forall i :: 0 <= i < |entries| ==> entries[i].rank == 0
    ensures Unranked(Ranked(sorted)) == sorted
  {
    forall i | 0 <= i < |sorted| ensures sorted[i].rank == 0 {
      assert sorted[i] in multiset(entries);
    }
  }

  /** `e`, at position `i`, is `p`'s entry, ranked and flagged. */
  ghost predicate ListsPeer(e: LeaderboardEntry, i: int, user: User, p: Peer) {
    && e.rank == i + 1
    && e.email == p.email && e.totalValue == p.totalValue
    && (e.isFriend <==> p.email in user.friends || p.isFriend)
  }

  /** Every peer appears on the leaderboard, flagged as a friend exactly when listed or preset. */
  lemma EveryPeerListed(user: User, totalValue: real, peers: seq<Peer>, k: int)
    requires 0 <= k < |peers|
    ensures var r := Leaderboard(user, totalValue, peers);
      exists i :: 0 <= i < |r| && ListsPeer(r[i], i, user, peers[k])
  {
    var r := Leaderboard(user, totalValue, peers);
    var entries := [UserEntry(user, totalValue)] + MarkFriends(user, peers);
    assert entries[k + 1] == MarkFriend(user, peers[k]);
    assert MarkFriend(user, peers[k]) in multiset(Unranked(r));
    var i :| 0 <= i < |r| && Unranked(r)[i] == MarkFriend(user, peers[k]);
  }

  /** The user's own entry appears on the leaderboard with the user's value, not as a friend. */
  lemma UserListed(user: User, totalValue: real, peers: seq<Peer>)
    ensures var r := Leaderboard(user, totalValue, peers);
      exists i :: 0 <= i < |r| && r[i] == UserEntry(user, totalValue).(rank := i + 1)
  {
    var r := Leaderboard(user, totalValue, peers);
    assert UserEntry(user, totalValue) in multiset(Unranked(r));
    var i :| 0 <= i < |r| && Unranked(r)[i] == UserEntry(user, totalValue);
  }

  /** Every leaderboard entry is the user's entry or one of the flagged peers. */
  lemma OnlyUserAndPeers(user: User, totalValue: real, peers: seq<Peer>, i: int)
    requires 0 <= i < |peers| + 1
    ensures var e := Leaderboard(user, totalValue, peers)[i];
      || (e.email == user.email && e.totalValue == totalValue && !e.isFriend)
      || exists k :: 0 <= k < |peers| && e.email == peers[k].email && e.totalValue == peers[k].totalValue &&
           (e.isFriend <==> peers[k].email in user.friends || peers[k].isFriend)
  {
    var r := Leaderboard(user, totalValue, peers);
    var entries := [UserEntry(user, totalValue)] + MarkFriends(user, peers);
    assert Unranked(r)[i] in multiset(entries);
    var j :| 0 <= j < |entries| && entries[j] == Unranked(r)[i];
    if j > 0 {
      assert entries[j] == MarkFriend(user, peers[j - 1]);
    }
  }
}
