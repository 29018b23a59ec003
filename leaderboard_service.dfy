/** The leaderboard service of the ORM backend: the weekly and all-time
    lists, ranked by position, and a user's own rank, which counts the users
    strictly ahead. */
module LeaderboardService {
  import opened Common
  import opened OrmModels
  import UserService

  datatype RankInfo = RankInfo(rank: int, totalUsers: int)

  /** `b` has at least as many elements as its subset `a`. */
  lemma SubsetSize<T>(a: set<T>, b: set<T>)
    requires a <= b
    ensures |a| <= |b|
  {
    assert b == a + (b - a);
  }

  // ------------------------------------------------------------------
  // All time
  // ------------------------------------------------------------------

  datatype AllTimeEntry = AllTimeEntry(
    rank: int,
    id: int,
    username: string,
    displayName: string,
    level: int,
    score: int,
    gamesPlayed: int,
    correctAnswers: int,
    streak: int)

  /** The users in `ORDER BY xp DESC` order. */
  predicate XpDescending(sorted: seq<User>)
  {
    forall i, j :: 0 <= i < j < |sorted| ==> sorted[i].xp >= sorted[j].xp
  }

  /** `sorted` lists every row of `users` once. */
  predicate ListsUsers(sorted: seq<User>, users: map<int, User>)
  {
    && (forall i :: 0 <= i < |sorted| ==> sorted[i].id in users && users[sorted[i].id] == sorted[i])
    && (forall id :: id in users ==> exists j :: 0 <= j < |sorted| && sorted[j].id == id)
    && (forall i, j :: 0 <= i < j < |sorted| ==> sorted[i].id != sorted[j].id)
  }

  /** getAllTimeLeaderboard over the users in query order: the first `limit`
      rows, ranked 1, 2, 3, ... by position, scored by experience. */
  function AllTimeLeaderboard(sorted: seq<User>, limit: nat): (r: seq<AllTimeEntry>)
    ensures |r| == Min(limit, |sorted|)
    ensures forall i :: 0 <= i < |r| ==> r[i].rank == i + 1 && r[i].id == sorted[i].id && r[i].score == sorted[i].xp
    ensures XpDescending(sorted) ==> forall i, j :: 0 <= i < j < |r| ==> r[i].score >= r[j].score
  {
    var top := Take(sorted, limit);
    seq(|top|, i requires 0 <= i < |top| =>
      var u := top[i];
      AllTimeEntry(i + 1, u.id, u.username, u.displayName, u.level, u.xp, u.totalGames, u.totalCorrectAnswers, u.currentStreak))
  }

  /** The users with strictly more experience. */
  function Ahead(users: map<int, User>, xp: int): set<int>
  {
    set id | id in users && users[id].xp > xp
  }

  /** getUserRank for the all-time period: null for an unknown user, else
      one more than the number of users with strictly more experience, out
      of all users. */
  function AllTimeRank(users: map<int, User>, userId: int): (r: Option<RankInfo>)
    ensures r.None? <==> userId !in users
    ensures r.Some? ==> r.value.rank == |Ahead(users, users[userId].xp)| + 1
    ensures r.Some? ==> 1 <= r.value.rank <= r.value.totalUsers == |users|
  {
    if userId !in users then None
    else
      var ahead := Ahead(users, users[userId].xp);
      SubsetSize(ahead, users.Keys - {userId});
      Some(RankInfo(|ahead| + 1, |users|))
  }

  /** More experience never gives a worse rank; equal experience shares one. */
  lemma RankMonotone(users: map<int, User>, a: int, b: int)
    requires a in users && b in users && users[a].xp >= users[b].xp
    ensures AllTimeRank(users, a).value.rank <= AllTimeRank(users, b).value.rank
    ensures users[a].xp == users[b].xp ==> AllTimeRank(users, a) == AllTimeRank(users, b)
  {
    SubsetSize(Ahead(users, users[a].xp), Ahead(users, users[b].xp));
  }

  /** The ids of the first n listed users. */
  function Listed(sorted: seq<User>, n: nat): (ids: set<int>)
    requires n <= |sorted|
    ensures |ids| <= n
    ensures forall id :: id in ids <==> exists j :: 0 <= j < n && sorted[j].id == id
  {
    if n == 0 then {} else Listed(sorted, n - 1) + {sorted[n - 1].id}
  }

  /** The user rank never exceeds the user's position in the all-time list:
      everyone strictly ahead is listed above. */
  lemma RankAtMostPosition(users: map<int, User>, sorted: seq<User>, i: nat)
    requires ListsUsers(sorted, users) && XpDescending(sorted) && i < |sorted|
    ensures AllTimeRank(users, sorted[i].id).Some?
    ensures AllTimeRank(users, sorted[i].id).value.rank <= i + 1
  {
    var xp := sorted[i].xp;
    forall id | id in Ahead(users, xp)
      ensures id in Listed(sorted, i)
    {
      var j :| 0 <= j < |sorted| && sorted[j].id == id;
      assert j < i;
    }
    SubsetSize(Ahead(users, xp), Listed(sorted, i));
  }

  // ------------------------------------------------------------------
  // Weekly
  // ------------------------------------------------------------------

  datatype WeeklyEntry = WeeklyEntry(
    rank: int,
    id: int,
    username: string,
    displayName: string,
    level: int,
    score: int,
    gamesPlayed: int,
    streak: int)

  /** The users with a completed game since `since`. */
  function WeeklyPlayers(games: seq<Game>, since: int): set<int>
  {
    set k | 0 <= k < |games| && UserService.CompletedSince(games[k], games[k].userId, since) :: games[k].userId
  }

  /** A user's weekly score: the sum over their games completed since `since`. */
  function WeeklyScore(games: seq<Game>, userId: int, since: int): int
  {
    UserService.SumScore(UserService.GamesSince(games, userId, since))
  }

  /** A user's weekly game count: their games completed since `since`. */
  function WeeklyGames(games: seq<Game>, userId: int, since: int): nat
  {
    |UserService.GamesSince(games, userId, since)|
  }

  /** A weekly player has played at least one game that week. */
  lemma PlayerHasGames(games: seq<Game>, userId: int, since: int)
    requires userId in WeeklyPlayers(games, since)
    ensures WeeklyGames(games, userId, since) >= 1
  {
    var k :| 0 <= k < |games| && UserService.CompletedSince(games[k], games[k].userId, since) && games[k].userId == userId;
    assert games[k] in UserService.GamesSince(games, userId, since);
  }

  /** The rows of the grouped weekly query: the inner join (`required:
      true`) keeps the users with at least one game completed since `since`. */
  function WeeklyEntrants(users: map<int, User>, games: seq<Game>, since: int): set<int>
  {
    set id | id in users && id in WeeklyPlayers(games, since)
  }

  predicate Distinct(ids: seq<int>)
  {
    forall i, j :: 0 <= i < j < |ids| ==> ids[i] != ids[j]
  }

  /** The ids `order` lists first, n of them. */
  function ListedIds(order: seq<int>, n: nat): (ids: set<int>)
    requires n <= |order|
    ensures |ids| <= n
    ensures Distinct(order) ==> |ids| == n
    ensures forall id :: id in ids <==> exists j :: 0 <= j < n && order[j] == id
  {
    if n == 0 then {} else ListedIds(order, n - 1) + {order[n - 1]}
  }

  /** `order` is the grouped rows in `ORDER BY weeklyScore DESC` order: every
      entrant once, by non-increasing weekly score, ties in any order. */
  predicate WeeklyOrder(users: map<int, User>, games: seq<Game>, since: int, order: seq<int>)
  {
    && (forall i :: 0 <= i < |order| ==> order[i] in WeeklyEntrants(users, games, since))
    && (forall id :: id in WeeklyEntrants(users, games, since) ==> id in order)
    && Distinct(order)
    && (forall i, j :: 0 <= i < j < |order| ==> WeeklyScore(games, order[i], since) >= WeeklyScore(games, order[j], since))
  }

  /** The query order lists exactly the entrants, so as many as there are. */
  lemma OrderSize(users: map<int, User>, games: seq<Game>, since: int, order: seq<int>)
    requires WeeklyOrder(users, games, since, order)
    ensures |order| == |WeeklyEntrants(users, games, since)|
  {
    assert ListedIds(order, |order|) == WeeklyEntrants(users, games, since);
  }

  /** getWeeklyLeaderboard, with the week starting at `since` and the
      grouped rows in query order: the first `limit` entrants (50 by
      default), ranked 1, 2, 3, ... by position, each with the sum and count
      of their week's games (never null under the inner join, so the `|| 0`
      fallback only maps 0 to 0) and their profile fields. */
  function WeeklyLeaderboard(users: map<int, User>, games: seq<Game>, since: int, order: seq<int>, limit: nat): (r: seq<WeeklyEntry>)
    requires WeeklyOrder(users, games, since, order)
    ensures |r| == Min(limit, |WeeklyEntrants(users, games, since)|) && |r| <= |order|
    ensures forall i :: 0 <= i < |r| ==>
      && r[i].rank == i + 1 && r[i].id == order[i]
      && r[i].id in WeeklyEntrants(users, games, since)
      && r[i].score == WeeklyScore(games, r[i].id, since)
      && r[i].gamesPlayed == WeeklyGames(games, r[i].id, since) >= 1
      && r[i].username == users[r[i].id].username && r[i].displayName == users[r[i].id].displayName
      && r[i].level == users[r[i].id].level && r[i].streak == users[r[i].id].currentStreak
    ensures forall i, j :: 0 <= i < j < |r| ==> r[i].id != r[j].id && r[i].score >= r[j].score
  {
    OrderSize(users, games, since, order);
    var top := Take(order, limit);
    seq(|top|, i requires 0 <= i < |top| =>
      var u := users[top[i]];
      PlayerHasGames(games, top[i], since);
      WeeklyEntry(i + 1, top[i], u.username, u.displayName, u.level, WeeklyScore(games, top[i], since),
                  WeeklyGames(games, top[i], since), u.currentStreak))
  }

  /** An entrant left off the list did not outscore anyone on it, and the
      list is cut short only by the limit. */
  lemma WeeklyLeaderboardTop(users: map<int, User>, games: seq<Game>, since: int, order: seq<int>, limit: nat, id: int)
    requires WeeklyOrder(users, games, since, order)
    requires id in WeeklyEntrants(users, games, since)
    requires forall i :: 0 <= i < |WeeklyLeaderboard(users, games, since, order, limit)| ==>
      WeeklyLeaderboard(users, games, since, order, limit)[i].id != id
    ensures |WeeklyLeaderboard(users, games, since, order, limit)| == limit
    ensures forall i :: 0 <= i < limit ==> WeeklyLeaderboard(users, games, since, order, limit)[i].score >= WeeklyScore(games, id, since)
  {
    var r := WeeklyLeaderboard(users, games, since, order, limit);
    var p :| 0 <= p < |order| && order[p] == id;
    assert forall i :: 0 <= i < |r| ==> order[i] != id;
    assert p >= |r|;
    forall i | 0 <= i < |r|
      ensures r[i].score >= WeeklyScore(games, id, since)
    {
      assert r[i].id == order[i];
    }
  }

  /** getWeeklyLeaderboard as written: its attribute list calls
      `sequelize.fn`, which leaderboardService.js never binds, so every call
      throws a ReferenceError. */
  function WeeklyLeaderboardAsWritten(users: map<int, User>, games: seq<Game>, since: int, limit: nat): (r: Result<seq<WeeklyEntry>>)
    ensures r.Err? && r.error.status == 500
  {
    Err(Error(500, "sequelize is not defined"))
  }

  /** Even an empty week gives a list as intended, and an error as written. */
  lemma WeeklyLeaderboardNeverServed(users: map<int, User>, games: seq<Game>, since: int, order: seq<int>, limit: nat)
    requires WeeklyOrder(users, games, since, order)
    ensures |WeeklyLeaderboard(users, games, since, order, limit)| == Min(limit, |WeeklyEntrants(users, games, since)|)
    ensures WeeklyLeaderboardAsWritten(users, games, since, limit).Err?
  {
  }

  /** The weekly players with a strictly higher weekly score. */
  function AheadThisWeek(games: seq<Game>, since: int, score: int): set<int>
  {
    set id | id in WeeklyPlayers(games, since) && WeeklyScore(games, id, since) > score
  }

  /** getUserRank for the weekly period: null for an unknown user; the
      caller's weekly score (0 without games), and one more than the number
      of weekly players strictly ahead, out of the weekly players. */
  function WeeklyRank(users: map<int, User>, games: seq<Game>, userId: int, since: int): (r: Option<RankInfo>)
    ensures r.None? <==> userId !in users
    ensures r.Some? ==> r.value.rank == |AheadThisWeek(games, since, WeeklyScore(games, userId, since))| + 1
    ensures r.Some? ==> r.value.totalUsers == |WeeklyPlayers(games, since)| && r.value.rank >= 1
    ensures r.Some? && userId in WeeklyPlayers(games, since) ==> r.value.rank <= r.value.totalUsers
  {
    if userId !in users then None
    else
      var score := WeeklyScore(games, userId, since);
      var ahead := AheadThisWeek(games, since, score);
      var players := WeeklyPlayers(games, since);
      assert userId in players ==> |ahead| < |players| by {
        if userId in players {
          SubsetSize(ahead, players - {userId});
        }
      }
      Some(RankInfo(|ahead| + 1, |players|))
  }

  /** When every weekly player is a user, a user's weekly rank is at most
      their position on the weekly list: every player strictly ahead is
      listed above them. */
  lemma WeeklyRankAtMostPosition(users: map<int, User>, games: seq<Game>, since: int, order: seq<int>, i: nat)
    requires WeeklyOrder(users, games, since, order) && i < |order|
    requires WeeklyPlayers(games, since) <= users.Keys
    ensures WeeklyRank(users, games, order[i], since).Some?
    ensures WeeklyRank(users, games, order[i], since).value.rank <= i + 1
  {
    var ahead := AheadThisWeek(games, since, WeeklyScore(games, order[i], since));
    var listed := ListedIds(order, i);
    forall id | id in ahead
      ensures id in listed
    {
      assert id in WeeklyEntrants(users, games, since);
      var j :| 0 <= j < |order| && order[j] == id;
      OutscoringIsBefore(games, since, order, i, j);
    }
    SubsetSize(ahead, listed);
  }

  /** In the query order, a player with a strictly higher weekly score comes first. */
  lemma OutscoringIsBefore(games: seq<Game>, since: int, order: seq<int>, i: nat, j: nat)
    requires i < |order| && j < |order|
    requires forall a, b :: 0 <= a < b < |order| ==> WeeklyScore(games, order[a], since) >= WeeklyScore(games, order[b], since)
    requires WeeklyScore(games, order[j], since) > WeeklyScore(games, order[i], since)
    ensures j < i
  {
  }

  /** getUserRank: the weekly rank for "weekly", the all-time rank otherwise. */
  function GetUserRank(users: map<int, User>, games: seq<Game>, userId: int, period: string, since: int): (r: Option<RankInfo>)
    ensures r.None? <==> userId !in users
    ensures r.Some? ==> r.value.rank >= 1
    ensures period == "weekly" ==> r == WeeklyRank(users, games, userId, since)
    ensures period != "weekly" ==> r == AllTimeRank(users, userId)
  {
    if period == "weekly" then WeeklyRank(users, games, userId, since) else AllTimeRank(users, userId)
  }

  /** getUserRank as written: the weekly branch builds its query with the
      unbound `sequelize` and throws before any lookup, so only the all-time
      branch answers. */
  function GetUserRankAsWritten(users: map<int, User>, userId: int, period: string): (r: Result<Option<RankInfo>>)
    ensures r.Err? <==> period == "weekly"
    ensures r.Ok? ==> r.value == AllTimeRank(users, userId)
  {
    if period == "weekly" then Err(Error(500, "sequelize is not defined")) else Ok(AllTimeRank(users, userId))
  }

  /** The default weekly period fails as written, even for an existing
      user, whose rank exists as intended. */
  lemma WeeklyRankNeverServed(users: map<int, User>, games: seq<Game>, userId: int, since: int)
    requires userId in users
    ensures GetUserRankAsWritten(users, userId, "weekly").Err?
    ensures GetUserRank(users, games, userId, "weekly", since).Some?
    ensures GetUserRank(users, games, userId, "weekly", since).value.rank ==
              |AheadThisWeek(games, since, WeeklyScore(games, userId, since))| + 1
  {
  }
}
