/** The user service of the ORM backend: profile updates, the statistics
    page, the achievement catalogue merged with a user's unlocks, and the
    three daily challenges. Query results are the tables given as
    sequences; the service's filters are written out over them. */
module UserService {
  import opened Common
  import opened GameLogic
  import opened OrmModels
  import GameService

  const NotFound: Error := Error(404, "User not found")

  /** The user's columns without the password. */
  datatype Profile = Profile(
    id: int,
    username: string,
    email: string,
    displayName: string,
    level: int,
    xp: nat,
    coins: int,
    currentStreak: int,
    bestStreak: int,
    totalGames: int,
    totalCorrectAnswers: int,
    lastPlayDate: Option<int>)

  function ProfileOf(u: User): Profile
  {
    Profile(u.id, u.username, u.email, u.displayName, u.level, u.xp, u.coins, u.currentStreak,
            u.bestStreak, u.totalGames, u.totalCorrectAnswers, u.lastPlayDate)
  }

  /** The profile does not depend on the password. */
  lemma ProfileHidesPassword(u: User, password: string)
    ensures ProfileOf(u.(password := password)) == ProfileOf(u)
  {
  }

  /** The attributes an update names; the others are left alone. */
  datatype UserPatch = UserPatch(
    username: Option<string>,
    email: Option<string>,
    password: Option<string>,
    displayName: Option<string>,
    level: Option<int>,
    xp: Option<nat>,
    coins: Option<int>,
    currentStreak: Option<int>,
    bestStreak: Option<int>,
    totalGames: Option<int>,
    totalCorrectAnswers: Option<int>,
    lastPlayDate: Option<Option<int>>)

  function Pick<T>(given: Option<T>, current: T): T
  {
    if given.Some? then given.value else current
  }

  /** `instance.update(updateData)`: every named attribute takes its new value. */
  function Patched(u: User, p: UserPatch): (v: User)
    ensures v.id == u.id
    ensures p.username.Some? ==> v.username == p.username.value
    ensures p.username.None? ==> v.username == u.username
    ensures p.email.Some? ==> v.email == p.email.value
    ensures p.email.None? ==> v.email == u.email
    ensures p.password.None? ==> v.password == u.password
    ensures p.xp.None? ==> v.xp == u.xp
    ensures p == UserPatch(None, None, None, None, None, None, None, None, None, None, None, None) ==> v == u
  {
    User(u.id, Pick(p.username, u.username), Pick(p.email, u.email), Pick(p.password, u.password),
         Pick(p.displayName, u.displayName), Pick(p.level, u.level), Pick(p.xp, u.xp), Pick(p.coins, u.coins),
         Pick(p.currentStreak, u.currentStreak), Pick(p.bestStreak, u.bestStreak), Pick(p.totalGames, u.totalGames),
         Pick(p.totalCorrectAnswers, u.totalCorrectAnswers), Pick(p.lastPlayDate, u.lastPlayDate))
  }

  /** Applying the same update twice is applying it once. */
  lemma PatchIdempotent(u: User, p: UserPatch)
    ensures Patched(Patched(u, p), p) == Patched(u, p)
  {
  }

  /** updateProfile: 404 for an unknown user; otherwise the row is updated
      and returned without its password. */
  method UpdateProfile(store: Store, userId: int, patch: UserPatch) returns (r: Result<Profile>)
    requires store.Valid()
    modifies store
    ensures store.Valid()
    ensures userId !in old(store.users) ==> r == Err(NotFound) && store.users == old(store.users)
    ensures userId in old(store.users) ==>
      && store.users == old(store.users)[userId := Patched(old(store.users)[userId], patch)]
      && r == Ok(ProfileOf(store.users[userId]))
    ensures store.games == old(store.games) && store.gameQuestions == old(store.gameQuestions)
    ensures store.questions == old(store.questions) && store.achievements == old(store.achievements)
    ensures store.nextGameId == old(store.nextGameId) && store.categoryIds == old(store.categoryIds)
  {
    if userId !in store.users {
      return Err(NotFound);
    }
    var updated := Patched(store.users[userId], patch);
    store.UpdateUser(userId, updated);
    r := Ok(ProfileOf(updated));
  }

  // ------------------------------------------------------------------
  // Statistics
  // ------------------------------------------------------------------

  /** `thisWeek.setDate(thisWeek.getDate() - 7)`, as seven days of milliseconds. */
  const WeekMillis: int := 7 * GameService.DayMillis

  /** A completed game of the user, finished at or after `since`. */
  predicate CompletedSince(g: Game, userId: int, since: int)
  {
    g.userId == userId && g.status == Completed && g.completedAt.Some? && g.completedAt.value >= since
  }

  /** The rows the weekly-statistics query matches, in table order. */
  function GamesSince(games: seq<Game>, userId: int, since: int): (r: seq<Game>)
    ensures forall g :: g in r <==> g in games && CompletedSince(g, userId, since)
    ensures |r| <= |games|
  {
    if games == [] then []
    else GamesSince(games[..|games| - 1], userId, since)
         + (if CompletedSince(games[|games| - 1], userId, since) then [games[|games| - 1]] else [])
  }

  function SumScore(games: seq<Game>): int
  {
    if games == [] then 0 else SumScore(games[..|games| - 1]) + games[|games| - 1].score
  }

  function SumCorrect(games: seq<Game>): int
  {
    if games == [] then 0 else SumCorrect(games[..|games| - 1]) + games[|games| - 1].correctAnswers
  }

  /** The overall accuracy of the statistics page: correct answers out of ten
      questions per game played, rounded; 0 before the first game. */
  function OverallAccuracy(totalCorrectAnswers: int, totalGames: int): (a: int)
    ensures totalGames <= 0 ==> a == 0
    ensures 0 <= totalCorrectAnswers <= 10 * totalGames ==> 0 <= a <= 100
    ensures totalGames > 0 && totalCorrectAnswers == 10 * totalGames ==> a == 100
    ensures totalGames > 0 ==> 2 * (10 * totalGames) * a - 10 * totalGames <= 200 * totalCorrectAnswers < 2 * (10 * totalGames) * a + 10 * totalGames
  {
    if totalGames > 0 then Accuracy(totalCorrectAnswers, totalGames * 10) else 0
  }

  /** The ten-questions-per-game assumption does not hold for the 50-question
      sixty-second mode: one perfect such game reads as 500%. */
  lemma AccuracyAssumesTenPerGame()
    ensures GameService.QuestionCount("sixty-second") == 50
    ensures OverallAccuracy(50, 1) == 500
  {
  }

  /** For every number of games: a user averaging at least eleven correct
      answers per game reads above 100%, and one whose every game was a
      perfect sixty-second game reads exactly 500%. */
  lemma AccuracyAboveHundred(totalCorrectAnswers: int, totalGames: int)
    requires totalGames > 0 && totalCorrectAnswers >= 11 * totalGames
    ensures OverallAccuracy(totalCorrectAnswers, totalGames) >= 110
    ensures totalCorrectAnswers == 50 * totalGames ==> OverallAccuracy(totalCorrectAnswers, totalGames) == 500
  {
    var a := OverallAccuracy(totalCorrectAnswers, totalGames);
    var t := 10 * totalGames;
    assert 200 * totalCorrectAnswers < 2 * t * a + t;
    assert 200 * totalCorrectAnswers >= 220 * t;
    if a < 110 {
      assert 2 * t * a + t <= 2 * t * 109 + t by {
        MulLe(2 * t, a, 109);
      }
    }
    if totalCorrectAnswers == 50 * totalGames {
      assert 2 * t * a - t <= 1000 * t < 2 * t * a + t;
      if a < 500 {
        MulLe(2 * t, a, 499);
      } else if a > 500 {
        MulLe(2 * t, 501, a);
      }
    }
  }

  datatype UserStats = UserStats(
    profile: Profile,
    gamesThisWeek: nat,
    scoreThisWeek: int,
    correctAnswersThisWeek: int,
    accuracy: int)

  /** getUserStats: 404 for an unknown user; otherwise the profile with the
      week's count and sums (0 when no game matched) and the accuracy. */
  function GetUserStats(users: map<int, User>, games: seq<Game>, userId: int, now: int): (r: Result<UserStats>)
    ensures r.Err? <==> userId !in users
    ensures r.Err? ==> r.error == NotFound
    ensures r.Ok? ==>
      var week := GamesSince(games, userId, now - WeekMillis);
      && r.value.profile == ProfileOf(users[userId])
      && r.value.gamesThisWeek == |week|
      && r.value.scoreThisWeek == SumScore(week) && r.value.correctAnswersThisWeek == SumCorrect(week)
      && r.value.accuracy == OverallAccuracy(users[userId].totalCorrectAnswers, users[userId].totalGames)
      && (week == [] ==> r.value.scoreThisWeek == 0 && r.value.correctAnswersThisWeek == 0)
  {
    if userId !in users then Err(NotFound)
    else
      var u := users[userId];
      var week := GamesSince(games, userId, now - WeekMillis);
      Ok(UserStats(ProfileOf(u), |week|, SumScore(week), SumCorrect(week), OverallAccuracy(u.totalCorrectAnswers, u.totalGames)))
  }

  /** getUserStats as written: after finding the user it builds the weekly
      aggregate with `sequelize.fn`, but userService.js never binds
      `sequelize`, so the call throws a ReferenceError. */
  function GetUserStatsAsWritten(users: map<int, User>, userId: int): (r: Result<UserStats>)
    ensures r.Err?
    ensures r.error.status == 404 <==> userId !in users
  {
    if userId !in users then Err(NotFound) else Err(Error(500, "sequelize is not defined"))
  }

  /** Every existing user's statistics fail as written and succeed as intended. */
  lemma StatsFailForEveryUser(users: map<int, User>, games: seq<Game>, userId: int, now: int)
    requires userId in users
    ensures GetUserStatsAsWritten(users, userId).Err? && GetUserStatsAsWritten(users, userId).error.status == 500
    ensures GetUserStats(users, games, userId, now).Ok?
  {
  }

  // ------------------------------------------------------------------
  // Achievements
  // ------------------------------------------------------------------

  datatype Achievement = Achievement(key: string, title: string, description: string, icon: string, rarity: string)

  const Catalogue: seq<Achievement> := [
    Achievement("first_win", "First Win", "Win your first game", "trophy", "common"),
    Achievement("speed_demon", "Speed Demon", "Answer 50 questions in 60 seconds", "zap", "rare"),
    Achievement("perfectionist", "Perfectionist", "Get 100% accuracy in a game", "star", "epic"),
    Achievement("streak_master", "Streak Master", "Maintain a 10-day streak", "fire", "legendary"),
    Achievement("category_expert", "Category Expert", "Complete all levels in a category", "award", "epic"),
    Achievement("quiz_legend", "Quiz Legend", "Reach level 25", "crown", "legendary")
  ]

  /** Every achievement the game engine awards appears in the catalogue. */
  lemma EngineAchievementsCatalogued(key: AchievementKey)
    ensures exists i :: 0 <= i < |Catalogue| && Catalogue[i].key == KeyName(key)
  {
    match key
    case FirstWin => assert Catalogue[0].key == KeyName(key);
    case SpeedDemon => assert Catalogue[1].key == KeyName(key);
    case Perfectionist => assert Catalogue[2].key == KeyName(key);
    case StreakMaster => assert Catalogue[3].key == KeyName(key);
  }

  datatype AchievementView = AchievementView(achievement: Achievement, unlocked: bool, unlockedAt: Option<int>)

  predicate Owns(row: UserAchievement, userId: int, key: string)
  {
    row.userId == userId && row.achievementKey == key
  }

  /** The unlock time of the first of the user's rows with that key (rows
      come newest first, so this is the latest unlock). */
  function FirstUnlock(rows: seq<UserAchievement>, userId: int, key: string): (t: Option<int>)
    ensures t.None? <==> forall k :: 0 <= k < |rows| ==> !Owns(rows[k], userId, key)
    ensures t.Some? ==> exists k :: 0 <= k < |rows| && Owns(rows[k], userId, key) && rows[k].unlockedAt == t.value &&
                          forall j :: 0 <= j < k ==> !Owns(rows[j], userId, key)
  {
    if rows == [] then None
    else if Owns(rows[0], userId, key) then Some(rows[0].unlockedAt)
    else
      var t := FirstUnlock(rows[1..], userId, key);
      if t.Some? then
        ghost var k :| 0 <= k < |rows[1..]| && Owns(rows[1..][k], userId, key) && rows[1..][k].unlockedAt == t.value &&
                       forall j :: 0 <= j < k ==> !Owns(rows[1..][j], userId, key);
        assert rows[k + 1] == rows[1..][k];
        assert forall j :: 1 <= j < k + 1 ==> rows[j] == rows[1..][j - 1];
        t
      else
        assert forall k :: 1 <= k < |rows| ==> rows[k] == rows[1..][k - 1];
        t
  }

  /** getUserAchievements over the `user_achievements` table in descending
      unlock time: the six catalogue entries in order, each unlocked exactly
      when the user has a row with its key, with that row's time. */
  function GetUserAchievements(rows: seq<UserAchievement>, userId: int): (r: seq<AchievementView>)
    ensures |r| == |Catalogue| == 6
    ensures forall i :: 0 <= i < 6 ==> r[i].achievement == Catalogue[i]
    ensures forall i :: 0 <= i < 6 ==>
      (r[i].unlocked <==> exists k :: 0 <= k < |rows| && Owns(rows[k], userId, Catalogue[i].key))
    ensures forall i :: 0 <= i < 6 ==> (r[i].unlockedAt.Some? <==> r[i].unlocked)
    ensures forall i :: 0 <= i < 6 ==> r[i].unlockedAt == FirstUnlock(rows, userId, Catalogue[i].key)
  {
    seq(6, i requires 0 <= i < 6 =>
      var t := FirstUnlock(rows, userId, Catalogue[i].key);
      AchievementView(Catalogue[i], t.Some?, t))
  }

  // ------------------------------------------------------------------
  // Daily challenges
  // ------------------------------------------------------------------

  /** A completed game of the user finished on the day starting at `startOfDay`. */
  predicate PlayedOn(g: Game, userId: int, startOfDay: int)
  {
    g.userId == userId && g.status == Completed && g.completedAt.Some? &&
    startOfDay <= g.completedAt.value < startOfDay + GameService.DayMillis
  }

  function GamesOn(games: seq<Game>, userId: int, startOfDay: int): (r: seq<Game>)
    ensures forall g :: g in r <==> g in games && PlayedOn(g, userId, startOfDay)
    ensures |r| <= |games|
  {
    if games == [] then []
    else GamesOn(games[..|games| - 1], userId, startOfDay)
         + (if PlayedOn(games[|games| - 1], userId, startOfDay) then [games[|games| - 1]] else [])
  }

  predicate PerfectGame(g: Game)
  {
    g.totalQuestions > 0 && g.correctAnswers == g.totalQuestions
  }

  function CountPerfect(games: seq<Game>): (n: nat)
    ensures n <= |games|
    ensures n == 0 <==> forall k :: 0 <= k < |games| ==> !PerfectGame(games[k])
  {
    if games == [] then 0
    else CountPerfect(games[..|games| - 1]) + (if PerfectGame(games[|games| - 1]) then 1 else 0)
  }

  /** The distinct categories of the games with a truthy category id. */
  function Categories(games: seq<Game>): (cs: set<int>)
    ensures forall c :: c in cs <==> exists k :: 0 <= k < |games| && Truthy(games[k].categoryId) && games[k].categoryId.value == c
  {
    if games == [] then {}
    else
      var last := games[|games| - 1];
      var init := Categories(games[..|games| - 1]);
      assert forall k :: 0 <= k < |games| - 1 ==> games[..|games| - 1][k] == games[k];
      if Truthy(last.categoryId) then init + {last.categoryId.value} else init
  }

  /** There are never more distinct categories than games. */
  lemma {:induction false} CategoriesAtMostGames(games: seq<Game>)
    ensures |Categories(games)| <= |games|
  {
    if games != [] {
      CategoriesAtMostGames(games[..|games| - 1]);
    }
  }

  datatype Challenge = Challenge(id: string, title: string, description: string, progress: int, total: int,
                                 reward: int, kind: string, completed: bool)

  /** getDailyChallenges for the day starting at `startOfDay`. */
  function GetDailyChallenges(games: seq<Game>, userId: int, startOfDay: int): (cs: seq<Challenge>)
    ensures |cs| == 3
    ensures var today := GamesOn(games, userId, startOfDay);
      && cs[0].progress == Min(SumCorrect(today), 20) <= 20
      && (cs[0].completed <==> SumCorrect(today) >= 20)
      && (cs[0].completed <==> cs[0].progress == cs[0].total)
      && cs[1].progress == CountPerfect(today) <= |today|
      && (cs[1].completed <==> exists g :: g in today && PerfectGame(g))
      && cs[2].progress == |Categories(today)| <= |today|
      && (cs[2].completed <==> |Categories(today)| >= 3)
    ensures cs[0].id == "speed_demon" && cs[1].id == "perfect_score" && cs[2].id == "category_master"
  {
    var today := GamesOn(games, userId, startOfDay);
    var correct := SumCorrect(today);
    var perfect := CountPerfect(today);
    var categories := |Categories(today)|;
    CategoriesAtMostGames(today);
    [Challenge("speed_demon", "Speed Demon", "Answer 20 questions in 60 seconds", Min(correct, 20), 20, 100, "coins", correct >= 20),
     Challenge("perfect_score", "Perfect Score", "Get 100% in Classic Mode", perfect, 1, 250, "coins", perfect >= 1),
     Challenge("category_master", "Category Master", "Complete 3 different categories", categories, 3, 150, "coins", categories >= 3)]
  }
}
