/** Reward formulas of the session-based engine: experience points, coins,
    the level reached with a given amount of experience, and the achievements
    a finished game unlocks. Floating-point multipliers are kept exact by
    counting them in tenths. */
module GameLogic {

  /** `modeMultiplier[gameMode] || 1`, in tenths. */
  function ModeMultiplierTenths(gameMode: string): nat
  {
    if gameMode == "sixty-second" then 15
    else if gameMode == "classic" then 20
    else if gameMode == "story" then 18
    else if gameMode == "multiplayer" then 25
    else 10
  }

  /** `difficultyMultiplier[difficulty] || 1`, in tenths. */
  function DifficultyMultiplierTenths(difficulty: string): nat
  {
    if difficulty == "easy" then 10
    else if difficulty == "medium" then 15
    else if difficulty == "hard" then 20
    else 10
  }

  /** calculateXP: floor(10 · correct · modeMultiplier · difficultyMultiplier).
      With both multipliers in tenths this is floor(correct·M·D / 10). The
      score argument is accepted and ignored. */
  function CalculateXp(gameMode: string, score: int, correctAnswers: int, difficulty: string): (xp: int)
    ensures 10 * xp <= correctAnswers * ModeMultiplierTenths(gameMode) * DifficultyMultiplierTenths(difficulty) < 10 * xp + 10
    ensures correctAnswers == 0 ==> xp == 0
    ensures correctAnswers >= 0 ==> 10 * correctAnswers <= xp <= 50 * correctAnswers
  {
    var m := ModeMultiplierTenths(gameMode);
    var d := DifficultyMultiplierTenths(difficulty);
    var p := correctAnswers * m * d;
    assert correctAnswers >= 0 ==> 100 * correctAnswers <= p <= 500 * correctAnswers by {
      if correctAnswers >= 0 {
        assert correctAnswers * 10 <= correctAnswers * m <= correctAnswers * 25;
        assert correctAnswers * m * 10 <= p <= correctAnswers * m * 20;
      }
    }
    p / 10
  }

  /** More correct answers never earn less experience, whatever the scores. */
  lemma XpMonotone(gameMode: string, score1: int, score2: int, c1: int, c2: int, difficulty: string)
    requires c1 <= c2
    ensures CalculateXp(gameMode, score1, c1, difficulty) <= CalculateXp(gameMode, score2, c2, difficulty)
  {
    var k := ModeMultiplierTenths(gameMode) * DifficultyMultiplierTenths(difficulty);
    assert c1 * ModeMultiplierTenths(gameMode) * DifficultyMultiplierTenths(difficulty) == c1 * k;
    assert c2 * ModeMultiplierTenths(gameMode) * DifficultyMultiplierTenths(difficulty) == c2 * k;
    assert c1 * k <= c2 * k by { assert c2 * k - c1 * k == (c2 - c1) * k; }
  }

  /** calculateCoins: one coin per whole hundred points of score plus five
      per correct answer. */
  function CalculateCoins(score: int, correctAnswers: int): (coins: int)
    ensures 100 * (coins - 5 * correctAnswers) <= score < 100 * (coins - 5 * correctAnswers) + 100
  {
    score / 100 + correctAnswers * 5
  }

  /** Integer square root: the largest r with r·r <= n. */
  function IntSqrt(n: nat): (r: nat)
    ensures r * r <= n < (r + 1) * (r + 1)
  {
    if n == 0 then 0
    else
      var s := IntSqrt(n - 1);
      if (s + 1) * (s + 1) <= n then s + 1 else s
  }

  /** calculateLevel: floor(sqrt(totalXP / 1000)) + 1, characterised without
      reals: the level L is the one with 1000·(L-1)² <= xp < 1000·L². */
  function CalculateLevel(totalXp: nat): (level: nat)
    ensures level >= 1
    ensures 1000 * ((level - 1) * (level - 1)) <= totalXp < 1000 * (level * level)
  {
    var q := totalXp / 1000;
    var r := IntSqrt(q);
    var below, above := r * r, (r + 1) * (r + 1);
    assert below <= q < above;
    assert 1000 * below <= 1000 * q <= totalXp;
    assert totalXp < 1000 * (q + 1) <= 1000 * above;
    r + 1
  }

  lemma SquareMonotone(a: nat, b: nat)
    requires a <= b
    ensures a * a <= b * b
  {
    assert b * b - a * a == (b - a) * (b + a);
  }

  /** The band 1000·(L-1)² <= xp < 1000·L² determines the level: the
      characterisation of CalculateLevel is exact. */
  lemma LevelUnique(totalXp: nat, level: nat)
    requires level >= 1
    requires 1000 * ((level - 1) * (level - 1)) <= totalXp < 1000 * (level * level)
    ensures CalculateLevel(totalXp) == level
  {
    var l := CalculateLevel(totalXp);
    var lower, upper := (l - 1) * (l - 1), l * l;
    assert 1000 * lower <= totalXp < 1000 * upper;
    if l < level {
      SquareMonotone(l, level - 1);
      assert false;
    } else if l > level {
      SquareMonotone(level, l - 1);
      assert false;
    }
  }

  /** The level never drops when experience grows. */
  lemma LevelMonotone(xp1: nat, xp2: nat)
    requires xp1 <= xp2
    ensures CalculateLevel(xp1) <= CalculateLevel(xp2)
  {
    var a, b := CalculateLevel(xp1), CalculateLevel(xp2);
    if a > b {
      SquareMonotone(b, a - 1);
      assert false;
    }
  }

  /** getXPForNextLevel: currentLevel² · 1000. */
  function GetXpForNextLevel(currentLevel: int): (xp: nat)
    ensures xp % 1000 == 0
  {
    currentLevel * currentLevel * 1000
  }

  /** Reaching getXPForNextLevel(L) experience puts the player on level L+1,
      and one point less keeps them on level L. */
  lemma NextLevelThreshold(level: nat)
    ensures CalculateLevel(GetXpForNextLevel(level)) == level + 1
    ensures level >= 1 ==> CalculateLevel(GetXpForNextLevel(level) - 1) == level
  {
    ThresholdReached(level);
    if level >= 1 {
      ThresholdMissed(level);
    }
  }

  lemma ThresholdReached(level: nat)
    ensures CalculateLevel(GetXpForNextLevel(level)) == level + 1
  {
    var x, sq := GetXpForNextLevel(level), level * level;
    var next := level + 1;
    assert x == 1000 * sq;
    assert next * next == sq + 2 * level + 1;
    assert (next - 1) * (next - 1) == sq;
    LevelUnique(x, next);
  }

  lemma ThresholdMissed(level: nat)
    requires level >= 1
    ensures CalculateLevel(GetXpForNextLevel(level) - 1) == level
  {
    var x, sq := GetXpForNextLevel(level), level * level;
    var down := (level - 1) * (level - 1);
    assert x == 1000 * sq;
    assert down == sq - 2 * level + 1;
    LevelUnique(x - 1, level);
  }

  /** A player on level L (L >= 1) passes it exactly when their experience
      reaches getXPForNextLevel(L). */
  lemma ThresholdDecidesLevel(level: nat, xp: nat)
    requires level >= 1
    ensures CalculateLevel(xp) > level <==> xp >= GetXpForNextLevel(level)
  {
    var threshold := GetXpForNextLevel(level);
    if xp >= threshold {
      ThresholdReached(level);
      LevelMonotone(threshold, xp);
    } else {
      ThresholdMissed(level);
      LevelMonotone(xp, threshold - 1);
    }
  }

  /** The part of the user record that checkAchievements reads. */
  datatype AchievementUser = AchievementUser(totalGames: int, currentStreak: int)

  /** The game summary that checkAchievements reads. */
  datatype GameData = GameData(gameMode: string, correctAnswers: int, totalQuestions: int)

  /** The achievements checkAchievements can report, in the order it checks them. */
  datatype AchievementKey = FirstWin | SpeedDemon | Perfectionist | StreakMaster

  /** The key string stored for an achievement. */
  function KeyName(key: AchievementKey): string
  {
    match key
    case FirstWin => "first_win"
    case SpeedDemon => "speed_demon"
    case Perfectionist => "perfectionist"
    case StreakMaster => "streak_master"
  }

  /** The position at which checkAchievements tests an achievement. */
  function Position(key: AchievementKey): nat
  {
    match key
    case FirstWin => 0
    case SpeedDemon => 1
    case Perfectionist => 2
    case StreakMaster => 3
  }

  /** checkAchievements: each achievement whose condition holds, pushed in
      the fixed testing order. */
  function CheckAchievements(user: AchievementUser, gameData: GameData): (achievements: seq<AchievementKey>)
    ensures FirstWin in achievements <==> user.totalGames == 1
    ensures SpeedDemon in achievements <==> gameData.gameMode == "sixty-second" && gameData.correctAnswers >= 50
    ensures Perfectionist in achievements <==> gameData.totalQuestions > 0 && gameData.correctAnswers == gameData.totalQuestions
    ensures StreakMaster in achievements <==> user.currentStreak >= 10
  {
    Pushed(user.totalGames == 1, FirstWin)
    + Pushed(gameData.gameMode == "sixty-second" && gameData.correctAnswers >= 50, SpeedDemon)
    + Pushed(gameData.totalQuestions > 0 && gameData.correctAnswers == gameData.totalQuestions, Perfectionist)
    + Pushed(user.currentStreak >= 10, StreakMaster)
  }

  /** `if (condition) achievements.push(key)`, as the part it contributes. */
  function Pushed(condition: bool, key: AchievementKey): (part: seq<AchievementKey>)
    ensures key in part <==> condition
    ensures |part| <= 1 && forall k :: 0 <= k < |part| ==> part[k] == key
  {
    if condition then [key] else []
  }

  /** Positions strictly increase along `keys`. */
  ghost predicate Ordered(keys: seq<AchievementKey>)
  {
    forall i, j :: 0 <= i < j < |keys| ==> Position(keys[i]) < Position(keys[j])
  }

  /** Appending at most one achievement at position `n` to an ordered list
      whose positions are all below `n` keeps it ordered. */
  lemma OrderedAppend(keys: seq<AchievementKey>, part: seq<AchievementKey>, n: nat)
    requires Ordered(keys) && forall k :: 0 <= k < |keys| ==> Position(keys[k]) < n
    requires |part| <= 1 && forall k :: 0 <= k < |part| ==> Position(part[k]) == n
    ensures Ordered(keys + part) && forall k :: 0 <= k < |keys + part| ==> Position((keys + part)[k]) <= n
  {
  }

  /** checkAchievements reports its achievements in testing order: a
      subsequence of first_win, speed_demon, perfectionist, streak_master. */
  lemma AchievementsOrdered(user: AchievementUser, gameData: GameData)
    ensures Ordered(CheckAchievements(user, gameData))
  {
    PushesOrdered(user.totalGames == 1,
                  gameData.gameMode == "sixty-second" && gameData.correctAnswers >= 50,
                  gameData.totalQuestions > 0 && gameData.correctAnswers == gameData.totalQuestions,
                  user.currentStreak >= 10);
  }

  /** The four guarded pushes, whatever their conditions, give an ordered list. */
  lemma PushesOrdered(c1: bool, c2: bool, c3: bool, c4: bool)
    ensures Ordered(Pushed(c1, FirstWin) + Pushed(c2, SpeedDemon) + Pushed(c3, Perfectionist) + Pushed(c4, StreakMaster))
  {
    ThreePushesOrdered(c1, c2, c3);
    OrderedAppend(Pushed(c1, FirstWin) + Pushed(c2, SpeedDemon) + Pushed(c3, Perfectionist), Pushed(c4, StreakMaster), 3);
  }

  lemma ThreePushesOrdered(c1: bool, c2: bool, c3: bool)
    ensures var keys := Pushed(c1, FirstWin) + Pushed(c2, SpeedDemon) + Pushed(c3, Perfectionist);
      Ordered(keys) && forall k :: 0 <= k < |keys| ==> Position(keys[k]) <= 2
  {
    OrderedAppend(Pushed(c1, FirstWin), Pushed(c2, SpeedDemon), 1);
    OrderedAppend(Pushed(c1, FirstWin) + Pushed(c2, SpeedDemon), Pushed(c3, Perfectionist), 2);
  }

  /** The key strings of a list of achievements, in order. */
  function Names(keys: seq<AchievementKey>): (names: seq<string>)
    ensures |names| == |keys| && forall i :: 0 <= i < |keys| ==> names[i] == KeyName(keys[i])
  {
    seq(|keys|, i requires 0 <= i < |keys| => KeyName(keys[i]))
  }

  /** Different achievements are stored under different key strings. */
  lemma KeyNameInjective(a: AchievementKey, b: AchievementKey)
    ensures KeyName(a) == KeyName(b) ==> a == b
  {
  }

  /** Strictly increasing positions make the reported key strings
      duplicate-free. */
  lemma AchievementsDistinct(user: AchievementUser, gameData: GameData)
    ensures var names := Names(CheckAchievements(user, gameData));
      forall i, j :: 0 <= i < j < |names| ==> names[i] != names[j]
  {
    var keys := CheckAchievements(user, gameData);
    var names := Names(keys);
    AchievementsOrdered(user, gameData);
    forall i, j | 0 <= i < j < |names|
      ensures names[i] != names[j]
    {
      KeyNameInjective(keys[i], keys[j]);
    }
  }
}
