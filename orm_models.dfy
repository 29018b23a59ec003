/** The records of the ORM backend (users, games, game questions, questions,
    unlocked achievements) and the store that holds them. The services read
    and update these tables; here each table is a field of one `Store`. */
module OrmModels {
  import opened Common

  /** A user row as the game and user services see it. */
  datatype User = User(
    id: int,
    username: string,
    email: string,
    password: string,
    displayName: string,
    level: int,
    xp: nat,
    coins: int,
    currentStreak: int,
    bestStreak: int,
    totalGames: int,
    totalCorrectAnswers: int,
    lastPlayDate: Option<int>)

  datatype GameStatus = InProgress | Completed | Abandoned

  /** A `games` row. Score, counts and rewards stay 0 until completion. */
  datatype Game = Game(
    id: int,
    userId: int,
    gameMode: string,
    categoryId: Option<int>,
    score: int,
    correctAnswers: int,
    totalQuestions: int,
    xpEarned: int,
    coinsEarned: int,
    status: GameStatus,
    completedAt: Option<int>)

  /** A `game_questions` row: one question slot of a game. `userAnswer`,
      `isCorrect`, `timeToAnswer` and `answeredAt` are null until answered. */
  datatype GameQuestion = GameQuestion(
    questionId: int,
    questionOrder: int,
    userAnswer: Option<int>,
    isCorrect: Option<bool>,
    timeToAnswer: Option<int>,
    answeredAt: Option<int>)

  /** The columns of a `questions` row that the game engine reads. */
  datatype Question = Question(id: int, categoryId: int, correctAnswer: int, difficulty: string, isActive: bool)

  /** A `user_achievements` row. */
  datatype UserAchievement = UserAchievement(userId: int, achievementKey: string, unlockedAt: int)

  /** Ids strictly increase along the table, so table order is `ORDER BY id ASC`. */
  ghost predicate IdsAscending(questions: seq<Question>)
  {
    forall i, j :: 0 <= i < j < |questions| ==> questions[i].id < questions[j].id
  }

  /** The question row with the given id, if there is one. */
  function QuestionById(questions: seq<Question>, id: int): (q: Option<Question>)
    ensures q.Some? ==> q.value in questions && q.value.id == id
    ensures q.None? ==> forall k :: 0 <= k < |questions| ==> questions[k].id != id
  {
    if questions == [] then None
    else if questions[0].id == id then Some(questions[0])
    else QuestionById(questions[1..], id)
  }

  /** Every slot refers to a question of the table. */
  ghost predicate KnownSlots(questions: seq<Question>, slots: seq<GameQuestion>)
  {
    forall k :: 0 <= k < |slots| ==> QuestionById(questions, slots[k].questionId).Some?
  }

  /** The row `Game.create` stores for a new game: in progress, all counts
      and rewards zero. */
  function NewGame(id: int, userId: int, gameMode: string, categoryId: Option<int>): Game
  {
    Game(id, userId, gameMode, categoryId, 0, 0, 0, 0, 0, InProgress, None)
  }

  /** The values of the `gameMode` ENUM column of `games`. */
  const GameModes: set<string> := {"sixty-second", "classic", "story", "multiplayer"}

  /** Every game's user exists, and so does its category when it has one. */
  ghost predicate GamesReference(games: map<int, Game>, userIds: set<int>, categoryIds: set<int>)
  {
    forall id :: id in games ==>
      games[id].userId in userIds && (games[id].categoryId.None? || games[id].categoryId.value in categoryIds)
  }

  /** Rewriting a game without changing its user or category keeps the foreign keys. */
  lemma ReplaceKeepsReferences(games: map<int, Game>, userIds: set<int>, categoryIds: set<int>, id: int, g: Game)
    requires GamesReference(games, userIds, categoryIds) && id in games
    requires g.userId == games[id].userId && g.categoryId == games[id].categoryId
    ensures GamesReference(games[id := g], userIds, categoryIds)
  {
  }

  class Store {
    var users: map<int, User>
    var games: map<int, Game>
    /** The game-question rows of each game, in creation order. */
    var gameQuestions: map<int, seq<GameQuestion>>
    /** The questions table, in id order; the engine never writes it. */
    var questions: seq<Question>
    /** Ids present in `categories`; the engine never writes that table. */
    var categoryIds: set<int>
    var achievements: seq<UserAchievement>
    /** The id the next created game receives. */
    var nextGameId: int

    /** Game ids are keys, below the next id; a game's user and category
        exist (the foreign keys); question slots belong to existing games and
        refer to existing questions. */
    ghost predicate Valid()
      reads this
    {
      && (forall id :: id in games ==> id < nextGameId && games[id].id == id)
      && GamesReference(games, users.Keys, categoryIds)
      && gameQuestions.Keys <= games.Keys
      && IdsAscending(questions)
      && (forall g :: g in gameQuestions ==> KnownSlots(questions, gameQuestions[g]))
    }

    constructor (questions: seq<Question>, categoryIds: set<int>, users: map<int, User>)
      requires IdsAscending(questions)
      ensures Valid()
      ensures this.questions == questions && this.categoryIds == categoryIds && this.users == users
      ensures games == map[] && gameQuestions == map[] && achievements == []
    {
      this.users := users;
      this.categoryIds := categoryIds;
      this.games := map[];
      this.gameQuestions := map[];
      this.questions := questions;
      this.achievements := [];
      this.nextGameId := 1;
    }

    /** The user exists, and so does the category when one is given. */
    predicate KnownReferences(userId: int, categoryId: Option<int>)
      reads this
    {
      userId in users && (categoryId.None? || categoryId.value in categoryIds)
    }

    /** `Game.create`: a new in-progress game under the next id. PostgreSQL
        refuses a mode outside the ENUM while binding the parameters, before
        an id is drawn; a missing user or category violates a foreign key
        after the id is drawn. Either refusal stores nothing. */
    method CreateGame(userId: int, gameMode: string, categoryId: Option<int>) returns (r: Result<int>)
      requires Valid()
      modifies this
      ensures Valid()
      ensures gameMode !in GameModes ==>
        && r == Err(Error(500, "invalid input value for enum"))
        && games == old(games) && nextGameId == old(nextGameId)
      ensures gameMode in GameModes && !old(KnownReferences(userId, categoryId)) ==>
        && r == Err(Error(500, "violates foreign key constraint"))
        && games == old(games) && nextGameId == old(nextGameId) + 1
      ensures gameMode in GameModes && old(KnownReferences(userId, categoryId)) ==>
        var id := old(nextGameId);
        && r == Ok(id) && nextGameId == id + 1
        && games == old(games)[id := NewGame(id, userId, gameMode, categoryId)]
      ensures users == old(users) && questions == old(questions) && categoryIds == old(categoryIds)
      ensures gameQuestions == old(gameQuestions) && achievements == old(achievements)
    {
      if gameMode !in GameModes {
        return Err(Error(500, "invalid input value for enum"));
      }
      var id := nextGameId;
      nextGameId := id + 1;
      if !KnownReferences(userId, categoryId) {
        return Err(Error(500, "violates foreign key constraint"));
      }
      games := games[id := NewGame(id, userId, gameMode, categoryId)];
      r := Ok(id);
    }

    /** `game.update`: an existing game's row is rewritten, keeping its id,
        user and category. */
    method UpdateGame(id: int, g: Game)
      requires Valid() && id in games
      requires g.id == id && g.userId == games[id].userId && g.categoryId == games[id].categoryId
      modifies this
      ensures Valid()
      ensures games == old(games)[id := g]
      ensures users == old(users) && questions == old(questions) && gameQuestions == old(gameQuestions)
      ensures achievements == old(achievements) && nextGameId == old(nextGameId) && categoryIds == old(categoryIds)
    {
      ReplaceKeepsReferences(games, users.Keys, categoryIds, id, g);
      games := games[id := g];
    }

    /** `user.update`: an existing user's row is rewritten. */
    method UpdateUser(id: int, u: User)
      requires Valid() && id in users
      modifies this
      ensures Valid()
      ensures users == old(users)[id := u]
      ensures games == old(games) && questions == old(questions) && gameQuestions == old(gameQuestions)
      ensures achievements == old(achievements) && nextGameId == old(nextGameId) && categoryIds == old(categoryIds)
    {
      assert users[id := u].Keys == users.Keys;
      users := users[id := u];
    }

    /** `GameQuestion.bulkCreate` (or a slot update): the slots of one
        existing game become `slots`. */
    method SetSlots(gameId: int, slots: seq<GameQuestion>)
      requires Valid() && gameId in games && KnownSlots(questions, slots)
      modifies this
      ensures Valid()
      ensures gameQuestions == old(gameQuestions)[gameId := slots]
      ensures users == old(users) && questions == old(questions) && games == old(games)
      ensures achievements == old(achievements) && nextGameId == old(nextGameId) && categoryIds == old(categoryIds)
    {
      gameQuestions := gameQuestions[gameId := slots];
    }
  }
}
