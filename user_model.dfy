/** The `User` model of the SQL pipeline: an object mirroring one `users`
    row, static finders, account creation, and the three updates the reward
    pipeline applies after a game. Each method runs its SQL statement on the
    database and then assigns the object's own fields. */
module UserModel {
  import opened Common
  import opened SqlStore
  import opened SqlRewards

  /** The public profile: every column except the password hash. */
  datatype PublicUser = PublicUser(
    id: int,
    username: string,
    email: string,
    level: int,
    xp: int,
    coins: int,
    streak: int,
    bestStreak: int,
    totalGames: int,
    correctAnswers: int,
    joinedAt: int,
    lastPlayed: Option<int>)

  /** The public view of a stored row. */
  function PublicOf(row: UserRow): PublicUser
  {
    PublicUser(row.id, row.username, row.email, row.level, row.xp, row.coins, row.currentStreak,
               row.bestStreak, row.totalGames, row.correctAnswers, row.createdAt, row.lastPlayed)
  }

  /** How the existence check compares a stored username with the given one:
      the given name is lowercased, the stored one is not. */
  predicate UsernameMatchesAsWritten(stored: string, given: string)
  {
    stored == Lower(given)
  }

  /** A stored username with a capital letter is never matched as written,
      not even by itself: "Alice" is not found when "Alice" registers again,
      while a stored "alice" is found for "Alice". */
  lemma MixedCaseUsernameMissed()
    ensures !UsernameMatchesAsWritten("Alice", "Alice")
    ensures UsernameMatchesAsWritten("alice", "Alice")
  {
    assert Lower("Alice")[0] == 'a';
    assert Lower("Alice") == "alice";
  }

  class User {
    const db: Database
    var id: int
    var username: string
    var email: string
    var level: int
    var xp: int
    var coins: int
    var currentStreak: int
    var bestStreak: int
    var totalGames: int
    var correctAnswers: int
    var createdAt: int
    var lastLogin: Option<int>
    var lastPlayed: Option<int>

    /** The object's fields are the row's columns (the hash is never loaded). */
    ghost predicate Mirrors(row: UserRow)
      reads this
    {
      && id == row.id && username == row.username && email == row.email
      && level == row.level && xp == row.xp && coins == row.coins
      && currentStreak == row.currentStreak && bestStreak == row.bestStreak
      && totalGames == row.totalGames && correctAnswers == row.correctAnswers
      && createdAt == row.createdAt && lastLogin == row.lastLogin && lastPlayed == row.lastPlayed
    }

    /** `new User(row)`. */
    constructor FromRow(db: Database, row: UserRow)
      ensures this.db == db && Mirrors(row)
    {
      this.db := db;
      id := row.id;
      username := row.username;
      email := row.email;
      level := row.level;
      xp := row.xp;
      coins := row.coins;
      currentStreak := row.currentStreak;
      bestStreak := row.bestStreak;
      totalGames := row.totalGames;
      correctAnswers := row.correctAnswers;
      createdAt := row.createdAt;
      lastLogin := row.lastLogin;
      lastPlayed := row.lastPlayed;
    }

    /** findById: the user with that id, or null when no row matches. */
    static method FindById(db: Database, id: int) returns (u: User?)
      ensures (u != null) <==> id in db.users
      ensures u != null ==> fresh(u) && u.db == db && u.Mirrors(db.users[id])
    {
      if id in db.users {
        u := new User.FromRow(db, db.users[id]);
      } else {
        u := null;
      }
    }

    /** findByEmail: looks the address up lowercased. */
    static method FindByEmail(db: Database, email: string) returns (u: User?)
      requires db.Valid()
      ensures (u != null) <==> exists id :: id in db.users && db.users[id].email == Lower(email)
      ensures u != null ==> fresh(u) && u.db == db && u.id in db.users && u.Mirrors(db.users[u.id]) && u.email == Lower(email)
    {
      var key := Lower(email);
      if exists id :: id in db.users && db.users[id].email == key {
        var id :| id in db.users && db.users[id].email == key;
        u := new User.FromRow(db, db.users[id]);
      } else {
        u := null;
      }
    }

    /** existsByEmailOrUsername, comparing usernames without regard to case
        (as written it compares the stored name with the lowercased given
        one; see UsernameMatchesAsWritten). */
    static method ExistsByEmailOrUsername(db: Database, email: string, username: string) returns (taken: bool)
      ensures taken <==> exists id :: (id in db.users &&
        (db.users[id].email == Lower(email) || Lower(db.users[id].username) == Lower(username)))
    {
      taken := exists id :: (id in db.users &&
        (db.users[id].email == Lower(email) || Lower(db.users[id].username) == Lower(username)));
    }

    /** create: stores the username as given and the email lowercased, with
        the column defaults. A duplicate username or email violates a unique
        constraint and throws; the sequence value is used up either way. */
    static method Create(db: Database, username: string, email: string, passwordHash: string, now: int)
      returns (r: Result<User>)
      requires db.Valid()
      modifies db
      ensures db.Valid()
      ensures db.nextUserId == old(db.nextUserId) + 1
      ensures db.sessions == old(db.sessions) && db.answers == old(db.answers)
      ensures var duplicate := exists id :: (id in old(db.users) &&
                (old(db.users)[id].username == username || old(db.users)[id].email == Lower(email)));
        && (duplicate ==> r.Err? && db.users == old(db.users))
        && (!duplicate ==>
              var row := UserRow(old(db.nextUserId), username, Lower(email), passwordHash, 1, 0, 0, 0, 0, 0, 0, now, None, None);
              && db.users == old(db.users)[row.id := row]
              && r.Ok? && fresh(r.value) && r.value.db == db && r.value.Mirrors(row))
    {
      var id := db.nextUserId;
      db.nextUserId := id + 1;
      var lowered := Lower(email);
      if exists k :: k in db.users && (db.users[k].username == username || db.users[k].email == lowered) {
        return Err(Error(500, "duplicate key value violates unique constraint"));
      }
      var row := UserRow(id, username, lowered, passwordHash, 1, 0, 0, 0, 0, 0, 0, now, None, None);
      InsertKeepsUnique(db.users, row);
      db.users := db.users[id := row];
      var u := new User.FromRow(db, row);
      r := Ok(u);
    }

    /** updateStats: one more game and the gains added in the row; the
        object takes the returned columns. Level is left alone. With no row
        to update, or when a parameter or a sum leaves int4, the call throws
        and nothing changes. */
    method UpdateStats(correct: int, xpGained: int, coinsGained: int, now: int) returns (r: Option<UserRow>)
      requires db.Valid()
      modifies this, db
      ensures db.Valid()
      ensures db.sessions == old(db.sessions) && db.answers == old(db.answers)
      ensures db.nextUserId == old(db.nextUserId) && db.nextSessionId == old(db.nextSessionId)
      ensures db.questionIds == old(db.questionIds) && db.categoryIds == old(db.categoryIds)
      ensures id == old(id)
      ensures id !in old(db.users) ==> r.None? && db.users == old(db.users) && unchanged(this)
      ensures id in old(db.users) && !StatsFit(old(db.users)[id], correct, Reward(xpGained, coinsGained)) ==>
        r.None? && db.users == old(db.users) && unchanged(this)
      ensures id in old(db.users) && StatsFit(old(db.users)[id], correct, Reward(xpGained, coinsGained)) ==>
        var s := StatsUpdated(old(db.users)[id], correct, Reward(xpGained, coinsGained), now);
        && r == Some(s)
        && db.users == old(db.users)[id := s]
        && level == s.level && xp == s.xp && coins == s.coins
        && totalGames == s.totalGames && correctAnswers == s.correctAnswers && lastPlayed == Some(now)
        && id == old(id) && username == old(username) && email == old(email)
        && currentStreak == old(currentStreak) && bestStreak == old(bestStreak)
        && createdAt == old(createdAt) && lastLogin == old(lastLogin)
    {
      if id !in db.users {
        return None;
      }
      if !StatsFit(db.users[id], correct, Reward(xpGained, coinsGained)) {
        return None;
      }
      var s := StatsUpdated(db.users[id], correct, Reward(xpGained, coinsGained), now);
      db.UpdateUserRow(id, s);
      level := s.level;
      xp := s.xp;
      coins := s.coins;
      totalGames := s.totalGames;
      correctAnswers := s.correctAnswers;
      lastPlayed := Some(now);
      r := Some(s);
    }

    /** updateLevel: writes the level in the row (if there is one) and in the
        object; nothing else changes. A level outside int4 is refused, and
        the call throws with nothing changed. */
    method UpdateLevel(newLevel: int) returns (ok: bool)
      requires db.Valid()
      modifies this, db
      ensures db.Valid()
      ensures db.sessions == old(db.sessions) && db.answers == old(db.answers)
      ensures db.nextUserId == old(db.nextUserId) && db.nextSessionId == old(db.nextSessionId)
      ensures db.questionIds == old(db.questionIds) && db.categoryIds == old(db.categoryIds)
      ensures ok <==> Int4(newLevel)
      ensures !ok ==> db.users == old(db.users) && unchanged(this)
      ensures ok ==>
        db.users == if id in old(db.users) then old(db.users)[id := old(db.users)[id].(level := newLevel)] else old(db.users)
      ensures ok ==> level == newLevel
      ensures !ok ==> level == old(level)
      ensures id == old(id) && username == old(username) && email == old(email) && xp == old(xp) && coins == old(coins)
      ensures currentStreak == old(currentStreak) && bestStreak == old(bestStreak)
      ensures totalGames == old(totalGames) && correctAnswers == old(correctAnswers)
      ensures createdAt == old(createdAt) && lastLogin == old(lastLogin) && lastPlayed == old(lastPlayed)
    {
      ok := Int4(newLevel);
      if !ok {
        return;
      }
      if id in db.users {
        db.UpdateUserRow(id, db.users[id].(level := newLevel));
      }
      level := newLevel;
    }

    /** updateStreak: the row's streak is incremented from the row's own
        value, the object's from its own field; in both the best streak
        becomes the maximum of the old best and the new current streak. When
        the row's increment leaves int4 the call throws with nothing changed. */
    method UpdateStreak() returns (ok: bool)
      requires db.Valid()
      modifies this, db
      ensures db.Valid()
      ensures db.sessions == old(db.sessions) && db.answers == old(db.answers)
      ensures db.nextUserId == old(db.nextUserId) && db.nextSessionId == old(db.nextSessionId)
      ensures db.questionIds == old(db.questionIds) && db.categoryIds == old(db.categoryIds)
      ensures ok <==> id !in old(db.users) || StreakFits(old(db.users)[id])
      ensures !ok ==> db.users == old(db.users) && unchanged(this)
      ensures ok ==>
        db.users == if id in old(db.users) then old(db.users)[id := StreakIncremented(old(db.users)[id])] else old(db.users)
      ensures ok ==> currentStreak == old(currentStreak) + 1
      ensures ok ==> bestStreak == Max(old(bestStreak), currentStreak) && bestStreak >= currentStreak
      ensures !ok ==> currentStreak == old(currentStreak) && bestStreak == old(bestStreak)
      ensures id == old(id) && username == old(username) && email == old(email) && xp == old(xp) && coins == old(coins)
      ensures level == old(level) && totalGames == old(totalGames) && correctAnswers == old(correctAnswers)
      ensures createdAt == old(createdAt) && lastLogin == old(lastLogin) && lastPlayed == old(lastPlayed)
    {
      ok := id !in db.users || StreakFits(db.users[id]);
      if !ok {
        return;
      }
      if id in db.users {
        db.UpdateUserRow(id, StreakIncremented(db.users[id]));
      }
      currentStreak := currentStreak + 1;
      bestStreak := Max(bestStreak, currentStreak);
    }

    /** toPublic: the profile fields of the object, which for an object that
        mirrors a row is that row without its password hash. */
    function ToPublic(): (p: PublicUser)
      reads this
      ensures forall row :: Mirrors(row) ==> p == PublicOf(row)
    {
      PublicUser(id, username, email, level, xp, coins, currentStreak, bestStreak, totalGames,
                 correctAnswers, createdAt, lastPlayed)
    }
  }

  /** A registered user is found by the existence check under their own
      username, whatever its case and whichever email is given. */
  method CreatedUserIsTaken(db: Database, username: string, email: string, otherEmail: string, passwordHash: string, now: int)
    returns (created: Result<User>, taken: bool)
    requires db.Valid()
    modifies db
    ensures created.Ok? ==> taken
  {
    created := User.Create(db, username, email, passwordHash, now);
    taken := User.ExistsByEmailOrUsername(db, otherEmail, username);
    if created.Ok? {
      var id := old(db.nextUserId);
      assert id in db.users && Lower(db.users[id].username) == Lower(username);
    }
  }
}
