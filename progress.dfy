/** The XP and level rules of a single user, as values. */
module Progress {
  import opened Records

  /** One level-up: the level grows by one, XP starts again at 0 and the threshold follows the new level. */
  function LevelUpped(u: User): User
  {
    u.(level := u.level + 1, xp := 0, xpToNextLevel := Threshold(u.level + 1))
  }

  /** Bounds the number of level-ups still to come: none once the user is below the threshold,
      one from a level of 0 or more, and one per missing level below that. */
  function CascadeMeasure(u: User): nat
  {
    if u.xp < u.xpToNextLevel then 0 else if u.level >= 0 then 1 else 1 - u.level
  }

  /** The state the level-up loop of gain_xp reaches: level up while xp >= xp_to_next_level. */
  function Settle(u: User): (r: User)
    ensures r.xp < r.xpToNextLevel
    ensures r.level >= u.level
    ensures r.username == u.username && r.password == u.password
    ensures r == u || (r.level > u.level && r.xp == 0 && r.xpToNextLevel == Threshold(r.level))
    decreases CascadeMeasure(u)
  {
    if u.xp >= u.xpToNextLevel then Settle(LevelUpped(u)) else u
  }

  /** The user after gain_xp(amount): the amount is added, then the loop settles. */
  function Gained(u: User, amount: int): (r: User)
    ensures r.xp < r.xpToNextLevel
    ensures r.level >= u.level
    ensures r.username == u.username && r.password == u.password
    ensures || (r.level == u.level && r.xp == u.xp + amount && r.xpToNextLevel == u.xpToNextLevel)
            || (r.level > u.level && r.xp == 0 && r.xpToNextLevel == Threshold(r.level))
  {
    Settle(u.(xp := u.xp + amount))
  }

  /** From level 1 on, gain_xp levels up at most once and discards the XP above the threshold. */
  lemma {:induction false} GainXpLevelsUpAtMostOnce(u: User, amount: int)
    requires u.level >= 1
    ensures u.xp + amount >= u.xpToNextLevel ==> Gained(u, amount) == LevelUpped(u)
    ensures u.xp + amount < u.xpToNextLevel ==> Gained(u, amount) == u.(xp := u.xp + amount)
  {
    var v := u.(xp := u.xp + amount);
    if v.xp >= v.xpToNextLevel {
      assert LevelUpped(v) == LevelUpped(u);
      assert Settle(LevelUpped(u)) == LevelUpped(u);
    }
  }

  /** A gain of zero or less never levels up, and a negative one may leave xp below 0. */
  lemma NonPositiveGainNeverLevelsUp(u: User, amount: int)
    requires amount <= 0 && u.xp < u.xpToNextLevel
    ensures Gained(u, amount) == u.(xp := u.xp + amount)
    ensures u.xp == 0 && amount < 0 ==> Gained(u, amount).xp < 0
  {
  }

  /** Concrete cases: 400 XP for a new user gives level 2 with xp 0 (nothing carried over), and
      a new user at the default threshold 100 levels up on exactly 100 XP. */
  lemma GainXpExamples()
    ensures Gained(NewUser("alice", "h"), 400) == User("alice", "h", 2, 0, 300)
    ensures Gained(NewUser("alice", "h"), 99) == User("alice", "h", 1, 99, 100)
    ensures Gained(NewUser("alice", "h"), 100) == User("alice", "h", 2, 0, 300)
    ensures Gained(NewUser("alice", "h"), -5) == User("alice", "h", 1, -5, 100)
  {
  }
}
