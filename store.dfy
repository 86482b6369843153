/** The persistent store and the API's in-memory user object that writes through to it. */
module Store {
  import opened Records
  import opened Progress
  import Lifecycle

  /** The users and task tables; each commit of a session becomes an update of these maps.
      The counters stand for the database's key generator. */
  class Database {
    var users: map<UserId, User>
    var tasks: map<TaskId, Task>
    var nextUserId: UserId
    var nextTaskId: TaskId

    ghost predicate Valid()
      reads this
    {
      && Lifecycle.Consistent(State())
      && (forall id :: id in users ==> id < nextUserId)
      && (forall t :: t in tasks ==> t < nextTaskId)
    }

    function State(): Lifecycle.Db
      reads this
    {
      Lifecycle.Db(users, tasks)
    }

    constructor ()
      ensures Valid() && users == map[] && tasks == map[]
    {
      users, tasks := map[], map[];
      nextUserId, nextTaskId := 1, 1;
    }

    /** The query `select User where username == name`, first match. */
    method FindByUsername(name: string) returns (found: Option<UserId>)
      ensures found.Some? ==> found.value in users && users[found.value].username == name
      ensures found.None? <==> !Lifecycle.UsernameTaken(users, name)
    {
      var rest := users.Keys;
      while rest != {}
        invariant rest <= users.Keys
        invariant forall id :: id in users && id !in rest ==> users[id].username != name
        decreases rest
      {
        var id :| id in rest;
        if users[id].username == name {
          return Some(id);
        }
        rest := rest - {id};
      }
      return None;
    }

    /** The user's `tasks` relationship: every task whose foreign key is `owner`. */
    method OwnedRows(owner: UserId) returns (rows: seq<TaskRow>)
      ensures Lifecycle.ListsOwned(rows, tasks, owner)
    {
      rows := [];
      var rest := tasks.Keys;
      while rest != {}
        invariant rest <= tasks.Keys
        invariant forall r :: r in rows ==> r.id in tasks && r.id !in rest && tasks[r.id] == r.task && r.task.owner == owner
        invariant forall i, j :: 0 <= i < j < |rows| ==> rows[i].id != rows[j].id
        invariant forall t :: t in tasks && t !in rest && tasks[t].owner == owner ==> TaskRow(t, tasks[t]) in rows
        decreases rest
      {
        var t :| t in rest;
        if tasks[t].owner == owner {
          rows := rows + [TaskRow(t, tasks[t])];
        }
        rest := rest - {t};
      }
    }
  }

  /** The API's User object: a copy of a stored user and its tasks. Its methods change the copy
      and write the changed columns back, one session per method. */
  class Profile {
    const id: UserId
    var username: string
    var password: string
    var level: int
    var xp: int
    var xpToNextLevel: int
    var tasks: seq<TaskRow>

    /** The columns of the copy, as a row of the users table. */
    function Record(): User
      reads this
    {
      User(username, password, level, xp, xpToNextLevel)
    }

    /** marshal: copies a stored user and the rows of its tasks. */
    constructor Marshal(id: UserId, u: User, rows: seq<TaskRow>)
      ensures this.id == id && Record() == u && tasks == rows
    {
      this.id := id;
      username, password := u.username, u.password;
      level, xp, xpToNextLevel := u.level, u.xp, u.xpToNextLevel;
      tasks := rows;
    }

    /** level_up: level + 1 and XP 0 are written back, then the threshold is recomputed. */
    method LevelUp(db: Database)
      requires id in db.users && db.users[id] == Record()
      modifies this, db`users
      ensures Record() == LevelUpped(old(Record()))
      ensures db.users == old(db.users)[id := Record()]
      ensures tasks == old(tasks)
    {
      level := level + 1;
      xp := 0;
      db.users := db.users[id := db.users[id].(level := level, xp := xp)];
      UpdateXpToNextLevel(db);
    }

    /** update_xp_to_next_level: the threshold follows the current level, in the copy and the store. */
    method UpdateXpToNextLevel(db: Database)
      requires id in db.users
      modifies this`xpToNextLevel, db`users
      ensures xpToNextLevel == Threshold(level)
      ensures db.users == old(db.users)[id := old(db.users[id]).(xpToNextLevel := Threshold(level))]
    {
      xpToNextLevel := Threshold(level);
      db.users := db.users[id := db.users[id].(xpToNextLevel := xpToNextLevel)];
    }

    /** gain_xp: adds the amount, writes it back, then levels up while xp >= xp_to_next_level. */
    method GainXp(db: Database, amount: int)
      requires id in db.users && db.users[id] == Record()
      modifies this, db`users
      ensures Record() == Gained(old(Record()), amount)
      ensures db.users == old(db.users)[id := Record()]
      ensures tasks == old(tasks)
    {
      xp := xp + amount;
      db.users := db.users[id := db.users[id].(xp := xp)];
      while xp >= xpToNextLevel
        invariant id in db.users && db.users == old(db.users)[id := Record()]
        invariant Settle(Record()) == Gained(old(Record()), amount)
        invariant tasks == old(tasks)
        decreases CascadeMeasure(Record())
      {
        LevelUp(db);
      }
    }

    /** complete_task: flips the matching row of the copy, then the stored task with that key,
        without looking at its owner; `stored` is false when no task has that key. */
    method CompleteTask(db: Database, taskId: TaskId) returns (stored: bool)
      modifies this`tasks, db`tasks
      ensures |tasks| == |old(tasks)|
      ensures forall i :: 0 <= i < |tasks| ==> tasks[i] == Lifecycle.CompleteRow(old(tasks)[i], taskId)
      ensures stored == (taskId in old(db.tasks))
      ensures db.tasks == if stored then old(db.tasks)[taskId := Completed(old(db.tasks)[taskId])] else old(db.tasks)
    {
      var i := 0;
      while i < |tasks|
        invariant 0 <= i <= |tasks| == |old(tasks)|
        invariant forall k :: 0 <= k < i ==> tasks[k] == Lifecycle.CompleteRow(old(tasks)[k], taskId)
        invariant forall k :: i <= k < |tasks| ==> tasks[k] == old(tasks)[k]
        invariant db.tasks == old(db.tasks)
      {
        if tasks[i].id == taskId {
          tasks := tasks[i := TaskRow(tasks[i].id, Completed(tasks[i].task))];
        }
        i := i + 1;
      }
      stored := taskId in db.tasks;
      if stored {
        db.tasks := db.tasks[taskId := Completed(db.tasks[taskId])];
      }
    }
  }
}
