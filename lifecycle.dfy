/** The mutations' rules as transitions of the whole store, with the invariants they keep. */
module Lifecycle {
  import opened Records
  import opened Progress

  /** The two tables, keyed by primary key. */
  datatype Db = Db(users: map<UserId, User>, tasks: map<TaskId, Task>)

  /** What a mutation answers and the store it leaves behind. */
  datatype Step<T> = Step(result: Result<T>, after: Db)

  /** The lookup `username == name`: an exact, case-sensitive comparison. */
  predicate UsernameTaken(users: map<UserId, User>, name: string)
  {
    exists id | id in users :: users[id].username == name
  }

  /** The XP invariant: XP below the threshold, and the threshold either the registration
      default at level 1 or, from level 2 on (reached only by levelling up), the formula. */
  ghost predicate ProgressOk(u: User)
  {
    && u.xp < u.xpToNextLevel
    && ((u.level == 1 && u.xpToNextLevel == 100) || (u.level >= 2 && u.xpToNextLevel == Threshold(u.level)))
  }

  /** What holds of the store between calls. */
  ghost predicate Consistent(db: Db)
  {
    && (forall id :: id in db.users ==> ProgressOk(db.users[id]))
    && (forall t :: t in db.tasks ==>
          db.tasks[t].owner in db.users && DifficultyAmount(db.tasks[t].difficulty) == Some(db.tasks[t].amount))
    && (forall a, b :: a in db.users && b in db.users && a != b ==> db.users[a].username != db.users[b].username)
  }

  /** `rows` lists every task of `owner` exactly once, as stored (order is the database's). */
  ghost predicate ListsOwned(rows: seq<TaskRow>, tasks: map<TaskId, Task>, owner: UserId)
  {
    && (forall r :: r in rows ==> r.id in tasks && tasks[r.id] == r.task && r.task.owner == owner)
    && (forall i, j :: 0 <= i < j < |rows| ==> rows[i].id != rows[j].id)
    && (forall t :: t in tasks && tasks[t].owner == owner ==> TaskRow(t, tasks[t]) in rows)
  }

  /** register_user: an exact-name duplicate fails; otherwise one user with the hashed password. */
  function RegisterStep(db: Db, newId: UserId, username: string, password: string,
                        hash: string -> string): (s: Step<UserId>)
    requires newId !in db.users
    ensures s.result.Err? <==> UsernameTaken(db.users, username)
    ensures s.result.Err? ==> s.result.error == UserExists && s.after == db
    ensures s.result.Ok? ==>
      && s.result.value == newId
      && s.after.tasks == db.tasks
      && s.after.users.Keys == db.users.Keys + {newId}
      && (forall id :: id in db.users ==> s.after.users[id] == db.users[id])
      && s.after.users[newId] == User(username, hash(password), 1, 0, 100)
  {
    if UsernameTaken(db.users, username) then Step(Err(UserExists), db)
    else Step(Ok(newId), Db(db.users[newId := NewUser(username, hash(password))], db.tasks))
  }

  /** create_task: the difficulty is checked before the user, and the client's amount is ignored. */
  function CreateTaskStep(db: Db, caller: UserId, newId: TaskId, input: TaskInput): (s: Step<TaskRow>)
    requires newId !in db.tasks
    ensures !(1 <= input.difficulty <= 3) ==> s.result == Err(InvalidDifficulty)
    ensures 1 <= input.difficulty <= 3 && caller !in db.users ==> s.result == Err(UserNotFound)
    ensures s.result.Ok? <==> 1 <= input.difficulty <= 3 && caller in db.users
    ensures s.result.Err? ==> s.after == db
    ensures s.result.Ok? ==>
      && s.result.value.id == newId
      && s.result.value.task == Task(input.title, input.description, input.difficulty,
                                     10 * input.difficulty, false, caller)
      && s.after.users == db.users
      && s.after.tasks.Keys == db.tasks.Keys + {newId}
      && (forall t :: t in db.tasks ==> s.after.tasks[t] == db.tasks[t])
      && s.after.tasks[newId] == s.result.value.task
  {
    match DifficultyAmount(input.difficulty)
    case None => Step(Err(InvalidDifficulty), db)
    case Some(amount) =>
      if caller !in db.users then Step(Err(UserNotFound), db)
      else
        var t := Task(input.title, input.description, input.difficulty, amount, false, caller);
        Step(Ok(TaskRow(newId, t)), Db(db.users, db.tasks[newId := t]))
  }

  /** update_task: not found, then not owner, then completed, then the reward-table lookup. */
  function UpdateTaskStep(db: Db, caller: UserId, id: TaskId, input: TaskInput): (s: Step<TaskRow>)
    ensures s.result == Err(TaskNotFound) <==> id !in db.tasks
    ensures s.result == Err(NotOwner) <==> id in db.tasks && db.tasks[id].owner != caller
    ensures s.result == Err(TaskAlreadyCompleted) <==>
      id in db.tasks && db.tasks[id].owner == caller && db.tasks[id].status
    ensures s.result == Err(InvalidDifficulty) <==>
      id in db.tasks && db.tasks[id].owner == caller && !db.tasks[id].status && !(1 <= input.difficulty <= 3)
    ensures s.result.Ok? <==>
      id in db.tasks && db.tasks[id].owner == caller && !db.tasks[id].status && 1 <= input.difficulty <= 3
    ensures s.result.Err? ==> s.after == db
    ensures s.result.Ok? ==>
      && s.result.value.id == id
      && s.result.value.task == Task(input.title, input.description, input.difficulty,
                                     10 * input.difficulty, db.tasks[id].status, db.tasks[id].owner)
      && s.after.users == db.users
      && s.after.tasks.Keys == db.tasks.Keys
      && (forall t :: t in db.tasks && t != id ==> s.after.tasks[t] == db.tasks[t])
      && s.after.tasks[id] == s.result.value.task
  {
    if id !in db.tasks then Step(Err(TaskNotFound), db)
    else
      var t := db.tasks[id];
      if t.owner != caller then Step(Err(NotOwner), db)
      else if t.status then Step(Err(TaskAlreadyCompleted), db)
      else match DifficultyAmount(input.difficulty)
        case None => Step(Err(InvalidDifficulty), db)
        case Some(amount) =>
          var t' := t.(title := input.title, description := input.description,
                       difficulty := input.difficulty, amount := amount);
          Step(Ok(TaskRow(id, t')), Db(db.users, db.tasks[id := t']))
  }

  /** delete_task: existence and ownership only; a completed task may be deleted. */
  function DeleteTaskStep(db: Db, caller: UserId, id: TaskId): (s: Step<TaskRow>)
    ensures s.result == Err(TaskNotFound) <==> id !in db.tasks
    ensures s.result == Err(NotOwner) <==> id in db.tasks && db.tasks[id].owner != caller
    ensures s.result.Ok? <==> id in db.tasks && db.tasks[id].owner == caller
    ensures s.result.Err? ==> s.after == db
    ensures s.result.Ok? ==>
      && s.result.value == TaskRow(id, db.tasks[id])
      && s.after.users == db.users
      && s.after.tasks.Keys == db.tasks.Keys - {id}
      && (forall t :: t in s.after.tasks ==> s.after.tasks[t] == db.tasks[t])
  {
    if id !in db.tasks then Step(Err(TaskNotFound), db)
    else if db.tasks[id].owner != caller then Step(Err(NotOwner), db)
    else Step(Ok(TaskRow(id, db.tasks[id])), Db(db.users, db.tasks - {id}))
  }

  /** level_up: one level more, XP back to 0, threshold 150 times the new level. */
  function LevelUpStep(db: Db, caller: UserId): (s: Step<User>)
    ensures s.result.Ok? <==> caller in db.users
    ensures s.result.Err? ==> s.result.error == UserNotFound && s.after == db
    ensures s.result.Ok? ==>
      var u, r := db.users[caller], s.result.value;
      && r.level == u.level + 1 && r.xp == 0 && r.xpToNextLevel == 150 * r.level
      && r.username == u.username && r.password == u.password
      && s.after == Db(db.users[caller := r], db.tasks)
  {
    if caller !in db.users then Step(Err(UserNotFound), db)
    else
      var r := LevelUpped(db.users[caller]);
      Step(Ok(r), Db(db.users[caller := r], db.tasks))
  }

  /** gain_xp: the user settles below the threshold at a level no lower than before. */
  function GainXpStep(db: Db, caller: UserId, amount: int): (s: Step<User>)
    ensures s.result.Ok? <==> caller in db.users
    ensures s.result.Err? ==> s.result.error == UserNotFound && s.after == db
    ensures s.result.Ok? ==>
      var u, r := db.users[caller], s.result.value;
      && r == Gained(u, amount)
      && r.xp < r.xpToNextLevel && r.level >= u.level
      && s.after == Db(db.users[caller := r], db.tasks)
  {
    if caller !in db.users then Step(Err(UserNotFound), db)
    else
      var r := Gained(db.users[caller], amount);
      Step(Ok(r), Db(db.users[caller := r], db.tasks))
  }

  /** complete_task: flips the status of the task with that id, whoever owns it; no XP is granted. */
  function CompleteTaskStep(db: Db, caller: UserId, id: TaskId): (s: Step<User>)
    ensures s.result == Err(UserNotFound) <==> caller !in db.users
    ensures s.result == Err(TaskNotFound) <==> caller in db.users && id !in db.tasks
    ensures s.result.Ok? <==> caller in db.users && id in db.tasks
    ensures s.result.Err? ==> s.after == db
    ensures s.result.Ok? ==>
      && s.result.value == db.users[caller]
      && s.after.users == db.users
      && s.after.tasks.Keys == db.tasks.Keys
      && (forall t :: t in db.tasks && t != id ==> s.after.tasks[t] == db.tasks[t])
      && s.after.tasks[id].status
      && s.after.tasks[id].(status := db.tasks[id].status) == db.tasks[id]
  {
    if caller !in db.users then Step(Err(UserNotFound), db)
    else if id !in db.tasks then Step(Err(TaskNotFound), db)
    else Step(Ok(db.users[caller]), Db(db.users, db.tasks[id := Completed(db.tasks[id])]))
  }

  /** The in-memory task list of the caller after complete_task: the matching row is flipped. */
  function CompleteRow(r: TaskRow, id: TaskId): TaskRow
  {
    if r.id == id then TaskRow(r.id, Completed(r.task)) else r
  }

  /** Every mutation that can change the store (login_user only reads). */
  datatype Command =
    | Register(username: string, password: string, hash: string -> string)
    | CreateTask(caller: UserId, input: TaskInput)
    | UpdateTask(caller: UserId, taskId: TaskId, input: TaskInput)
    | DeleteTask(caller: UserId, taskId: TaskId)
    | LevelUp(caller: UserId)
    | GainXp(caller: UserId, amount: int)
    | CompleteTask(caller: UserId, taskId: TaskId)

  /** The store after one command; `newUser` and `newTask` are the keys the database would assign. */
  function Apply(db: Db, cmd: Command, newUser: UserId, newTask: TaskId): Db
    requires newUser !in db.users && newTask !in db.tasks
  {
    match cmd
    case Register(name, password, hash) => RegisterStep(db, newUser, name, password, hash).after
    case CreateTask(caller, input) => CreateTaskStep(db, caller, newTask, input).after
    case UpdateTask(caller, id, input) => UpdateTaskStep(db, caller, id, input).after
    case DeleteTask(caller, id) => DeleteTaskStep(db, caller, id).after
    case LevelUp(caller) => LevelUpStep(db, caller).after
    case GainXp(caller, amount) => GainXpStep(db, caller, amount).after
    case CompleteTask(caller, id) => CompleteTaskStep(db, caller, id).after
  }

  /** Every command keeps the XP invariant, the reward table, task ownership and unique names. */
  lemma {:induction false} ApplyPreservesConsistent(db: Db, cmd: Command, newUser: UserId, newTask: TaskId)
    requires Consistent(db) && newUser !in db.users && newTask !in db.tasks
    ensures Consistent(Apply(db, cmd, newUser, newTask))
  {
    var after := Apply(db, cmd, newUser, newTask);
    match cmd
    case Register(name, password, hash) =>
      if !UsernameTaken(db.users, name) {
        forall a, b | a in after.users && b in after.users && a != b
          ensures after.users[a].username != after.users[b].username
        {
          if a == newUser {
            assert after.users[a].username == name;
          } else if b == newUser {
            assert after.users[b].username == name;
          }
        }
      }
    case CreateTask(caller, input) =>
    case UpdateTask(caller, id, input) =>
    case DeleteTask(caller, id) =>
    case LevelUp(caller) =>
    case GainXp(caller, amount) =>
      if caller in db.users {
        var u := db.users[caller];
        var r := Gained(u, amount);
        assert ProgressOk(r);
        forall a, b | a in after.users && b in after.users && a != b
          ensures after.users[a].username != after.users[b].username
        {
          assert after.users[a].username == db.users[a].username;
          assert after.users[b].username == db.users[b].username;
        }
      }
    case CompleteTask(caller, id) =>
  }

  /** A completed task never changes again: no command reopens or edits it. */
  lemma CompletedTasksAreFrozen(db: Db, cmd: Command, newUser: UserId, newTask: TaskId)
    requires newUser !in db.users && newTask !in db.tasks
    ensures var after := Apply(db, cmd, newUser, newTask);
      forall t :: t in db.tasks && db.tasks[t].status && t in after.tasks ==> after.tasks[t] == db.tasks[t]
  {
  }

  /** No command removes a user, renames one or lowers a level. */
  lemma LevelsNeverDecrease(db: Db, cmd: Command, newUser: UserId, newTask: TaskId)
    requires newUser !in db.users && newTask !in db.tasks
    ensures var after := Apply(db, cmd, newUser, newTask);
      forall id :: id in db.users ==>
        id in after.users && after.users[id].username == db.users[id].username
        && after.users[id].level >= db.users[id].level
  {
  }

  /** Completing a task twice leaves the state of completing it once, and succeeds both times. */
  lemma CompleteTaskIdempotent(db: Db, caller: UserId, id: TaskId)
    requires CompleteTaskStep(db, caller, id).result.Ok?
    ensures var once := CompleteTaskStep(db, caller, id);
      var twice := CompleteTaskStep(once.after, caller, id);
      twice.result == once.result && twice.after == once.after
  {
  }

  /** The store write of complete_task does not check ownership: any user completes any task. */
  lemma CompleteTaskIgnoresOwner(db: Db, caller: UserId, id: TaskId)
    requires caller in db.users && id in db.tasks && db.tasks[id].owner != caller
    ensures CompleteTaskStep(db, caller, id).result.Ok?
    ensures CompleteTaskStep(db, caller, id).after.tasks[id].status
  {
  }

  /** Registering a name that was just registered fails, whatever the password. */
  lemma RegisterTwiceFails(db: Db, first: UserId, second: UserId, name: string,
                           pw1: string, pw2: string, hash: string -> string)
    requires first !in db.users
    requires RegisterStep(db, first, name, pw1, hash).result.Ok?
    requires second !in RegisterStep(db, first, name, pw1, hash).after.users
    ensures var s := RegisterStep(RegisterStep(db, first, name, pw1, hash).after, second, name, pw2, hash);
      s.result == Err(UserExists)
  {
  }

  /** A created task shows up in any listing of its owner's tasks taken afterwards. */
  lemma CreatedTaskIsListed(db: Db, caller: UserId, newId: TaskId, input: TaskInput, rows: seq<TaskRow>)
    requires newId !in db.tasks
    requires CreateTaskStep(db, caller, newId, input).result.Ok?
    requires ListsOwned(rows, CreateTaskStep(db, caller, newId, input).after.tasks, caller)
    ensures exists r :: r in rows && r.id == newId && r.task.title == input.title &&
                        r.task.description == input.description && r.task.amount == 10 * input.difficulty
  {
  }

  /** After complete_task, the caller's in-memory list still matches the store. */
  lemma CompletionKeepsListing(rows: seq<TaskRow>, rows': seq<TaskRow>,
                               tasks: map<TaskId, Task>, owner: UserId, id: TaskId)
    requires ListsOwned(rows, tasks, owner) && id in tasks
    requires |rows'| == |rows| && forall i :: 0 <= i < |rows| ==> rows'[i] == CompleteRow(rows[i], id)
    ensures ListsOwned(rows', tasks[id := Completed(tasks[id])], owner)
  {
  }
}
