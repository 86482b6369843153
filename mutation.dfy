/** The API's mutations. `caller` is the user id the bearer token decodes to; `hash` and
    `verify` are the password functions of the credential service. */
module Mutation {
  import opened Records
  import opened Store
  import Lifecycle

  /** register_user: refuses a name already taken, otherwise stores the user with the hashed
      password and the column defaults, and returns it as reloaded. */
  method RegisterUser(db: Database, username: string, password: string, hash: string -> string)
    returns (r: Result<Profile>)
    requires db.Valid()
    modifies db
    ensures db.Valid()
    ensures var s := Lifecycle.RegisterStep(old(db.State()), old(db.nextUserId), username, password, hash);
      && db.State() == s.after
      && (r.Err? ==> s.result == Err(r.error))
      && (r.Ok? ==> fresh(r.value) && s.result == Ok(r.value.id) && r.value.Record() == db.users[r.value.id]
                    && Lifecycle.ListsOwned(r.value.tasks, db.tasks, r.value.id))
  {
    var existing := db.FindByUsername(username);
    if existing.Some? {
      return Err(UserExists);
    }
    var id := db.nextUserId;
    ghost var before := db.State();
    Lifecycle.ApplyPreservesConsistent(before, Lifecycle.Register(username, password, hash), id, db.nextTaskId);
    db.users := db.users[id := NewUser(username, hash(password))];
    db.nextUserId := id + 1;
    var rows := db.OwnedRows(id);
    var user := new Profile.Marshal(id, db.users[id], rows);
    r := Ok(user);
  }

  /** login_user: "user not found" comes before the password check; a token only when both pass. */
  method LoginUser(db: Database, username: string, password: string, verify: (string, string) -> bool)
    returns (r: Result<Token>)
    requires db.Valid()
    ensures r == Err(UserNotFound) <==> !Lifecycle.UsernameTaken(db.users, username)
    ensures r.Ok? <==> exists id :: id in db.users && db.users[id].username == username && verify(password, db.users[id].password)
    ensures r.Ok? ==> r.value.userId in db.users && db.users[r.value.userId].username == username
    ensures r.Err? ==> r.error == UserNotFound || r.error == WrongPassword
  {
    var found := db.FindByUsername(username);
    if found.None? {
      return Err(UserNotFound);
    }
    var id := found.value;
    if !verify(password, db.users[id].password) {
      return Err(WrongPassword);
    }
    return Ok(Token(id));
  }

  /** create_task: validates the difficulty, then the user, then inserts one pending task. */
  method CreateTask(db: Database, caller: UserId, input: TaskInput) returns (r: Result<TaskRow>)
    requires db.Valid()
    modifies db
    ensures db.Valid()
    ensures var s := Lifecycle.CreateTaskStep(old(db.State()), caller, old(db.nextTaskId), input);
      r == s.result && db.State() == s.after
  {
    var amount := DifficultyAmount(input.difficulty);
    if amount.None? {
      return Err(InvalidDifficulty);
    }
    if caller !in db.users {
      return Err(UserNotFound);
    }
    var id := db.nextTaskId;
    Lifecycle.ApplyPreservesConsistent(db.State(), Lifecycle.CreateTask(caller, input), db.nextUserId, id);
    var t := Task(input.title, input.description, input.difficulty, amount.value, false, caller);
    db.tasks := db.tasks[id := t];
    db.nextTaskId := id + 1;
    r := Ok(TaskRow(id, t));
  }

  /** delete_task: removes the caller's own task and returns its last state. */
  method DeleteTask(db: Database, caller: UserId, taskId: TaskId) returns (r: Result<TaskRow>)
    requires db.Valid()
    modifies db
    ensures db.Valid()
    ensures var s := Lifecycle.DeleteTaskStep(old(db.State()), caller, taskId);
      r == s.result && db.State() == s.after
  {
    if taskId !in db.tasks {
      return Err(TaskNotFound);
    }
    var t := db.tasks[taskId];
    if t.owner != caller {
      return Err(NotOwner);
    }
    Lifecycle.ApplyPreservesConsistent(db.State(), Lifecycle.DeleteTask(caller, taskId), db.nextUserId, db.nextTaskId);
    db.tasks := db.tasks - {taskId};
    r := Ok(TaskRow(taskId, t));
  }

  /** update_task: edits the caller's own pending task and recomputes its amount. */
  method UpdateTask(db: Database, caller: UserId, taskId: TaskId, input: TaskInput) returns (r: Result<TaskRow>)
    requires db.Valid()
    modifies db
    ensures db.Valid()
    ensures var s := Lifecycle.UpdateTaskStep(old(db.State()), caller, taskId, input);
      r == s.result && db.State() == s.after
  {
    if taskId !in db.tasks {
      return Err(TaskNotFound);
    }
    var t := db.tasks[taskId];
    if t.owner != caller {
      return Err(NotOwner);
    }
    if t.status {
      return Err(TaskAlreadyCompleted);
    }
    var amount := DifficultyAmount(input.difficulty);
    if amount.None? {
      return Err(InvalidDifficulty);
    }
    Lifecycle.ApplyPreservesConsistent(db.State(), Lifecycle.UpdateTask(caller, taskId, input), db.nextUserId, db.nextTaskId);
    var t' := t.(title := input.title, description := input.description,
                 difficulty := input.difficulty, amount := amount.value);
    db.tasks := db.tasks[taskId := t'];
    r := Ok(TaskRow(taskId, t'));
  }

  /** level_up: loads the caller and levels it up once. */
  method LevelUp(db: Database, caller: UserId) returns (r: Result<Profile>)
    requires db.Valid()
    modifies db
    ensures db.Valid()
    ensures var s := Lifecycle.LevelUpStep(old(db.State()), caller);
      && db.State() == s.after
      && (r.Err? ==> s.result == Err(r.error))
      && (r.Ok? ==> fresh(r.value) && r.value.id == caller && s.result == Ok(r.value.Record())
                    && Lifecycle.ListsOwned(r.value.tasks, db.tasks, caller))
  {
    if caller !in db.users {
      return Err(UserNotFound);
    }
    Lifecycle.ApplyPreservesConsistent(db.State(), Lifecycle.LevelUp(caller), db.nextUserId, db.nextTaskId);
    var rows := db.OwnedRows(caller);
    var user := new Profile.Marshal(caller, db.users[caller], rows);
    user.LevelUp(db);
    r := Ok(user);
  }

  /** gain_xp: loads the caller and credits the amount, levelling up as the loop decides. */
  method GainXp(db: Database, caller: UserId, amount: int) returns (r: Result<Profile>)
    requires db.Valid()
    modifies db
    ensures db.Valid()
    ensures var s := Lifecycle.GainXpStep(old(db.State()), caller, amount);
      && db.State() == s.after
      && (r.Err? ==> s.result == Err(r.error))
      && (r.Ok? ==> fresh(r.value) && r.value.id == caller && s.result == Ok(r.value.Record())
                    && Lifecycle.ListsOwned(r.value.tasks, db.tasks, caller))
  {
    if caller !in db.users {
      return Err(UserNotFound);
    }
    Lifecycle.ApplyPreservesConsistent(db.State(), Lifecycle.GainXp(caller, amount), db.nextUserId, db.nextTaskId);
    var rows := db.OwnedRows(caller);
    var user := new Profile.Marshal(caller, db.users[caller], rows);
    user.GainXp(db, amount);
    r := Ok(user);
  }

  /** complete_task: loads the caller and marks the task with that key as done. */
  method CompleteTask(db: Database, caller: UserId, taskId: TaskId) returns (r: Result<Profile>)
    requires db.Valid()
    modifies db
    ensures db.Valid()
    ensures var s := Lifecycle.CompleteTaskStep(old(db.State()), caller, taskId);
      && db.State() == s.after
      && (r.Err? ==> s.result == Err(r.error))
      && (r.Ok? ==> fresh(r.value) && r.value.id == caller && s.result == Ok(r.value.Record())
                    && Lifecycle.ListsOwned(r.value.tasks, db.tasks, caller))
  {
    if caller !in db.users {
      return Err(UserNotFound);
    }
    Lifecycle.ApplyPreservesConsistent(db.State(), Lifecycle.CompleteTask(caller, taskId), db.nextUserId, db.nextTaskId);
    var rows := db.OwnedRows(caller);
    var user := new Profile.Marshal(caller, db.users[caller], rows);
    var stored := user.CompleteTask(db, taskId);
    if !stored {
      return Err(TaskNotFound);
    }
    Lifecycle.CompletionKeepsListing(rows, user.tasks, old(db.tasks), caller, taskId);
    r := Ok(user);
  }
}
