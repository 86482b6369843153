/** The stored records of the task tracker and the constants its rules share. */
module Records {

  /** Primary keys of the users and task tables. */
  type UserId = nat
  type TaskId = nat

  datatype Option<T> = None | Some(value: T)

  /** The failures the mutations report to the caller. */
  datatype Error =
    | UserNotFound
    | UserExists
    | WrongPassword
    | TaskNotFound
    | NotOwner
    | TaskAlreadyCompleted
    | InvalidDifficulty

  datatype Result<T> = Ok(value: T) | Err(error: Error)

  /** A row of the users table; `password` holds the hash, never the plain text. */
  datatype User = User(username: string, password: string, level: int, xp: int, xpToNextLevel: int)

  /** A row of the task table; `owner` is the required foreign key to the users table. */
  datatype Task = Task(title: string, description: string, difficulty: int, amount: int, status: bool, owner: UserId)

  /** A task together with its primary key, as the API hands it out. */
  datatype TaskRow = TaskRow(id: TaskId, task: Task)

  /** What a client sends to create or edit a task; `amount` is accepted and never read. */
  datatype TaskInput = TaskInput(title: string, description: string, difficulty: int, amount: Option<int>)

  /** A bearer token stands for the id of the user it was issued to. */
  datatype Token = Token(userId: UserId)

  /** The reward table shared by task creation and task editing. */
  const DifficultyMap: map<int, int> := map[1 := 10, 2 := 20, 3 := 30]

  /** Looks a difficulty up in the reward table. */
  function DifficultyAmount(difficulty: int): (r: Option<int>)
    ensures r.Some? <==> 1 <= difficulty <= 3
    ensures r.Some? ==> r.value == 10 * difficulty
  {
    if difficulty in DifficultyMap then Some(DifficultyMap[difficulty]) else None
  }

  /** XP needed to leave `level`: `int(level * 100 * 1.5)`, which is `150 * level` for every
      level below about 1.2 × 10^14 (odd levels from ⌈2^53 / 75⌉ lose precision in the float
      product). */
  function Threshold(level: int): (r: int)
    ensures r > 0 <==> level >= 1
    ensures level >= 1 ==> r >= 150
  {
    level * 150
  }

  /** A freshly registered user: the column defaults level 1, xp 0 and threshold 100. */
  function NewUser(username: string, hashed: string): User
  {
    User(username, hashed, 1, 0, 100)
  }

  /** A task marked as done. */
  function Completed(t: Task): Task
  {
    t.(status := true)
  }
}
