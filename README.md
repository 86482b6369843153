# Gamified task tracker: the business rules, in Dafny

This project models the rules behind the task tracker's GraphQL mutations. Users register and log in. They create, edit, delete and complete tasks, and each task carries a reward amount set by its difficulty. Users also gain XP, which drives a level progression. The relational store is modelled as two maps: user id to user row, and task id to task row. Each session that ends in a commit becomes one update of those maps. The user id that a bearer token decodes to is given to each mutation as the `caller`.

Modules:

- `Records` (records.dfy): the rows, the error kinds, the difficulty → amount table (1→10, 2→20, 3→30) and the threshold formula `int(level * 100 * 1.5)`, which is `150 * level` for every level below about 1.2 × 10^14.
- `Progress` (progress.dfy): the XP rules as values. `LevelUpped` is one level-up, `Settle` is what the `while xp >= xp_to_next_level` loop reaches, and `Gained` is the whole of `gain_xp`.
- `Lifecycle` (lifecycle.dfy): each of the seven mutations that write, as a pure transition of the store, `Db → (result, Db)`. This is the reference the imperative code is proved against. The module also holds the store invariant `Consistent`, a `Command` type with `Apply`, and lemmas that hold for every command.
- `Store` (store.dfy): class `Database`, the two tables plus the key counters, with the two queries the mutations run. Class `Profile` is the API's in-memory `User` object. Its `level_up`, `gain_xp`, `update_xp_to_next_level` and `complete_task` change the object's fields and write the changed columns back to `Database`, as the source does.
- `Mutation` (mutation.dfy): the eight mutations as methods over a `Database`. Each of the seven that write is proved to leave the store exactly as its `Lifecycle` transition says and to keep `Database.Valid()`. `LoginUser` has no `modifies` clause, so it leaves the store unchanged.

The model follows the code as written, including these behaviours that are easy to misread:

- **No XP carries over.** `level_up` sets `xp = 0`. The loop in `gain_xp` therefore fires at most once from any level of 1 or more, and the XP above the threshold is lost. For example, 400 XP for a new user (level 1, threshold 100) gives level 2, xp 0, threshold 300. There is no multi-level cascade (`GainXpLevelsUpAtMostOnce`, `GainXpExamples`).
- **New users start at threshold 100.** That value is the column default, and it differs from the formula's 150 for level 1. Level 1 is only reached by registration, so `Consistent` requires threshold 100 at level 1 and the formula from level 2 on.
- **A negative amount is accepted.** It never causes a level-up and can leave xp below 0.
- **`complete_task` skips the ownership check.** It writes `status = True` to the task with the given key whoever owns it (`CompleteTaskIgnoresOwner`). A missing key fails, because the source dereferences `None`. No XP is granted.
- **An unknown difficulty in `update_task` fails at the reward-table lookup.** This happens before the commit, so the store is unchanged. The model reports it as `InvalidDifficulty`; the source raises a bare key error.

## Model

| member | source | states |
|---|---|---|
| `Records.DifficultyAmount` | app.py:277-288 | the table has an entry exactly for difficulties 1, 2 and 3, and the entry is 10 × difficulty |
| `Records.Threshold` | app.py:85-87 | the threshold is positive exactly from level 1 on, and at least 150 there |
| `Progress.Settle` | app.py:67-68 | the level-up loop always stops; afterwards xp < xp_to_next_level, the level is not lower, and name and password are kept; either nothing changed, or the level rose and xp is 0 with threshold 150 × level |
| `Progress.Gained` | app.py:57-68 | after gain_xp, xp < xp_to_next_level and the level is not lower; either only xp changed, to xp + amount, or the level rose and xp is 0 at the formula threshold |
| `Progress.GainXpLevelsUpAtMostOnce` | app.py:41-68 | from level ≥ 1: if xp + amount reaches the threshold, exactly one level-up happens and the excess is discarded; otherwise only xp changes |
| `Progress.NonPositiveGainNeverLevelsUp` | app.py:59-68 | a gain ≤ 0 never levels up and only changes xp; from xp 0 a negative gain leaves xp negative |
| `Progress.GainXpExamples` | app.py:41-68 | exact results for 400, 99, 100 and −5 XP from the registration defaults (400 XP gives level 2, xp 0, threshold 300) |
| `Lifecycle.RegisterStep` | app.py:218-239 | fails with UserExists exactly when the same username (exact match) is stored, and the store is then unchanged; otherwise exactly one user is added, with the hashed password, level 1, xp 0, threshold 100 |
| `Lifecycle.CreateTaskStep` | app.py:272-312 | a difficulty outside 1..3 fails before the user lookup; a missing user fails next; failures change nothing; otherwise exactly one task is added with amount 10 × difficulty, status false and owner the caller, whatever amount the client sent |
| `Lifecycle.UpdateTaskStep` | app.py:336-377 | fails with not found, then not owner, then already completed, then unknown difficulty, each exactly under its condition, and then the store is unchanged; on success title, description and difficulty are overwritten, amount is 10 × difficulty, status and owner are kept, and nothing else changes |
| `Lifecycle.DeleteTaskStep` | app.py:314-334 | fails exactly when the task is missing or another user's (completed tasks may be deleted); on success exactly that task is removed and its last state returned |
| `Lifecycle.LevelUpStep` | app.py:381-393 | a missing user fails; otherwise level + 1, xp 0, threshold 150 × new level, and only that user changes |
| `Lifecycle.GainXpStep` | app.py:395-407 | a missing user fails; otherwise the user becomes `Gained(user, amount)`, below the threshold at a level no lower, and only that user changes |
| `Lifecycle.CompleteTaskStep` | app.py:409-424 | a missing user fails first, then a missing task; otherwise only the status of that task changes, to true, no user changes, and the answer is the caller unchanged |
| `Lifecycle.ApplyPreservesConsistent` | app.py:218-424 | every mutation keeps xp < threshold for all users, threshold 100 at level 1 and the formula from level 2 on, amount = table[difficulty] and an existing owner for all tasks, and unique usernames |
| `Lifecycle.CompletedTasksAreFrozen` | app.py:358-360 | no mutation changes a completed task (it can only be deleted) |
| `Lifecycle.LevelsNeverDecrease` | app.py:41-68 | no mutation removes or renames a user or lowers a level |
| `Lifecycle.CompleteTaskIdempotent` | app.py:70-83 | completing the same task twice succeeds both times and leaves the state of completing it once |
| `Lifecycle.CompleteTaskIgnoresOwner` | app.py:76-83 | a user can complete a task owned by another user |
| `Lifecycle.RegisterTwiceFails` | app.py:222-226 | registering a name that was just registered fails with UserExists, whatever the password |
| `Lifecycle.CreatedTaskIsListed` | app.py:299-312 | after create_task, any listing of the caller's tasks holds the new task with the given title and description and amount 10 × difficulty |
| `Lifecycle.CompletionKeepsListing` | app.py:72-83 | flipping the matching row of the in-memory task list keeps it equal to the caller's tasks in the updated store |
| `Store.Database.FindByUsername` | app.py:222-224 | finds a user with exactly that username, or reports none exactly when no stored user has it |
| `Store.Database.OwnedRows` | app.py:38 | lists every task whose owner is the user, once each, as stored |
| `Store.Profile.Marshal` | app.py:29-40 | the object is a copy of the stored user with its task rows |
| `Store.Profile.LevelUp` | app.py:41-55 | the copy becomes `LevelUpped` of the copy before, the stored user ends equal to the copy, and its task list is untouched |
| `Store.Profile.UpdateXpToNextLevel` | app.py:85-92 | the threshold becomes 150 × level in the copy and in the stored user, and nothing else changes |
| `Store.Profile.GainXp` | app.py:57-68 | the loop ends with the copy equal to `Gained(copy before, amount)` and the stored user equal to the copy |
| `Store.Profile.CompleteTask` | app.py:70-83 | the rows whose id matches are marked done in the copy; the stored task with that key is marked done whoever owns it; the result reports whether the key existed |
| `Mutation.RegisterUser` | app.py:218-251 | the store becomes `RegisterStep`'s, the invariant is kept, and on success the returned object is the new stored user and lists its tasks |
| `Mutation.LoginUser` | app.py:253-270 | UserNotFound exactly when no user has the name; a token exactly when some user has the name and the password verifies against its hash; otherwise WrongPassword; no store change |
| `Mutation.CreateTask` | app.py:272-312 | the answer and the new store are `CreateTaskStep`'s at the next free key, and the invariant is kept |
| `Mutation.DeleteTask` | app.py:314-334 | the answer and the new store are `DeleteTaskStep`'s, and the invariant is kept |
| `Mutation.UpdateTask` | app.py:336-377 | the answer and the new store are `UpdateTaskStep`'s, and the invariant is kept |
| `Mutation.LevelUp` | app.py:381-393 | the new store is `LevelUpStep`'s; the returned object equals the stored user and lists its tasks |
| `Mutation.GainXp` | app.py:395-407 | the new store is `GainXpStep`'s; the returned object equals the stored user and lists its tasks |
| `Mutation.CompleteTask` | app.py:409-424 | the new store is `CompleteTaskStep`'s; the returned object's task list matches the updated store |

## Left out

- Token decoding: the model takes the id that `decode_jwt_token` returns. Its invalid-token and expired-token failures, and a token whose payload has no user id, are not modelled. `create_jwt_token` is modelled as a `Token` carrying the user id.
- Password hashing and checking (bcrypt through passlib): `hash` and `verify` are parameters. `hash` is a fixed function, so the model gives each password one hash, whereas bcrypt draws a fresh random salt on every call; no proved property depends on that choice, since the stored hash is only passed to `verify`.
- The read queries `users`, `user`, `tasks` and `busca`: they are filter, order, offset and limit operations delegated to SQL, with `ilike` case folding.
- Concurrency: the handlers are asynchronous, and two concurrent `gain_xp` calls can lose an update. The model runs one call at a time.
- Failing commits: each session commit is assumed to succeed. A failure between the separate commits of `level_up` and `update_xp_to_next_level` is not modelled.
- Key strings: `strawberry.ID` values are modelled as integers, so the `int(task_id)` conversion error and the string comparison `task.id == task_id` are not modelled.
- Key allocation: new keys come from a counter, which is always fresh. The database's own key policy is not modelled.
- Floating point: `int(level * 100 * 1.5)` is taken as `150 * level`. Loss of precision from about level 1.2 × 10^14 (odd levels from ⌈2^53 / 75⌉, where the odd part 75 × level of the product no longer fits a double's 53-bit significand) is not modelled.
- Timestamps (`data_insercao`), string column lengths, and the string type of the `difficulty` column: difficulty is treated as the integer the mutations use.
- The GraphQL types, their marshalling beyond copying fields, the `UserExists`/`UserNotFound` response types (the code raises exceptions instead), and the FastAPI and CORS setup.
- Store.Profile.LevelUp, Store.Profile.GainXp: these require the stored row to exist and to equal the in-memory copy. That always holds where the source calls them, right after the mutation loads and copies the row; on a missing row the source would raise an attribute error.
- Store.Profile.UpdateXpToNextLevel: this requires the stored row to exist, for the same reason.
