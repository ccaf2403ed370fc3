# Users and tasks store — a Dafny model

This project models the entity store behind a small FastAPI service: two tables,
`users` and `tasks`, and the HTTP handlers that create, list, fetch, update and
delete their rows. Requests are handled one at a time. The store is one
`Database` object. It holds each table as a map from primary key to row.

- `models.dfy` (module `Models`) follows `backend/models.py`. It defines the
  `User` and `Task` row shapes and the defaults `User.create` and `Task.create`
  fill in. `Database.Valid()` holds the constraints the schema declares:
  - rows are stored under their own key;
  - usernames are unique, and so are emails;
  - every task's owner is a stored user.

  The row operations the handlers use are methods of `Database`: insert, select
  (with or without the owner filter), `Task.save` and `delete_instance`.
  `NextRowId` gives a new row its key the way SQLite does for an
  `INTEGER PRIMARY KEY` column: one more than the largest key present (even when
  every key present is negative), 1 in an empty table.
- `api.dfy` (module `Api`) follows `backend/main.py`. It has the request and
  response shapes and one method per endpoint. An HTTP status is a constructor
  of `Response`: `Ok` is 200, `NotFound(detail)` is 404 and `Conflict` is 400.
  Every mutating handler keeps `Valid()`. It states the whole new state of both
  tables in terms of the old one. Read handlers state the listing they return
  as a permutation of the stored rows.
- `scenarios.dfy` (module `Scenarios`) restates the cases of
  `backend/test_users.py` and `backend/test_tasks.py`. Each case is a client
  that starts from empty tables, with the test fixture's sample user as
  parameters. Each case's result follows from the handlers' contracts alone.

Timestamps are ticks of an abstract clock, passed to each write as `now`.
`Database.StampedBy(now)` says that no stored timestamp is later than `now` and
that no task was updated before it was created. Every write keeps it for a clock
that never goes back.

Three behaviours of the code are worth stating outright:
- The `select()` calls (backend/main.py:80, 125, 138) have no `ORDER BY`, so the
  model promises no order for user and task listings.
- `update_task` (backend/main.py:155-156) assigns the description only when
  the patch holds a non-null one, so a null leaves the stored description as it
  is.
- `UserCreate.username` (backend/main.py:12) is a plain `str`, so an empty
  username is accepted with 200. `backend/test_users.py:57-62` expects 422 for
  it; the model follows the code, and `Scenarios.EmptyUsernameAccepted` states
  what the code does.

## Model

| member | source | states |
|---|---|---|
| `Models.NextRowId` | backend/models.py:6 | the new key exceeds every key in the table; it is 1 for an empty table and otherwise exactly one more than the largest key |
| `Models.ListedUsersCount` | backend/main.py:78-86 | a listing that holds each stored user once has exactly as many entries as there are stored users |
| `Models.ListedTasksCount` | backend/main.py:123-147 | a task listing that holds each stored task passing the owner filter once has as many entries as there are such tasks; without a filter, as many as there are stored tasks |
| `Models.Database.constructor` | backend/database.py:29-33 | the tables created in a new database file are empty and satisfy every constraint |
| `Models.Database.CreateUser` | backend/models.py:5-10 | `User.create` fails exactly when the username or the email is already stored, and then nothing changes; otherwise it adds exactly one row, active and created now, under a key above every existing one, and keeps the uniqueness constraints |
| `Models.Database.CreateTask` | backend/models.py:15-22 | `Task.create` adds exactly one row for a stored owner: not completed, created and updated now, under a key above every stored task key; users are untouched |
| `Models.Database.SelectUsers` | backend/main.py:80 | `User.select()` returns every stored user exactly once, in some order |
| `Models.Database.SelectTasks` | backend/main.py:138 | `Task.select()` with the optional owner filter returns exactly the stored tasks that pass the filter, each once, in some order |
| `Models.Database.Save` | backend/models.py:27-29 | `Task.save` sets `updatedAt` to now, changes no other field, writes the row back under its key only if the row exists, and keeps every task's `createdAt <= updatedAt` under a clock that never goes back |
| `Models.Database.DeleteTask` | backend/main.py:174 | `delete_instance` removes exactly the row with that key; users and every other task are unchanged |
| `Api.CreateUser` | backend/main.py:65-76 | a fresh username and email add exactly one active user with those fields under a key never issued before; a taken username, or a taken email alone, gives 400 and leaves both tables unchanged |
| `Api.GetUsers` | backend/main.py:78-86 | one response per stored user, each equal to that user's stored fields, and as many entries as stored users, so empty tables give an empty list |
| `Api.GetUser` | backend/main.py:88-99 | the stored user with that key, or 404 "User not found" exactly when there is none |
| `Api.CreateTask` | backend/main.py:102-121 | an unknown owner gives 404 "User not found" and no row; otherwise exactly one task with the given title, description (None when absent) and owner, not completed, under a key above every stored task key |
| `Api.GetTasks` | backend/main.py:123-132 | one response per stored task, each equal to that task's stored fields, and as many entries as stored tasks |
| `Api.GetUserTasks` | backend/main.py:134-147 | 404 "User not found" exactly for an unknown user; otherwise exactly the stored tasks that user owns, each once, as many as the user owns |
| `Api.UpdateTask` | backend/main.py:149-168 | 404 "Task not found" exactly for an unknown key, with nothing changed; otherwise each present patch field overwrites the stored one and each absent one is kept, `updatedAt` becomes now, and the key, owner, `createdAt`, every other task and all users stay as they were |
| `Api.DeleteTask` | backend/main.py:170-177 | an existing key: exactly that task is removed, everything else is unchanged, and the answer is "Task deleted successfully"; an absent key gives 404 "Task not found" and changes nothing |
| `Scenarios.CreateUserEchoes` | backend/test_users.py:3-15 | creating a user in empty tables succeeds and echoes the username and email, active |
| `Scenarios.DuplicateUsernameRefused` | backend/test_users.py:17-22 | a second user with a taken username gets 400, whatever its email |
| `Scenarios.DuplicateEmailRefused` | backend/test_users.py:24-29 | a second user with a taken email gets 400, whatever its username |
| `Scenarios.EmptyUsernameAccepted` | backend/test_users.py:57-62 | an empty username is accepted with 200 and echoed, since the request model's `username` is a plain `str` |
| `Scenarios.EmptyListings` | backend/test_users.py:31-34 | empty tables list no users and no tasks |
| `Scenarios.CreatedUserIsListedAndFetched` | backend/test_users.py:36-50 | after one create the user listing is exactly that user, and fetching by its key returns the same body |
| `Scenarios.MissingUserNotFound` | backend/test_users.py:52-55 | fetching an unknown user, or its task list, gives 404 "User not found" |
| `Scenarios.CreateTaskEchoes` | backend/test_tasks.py:3-58 | a task for the sample user echoes title, description (None when absent) and owner, is not completed, and is then the only task listed |
| `Scenarios.CreateTaskForMissingUser` | backend/test_tasks.py:18-25 | a task for an unknown owner gives 404 "User not found" and leaves the task listing empty |
| `Scenarios.UserTasksListsBoth` | backend/test_tasks.py:60-70 | two tasks created for a user make that user's task list exactly two long |
| `Scenarios.FullUpdateOverwrites` | backend/test_tasks.py:77-98 | a full patch overwrites title, description and completion |
| `Scenarios.PartialUpdateKeepsTitle` | backend/test_tasks.py:100-117 | a patch of `completed` alone changes only that field of the response |
| `Scenarios.MissingTaskNotFound` | backend/test_tasks.py:119-148 | updating or deleting an unknown task gives 404 "Task not found" |
| `Scenarios.DeleteTwice` | backend/test_tasks.py:126-143 | a delete succeeds with its message and empties the listing; the same delete again gives 404 "Task not found" |
| `Scenarios.DeletedTaskKeyReused` | backend/models.py:16 | the key of a deleted highest task is handed to the next task created |

## Left out

- `Api.CreateTask`: promises a key above every currently stored task key, not a key different from every key ever issued. An `AutoField` on SQLite is an `INTEGER PRIMARY KEY` without `AUTOINCREMENT`, so deleting the highest task frees its key for reuse. `Scenarios.DeletedTaskKeyReused` shows this. User keys are never reused, since no handler deletes users.
- `Models.Database.CreateTask`: carries the same key promise as `Api.CreateTask`, for the same reason.
- `Models.Database.Save`: requires the task's owner to be a stored user, so that the owner constraint is kept. The override runs for `update_task` and also for `Task.create`, which calls `save(force_insert=True)`. Both pass a stored owner: `update_task` never changes the owner and `create_task` looks it up first. So the requirement rules out no call the code makes. `Save` models only the UPDATE call; `Models.Database.CreateTask` includes the insert-time `save`, stamping `updatedAt` with the same `now` as `createdAt`.
- `Models.NextRowId`: when the largest key is already 2^63-1, SQLite picks an unused key at random instead. The model always answers one more than the largest key, since keys are unbounded here.
- `Api.CreateUser`: a 400 answer carries no `detail` text. The code forwards the database's own error message, which is not part of this model.
- The catch-all `except Exception` answers with 400 (backend/main.py:75-76, 120-121) are left out. They cover database failures other than the uniqueness conflict, which the model cannot produce.
- The declared `max_length` bounds (backend/models.py:7-8, 17) are left out, because SQLite does not enforce them.
- Deleting a user, and the cascade to its tasks (backend/models.py:20), are left out because no handler deletes users.
- Real `datetime` values are left out. The clock is a natural number passed in by the caller.
- Concurrent requests are left out, because requests are sequential in the model.
- `Models.Database.constructor`: `create_tables` uses CREATE TABLE IF NOT EXISTS, so it yields empty tables only for a new database file. A database file that already holds rows is not built by the constructor. Every handler is stated for any store that satisfies `Valid()`, so such rows are covered as long as they meet the schema's constraints.
- Connection handling and the app's lifespan hooks (backend/database.py, backend/main.py:39-46) are left out as I/O plumbing.
- `Api.GetUser`: keys are unbounded integers, while SQLite stores a signed 64-bit INTEGER. A path key outside that range fails in the database driver and the handler answers 500, not 404. The model assumes every key fits in 64 bits.
- `Api.GetUserTasks`: the same 64-bit assumption as `Api.GetUser`; an out-of-range user key gives 500 in the code.
- `Api.UpdateTask`: the same 64-bit assumption; an out-of-range task key gives 500 in the code.
- `Api.DeleteTask`: the same 64-bit assumption; an out-of-range task key gives 500 in the code.
- `Api.CreateTask`: the same 64-bit assumption; an out-of-range `user_id` reaches the catch-all and gives 400 in the code, not 404.
- `Scenarios.MissingUserNotFound`: promises 404 for every missing key; in the code this holds only for keys that fit in 64 bits.
- `Scenarios.CreateTaskForMissingUser`: promises 404 for every missing owner key; in the code this holds only for keys that fit in 64 bits.
- `Scenarios.MissingTaskNotFound`: promises 404 for every missing task key; in the code this holds only for keys that fit in 64 bits.
- CORS middleware and the constant `/` and `/api/health` answers (backend/main.py:48-62) are transport wiring and are left out.
- Schema reset and migrations (backend/reset_db.py) are external tooling and are left out.
- The React front end (frontend/src/App.tsx) is left out.
- The test fixtures (backend/conftest.py) are left out. They build a per-request SQLAlchemy session with commit and rollback, and the modelled code does not use one.
- Validation answers with 422 for missing or mistyped request fields are left out. Request bodies are well-typed values here.
