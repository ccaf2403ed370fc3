/** The HTTP handlers of the service (backend/main.py), one method per endpoint,
    over the two tables of module Models. Request bodies and responses are the
    pydantic shapes of the handlers; an HTTP status is a constructor of
    `Response`: Ok is 200, NotFound is 404, Conflict is 400. */
module Api {
  import opened Models

  datatype UserCreate = UserCreate(username: string, email: string)

  datatype UserResponse = UserResponse(id: int, username: string, email: string, isActive: bool)

  /** `description` is None when the body leaves it out. */
  datatype TaskCreate = TaskCreate(title: string, description: Option<string>, userId: int)

  /** A partial update: a None field leaves the stored field as it is. */
  datatype TaskUpdate = TaskUpdate(title: Option<string>, description: Option<string>, completed: Option<bool>)

  datatype TaskResponse = TaskResponse(
    id: int,
    title: string,
    description: Option<string>,
    completed: bool,
    userId: int)

  /** What a handler answers: a body (200), a `detail` message (404), or a
      uniqueness failure (400). */
  datatype Response<T> = Ok(value: T) | NotFound(detail: string) | Conflict

  function StatusCode<T>(r: Response<T>): int
  {
    match r
    case Ok(_) => 200
    case NotFound(_) => 404
    case Conflict => 400
  }

  function UserResponseOf(u: User): UserResponse
  {
    UserResponse(u.id, u.username, u.email, u.isActive)
  }

  function TaskResponseOf(t: Task): TaskResponse
  {
    TaskResponse(t.id, t.title, t.description, t.completed, t.userId)
  }

  /** The stored value of a field after a partial update of it. */
  function Patched<T>(patch: Option<T>, stored: T): T
  {
    if patch.Some? then patch.value else stored
  }

  /** POST /api/users. A fresh username and email add exactly one active user
      under a key above every existing one; a username or an email already
      stored gives Conflict and leaves the tables as they were. */
  method CreateUser(db: Database, req: UserCreate, now: nat) returns (r: Response<UserResponse>)
    requires db.Valid()
    modifies db
    ensures db.Valid()
    ensures db.tasks == old(db.tasks)
    ensures !r.NotFound?
    ensures r.Conflict? <==> old(db.UsernameTaken(req.username) || db.EmailTaken(req.email))
    ensures r.Conflict? ==> db.users == old(db.users)
    ensures r.Ok? ==>
      && r.value == UserResponse(r.value.id, req.username, req.email, true)
      && r.value.id !in old(db.users)
      && (forall id :: id in old(db.users) ==> id < r.value.id)
      && (old(db.users) == map[] ==> r.value.id == 1)
      && (old(db.users) != map[] ==> r.value.id - 1 in old(db.users))
      && db.users == old(db.users)[r.value.id := NewUser(r.value.id, req.username, req.email, now)]
    ensures old(db.StampedBy(now)) ==> db.StampedBy(now)
  {
    var created := db.CreateUser(req.username, req.email, now);
    if created.None? {
      return Conflict;
    }
    r := Ok(UserResponseOf(created.value));
  }

  /** GET /api/users: one entry per stored user, in no promised order. */
  method GetUsers(db: Database) returns (r: seq<UserResponse>)
    requires db.Valid()
    ensures |r| == |db.users|
    ensures forall i :: 0 <= i < |r| ==> r[i].id in db.users && r[i] == UserResponseOf(db.users[r[i].id])
    ensures forall id :: id in db.users ==> exists i :: 0 <= i < |r| && r[i].id == id
  {
    var rows := db.SelectUsers();
    ListedUsersCount(rows, db.users);
    r := seq(|rows|, i requires 0 <= i < |rows| => UserResponseOf(rows[i]));
    forall id | id in db.users
      ensures exists i :: 0 <= i < |r| && r[i].id == id
    {
      var i :| 0 <= i < |rows| && rows[i].id == id;
      assert r[i].id == id;
    }
  }

  /** GET /api/users/{id}: the stored user with that key, or 404 "User not found". */
  method GetUser(db: Database, userId: int) returns (r: Response<UserResponse>)
    requires db.Valid()
    ensures r.Ok? <==> userId in db.users
    ensures r.Ok? ==> r.value.id == userId && r.value == UserResponseOf(db.users[userId])
    ensures !r.Ok? ==> r == NotFound("User not found")
  {
    if userId !in db.users {
      return NotFound("User not found");
    }
    r := Ok(UserResponseOf(db.users[userId]));
  }

  /** POST /api/tasks. The owner is looked up first: an unknown owner gives 404
      "User not found" and no row. Otherwise exactly one task is added, not
      completed, with the given title, description and owner, under a key
      above every stored task key. */
  method CreateTask(db: Database, req: TaskCreate, now: nat) returns (r: Response<TaskResponse>)
    requires db.Valid()
    modifies db
    ensures db.Valid()
    ensures db.users == old(db.users)
    ensures !r.Conflict?
    ensures r.NotFound? <==> req.userId !in old(db.users)
    ensures r.NotFound? ==> r.detail == "User not found" && db.tasks == old(db.tasks)
    ensures r.Ok? ==>
      && r.value == TaskResponse(r.value.id, req.title, req.description, false, req.userId)
      && r.value.id !in old(db.tasks)
      && (forall id :: id in old(db.tasks) ==> id < r.value.id)
      && (old(db.tasks) == map[] ==> r.value.id == 1)
      && (old(db.tasks) != map[] ==> r.value.id - 1 in old(db.tasks))
      && db.tasks == old(db.tasks)[r.value.id := NewTask(r.value.id, req.title, req.description, req.userId, now)]
    ensures old(db.StampedBy(now)) ==> db.StampedBy(now)
  {
    if req.userId !in db.users {
      return NotFound("User not found");
    }
    var task := db.CreateTask(req.title, req.description, req.userId, now);
    r := Ok(TaskResponseOf(task));
  }

  /** GET /api/tasks: one entry per stored task, in no promised order. */
  method GetTasks(db: Database) returns (r: seq<TaskResponse>)
    requires db.Valid()
    ensures |r| == |db.tasks|
    ensures forall i :: 0 <= i < |r| ==> r[i].id in db.tasks && r[i] == TaskResponseOf(db.tasks[r[i].id])
    ensures forall id :: id in db.tasks ==> exists i :: 0 <= i < |r| && r[i].id == id
  {
    var rows := db.SelectTasks(None);
    ListedTasksCount(rows, db.tasks, None);
    r := seq(|rows|, i requires 0 <= i < |rows| => TaskResponseOf(rows[i]));
    forall id | id in db.tasks
      ensures exists i :: 0 <= i < |r| && r[i].id == id
    {
      assert OwnedBy(db.tasks[id], None);
      var i :| 0 <= i < |rows| && rows[i].id == id;
      assert r[i].id == id;
    }
  }

  /** GET /api/users/{id}/tasks: 404 "User not found" for an unknown user;
      otherwise exactly the stored tasks that user owns, each once. */
  method GetUserTasks(db: Database, userId: int) returns (r: Response<seq<TaskResponse>>)
    requires db.Valid()
    ensures !r.Conflict?
    ensures r.Ok? <==> userId in db.users
    ensures r.NotFound? ==> r.detail == "User not found"
    ensures r.Ok? ==>
      && (forall i :: 0 <= i < |r.value| ==>
            r.value[i].id in db.tasks && r.value[i] == TaskResponseOf(db.tasks[r.value[i].id]) && r.value[i].userId == userId)
      && (forall id :: id in db.tasks && db.tasks[id].userId == userId ==>
            exists i :: 0 <= i < |r.value| && r.value[i].id == id)
      && (forall i, j :: 0 <= i < j < |r.value| ==> r.value[i].id != r.value[j].id)
      && |r.value| == |set id | id in db.tasks && db.tasks[id].userId == userId|
  {
    if userId !in db.users {
      return NotFound("User not found");
    }
    var rows := db.SelectTasks(Some(userId));
    ListedTasksCount(rows, db.tasks, Some(userId));
    assert forall id :: id in db.tasks ==> (OwnedBy(db.tasks[id], Some(userId)) <==> db.tasks[id].userId == userId);
    assert KeysOwnedBy(db.tasks, Some(userId)) == set id | id in db.tasks && db.tasks[id].userId == userId;
    var found := seq(|rows|, i requires 0 <= i < |rows| => TaskResponseOf(rows[i]));
    forall id | id in db.tasks && db.tasks[id].userId == userId
      ensures exists i :: 0 <= i < |found| && found[i].id == id
    {
      assert OwnedBy(db.tasks[id], Some(userId));
      var i :| 0 <= i < |rows| && rows[i].id == id;
      assert found[i].id == id;
    }
    r := Ok(found);
  }

  /** PUT /api/tasks/{id}: 404 "Task not found" for an unknown key. Otherwise
      each field present in the patch overwrites the stored one, each absent
      field is kept, `updatedAt` becomes `now` through `Task.save`, and the key,
      the owner, the creation time and every other row stay as they were. */
  method UpdateTask(db: Database, taskId: int, patch: TaskUpdate, now: nat) returns (r: Response<TaskResponse>)
    requires db.Valid()
    modifies db
    ensures db.Valid()
    ensures db.users == old(db.users)
    ensures !r.Conflict?
    ensures r.NotFound? <==> taskId !in old(db.tasks)
    ensures r.NotFound? ==> r.detail == "Task not found" && db.tasks == old(db.tasks)
    ensures r.Ok? ==>
      var was := old(db.tasks[taskId]);
      && taskId in db.tasks
      && db.tasks == old(db.tasks)[taskId := db.tasks[taskId]]
      && db.tasks[taskId] == Task(
           taskId,
           Patched(patch.title, was.title),
           if patch.description.Some? then patch.description else was.description,
           Patched(patch.completed, was.completed),
           was.userId,
           was.createdAt,
           now)
      && r.value == TaskResponseOf(db.tasks[taskId])
    ensures old(db.StampedBy(now)) ==> db.StampedBy(now)
  {
    if taskId !in db.tasks {
      return NotFound("Task not found");
    }
    var task := db.tasks[taskId];
    if patch.title.Some? {
      task := task.(title := patch.title.value);
    }
    if patch.description.Some? {
      task := task.(description := patch.description);
    }
    if patch.completed.Some? {
      task := task.(completed := patch.completed.value);
    }
    task := db.Save(task, now);
    r := Ok(TaskResponseOf(task));
  }

  /** DELETE /api/tasks/{id}: removes exactly that row and answers
      "Task deleted successfully"; an absent key (never created, or already
      deleted) gives 404 "Task not found" and changes nothing. */
  method DeleteTask(db: Database, taskId: int) returns (r: Response<string>)
    requires db.Valid()
    modifies db
    ensures db.Valid()
    ensures db.users == old(db.users)
    ensures !r.Conflict?
    ensures r.NotFound? <==> taskId !in old(db.tasks)
    ensures r.NotFound? ==> r.detail == "Task not found" && db.tasks == old(db.tasks)
    ensures r.Ok? ==> r.value == "Task deleted successfully" && db.tasks == old(db.tasks) - {taskId}
  {
    if taskId !in db.tasks {
      return NotFound("Task not found");
    }
    db.DeleteTask(taskId);
    r := Ok("Task deleted successfully");
  }
}
