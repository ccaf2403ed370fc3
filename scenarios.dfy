/** The behaviour the service's test suite checks (backend/test_users.py and
    backend/test_tasks.py), each case as a client of the handlers that starts
    from empty tables. What the cases assert follows from the handlers'
    contracts alone. The suite's fixture inserts one sample user first; here
    that user's username and email are parameters. */
module Scenarios {
  import opened Models
  import opened Api

  /** A fresh username and email are accepted and echoed back, active. */
  method CreateUserEchoes(username: string, email: string) returns (r: Response<UserResponse>)
    ensures StatusCode(r) == 200
    ensures r.Ok? && r.value.username == username && r.value.email == email && r.value.isActive
  {
    var db := new Database();
    r := CreateUser(db, UserCreate(username, email), 0);
  }

  /** A second user with the sample user's username is refused with 400,
      whatever its email. */
  method DuplicateUsernameRefused(username: string, email: string, otherEmail: string)
    returns (sample: Response<UserResponse>, r: Response<UserResponse>)
    ensures sample.Ok?
    ensures StatusCode(r) == 400
  {
    var db := new Database();
    sample := CreateUser(db, UserCreate(username, email), 0);
    r := CreateUser(db, UserCreate(username, otherEmail), 1);
    assert db.UsernameTaken(username) by {
      assert db.users[sample.value.id].username == username;
    }
  }

  /** A second user with the sample user's email is refused with 400,
      whatever its username. */
  method DuplicateEmailRefused(username: string, email: string, otherName: string)
    returns (sample: Response<UserResponse>, r: Response<UserResponse>)
    ensures sample.Ok?
    ensures StatusCode(r) == 400
  {
    var db := new Database();
    sample := CreateUser(db, UserCreate(username, email), 0);
    r := CreateUser(db, UserCreate(otherName, email), 1);
    assert db.EmailTaken(email) by {
      assert db.users[sample.value.id].email == email;
    }
  }

  /** An empty username is a valid `str` for the request model, so it is
      accepted like any other: the request succeeds with 200 and is echoed. */
  method EmptyUsernameAccepted(email: string) returns (r: Response<UserResponse>)
    ensures StatusCode(r) == 200
    ensures r.Ok? && r.value.username == "" && r.value.email == email
  {
    var db := new Database();
    r := CreateUser(db, UserCreate("", email), 0);
  }

  /** Empty tables list no users and no tasks. */
  method EmptyListings() returns (users: seq<UserResponse>, tasks: seq<TaskResponse>)
    ensures users == [] && tasks == []
  {
    var db := new Database();
    users := GetUsers(db);
    tasks := GetTasks(db);
  }

  /** After one user is created, the listing holds exactly that user, and
      fetching it by its key gives the same body. */
  method CreatedUserIsListedAndFetched(username: string, email: string)
    returns (created: Response<UserResponse>, listed: seq<UserResponse>, fetched: Response<UserResponse>)
    ensures created.Ok?
    ensures |listed| == 1 && listed[0] == created.value && listed[0].username == username
    ensures fetched == created
  {
    var db := new Database();
    created := CreateUser(db, UserCreate(username, email), 0);
    listed := GetUsers(db);
    fetched := GetUser(db, created.value.id);
  }

  /** Looking up a user that does not exist gives 404 "User not found", both
      directly and for the user's task list. */
  method MissingUserNotFound(userId: int) returns (r: Response<UserResponse>, tasks: Response<seq<TaskResponse>>)
    ensures StatusCode(r) == 404 && r == NotFound("User not found")
    ensures StatusCode(tasks) == 404 && tasks == NotFound("User not found")
  {
    var db := new Database();
    r := GetUser(db, userId);
    tasks := GetUserTasks(db, userId);
  }

  /** A task created for the sample user echoes its title, description and
      owner and is not completed; it is then the only task listed. */
  method CreateTaskEchoes(username: string, email: string, title: string, description: Option<string>)
    returns (sample: Response<UserResponse>, r: Response<TaskResponse>, listed: seq<TaskResponse>)
    ensures sample.Ok?
    ensures r.Ok?
    ensures r.value.title == title && r.value.description == description
    ensures !r.value.completed && r.value.userId == sample.value.id
    ensures |listed| == 1 && listed[0] == r.value
  {
    var db := new Database();
    sample := CreateUser(db, UserCreate(username, email), 0);
    r := CreateTask(db, TaskCreate(title, description, sample.value.id), 1);
    listed := GetTasks(db);
  }

  /** A task for an owner that does not exist gives 404 "User not found" and
      leaves the task table empty. */
  method CreateTaskForMissingUser(title: string, userId: int)
    returns (r: Response<TaskResponse>, listed: seq<TaskResponse>)
    ensures StatusCode(r) == 404 && r == NotFound("User not found")
    ensures listed == []
  {
    var db := new Database();
    r := CreateTask(db, TaskCreate(title, None, userId), 0);
    listed := GetTasks(db);
  }

  /** Two tasks for the sample user make that user's task list two long. */
  method UserTasksListsBoth(username: string, email: string)
    returns (sample: Response<UserResponse>, r: Response<seq<TaskResponse>>)
    ensures sample.Ok?
    ensures r.Ok? && |r.value| == 2
  {
    var db := new Database();
    sample := CreateUser(db, UserCreate(username, email), 0);
    var uid := sample.value.id;
    var first := CreateTask(db, TaskCreate("Task 1", None, uid), 1);
    var second := CreateTask(db, TaskCreate("Task 2", None, uid), 2);
    var a, b := first.value.id, second.value.id;
    assert a != b;
    assert db.tasks.Keys == {a, b};
    r := GetUserTasks(db, uid);
    assert (set id | id in db.tasks && db.tasks[id].userId == uid) == {a, b};
  }

  /** A full update overwrites title, description and completion. */
  method FullUpdateOverwrites(username: string, email: string)
    returns (r: Response<TaskResponse>)
    ensures r.Ok?
    ensures r.value.title == "Updated Task" && r.value.description == Some("Updated description")
    ensures r.value.completed
  {
    var db := new Database();
    var sample := CreateUser(db, UserCreate(username, email), 0);
    var created := CreateTask(db, TaskCreate("Original Task", Some("Original description"), sample.value.id), 1);
    r := UpdateTask(db, created.value.id, TaskUpdate(Some("Updated Task"), Some("Updated description"), Some(true)), 2);
  }

  /** Updating only the completion flag keeps title, description and owner,
      and restamps `updatedAt` without touching `createdAt`. */
  method PartialUpdateKeepsTitle(username: string, email: string, description: Option<string>)
    returns (created: Response<TaskResponse>, r: Response<TaskResponse>)
    ensures created.Ok? && r.Ok?
    ensures r.value == created.value.(completed := true)
  {
    var db := new Database();
    var sample := CreateUser(db, UserCreate(username, email), 0);
    created := CreateTask(db, TaskCreate("Original Task", description, sample.value.id), 1);
    r := UpdateTask(db, created.value.id, TaskUpdate(None, None, Some(true)), 2);
  }

  /** Updating, or deleting, a task that does not exist gives 404 "Task not found". */
  method MissingTaskNotFound(taskId: int, patch: TaskUpdate)
    returns (updated: Response<TaskResponse>, deleted: Response<string>)
    ensures StatusCode(updated) == 404 && updated == NotFound("Task not found")
    ensures StatusCode(deleted) == 404 && deleted == NotFound("Task not found")
  {
    var db := new Database();
    updated := UpdateTask(db, taskId, patch, 0);
    deleted := DeleteTask(db, taskId);
  }

  /** Deleting a task answers "Task deleted successfully" and empties the
      listing; deleting it again gives 404 "Task not found". */
  method DeleteTwice(username: string, email: string)
    returns (first: Response<string>, listed: seq<TaskResponse>, second: Response<string>)
    ensures first == Ok("Task deleted successfully")
    ensures listed == []
    ensures second == NotFound("Task not found")
  {
    var db := new Database();
    var sample := CreateUser(db, UserCreate(username, email), 0);
    var created := CreateTask(db, TaskCreate("Task to Delete", None, sample.value.id), 1);
    first := DeleteTask(db, created.value.id);
    listed := GetTasks(db);
    second := DeleteTask(db, created.value.id);
  }

  /** The key of a deleted highest task is handed out again to the next task:
      task keys are fresh among the stored rows, not among all rows ever stored. */
  method DeletedTaskKeyReused(username: string, email: string)
    returns (first: Response<TaskResponse>, second: Response<TaskResponse>)
    ensures first.Ok? && second.Ok?
    ensures first.value.id == second.value.id == 1
  {
    var db := new Database();
    var sample := CreateUser(db, UserCreate(username, email), 0);
    first := CreateTask(db, TaskCreate("A", None, sample.value.id), 1);
    var gone := DeleteTask(db, first.value.id);
    second := CreateTask(db, TaskCreate("B", None, sample.value.id), 2);
  }
}
