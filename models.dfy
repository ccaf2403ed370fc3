/** The two tables of the service (backend/models.py): the User and Task record
    shapes with their defaults, the constraints the tables enforce, and the
    row-level operations the handlers use (insert, select, save, delete).
    The relational store is modelled as one object holding both tables as maps
    from primary key to row; requests are sequential. */
module Models {

  datatype Option<T> = None | Some(value: T)

  /** A row of the `users` table. Timestamps are ticks of an abstract clock. */
  datatype User = User(id: int, username: string, email: string, createdAt: nat, isActive: bool)

  /** A row of the `tasks` table; `userId` is the owner reference. */
  datatype Task = Task(
    id: int,
    title: string,
    description: Option<string>,
    completed: bool,
    userId: int,
    createdAt: nat,
    updatedAt: nat)

  /** A user row as `User.create` fills it in: active, created now. */
  function NewUser(id: int, username: string, email: string, now: nat): User
  {
    User(id, username, email, now, true)
  }

  /** A task row as `Task.create` fills it in: not completed, created and updated now. */
  function NewTask(id: int, title: string, description: Option<string>, owner: int, now: nat): Task
  {
    Task(id, title, description, false, owner, now, now)
  }

  /** Whether a task passes the optional `where Task.user == owner` filter. */
  predicate OwnedBy(t: Task, owner: Option<int>)
  {
    owner.None? || t.userId == owner.value
  }

  // ---------------------------------------------------------------------------
  // Table constraints

  /** Every row is stored under its own primary key. */
  ghost predicate UsersKeyed(users: map<int, User>)
  {
    forall id :: id in users ==> users[id].id == id
  }

  ghost predicate TasksKeyed(tasks: map<int, Task>)
  {
    forall id :: id in tasks ==> tasks[id].id == id
  }

  /** `username = CharField(unique=True)`: no two rows share a username. */
  ghost predicate UniqueUsernames(users: map<int, User>)
  {
    forall a, b :: a in users && b in users && users[a].username == users[b].username ==> a == b
  }

  /** `email = CharField(unique=True)`: no two rows share an email. */
  ghost predicate UniqueEmails(users: map<int, User>)
  {
    forall a, b :: a in users && b in users && users[a].email == users[b].email ==> a == b
  }

  /** `user = ForeignKeyField(User)`: every task references a stored user. */
  ghost predicate OwnersExist(users: map<int, User>, tasks: map<int, Task>)
  {
    forall id :: id in tasks ==> tasks[id].userId in users
  }

  // ---------------------------------------------------------------------------
  // Listings: what `select()` returns, in no particular order

  /** No key occurs twice. */
  ghost predicate Distinct(ids: seq<int>)
  {
    forall i, j :: 0 <= i < j < |ids| ==> ids[i] != ids[j]
  }

  /** The keys of a sequence of rows, in the same order. */
  function UserIds(rows: seq<User>): (ids: seq<int>)
    ensures |ids| == |rows| && forall i :: 0 <= i < |rows| ==> ids[i] == rows[i].id
  {
    seq(|rows|, i requires 0 <= i < |rows| => rows[i].id)
  }

  function TaskIds(rows: seq<Task>): (ids: seq<int>)
    ensures |ids| == |rows| && forall i :: 0 <= i < |rows| ==> ids[i] == rows[i].id
  {
    seq(|rows|, i requires 0 <= i < |rows| => rows[i].id)
  }

  /** `rows` holds every stored user exactly once, in some order. */
  ghost predicate ListsUsers(rows: seq<User>, users: map<int, User>)
  {
    && (forall i :: 0 <= i < |rows| ==> rows[i].id in users && users[rows[i].id] == rows[i])
    && (forall id :: id in users ==> exists i :: 0 <= i < |rows| && rows[i].id == id)
    && Distinct(UserIds(rows))
  }

  /** `rows` holds every stored task that passes the owner filter exactly once, in some order. */
  ghost predicate ListsTasks(rows: seq<Task>, tasks: map<int, Task>, owner: Option<int>)
  {
    && (forall i :: 0 <= i < |rows| ==> rows[i].id in tasks && tasks[rows[i].id] == rows[i] && OwnedBy(rows[i], owner))
    && (forall id :: id in tasks && OwnedBy(tasks[id], owner) ==> exists i :: 0 <= i < |rows| && rows[i].id == id)
    && Distinct(TaskIds(rows))
  }

  /** A sequence without repetitions has as many elements as its set of elements. */
  lemma {:induction false} DistinctCount(ids: seq<int>)
    requires Distinct(ids)
    ensures |set k | k in ids| == |ids|
  {
    if ids != [] {
      var tail := ids[1..];
      assert Distinct(tail) by {
        forall i, j | 0 <= i < j < |tail| ensures tail[i] != tail[j] {
          assert tail[i] == ids[i + 1] && tail[j] == ids[j + 1];
        }
      }
      DistinctCount(tail);
      assert ids[0] !in tail by {
        forall i | 0 <= i < |tail| ensures tail[i] != ids[0] {
          assert tail[i] == ids[i + 1];
        }
      }
      assert (set k | k in ids) == {ids[0]} + (set k | k in tail) by {
        assert ids == [ids[0]] + tail;
      }
    }
  }

  /** A complete user listing has exactly one entry per stored row. */
  lemma ListedUsersCount(rows: seq<User>, users: map<int, User>)
    requires ListsUsers(rows, users)
    ensures |rows| == |users|
  {
    var ids := UserIds(rows);
    DistinctCount(ids);
    assert (set k | k in ids) == users.Keys by {
      forall id | id in users ensures id in ids {
        var i :| 0 <= i < |rows| && rows[i].id == id;
        assert ids[i] == id;
      }
    }
  }

  /** The keys of the stored tasks that pass the owner filter. */
  ghost function KeysOwnedBy(tasks: map<int, Task>, owner: Option<int>): set<int>
  {
    set id | id in tasks && OwnedBy(tasks[id], owner)
  }

  /** A task listing has exactly one entry per stored row that passes the filter;
      unfiltered, one per stored row. */
  lemma ListedTasksCount(rows: seq<Task>, tasks: map<int, Task>, owner: Option<int>)
    requires ListsTasks(rows, tasks, owner)
    ensures |rows| == |KeysOwnedBy(tasks, owner)|
    ensures owner.None? ==> |rows| == |tasks|
  {
    var ids := TaskIds(rows);
    DistinctCount(ids);
    assert (set k | k in ids) == KeysOwnedBy(tasks, owner) by {
      forall id | id in KeysOwnedBy(tasks, owner) ensures id in ids {
        var i :| 0 <= i < |rows| && rows[i].id == id;
        assert ids[i] == id;
      }
    }
    if owner.None? {
      assert forall id :: id in tasks ==> OwnedBy(tasks[id], owner);
      assert KeysOwnedBy(tasks, owner) == tasks.Keys;
    }
  }

  /** A non-empty set has an element to pick. */
  lemma NonEmptyHasElement(s: set<int>)
    requires s != {}
    ensures exists k :: k in s
  {
    if forall k :: k !in s {
      assert false;
    }
  }

  // ---------------------------------------------------------------------------
  // Primary keys

  /** The key SQLite gives a new row of an `AutoField` (INTEGER PRIMARY KEY) table:
      one more than the largest key present, or 1 in an empty table. */
  method NextRowId(ids: set<int>) returns (id: int)
    ensures forall k :: k in ids ==> k < id
    ensures ids == {} ==> id == 1
    ensures ids != {} ==> id - 1 in ids
  {
    if ids == {} {
      return 1;
    }
    NonEmptyHasElement(ids);
    var first :| first in ids;
    id := first + 1;
    var rest := ids - {first};
    while rest != {}
      invariant rest <= ids
      invariant forall k :: k in ids && k !in rest ==> k < id
      invariant id - 1 in ids
      decreases rest
    {
      NonEmptyHasElement(rest);
      var k :| k in rest;
      if id <= k {
        id := k + 1;
      }
      rest := rest - {k};
    }
  }

  // ---------------------------------------------------------------------------
  // The store

  /** The `users` and `tasks` tables. */
  class Database {
    var users: map<int, User>
    var tasks: map<int, Task>

    /** The constraints the schema declares. */
    ghost predicate Valid()
      reads this
    {
      && UsersKeyed(users)
      && TasksKeyed(tasks)
      && UniqueUsernames(users)
      && UniqueEmails(users)
      && OwnersExist(users, tasks)
    }

    /** Every timestamp is at most `now`, and no task was updated before it was created. */
    ghost predicate StampedBy(now: nat)
      reads this
    {
      && (forall id :: id in users ==> users[id].createdAt <= now)
      && (forall id :: id in tasks ==> tasks[id].createdAt <= tasks[id].updatedAt <= now)
    }

    predicate UsernameTaken(username: string)
      reads this
    {
      exists id :: id in users && users[id].username == username
    }

    predicate EmailTaken(email: string)
      reads this
    {
      exists id :: id in users && users[id].email == email
    }

    /** The tables `create_tables` makes in a new database file are empty. */
    constructor ()
      ensures Valid()
      ensures users == map[] && tasks == map[]
    {
      users := map[];
      tasks := map[];
    }

    /** `User.create`: inserts a row under a new key unless the username or the
        email is already stored, in which case the insert fails (None) and
        nothing changes. */
    method CreateUser(username: string, email: string, now: nat) returns (u: Option<User>)
      requires Valid()
      modifies this
      ensures Valid()
      ensures tasks == old(tasks)
      ensures u.None? <==> old(UsernameTaken(username) || EmailTaken(email))
      ensures u.None? ==> users == old(users)
      ensures u.Some? ==>
        && u.value == NewUser(u.value.id, username, email, now)
        && (forall id :: id in old(users) ==> id < u.value.id)
        && (old(users) == map[] ==> u.value.id == 1)
        && (old(users) != map[] ==> u.value.id - 1 in old(users))
        && users == old(users)[u.value.id := u.value]
      ensures old(StampedBy(now)) ==> StampedBy(now)
    {
      if UsernameTaken(username) || EmailTaken(email) {
        return None;
      }
      var id := NextRowId(users.Keys);
      var user := NewUser(id, username, email, now);
      users := users[id := user];
      u := Some(user);
    }

    /** `Task.create` for an owner the caller has already looked up. `create`
        goes through the overridden `save` with `force_insert`, so the row's
        `createdAt` and `updatedAt` are both `now`. */
    method CreateTask(title: string, description: Option<string>, owner: int, now: nat) returns (t: Task)
      requires Valid()
      requires owner in users
      modifies this
      ensures Valid()
      ensures users == old(users)
      ensures t == NewTask(t.id, title, description, owner, now)
      ensures forall id :: id in old(tasks) ==> id < t.id
      ensures old(tasks) == map[] ==> t.id == 1
      ensures old(tasks) != map[] ==> t.id - 1 in old(tasks)
      ensures tasks == old(tasks)[t.id := t]
      ensures old(StampedBy(now)) ==> StampedBy(now)
    {
      var id := NextRowId(tasks.Keys);
      t := NewTask(id, title, description, owner, now);
      tasks := tasks[id := t];
    }

    /** Every stored user, each once, in no promised order (`User.select()`). */
    method SelectUsers() returns (rows: seq<User>)
      requires Valid()
      ensures ListsUsers(rows, users)
    {
      rows := [];
      var rest := users.Keys;
      while rest != {}
        invariant rest <= users.Keys
        invariant forall i :: 0 <= i < |rows| ==> rows[i].id in users && rows[i].id !in rest && users[rows[i].id] == rows[i]
        invariant forall id :: id in users && id !in rest ==> exists i :: 0 <= i < |rows| && rows[i].id == id
        invariant Distinct(UserIds(rows))
        decreases rest
      {
        NonEmptyHasElement(rest);
        var id :| id in rest;
        ghost var before := rows;
        rows := rows + [users[id]];
        assert rows[|rows| - 1].id == id;
        assert forall i :: 0 <= i < |before| ==> rows[i] == before[i];
        rest := rest - {id};
      }
    }

    /** Every stored task owned by `owner` (every task when `owner` is None), each
        once, in no promised order (`Task.select()`, optionally `.where(Task.user == owner)`). */
    method SelectTasks(owner: Option<int>) returns (rows: seq<Task>)
      requires Valid()
      ensures ListsTasks(rows, tasks, owner)
    {
      rows := [];
      var rest := tasks.Keys;
      while rest != {}
        invariant rest <= tasks.Keys
        invariant forall i :: 0 <= i < |rows| ==> rows[i].id in tasks && rows[i].id !in rest && tasks[rows[i].id] == rows[i] && OwnedBy(rows[i], owner)
        invariant forall id :: id in tasks && id !in rest && OwnedBy(tasks[id], owner) ==> exists i :: 0 <= i < |rows| && rows[i].id == id
        invariant Distinct(TaskIds(rows))
        decreases rest
      {
        NonEmptyHasElement(rest);
        var id :| id in rest;
        if OwnedBy(tasks[id], owner) {
          ghost var before := rows;
          rows := rows + [tasks[id]];
          assert rows[|rows| - 1].id == id;
          assert forall i :: 0 <= i < |before| ==> rows[i] == before[i];
        }
        rest := rest - {id};
      }
    }

    /** `Task.save`: stamps `updatedAt` with the current time, then writes the row
        back under its key (an UPDATE, which touches nothing if the row is gone). */
    method Save(task: Task, now: nat) returns (saved: Task)
      requires Valid()
      requires task.userId in users
      modifies this
      ensures Valid()
      ensures users == old(users)
      ensures saved == task.(updatedAt := now)
      ensures tasks == if task.id in old(tasks) then old(tasks)[task.id := saved] else old(tasks)
      ensures old(StampedBy(now)) && task.createdAt <= now ==> StampedBy(now)
    {
      saved := task.(updatedAt := now);
      if saved.id in tasks {
        tasks := tasks[saved.id := saved];
      }
    }

    /** `delete_instance`: removes the row with key `id`, if any. */
    method DeleteTask(id: int)
      requires Valid()
      modifies this
      ensures Valid()
      ensures users == old(users)
      ensures tasks == old(tasks) - {id}
    {
      tasks := tasks - {id};
    }
  }
}
