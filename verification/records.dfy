/** The persisted aggregate `{ users, tasks, nextUserId, nextTaskId }` of
    todo.jsx and todo.js, and the pure updates the handlers hand to
    `setDb(prev => ...)`. Users are never deleted; task and user ids come
    from counters that only grow. */
module Records {
  import opened Base
  import opened Seqs

  /** `createdAt` is the caller-supplied creation time. */
  datatype User = User(id: int, email: string, password: string, createdAt: int)

  /** `completionTime` is absent when the due-date input was left empty. */
  datatype Task = Task(
    id: int,
    userId: int,
    title: string,
    content: string,
    completionTime: Option<int>,
    completed: bool,
    createdAt: int)

  datatype Store = Store(users: seq<User>, tasks: seq<Task>, nextUserId: int, nextTaskId: int)

  /** `initDB()` when nothing has been persisted yet. */
  const Initial: Store := Store([], [], 1, 1)

  ghost predicate HasUser(users: seq<User>, id: int) {
    exists j :: 0 <= j < |users| && users[j].id == id
  }

  /** Every stored id is positive and below its counter. */
  ghost predicate CountersAbove(db: Store) {
    && 1 <= db.nextUserId && 1 <= db.nextTaskId
    && (forall i | 0 <= i < |db.users| :: 1 <= db.users[i].id < db.nextUserId)
    && (forall i | 0 <= i < |db.tasks| :: 1 <= db.tasks[i].id < db.nextTaskId)
  }

  /** No two users share an id. */
  predicate DistinctUserIds(s: seq<User>) {
    forall i, j | 0 <= i < j < |s| :: s[i].id != s[j].id
  }

  /** No two tasks share an id. */
  predicate DistinctTaskIds(s: seq<Task>) {
    forall i, j | 0 <= i < j < |s| :: s[i].id != s[j].id
  }

  ghost predicate UniqueIds(db: Store) {
    DistinctUserIds(db.users) && DistinctTaskIds(db.tasks)
  }

  ghost predicate UniqueEmails(users: seq<User>) {
    forall i, j | 0 <= i < j < |users| :: users[i].email != users[j].email
  }

  /** Every task belongs to a stored user. */
  ghost predicate TasksOwned(db: Store) {
    forall i | 0 <= i < |db.tasks| :: HasUser(db.users, db.tasks[i].userId)
  }

  /** The store invariant every update keeps. */
  ghost predicate Valid(db: Store) {
    CountersAbove(db) && UniqueIds(db) && UniqueEmails(db.users) && TasksOwned(db)
  }

  lemma InitialValid()
    ensures Valid(Initial)
  {
  }

  /** `users.find(u => u.email === email)`. */
  function EmailOwner(users: seq<User>, email: string): (r: Option<User>)
    ensures r.None? <==> forall i | 0 <= i < |users| :: users[i].email != email
    ensures r.Some? ==> r.value in users && r.value.email == email
  {
    Find(users, (u: User) => u.email == email)
  }

  /** `users.find(u => u.email === email && u.password === password)`. */
  function CredentialsOwner(users: seq<User>, email: string, password: string): (r: Option<User>)
    ensures r.None? <==> forall i | 0 <= i < |users| :: !(users[i].email == email && users[i].password == password)
    ensures r.Some? ==> r.value in users && r.value.email == email && r.value.password == password
  {
    Find(users, (u: User) => u.email == email && u.password == password)
  }

  /** `users.find(u => u.email === email && u.id !== id)` is truthy. */
  function EmailTakenByOther(users: seq<User>, email: string, id: int): (b: bool)
    ensures b <==> exists i :: 0 <= i < |users| && users[i].email == email && users[i].id != id
  {
    Find(users, (u: User) => u.email == email && u.id != id).Some?
  }

  /** With distinct e-mails, the credential lookup finds the one user
      holding that e-mail when the password is right. */
  lemma CredentialsUnique(users: seq<User>, k: int, password: string)
    requires UniqueEmails(users)
    requires 0 <= k < |users| && users[k].password == password
    ensures CredentialsOwner(users, users[k].email, password) == Some(users[k])
  {
    FindUnique(users, (u: User) => u.email == users[k].email && u.password == password, k);
  }

  /** The registration update: the new user gets the current counter as id
      and is appended; the counter moves on by one. */
  function AddUser(db: Store, email: string, password: string, now: int): (r: Store)
    ensures r.users == db.users + [User(db.nextUserId, email, password, now)]
    ensures r.nextUserId == db.nextUserId + 1
    ensures r.tasks == db.tasks && r.nextTaskId == db.nextTaskId
  {
    db.(users := db.users + [User(db.nextUserId, email, password, now)],
        nextUserId := db.nextUserId + 1)
  }

  /** `{ ...u, email, password: password || u.password }`: an empty password
      keeps the old one. */
  function Patch(u: User, email: string, password: string): (r: User)
    ensures r.id == u.id && r.createdAt == u.createdAt && r.email == email
    ensures r.password == if password == [] then u.password else password
  {
    u.(email := email, password := if password == [] then u.password else password)
  }

  /** The profile update: the user with id `id` is patched, every other
      record is kept. */
  function UpdateUser(db: Store, id: int, email: string, password: string): (r: Store)
    ensures |r.users| == |db.users|
    ensures forall i | 0 <= i < |db.users| ::
      r.users[i] == if db.users[i].id == id then Patch(db.users[i], email, password) else db.users[i]
    ensures r.tasks == db.tasks && r.nextUserId == db.nextUserId && r.nextTaskId == db.nextTaskId
  {
    db.(users := Map(db.users, (u: User) => if u.id == id then Patch(u, email, password) else u))
  }

  /** The password-reset update: every user holding `email` gets the new password. */
  function SetPassword(db: Store, email: string, password: string): (r: Store)
    ensures |r.users| == |db.users|
    ensures forall i | 0 <= i < |db.users| ::
      r.users[i] == if db.users[i].email == email then db.users[i].(password := password) else db.users[i]
    ensures r.tasks == db.tasks && r.nextUserId == db.nextUserId && r.nextTaskId == db.nextTaskId
  {
    db.(users := Map(db.users, (u: User) => if u.email == email then u.(password := password) else u))
  }

  /** The add-task update: the new, uncompleted task gets the current
      counter as id and is appended; the counter moves on by one. */
  function AddTask(db: Store, userId: int, title: string, content: string, due: Option<int>, now: int): (r: Store)
    ensures r.tasks == db.tasks + [Task(db.nextTaskId, userId, title, content, due, false, now)]
    ensures r.nextTaskId == db.nextTaskId + 1
    ensures r.users == db.users && r.nextUserId == db.nextUserId
  {
    db.(tasks := db.tasks + [Task(db.nextTaskId, userId, title, content, due, false, now)],
        nextTaskId := db.nextTaskId + 1)
  }

  /** The ownership test of toggle and delete. */
  predicate Owned(t: Task, taskId: int, userId: int) {
    t.id == taskId && t.userId == userId
  }

  /** The toggle update: an owned task with that id flips `completed`. */
  function Toggle(db: Store, taskId: int, userId: int): (r: Store)
    ensures |r.tasks| == |db.tasks|
    ensures forall i | 0 <= i < |db.tasks| ::
      r.tasks[i] == if Owned(db.tasks[i], taskId, userId)
                    then db.tasks[i].(completed := !db.tasks[i].completed)
                    else db.tasks[i]
    ensures r.users == db.users && r.nextUserId == db.nextUserId && r.nextTaskId == db.nextTaskId
  {
    db.(tasks := Map(db.tasks, (t: Task) => if Owned(t, taskId, userId) then t.(completed := !t.completed) else t))
  }

  /** The delete update: owned tasks with that id are filtered out. */
  function Delete(db: Store, taskId: int, userId: int): (r: Store)
    ensures forall t :: t in r.tasks <==> t in db.tasks && !Owned(t, taskId, userId)
    ensures |r.tasks| <= |db.tasks|
    ensures r.users == db.users && r.nextUserId == db.nextUserId && r.nextTaskId == db.nextTaskId
  {
    FilterMembers(db.tasks, (t: Task) => !Owned(t, taskId, userId));
    db.(tasks := Filter(db.tasks, (t: Task) => !Owned(t, taskId, userId)))
  }

  /** Registering an e-mail nobody holds keeps the store valid, and the new
      id is fresh. */
  lemma AddUserKeepsValid(db: Store, email: string, password: string, now: int)
    requires Valid(db) && EmailOwner(db.users, email).None?
    ensures Valid(AddUser(db, email, password, now))
    ensures forall i | 0 <= i < |db.users| :: db.users[i].id != db.nextUserId
  {
    var r := AddUser(db, email, password, now);
    forall i | 0 <= i < |db.tasks| ensures HasUser(r.users, r.tasks[i].userId) {
      assert HasUser(db.users, db.tasks[i].userId);
      var j :| 0 <= j < |db.users| && db.users[j].id == db.tasks[i].userId;
      assert r.users[j] == db.users[j];
    }
  }

  /** The id-preserving updates keep the set of user ids. */
  lemma SameIdsSameOwners(a: seq<User>, b: seq<User>)
    requires |a| == |b|
    requires forall i | 0 <= i < |a| :: a[i].id == b[i].id
    ensures forall id :: HasUser(a, id) <==> HasUser(b, id)
  {
    forall id ensures HasUser(a, id) <==> HasUser(b, id) {
      if HasUser(a, id) {
        var j :| 0 <= j < |a| && a[j].id == id;
        assert b[j].id == id;
      }
      if HasUser(b, id) {
        var j :| 0 <= j < |b| && b[j].id == id;
        assert a[j].id == id;
      }
    }
  }

  /** A profile update to an e-mail no other user holds keeps the store valid. */
  lemma UpdateUserKeepsValid(db: Store, id: int, email: string, password: string)
    requires Valid(db) && !EmailTakenByOther(db.users, email, id)
    ensures Valid(UpdateUser(db, id, email, password))
  {
    var r := UpdateUser(db, id, email, password);
    SameIdsSameOwners(db.users, r.users);
    forall i, j | 0 <= i < j < |r.users| ensures r.users[i].email != r.users[j].email {
      if db.users[i].id == id {
        assert db.users[j].id != id;
      } else if db.users[j].id == id {
        assert db.users[i].id != id;
      }
    }
  }

  /** A password reset keeps the store valid. */
  lemma SetPasswordKeepsValid(db: Store, email: string, password: string)
    requires Valid(db)
    ensures Valid(SetPassword(db, email, password))
  {
    SameIdsSameOwners(db.users, SetPassword(db, email, password).users);
  }

  /** Adding a task for a stored user keeps the store valid, and the new id is fresh. */
  lemma AddTaskKeepsValid(db: Store, userId: int, title: string, content: string, due: Option<int>, now: int)
    requires Valid(db) && HasUser(db.users, userId)
    ensures Valid(AddTask(db, userId, title, content, due, now))
    ensures forall i | 0 <= i < |db.tasks| :: db.tasks[i].id != db.nextTaskId
  {
  }

  /** Toggling keeps the store valid. */
  lemma ToggleKeepsValid(db: Store, taskId: int, userId: int)
    requires Valid(db)
    ensures Valid(Toggle(db, taskId, userId))
  {
  }

  /** Deleting keeps the store valid; the counters stay where they were, so
      a deleted id is never handed out again. */
  lemma DeleteKeepsValid(db: Store, taskId: int, userId: int)
    requires Valid(db)
    ensures Valid(Delete(db, taskId, userId))
  {
    var r := Delete(db, taskId, userId);
    var p := (t: Task) => !Owned(t, taskId, userId);
    FilterMembers(db.tasks, p);
    forall i | 0 <= i < |r.tasks| ensures 1 <= r.tasks[i].id < r.nextTaskId && HasUser(r.users, r.tasks[i].userId) {
      assert r.tasks[i] in db.tasks;
    }
    FilterKeepsDistinctIds(db.tasks, p);
  }

  /** Filtering a list of tasks with distinct ids keeps the ids distinct. */
  lemma {:induction false} FilterKeepsDistinctIds(s: seq<Task>, p: Task -> bool)
    requires DistinctTaskIds(s)
    ensures DistinctTaskIds(Filter(s, p))
  {
    if s != [] {
      var rest := Filter(s[1..], p);
      FilterKeepsDistinctIds(s[1..], p);
      FilterMembers(s[1..], p);
      if p(s[0]) {
        forall k | 0 <= k < |rest| ensures rest[k].id != s[0].id {
          assert rest[k] in s[1..];
          var b :| 0 <= b < |s[1..]| && s[1..][b] == rest[k];
          assert s[b + 1] == rest[k];
        }
        var f := Filter(s, p);
        assert f == [s[0]] + rest;
        forall i, j | 0 <= i < j < |f| ensures f[i].id != f[j].id {
          if i > 0 {
            assert f[i] == rest[i - 1] && f[j] == rest[j - 1];
          } else {
            assert f[j] == rest[j - 1];
          }
        }
      }
    }
  }

  /** Toggling twice restores the store. */
  lemma ToggleTwice(db: Store, taskId: int, userId: int)
    ensures Toggle(Toggle(db, taskId, userId), taskId, userId) == db
  {
    var r := Toggle(Toggle(db, taskId, userId), taskId, userId);
    assert r.tasks == db.tasks;
  }

  /** Toggle and delete leave the store as it is when no task with that id
      belongs to that user. */
  lemma UnownedIsNoOp(db: Store, taskId: int, userId: int)
    requires forall i | 0 <= i < |db.tasks| :: !Owned(db.tasks[i], taskId, userId)
    ensures Toggle(db, taskId, userId) == db
    ensures Delete(db, taskId, userId) == db
  {
    assert Toggle(db, taskId, userId).tasks == db.tasks;
    FilterKeepsAll(db.tasks, (t: Task) => !Owned(t, taskId, userId));
  }

  /** In a valid store, deleting an owned task removes exactly that task and
      keeps the others in their order. */
  lemma DeleteRemovesOne(db: Store, taskId: int, userId: int, k: int)
    requires Valid(db)
    requires 0 <= k < |db.tasks| && Owned(db.tasks[k], taskId, userId)
    ensures Delete(db, taskId, userId).tasks == db.tasks[..k] + db.tasks[k + 1..]
  {
    assert UniqueIds(db);
    FilterRemovesOne(db.tasks, (t: Task) => !Owned(t, taskId, userId), k);
  }

  /** In a valid store, toggling an owned task flips exactly that task. */
  lemma ToggleFlipsOne(db: Store, taskId: int, userId: int, k: int)
    requires Valid(db)
    requires 0 <= k < |db.tasks| && Owned(db.tasks[k], taskId, userId)
    ensures Toggle(db, taskId, userId).tasks == db.tasks[k := db.tasks[k].(completed := !db.tasks[k].completed)]
  {
    assert UniqueIds(db);
  }

  /** In a valid store, a reset changes the password of exactly the user
      holding the e-mail. */
  lemma SetPasswordChangesOne(db: Store, email: string, password: string, k: int)
    requires Valid(db)
    requires 0 <= k < |db.users| && db.users[k].email == email
    ensures SetPassword(db, email, password).users == db.users[k := db.users[k].(password := password)]
  {
  }

  /** In a valid store, a profile update patches exactly the user with that id. */
  lemma UpdateUserChangesOne(db: Store, email: string, password: string, k: int)
    requires Valid(db)
    requires 0 <= k < |db.users|
    ensures UpdateUser(db, db.users[k].id, email, password).users
         == db.users[k := Patch(db.users[k], email, password)]
  {
  }
}
