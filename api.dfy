/** The session and record store of services/api.ts: registered users, tasks
    and the current session, kept in local storage under three keys. The
    storage round trip through JSON is the identity here, so the three stored
    values are the three fields of `Store`; random ids and tokens and the
    clock are parameters of the operations that use them. */
module Api {
  import opened Types

  /** The errors the store throws. */
  datatype ApiError =
    | IdentityNotFound   // login: no user with that email
    | DuplicateIdentity  // register: the email is taken
    | Unauthorized       // create: no session
    | RecordNotFound     // update: no task with that id

  /** Literal prefixes of generated user ids, tokens and task ids; what
      follows each prefix is random in the source and a parameter here. */
  const UserIdPrefix := "u-"
  const TokenPrefix := "jwt_"
  const TaskIdPrefix := "task-"

  // ---------------------------------------------------------------------
  // Users

  /** Some stored user has this email: the test `users.some(...)` makes
      before registering. `Register`'s contract is written with it;
      `FindUser` decides it, since `FirstWithEmail` is `None` exactly when
      it does not hold. */
  predicate EmailTaken(users: seq<User>, email: string) {
    exists i :: 0 <= i < |users| && users[i].email == email
  }

  /** `users.find(u => u.email === email)`, as the index of the first user
      with that email. */
  function FirstWithEmail(users: seq<User>, email: string): (r: Option<nat>)
    ensures r.Some? ==> r.value < |users| && users[r.value].email == email
    ensures r.Some? ==> forall j :: 0 <= j < r.value ==> users[j].email != email
    ensures r.None? <==> !EmailTaken(users, email)
  {
    if |users| == 0 then None
    else if users[0].email == email then Some(0)
    else match FirstWithEmail(users[1..], email)
      case None => None
      case Some(i) => Some(i + 1)
  }

  /** No two stored users share an email. */
  predicate EmailsDistinct(users: seq<User>) {
    forall i, j :: 0 <= i < j < |users| ==> users[i].email != users[j].email
  }

  /** Two records of the same account, whatever their tokens. */
  predicate SameAccount(a: User, b: User) {
    a.id == b.id && a.username == b.username && a.email == b.email
  }

  /** The session, if any, is a copy of a stored user. */
  predicate SessionBacked(users: seq<User>, session: Option<User>) {
    session.Some? ==> exists i :: 0 <= i < |users| && SameAccount(users[i], session.value)
  }

  /** Appending a user whose email is not yet taken keeps emails distinct. */
  lemma AppendFreshKeepsEmailsDistinct(users: seq<User>, u: User)
    requires EmailsDistinct(users)
    requires !EmailTaken(users, u.email)
    ensures EmailsDistinct(users + [u])
  {
  }

  // ---------------------------------------------------------------------
  // Tasks

  /** `tasks.filter(t => t.userId === userId)`: the listing of one user. */
  function OwnedBy(tasks: seq<Task>, userId: string): (r: seq<Task>)
    ensures |r| <= |tasks|
    ensures forall i :: 0 <= i < |r| ==> r[i].userId == userId
  {
    if |tasks| == 0 then []
    else
      var last := tasks[|tasks| - 1];
      OwnedBy(tasks[..|tasks| - 1], userId) + (if last.userId == userId then [last] else [])
  }

  /** `tasks.filter(t => t.id !== id)`: every task with that id removed. */
  function WithoutId(tasks: seq<Task>, id: string): (r: seq<Task>)
    ensures |r| <= |tasks|
    ensures forall i :: 0 <= i < |r| ==> r[i].id != id
  {
    if |tasks| == 0 then []
    else
      var last := tasks[|tasks| - 1];
      WithoutId(tasks[..|tasks| - 1], id) + (if last.id != id then [last] else [])
  }

  /** `tasks.findIndex(t => t.id === id)`, with `None` for -1. */
  function FirstWithId(tasks: seq<Task>, id: string): (r: Option<nat>)
    ensures r.Some? ==> r.value < |tasks| && tasks[r.value].id == id
    ensures r.Some? ==> forall j :: 0 <= j < r.value ==> tasks[j].id != id
    ensures r.None? <==> forall j :: 0 <= j < |tasks| ==> tasks[j].id != id
  {
    if |tasks| == 0 then None
    else if tasks[0].id == id then Some(0)
    else match FirstWithId(tasks[1..], id)
      case None => None
      case Some(i) => Some(i + 1)
  }

  /** `{ ...t, ...p }`: every field the patch gives replaces the task's,
      every field it leaves out keeps the task's value. */
  function Merge(t: Task, p: TaskPatch): (r: Task)
    ensures p.id.None? ==> r.id == t.id
    ensures p.id.Some? ==> r.id == p.id.value
    ensures p.title.None? ==> r.title == t.title
    ensures p.title.Some? ==> r.title == p.title.value
    ensures p.description.None? ==> r.description == t.description
    ensures p.description.Some? ==> r.description == p.description.value
    ensures p.priority.None? ==> r.priority == t.priority
    ensures p.priority.Some? ==> r.priority == p.priority.value
    ensures p.dueDate.None? ==> r.dueDate == t.dueDate
    ensures p.dueDate.Some? ==> r.dueDate == p.dueDate.value
    ensures p.completed.None? ==> r.completed == t.completed
    ensures p.completed.Some? ==> r.completed == p.completed.value
    ensures p.userId.None? ==> r.userId == t.userId
    ensures p.userId.Some? ==> r.userId == p.userId.value
    ensures p.createdAt.None? ==> r.createdAt == t.createdAt
    ensures p.createdAt.Some? ==> r.createdAt == p.createdAt.value
  {
    Task(
      p.id.GetOr(t.id),
      p.title.GetOr(t.title),
      p.description.GetOr(t.description),
      p.priority.GetOr(t.priority),
      p.dueDate.GetOr(t.dueDate),
      p.completed.GetOr(t.completed),
      p.userId.GetOr(t.userId),
      p.createdAt.GetOr(t.createdAt))
  }

  /** The empty update `{}` leaves a task as it was. */
  lemma MergeNoChanges(t: Task)
    ensures Merge(t, NoChanges) == t
  {
  }

  /** Applying the same update twice is applying it once. */
  lemma MergeIdempotent(t: Task, p: TaskPatch)
    ensures Merge(Merge(t, p), p) == Merge(t, p)
  {
  }

  /** Toggling completion (`update(id, { completed })`) keeps every other
      field, and a second toggle with the old value restores the task. */
  lemma MergeCompletedOnly(t: Task, done: bool)
    ensures Merge(t, NoChanges.(completed := Some(done))) == t.(completed := done)
    ensures Merge(Merge(t, NoChanges.(completed := Some(done))), NoChanges.(completed := Some(t.completed))) == t
  {
  }

  /** Filtering for an owner distributes over concatenation, so it keeps the
      stored order. */
  lemma {:induction false} OwnedByConcat(a: seq<Task>, b: seq<Task>, userId: string)
    ensures OwnedBy(a + b, userId) == OwnedBy(a, userId) + OwnedBy(b, userId)
  {
    if |b| == 0 {
      assert a + b == a;
    } else {
      var b' := b[..|b| - 1];
      OwnedByConcat(a, b', userId);
      assert (a + b)[..|a + b| - 1] == a + b';
    }
  }

  /** Removing an id distributes over concatenation, so it keeps the stored
      order of what remains. */
  lemma {:induction false} WithoutIdConcat(a: seq<Task>, b: seq<Task>, id: string)
    ensures WithoutId(a + b, id) == WithoutId(a, id) + WithoutId(b, id)
  {
    if |b| == 0 {
      assert a + b == a;
    } else {
      var b' := b[..|b| - 1];
      WithoutIdConcat(a, b', id);
      assert (a + b)[..|a + b| - 1] == a + b';
    }
  }

  /** A task is listed for an owner exactly when it is stored with that
      owner: no task is lost and none of another owner leaks in. */
  lemma {:induction false} OwnedByMembers(tasks: seq<Task>, userId: string, t: Task)
    ensures t in OwnedBy(tasks, userId) <==> t in tasks && t.userId == userId
  {
    if |tasks| > 0 {
      var init, last := tasks[..|tasks| - 1], tasks[|tasks| - 1];
      OwnedByMembers(init, userId, t);
      assert tasks == init + [last];
    }
  }

  /** A task survives a delete exactly when it is stored and carries
      another id. */
  lemma {:induction false} WithoutIdMembers(tasks: seq<Task>, id: string, t: Task)
    ensures t in WithoutId(tasks, id) <==> t in tasks && t.id != id
  {
    if |tasks| > 0 {
      var init, last := tasks[..|tasks| - 1], tasks[|tasks| - 1];
      WithoutIdMembers(init, id, t);
      assert tasks == init + [last];
    }
  }

  /** Deleting an id no task carries leaves the list as it was. */
  lemma {:induction false} WithoutAbsentId(tasks: seq<Task>, id: string)
    requires forall i :: 0 <= i < |tasks| ==> tasks[i].id != id
    ensures WithoutId(tasks, id) == tasks
  {
    if |tasks| > 0 {
      var init := tasks[..|tasks| - 1];
      WithoutAbsentId(init, id);
      assert init + [tasks[|tasks| - 1]] == tasks;
    }
  }

  /** A second delete of the same id changes nothing. */
  lemma WithoutIdIdempotent(tasks: seq<Task>, id: string)
    ensures WithoutId(WithoutId(tasks, id), id) == WithoutId(tasks, id)
  {
    WithoutAbsentId(WithoutId(tasks, id), id);
  }

  /** Creating a task for the session user appends it to that user's
      listing; a task of another owner leaves the listing as it was. */
  lemma OwnedByAppend(tasks: seq<Task>, t: Task, userId: string)
    ensures OwnedBy(tasks + [t], userId)
         == OwnedBy(tasks, userId) + (if t.userId == userId then [t] else [])
  {
  }

  /** Replacing the task at one index changes a listing only at that task:
      the entries before and after it are listed as before. */
  lemma OwnedByReplace(tasks: seq<Task>, i: nat, t: Task, userId: string)
    requires i < |tasks|
    ensures OwnedBy(tasks[i := t], userId)
         == OwnedBy(tasks[..i], userId) + (if t.userId == userId then [t] else []) + OwnedBy(tasks[i + 1..], userId)
    ensures OwnedBy(tasks, userId)
         == OwnedBy(tasks[..i], userId) + (if tasks[i].userId == userId then [tasks[i]] else []) + OwnedBy(tasks[i + 1..], userId)
  {
    assert tasks[i := t] == (tasks[..i] + [t]) + tasks[i + 1..];
    OwnedByConcat(tasks[..i] + [t], tasks[i + 1..], userId);
    OwnedByAppend(tasks[..i], t, userId);
    assert tasks == (tasks[..i] + [tasks[i]]) + tasks[i + 1..];
    OwnedByConcat(tasks[..i] + [tasks[i]], tasks[i + 1..], userId);
    OwnedByAppend(tasks[..i], tasks[i], userId);
  }

  /** Listing after a delete is the old listing with that id removed: a
      deleted task never shows up again. */
  lemma {:induction false} OwnedByWithoutId(tasks: seq<Task>, userId: string, id: string)
    ensures OwnedBy(WithoutId(tasks, id), userId) == WithoutId(OwnedBy(tasks, userId), id)
  {
    if |tasks| > 0 {
      var init, last := tasks[..|tasks| - 1], tasks[|tasks| - 1];
      OwnedByWithoutId(init, userId, id);
      var kept := if last.id != id then [last] else [];
      var owned := if last.userId == userId then [last] else [];
      OwnedByConcat(WithoutId(init, id), kept, userId);
      WithoutIdConcat(OwnedBy(init, userId), owned, id);
      OwnedByAppend([], last, userId);
      assert [] + [last] == [last];
      WithoutIdConcat([], [last], id);
    }
  }

  // ---------------------------------------------------------------------
  // The store

  /** The three stored values and the operations of `api.auth` and
      `api.tasks` over them. */
  class Store {
    var users: seq<User>
    var tasks: seq<Task>
    var session: Option<User>

    /** What every operation keeps: emails unique and the session a copy
        of a stored user. The source does not enforce it against outside
        edits of the storage, so no operation requires it. */
    ghost predicate Consistent()
      reads this
    {
      EmailsDistinct(users) && SessionBacked(users, session)
    }

    /** A store over empty storage: every key absent. */
    constructor ()
      ensures users == [] && tasks == [] && session == None
      ensures Consistent()
    {
      users, tasks, session := [], [], None;
    }

    /** The lookup by email that `login` and `register` both start with. */
    method FindUser(email: string) returns (found: Option<nat>)
      ensures found == FirstWithEmail(users, email)
    {
      var i := 0;
      while i < |users|
        invariant 0 <= i <= |users|
        invariant forall j :: 0 <= j < i ==> users[j].email != email
      {
        if users[i].email == email {
          return Some(i);
        }
        i := i + 1;
      }
      return None;
    }

    /** `api.auth.login`: the first user with that email becomes the
        session, with a fresh token; the stored users are not touched. */
    method Login(email: string, tokenSuffix: string) returns (r: Result<User, ApiError>)
      modifies this`session
      ensures users == old(users) && tasks == old(tasks)
      ensures match FirstWithEmail(users, email)
        case None => r == Failure(IdentityNotFound) && session == old(session)
        case Some(i) =>
          && r == Success(users[i].(token := Some(TokenPrefix + tokenSuffix)))
          && session == Some(r.value)
      ensures r.Success? ==> r.value.email == email && SessionBacked(users, session)
      ensures old(Consistent()) ==> Consistent()
    {
      var found := FindUser(email);
      if found.None? {
        return Failure(IdentityNotFound);
      }
      var sessionUser := users[found.value].(token := Some(TokenPrefix + tokenSuffix));
      session := Some(sessionUser);
      r := Success(sessionUser);
      assert SameAccount(users[found.value], sessionUser);
    }

    /** `api.auth.register`: refuses a taken email; otherwise appends one
        new user and makes it the session. */
    method Register(username: string, email: string, idSuffix: string, tokenSuffix: string)
      returns (r: Result<User, ApiError>)
      modifies this`users, this`session
      ensures tasks == old(tasks)
      ensures EmailTaken(old(users), email) ==>
        r == Failure(DuplicateIdentity) && users == old(users) && session == old(session)
      ensures !EmailTaken(old(users), email) ==>
        && r == Success(User(UserIdPrefix + idSuffix, username, email, Some(TokenPrefix + tokenSuffix)))
        && users == old(users) + [r.value]
        && session == Some(r.value)
      ensures r.Success? ==> SessionBacked(users, session)
      ensures old(EmailsDistinct(users)) ==> EmailsDistinct(users)
      ensures old(Consistent()) ==> Consistent()
    {
      var found := FindUser(email);
      if found.Some? {
        return Failure(DuplicateIdentity);
      }
      var newUser := User(UserIdPrefix + idSuffix, username, email, Some(TokenPrefix + tokenSuffix));
      if EmailsDistinct(users) {
        AppendFreshKeepsEmailsDistinct(users, newUser);
      }
      ghost var before := users;
      users := users + [newUser];
      session := Some(newUser);
      r := Success(newUser);
      assert users[|before|] == newUser;
      assert forall i :: 0 <= i < |before| ==> users[i] == before[i];
    }

    /** `api.auth.logout`: the session is gone; users and tasks stay. */
    method Logout()
      modifies this`session
      ensures session == None
      ensures users == old(users) && tasks == old(tasks)
      ensures old(Consistent()) ==> Consistent()
    {
      session := None;
    }

    /** `api.auth.getSession`: the stored session, or none. */
    method GetSession() returns (current: Option<User>)
      ensures current == session
    {
      current := session;
    }

    /** `api.tasks.getAll`: nothing without a session; otherwise the
        session user's tasks in stored order. */
    method GetAll() returns (listed: seq<Task>)
      ensures session.None? ==> listed == []
      ensures session.Some? ==> listed == OwnedBy(tasks, session.value.id)
    {
      var user := GetSession();
      if user.None? {
        return [];
      }
      listed := [];
      var i := 0;
      while i < |tasks|
        invariant 0 <= i <= |tasks|
        invariant listed == OwnedBy(tasks[..i], user.value.id)
      {
        assert tasks[..i + 1] == tasks[..i] + [tasks[i]];
        OwnedByAppend(tasks[..i], tasks[i], user.value.id);
        if tasks[i].userId == user.value.id {
          listed := listed + [tasks[i]];
        }
        i := i + 1;
      }
      assert tasks[..i] == tasks;
    }

    /** `api.tasks.create`: refused without a session; otherwise appends a
        new, not yet completed task owned by the session user and returns it. */
    method Create(title: string, description: string, priority: Priority, dueDate: string,
                  idSuffix: string, now: string)
      returns (r: Result<Task, ApiError>)
      modifies this`tasks
      ensures users == old(users) && session == old(session)
      ensures session.None? ==> r == Failure(Unauthorized) && tasks == old(tasks)
      ensures session.Some? ==>
        && r == Success(Task(TaskIdPrefix + idSuffix, title, description, priority, dueDate,
                             false, session.value.id, now))
        && tasks == old(tasks) + [r.value]
        && OwnedBy(tasks, session.value.id) == OwnedBy(old(tasks), session.value.id) + [r.value]
      ensures r.Success? && SessionBacked(users, session) ==>
        exists i :: 0 <= i < |users| && users[i].id == r.value.userId
      ensures old(Consistent()) ==> Consistent()
    {
      var user := GetSession();
      if user.None? {
        return Failure(Unauthorized);
      }
      var newTask := Task(TaskIdPrefix + idSuffix, title, description, priority, dueDate,
                          false, user.value.id, now);
      OwnedByAppend(tasks, newTask, user.value.id);
      tasks := tasks + [newTask];
      r := Success(newTask);
    }

    /** The index lookup `update` starts with. */
    method FindTask(id: string) returns (index: Option<nat>)
      ensures index == FirstWithId(tasks, id)
    {
      var i := 0;
      while i < |tasks|
        invariant 0 <= i <= |tasks|
        invariant forall j :: 0 <= j < i ==> tasks[j].id != id
      {
        if tasks[i].id == id {
          return Some(i);
        }
        i := i + 1;
      }
      return None;
    }

    /** `api.tasks.update`: refused when no task has the id; otherwise the
        first task with it is merged with the patch in place, and nothing
        else in the list moves or changes. No ownership check is made. */
    method Update(id: string, patch: TaskPatch) returns (r: Result<Task, ApiError>)
      modifies this`tasks
      ensures users == old(users) && session == old(session)
      ensures match FirstWithId(old(tasks), id)
        case None => r == Failure(RecordNotFound) && tasks == old(tasks)
        case Some(i) =>
          && tasks == old(tasks)[i := Merge(old(tasks)[i], patch)]
          && r == Success(tasks[i])
      ensures r.Success? ==> |tasks| == |old(tasks)| && r.value in tasks
      ensures old(Consistent()) ==> Consistent()
    {
      var index := FindTask(id);
      if index.None? {
        return Failure(RecordNotFound);
      }
      var i := index.value;
      tasks := tasks[i := Merge(tasks[i], patch)];
      r := Success(tasks[i]);
    }

    /** `api.tasks.delete`: every task with the id is removed, the rest
        keep their order; an unknown id is not an error. */
    method Delete(id: string)
      modifies this`tasks
      ensures tasks == WithoutId(old(tasks), id)
      ensures users == old(users) && session == old(session)
      ensures old(Consistent()) ==> Consistent()
    {
      var kept := [];
      var i := 0;
      while i < |tasks|
        invariant 0 <= i <= |tasks|
        invariant tasks == old(tasks)
        invariant kept == WithoutId(tasks[..i], id)
      {
        assert tasks[..i + 1] == tasks[..i] + [tasks[i]];
        WithoutIdConcat(tasks[..i], [tasks[i]], id);
        assert [tasks[i]] == [] + [tasks[i]];
        if tasks[i].id != id {
          kept := kept + [tasks[i]];
        }
        i := i + 1;
      }
      assert tasks[..i] == tasks;
      tasks := kept;
    }
  }
}
