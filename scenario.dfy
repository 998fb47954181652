/** A client of the store that goes through one session of the application
    (the calls App.tsx and AuthContext.tsx make): register, list, create,
    complete, log out, log in again, and a second registration of the same
    email. Every assertion follows from the operations' contracts alone. */
module Scenario {
  import opened Types
  import opened Api

  /** Register on empty storage: the new user is the session and has no
      tasks yet. */
  method RegisterOnEmptyStorage()
  {
    var store := new Store();
    var alice := store.Register("alice", "alice@x.com", "k3j9a", "first");
    assert alice.Success? && store.session == Some(alice.value);
    assert [] + [alice.value] == [alice.value];
    var listed := store.GetAll();
    assert listed == [];
    CreateAndComplete(store, alice.value);
  }

  /** The signed-in user creates a task and marks it completed; the
      listing shows the one task, completed, with its title kept. */
  method CreateAndComplete(store: Store, alice: User)
    requires store.users == [alice] && store.tasks == [] && store.session == Some(alice)
    requires alice.email == "alice@x.com"
    modifies store
  {
    var audit := store.Create("Audit", "", Medium, "2024-06-01", "p0q1r2s", "2024-05-01T09:00:00.000Z");
    assert audit.Success? && !audit.value.completed && audit.value.userId == alice.id;
    assert store.tasks == [audit.value];

    var done := store.Update(audit.value.id, NoChanges.(completed := Some(true)));
    assert FirstWithId([audit.value], audit.value.id) == Some(0);
    var completed := audit.value.(completed := true);
    assert done == Success(completed);
    assert store.users == [alice] && store.tasks == [completed];
    var listed := store.GetAll();
    OwnedByAppend([], completed, alice.id);
    assert [] + [completed] == [completed];
    assert listed == [completed] && listed[0].title == "Audit";

    LogoutAndLogInAgain(store, alice, completed);
  }

  /** From one user with one task (where `CreateAndComplete` ends): log
      out, log in again, find the task again, and fail to register the
      same email a second time. */
  method LogoutAndLogInAgain(store: Store, alice: User, done: Task)
    requires store.users == [alice] && store.tasks == [done]
    requires alice.email == "alice@x.com" && done.userId == alice.id
    modifies store
  {
    store.Logout();
    var current := store.GetSession();
    assert current == None;

    var again := store.Login("alice@x.com", "second");
    assert FirstWithEmail(store.users, "alice@x.com") == Some(0);
    assert again.Success? && again.value.id == alice.id;
    var listed := store.GetAll();
    OwnedByAppend([], done, alice.id);
    assert [] + [done] == [done];
    assert listed == [done];

    var twice := store.Register("alice2", "alice@x.com", "z8y7x", "third");
    assert EmailTaken([alice], "alice@x.com");
    assert twice == Failure(DuplicateIdentity) && |store.users| == 1;
  }
}
