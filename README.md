# PrismaFlow session and record store, in Dafny

PrismaFlow is a task tracker. Its only stateful logic is the local store in
`services/api.ts`. The store persists three values in browser local storage:

- the ordered list of registered users;
- the ordered list of tasks, each tagged with its owner's id;
- the current session user, if any.

On top of them it offers `api.auth` (`login`, `register`, `logout`,
`getSession`) and `api.tasks` (`getAll`, `create`, `update`, `delete`).

The model has three files:

- `types.dfy` (module `Types`) mirrors the records of `types.ts`: `Priority`, `Task`, `User` with its optional token, and `TaskPatch`. `TaskPatch` is `Partial<Task>`, one `Option` per field.
- `api.dfy` (module `Api`) holds the store. Class `Store` has the fields `users`, `tasks` and `session`, and one method per operation. Each method's `ensures` states the whole new state and the result, including the error cases.
  - The library searches the source calls are written as loops: `find`/`some` in `FindUser`, `findIndex` in `FindTask` and `filter` in `GetAll`, three methods that change nothing; and the `filter` of `delete` in `Delete`, which then replaces the stored task list.
  - Each loop is proved against a recursive specification function: `FirstWithEmail`, `FirstWithId`, `OwnedBy` or `WithoutId`.
  - Lemmas about those functions state what the listing, delete and partial-update behaviour promise.
  - `Store.Consistent` says that emails are pairwise distinct and that the session is a copy of a stored user. Every operation preserves it, but none requires it, because the source does not check it.
- `scenario.dfy` (module `Scenario`) is a client that walks through one session of the application. Each assertion in it follows from the contracts alone.

The JSON round trip through local storage is the identity. An absent key reads as an empty list or no session, which is the state `Store`'s constructor builds. The random parts of ids and tokens and the clock reading for `createdAt` are parameters (`idSuffix`, `tokenSuffix`, `now`). The literal prefixes `u-`, `jwt_` and `task-` are kept.

Four behaviours of the code that the model keeps as they are:

- `update` spreads the patch over the stored task, so it can overwrite any `Task` field, including `id`, `userId` and `createdAt`; a task's owner can change (services/api.ts:90).
- `delete` filters out every task carrying the id, however many there are (services/api.ts:96).
- User ids and task ids are random suffixes, and nothing checks them against the ids already stored (services/api.ts:33, services/api.ts:69). The model states no uniqueness of ids.
- `login` writes the token only into the session copy; the stored user keeps the token it got at registration (services/api.ts:21-22, services/api.ts:36-39).

## Model

| member | source | states |
|---|---|---|
| `Api.FirstWithEmail` | services/api.ts:14-15 | `find` by email: the index of a user with that email such that no earlier user has it, or none exactly when no user has the email |
| `Api.AppendFreshKeepsEmailsDistinct` | services/api.ts:27-40 | appending a user whose email is not taken keeps all emails pairwise distinct |
| `Api.OwnedBy` | services/api.ts:61 | the owner filter returns no more tasks than stored, and every returned task has that owner |
| `Api.WithoutId` | services/api.ts:96 | the delete filter returns no more tasks than stored, and none of them carries the id |
| `Api.FirstWithId` | services/api.ts:87 | `findIndex` by id: the first index carrying the id, or none exactly when no task carries it |
| `Api.Merge` | services/api.ts:90 | the spread `{...task, ...updates}`: each field the patch gives overrides the task's, each field it omits keeps the old value, for all eight fields (id, userId and createdAt included) |
| `Api.MergeNoChanges` | services/api.ts:90 | the empty update leaves a task unchanged |
| `Api.MergeIdempotent` | services/api.ts:90 | applying the same update twice equals applying it once |
| `Api.MergeCompletedOnly` | services/api.ts:85-93 | updating only `completed` keeps title, description, priority, due date, owner and timestamps, and restoring the old flag gives back the original task |
| `Api.OwnedByConcat` | services/api.ts:61 | the owner filter distributes over concatenation, so listings keep the stored order |
| `Api.WithoutIdConcat` | services/api.ts:96 | the delete filter distributes over concatenation, so the remaining tasks keep their order |
| `Api.OwnedByMembers` | services/api.ts:58-62 | a task is listed for a user exactly when it is stored with that user as owner (nothing lost, nothing of another owner leaks in) |
| `Api.WithoutIdMembers` | services/api.ts:95-98 | a task survives a delete exactly when it is stored and has another id |
| `Api.WithoutAbsentId` | services/api.ts:95-98 | deleting an id that no task carries leaves the list unchanged |
| `Api.WithoutIdIdempotent` | services/api.ts:95-98 | a second delete of the same id is a no-op |
| `Api.OwnedByAppend` | services/api.ts:79-81 | appending a task adds it at the end of its owner's listing and leaves every other listing unchanged |
| `Api.OwnedByReplace` | services/api.ts:90 | replacing the task at one index changes a listing only at that task; the listed entries before and after it are unchanged |
| `Api.OwnedByWithoutId` | services/api.ts:58-62 | the listing after a delete is the old listing with that id removed |
| `Api.Store.constructor` | services/api.ts:8-9 | absent storage keys read as no users, no tasks and no session, and that state is consistent |
| `Api.Store.FindUser` | services/api.ts:15 | the linear search returns exactly `FirstWithEmail` of the stored users, and changes nothing |
| `Api.Store.Login` | services/api.ts:13-24 | unknown email: fails with `IdentityNotFound` and leaves session, users and tasks unchanged; otherwise the session and the result are the first user with that email carrying the new `jwt_` token, the users list is not modified, and the session is backed by a stored user |
| `Api.Store.Register` | services/api.ts:26-43 | taken email: fails with `DuplicateIdentity` and changes nothing; otherwise appends exactly one user (`u-` id, given username and email, `jwt_` token) at the end, makes it the session and returns it; keeps emails distinct and the store consistent |
| `Api.Store.Logout` | services/api.ts:45-47 | the session becomes absent whatever it was, so a second call changes nothing; users and tasks are untouched |
| `Api.Store.GetSession` | services/api.ts:49-54 | returns the stored session, or none when there is none |
| `Api.Store.GetAll` | services/api.ts:58-62 | no session gives `[]`; otherwise the stored tasks owned by the session user in stored order (`OwnedBy`); nothing is changed |
| `Api.Store.Create` | services/api.ts:64-83 | no session: fails with `Unauthorized` and leaves tasks unchanged; otherwise appends and returns a task with the given title, description, priority and due date, `completed = false`, the session user's id and the given timestamp, and that task is appended to the session user's listing; if the session is backed, the owner is a stored user |
| `Api.Store.FindTask` | services/api.ts:87 | the linear search returns exactly `FirstWithId` of the stored tasks, and changes nothing |
| `Api.Store.Update` | services/api.ts:85-93 | unknown id: fails with `RecordNotFound` and changes nothing; otherwise only the first index with the id is replaced by the merged task, the length and every other entry are unchanged, and the returned task is the stored one; there is no ownership check |
| `Api.Store.Delete` | services/api.ts:95-98 | the new task list is the old one with every task of that id removed, in order; users and session are untouched, and an absent id is not an error |

## Left out

- Random id and token generation (`Math.random().toString(36).substr(...)`) is not modelled. The random suffixes are parameters, and their length and alphabet are not constrained.
- The `new Date().toISOString()` timestamp is not modelled. It is the parameter `now`.
- Local storage and JSON encoding are treated as identity. The model keeps the three stored values as plain fields. Tampering with storage from outside, and malformed JSON that would make `JSON.parse` throw, are not modelled.
- The `async`/`Promise` wrappers are left out, since the store's work is synchronous. Interleaving of concurrent calls is left out too.
- Thrown `Error` objects are modelled as the four `ApiError` values. The message texts are not carried.
- In `Partial<Task>`, a key that is present with the value `undefined` would overwrite a field with `undefined`. The model treats it as an absent field.
- The string values of the `Priority` enum (`'Low'`, `'Medium'`, `'High'`) are not modelled, because storage is the identity and nothing compares them.
- `services/geminiService.ts` is not part of this model. It is a wrapper over a remote language-model service whose answers are opaque.
- `context/AuthContext.tsx`, `App.tsx` and `components/*.tsx` are not part of this model. They are React state, rendering, timers and floating-point display arithmetic.
