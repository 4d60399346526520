# Bug tracking API: authorization and transition rules, in Dafny

This project models the server side of a role-gated bug tracker. Employees carry one
of three roles: Administrator, Tester or Programmer. They create, change and delete
bug records, and Administrators manage the employee accounts. The model covers:

- the record shape of a bug, with its defaults and its validation bounds (`BugModel`);
- the bug endpoints (`BugsController`), with the per-role rules that decide whether
  a write is accepted and what the stored record becomes;
- the employee endpoints (`EmployeesController`), with the safeguard that keeps the
  last Administrator account from being deleted.

Each database table is a `map` from id to record, held by a class that stands for
the controller. The caller's id and role claim, the current instant and the
password-hashing function are parameters.

Each write has two definitions:

- a class method that follows the controller action step by step: it copies the
  stored record, changes it field by field, returns early on a refusal, and writes
  the table only at the end;
- a pure function over the table (`PutBugSpec`, `DeleteEmployeeSpec`, ...) built
  from the per-role decision functions (`CreateDecision`, `UpdateDecision`,
  `DeleteDecision`).

Each method's postcondition equates its outcome and its new table with that function.
The properties are proved about the functions.

Files: `common.dfy` (roles, outcomes, refusal reasons), `bug_model.dfy`,
`bugs_controller.dfy`, `employees_controller.dfy`.

Behaviour of the code that the model keeps as written:

- `PostBug` forces `Status`, `IsModifiable`, `ReportedAt` and `LastModifiedAt`. It
  does not clear `AssignedToId` or `AssignedAt`: a Tester can report a bug that is
  already assigned.
- Only the Programmer path makes sure that a Resolved or Closed bug is not modifiable
  by its reporter. An Administrator may store any combination of status and
  `IsModifiable`.
- When a Programmer releases a bug, its status is the one they submitted. It is not
  reset to New.
- `DeleteEmployee` keeps at least one Administrator, but `PutEmployee` may rewrite the
  role of the only Administrator (`PutEmployeeDemotingOnlyAdministratorLeavesNone`,
  `PutEmployeeCanDemoteLastAdministrator`).
- A refused write changes nothing. The action returns before the database is saved,
  and the tracked changes are dropped with the request.

## Model

| member | source | states |
|---|---|---|
| `Common.ParseRole` | BugTrackingSystem.Api/Controllers/BugsController.cs:216-248 | The role claim is compared with "Administrator", "Tester" and "Programmer" by exact string equality: each role results iff the claim is exactly its name, anything else is `Other`, and naming the role read gives the claim back |
| `BugModel.NewBug` | BugTrackingSystem.Api/Models/Bug.cs:17-56 | A bug built without field values has Status "New", is modifiable by its reporter, is unassigned with no assignment time, is stamped now, and has empty name and description |
| `BugModel.WorkflowStatusesValid` | BugTrackingSystem.Api/Models/Bug.cs:33-35 | The statuses the workflow writes itself (New, Assigned, Resolved, Closed) are present and within the 50-character bound of Status |
| `BugModel.NewBugNeedsNameAndDescription` | BugTrackingSystem.Api/Models/Bug.cs:15-21 | The default record fails the Required bounds on name and description: a client must supply them |
| `BugsController.CreateDecision` | BugTrackingSystem.Api/Controllers/BugsController.cs:136-151 | Creation is accepted iff the caller is a Tester reporting as themselves; a non-Tester is refused by the role attribute, and a foreign reporter is refused. The stored bug is New, modifiable and stamped now for both ReportedAt and LastModifiedAt, whatever was submitted. It keeps the submitted name, description and assignment, and a valid name and description give a well-formed record |
| `BugsController.UpdateDecision` | BugTrackingSystem.Api/Controllers/BugsController.cs:213-299 | The per-role update engine. Every accepted change stamps LastModifiedAt and keeps id, reporter and report time, and valid inputs give a valid result. An Administrator is always accepted: the proposal's name, description, status, assignee and flag are taken over, with AssignedAt set to now iff an assignee is proposed. A Tester is accepted iff they reported the still-modifiable bug and propose the same status and assignee, and then only name and description change. A Programmer who changes name or description is refused. Otherwise a Programmer is accepted iff they take a free bug (the bug becomes theirs, assigned now, Assigned, not modifiable, whatever status was sent) or hold the bug and keep or release it. In both cases the status is the proposed one. Releasing clears assignee and time and reopens the bug unless it is finished. Keeping it leaves assignee, time and the modifiable flag as they were, except that a finished status clears the flag. Resolved or Closed after a Programmer change means not modifiable. Any other role is refused |
| `BugsController.DeleteDecision` | BugTrackingSystem.Api/Controllers/BugsController.cs:336-357 | A deletion passes iff the caller is an Administrator, or a Tester who reported the bug while it is still modifiable. The refusal reason is exact for each other case, and every other role is refused |
| `BugsController.PostBugSpec` | BugTrackingSystem.Api/Controllers/BugsController.cs:137-151 | A bug is created under the new identity value iff the caller is a Tester reporting as themselves. Otherwise the answer is Forbidden with the table unchanged, and its reason is the one `CreateDecision` gives: `RoleNotPermitted` (the role attribute's 403) for a non-Tester, `NotReportedAsSelf` for a Tester naming another reporter. Under a fresh identity value (which the class keeps, since every stored id is below its counter), creation adds exactly one key. The new row is New, modifiable and stamped now, and it is the record `CreateDecision` builds (so it keeps the submitted name, description and assignment), and keeps every row under its own id |
| `BugsController.PutBugSpec` | BugTrackingSystem.Api/Controllers/BugsController.cs:193-304 | A path id that differs from the body's id is BadRequest, and an absent id is NotFound. Any answer but NoContent leaves the table identical. NoContent comes back iff the ids agree, the bug exists and `UpdateDecision` accepts the change. It then stores exactly the record `UpdateDecision` computes, so for example an Administrator's update of an existing bug always lands. When `UpdateDecision` refuses, the answer is Forbidden with its reason. It rewrites only the target row, stamped now and with its identity kept, and keeps every row under its own id |
| `BugsController.DeleteBugSpec` | BugTrackingSystem.Api/Controllers/BugsController.cs:325-362 | NotFound iff the id is absent, checked before any role. NoContent iff the bug exists and the gate lets the caller through, and an Administrator always gets it. When the gate refuses, the answer is Forbidden with the gate's reason. Only NoContent removes the key, and it removes nothing else |
| `BugsController.RefusedUpdateIsStable` | BugTrackingSystem.Api/Controllers/BugsController.cs:195-297 | Sending a refused update again, at any later instant, gives the same refusal and the same unchanged table: a refusal does not depend on when it is sent |
| `BugsController.BugsController.PostBug` | BugTrackingSystem.Api/Controllers/BugsController.cs:135-151 | The action as written (role attribute, self-attribution check, forced fields, insert under the next identity value) answers and leaves the table exactly as `PostBugSpec` says, and keeps every row under its own id below the next identity value |
| `BugsController.BugsController.PutBug` | BugTrackingSystem.Api/Controllers/BugsController.cs:193-318 | The action as written (id check, lookup, field-by-field changes along the caller's role branch, early refusals, stamp and save) answers and leaves the table exactly as `PutBugSpec` says |
| `BugsController.BugsController.DeleteBug` | BugTrackingSystem.Api/Controllers/BugsController.cs:325-363 | The action as written (lookup, role and ownership checks, removal) answers and leaves the table exactly as `DeleteBugSpec` says |
| `BugsController.BugsController.GetBugs` | BugTrackingSystem.Api/Controllers/BugsController.cs:50-85 | Every caller receives every bug: nothing is filtered by role |
| `BugsController.BugsController.GetBug` | BugTrackingSystem.Api/Controllers/BugsController.cs:90-131 | Found with the stored record iff the id is present, NotFound otherwise |
| `BugsController.BugsController.BugExists` | BugTrackingSystem.Api/Controllers/BugsController.cs:365-368 | True iff a row with the id exists |
| `EmployeesController.AdministratorCountAfterRemoval` | BugTrackingSystem.Api/Controllers/EmployeesController.cs:161-170 | Removing a row lowers the Administrator count by exactly one if it was an Administrator's, and leaves the count unchanged otherwise |
| `EmployeesController.AdministratorCountAfterInsert` | BugTrackingSystem.Api/Controllers/EmployeesController.cs:76-83 | Adding a row under a new id raises the Administrator count by one if it is an Administrator's, and leaves the count unchanged otherwise |
| `EmployeesController.Redacted` | BugTrackingSystem.Api/Controllers/EmployeesController.cs:59-69 | The account as returned to clients carries every column but the password digest, which is empty |
| `EmployeesController.PostEmployeeSpec` | BugTrackingSystem.Api/Controllers/EmployeesController.cs:74-83 | Only an Administrator creates an account. The stored digest is the hash of the submitted password, both timestamps are now, and the row is stored under the new identity value. The stored row is otherwise the submitted record, including email and names. A fresh insert never lowers the Administrator count |
| `EmployeesController.PutEmployeeSpec` | BugTrackingSystem.Api/Controllers/EmployeesController.cs:100-125 | A non-Administrator is Forbidden, a path id that differs from the body's id is BadRequest, and an absent id is NotFound; none of these changes the table. NoContent overwrites username, email, role, first and last name and stamps UpdatedAt. It keeps the id and CreatedAt, replaces the digest by the hash of the supplied password only when one is supplied, and changes no other row |
| `EmployeesController.DeleteEmployeeSpec` | BugTrackingSystem.Api/Controllers/EmployeesController.cs:150-171 | An absent id is NotFound. Deleting an Administrator while at most one Administrator exists is refused with the last-Administrator error. An Administrator caller deletes any other existing account (NoContent iff that holds). Only NoContent removes the key, and it removes nothing else. If an Administrator existed before, one exists after every outcome, and deleting a non-Administrator leaves the Administrator count unchanged |
| `EmployeesController.PutEmployeeDemotingOnlyAdministratorLeavesNone` | BugTrackingSystem.Api/Controllers/EmployeesController.cs:115-120 | For every table whose target is the only Administrator, and every submitted role other than Administrator, an accepted overwrite leaves no Administrator: the safeguard exists on deletion only |
| `EmployeesController.PutEmployeeCanDemoteLastAdministrator` | BugTrackingSystem.Api/Controllers/EmployeesController.cs:104-120 | Such an overwrite is accepted in practice: a one-account table whose Administrator is made a Tester answers NoContent and has no Administrator left |
| `EmployeesController.EmployeesController.GetEmployees` | BugTrackingSystem.Api/Controllers/EmployeesController.cs:27-44 | Only an Administrator may list the accounts, and receives every account without its digest |
| `EmployeesController.EmployeesController.GetEmployee` | BugTrackingSystem.Api/Controllers/EmployeesController.cs:48-70 | Only an Administrator may read an account. The answer is NotFound iff the id is absent. An Administrator reading a present id always gets Found, with the account without its digest |
| `EmployeesController.EmployeesController.PostEmployee` | BugTrackingSystem.Api/Controllers/EmployeesController.cs:74-96 | The action as written (hash, stamp, insert under the next identity value) answers and leaves the table exactly as `PostEmployeeSpec` says |
| `EmployeesController.EmployeesController.PutEmployee` | BugTrackingSystem.Api/Controllers/EmployeesController.cs:100-146 | The action as written (id check, lookup, column-by-column overwrite, conditional digest replace) answers and leaves the table exactly as `PutEmployeeSpec` says |
| `EmployeesController.EmployeesController.DeleteEmployee` | BugTrackingSystem.Api/Controllers/EmployeesController.cs:150-174 | The action as written (lookup, count of Administrators when the target is one, removal) answers and leaves the table exactly as `DeleteEmployeeSpec` says, so an Administrator present before is present after |
| `EmployeesController.EmployeesController.EmployeeExists` | BugTrackingSystem.Api/Controllers/EmployeesController.cs:177-180 | True iff a row with the id exists |

## Left out

- Token handling: reading the caller's id and role from the token's claims is not modelled. When a claim is missing or malformed, the helpers throw an exception that nothing maps to a status code, so the answer is a 500; the model has no such answer. The id and the role claim are parameters. The role is the token's snapshot, not a lookup in the Employees table.
- Login, token signing and password verification (`AuthController.cs`) are not part of this model: they are calls into signing and hashing libraries.
- Password hashing is a parameter `hash: string -> string`. The real function salts each call at random, so two calls on the same password give different digests; the model treats one call as a fixed function.
- Concurrency: the optimistic-concurrency exception handling after `SaveChangesAsync` and the window between counting Administrators and deleting are storage-layer races. The model runs one request at a time, so it has no equivalent for them.
- Time: each action reads the clock more than once (for example at lines 146 and 147 of `BugsController.cs`). The model reads it once per request, as `now`.
- Identity values: the database assigns ids on insert. The model keeps a next-value counter and assumes the client leaves the id of a new record at its default.
- Framework validation: the framework checks the `[Required]` and `[MaxLength]` annotations before an action runs and answers 400. The actions do not call this check; the model states it as `BugModel.WellFormed` and proves that valid inputs give valid records, but does not put a 400 gate in front of the actions. The annotations of the employee record are not modelled. Under that check an empty password in a PUT body would be refused before `PutEmployee` runs.
- `BugModel.Present` treats a fixed set of ASCII and Latin-1 white-space characters as blank, not the full Unicode white-space class. Lengths are counted in characters, not UTF-16 code units.
- Database constraints: the foreign keys from a bug's reporter and assignee to the Employees table, and the unique index on usernames, are enforced by the database, not by the controllers, and are not modelled. This has three effects.
  - Deleting an employee who reported or holds a bug fails in the database.
  - A write that names an employee who does not exist fails when it is saved. The exception is not caught, so the answer is a 500. This covers a `PostBug` whose `AssignedToId` names nobody, a `PostBug` by a Tester whose account was deleted while the token was still valid, and an Administrator's `PutBug` that assigns a missing id. In each of these cases the model answers Created or NoContent and stores the row.
  - A `PostEmployee` or `PutEmployee` whose username is already taken by another account fails when it is saved, with a 500. The model answers Created or NoContent and stores the row.
- The navigation properties `ReportedBy` and `AssignedTo`, and their projection into the read responses, are not modelled. The order of the listed rows is not modelled either; lists are returned as maps from id to record.
- Refusal status codes: only a refusal by an action's role attribute (`Common.RoleNotPermitted`) is a 403. Every other refusal reason calls `Forbid` with a message, and that overload takes its arguments as authentication-scheme names. Only the bearer scheme is registered (`Program.cs`:66), so the framework throws when it runs the result, and the answer is a server error (500). The model keeps each of these as `Forbidden` with its tag and an unchanged table, and the message text is not modelled.
- `EmployeesController.DeleteEmployeeSpec` counts Administrators by exact comparison of the role text. The real count is a database query, and the table's collation may compare case-insensitively.
