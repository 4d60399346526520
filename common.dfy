/** Vocabulary shared by the two controllers: optional values, decision results,
    instants, the caller's role as read from the bearer token, and the HTTP
    outcomes an action can produce. */
module Common {

  datatype Option<+T> = None | Some(value: T)

  /** The result of a pure decision: the new record, or the reason for refusing. */
  datatype Result<+T, +E> = Ok(value: T) | Err(error: E)

  /** A UTC instant. The clock is not modelled: each request receives its `now`. */
  type Instant = int

  const AdministratorName: string := "Administrator"
  const TesterName: string := "Tester"
  const ProgrammerName: string := "Programmer"

  /** The role claim of the caller's token. The claim is free text; anything that is
      not exactly one of the three role names is `Other`. */
  datatype Role = Administrator | Tester | Programmer | Other(name: string)

  function RoleName(role: Role): string
  {
    match role
    case Administrator => AdministratorName
    case Tester => TesterName
    case Programmer => ProgrammerName
    case Other(name) => name
  }

  /** A role as `ParseRole` produces it: `Other` never carries one of the three names. */
  predicate Canonical(role: Role)
  {
    role.Other? ==> role.name != AdministratorName && role.name != TesterName && role.name != ProgrammerName
  }

  /** The controllers compare the role claim with the three names by exact,
      case-sensitive string equality. */
  function ParseRole(claim: string): (role: Role)
    ensures Canonical(role)
    ensures RoleName(role) == claim
    ensures role == Administrator <==> claim == AdministratorName
    ensures role == Tester <==> claim == TesterName
    ensures role == Programmer <==> claim == ProgrammerName
  {
    if claim == AdministratorName then Administrator
    else if claim == TesterName then Tester
    else if claim == ProgrammerName then Programmer
    else Other(claim)
  }

  /** Naming a canonical role and reading the name back gives the role again. */
  lemma ParseRoleName(role: Role)
    requires Canonical(role)
    ensures ParseRole(RoleName(role)) == role
  {
  }

  /** Which rule refused an action. `RoleNotPermitted` is the role attribute's 403; every
      other reason stands for a call to `Forbid` with a message, which the framework
      reads as an authentication-scheme name. No handler is registered under that
      name, so the real answer is a server error (500), not a 403. */
  datatype Reason =
    | RoleNotPermitted            // the action's role attribute refused the caller's role
    | NotReportedAsSelf           // PostBug: the bug names another employee as its reporter
    | NotOwnReport                // PutBug, Tester: the caller did not report the bug
    | NotModifiable               // PutBug, Tester: the bug is no longer modifiable by its reporter
    | TesterStatusOrAssignment    // PutBug, Tester: the status or the assignee would change
    | ProgrammerNameOrDescription // PutBug, Programmer: the name or the description would change
    | AssignToOther               // PutBug, Programmer: the owner hands the bug to somebody else
    | NotAssignedToCaller         // PutBug, Programmer: the bug is neither free to take nor the caller's
    | UnauthorizedRole            // PutBug: none of the three roles
    | NotOwnDeletion              // DeleteBug, Tester: the caller did not report the bug
    | DeleteAssigned              // DeleteBug, Tester: the bug is no longer modifiable by its reporter
    | DeleteNotAuthorized         // DeleteBug: neither Administrator nor Tester

  /** What an action answers. `Found` is 200 with the record, `Created` 201 with the new
      record's id, `NoContent` 204; `LastAdministrator` is the 400 with an
      explanatory message that DeleteEmployee returns. `Forbidden` is a refusal that
      leaves the table unchanged, tagged with the rule that refused. */
  datatype Outcome =
    | Found
    | Created(id: int)
    | NoContent
    | BadRequest
    | NotFound
    | Forbidden(reason: Reason)
    | LastAdministrator

  /** The answer of a write and the table it leaves behind. */
  datatype Response<T> = Response(outcome: Outcome, table: map<int, T>)
}
