/** The employee endpoints, all reserved to Administrators: reading accounts without
    their password digests, creating and overwriting accounts, and deleting them
    without ever removing the last Administrator. */
module EmployeesController {
  import opened Common

  /** One row of the Employees table. `passwordHash` holds the digest once stored; in
      a submitted record it carries the plain password the client sent. */
  datatype Employee = Employee(
    employeeId: int,
    username: string,
    passwordHash: string,
    email: Option<string>,
    role: string,
    firstName: string,
    lastName: string,
    createdAt: Instant,
    updatedAt: Instant)

  /** The stored role column is free text; an Administrator is a row whose role is
      exactly the Administrator role name. */
  predicate IsAdministrator(e: Employee)
  {
    ParseRole(e.role) == Administrator
  }

  function AdministratorIds(employees: map<int, Employee>): set<int>
  {
    set id | id in employees && IsAdministrator(employees[id])
  }

  /** The number of Administrator rows: what the safeguard counts before a deletion. */
  function AdministratorCount(employees: map<int, Employee>): nat
  {
    |AdministratorIds(employees)|
  }

  /** Removing a row lowers the Administrator count by one if the row was an
      Administrator's, and leaves it alone otherwise. */
  lemma {:induction false} AdministratorCountAfterRemoval(employees: map<int, Employee>, id: int)
    requires id in employees
    ensures AdministratorCount(employees - {id})
            == if IsAdministrator(employees[id]) then AdministratorCount(employees) - 1
               else AdministratorCount(employees)
  {
    var before, after := AdministratorIds(employees), AdministratorIds(employees - {id});
    if IsAdministrator(employees[id]) {
      assert id in before;
      assert after == before - {id};
    } else {
      assert after == before;
    }
  }

  /** Adding a row under a new id raises the Administrator count by one if the row is
      an Administrator's, and leaves it alone otherwise. */
  lemma {:induction false} AdministratorCountAfterInsert(employees: map<int, Employee>, id: int, e: Employee)
    ensures id !in employees ==>
      AdministratorCount(employees[id := e])
      == if IsAdministrator(e) then AdministratorCount(employees) + 1 else AdministratorCount(employees)
  {
    var before, after := AdministratorIds(employees), AdministratorIds(employees[id := e]);
    if id in employees {
    } else if IsAdministrator(e) {
      assert id !in before;
      assert after == before + {id};
    } else {
      assert after == before;
    }
  }

  /** Every row is stored under its own id. */
  predicate EmployeesUnderOwnIds(employees: map<int, Employee>)
  {
    forall id :: id in employees ==> employees[id].employeeId == id
  }

  /** The account as the read endpoints return it: every column but the password digest,
      which is left at the empty default. */
  function Redacted(e: Employee): (v: Employee)
    ensures v.passwordHash == []
    ensures v == e.(passwordHash := [])
  {
    Employee(e.employeeId, e.username, [], e.email, e.role, e.firstName, e.lastName, e.createdAt, e.updatedAt)
  }

  /** PostEmployee inserting under the identity value `id`; `hash` is the password-hashing
      function. */
  function PostEmployeeSpec(employees: map<int, Employee>, id: int, claim: string, submitted: Employee,
                            now: Instant, hash: string -> string): (r: Response<Employee>)
    ensures r.outcome == Created(id) <==> claim == AdministratorName
    ensures !r.outcome.Created? ==> r.outcome == Forbidden(RoleNotPermitted) && r.table == employees
    ensures r.outcome.Created? ==>
      id in r.table && r.table == employees[id := r.table[id]]
      && r.table[id].passwordHash == hash(submitted.passwordHash)
      && r.table[id].createdAt == now && r.table[id].updatedAt == now && r.table[id].employeeId == id
      && r.table[id].role == submitted.role && r.table[id].username == submitted.username
    // the new row is the submitted record, hashed, stamped and under its new id
    ensures r.outcome.Created? ==>
      r.table[id] == submitted.(employeeId := id, passwordHash := hash(submitted.passwordHash),
                                createdAt := now, updatedAt := now)
    // inserting under a fresh id never lowers the Administrator count
    ensures id !in employees ==> AdministratorCount(r.table) >= AdministratorCount(employees)
    ensures EmployeesUnderOwnIds(employees) ==> EmployeesUnderOwnIds(r.table)
  {
    if claim != AdministratorName then Response(Forbidden(RoleNotPermitted), employees)
    else
      var added := submitted.(employeeId := id, passwordHash := hash(submitted.passwordHash),
                              createdAt := now, updatedAt := now);
      AdministratorCountAfterInsert(employees, id, added);
      Response(Created(id), employees[id := added])
  }

  /** PutEmployee on path id `id`: an overwrite of the editable columns, the password
      digest replaced only when a new password is supplied. */
  function PutEmployeeSpec(employees: map<int, Employee>, id: int, claim: string, submitted: Employee,
                           now: Instant, hash: string -> string): (r: Response<Employee>)
    ensures claim != AdministratorName ==> r.outcome == Forbidden(RoleNotPermitted)
    ensures claim == AdministratorName && id != submitted.employeeId ==> r.outcome == BadRequest
    ensures claim == AdministratorName && id == submitted.employeeId && id !in employees ==> r.outcome == NotFound
    ensures r.outcome != NoContent ==> r.table == employees
    ensures r.outcome == NoContent <==> claim == AdministratorName && id == submitted.employeeId && id in employees
    ensures r.outcome == NoContent ==>
      r.table.Keys == employees.Keys && (forall k :: k in employees && k != id ==> r.table[k] == employees[k])
    // the overwritten columns take the submitted values; the id and creation time stay
    ensures r.outcome == NoContent ==>
      var before, after := employees[id], r.table[id];
      after.username == submitted.username && after.email == submitted.email && after.role == submitted.role
      && after.firstName == submitted.firstName && after.lastName == submitted.lastName
      && after.updatedAt == now && after.employeeId == before.employeeId && after.createdAt == before.createdAt
    // the digest changes only when a password is supplied
    ensures r.outcome == NoContent && submitted.passwordHash != [] ==> r.table[id].passwordHash == hash(submitted.passwordHash)
    ensures r.outcome == NoContent && submitted.passwordHash == [] ==> r.table[id].passwordHash == employees[id].passwordHash
    ensures EmployeesUnderOwnIds(employees) ==> EmployeesUnderOwnIds(r.table)
  {
    if claim != AdministratorName then Response(Forbidden(RoleNotPermitted), employees)
    else if id != submitted.employeeId then Response(BadRequest, employees)
    else if id !in employees then Response(NotFound, employees)
    else
      var existing := employees[id];
      var updated := Employee(existing.employeeId, submitted.username,
                              if submitted.passwordHash == [] then existing.passwordHash else hash(submitted.passwordHash),
                              submitted.email, submitted.role, submitted.firstName, submitted.lastName,
                              existing.createdAt, now);
      Response(NoContent, employees[id := updated])
  }

  /** DeleteEmployee on path id `id`. */
  function DeleteEmployeeSpec(employees: map<int, Employee>, id: int, claim: string): (r: Response<Employee>)
    ensures claim != AdministratorName ==> r.outcome == Forbidden(RoleNotPermitted)
    ensures r.outcome == NotFound <==> claim == AdministratorName && id !in employees
    // the safeguard: an Administrator's row is kept while at most one Administrator exists
    ensures r.outcome == LastAdministrator <==>
      claim == AdministratorName && id in employees && IsAdministrator(employees[id]) && AdministratorCount(employees) <= 1
    ensures r.outcome != NoContent ==> r.table == employees
    ensures r.outcome == NoContent ==> id in employees && r.table == employees - {id}
    // an Administrator deletes anyone but the last Administrator
    ensures r.outcome == NoContent <==>
      claim == AdministratorName && id in employees
      && !(IsAdministrator(employees[id]) && AdministratorCount(employees) <= 1)
    // whatever the outcome, an Administrator remains if one was there before
    ensures AdministratorCount(employees) >= 1 ==> AdministratorCount(r.table) >= 1
    // removing anyone but an Administrator leaves the Administrator count as it was
    ensures id in employees && !IsAdministrator(employees[id]) ==> AdministratorCount(r.table) == AdministratorCount(employees)
    ensures EmployeesUnderOwnIds(employees) ==> EmployeesUnderOwnIds(r.table)
  {
    if claim != AdministratorName then Response(Forbidden(RoleNotPermitted), employees)
    else if id !in employees then Response(NotFound, employees)
    else if IsAdministrator(employees[id]) && AdministratorCount(employees) <= 1 then
      Response(LastAdministrator, employees)
    else
      AdministratorCountAfterRemoval(employees, id);
      Response(NoContent, employees - {id})
  }

  /** PutEmployee is not guarded like DeleteEmployee: an accepted overwrite that gives
      the only Administrator another role leaves the table with none. */
  lemma {:induction false} PutEmployeeDemotingOnlyAdministratorLeavesNone(
    employees: map<int, Employee>, id: int, claim: string, submitted: Employee, now: Instant, hash: string -> string)
    requires id in employees && IsAdministrator(employees[id]) && AdministratorCount(employees) == 1
    requires !IsAdministrator(submitted)
    ensures PutEmployeeSpec(employees, id, claim, submitted, now, hash).outcome == NoContent ==>
      AdministratorCount(PutEmployeeSpec(employees, id, claim, submitted, now, hash).table) == 0
  {
    var r := PutEmployeeSpec(employees, id, claim, submitted, now, hash);
    if r.outcome == NoContent {
      var before, after := AdministratorIds(employees), AdministratorIds(r.table);
      assert id in before;
      assert after == before - {id};
    }
  }

  /** The overwrite above is reachable: a table whose only account is an Administrator,
      and a PUT that makes it a Tester. */
  lemma PutEmployeeCanDemoteLastAdministrator(hash: string -> string)
    ensures var before := map[1 := Employee(1, "root", "digest", None, AdministratorName, "Ada", "Admin", 0, 0)];
            var r := PutEmployeeSpec(before, 1, AdministratorName,
                                     Employee(1, "root", [], None, TesterName, "Ada", "Admin", 0, 0), 5, hash);
            AdministratorCount(before) == 1 && r.outcome == NoContent && AdministratorCount(r.table) == 0
  {
    var before := map[1 := Employee(1, "root", "digest", None, AdministratorName, "Ada", "Admin", 0, 0)];
    var r := PutEmployeeSpec(before, 1, AdministratorName,
                             Employee(1, "root", [], None, TesterName, "Ada", "Admin", 0, 0), 5, hash);
    assert AdministratorIds(before) == {1};
    assert AdministratorIds(r.table) == {};
  }

  class EmployeesController {
    /** The Employees table. */
    var employees: map<int, Employee>
    /** The identity column's next value. */
    var nextId: int

    ghost predicate Valid()
      reads this
    {
      EmployeesUnderOwnIds(employees) && forall id :: id in employees ==> id < nextId
    }

    constructor ()
      ensures Valid() && employees == map[]
    {
      employees := map[];
      nextId := 1;
    }

    /** GET api/Employees: every account, without password digests. */
    method GetEmployees(callerRole: string) returns (r: Outcome, listed: map<int, Employee>)
      ensures r == Found <==> callerRole == AdministratorName
      ensures r != Found ==> r == Forbidden(RoleNotPermitted) && listed == map[]
      ensures r == Found ==> listed.Keys == employees.Keys
      ensures r == Found ==> forall id :: id in listed ==> listed[id] == Redacted(employees[id])
    {
      if ParseRole(callerRole) != Administrator {
        return Forbidden(RoleNotPermitted), map[];
      }
      r := Found;
      listed := map id | id in employees :: Redacted(employees[id]);
    }

    /** GET api/Employees/{id}: one account, without its password digest. */
    method GetEmployee(callerRole: string, id: int) returns (r: Outcome, found: Option<Employee>)
      ensures callerRole != AdministratorName ==> r == Forbidden(RoleNotPermitted)
      ensures r == NotFound <==> callerRole == AdministratorName && id !in employees
      ensures callerRole == AdministratorName && id in employees ==> r == Found
      ensures found.Some? <==> r == Found
      ensures r == Found ==> id in employees && found.value == Redacted(employees[id])
    {
      if ParseRole(callerRole) != Administrator {
        return Forbidden(RoleNotPermitted), None;
      }
      var employee := if id in employees then Some(employees[id]) else None;
      if employee.None? {
        return NotFound, None;
      }
      r, found := Found, Some(Redacted(employee.value));
    }

    /** POST api/Employees. */
    method PostEmployee(callerRole: string, employee: Employee, now: Instant, hash: string -> string)
      returns (r: Outcome)
      requires Valid()
      modifies this
      ensures Valid()
      ensures old(nextId) !in old(employees)
      ensures Response(r, employees) == PostEmployeeSpec(old(employees), old(nextId), callerRole, employee, now, hash)
      ensures nextId == if r.Created? then old(nextId) + 1 else old(nextId)
    {
      if ParseRole(callerRole) != Administrator {
        return Forbidden(RoleNotPermitted);
      }
      var added := employee;
      added := added.(passwordHash := hash(added.passwordHash));
      added := added.(createdAt := now);
      added := added.(updatedAt := now);
      added := added.(employeeId := nextId);
      employees := employees[nextId := added];
      nextId := nextId + 1;
      r := Created(added.employeeId);
    }

    /** PUT api/Employees/{id}: the stored account is overwritten column by column. */
    method PutEmployee(callerRole: string, id: int, employee: Employee, now: Instant, hash: string -> string)
      returns (r: Outcome)
      requires Valid()
      modifies this
      ensures Valid() && nextId == old(nextId)
      ensures Response(r, employees) == PutEmployeeSpec(old(employees), id, callerRole, employee, now, hash)
    {
      if ParseRole(callerRole) != Administrator {
        return Forbidden(RoleNotPermitted);
      }
      if id != employee.employeeId {
        return BadRequest;
      }
      if id !in employees {
        return NotFound;
      }
      var existingEmployee := employees[id];
      existingEmployee := existingEmployee.(username := employee.username);
      existingEmployee := existingEmployee.(email := employee.email);
      existingEmployee := existingEmployee.(role := employee.role);
      existingEmployee := existingEmployee.(firstName := employee.firstName);
      existingEmployee := existingEmployee.(lastName := employee.lastName);
      existingEmployee := existingEmployee.(updatedAt := now);
      if employee.passwordHash != [] {
        existingEmployee := existingEmployee.(passwordHash := hash(employee.passwordHash));
      }
      employees := employees[id := existingEmployee];
      r := NoContent;
    }

    /** DELETE api/Employees/{id}: count the Administrators, then remove. */
    method DeleteEmployee(callerRole: string, id: int) returns (r: Outcome)
      requires Valid()
      modifies this
      ensures Valid() && nextId == old(nextId)
      ensures Response(r, employees) == DeleteEmployeeSpec(old(employees), id, callerRole)
      ensures AdministratorCount(old(employees)) >= 1 ==> AdministratorCount(employees) >= 1
    {
      if ParseRole(callerRole) != Administrator {
        return Forbidden(RoleNotPermitted);
      }
      if id !in employees {
        return NotFound;
      }
      var employeeToDelete := employees[id];
      if employeeToDelete.role == AdministratorName {
        var adminCount := AdministratorCount(employees);
        if adminCount <= 1 {
          return LastAdministrator;
        }
      }
      employees := employees - {id};
      r := NoContent;
    }

    /** Whether a row with this id exists. */
    method EmployeeExists(id: int) returns (present: bool)
      ensures present <==> id in employees
    {
      present := id in employees;
    }
  }
}
