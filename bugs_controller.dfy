/** The bug endpoints: who may create, change and delete a bug, and what the stored
    record becomes. The database is a map from bug id to record; the caller's id and
    role come from the bearer token and are parameters here. */
module BugsController {
  import opened Common
  import opened BugModel

  // ---------------------------------------------------------------------------
  // Decision rules, one per action, as pure functions of the caller, the stored
  // record and the submitted record.
  // ---------------------------------------------------------------------------

  /** What a write never touches: the record's id, its reporter and when it was reported. */
  predicate KeepsIdentity(before: Bug, after: Bug)
  {
    after.bugId == before.bugId && after.reportedById == before.reportedById
    && after.reportedAt == before.reportedAt
  }

  /** PostBug: only a Tester reporting as themselves; the stored record takes the
      submitted name, description, reporter and assignment, and the workflow fields
      are forced whatever the client sent. */
  function CreateDecision(callerId: int, role: Role, submitted: Bug, id: int, now: Instant): (r: Result<Bug, Reason>)
    ensures r.Ok? <==> role == Tester && submitted.reportedById == callerId
    ensures role != Tester ==> r == Err(RoleNotPermitted)
    ensures role == Tester && submitted.reportedById != callerId ==> r == Err(NotReportedAsSelf)
    ensures r.Ok? ==> r.value.bugId == id && r.value.reportedById == callerId
    ensures r.Ok? ==> r.value.status == StatusNew && r.value.isModifiable
    ensures r.Ok? ==> r.value.reportedAt == now && r.value.lastModifiedAt == now
    ensures r.Ok? ==> r.value.name == submitted.name && r.value.description == submitted.description
    ensures r.Ok? ==> r.value.assignedToId == submitted.assignedToId && r.value.assignedAt == submitted.assignedAt
    ensures r.Ok? && ValidName(submitted.name) && ValidDescription(submitted.description) ==> WellFormed(r.value)
  {
    if role != Tester then Err(RoleNotPermitted)
    else if submitted.reportedById != callerId then Err(NotReportedAsSelf)
    else
      WorkflowStatusesValid();
      Ok(Bug(id, submitted.name, submitted.description, callerId, StatusNew,
             submitted.assignedToId, now, submitted.assignedAt, now, true))
  }

  /** An Administrator's change: the five editable fields come from the proposal and
      the assignment is stamped afresh (or cleared). */
  function AdministratorChange(existing: Bug, proposed: Bug, now: Instant): Bug
  {
    Bug(existing.bugId, proposed.name, proposed.description, existing.reportedById, proposed.status,
        proposed.assignedToId, existing.reportedAt,
        if proposed.assignedToId.Some? then Some(now) else None,
        now, proposed.isModifiable)
  }

  /** A Tester's change: the reporter, while the bug is modifiable, may rename and
      re-describe it and nothing else. */
  function TesterChange(callerId: int, existing: Bug, proposed: Bug, now: Instant): Result<Bug, Reason>
  {
    if existing.reportedById != callerId then Err(NotOwnReport)
    else if !existing.isModifiable then Err(NotModifiable)
    else if proposed.status != existing.status || proposed.assignedToId != existing.assignedToId
    then Err(TesterStatusOrAssignment)
    else Ok(existing.(name := proposed.name, description := proposed.description, lastModifiedAt := now))
  }

  /** A Programmer's change: take a free bug, or, on a bug they hold, set its status
      and keep it or give it up. Finishing a bug closes it to the reporter. */
  function ProgrammerChange(callerId: int, existing: Bug, proposed: Bug, now: Instant): Result<Bug, Reason>
  {
    if existing.name != proposed.name || existing.description != proposed.description then
      Err(ProgrammerNameOrDescription)
    else if existing.assignedToId.None? && proposed.assignedToId == Some(callerId) then
      Ok(existing.(status := StatusAssigned, assignedToId := Some(callerId), assignedAt := Some(now),
                   isModifiable := false, lastModifiedAt := now))
    else if existing.assignedToId == Some(callerId) then
      if proposed.assignedToId.None? then
        Ok(existing.(status := proposed.status, assignedToId := None, assignedAt := None,
                     isModifiable := !IsFinished(proposed.status), lastModifiedAt := now))
      else if proposed.assignedToId == Some(callerId) then
        Ok(existing.(status := proposed.status,
                     isModifiable := existing.isModifiable && !IsFinished(proposed.status),
                     lastModifiedAt := now))
      else Err(AssignToOther)
    else Err(NotAssignedToCaller)
  }

  /** The update engine of PutBug: one branch per role, any other role refused. */
  function UpdateDecision(callerId: int, role: Role, existing: Bug, proposed: Bug, now: Instant): (r: Result<Bug, Reason>)
    // every accepted change stamps the modification time and keeps the record's identity
    ensures r.Ok? ==> r.value.lastModifiedAt == now && KeepsIdentity(existing, r.value)
    // a change that starts from valid records ends in a valid record
    ensures r.Ok? && WellFormed(existing) && WellFormed(proposed) ==> WellFormed(r.value)
    // Administrator: always accepted; the proposal's editable fields are taken over
    ensures role == Administrator ==>
      r.Ok? && r.value.name == proposed.name && r.value.description == proposed.description
      && r.value.status == proposed.status && r.value.assignedToId == proposed.assignedToId
      && r.value.isModifiable == proposed.isModifiable
    ensures role == Administrator ==> (r.value.assignedAt.Some? <==> proposed.assignedToId.Some?)
    ensures role == Administrator && proposed.assignedToId.Some? ==> r.value.assignedAt == Some(now)
    // Tester: accepted exactly when the caller reported the still-modifiable bug and
    // leaves its status and assignment alone; then only name and description change
    ensures role == Tester ==>
      (r.Ok? <==> existing.reportedById == callerId && existing.isModifiable
                  && proposed.status == existing.status && proposed.assignedToId == existing.assignedToId)
    ensures role == Tester && !existing.isModifiable ==> r.Err?
    ensures role == Tester && r.Ok? ==>
      r.value == existing.(name := proposed.name, description := proposed.description, lastModifiedAt := now)
    // Programmer: the name and the description are locked, whatever else is proposed
    ensures role == Programmer && (proposed.name != existing.name || proposed.description != existing.description)
      ==> r == Err(ProgrammerNameOrDescription)
    ensures role == Programmer && r.Ok? ==>
      r.value.name == existing.name && r.value.description == existing.description
    // Programmer: accepted exactly on self-assignment of a free bug, or on a bug the
    // caller holds when the proposal keeps it with the caller or releases it
    ensures role == Programmer ==>
      (r.Ok? <==> proposed.name == existing.name && proposed.description == existing.description
                  && ((existing.assignedToId.None? && proposed.assignedToId == Some(callerId))
                      || (existing.assignedToId == Some(callerId)
                          && (proposed.assignedToId.None? || proposed.assignedToId == Some(callerId)))))
    // Programmer takes a free bug: the submitted status is ignored
    ensures role == Programmer && r.Ok? && existing.assignedToId.None? ==>
      r.value.assignedToId == Some(callerId) && r.value.assignedAt == Some(now)
      && !r.value.isModifiable && r.value.status == StatusAssigned
    // Programmer on a bug they hold: the status is the proposed one
    ensures role == Programmer && r.Ok? && existing.assignedToId == Some(callerId) ==>
      r.value.status == proposed.status
    // ... and releasing it clears the assignment and reopens it to the reporter unless finished
    ensures role == Programmer && r.Ok? && existing.assignedToId == Some(callerId) && proposed.assignedToId.None? ==>
      r.value.assignedToId.None? && r.value.assignedAt.None? && r.value.isModifiable == !IsFinished(proposed.status)
    // ... while keeping it leaves the assignment as it was
    ensures role == Programmer && r.Ok? && existing.assignedToId == Some(callerId) && proposed.assignedToId.Some? ==>
      r.value.assignedToId == existing.assignedToId && r.value.assignedAt == existing.assignedAt
      && r.value.isModifiable == (existing.isModifiable && !IsFinished(proposed.status))
    // a bug a Programmer leaves Resolved or Closed is no longer modifiable by its reporter
    ensures role == Programmer && r.Ok? && IsFinished(r.value.status) ==> !r.value.isModifiable
    // any other role is refused
    ensures role.Other? ==> r == Err(UnauthorizedRole)
  {
    WorkflowStatusesValid();
    match role
    case Administrator => Ok(AdministratorChange(existing, proposed, now))
    case Tester => TesterChange(callerId, existing, proposed, now)
    case Programmer => ProgrammerChange(callerId, existing, proposed, now)
    case Other(_) => Err(UnauthorizedRole)
  }

  /** DeleteBug's gate: `None` lets the deletion through, `Some(reason)` refuses it. */
  function DeleteDecision(callerId: int, role: Role, bug: Bug): (r: Option<Reason>)
    ensures r.None? <==> role == Administrator || (role == Tester && bug.reportedById == callerId && bug.isModifiable)
    ensures role == Tester && bug.reportedById != callerId ==> r == Some(NotOwnDeletion)
    ensures role == Tester && bug.reportedById == callerId && !bug.isModifiable ==> r == Some(DeleteAssigned)
    ensures role != Administrator && role != Tester ==> r == Some(DeleteNotAuthorized)
  {
    match role
    case Administrator => None
    case Tester =>
      if bug.reportedById != callerId then Some(NotOwnDeletion)
      else if !bug.isModifiable then Some(DeleteAssigned)
      else None
    case _ => Some(DeleteNotAuthorized)
  }

  // ---------------------------------------------------------------------------
  // The actions on the whole table.
  // ---------------------------------------------------------------------------

  /** Every row is stored under its own id. */
  predicate BugsUnderOwnIds(bugs: map<int, Bug>)
  {
    forall id :: id in bugs ==> bugs[id].bugId == id
  }

  /** PostBug with the role claim `claim`, inserting under the identity value `id`. */
  function PostBugSpec(bugs: map<int, Bug>, id: int, callerId: int, claim: string, submitted: Bug, now: Instant)
    : (r: Response<Bug>)
    ensures r.outcome == Created(id) <==> claim == TesterName && submitted.reportedById == callerId
    ensures !r.outcome.Created? ==> r.outcome.Forbidden? && r.table == bugs
    // a refusal carries the create rule's reason: the role attribute's or the self-attribution check's
    ensures !r.outcome.Created? ==> r.outcome == Forbidden(CreateDecision(callerId, ParseRole(claim), submitted, id, now).error)
    ensures r.outcome.Created? ==>
      id in r.table && r.table == bugs[id := r.table[id]] && r.table[id].status == StatusNew && r.table[id].isModifiable
      && r.table[id].reportedById == callerId && r.table[id].reportedAt == now && r.table[id].lastModifiedAt == now
    // the new row is the record the create rule builds
    ensures r.outcome.Created? ==>
      CreateDecision(callerId, ParseRole(claim), submitted, id, now).Ok? &&
      r.table[id] == CreateDecision(callerId, ParseRole(claim), submitted, id, now).value
    // under a fresh identity value, creation adds exactly one row
    ensures r.outcome.Created? && id !in bugs ==> r.table.Keys == bugs.Keys + {id} && |r.table| == |bugs| + 1
    ensures BugsUnderOwnIds(bugs) ==> BugsUnderOwnIds(r.table)
  {
    match CreateDecision(callerId, ParseRole(claim), submitted, id, now)
    case Ok(b) => Response(Created(id), bugs[id := b])
    case Err(reason) => Response(Forbidden(reason), bugs)
  }

  /** PutBug on path id `id` with the submitted record `submitted`. */
  function PutBugSpec(bugs: map<int, Bug>, id: int, callerId: int, claim: string, submitted: Bug, now: Instant)
    : (r: Response<Bug>)
    ensures id != submitted.bugId ==> r.outcome == BadRequest
    ensures id == submitted.bugId && id !in bugs ==> r.outcome == NotFound
    // a refused or failed update leaves the table exactly as it was
    ensures r.outcome != NoContent ==> r.table == bugs
    // an accepted update rewrites the one row, stamped now, and no other
    ensures r.outcome == NoContent ==>
      id in bugs && r.table.Keys == bugs.Keys && r.table[id].lastModifiedAt == now
      && KeepsIdentity(bugs[id], r.table[id])
      && forall k :: k in bugs && k != id ==> r.table[k] == bugs[k]
    // the update is accepted exactly when the update engine accepts it, and stores its record
    ensures r.outcome == NoContent <==>
      id == submitted.bugId && id in bugs && UpdateDecision(callerId, ParseRole(claim), bugs[id], submitted, now).Ok?
    ensures r.outcome == NoContent ==>
      r.table == bugs[id := UpdateDecision(callerId, ParseRole(claim), bugs[id], submitted, now).value]
    // a change the update engine refuses is answered with the engine's reason
    ensures id == submitted.bugId && id in bugs && UpdateDecision(callerId, ParseRole(claim), bugs[id], submitted, now).Err?
      ==> r.outcome == Forbidden(UpdateDecision(callerId, ParseRole(claim), bugs[id], submitted, now).error)
    ensures r.outcome.NoContent? || r.outcome.BadRequest? || r.outcome.NotFound? || r.outcome.Forbidden?
    ensures BugsUnderOwnIds(bugs) ==> BugsUnderOwnIds(r.table)
  {
    if id != submitted.bugId then Response(BadRequest, bugs)
    else if id !in bugs then Response(NotFound, bugs)
    else
      match UpdateDecision(callerId, ParseRole(claim), bugs[id], submitted, now)
      case Ok(b) => Response(NoContent, bugs[id := b])
      case Err(reason) => Response(Forbidden(reason), bugs)
  }

  /** DeleteBug on path id `id`. */
  function DeleteBugSpec(bugs: map<int, Bug>, id: int, callerId: int, claim: string): (r: Response<Bug>)
    ensures r.outcome == NotFound <==> id !in bugs
    ensures r.outcome == NoContent <==> id in bugs && DeleteDecision(callerId, ParseRole(claim), bugs[id]).None?
    // only an allowed deletion removes the key, and it removes nothing else
    ensures r.outcome == NoContent ==> r.table == bugs - {id} && r.table.Keys == bugs.Keys - {id}
    ensures r.outcome != NoContent ==> r.table == bugs
    ensures id in bugs && claim == AdministratorName ==> r.outcome == NoContent
    // a deletion the gate refuses is answered with the gate's reason
    ensures id in bugs && DeleteDecision(callerId, ParseRole(claim), bugs[id]).Some?
      ==> r.outcome == Forbidden(DeleteDecision(callerId, ParseRole(claim), bugs[id]).value)
    ensures BugsUnderOwnIds(bugs) ==> BugsUnderOwnIds(r.table)
  {
    if id !in bugs then Response(NotFound, bugs)
    else
      match DeleteDecision(callerId, ParseRole(claim), bugs[id])
      case None => Response(NoContent, bugs - {id})
      case Some(reason) => Response(Forbidden(reason), bugs)
  }

  /** A refused update, sent again unchanged at any later instant, is refused the same
      way and still changes nothing: a refusal does not depend on when it is sent. */
  lemma RefusedUpdateIsStable(bugs: map<int, Bug>, id: int, callerId: int, claim: string, submitted: Bug,
                              now: Instant, later: Instant)
    requires PutBugSpec(bugs, id, callerId, claim, submitted, now).outcome != NoContent
    ensures PutBugSpec(PutBugSpec(bugs, id, callerId, claim, submitted, now).table, id, callerId, claim, submitted, later)
            == PutBugSpec(bugs, id, callerId, claim, submitted, now)
  {
  }

  // ---------------------------------------------------------------------------
  // The controller over the Bugs table.
  // ---------------------------------------------------------------------------

  class BugsController {
    /** The Bugs table. */
    var bugs: map<int, Bug>
    /** The identity column's next value. */
    var nextId: int

    ghost predicate Valid()
      reads this
    {
      BugsUnderOwnIds(bugs) && forall id :: id in bugs ==> id < nextId
    }

    constructor ()
      ensures Valid() && bugs == map[]
    {
      bugs := map[];
      nextId := 1;
    }

    /** POST api/Bugs. */
    method PostBug(callerId: int, callerRole: string, bug: Bug, now: Instant) returns (r: Outcome)
      requires Valid()
      modifies this
      ensures Valid()
      ensures old(nextId) !in old(bugs)
      ensures Response(r, bugs) == PostBugSpec(old(bugs), old(nextId), callerId, callerRole, bug, now)
      ensures nextId == if r.Created? then old(nextId) + 1 else old(nextId)
    {
      // the action's role attribute admits Testers only
      if ParseRole(callerRole) != Tester {
        return Forbidden(RoleNotPermitted);
      }
      var currentUserId := callerId;
      if bug.reportedById != currentUserId {
        return Forbidden(NotReportedAsSelf);
      }
      var added := bug;
      added := added.(status := StatusNew);
      added := added.(reportedAt := now);
      added := added.(lastModifiedAt := now);
      added := added.(isModifiable := true);
      // the database assigns the identity value on insert
      added := added.(bugId := nextId);
      bugs := bugs[nextId := added];
      nextId := nextId + 1;
      r := Created(added.bugId);
    }

    /** PUT api/Bugs/{id}: the stored record is copied, changed field by field along
        the caller's role branch, and written back only if no branch refused. */
    method PutBug(id: int, callerId: int, callerRole: string, bug: Bug, now: Instant) returns (r: Outcome)
      requires Valid()
      modifies this
      ensures Valid() && nextId == old(nextId)
      ensures Response(r, bugs) == PutBugSpec(old(bugs), id, callerId, callerRole, bug, now)
    {
      if id != bug.bugId {
        return BadRequest;
      }
      if id !in bugs {
        return NotFound;
      }
      var existingBug := bugs[id];
      var currentUserId := callerId;
      var currentUserRole := ParseRole(callerRole);

      if currentUserRole == Administrator {
        existingBug := existingBug.(name := bug.name);
        existingBug := existingBug.(description := bug.description);
        existingBug := existingBug.(status := bug.status);
        existingBug := existingBug.(assignedToId := bug.assignedToId);
        existingBug := existingBug.(assignedAt := if bug.assignedToId.Some? then Some(now) else None);
        existingBug := existingBug.(isModifiable := bug.isModifiable);
      } else if currentUserRole == Tester {
        if existingBug.reportedById != currentUserId {
          return Forbidden(NotOwnReport);
        }
        if !existingBug.isModifiable {
          return Forbidden(NotModifiable);
        }
        existingBug := existingBug.(name := bug.name);
        existingBug := existingBug.(description := bug.description);
        if existingBug.status != bug.status || existingBug.assignedToId != bug.assignedToId {
          return Forbidden(TesterStatusOrAssignment);
        }
      } else if currentUserRole == Programmer {
        if existingBug.name != bug.name || existingBug.description != bug.description {
          return Forbidden(ProgrammerNameOrDescription);
        }
        if existingBug.assignedToId.None? && bug.assignedToId == Some(currentUserId) {
          existingBug := existingBug.(assignedToId := Some(currentUserId));
          existingBug := existingBug.(assignedAt := Some(now));
          existingBug := existingBug.(isModifiable := false);
          existingBug := existingBug.(status := StatusAssigned);
        } else if existingBug.assignedToId == Some(currentUserId) {
          existingBug := existingBug.(status := bug.status);
          if bug.assignedToId.None? {
            existingBug := existingBug.(assignedToId := None);
            existingBug := existingBug.(assignedAt := None);
            existingBug := existingBug.(isModifiable := true);
          } else if bug.assignedToId.Some? && bug.assignedToId != Some(currentUserId) {
            return Forbidden(AssignToOther);
          }
        } else {
          return Forbidden(NotAssignedToCaller);
        }
        if existingBug.status == StatusResolved || existingBug.status == StatusClosed {
          existingBug := existingBug.(isModifiable := false);
        }
      } else {
        return Forbidden(UnauthorizedRole);
      }

      existingBug := existingBug.(lastModifiedAt := now);
      bugs := bugs[id := existingBug];
      r := NoContent;
    }

    /** DELETE api/Bugs/{id}. */
    method DeleteBug(id: int, callerId: int, callerRole: string) returns (r: Outcome)
      requires Valid()
      modifies this
      ensures Valid() && nextId == old(nextId)
      ensures Response(r, bugs) == DeleteBugSpec(old(bugs), id, callerId, callerRole)
    {
      if id !in bugs {
        return NotFound;
      }
      var bug := bugs[id];
      var currentUserId := callerId;
      var currentUserRole := ParseRole(callerRole);
      if currentUserRole == Administrator {
        // an Administrator may delete any bug
      } else if currentUserRole == Tester {
        if bug.reportedById != currentUserId {
          return Forbidden(NotOwnDeletion);
        }
        if !bug.isModifiable {
          return Forbidden(DeleteAssigned);
        }
      } else {
        return Forbidden(DeleteNotAuthorized);
      }
      bugs := bugs - {id};
      r := NoContent;
    }

    /** GET api/Bugs: every bug, whatever the caller's role; nothing is filtered out. */
    method GetBugs() returns (r: Outcome, listed: map<int, Bug>)
      ensures r == Found && listed == bugs
    {
      r, listed := Found, bugs;
    }

    /** GET api/Bugs/{id}: any authenticated caller may read any bug. */
    method GetBug(id: int) returns (r: Outcome, found: Option<Bug>)
      ensures r == Found <==> id in bugs
      ensures r == NotFound <==> id !in bugs
      ensures found.Some? <==> r == Found
      ensures found.Some? ==> found.value == bugs[id]
    {
      if id !in bugs {
        return NotFound, None;
      }
      r, found := Found, Some(bugs[id]);
    }

    /** Whether a row with this id exists. */
    method BugExists(id: int) returns (present: bool)
      ensures present <==> id in bugs
    {
      present := id in bugs;
    }
  }
}
