/** The bug record: its fields, the defaults a newly built record carries, and the
    bounds its validation annotations impose. */
module BugModel {
  import opened Common

  const MaxNameLength: nat := 200
  const MaxStatusLength: nat := 50

  const StatusNew: string := "New"
  const StatusAssigned: string := "Assigned"
  const StatusResolved: string := "Resolved"
  const StatusClosed: string := "Closed"

  /** One row of the Bugs table. `assignedToId` and `assignedAt` are the nullable
      columns; the navigation properties `ReportedBy` and `AssignedTo` are not kept. */
  datatype Bug = Bug(
    bugId: int,
    name: string,
    description: string,
    reportedById: int,
    status: string,
    assignedToId: Option<int>,
    reportedAt: Instant,
    assignedAt: Option<Instant>,
    lastModifiedAt: Instant,
    isModifiable: bool)

  /** The record `new Bug()` builds at `now`: every field at its declared default. */
  function NewBug(now: Instant): (b: Bug)
    ensures b.status == StatusNew && b.isModifiable
    ensures b.assignedToId == None && b.assignedAt == None
    ensures b.reportedAt == now && b.lastModifiedAt == now
    ensures b.name == [] && b.description == []
  {
    Bug(0, "", "", 0, StatusNew, None, now, None, now, true)
  }

  predicate IsWhiteSpace(c: char)
  {
    c == ' ' || c == '\t' || c == '\n' || c == '\r' || c == '\U{000B}' || c == '\U{000C}'
    || c == '\U{0085}' || c == '\U{00A0}'
  }

  /** What `[Required]` accepts for a string: it holds a character that is not white space. */
  predicate Present(s: string)
  {
    exists i :: 0 <= i < |s| && !IsWhiteSpace(s[i])
  }

  predicate ValidName(name: string) { Present(name) && |name| <= MaxNameLength }
  predicate ValidDescription(description: string) { Present(description) }
  predicate ValidStatus(status: string) { Present(status) && |status| <= MaxStatusLength }

  /** A record that passes the annotations on the model: a present name of at most
      200 characters, a present description, a present status of at most 50. */
  predicate WellFormed(b: Bug)
  {
    ValidName(b.name) && ValidDescription(b.description) && ValidStatus(b.status)
  }

  /** Resolved and Closed end a bug's working life: afterwards the reporter may not edit it. */
  predicate IsFinished(status: string)
  {
    status == StatusResolved || status == StatusClosed
  }

  /** Every status the workflow itself writes passes the Status annotations. */
  lemma WorkflowStatusesValid()
    ensures ValidStatus(StatusNew) && ValidStatus(StatusAssigned)
    ensures ValidStatus(StatusResolved) && ValidStatus(StatusClosed)
  {
    assert !IsWhiteSpace(StatusNew[0]);
    assert !IsWhiteSpace(StatusAssigned[0]);
    assert !IsWhiteSpace(StatusResolved[0]);
    assert !IsWhiteSpace(StatusClosed[0]);
  }

  /** A record built with no fields given does not pass validation: its name and
      description are empty until the client supplies them. */
  lemma NewBugNeedsNameAndDescription(now: Instant)
    ensures !WellFormed(NewBug(now))
  {
  }
}
