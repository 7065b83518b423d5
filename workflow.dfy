/** The Workflow record: title, description, lifecycle status, the pointer to
    its current version and its creator. */
module WorkflowModel {
  import opened Common

  const TitleMax := 200
  const DescriptionMax := 2000

  datatype Status = Draft | Published | Archived

  function StatusName(s: Status): string {
    match s
    case Draft => "Draft"
    case Published => "Published"
    case Archived => "Archived"
  }

  /** The enum check on `status`: exactly the three status names are accepted. */
  function ParseStatus(s: string): (r: Option<Status>)
    ensures r.Some? ==> StatusName(r.value) == s
    ensures forall st :: StatusName(st) == s ==> r == Some(st)
  {
    if s == "Draft" then Some(Draft)
    else if s == "Published" then Some(Published)
    else if s == "Archived" then Some(Archived)
    else None
  }

  /** `created_by` is required, so it is not optional here; the pointer to the
      current version is optional in the schema. */
  datatype Workflow = Workflow(
    id: Id,
    title: string,
    description: Option<string>,
    status: Status,
    currentVersionId: Option<Id>,
    createdBy: UserId)

  /** The schema's validators: a title is required (the empty string fails a
      required check) and at most 200 characters; a description at most 2000. */
  predicate ValidWorkflow(w: Workflow) {
    && 1 <= |w.title| <= TitleMax
    && (w.description.Some? ==> |w.description.value| <= DescriptionMax)
  }

  /** A new document before it is saved: `status` takes its default when not
      given and no version is pointed at yet. */
  function NewWorkflow(id: Id, title: string, description: Option<string>, status: Option<Status>, createdBy: UserId)
    : (w: Workflow)
    ensures status.None? ==> w.status == Draft
    ensures status.Some? ==> w.status == status.value
    ensures w.currentVersionId.None?
    ensures w.id == id && w.title == title && w.description == description && w.createdBy == createdBy
  {
    Workflow(id, title, description, status.GetOr(Draft), None, createdBy)
  }

  /** Filtering the list by a status string selects exactly the workflows
      whose status the string names. */
  lemma StatusQueryMatches(w: Workflow, q: string)
    ensures StatusName(w.status) == q <==> ParseStatus(q) == Some(w.status)
  {
  }
}
