/** The permission gate run before every workflow route: a read-only decision
    over the permission table. The record it finds is returned rather than
    attached to the request. */
module PermissionGate {
  import opened Common
  import opened PermissionModel
  import opened Errors

  /** The gate's role hierarchy table. */
  function Rank(r: Role): nat {
    match r
    case Viewer => 1
    case Editor => 2
    case Admin => 3
  }

  /** The hierarchy stated without numbers: Admin covers every role, every
      role covers Viewer, and each role covers itself. */
  predicate Covers(held: Role, required: Role) {
    held == required || held == Admin || required == Viewer
  }

  /** The numeric table orders the roles exactly as `Covers` does. */
  lemma RankOrdersRoles(held: Role, required: Role)
    ensures Rank(required) <= Rank(held) <==> Covers(held, required)
  {
  }

  /** `checkWorkflowPermission(required)`: a missing workflow id is a client
      error (400) before anything is looked up; no record for the pair is a
      denial (403); a record whose role ranks below the required one is a
      denial (403); otherwise the record found is handed on. */
  function Authorize(ps: seq<Permission>, workflowId: Option<Id>, user: UserId, required: Role)
    : (r: Result<Permission, Error>)
    ensures workflowId.None? ==> r == Err(MissingWorkflowId)
    ensures r.Ok? ==>
      && workflowId.Some? && r.value in ps
      && r.value.workflowId == workflowId.value && r.value.userId == user
      && Covers(r.value.role, required)
    ensures r.Err? ==> r.error == MissingWorkflowId || r.error == AccessDenied || r.error == RoleRequired(required)
  {
    if workflowId.None? then Err(MissingWorkflowId)
    else
      match FindGrant(ps, workflowId.value, user)
      case None => Err(AccessDenied)
      case Some(p) =>
        if Rank(p.role) < Rank(required) then Err(RoleRequired(required)) else Ok(p)
  }

  /** The gate answers 403 "Access denied" exactly when the workflow id is
      given and no permission record is about that (workflow, user) pair. */
  lemma AuthorizeDeniesStrangers(ps: seq<Permission>, w: Id, u: UserId, required: Role)
    ensures Authorize(ps, Some(w), u, required) == Err(AccessDenied)
            <==> forall p :: p in ps ==> p.workflowId != w || p.userId != u
  {
    FindGrantNone(ps, w, u);
  }

  /** The message the gate answers a denial with. */
  function DenialMessage(e: Error): (m: string)
    requires e == MissingWorkflowId || e == AccessDenied || e.RoleRequired?
    ensures e.RoleRequired? ==> m == RoleName(e.required) + " access required"
    ensures e == AccessDenied ==> m == "Access denied to this workflow"
    ensures e == MissingWorkflowId ==> m == "Workflow ID required"
  {
    match e
    case MissingWorkflowId => "Workflow ID required"
    case AccessDenied => "Access denied to this workflow"
    case RoleRequired(r) => RoleName(r) + " access required"
  }

  /** With one record per (workflow, user), the decision is fixed by that
      record: granted exactly when its role covers the required one. */
  lemma AuthorizeByGrant(ps: seq<Permission>, p: Permission, required: Role)
    requires UniqueGrants(ps) && p in ps
    ensures Authorize(ps, Some(p.workflowId), p.userId, required)
            == if Covers(p.role, required) then Ok(p) else Err(RoleRequired(required))
  {
    FindGrantUnique(ps, p);
  }

  /** Whoever passes the gate at some role passes it at every role below,
      with the same record. */
  lemma AuthorizeMonotone(ps: seq<Permission>, w: Option<Id>, u: UserId, higher: Role, lower: Role)
    requires Authorize(ps, w, u, higher).Ok? && Covers(higher, lower)
    ensures Authorize(ps, w, u, lower) == Authorize(ps, w, u, higher)
  {
  }

  /** An Admin record passes the gate at every required role. */
  lemma AdminPassesEverywhere(ps: seq<Permission>, w: Id, u: UserId, required: Role)
    requires FindGrant(ps, w, u).Some? && FindGrant(ps, w, u).value.role == Admin
    ensures Authorize(ps, Some(w), u, required) == Ok(FindGrant(ps, w, u).value)
  {
  }

  /** A Viewer is turned away from every Editor- or Admin-gated route. */
  lemma ViewerCannotEdit(ps: seq<Permission>, w: Id, u: UserId, required: Role)
    requires FindGrant(ps, w, u).Some? && FindGrant(ps, w, u).value.role == Viewer
    requires required != Viewer
    ensures Authorize(ps, Some(w), u, required) == Err(RoleRequired(required))
  {
  }
}
