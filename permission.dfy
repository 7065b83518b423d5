/** The Permission record: which role a user holds on a workflow. */
module PermissionModel {
  import opened Common

  /** The role enum; the order Viewer < Editor < Admin is the gate's business. */
  datatype Role = Viewer | Editor | Admin

  function RoleName(r: Role): string {
    match r
    case Viewer => "Viewer"
    case Editor => "Editor"
    case Admin => "Admin"
  }

  /** The enum check on `role`: exactly the three role names are accepted. */
  function ParseRole(s: string): (r: Option<Role>)
    ensures r.Some? ==> RoleName(r.value) == s
    ensures forall role :: RoleName(role) == s ==> r == Some(role)
  {
    if s == "Viewer" then Some(Viewer)
    else if s == "Editor" then Some(Editor)
    else if s == "Admin" then Some(Admin)
    else None
  }

  /** Both references are required, so neither is optional here. */
  datatype Permission = Permission(workflowId: Id, userId: UserId, role: Role)

  /** Records `i` and `j` are about the same (workflow, user) pair. */
  predicate Clash(ps: seq<Permission>, i: int, j: int)
    requires 0 <= i < |ps| && 0 <= j < |ps|
  {
    ps[i].workflowId == ps[j].workflowId && ps[i].userId == ps[j].userId
  }

  /** The unique index on (workflow_id, user_id). */
  ghost predicate UniqueGrants(ps: seq<Permission>) {
    forall i, j :: 0 <= i < j < |ps| ==> !Clash(ps, i, j)
  }

  /** `Permission.findOne({workflow_id, user_id})`: the first matching record. */
  function FindGrant(ps: seq<Permission>, w: Id, u: UserId): (r: Option<Permission>)
    ensures r.Some? ==> r.value in ps && r.value.workflowId == w && r.value.userId == u
  {
    if ps == [] then None
    else if ps[0].workflowId == w && ps[0].userId == u then Some(ps[0])
    else
      assert ps == [ps[0]] + ps[1..];
      FindGrant(ps[1..], w, u)
  }

  /** The lookup comes back empty exactly when no record is about the pair. */
  lemma {:induction false} FindGrantNone(ps: seq<Permission>, w: Id, u: UserId)
    ensures FindGrant(ps, w, u).None? <==> forall p :: p in ps ==> p.workflowId != w || p.userId != u
  {
    if ps != [] && (ps[0].workflowId != w || ps[0].userId != u) {
      assert ps == [ps[0]] + ps[1..];
      FindGrantNone(ps[1..], w, u);
    }
  }

  /** Under the unique index the lookup returns THE record of that pair. */
  lemma FindGrantUnique(ps: seq<Permission>, p: Permission)
    requires UniqueGrants(ps) && p in ps
    ensures FindGrant(ps, p.workflowId, p.userId) == Some(p)
  {
    var r := FindGrant(ps, p.workflowId, p.userId);
    FindGrantNone(ps, p.workflowId, p.userId);
    var i :| 0 <= i < |ps| && ps[i] == r.value;
    var j :| 0 <= j < |ps| && ps[j] == p;
    if i < j {
      assert Clash(ps, i, j);
    } else if j < i {
      assert Clash(ps, j, i);
    }
  }
}
