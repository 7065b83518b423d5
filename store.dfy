/** The document store the workflow routes share: the workflow, version and
    permission collections, each a sequence of records in stored order, and
    the allocator of fresh ids. `Consistent` collects what every route keeps
    true; the lemmas below show that each kind of write the routes perform
    keeps it. */
module Database {
  import opened Common
  import opened WorkflowModel
  import opened VersionModel
  import opened PermissionModel

  /** The workflow `_id` column. */
  function WorkflowIds(ws: seq<Workflow>): (r: seq<Id>)
    ensures |r| == |ws| && forall i {:trigger r[i]} :: 0 <= i < |ws| ==> r[i] == ws[i].id
  {
    seq(|ws|, i requires 0 <= i < |ws| => ws[i].id)
  }

  /** `Workflow.findById(id)`: the position of the workflow, if stored. */
  function FindWorkflow(ws: seq<Workflow>, id: Id): (r: Option<nat>)
    ensures r.Some? ==> r.value < |ws| && ws[r.value].id == id
    ensures r.None? <==> forall i :: 0 <= i < |ws| ==> ws[i].id != id
  {
    var k := IndexOf(WorkflowIds(ws), id);
    if k.None? then
      assert forall i :: 0 <= i < |ws| ==> WorkflowIds(ws)[i] == ws[i].id;
      None
    else Some(k.value)
  }

  /** The workflow's pointer resolves to one of its own versions, and a
      Published workflow points at a published version. */
  ghost predicate CurrentVersionOk(w: Workflow, vs: seq<WorkflowVersion>) {
    && w.currentVersionId.Some?
    && var k := IndexOf(VersionIds(vs), w.currentVersionId.value);
       && k.Some?
       && vs[k.value].workflowId == w.id
       && (w.status == Published ==> vs[k.value].isPublished)
  }

  /** Some user holds Admin on the workflow. */
  ghost predicate HasAdmin(ps: seq<Permission>, w: Id) {
    exists u :: Permission(w, u, Admin) in ps
  }

  ghost predicate WorkflowOk(w: Workflow, vs: seq<WorkflowVersion>, ps: seq<Permission>, next: Id) {
    && w.id < next
    && ValidWorkflow(w)
    && CurrentVersionOk(w, vs)
    && HasAdmin(ps, w.id)
  }

  ghost predicate VersionOk(v: WorkflowVersion, ws: seq<Workflow>, next: Id) {
    && v.id < next
    && ValidVersion(v)
    && v.workflowId in WorkflowIds(ws)
  }

  /** The workflow at position `k` is in order. The position is named so that
      `Consistent` is only instantiated at positions a proof asks about. */
  ghost predicate WorkflowOkAt(ws: seq<Workflow>, vs: seq<WorkflowVersion>, ps: seq<Permission>, next: Id, k: int)
    requires 0 <= k < |ws|
  {
    WorkflowOk(ws[k], vs, ps, next)
  }

  /** The version at position `k` is in order. */
  ghost predicate VersionOkAt(ws: seq<Workflow>, vs: seq<WorkflowVersion>, next: Id, k: int)
    requires 0 <= k < |vs|
  {
    VersionOk(vs[k], ws, next)
  }

  /** The permission at position `k` names a workflow id already handed out. */
  predicate GrantBelow(ps: seq<Permission>, next: Id, k: int)
    requires 0 <= k < |ps|
  {
    ps[k].workflowId < next
  }

  /** What the routes keep true of the store: unique ids, all below the
      allocator; valid records; every workflow points at one of its own
      versions and has an Admin; every version belongs to a stored workflow;
      version numbers are dense per workflow; at most one version of a
      workflow is published; one permission per (workflow, user). */
  ghost predicate Consistent(ws: seq<Workflow>, vs: seq<WorkflowVersion>, ps: seq<Permission>, next: Id) {
    && Distinct(WorkflowIds(ws))
    && Distinct(VersionIds(vs))
    && (forall i :: 0 <= i < |ws| ==> WorkflowOkAt(ws, vs, ps, next, i))
    && (forall i :: 0 <= i < |vs| ==> VersionOkAt(ws, vs, next, i))
    && (forall i :: 0 <= i < |ps| ==> GrantBelow(ps, next, i))
    && Numbered(vs)
    && AtMostOnePublished(vs)
    && UniqueGrants(ps)
  }

  /** In a consistent store the pointer of a workflow resolves to the index
      of its current version. */
  lemma CurrentVersionIndex(ws: seq<Workflow>, vs: seq<WorkflowVersion>, ps: seq<Permission>, next: Id, k: nat)
    returns (j: nat)
    requires Consistent(ws, vs, ps, next) && k < |ws|
    ensures j < |vs| && Some(vs[j].id) == ws[k].currentVersionId && vs[j].workflowId == ws[k].id
    ensures ws[k].status == Published ==> vs[j].isPublished
  {
    assert WorkflowOkAt(ws, vs, ps, next, k);
    j := IndexOf(VersionIds(vs), ws[k].currentVersionId.value).value;
  }

  /** Every stored id is below the allocator, so the allocator's next id is fresh. */
  lemma IdsBelow(ws: seq<Workflow>, vs: seq<WorkflowVersion>, ps: seq<Permission>, next: Id)
    requires Consistent(ws, vs, ps, next)
    ensures forall x :: x in WorkflowIds(ws) ==> x < next
    ensures forall x :: x in VersionIds(vs) ==> x < next
  {
    forall x | x in WorkflowIds(ws) ensures x < next {
      var i :| 0 <= i < |ws| && WorkflowIds(ws)[i] == x;
      assert WorkflowOkAt(ws, vs, ps, next, i);
    }
    forall x | x in VersionIds(vs) ensures x < next {
      var i :| 0 <= i < |vs| && VersionIds(vs)[i] == x;
      assert VersionOkAt(ws, vs, next, i);
    }
  }

  /** Creating a workflow together with its version 1 and its creator's Admin
      permission keeps the store consistent. */
  lemma AddWorkflowKeeps(ws: seq<Workflow>, vs: seq<WorkflowVersion>, ps: seq<Permission>, next: Id,
                         w: Workflow, v: WorkflowVersion, u: UserId,
                         ws': seq<Workflow>, vs': seq<WorkflowVersion>, ps': seq<Permission>)
    requires Consistent(ws, vs, ps, next)
    requires ValidWorkflow(w) && w.id == next && w.currentVersionId == Some(next + 1) && w.status != Published
    requires ValidVersion(v) && v.id == next + 1 && v.workflowId == next && v.versionNumber == 1 && !v.isPublished
    requires ws' == ws + [w] && vs' == vs + [v] && ps' == ps + [Permission(next, u, Admin)]
    ensures Consistent(ws', vs', ps', next + 2)
    ensures VersionsOf(vs', next) == [v]
  {
    assert WorkflowIds(ws') == WorkflowIds(ws) + [next];
    assert VersionIds(vs') == VersionIds(vs) + [next + 1];
    IdsBelow(ws, vs, ps, next);
    DistinctAppend(WorkflowIds(ws), next);
    DistinctAppend(VersionIds(vs), next + 1);
    NoVersionsOfFreshId(ws, vs, ps, next);
    NumberedAppend(vs, v);
    AppendUnpublished(vs, v);
    VersionsOfAppend(vs, v, next);
    WorkflowsOkAfterAppend(ws, vs, ps, next, v, vs', next + 2);
    NewWorkflowOk(ws, vs, ps, next, w, v, u, ws', vs', ps', next + 2);
    GrantOnFreshWorkflow(ps, next, u, ps', next + 2);
    VersionsOkAfterNewWorkflow(ws, vs, next, w, v, ws', vs', next + 2);
  }

  /** A grant on a workflow id not yet handed out cannot clash with a stored one. */
  lemma GrantOnFreshWorkflow(ps: seq<Permission>, next: Id, u: UserId, ps': seq<Permission>, next': Id)
    requires UniqueGrants(ps) && forall i :: 0 <= i < |ps| ==> GrantBelow(ps, next, i)
    requires ps' == ps + [Permission(next, u, Admin)] && next' == next + 2
    ensures UniqueGrants(ps')
    ensures forall i :: 0 <= i < |ps'| ==> GrantBelow(ps', next', i)
  {
    forall i, j | 0 <= i < j < |ps'| ensures !Clash(ps', i, j) {
      if j < |ps| {
        assert !Clash(ps, i, j);
      } else {
        assert GrantBelow(ps, next, i);
      }
    }
    forall i | 0 <= i < |ps'| ensures GrantBelow(ps', next', i) {
      if i < |ps| {
        assert GrantBelow(ps, next, i);
      }
    }
  }

  /** No stored version belongs to an id not yet handed out. */
  lemma NoVersionsOfFreshId(ws: seq<Workflow>, vs: seq<WorkflowVersion>, ps: seq<Permission>, next: Id)
    requires Consistent(ws, vs, ps, next)
    ensures VersionsOf(vs, next) == []
  {
    forall x | x in vs ensures x.workflowId != next {
      var i :| 0 <= i < |vs| && vs[i] == x;
      assert VersionOkAt(ws, vs, next, i);
      var j :| 0 <= j < |ws| && WorkflowIds(ws)[j] == x.workflowId;
      assert WorkflowOkAt(ws, vs, ps, next, j);
    }
    if VersionsOf(vs, next) != [] {
      VersionsOfMembers(vs, next);
      assert VersionsOf(vs, next)[0] in VersionsOf(vs, next);
    }
  }

  /** The workflows after `AddWorkflowKeeps`: the old ones keep their Admin,
      the new one points at its version 1 and has its creator as Admin. */
  lemma NewWorkflowOk(ws: seq<Workflow>, vs: seq<WorkflowVersion>, ps: seq<Permission>, next: Id,
                      w: Workflow, v: WorkflowVersion, u: UserId,
                      ws': seq<Workflow>, vs': seq<WorkflowVersion>, ps': seq<Permission>, next': Id)
    requires forall i :: 0 <= i < |ws| ==> WorkflowOkAt(ws, vs', ps, next', i)
    requires next + 1 !in VersionIds(vs) && v.id == next + 1 && v.workflowId == next
    requires ValidWorkflow(w) && w.id == next && w.currentVersionId == Some(next + 1) && w.status != Published
    requires ws' == ws + [w] && vs' == vs + [v] && ps' == ps + [Permission(next, u, Admin)] && next' == next + 2
    ensures forall i :: 0 <= i < |ws'| ==> WorkflowOkAt(ws', vs', ps', next', i)
  {
    assert VersionIds(vs') == VersionIds(vs) + [next + 1];
    IndexOfAppendNew(VersionIds(vs), next + 1);
    forall i | 0 <= i < |ws'| ensures WorkflowOkAt(ws', vs', ps', next', i) {
      if i < |ws| {
        assert WorkflowOkAt(ws, vs', ps, next', i);
        var u' :| Permission(ws[i].id, u', Admin) in ps;
        assert Permission(ws[i].id, u', Admin) in ps';
      } else {
        assert Permission(next, u, Admin) in ps';
      }
    }
  }

  /** The versions after `AddWorkflowKeeps` all belong to stored workflows. */
  lemma VersionsOkAfterNewWorkflow(ws: seq<Workflow>, vs: seq<WorkflowVersion>, next: Id,
                                   w: Workflow, v: WorkflowVersion, ws': seq<Workflow>, vs': seq<WorkflowVersion>, next': Id)
    requires forall i :: 0 <= i < |vs| ==> VersionOkAt(ws, vs, next, i)
    requires ValidVersion(v) && v.id == next + 1 && v.workflowId == next && w.id == next
    requires ws' == ws + [w] && vs' == vs + [v] && next' == next + 2
    ensures forall i :: 0 <= i < |vs'| ==> VersionOkAt(ws', vs', next', i)
  {
    assert WorkflowIds(ws') == WorkflowIds(ws) + [next];
    forall i | 0 <= i < |vs'| ensures VersionOkAt(ws', vs', next', i) {
      if i < |vs| {
        assert VersionOkAt(ws, vs, next, i);
      }
    }
  }

  /** Appending a version, and moving the allocator on, leaves every
      workflow's pointer and Admin in order. */
  lemma WorkflowsOkAfterAppend(ws: seq<Workflow>, vs: seq<WorkflowVersion>, ps: seq<Permission>, next: Id,
                               v: WorkflowVersion, vs': seq<WorkflowVersion>, next': Id)
    requires forall i :: 0 <= i < |ws| ==> WorkflowOkAt(ws, vs, ps, next, i)
    requires vs' == vs + [v] && next <= next'
    ensures forall i :: 0 <= i < |ws| ==> WorkflowOkAt(ws, vs', ps, next', i)
  {
    assert VersionIds(vs') == VersionIds(vs) + [v.id];
    forall i | 0 <= i < |ws| ensures WorkflowOkAt(ws, vs', ps, next', i) {
      assert WorkflowOkAt(ws, vs, ps, next, i);
      IndexOfAppend(VersionIds(vs), v.id, ws[i].currentVersionId.value);
    }
  }

  /** Appending a version that is in order itself keeps every version in order. */
  lemma VersionsOkAfterAppend(ws: seq<Workflow>, vs: seq<WorkflowVersion>, next: Id, v: WorkflowVersion,
                              vs': seq<WorkflowVersion>, next': Id)
    requires forall i :: 0 <= i < |vs| ==> VersionOkAt(ws, vs, next, i)
    requires VersionOk(v, ws, next') && vs' == vs + [v] && next' == next + 1
    ensures forall i :: 0 <= i < |vs'| ==> VersionOkAt(ws, vs', next', i)
  {
    forall i | 0 <= i < |vs'| ensures VersionOkAt(ws, vs', next', i) {
      if i < |vs| {
        assert VersionOkAt(ws, vs, next, i);
      }
    }
  }

  /** The version columns after storing a fresh, unpublished version
      numbered count + 1: ids stay unique, numbering stays dense, at most one
      version per workflow stays published, and the new id is found at the end. */
  lemma AddVersionColumns(vs: seq<WorkflowVersion>, v: WorkflowVersion, vs': seq<WorkflowVersion>)
    requires Distinct(VersionIds(vs)) && Numbered(vs) && AtMostOnePublished(vs)
    requires v.id !in VersionIds(vs) && !v.isPublished
    requires v.versionNumber == CountVersions(vs, v.workflowId) + 1
    requires vs' == vs + [v]
    ensures Distinct(VersionIds(vs')) && Numbered(vs') && AtMostOnePublished(vs')
    ensures IndexOf(VersionIds(vs'), v.id) == Some(|vs|)
    ensures CountVersions(vs', v.workflowId) == CountVersions(vs, v.workflowId) + 1
  {
    assert VersionIds(vs') == VersionIds(vs) + [v.id];
    DistinctAppend(VersionIds(vs), v.id);
    NumberedAppend(vs, v);
    AppendUnpublished(vs, v);
    IndexOfAppendNew(VersionIds(vs), v.id);
  }

  /** Storing a new version numbered count + 1, unpublished, for a stored
      workflow keeps the store consistent; the new id is found at the end. */
  lemma AddVersionKeeps(ws: seq<Workflow>, vs: seq<WorkflowVersion>, ps: seq<Permission>, next: Id, v: WorkflowVersion,
                        vs': seq<WorkflowVersion>)
    requires Consistent(ws, vs, ps, next)
    requires ValidVersion(v) && v.id == next && v.workflowId in WorkflowIds(ws) && !v.isPublished
    requires v.versionNumber == CountVersions(vs, v.workflowId) + 1
    requires vs' == vs + [v]
    ensures Consistent(ws, vs', ps, next + 1)
    ensures IndexOf(VersionIds(vs'), next) == Some(|vs|)
    ensures CountVersions(vs', v.workflowId) == CountVersions(vs, v.workflowId) + 1
  {
    IdsBelow(ws, vs, ps, next);
    AddVersionColumns(vs, v, vs');
    WorkflowsOkAfterAppend(ws, vs, ps, next, v, vs', next + 1);
    VersionsOkAfterAppend(ws, vs, next, v, vs', next + 1);
    var next' := next + 1;
    forall i | 0 <= i < |ps| ensures GrantBelow(ps, next', i) {
      assert GrantBelow(ps, next, i);
    }
  }

  /** Overwriting a workflow record with a valid one of the same id whose
      pointer is in order keeps the store consistent. */
  lemma ReplaceWorkflowKeeps(ws: seq<Workflow>, vs: seq<WorkflowVersion>, ps: seq<Permission>, next: Id,
                             k: nat, w: Workflow, ws': seq<Workflow>)
    requires Consistent(ws, vs, ps, next) && k < |ws|
    requires w.id == ws[k].id && ValidWorkflow(w) && CurrentVersionOk(w, vs)
    requires ws' == ws[k := w]
    ensures Consistent(ws', vs, ps, next)
  {
    assert WorkflowIds(ws') == WorkflowIds(ws);
    assert WorkflowOkAt(ws, vs, ps, next, k);
    forall i | 0 <= i < |ws'| ensures WorkflowOkAt(ws', vs, ps, next, i) {
      assert WorkflowOkAt(ws, vs, ps, next, i);
    }
    forall i | 0 <= i < |vs| ensures VersionOkAt(ws', vs, next, i) {
      assert VersionOkAt(ws, vs, next, i);
    }
  }

  /** The collection after publishing version `j`: every version of its
      workflow unpublished, then `j` published. */
  function PublishedAt(vs: seq<WorkflowVersion>, j: nat): (r: seq<WorkflowVersion>)
    requires j < |vs|
    ensures SameKeys(vs, r)
    ensures forall i :: 0 <= i < |r| && vs[i].workflowId == vs[j].workflowId ==> (r[i].isPublished <==> i == j)
    ensures forall i :: 0 <= i < |r| && vs[i].workflowId != vs[j].workflowId ==> r[i] == vs[i]
    ensures forall i :: 0 <= i < |r| ==> r[i] == vs[i].(isPublished := r[i].isPublished)
  {
    var u := Unpublish(vs, vs[j].workflowId);
    u[j := u[j].(isPublished := true)]
  }

  /** Publishing version `j` of workflow `k` and pointing the workflow at it
      keeps the store consistent. */
  lemma PublishKeeps(ws: seq<Workflow>, vs: seq<WorkflowVersion>, ps: seq<Permission>, next: Id, k: nat, j: nat,
                     ws': seq<Workflow>, vs': seq<WorkflowVersion>)
    requires Consistent(ws, vs, ps, next) && k < |ws| && j < |vs| && vs[j].workflowId == ws[k].id
    requires ws' == ws[k := ws[k].(status := Published, currentVersionId := Some(vs[j].id))]
    requires vs' == PublishedAt(vs, j)
    ensures Consistent(ws', vs', ps, next)
  {
    var w := ws[k].id;
    assert VersionIds(vs') == VersionIds(vs);
    assert WorkflowIds(ws') == WorkflowIds(ws);
    SameKeysNumbered(vs, vs');
    IndexOfDistinct(VersionIds(vs), j);
    assert WorkflowOkAt(ws, vs, ps, next, k);
    forall i | 0 <= i < |ws'| ensures WorkflowOkAt(ws', vs', ps, next, i) {
      assert WorkflowOkAt(ws, vs, ps, next, i);
      if i != k {
        assert ws[i].id != w by { DistinctAt(WorkflowIds(ws), i, k); }
      }
    }
    forall i | 0 <= i < |vs'| ensures VersionOkAt(ws', vs', next, i) {
      assert VersionOkAt(ws, vs, next, i);
    }
    forall i, j | 0 <= i < |vs'| && 0 <= j < |vs'| ensures !Rivals(vs', i, j) {
      assert !Rivals(vs, i, j);
    }
  }

  /** `Consistent` behind two levels of recursion. Dafny unfolds a call of a
      recursive predicate at most twice, so `Sealed(.., 2)` never reaches
      `Consistent` by unfolding. */
  ghost predicate Sealed(ws: seq<Workflow>, vs: seq<WorkflowVersion>, ps: seq<Permission>, next: Id, depth: nat)
    decreases depth
  {
    if depth == 0 then Consistent(ws, vs, ps, next) else Sealed(ws, vs, ps, next, depth - 1)
  }

  /** The invariant as the routes carry it. The comparison with `true` keeps a
      proof goal `Kept(..)` a single goal: a bare predicate call would be
      expanded into one goal per conjunct of `Consistent`. A route method
      therefore never sees the quantifiers of `Consistent`; `Unseal` and
      `Seal` convert. */
  ghost predicate Kept(ws: seq<Workflow>, vs: seq<WorkflowVersion>, ps: seq<Permission>, next: Id) {
    Sealed(ws, vs, ps, next, 2) == true
  }

  lemma Unseal(ws: seq<Workflow>, vs: seq<WorkflowVersion>, ps: seq<Permission>, next: Id)
    requires Kept(ws, vs, ps, next)
    ensures Consistent(ws, vs, ps, next)
  {
    assert Sealed(ws, vs, ps, next, 1);
    assert Sealed(ws, vs, ps, next, 0);
  }

  lemma Seal(ws: seq<Workflow>, vs: seq<WorkflowVersion>, ps: seq<Permission>, next: Id)
    requires Consistent(ws, vs, ps, next)
    ensures Kept(ws, vs, ps, next)
  {
    assert Sealed(ws, vs, ps, next, 0);
    assert Sealed(ws, vs, ps, next, 1);
  }

  /** What a route may rely on about a stored workflow record. */
  lemma StoredRecordOk(ws: seq<Workflow>, vs: seq<WorkflowVersion>, ps: seq<Permission>, next: Id, k: nat)
    requires Kept(ws, vs, ps, next) && k < |ws|
    ensures ValidWorkflow(ws[k]) && CurrentVersionOk(ws[k], vs)
  {
    Unseal(ws, vs, ps, next);
    assert WorkflowOkAt(ws, vs, ps, next, k);
  }

  /** Every stored version belongs to a stored workflow. */
  lemma StoredVersionOwner(ws: seq<Workflow>, vs: seq<WorkflowVersion>, ps: seq<Permission>, next: Id, j: nat)
    requires Kept(ws, vs, ps, next) && j < |vs|
    ensures FindWorkflow(ws, vs[j].workflowId).Some?
  {
    Unseal(ws, vs, ps, next);
    assert VersionOkAt(ws, vs, next, j);
    var i :| 0 <= i < |ws| && WorkflowIds(ws)[i] == vs[j].workflowId;
  }

  /** `AddWorkflowKeeps` for a sealed store; the permission index stays unique. */
  lemma StepAddWorkflow(ws: seq<Workflow>, vs: seq<WorkflowVersion>, ps: seq<Permission>, next: Id,
                        w: Workflow, v: WorkflowVersion, u: UserId,
                        ws': seq<Workflow>, vs': seq<WorkflowVersion>, ps': seq<Permission>)
    requires Kept(ws, vs, ps, next)
    requires ValidWorkflow(w) && w.id == next && w.currentVersionId == Some(next + 1) && w.status != Published
    requires ValidVersion(v) && v.id == next + 1 && v.workflowId == next && v.versionNumber == 1 && !v.isPublished
    requires ws' == ws + [w] && vs' == vs + [v] && ps' == ps + [Permission(next, u, Admin)]
    ensures Kept(ws', vs', ps', next + 2) && UniqueGrants(ps')
  {
    Unseal(ws, vs, ps, next);
    AddWorkflowKeeps(ws, vs, ps, next, w, v, u, ws', vs', ps');
    Seal(ws', vs', ps', next + 2);
  }

  /** `AddVersionKeeps` for a sealed store, for a version of the workflow at `k`. */
  lemma StepAddVersion(ws: seq<Workflow>, vs: seq<WorkflowVersion>, ps: seq<Permission>, next: Id,
                       k: nat, v: WorkflowVersion, vs': seq<WorkflowVersion>)
    requires Kept(ws, vs, ps, next) && k < |ws|
    requires ValidVersion(v) && v.id == next && v.workflowId == ws[k].id && !v.isPublished
    requires v.versionNumber == CountVersions(vs, v.workflowId) + 1
    requires vs' == vs + [v]
    ensures Kept(ws, vs', ps, next + 1)
    ensures IndexOf(VersionIds(vs'), next) == Some(|vs|) && vs'[|vs|] == v
  {
    Unseal(ws, vs, ps, next);
    assert WorkflowIds(ws)[k] == v.workflowId;
    AddVersionKeeps(ws, vs, ps, next, v, vs');
    Seal(ws, vs', ps, next + 1);
  }

  /** A new unpublished version numbered count + 1 for the workflow at `k`,
      stored together with that workflow's record rewritten as a Draft
      pointing at it. */
  lemma StepBranch(ws: seq<Workflow>, vs: seq<WorkflowVersion>, ps: seq<Permission>, next: Id,
                   k: nat, e: Workflow, note: Option<string>, user: UserId, ws': seq<Workflow>, vs': seq<WorkflowVersion>)
    requires Kept(ws, vs, ps, next) && k < |ws|
    requires e.id == ws[k].id && ValidWorkflow(e) && e.status == Draft && e.currentVersionId == Some(next)
    requires note.Some? ==> |note.value| <= ChangeNoteMax
    requires vs' == vs + [WorkflowVersion(next, e.id, CountVersions(vs, e.id) + 1, note, user, false)]
    requires ws' == ws[k := e]
    ensures Kept(ws', vs', ps, next + 1)
  {
    var v := WorkflowVersion(next, e.id, CountVersions(vs, e.id) + 1, note, user, false);
    StepAddVersion(ws, vs, ps, next, k, v, vs');
    StepReplaceWorkflow(ws, vs', ps, next + 1, k, e, ws');
  }

  /** `ReplaceWorkflowKeeps` for a sealed store. */
  lemma StepReplaceWorkflow(ws: seq<Workflow>, vs: seq<WorkflowVersion>, ps: seq<Permission>, next: Id,
                            k: nat, w: Workflow, ws': seq<Workflow>)
    requires Kept(ws, vs, ps, next) && k < |ws|
    requires w.id == ws[k].id && ValidWorkflow(w) && CurrentVersionOk(w, vs)
    requires ws' == ws[k := w]
    ensures Kept(ws', vs, ps, next)
  {
    Unseal(ws, vs, ps, next);
    ReplaceWorkflowKeeps(ws, vs, ps, next, k, w, ws');
    Seal(ws', vs, ps, next);
  }

  /** `PublishKeeps` for a sealed store. */
  lemma StepPublish(ws: seq<Workflow>, vs: seq<WorkflowVersion>, ps: seq<Permission>, next: Id, k: nat, j: nat,
                    ws': seq<Workflow>, vs': seq<WorkflowVersion>)
    requires Kept(ws, vs, ps, next) && k < |ws| && j < |vs| && vs[j].workflowId == ws[k].id
    requires ws' == ws[k := ws[k].(status := Published, currentVersionId := Some(vs[j].id))]
    requires vs' == PublishedAt(vs, j)
    ensures Kept(ws', vs', ps, next)
  {
    Unseal(ws, vs, ps, next);
    PublishKeeps(ws, vs, ps, next, k, j, ws', vs');
    Seal(ws', vs', ps, next);
  }

  /** The collections the workflow routes read and write. Each route is one
      atomic step from a consistent store to a consistent store. */
  class Store {
    var workflows: seq<Workflow>
    var versions: seq<WorkflowVersion>
    var permissions: seq<Permission>
    var nextId: Id

    /** `Consistent` on the fields, sealed. */
    ghost predicate Valid()
      reads this
    {
      Kept(workflows, versions, permissions, nextId)
    }

    constructor ()
      ensures Valid()
      ensures workflows == [] && versions == [] && permissions == []
    {
      workflows, versions, permissions, nextId := [], [], [], 0;
      Seal([], [], [], 0);
    }
  }
}
