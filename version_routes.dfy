/** The version routes of a workflow: list, read, create and publish. Each
    route first passes the permission gate on the workflow named in the path;
    the two writing routes are methods on the shared store that keep it
    consistent. */
module VersionRoutes {
  import opened Common
  import opened WorkflowModel
  import opened VersionModel
  import opened PermissionModel
  import opened Errors
  import opened PermissionGate
  import opened Database
  import opened WorkflowRoutes

  /** Highest version number first. */
  predicate SortedDesc(s: seq<WorkflowVersion>) {
    forall i, j :: 0 <= i < j < |s| ==> s[i].versionNumber >= s[j].versionNumber
  }

  /** Version numbers strictly rising, as the store keeps each workflow's
      versions. */
  predicate Ascending(s: seq<WorkflowVersion>) {
    forall i, j :: 0 <= i < j < |s| ==> s[i].versionNumber < s[j].versionNumber
  }

  /** Places `v` in front of the first version whose number is not above its
      own. */
  function InsertDesc(v: WorkflowVersion, s: seq<WorkflowVersion>): (r: seq<WorkflowVersion>)
    ensures multiset(r) == multiset(s) + multiset{v}
    ensures r[0] == v || (s != [] && r[0] == s[0])
    ensures SortedDesc(s) ==> SortedDesc(r)
  {
    if s == [] then [v]
    else if s[0].versionNumber <= v.versionNumber then
      SortedCons(v, s);
      [v] + s
    else
      assert s == [s[0]] + s[1..];
      var rest := InsertDesc(v, s[1..]);
      SortedCons(s[0], rest);
      [s[0]] + rest
  }

  /** A version numbered at least as high as the head of a sorted list can go
      in front of it. */
  lemma SortedCons(x: WorkflowVersion, r: seq<WorkflowVersion>)
    ensures SortedDesc(r) && (r != [] ==> x.versionNumber >= r[0].versionNumber) ==> SortedDesc([x] + r)
  {
    if SortedDesc(r) && (r != [] ==> x.versionNumber >= r[0].versionNumber) {
      var xr := [x] + r;
      forall i, j | 0 <= i < j < |xr| ensures xr[i].versionNumber >= xr[j].versionNumber {
        if i == 0 {
          assert xr[j] == r[j - 1];
          if j > 1 {
            assert r[0].versionNumber >= r[j - 1].versionNumber;
          }
        } else {
          assert xr[i] == r[i - 1] && xr[j] == r[j - 1];
        }
      }
    }
  }

  /** `sort({version_number: -1})`: the versions ordered by number, highest
      first, and nothing added or lost. */
  function SortDesc(s: seq<WorkflowVersion>): (r: seq<WorkflowVersion>)
    ensures SortedDesc(r)
    ensures multiset(r) == multiset(s)
  {
    if s == [] then []
    else
      assert s == [s[0]] + s[1..];
      InsertDesc(s[0], SortDesc(s[1..]))
  }

  function Reversed(s: seq<WorkflowVersion>): (r: seq<WorkflowVersion>)
    ensures |r| == |s|
    ensures forall i :: 0 <= i < |s| ==> r[i] == s[|s| - 1 - i]
  {
    if s == [] then [] else Reversed(s[1..]) + [s[0]]
  }

  /** A version numbered below every other one goes last. */
  lemma {:induction false} InsertSmallest(v: WorkflowVersion, s: seq<WorkflowVersion>)
    requires forall i :: 0 <= i < |s| ==> v.versionNumber < s[i].versionNumber
    ensures InsertDesc(v, s) == s + [v]
  {
    if s != [] {
      InsertSmallest(v, s[1..]);
      assert s == [s[0]] + s[1..];
    }
  }

  /** Sorting versions that are already in rising order reverses them. */
  lemma {:induction false} SortAscending(s: seq<WorkflowVersion>)
    requires Ascending(s)
    ensures SortDesc(s) == Reversed(s)
  {
    if s != [] {
      var t := s[1..];
      assert Ascending(t);
      SortAscending(t);
      forall i | 0 <= i < |t| ensures s[0].versionNumber < t[i].versionNumber {
        assert t[i] == s[i + 1];
      }
      ReversedAbove(s[0], t);
      InsertSmallest(s[0], Reversed(t));
    }
  }

  /** Reversing keeps every number above a bound above it. */
  lemma ReversedAbove(v: WorkflowVersion, t: seq<WorkflowVersion>)
    requires forall i :: 0 <= i < |t| ==> v.versionNumber < t[i].versionNumber
    ensures forall i :: 0 <= i < |t| ==> v.versionNumber < Reversed(t)[i].versionNumber
  {
    var rt := Reversed(t);
    forall i | 0 <= i < |t| ensures v.versionNumber < rt[i].versionNumber {
      assert rt[i] == t[|t| - 1 - i];
    }
  }

  /** `GET /workflows/:id/versions`: Viewer access, then every version of the
      workflow, highest number first. */
  function ListVersions(vs: seq<WorkflowVersion>, ps: seq<Permission>, user: UserId, wid: Id)
    : (r: Result<seq<WorkflowVersion>, Error>)
    ensures Authorize(ps, Some(wid), user, Viewer).Err? ==> r == Err(Authorize(ps, Some(wid), user, Viewer).error)
    ensures Authorize(ps, Some(wid), user, Viewer).Ok? ==> r.Ok?
    ensures r.Ok? ==> SortedDesc(r.value) && multiset(r.value) == multiset(VersionsOf(vs, wid))
  {
    var gate := Authorize(ps, Some(wid), user, Viewer);
    if gate.Err? then Err(gate.error)
    else Ok(SortDesc(VersionsOf(vs, wid)))
  }

  /** In a store whose versions are numbered densely, the list of a workflow
      with n versions reads n, n - 1, ..., 1. */
  lemma ListedNewestFirst(vs: seq<WorkflowVersion>, ps: seq<Permission>, user: UserId, wid: Id)
    requires Numbered(vs) && ListVersions(vs, ps, user, wid).Ok?
    ensures
      var l := ListVersions(vs, ps, user, wid).value;
      |l| == CountVersions(vs, wid) && forall i :: 0 <= i < |l| ==> l[i].versionNumber == |l| - i
  {
    var s := VersionsOf(vs, wid);
    NumberedAscending(vs, wid);
    SortAscending(s);
    ReversedNumbering(s, ListVersions(vs, ps, user, wid).value);
  }

  /** Under the dense numbering a workflow's versions, in stored order, are
      numbered 1, 2, ..., n. */
  lemma NumberedAscending(vs: seq<WorkflowVersion>, w: Id)
    requires Numbered(vs)
    ensures forall k :: 0 <= k < |VersionsOf(vs, w)| ==> VersionsOf(vs, w)[k].versionNumber == k + 1
    ensures Ascending(VersionsOf(vs, w))
  {
  }

  /** Reversing versions numbered 1..n lists them n, n - 1, ..., 1. */
  lemma ReversedNumbering(s: seq<WorkflowVersion>, l: seq<WorkflowVersion>)
    requires forall k :: 0 <= k < |s| ==> s[k].versionNumber == k + 1
    requires l == Reversed(s)
    ensures |l| == |s| && forall i :: 0 <= i < |l| ==> l[i].versionNumber == |l| - i
  {
    forall i | 0 <= i < |l| ensures l[i].versionNumber == |l| - i {
      assert l[i] == s[|s| - 1 - i];
    }
  }

  /** `GET /workflows/:id/versions/:versionId`: Viewer access, then the
      version with that id, provided it belongs to that workflow. */
  function GetVersion(vs: seq<WorkflowVersion>, ps: seq<Permission>, user: UserId, wid: Id, vid: Id)
    : (r: Result<WorkflowVersion, Error>)
    ensures Authorize(ps, Some(wid), user, Viewer).Err? ==> r == Err(Authorize(ps, Some(wid), user, Viewer).error)
    ensures Authorize(ps, Some(wid), user, Viewer).Ok? ==>
      (r == Err(VersionNotFound) <==> forall v :: v in vs ==> v.id != vid || v.workflowId != wid)
    ensures Authorize(ps, Some(wid), user, Viewer).Ok? && (exists v :: v in vs && v.id == vid && v.workflowId == wid) ==>
      r.Ok?
    ensures r.Ok? ==> r.value in vs && r.value.id == vid && r.value.workflowId == wid
  {
    var gate := Authorize(ps, Some(wid), user, Viewer);
    if gate.Err? then Err(gate.error)
    else
      var j := FindVersion(vs, wid, vid);
      if j.None? then Err(VersionNotFound) else Ok(vs[j.value])
  }

  /** In a consistent store the current version of a workflow can be read by
      everyone holding a permission on it: the pointer never dangles. */
  lemma CurrentVersionReadable(ws: seq<Workflow>, vs: seq<WorkflowVersion>, ps: seq<Permission>, next: Id,
                               k: nat, p: Permission)
    requires Consistent(ws, vs, ps, next) && k < |ws|
    requires p in ps && p.workflowId == ws[k].id
    ensures ws[k].currentVersionId.Some?
    ensures GetVersion(vs, ps, p.userId, ws[k].id, ws[k].currentVersionId.value).Ok?
  {
    var j := CurrentVersionIndex(ws, vs, ps, next, k);
    AuthorizeByGrant(ps, p, Viewer);
    assert vs[j] in vs;
  }

  /** `POST /workflows/:id/versions`: Editor access, then a new unpublished
      version numbered count + 1 with the given change note (empty when none
      is given), made current; the workflow becomes a Draft again. */
  method CreateVersion(db: Store, user: UserId, wid: Id, note: Option<string>) returns (r: Result<WorkflowVersion, Error>)
    requires db.Valid()
    modifies db
    ensures db.Valid()
    ensures
      var gate := Authorize(old(db.permissions), Some(wid), user, Editor);
      var k := FindWorkflow(old(db.workflows), wid);
      var n := old(db.nextId);
      var v := WorkflowVersion(n, wid, CountVersions(old(db.versions), wid) + 1, Some(note.GetOr("")), user, false);
      if gate.Err? then r == Err(gate.error) && unchanged(db)
      else if k.None? then r == Err(WorkflowNotFound) && unchanged(db)
      else if !ValidVersion(v) then r == Err(SchemaViolation) && unchanged(db)
      else
        && r == Ok(v)
        && db.versions == old(db.versions) + [v]
        && db.workflows == old(db.workflows)[k.value := old(db.workflows)[k.value].(status := Draft, currentVersionId := Some(n))]
        && db.permissions == old(db.permissions)
        && db.nextId == n + 1
  {
    var gate := Authorize(db.permissions, Some(wid), user, Editor);
    if gate.Err? {
      return Err(gate.error);
    }
    var k := FindWorkflow(db.workflows, wid);
    if k.None? {
      return Err(WorkflowNotFound);
    }
    var n := db.nextId;
    var v := NewVersion(n, wid, CountVersions(db.versions, wid) + 1, Some(note.GetOr("")), user, Some(false));
    if !ValidVersion(v) {
      return Err(SchemaViolation);
    }
    StoredRecordOk(db.workflows, db.versions, db.permissions, n, k.value);
    var _ := StoreBranch(db, k.value, db.workflows[k.value], v.changeNote, user);
    r := Ok(v);
  }

  /** A new version is numbered above every version its workflow already has. */
  lemma CreatedVersionIsNewest(vs: seq<WorkflowVersion>, w: Id, x: WorkflowVersion)
    requires Numbered(vs) && x in vs && x.workflowId == w
    ensures x.versionNumber < CountVersions(vs, w) + 1
  {
    NumbersOneToN(vs, w);
    assert x.versionNumber in NumbersOf(vs, w);
  }

  /** `POST /workflows/:id/versions/:versionId/publish`: Admin access, the
      version of that workflow, refused when already published; then every
      other version of the workflow is unpublished, this one published, and
      the workflow marked Published and pointed at it. */
  method PublishVersion(db: Store, user: UserId, wid: Id, vid: Id) returns (r: Result<WorkflowVersion, Error>)
    requires db.Valid()
    modifies db
    ensures db.Valid()
    ensures
      var gate := Authorize(old(db.permissions), Some(wid), user, Admin);
      var j := FindVersion(old(db.versions), wid, vid);
      if gate.Err? then r == Err(gate.error) && unchanged(db)
      else if j.None? then r == Err(VersionNotFound) && unchanged(db)
      else if old(db.versions)[j.value].isPublished then r == Err(AlreadyPublished) && unchanged(db)
      else
        var k := FindWorkflow(old(db.workflows), wid);
        && k.Some?
        && r == Ok(old(db.versions)[j.value].(isPublished := true))
        && db.versions == PublishedAt(old(db.versions), j.value)
        && db.workflows == old(db.workflows)[k.value := old(db.workflows)[k.value].(status := Published, currentVersionId := Some(vid))]
        && db.permissions == old(db.permissions)
        && db.nextId == old(db.nextId)
  {
    var gate := Authorize(db.permissions, Some(wid), user, Admin);
    if gate.Err? {
      return Err(gate.error);
    }
    var j := FindVersion(db.versions, wid, vid);
    if j.None? {
      return Err(VersionNotFound);
    }
    if db.versions[j.value].isPublished {
      return Err(AlreadyPublished);
    }
    StoredVersionOwner(db.workflows, db.versions, db.permissions, db.nextId, j.value);
    var k := FindWorkflow(db.workflows, wid);
    StorePublish(db, k.value, j.value);
    r := Ok(db.versions[j.value]);
  }

  /** The writes of a publish: the version flags, then the workflow record. */
  method StorePublish(db: Store, k: nat, j: nat)
    requires db.Valid() && k < |db.workflows| && j < |db.versions| && db.versions[j].workflowId == db.workflows[k].id
    modifies db
    ensures db.Valid()
    ensures db.versions == PublishedAt(old(db.versions), j)
    ensures db.workflows == old(db.workflows)[k := old(db.workflows)[k].(status := Published, currentVersionId := Some(old(db.versions)[j].id))]
    ensures db.permissions == old(db.permissions) && db.nextId == old(db.nextId)
  {
    ghost var ws, vs := db.workflows, db.versions;
    var w := db.workflows[k].(status := Published, currentVersionId := Some(db.versions[j].id));
    db.versions := PublishedAt(db.versions, j);
    db.workflows := db.workflows[k := w];
    StepPublish(ws, vs, db.permissions, db.nextId, k, j, db.workflows, db.versions);
  }
}
