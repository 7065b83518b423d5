/** The WorkflowVersion record, its unique (workflow_id, version_number) key,
    and the queries the routes run on the version collection. */
module VersionModel {
  import opened Common

  const ChangeNoteMax := 1000

  /** `created_by` is required, so it is not optional here. */
  datatype WorkflowVersion = WorkflowVersion(
    id: Id,
    workflowId: Id,
    versionNumber: int,
    changeNote: Option<string>,
    createdBy: UserId,
    isPublished: bool)

  /** The schema's validators: a version number of at least 1 and a change
      note of at most 1000 characters. */
  predicate ValidVersion(v: WorkflowVersion) {
    && v.versionNumber >= 1
    && (v.changeNote.Some? ==> |v.changeNote.value| <= ChangeNoteMax)
  }

  /** A new document before it is saved: `is_published` defaults to false. */
  function NewVersion(id: Id, workflowId: Id, versionNumber: int, changeNote: Option<string>,
                      createdBy: UserId, isPublished: Option<bool>): (v: WorkflowVersion)
    ensures isPublished.None? ==> !v.isPublished
    ensures isPublished.Some? ==> v.isPublished == isPublished.value
    ensures v.id == id && v.workflowId == workflowId && v.versionNumber == versionNumber
    ensures v.changeNote == changeNote && v.createdBy == createdBy
  {
    WorkflowVersion(id, workflowId, versionNumber, changeNote, createdBy, isPublished.GetOr(false))
  }

  /** The `_id` column. */
  function VersionIds(vs: seq<WorkflowVersion>): (r: seq<Id>)
    ensures |r| == |vs| && forall i {:trigger r[i]} :: 0 <= i < |vs| ==> r[i] == vs[i].id
  {
    seq(|vs|, i requires 0 <= i < |vs| => vs[i].id)
  }

  /** `find({workflow_id: w})`: the versions of one workflow in the order
      they were stored. */
  function VersionsOf(vs: seq<WorkflowVersion>, w: Id): (r: seq<WorkflowVersion>)
    ensures |r| <= |vs|
  {
    if vs == [] then []
    else
      var last := vs[|vs| - 1];
      VersionsOf(vs[..|vs| - 1], w) + (if last.workflowId == w then [last] else [])
  }

  /** The query returns exactly the stored versions of that workflow. */
  lemma {:induction false} VersionsOfMembers(vs: seq<WorkflowVersion>, w: Id)
    ensures forall v :: v in VersionsOf(vs, w) <==> v in vs && v.workflowId == w
  {
    if vs != [] {
      var n := |vs| - 1;
      assert vs == vs[..n] + [vs[n]];
      VersionsOfMembers(vs[..n], w);
    }
  }

  /** `countDocuments({workflow_id: w})`. */
  function CountVersions(vs: seq<WorkflowVersion>, w: Id): nat {
    |VersionsOf(vs, w)|
  }

  /** The numbering the routes maintain: the versions of every workflow, in
      the order they were stored, are numbered 1, 2, ..., n. */
  ghost predicate Numbered(vs: seq<WorkflowVersion>) {
    forall w, k :: 0 <= k < |VersionsOf(vs, w)| ==> VersionsOf(vs, w)[k].versionNumber == k + 1
  }

  /** The unique index on (workflow_id, version_number). */
  ghost predicate UniqueNumbers(vs: seq<WorkflowVersion>) {
    forall i, j :: 0 <= i < j < |vs| && vs[i].workflowId == vs[j].workflowId ==>
      vs[i].versionNumber != vs[j].versionNumber
  }

  /** Two different versions of one workflow, both published. */
  predicate Rivals(vs: seq<WorkflowVersion>, i: int, j: int)
    requires 0 <= i < |vs| && 0 <= j < |vs|
  {
    i != j && vs[i].isPublished && vs[j].isPublished && vs[i].workflowId == vs[j].workflowId
  }

  /** At most one version of each workflow is published. */
  ghost predicate AtMostOnePublished(vs: seq<WorkflowVersion>) {
    forall i, j :: 0 <= i < |vs| && 0 <= j < |vs| ==> !Rivals(vs, i, j)
  }

  /** Storing an unpublished version cannot make a second one published. */
  lemma AppendUnpublished(vs: seq<WorkflowVersion>, v: WorkflowVersion)
    requires AtMostOnePublished(vs) && !v.isPublished
    ensures AtMostOnePublished(vs + [v])
  {
    var vs' := vs + [v];
    forall i, j | 0 <= i < |vs'| && 0 <= j < |vs'| ensures !Rivals(vs', i, j) {
      if i < |vs| && j < |vs| {
        assert !Rivals(vs, i, j);
      }
    }
  }

  lemma VersionsOfAppend(vs: seq<WorkflowVersion>, v: WorkflowVersion, w: Id)
    ensures VersionsOf(vs + [v], w) == VersionsOf(vs, w) + (if v.workflowId == w then [v] else [])
  {
    assert (vs + [v])[..|vs|] == vs;
  }

  /** Storing a version numbered count + 1 keeps the numbering dense. */
  lemma NumberedAppend(vs: seq<WorkflowVersion>, v: WorkflowVersion)
    requires Numbered(vs) && v.versionNumber == CountVersions(vs, v.workflowId) + 1
    ensures Numbered(vs + [v])
    ensures CountVersions(vs + [v], v.workflowId) == CountVersions(vs, v.workflowId) + 1
  {
    forall w ensures VersionsOf(vs + [v], w) == VersionsOf(vs, w) + (if v.workflowId == w then [v] else []) {
      VersionsOfAppend(vs, v, w);
    }
  }

  /** Two collections that differ at most in publish flags. */
  ghost predicate SameKeys(a: seq<WorkflowVersion>, b: seq<WorkflowVersion>) {
    && |a| == |b|
    && forall i :: 0 <= i < |a| ==>
         a[i].id == b[i].id && a[i].workflowId == b[i].workflowId && a[i].versionNumber == b[i].versionNumber
  }

  lemma {:induction false} SameKeysVersionsOf(a: seq<WorkflowVersion>, b: seq<WorkflowVersion>, w: Id)
    requires SameKeys(a, b)
    ensures |VersionsOf(a, w)| == |VersionsOf(b, w)|
    ensures forall k :: 0 <= k < |VersionsOf(a, w)| ==>
      VersionsOf(a, w)[k].versionNumber == VersionsOf(b, w)[k].versionNumber
  {
    if a != [] {
      var n := |a| - 1;
      assert SameKeys(a[..n], b[..n]);
      SameKeysVersionsOf(a[..n], b[..n], w);
      var ea := if a[n].workflowId == w then [a[n]] else [];
      var eb := if b[n].workflowId == w then [b[n]] else [];
      assert VersionsOf(a, w) == VersionsOf(a[..n], w) + ea;
      assert VersionsOf(b, w) == VersionsOf(b[..n], w) + eb;
      assert |ea| == |eb| && (ea != [] ==> ea[0].versionNumber == eb[0].versionNumber);
    }
  }

  /** Flipping publish flags keeps the numbering and every count. */
  lemma SameKeysNumbered(a: seq<WorkflowVersion>, b: seq<WorkflowVersion>)
    requires SameKeys(a, b) && Numbered(a)
    ensures Numbered(b)
    ensures forall w :: CountVersions(a, w) == CountVersions(b, w)
  {
    forall w ensures |VersionsOf(a, w)| == |VersionsOf(b, w)|
      && forall k :: 0 <= k < |VersionsOf(a, w)| ==>
           VersionsOf(a, w)[k].versionNumber == VersionsOf(b, w)[k].versionNumber
    {
      SameKeysVersionsOf(a, b, w);
    }
  }

  /** The dense numbering implies the unique (workflow_id, version_number) key. */
  lemma NumberedUnique(vs: seq<WorkflowVersion>)
    requires Numbered(vs) && Distinct(VersionIds(vs))
    ensures UniqueNumbers(vs)
  {
    forall i, j | 0 <= i < j < |vs| && vs[i].workflowId == vs[j].workflowId
      ensures vs[i].versionNumber != vs[j].versionNumber
    {
      var w := vs[i].workflowId;
      var r := VersionsOf(vs, w);
      VersionsOfMembers(vs, w);
      assert vs[i] in r && vs[j] in r;
      var ki :| 0 <= ki < |r| && r[ki] == vs[i];
      var kj :| 0 <= kj < |r| && r[kj] == vs[j];
      assert Apart(VersionIds(vs), i, j);
    }
  }

  /** The numbers in use by one workflow. */
  ghost function NumbersOf(vs: seq<WorkflowVersion>, w: Id): set<int> {
    set v | v in vs && v.workflowId == w :: v.versionNumber
  }

  /** The version numbers of a workflow are exactly 1..n, n the count. */
  lemma NumbersOneToN(vs: seq<WorkflowVersion>, w: Id)
    requires Numbered(vs)
    ensures forall n :: n in NumbersOf(vs, w) <==> 1 <= n <= CountVersions(vs, w)
  {
    var r := VersionsOf(vs, w);
    VersionsOfMembers(vs, w);
    forall v | v in vs && v.workflowId == w ensures 1 <= v.versionNumber <= |r| {
      var k :| 0 <= k < |r| && r[k] == v;
    }
    forall n | 1 <= n <= |r| ensures n in NumbersOf(vs, w) {
      assert r[n - 1] in r;
    }
  }

  /** So count + 1 is the next free number. */
  lemma NextNumberFree(vs: seq<WorkflowVersion>, w: Id, v: WorkflowVersion)
    requires Numbered(vs) && v in vs && v.workflowId == w
    ensures v.versionNumber != CountVersions(vs, w) + 1
  {
    var r := VersionsOf(vs, w);
    VersionsOfMembers(vs, w);
    var k :| 0 <= k < |r| && r[k] == v;
  }

  /** `findOne({_id: vid, workflow_id: w})`: the first version with that id
      that belongs to that workflow. */
  function FindVersion(vs: seq<WorkflowVersion>, w: Id, vid: Id): (r: Option<nat>)
    ensures r.Some? ==> r.value < |vs| && vs[r.value].id == vid && vs[r.value].workflowId == w
    ensures r.None? <==> forall i :: 0 <= i < |vs| ==> vs[i].id != vid || vs[i].workflowId != w
  {
    if vs == [] then None
    else
      var n := |vs| - 1;
      match FindVersion(vs[..n], w, vid)
      case Some(k) => Some(k)
      case None => if vs[n].id == vid && vs[n].workflowId == w then Some(n) else None
  }

  /** `updateMany({workflow_id: w, is_published: true}, {is_published: false})`:
      afterwards no version of `w` is published, versions of other workflows
      are untouched, and nothing but publish flags changes. */
  function Unpublish(vs: seq<WorkflowVersion>, w: Id): (r: seq<WorkflowVersion>)
    ensures SameKeys(vs, r)
    ensures forall i :: 0 <= i < |r| ==> r[i] == vs[i].(isPublished := r[i].isPublished)
    ensures forall i :: 0 <= i < |r| && vs[i].workflowId == w ==> !r[i].isPublished
    ensures forall i :: 0 <= i < |r| && vs[i].workflowId != w ==> r[i] == vs[i]
  {
    seq(|vs|, i requires 0 <= i < |vs| =>
      if vs[i].workflowId == w && vs[i].isPublished then vs[i].(isPublished := false) else vs[i])
  }
}
