/** The workflow routes: create, list, read, edit, archive and duplicate.
    Every route that names a workflow first passes the permission gate; the
    writing routes are methods on the shared store that keep it consistent. */
module WorkflowRoutes {
  import opened Common
  import opened WorkflowModel
  import opened VersionModel
  import opened PermissionModel
  import opened Errors
  import opened PermissionGate
  import opened Database

  /** The create body schema: a title is required and may not be empty. */
  predicate CreateBodyOk(title: Option<string>) {
    title.Some? && title.value != ""
  }

  /** The update body schema: at least one key, and a title, when given, is
      not empty (a description may be). */
  predicate UpdateBodyOk(title: Option<string>, description: Option<string>) {
    && (title.Some? || description.Some?)
    && (title.Some? ==> title.value != "")
  }

  /** The assignments of an edit: each field the body supplies replaces the
      stored one, and nothing else changes. */
  function Edited(w: Workflow, title: Option<string>, description: Option<string>): (e: Workflow)
    ensures title.Some? ==> e.title == title.value
    ensures title.None? ==> e.title == w.title
    ensures description.Some? ==> e.description == description
    ensures description.None? ==> e.description == w.description
    ensures e == w.(title := e.title, description := e.description)
  {
    w.(title := title.GetOr(w.title), description := if description.Some? then description else w.description)
  }

  /** `POST /workflows`: a new Draft workflow, its version 1 (unpublished,
      without a change note) and an Admin permission for its creator, written
      together; the workflow points at the new version. */
  method CreateWorkflow(db: Store, user: UserId, title: Option<string>, description: Option<string>)
    returns (r: Result<Workflow, Error>)
    requires db.Valid()
    modifies db
    ensures db.Valid()
    ensures
      var n := old(db.nextId);
      var w := Workflow(n, title.GetOr(""), description, Draft, Some(n + 1), user);
      if !CreateBodyOk(title) then r == Err(InvalidBody) && unchanged(db)
      else if !ValidWorkflow(w) then r == Err(SchemaViolation) && unchanged(db)
      else
        && r == Ok(w)
        && db.workflows == old(db.workflows) + [w]
        && db.versions == old(db.versions) + [WorkflowVersion(n + 1, n, 1, None, user, false)]
        && db.permissions == old(db.permissions) + [Permission(n, user, Admin)]
        && db.nextId == n + 2
    ensures r.Ok? ==> forall role :: Authorize(db.permissions, Some(r.value.id), user, role) == Ok(Permission(r.value.id, user, Admin))
  {
    if !CreateBodyOk(title) {
      return Err(InvalidBody);
    }
    var n := db.nextId;
    var w := NewWorkflow(n, title.value, description, Some(Draft), user);
    if !ValidWorkflow(w) {
      return Err(SchemaViolation);
    }
    w := w.(currentVersionId := Some(n + 1));
    StoreNewWorkflow(db, w);
    r := Ok(w);
  }

  /** The writes that create a workflow: the record, its version 1
      (unpublished, without a change note) and an Admin permission for its
      creator, under the next two ids. The creator then passes the gate on
      it at every role. */
  method StoreNewWorkflow(db: Store, w: Workflow)
    requires db.Valid() && ValidWorkflow(w) && w.status == Draft
    requires w.id == db.nextId && w.currentVersionId == Some(db.nextId + 1)
    modifies db
    ensures db.Valid()
    ensures db.workflows == old(db.workflows) + [w]
    ensures db.versions == old(db.versions) + [WorkflowVersion(w.id + 1, w.id, 1, None, w.createdBy, false)]
    ensures db.permissions == old(db.permissions) + [Permission(w.id, w.createdBy, Admin)]
    ensures db.nextId == w.id + 2
    ensures forall role :: Authorize(db.permissions, Some(w.id), w.createdBy, role) == Ok(Permission(w.id, w.createdBy, Admin))
  {
    ghost var ws, vs, ps := db.workflows, db.versions, db.permissions;
    var n := db.nextId;
    var v := NewVersion(n + 1, n, 1, None, w.createdBy, Some(false));
    assert v == WorkflowVersion(n + 1, n, 1, None, w.createdBy, false);
    db.workflows, db.versions, db.permissions, db.nextId :=
      db.workflows + [w], db.versions + [v], db.permissions + [Permission(n, w.createdBy, Admin)], n + 2;
    StepCreate(ws, vs, ps, w, db.workflows, db.versions, db.permissions);
  }

  /** The three writes of `StoreNewWorkflow` on the collections' values. */
  lemma StepCreate(ws: seq<Workflow>, vs: seq<WorkflowVersion>, ps: seq<Permission>, w: Workflow,
                   ws': seq<Workflow>, vs': seq<WorkflowVersion>, ps': seq<Permission>)
    requires Kept(ws, vs, ps, w.id) && ValidWorkflow(w) && w.status == Draft && w.currentVersionId == Some(w.id + 1)
    requires ws' == ws + [w]
    requires vs' == vs + [WorkflowVersion(w.id + 1, w.id, 1, None, w.createdBy, false)]
    requires ps' == ps + [Permission(w.id, w.createdBy, Admin)]
    ensures Kept(ws', vs', ps', w.id + 2)
    ensures forall role :: Authorize(ps', Some(w.id), w.createdBy, role) == Ok(Permission(w.id, w.createdBy, Admin))
  {
    var v := WorkflowVersion(w.id + 1, w.id, 1, None, w.createdBy, false);
    StepAddWorkflow(ws, vs, ps, w.id, w, v, w.createdBy, ws', vs', ps');
    CreatorHoldsAdmin(ps', w.id, w.createdBy);
  }

  /** The creator's Admin record passes the gate at every role. */
  lemma CreatorHoldsAdmin(ps: seq<Permission>, n: Id, user: UserId)
    requires UniqueGrants(ps) && Permission(n, user, Admin) in ps
    ensures forall role :: Authorize(ps, Some(n), user, role) == Ok(Permission(n, user, Admin))
  {
    forall role ensures Authorize(ps, Some(n), user, role) == Ok(Permission(n, user, Admin)) {
      AuthorizeByGrant(ps, Permission(n, user, Admin), role);
    }
  }

  /** The `status` and `owner` filters of the list route; an empty one is
      ignored. */
  datatype Filter = Filter(status: Option<string>, owner: Option<UserId>)

  /** The query string of the list route: the filters and the page number
      and size. */
  datatype ListQuery = ListQuery(filter: Filter, page: Option<int>, limit: Option<int>)

  datatype Pagination = Pagination(page: int, limit: int, total: nat, pages: nat)

  datatype WorkflowPage = WorkflowPage(workflows: seq<Workflow>, pagination: Pagination)

  const DefaultPage := 1
  const DefaultLimit := 20

  /** The list route's query: a workflow the user holds some permission on,
      whose status and creator match the filters that are given. */
  predicate Listed(w: Workflow, ps: seq<Permission>, user: UserId, f: Filter) {
    && FindGrant(ps, w.id, user).Some?
    && (f.status.Some? && f.status.value != "" ==> StatusName(w.status) == f.status.value)
    && (f.owner.Some? ==> w.createdBy == f.owner.value)
  }

  /** Every workflow the query selects, in stored order. */
  function Matching(ws: seq<Workflow>, ps: seq<Permission>, user: UserId, f: Filter): (r: seq<Workflow>)
    ensures |r| <= |ws|
  {
    if ws == [] then []
    else
      var n := |ws| - 1;
      Matching(ws[..n], ps, user, f) + (if Listed(ws[n], ps, user, f) then [ws[n]] else [])
  }

  /** The query selects exactly the stored workflows it lists. */
  lemma {:induction false} MatchingMembers(ws: seq<Workflow>, ps: seq<Permission>, user: UserId, f: Filter)
    ensures forall w :: w in Matching(ws, ps, user, f) <==> w in ws && Listed(w, ps, user, f)
  {
    if ws != [] {
      var n := |ws| - 1;
      assert ws == ws[..n] + [ws[n]];
      MatchingMembers(ws[..n], ps, user, f);
    }
  }

  /** `Math.ceil(total / limit)`: the fewest pages of `limit` that hold `total`. */
  function CeilDiv(total: nat, limit: nat): (c: nat)
    requires limit > 0
    ensures (c - 1) * limit < total <= c * limit
  {
    var c := (total + limit - 1) / limit;
    var m := (total + limit - 1) % limit;
    assert c * limit + m == total + limit - 1;
    assert (c - 1) * limit == c * limit - limit;
    c
  }

  /** How many matches precede page `page`. */
  function Skip(page: int, limit: int): (s: nat)
    requires page >= 1 && limit >= 1
    ensures s == (page - 1) * limit
  {
    (page - 1) * limit
  }

  /** `skip(skip).limit(limit)`: at most `limit` matches, taken in order from
      position `skip`; a page shorter than `limit` runs to the last match. */
  function PageOf(all: seq<Workflow>, skip: nat, limit: nat): (items: seq<Workflow>)
    requires limit >= 1
    ensures |items| <= limit
    ensures forall i :: 0 <= i < |items| ==> skip + i < |all| && items[i] == all[skip + i]
    ensures |items| < limit ==> skip + |items| >= |all|
  {
    if skip >= |all| then []
    else if |all| - skip < limit then all[skip..]
    else all[skip..skip + limit]
  }

  /** `GET /workflows`: one page of the selected workflows and the paging
      figures. */
  function ListWorkflows(ws: seq<Workflow>, ps: seq<Permission>, user: UserId, q: ListQuery)
    : (r: Result<WorkflowPage, Error>)
    ensures r.Err? <==> q.page.GetOr(DefaultPage) < 1 || q.limit.GetOr(DefaultLimit) < 1
    ensures r.Err? ==> r.error == BadPaging
    ensures r.Ok? ==>
      var all := Matching(ws, ps, user, q.filter);
      var page, limit := q.page.GetOr(DefaultPage), q.limit.GetOr(DefaultLimit);
      && page >= 1 && limit >= 1
      && r.value.pagination.page == page && r.value.pagination.limit == limit
      && r.value.pagination.total == |all|
      && r.value.pagination.pages == CeilDiv(|all|, limit)
      && r.value.workflows == PageOf(all, Skip(page, limit), limit)
  {
    var page, limit := q.page.GetOr(DefaultPage), q.limit.GetOr(DefaultLimit);
    if page < 1 || limit < 1 then Err(BadPaging)
    else
      var all := Matching(ws, ps, user, q.filter);
      Ok(WorkflowPage(PageOf(all, Skip(page, limit), limit), Pagination(page, limit, |all|, CeilDiv(|all|, limit))))
  }

  /** The listing succeeded, `page` is within its page count, and `w` is
      item `offset` of the listed page. */
  predicate ShownAt(r: Result<WorkflowPage, Error>, page: int, offset: int, w: Workflow) {
    && r.Ok?
    && page <= r.value.pagination.pages
    && 0 <= offset < |r.value.workflows|
    && r.value.workflows[offset] == w
  }

  /** Every selected workflow shows up on the page its position says, and
      that page is within the page count. */
  lemma EveryMatchOnOnePage(ws: seq<Workflow>, ps: seq<Permission>, user: UserId, q: ListQuery, i: nat)
    requires q.limit.GetOr(DefaultLimit) >= 1 && i < |Matching(ws, ps, user, q.filter)|
    ensures
      var limit := q.limit.GetOr(DefaultLimit);
      ShownAt(ListWorkflows(ws, ps, user, q.(page := Some(i / limit + 1))), i / limit + 1, i % limit,
              Matching(ws, ps, user, q.filter)[i])
  {
    var limit := q.limit.GetOr(DefaultLimit);
    ShownOnPage(ws, ps, user, q, limit, Matching(ws, ps, user, q.filter), i);
  }

  /** The same, with the page size and the matches named. */
  lemma ShownOnPage(ws: seq<Workflow>, ps: seq<Permission>, user: UserId, q: ListQuery, limit: nat,
                    all: seq<Workflow>, i: nat)
    requires limit == q.limit.GetOr(DefaultLimit) && limit >= 1
    requires all == Matching(ws, ps, user, q.filter) && i < |all|
    ensures ShownAt(ListWorkflows(ws, ps, user, q.(page := Some(i / limit + 1))), i / limit + 1, i % limit, all[i])
  {
    var p := i / limit + 1;
    ListPage(ws, ps, user, q, p);
    ShownOnItsPage(ListWorkflows(ws, ps, user, q.(page := Some(p))), all, limit, i);
  }

  /** The listing of page `i / limit + 1` over the matches `all` shows
      position `i` as its item `i % limit`. */
  lemma ShownOnItsPage(r: Result<WorkflowPage, Error>, all: seq<Workflow>, limit: nat, i: nat)
    requires limit >= 1 && i < |all|
    requires r == Ok(WorkflowPage(PageOf(all, Skip(i / limit + 1, limit), limit),
                                  Pagination(i / limit + 1, limit, |all|, CeilDiv(|all|, limit))))
    ensures ShownAt(r, i / limit + 1, i % limit, all[i])
  {
    OnItsPage(all, limit, i);
    WithinPageCount(|all|, limit, i);
  }

  /** Asking for page `p` of a query lists that page of the same matches. */
  lemma ListPage(ws: seq<Workflow>, ps: seq<Permission>, user: UserId, q: ListQuery, p: int)
    requires q.limit.GetOr(DefaultLimit) >= 1 && p >= 1
    ensures
      var limit := q.limit.GetOr(DefaultLimit);
      var all := Matching(ws, ps, user, q.filter);
      ListWorkflows(ws, ps, user, q.(page := Some(p)))
        == Ok(WorkflowPage(PageOf(all, Skip(p, limit), limit), Pagination(p, limit, |all|, CeilDiv(|all|, limit))))
  {
    var q' := q.(page := Some(p));
    assert q'.filter == q.filter && q'.limit == q.limit && q'.page.GetOr(DefaultPage) == p;
  }

  /** Position `i` is item `i % limit` of page `i / limit + 1`. */
  lemma OnItsPage(all: seq<Workflow>, limit: nat, i: nat)
    requires limit >= 1 && i < |all|
    ensures i % limit < |PageOf(all, Skip(i / limit + 1, limit), limit)|
    ensures PageOf(all, Skip(i / limit + 1, limit), limit)[i % limit] == all[i]
  {
    var p, o := i / limit, i % limit;
    var skip := Skip(p + 1, limit);
    DivMod(i, limit);
    assert skip == p * limit;
    var items := PageOf(all, skip, limit);
    assert skip + o < |all|;
  }

  /** The page holding position `i` is within the page count. */
  lemma WithinPageCount(total: nat, limit: nat, i: nat)
    requires limit >= 1 && i < total
    ensures i / limit + 1 <= CeilDiv(total, limit)
  {
    var p := i / limit;
    var pages := CeilDiv(total, limit);
    DivMod(i, limit);
    if pages <= p {
      MultiplyMonotone(pages, p, limit);
    }
  }

  lemma DivMod(i: nat, d: nat)
    requires d > 0
    ensures i == (i / d) * d + i % d && 0 <= i % d < d
  {
  }

  lemma MultiplyMonotone(a: nat, b: nat, c: nat)
    requires a <= b
    ensures a * c <= b * c
  {
  }

  /** Every listed workflow is one the user can also open: the list and the
      read route agree on what a user may see. */
  lemma ListedAreViewable(ws: seq<Workflow>, ps: seq<Permission>, user: UserId, q: ListQuery, w: Workflow)
    requires UniqueGrants(ps) && w in Matching(ws, ps, user, q.filter)
    ensures Authorize(ps, Some(w.id), user, Viewer).Ok?
  {
    MatchingMembers(ws, ps, user, q.filter);
    AuthorizeByGrant(ps, FindGrant(ps, w.id, user).value, Viewer);
  }

  /** `GET /workflows/:id`: Viewer access, then the stored workflow. */
  function GetWorkflow(ws: seq<Workflow>, ps: seq<Permission>, user: UserId, wid: Id): (r: Result<Workflow, Error>)
    ensures Authorize(ps, Some(wid), user, Viewer).Err? ==> r == Err(Authorize(ps, Some(wid), user, Viewer).error)
    ensures Authorize(ps, Some(wid), user, Viewer).Ok? ==>
      (r == Err(WorkflowNotFound) <==> forall w :: w in ws ==> w.id != wid)
    ensures Authorize(ps, Some(wid), user, Viewer).Ok? && (exists w :: w in ws && w.id == wid) ==> r.Ok?
    ensures r.Ok? ==> r.value in ws && r.value.id == wid
  {
    var gate := Authorize(ps, Some(wid), user, Viewer);
    if gate.Err? then Err(gate.error)
    else
      var k := FindWorkflow(ws, wid);
      if k.None? then Err(WorkflowNotFound)
      else Ok(ws[k.value])
  }

  /** In a consistent store each workflow is readable by its Admin, and the
      read returns that very record. */
  lemma StoredWorkflowReadable(ws: seq<Workflow>, vs: seq<WorkflowVersion>, ps: seq<Permission>, next: Id, k: nat)
    requires Consistent(ws, vs, ps, next) && k < |ws|
    ensures exists u :: GetWorkflow(ws, ps, u, ws[k].id) == Ok(ws[k])
  {
    assert WorkflowOkAt(ws, vs, ps, next, k);
    var u :| Permission(ws[k].id, u, Admin) in ps;
    AuthorizeByGrant(ps, Permission(ws[k].id, u, Admin), Viewer);
    IndexOfDistinct(WorkflowIds(ws), k);
    assert GetWorkflow(ws, ps, u, ws[k].id) == Ok(ws[k]);
  }

  /** `PATCH /workflows/:id`: Editor access, the body schema, then the edit.
      Editing a Published workflow first branches a new unpublished version
      numbered count + 1 and makes it current, turning the workflow back into
      a Draft; the published version is left as it was. */
  method UpdateWorkflow(db: Store, user: UserId, wid: Id, title: Option<string>, description: Option<string>)
    returns (r: Result<Workflow, Error>)
    requires db.Valid()
    modifies db
    ensures db.Valid()
    ensures
      var gate := Authorize(old(db.permissions), Some(wid), user, Editor);
      var k := FindWorkflow(old(db.workflows), wid);
      if gate.Err? then r == Err(gate.error) && unchanged(db)
      else if !UpdateBodyOk(title, description) then r == Err(InvalidBody) && unchanged(db)
      else if k.None? then r == Err(WorkflowNotFound) && unchanged(db)
      else
        var w := old(db.workflows)[k.value];
        var e := Edited(w, title, description);
        var n := old(db.nextId);
        if w.status == Published then
          && db.versions == old(db.versions) + [WorkflowVersion(n, wid, CountVersions(old(db.versions), wid) + 1, None, user, false)]
          && db.permissions == old(db.permissions)
          && db.nextId == n + 1
          && if ValidWorkflow(e) then
               && db.workflows == old(db.workflows)[k.value := e.(status := Draft, currentVersionId := Some(n))]
               && r == Ok(db.workflows[k.value])
             else
               db.workflows == old(db.workflows) && r == Err(SchemaViolation)
        else if !ValidWorkflow(e) then r == Err(SchemaViolation) && unchanged(db)
        else
          && db.versions == old(db.versions)
          && db.workflows == old(db.workflows)[k.value := e]
          && db.permissions == old(db.permissions)
          && db.nextId == n
          && r == Ok(e)
    ensures r.Ok? ==> r.value.status != Published
  {
    var gate := Authorize(db.permissions, Some(wid), user, Editor);
    if gate.Err? {
      return Err(gate.error);
    }
    if !UpdateBodyOk(title, description) {
      return Err(InvalidBody);
    }
    var k := FindWorkflow(db.workflows, wid);
    if k.None? {
      return Err(WorkflowNotFound);
    }
    var w := db.workflows[k.value];
    var e := Edited(w, title, description);
    if w.status == Published {
      if !ValidWorkflow(e) {
        StoreVersion(db, k.value, user);
        return Err(SchemaViolation);
      }
      e := StoreBranch(db, k.value, e, None, user);
    } else {
      if !ValidWorkflow(e) {
        return Err(SchemaViolation);
      }
      StoreEdit(db, k.value, e);
    }
    r := Ok(e);
  }

  /** The version an edit of a Published workflow stores before the edited
      record is validated: it stays stored when that record is refused, and
      the workflow keeps its status and pointer. */
  method StoreVersion(db: Store, k: nat, user: UserId)
    requires db.Valid() && k < |db.workflows|
    modifies db
    ensures db.Valid()
    ensures
      var w := old(db.workflows)[k].id;
      db.versions == old(db.versions) + [WorkflowVersion(old(db.nextId), w, CountVersions(old(db.versions), w) + 1, None, user, false)]
    ensures db.workflows == old(db.workflows) && db.permissions == old(db.permissions) && db.nextId == old(db.nextId) + 1
  {
    ghost var vs := db.versions;
    var n, w := db.nextId, db.workflows[k].id;
    var v := NewVersion(n, w, CountVersions(db.versions, w) + 1, None, user, Some(false));
    db.versions, db.nextId := db.versions + [v], n + 1;
    StepAddVersion(db.workflows, vs, db.permissions, n, k, v, db.versions);
  }

  /** The write that branches a new version off the workflow at `k` (an edit
      of a Published workflow, or an explicit new version): the version,
      numbered count + 1 and unpublished, then the record `e` of that
      workflow, a Draft again, pointing at it. */
  method StoreBranch(db: Store, k: nat, e: Workflow, note: Option<string>, user: UserId) returns (stored: Workflow)
    requires db.Valid() && k < |db.workflows| && e.id == db.workflows[k].id && ValidWorkflow(e)
    requires note.Some? ==> |note.value| <= ChangeNoteMax
    modifies db
    ensures db.Valid()
    ensures stored == e.(status := Draft, currentVersionId := Some(old(db.nextId)))
    ensures db.versions ==
      old(db.versions) + [WorkflowVersion(old(db.nextId), e.id, CountVersions(old(db.versions), e.id) + 1, note, user, false)]
    ensures db.workflows == old(db.workflows)[k := stored]
    ensures db.permissions == old(db.permissions) && db.nextId == old(db.nextId) + 1
  {
    ghost var ws, vs, ps := db.workflows, db.versions, db.permissions;
    var n := db.nextId;
    var v := NewVersion(n, e.id, CountVersions(db.versions, e.id) + 1, note, user, Some(false));
    stored := e.(status := Draft, currentVersionId := Some(v.id));
    db.versions, db.nextId, db.workflows := db.versions + [v], n + 1, db.workflows[k := stored];
    StepBranch(ws, vs, ps, n, k, stored, note, user, db.workflows, db.versions);
  }

  /** The write `PATCH` makes on any other workflow: the record with its new
      title and description, and nothing else. */
  method StoreEdit(db: Store, k: nat, e: Workflow)
    requires db.Valid() && k < |db.workflows|
    requires e == db.workflows[k].(title := e.title, description := e.description) && ValidWorkflow(e)
    modifies db
    ensures db.Valid()
    ensures db.workflows == old(db.workflows)[k := e]
    ensures db.versions == old(db.versions) && db.permissions == old(db.permissions) && db.nextId == old(db.nextId)
  {
    ghost var ws := db.workflows;
    StoredRecordOk(db.workflows, db.versions, db.permissions, db.nextId, k);
    db.workflows := db.workflows[k := e];
    StepReplaceWorkflow(ws, db.versions, db.permissions, db.nextId, k, e, db.workflows);
  }

  /** `DELETE /workflows/:id`: Admin access, then the workflow is archived;
      its versions and permissions stay. */
  method ArchiveWorkflow(db: Store, user: UserId, wid: Id) returns (r: Result<(), Error>)
    requires db.Valid()
    modifies db
    ensures db.Valid()
    ensures
      var gate := Authorize(old(db.permissions), Some(wid), user, Admin);
      var k := FindWorkflow(old(db.workflows), wid);
      if gate.Err? then r == Err(gate.error) && unchanged(db)
      else if k.None? then r == Err(WorkflowNotFound) && unchanged(db)
      else
        && r == Ok(())
        && db.workflows == old(db.workflows)[k.value := old(db.workflows)[k.value].(status := Archived)]
        && db.versions == old(db.versions)
        && db.permissions == old(db.permissions)
        && db.nextId == old(db.nextId)
  {
    var gate := Authorize(db.permissions, Some(wid), user, Admin);
    if gate.Err? {
      return Err(gate.error);
    }
    var k := FindWorkflow(db.workflows, wid);
    if k.None? {
      return Err(WorkflowNotFound);
    }
    var w := db.workflows[k.value].(status := Archived);
    StoredRecordOk(db.workflows, db.versions, db.permissions, db.nextId, k.value);
    ghost var ws := db.workflows;
    db.workflows := db.workflows[k.value := w];
    StepReplaceWorkflow(ws, db.versions, db.permissions, db.nextId, k.value, w, db.workflows);
    r := Ok(());
  }

  /** The title a duplicate is given. */
  function CopyTitle(title: string): (t: string)
    ensures |t| == |title| + 7 && t[..|title|] == title && t[|title|..] == " (Copy)"
  {
    title + " (Copy)"
  }

  /** A duplicate passes the title validator exactly when the original title
      has at most 193 characters: longer valid titles cannot be duplicated. */
  lemma CopyTitleFits(title: string)
    ensures 1 <= |CopyTitle(title)| <= TitleMax <==> |title| <= TitleMax - 7
  {
  }

  /** The record a duplicate is stored as: a Draft with the original's
      description under the copy title, owned by the caller and pointing at
      the id allocated right after its own. */
  function CopyOf(original: Workflow, n: Id, user: UserId): (c: Workflow)
    ensures c.id == n && c.title == CopyTitle(original.title) && c.description == original.description
    ensures c.status == Draft && c.currentVersionId == Some(n + 1) && c.createdBy == user
  {
    Workflow(n, CopyTitle(original.title), original.description, Draft, Some(n + 1), user)
  }

  /** `POST /workflows/:id/duplicate`: Viewer access suffices; the copy is a
      new Draft with the original's description and a "(Copy)" title, its own
      version 1 and the caller as its Admin. Versions of the original are not
      copied. */
  method DuplicateWorkflow(db: Store, user: UserId, wid: Id) returns (r: Result<Workflow, Error>)
    requires db.Valid()
    modifies db
    ensures db.Valid()
    ensures
      var gate := Authorize(old(db.permissions), Some(wid), user, Viewer);
      var k := FindWorkflow(old(db.workflows), wid);
      var n := old(db.nextId);
      if gate.Err? then r == Err(gate.error) && unchanged(db)
      else if k.None? then r == Err(WorkflowNotFound) && unchanged(db)
      else
        var copy := CopyOf(old(db.workflows)[k.value], n, user);
        if !ValidWorkflow(copy) then r == Err(SchemaViolation) && unchanged(db)
        else
          && r == Ok(copy)
          && db.workflows == old(db.workflows) + [copy]
          && db.versions == old(db.versions) + [WorkflowVersion(n + 1, n, 1, None, user, false)]
          && db.permissions == old(db.permissions) + [Permission(n, user, Admin)]
          && db.nextId == n + 2
    ensures r.Ok? ==> forall role :: Authorize(db.permissions, Some(r.value.id), user, role) == Ok(Permission(r.value.id, user, Admin))
  {
    var gate := Authorize(db.permissions, Some(wid), user, Viewer);
    if gate.Err? {
      return Err(gate.error);
    }
    var k := FindWorkflow(db.workflows, wid);
    if k.None? {
      return Err(WorkflowNotFound);
    }
    var w := CopyOf(db.workflows[k.value], db.nextId, user);
    if !ValidWorkflow(w) {
      return Err(SchemaViolation);
    }
    StoreNewWorkflow(db, w);
    r := Ok(w);
  }
}
