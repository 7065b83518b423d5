# Workflow versioning and permissions, modelled in Dafny

This project models the server core of a workflow-authoring application. Users
create workflows, version and publish them, and share them through
per-workflow roles (Viewer, Editor, Admin). The back end is an Express API over
MongoDB. Under the I/O, each route handler is a short sequential step over four
collections: workflows, versions, permissions and task types. The model keeps
that step and drops the I/O.

- `common.dfy`: ids, `Option`, `Result`, and the distinct-id and first-index
  helpers that the collections use.
- `errors.dfy`: the error answers of the routes and their HTTP status codes.
- `workflow.dfy`, `version.dfy`, `permission.dfy`, `task_type.dfy`,
  `node.dfy`, `connection.dfy`: the Mongoose schemas. Each gives a record
  datatype, its validators, its enum parsers, its defaults and its unique
  keys. Nodes and connections are built from a request body, so a missing or
  over-long field is reported the way the validators report it.
- `permission_gate.dfy`: `checkWorkflowPermission`. It is a read-only decision
  over the permission table, with the rank order Viewer < Editor < Admin.
- `store.dfy`: the shared store, a class `Store` holding the three workflow
  collections and an id allocator. `Consistent` states what every route
  keeps true:
  - ids are unique;
  - each workflow points at one of its own versions and has an Admin;
  - each workflow's versions are numbered 1..n in stored order;
  - at most one version per workflow is published;
  - there is one permission per (workflow, user).

  One lemma per kind of write shows that the write preserves it.
- `workflow_routes.dfy`, `version_routes.dfy`: the routes.
  - The writing routes are methods that modify the store. Their `ensures`
    gives the whole new state on every path, error paths included.
  - The reading routes are functions. Their lemmas cover filtering, paging
    and ordering.
- `task_type_routes.dfy`: the task-type catalogue.
  - It is a class with create, update and soft delete.
  - The listing is a pure function: the active-only filter, then a sort by
    name, proved sorted and a permutation.

Where the design description and the code differ, the model follows the code:

- Publishing a version, or creating one, sets the workflow's status (to
  Published or to Draft) even when the workflow is Archived. Archived is
  therefore not terminal (server/src/routes/versions.js:103-104 and :156-158).
- A unique-index conflict, or a record the validators refuse, reaches the
  handler's catch branch. The answer is a 500, with no retry.

## Model

| member | source | states |
|---|---|---|
| WorkflowModel.ParseStatus | server/src/models/Workflow.js:15-20 | only the three status names are accepted, and each parses to the status it names |
| WorkflowModel.NewWorkflow | server/src/models/Workflow.js:15-28 | the status defaults to Draft; a new record points at no version yet |
| WorkflowModel.StatusQueryMatches | server/src/routes/workflows.js:80-82 | a status filter string selects exactly the workflows whose status it names |
| PermissionModel.ParseRole | server/src/models/Permission.js:14-18 | only the three role names are accepted, and each parses to the role it names |
| PermissionModel.FindGrant | server/src/middleware/permissions.js:15-18 | the lookup returns a stored record of that (workflow, user) pair |
| PermissionModel.FindGrantNone | server/src/middleware/permissions.js:15-25 | the lookup is empty exactly when no record is about the pair |
| PermissionModel.FindGrantUnique | server/src/models/Permission.js:23 | under the unique (workflow_id, user_id) index the lookup returns the one record of the pair |
| PermissionGate.RankOrdersRoles | server/src/middleware/permissions.js:27-33 | the numeric table Viewer=1, Editor=2, Admin=3 orders the roles: Admin covers all, all cover Viewer |
| PermissionGate.Authorize | server/src/middleware/permissions.js:6-41 | a missing workflow id is MissingWorkflowId (400); the gate grants only with a stored record of the caller on that workflow whose role covers the required one, and hands that record on |
| PermissionGate.AuthorizeDeniesStrangers | server/src/middleware/permissions.js:15-25 | "Access denied" exactly when the caller holds no record on the workflow |
| PermissionGate.DenialMessage | server/src/middleware/permissions.js:8-38 | the three denial messages, the role one naming the required role |
| PermissionGate.AuthorizeByGrant | server/src/middleware/permissions.js:27-41 | with unique grants, the decision is Ok(record) exactly when its role covers the required one, else RoleRequired |
| PermissionGate.AuthorizeMonotone | server/src/middleware/permissions.js:33-38 | whoever passes at a role passes at every lower role, with the same record |
| PermissionGate.AdminPassesEverywhere | server/src/middleware/permissions.js:27-41 | an Admin record passes the gate at every required role |
| PermissionGate.ViewerCannotEdit | server/src/middleware/permissions.js:33-38 | a Viewer is refused every Editor or Admin route with RoleRequired |
| Errors.Error.StatusCode | server/src/middleware/permissions.js:8-38 | every error is a 4xx or a 500; 403 exactly for the two denials, 404 exactly for the three not-found answers |
| VersionModel.NewVersion | server/src/models/WorkflowVersion.js:24-28 | `is_published` defaults to false |
| VersionModel.VersionsOfMembers | server/src/routes/versions.js:17-19 | the per-workflow query returns exactly the stored versions of that workflow |
| VersionModel.AppendUnpublished | server/src/routes/versions.js:95-101 | storing an unpublished version keeps at most one published version per workflow |
| VersionModel.NumberedAppend | server/src/routes/versions.js:91-101 | storing a version numbered count + 1 keeps every workflow's versions numbered 1..n, and its count grows by one |
| VersionModel.SameKeysNumbered | server/src/routes/versions.js:148-154 | flipping publish flags keeps the numbering and every count |
| VersionModel.NumberedUnique | server/src/models/WorkflowVersion.js:34 | the dense numbering implies the unique (workflow_id, version_number) key |
| VersionModel.NumbersOneToN | server/src/routes/versions.js:91-97 | a workflow's version numbers are exactly 1..count |
| VersionModel.NextNumberFree | server/src/routes/versions.js:91-97 | no stored version of the workflow already carries count + 1 |
| VersionModel.FindVersion | server/src/routes/versions.js:46-49 | finds a version with that id belonging to that workflow, and is empty exactly when there is none |
| VersionModel.Unpublish | server/src/routes/versions.js:148-151 | afterwards no version of the workflow is published; other workflows' versions and every other field are untouched |
| Database.FindWorkflow | server/src/routes/workflows.js:166-173 | finds the workflow with that id, and is empty exactly when none is stored |
| Database.CurrentVersionIndex | server/src/routes/workflows.js:40-41 | in a consistent store the pointer resolves to a version of the same workflow, published when the workflow is Published |
| Database.AddWorkflowKeeps | server/src/routes/workflows.js:26-47 | a new workflow with its version 1 and its creator's Admin grant keeps the store consistent, and the workflow has exactly that one version |
| Database.GrantOnFreshWorkflow | server/src/models/Permission.js:23 | an Admin grant on a freshly allocated workflow id never clashes with a stored grant |
| Database.AddVersionKeeps | server/src/routes/versions.js:91-101 | a fresh unpublished version numbered count + 1 of a stored workflow keeps the store consistent and raises the count by one |
| Database.ReplaceWorkflowKeeps | server/src/routes/workflows.js:187-190 | rewriting a workflow record with a valid one whose pointer is in order keeps the store consistent |
| Database.PublishedAt | server/src/routes/versions.js:148-154 | after publishing version j, exactly j among its workflow's versions is published; other workflows' versions are unchanged; only flags change |
| Database.PublishKeeps | server/src/routes/versions.js:148-159 | publishing a version and repointing its workflow at it keeps the store consistent |
| Database.StoredVersionOwner | server/src/routes/versions.js:156-157 | in a consistent store every version's workflow is stored, so the publish handler's re-fetch finds it |
| Database.StepBranch | server/src/routes/workflows.js:175-190 | a branched version plus the rewritten Draft record pointing at it keeps the store consistent |
| WorkflowRoutes.Edited | server/src/routes/workflows.js:187-188 | a supplied title or description replaces the stored one; every other field is kept |
| WorkflowRoutes.CreateWorkflow | server/src/routes/workflows.js:22-68 | the body check, then the validators; on success a Draft workflow, its unpublished version 1 as current, and an Admin grant for the creator, who then passes the gate at every role |
| WorkflowRoutes.StoreNewWorkflow | server/src/routes/workflows.js:26-47 | the three writes of a creation, preserving `Valid()` |
| WorkflowRoutes.CreatorHoldsAdmin | server/src/routes/workflows.js:43-47 | the creator's Admin grant passes the gate at every role |
| WorkflowRoutes.MatchingMembers | server/src/routes/workflows.js:74-87 | the list query selects exactly the stored workflows the user holds a permission on that match the non-empty status and owner filters |
| WorkflowRoutes.CeilDiv | server/src/routes/workflows.js:114 | the page count is the fewest pages of `limit` that hold `total` |
| WorkflowRoutes.PageOf | server/src/routes/workflows.js:88-94 | a page is at most `limit` matches taken in order from position `skip`, short only at the end |
| WorkflowRoutes.ListWorkflows | server/src/routes/workflows.js:70-124 | one page of the matches, with total and page count; page and limit default to 1 and 20 |
| WorkflowRoutes.EveryMatchOnOnePage | server/src/routes/workflows.js:88-114 | match i appears as item i mod limit of page i / limit + 1, and that page is within the page count |
| WorkflowRoutes.ListedAreViewable | server/src/routes/workflows.js:74-78 | every listed workflow passes the Viewer gate for the caller |
| WorkflowRoutes.GetWorkflow | server/src/routes/workflows.js:126-160 | gate errors pass through; after the gate, WorkflowNotFound exactly when no workflow has the id, and the stored record with that id whenever one exists |
| WorkflowRoutes.StoredWorkflowReadable | server/src/routes/workflows.js:126-137 | in a consistent store every workflow can be read by some user |
| WorkflowRoutes.UpdateWorkflow | server/src/routes/workflows.js:162-211 | the gate, the body check and the lookup, in that order. On a Published workflow, an unpublished version numbered count + 1 is stored, then the edited record becomes a Draft pointing at it. Any other workflow is edited in place with no version. The result is never Published |
| WorkflowRoutes.StoreBranch | server/src/routes/workflows.js:175-185 | the branch writes: the version numbered count + 1, then the record as a Draft pointing at it |
| WorkflowRoutes.StoreVersion | server/src/routes/workflows.js:175-190 | the version stored before the edited record is validated stays when the validators refuse that record |
| WorkflowRoutes.StoreEdit | server/src/routes/workflows.js:187-190 | an edit outside the Published branch rewrites the record and nothing else |
| WorkflowRoutes.ArchiveWorkflow | server/src/routes/workflows.js:213-237 | Admin only; only the status becomes Archived; the pointer, the versions and the grants are unchanged |
| WorkflowRoutes.CopyTitle | server/src/routes/workflows.js:251 | the copy title is the original title followed by " (Copy)" |
| WorkflowRoutes.CopyTitleFits | server/src/routes/workflows.js:250-255 | a duplicate passes the title validator exactly when the original title has at most 193 characters |
| WorkflowRoutes.CopyOf | server/src/routes/workflows.js:250-255 | the copy is a Draft with the copy title and the original's description, owned by the caller |
| WorkflowRoutes.DuplicateWorkflow | server/src/routes/workflows.js:239-291 | Viewer access suffices; the copy gets its own unpublished version 1 and the caller as Admin; the original's records are unchanged |
| VersionRoutes.InsertDesc | server/src/routes/versions.js:21 | insertion keeps the list ordered by descending number and adds exactly the new version |
| VersionRoutes.SortDesc | server/src/routes/versions.js:21 | the sort by `version_number` descending is ordered and a permutation of its input |
| VersionRoutes.SortAscending | server/src/routes/versions.js:21 | sorting versions stored in rising order reverses them |
| VersionRoutes.ListVersions | server/src/routes/versions.js:15-42 | gate errors pass through; otherwise exactly the workflow's versions, highest number first |
| VersionRoutes.ListedNewestFirst | server/src/routes/versions.js:17-21 | in a densely numbered store, the list of a workflow with n versions reads n, n-1, ..., 1 |
| VersionRoutes.GetVersion | server/src/routes/versions.js:44-77 | after the gate, VersionNotFound exactly when no version has that id in that workflow, including a version of another workflow; the stored version whenever one with that id belongs to that workflow |
| VersionRoutes.CurrentVersionReadable | server/src/routes/versions.js:44-56 | in a consistent store, anyone with a grant on a workflow can read its current version |
| VersionRoutes.CreateVersion | server/src/routes/versions.js:79-125 | Editor access and the lookup; then an unpublished version numbered count + 1 with the change note ('' when none is given) becomes current, and the workflow a Draft |
| VersionRoutes.CreatedVersionIsNewest | server/src/routes/versions.js:91-97 | a new version's number is above every number its workflow already has |
| VersionRoutes.PublishVersion | server/src/routes/versions.js:127-177 | Admin access; VersionNotFound for a version of another workflow; AlreadyPublished changes nothing. Otherwise exactly the target is published among its workflow's versions, and the workflow is Published pointing at it |
| VersionRoutes.StorePublish | server/src/routes/versions.js:148-159 | the publish writes, preserving `Valid()` |
| TaskTypeModel.ParseFieldType | server/src/routes/taskTypes.js:12 | only the six field type names are accepted, and each parses to the type it names |
| TaskTypeModel.CheckFieldItem | server/src/routes/taskTypes.js:9-19 | an item is refused exactly when it lacks a non-empty name or label or a known type, is a choice type without options, or has an empty option; an accepted item carries the body's name, label, type, options and `required`, which defaults to false |
| TaskTypeModel.CheckFieldItemRoundTrip | server/src/routes/taskTypes.js:9-19 | every valid item (non-empty name, label and options, options present for the choice kinds) spelled out in full is accepted as itself |
| TaskTypeModel.CheckFieldSchema | server/src/routes/taskTypes.js:24 | the list is accepted exactly when every item is (so one empty option refuses the whole list), and keeps the items in order |
| TaskTypeModel.NewTaskType | server/src/models/TaskType.js:26-30 | `is_active` defaults to true |
| TaskTypeModel.NameLeTotal | server/src/routes/taskTypes.js:41 | any two names are ordered |
| TaskTypeModel.NameLeTransitive | server/src/routes/taskTypes.js:41 | the name order is transitive |
| TaskTypeModel.NameLeAntisymmetric | server/src/routes/taskTypes.js:41 | two names ordered both ways are equal |
| TaskTypeRoutes.InsertByName | server/src/routes/taskTypes.js:41 | insertion keeps the list sorted by name and adds exactly the new record |
| TaskTypeRoutes.SortByName | server/src/routes/taskTypes.js:41 | the sort by name is ordered and a permutation of its input |
| TaskTypeRoutes.SortedByNameAt | server/src/routes/taskTypes.js:41 | a sorted listing is ordered between any two positions |
| TaskTypeRoutes.ActiveOnlyMembers | server/src/routes/taskTypes.js:39-41 | the active filter keeps exactly the active records |
| TaskTypeRoutes.ListTaskTypes | server/src/routes/taskTypes.js:36-53 | sorted by name; a permutation of the active records when `active_only` is exactly "true", of all records otherwise |
| TaskTypeRoutes.ListedTaskTypes | server/src/routes/taskTypes.js:38-41 | a record is listed exactly when stored and, under `active_only=true`, active |
| TaskTypeRoutes.FindTaskType | server/src/routes/taskTypes.js:76-87 | finds the record with that id, and is empty exactly when none is stored |
| TaskTypeRoutes.Patched | server/src/routes/taskTypes.js:76-80 | each given field replaces the stored one; the id and the rest are kept |
| TaskTypeRoutes.PatchedValid | server/src/routes/taskTypes.js:76-80 | a valid record patched with fields that pass the validators is valid |
| TaskTypeRoutes.ReplaceKeeps | server/src/models/TaskType.js:4-10 | replacing a record by one with a name no other record holds keeps names and ids unique |
| TaskTypeRoutes.AddKeeps | server/src/models/TaskType.js:4-10 | appending a valid record with a fresh id and a new name keeps names and ids unique |
| TaskTypeRoutes.DeactivatedHidden | server/src/routes/taskTypes.js:101-114 | a deactivated record leaves the active listing and stays in the full one |
| TaskTypeRoutes.CreatedListed | server/src/routes/taskTypes.js:57-60 | a created record, being active, appears in the active listing |
| TaskTypeRoutes.Catalogue.Create | server/src/routes/taskTypes.js:55-72 | InvalidBody for a missing or empty name or a bad item (including an empty option); then SchemaViolation; then DuplicateKey for a taken name. Otherwise the record is appended with `is_active` true whatever the body says |
| TaskTypeRoutes.Catalogue.Update | server/src/routes/taskTypes.js:74-99 | InvalidBody for an empty body, an empty name or a bad item (including an empty option); SchemaViolation before the lookup; then TaskTypeNotFound; then DuplicateKey for another record's name. Otherwise only the given fields change |
| TaskTypeRoutes.Catalogue.Deactivate | server/src/routes/taskTypes.js:101-126 | TaskTypeNotFound for an unknown id; otherwise the record stays, with `is_active` false |
| NodeModel.Problems | server/src/models/Node.js:4-67 | the validator paths: version id, node type in {TASK, DECISION}, a name of 1 to 200 characters, a description of at most 2000, a task type id for TASK, a question of at most 500 for DECISION |
| NodeModel.BuildNode | server/src/models/Node.js:4-69 | the node builds exactly when no path fails; the result is valid and carries the body's version id, name, description, type, task type id or question; positions default to 0 and task data to empty |
| NodeModel.BuildNodeRoundTrip | server/src/models/Node.js:11-69 | every valid node written out in full builds as itself |
| NodeModel.BuildNodeIgnoresOtherVariant | server/src/models/Node.js:37-69 | fields of the variant not chosen by `node_type` do not affect the result |
| ConnectionModel.ConnectionProblems | server/src/models/Connection.js:4-24 | the three ids are required and the label is at most 100 characters |
| ConnectionModel.SaveConnection | server/src/models/Connection.js:30-42 | validation, refusing with exactly the failing paths, then the self-loop hook, then the unique (from, to) index; only a save that passes all three appends the edge |
| ConnectionModel.DuplicateRejected | server/src/models/Connection.js:42 | a valid non-loop body is refused as a duplicate exactly when its ordered pair is stored |
| ConnectionModel.SaveConnectionKeeps | server/src/models/Connection.js:30-42 | saving keeps the collection free of self-loops and repeated pairs |
| ConnectionModel.SaveConnectionRoundTrip | server/src/models/Connection.js:4-42 | every valid edge with a new pair saves as itself |

## Left out

- Strings are taken as already trimmed. The body schemas and the Mongoose
  schemas trim them, and the model does not. Lengths are counted in code
  points, where JavaScript counts UTF-16 units.
- The `authenticate` middleware and `requireAdmin` come from
  server/src/middleware/auth.js, which is not part of this model. The user id
  is a parameter of every route. The task-type writes are modelled as they run
  after the Admin check.
- Only the body rules that the route files spell out are modelled: a
  non-empty required title or name, at least one key in an update, and the
  field-item rules, including the string rule that refuses an empty option
  in a choice list. The Joi library itself is not part of this model. Unknown
  keys are stripped, so they do not appear in the model's bodies.
- The 500 catch branches for database failures are not modelled. A validator
  or unique-index failure is modelled as `SchemaViolation` or `DuplicateKey`.
- WorkflowRoutes.ListWorkflows answers `BadPaging` for a page or a limit below
  1. The source hands those values to the database instead. There a limit of
  0 means no limit, and a negative skip is an error. Text that `parseInt`
  cannot read, giving NaN, is not modelled.
- The workflow list sorts by `updatedAt`. The schema writes its timestamps
  as `updated_at`, so that sort key names a field that no document carries.
  The model lists matches in stored order.
- The MongoDB sort does not promise an order among equal keys. The model's
  sorts are deterministic insertion sorts, and the lemmas state only what
  every such order shares: sorted, and a permutation.
- Each request is one atomic step. The count-then-insert race and
  interleaved requests are not modelled. The partial write of a refused
  `PATCH` is modelled (WorkflowRoutes.StoreVersion).
- Timestamps, `populate` projections, the response envelopes and the text
  index are not modelled.
- Node positions are JavaScript numbers, modelled as integers. `task_data`
  is arbitrary JSON, modelled as a map from strings to strings.
- The node and connection routes are not part of this model, only their
  schemas. So duplicating a workflow copies no nodes and no connections,
  which is also what the source does.
- The publish handler re-fetches the workflow without checking for null.
  The store invariant guarantees it is found (Database.StoredVersionOwner).
- server/src/models/User.js hashes passwords through bcrypt; it is not part
  of this model. The client stores, the seed script and the server wiring are
  I/O and are not modelled.
- Ids are natural numbers handed out by a counter. A path id that is not a
  valid ObjectId, which the database refuses with a cast error, is not
  modelled.
