/** The task-type routes: the listing (all, or active only, sorted by name)
    and the catalogue's create, update and soft delete. Any signed-in user
    may list; the other three routes are for administrators only, and that
    check is made before these handlers run. */
module TaskTypeRoutes {
  import opened Common
  import opened Errors
  import opened TaskTypeModel

  /** Each name comes no later than the next one. */
  predicate SortedByName(ts: seq<TaskType>) {
    forall i :: 0 <= i < |ts| - 1 ==> NameLe(ts[i].name, ts[i + 1].name)
  }

  /** Places `t` in front of the first task type whose name is not below its
      own. */
  function InsertByName(t: TaskType, s: seq<TaskType>): (r: seq<TaskType>)
    ensures multiset(r) == multiset(s) + multiset{t}
    ensures r[0] == t || (s != [] && r[0] == s[0])
    ensures SortedByName(s) ==> SortedByName(r)
  {
    if s == [] then [t]
    else if NameLe(t.name, s[0].name) then
      SortedByNameCons(t, s);
      [t] + s
    else
      assert s == [s[0]] + s[1..];
      NameLeTotal(t.name, s[0].name);
      var rest := InsertByName(t, s[1..]);
      SortedByNameCons(s[0], rest);
      [s[0]] + rest
  }

  /** Putting a name no later than the head in front keeps a list sorted. */
  lemma SortedByNameCons(x: TaskType, r: seq<TaskType>)
    ensures SortedByName(r) && (r != [] ==> NameLe(x.name, r[0].name)) ==> SortedByName([x] + r)
  {
    if SortedByName(r) && (r != [] ==> NameLe(x.name, r[0].name)) {
      var xr := [x] + r;
      forall i | 0 <= i < |xr| - 1 ensures NameLe(xr[i].name, xr[i + 1].name) {
        if i > 0 {
          assert xr[i] == r[i - 1] && xr[i + 1] == r[i];
        }
      }
    }
  }

  /** `sort({name: 1})`: the task types ordered by name, nothing added or
      lost. */
  function SortByName(s: seq<TaskType>): (r: seq<TaskType>)
    ensures SortedByName(r)
    ensures multiset(r) == multiset(s)
  {
    if s == [] then []
    else
      assert s == [s[0]] + s[1..];
      InsertByName(s[0], SortByName(s[1..]))
  }

  /** A list sorted step by step is sorted between any two positions. */
  lemma {:induction false} SortedByNameAt(s: seq<TaskType>, i: nat, j: nat)
    requires SortedByName(s) && i < j < |s|
    ensures NameLe(s[i].name, s[j].name)
    decreases j - i
  {
    if i + 1 < j {
      SortedByNameAt(s, i + 1, j);
      NameLeTransitive(s[i].name, s[i + 1].name, s[j].name);
    }
  }

  /** `find({is_active: true})`: the active task types in stored order. */
  function ActiveOnly(ts: seq<TaskType>): (r: seq<TaskType>)
    ensures |r| <= |ts|
  {
    if ts == [] then []
    else
      var n := |ts| - 1;
      ActiveOnly(ts[..n]) + (if ts[n].isActive then [ts[n]] else [])
  }

  lemma {:induction false} ActiveOnlyMembers(ts: seq<TaskType>)
    ensures forall t :: t in ActiveOnly(ts) <==> t in ts && t.isActive
  {
    if ts != [] {
      var n := |ts| - 1;
      assert ts == ts[..n] + [ts[n]];
      ActiveOnlyMembers(ts[..n]);
    }
  }

  /** `GET /task-types`: only the active task types when `active_only` is
      exactly the string "true", every one otherwise; sorted by name. */
  function ListTaskTypes(ts: seq<TaskType>, activeOnly: Option<string>): (r: seq<TaskType>)
    ensures SortedByName(r)
    ensures activeOnly == Some("true") ==> multiset(r) == multiset(ActiveOnly(ts))
    ensures activeOnly != Some("true") ==> multiset(r) == multiset(ts)
  {
    if activeOnly == Some("true") then SortByName(ActiveOnly(ts)) else SortByName(ts)
  }

  /** The listing holds exactly the stored task types the query selects. */
  lemma ListedTaskTypes(ts: seq<TaskType>, activeOnly: Option<string>)
    ensures forall t :: t in ListTaskTypes(ts, activeOnly) <==> t in ts && (activeOnly == Some("true") ==> t.isActive)
  {
    var r := ListTaskTypes(ts, activeOnly);
    ActiveOnlyMembers(ts);
    forall t ensures t in r <==> t in multiset(r) {
    }
  }

  /** The `_id` column of the catalogue. */
  function TaskTypeIds(ts: seq<TaskType>): (r: seq<Id>)
    ensures |r| == |ts| && forall i {:trigger r[i]} :: 0 <= i < |ts| ==> r[i] == ts[i].id
  {
    seq(|ts|, i requires 0 <= i < |ts| => ts[i].id)
  }

  /** `findById(id)`: the position of the task type, if stored. */
  function FindTaskType(ts: seq<TaskType>, id: Id): (r: Option<nat>)
    ensures r.Some? ==> r.value < |ts| && ts[r.value].id == id
    ensures r.None? <==> forall i :: 0 <= i < |ts| ==> ts[i].id != id
  {
    var k := IndexOf(TaskTypeIds(ts), id);
    if k.None? then
      assert forall i :: 0 <= i < |ts| ==> TaskTypeIds(ts)[i] == ts[i].id;
      None
    else Some(k.value)
  }

  /** Some task type other than the one at `except` carries `name`. */
  predicate NameTaken(ts: seq<TaskType>, name: string, except: int) {
    exists i :: 0 <= i < |ts| && i != except && ts[i].name == name
  }

  /** What the catalogue keeps true: unique ids below the allocator, unique
      names, and records that pass the schema's validators. */
  ghost predicate Stocked(ts: seq<TaskType>, next: Id) {
    && Distinct(TaskTypeIds(ts))
    && UniqueNames(ts)
    && forall i :: 0 <= i < |ts| ==> ts[i].id < next && ValidTaskType(ts[i])
  }

  /** The fields a `PATCH` body may carry; each is optional. */
  datatype TaskTypePatch = TaskTypePatch(
    name: Option<string>,
    description: Option<string>,
    fieldSchema: Option<seq<FieldItemBody>>,
    icon: Option<string>,
    isActive: Option<bool>)

  /** The update body schema: at least one key, a name that is not empty, and
      field items that each pass the item rule. */
  predicate PatchBodyOk(p: TaskTypePatch) {
    && (p.name.Some? || p.description.Some? || p.fieldSchema.Some? || p.icon.Some? || p.isActive.Some?)
    && (p.name.Some? ==> p.name.value != "")
    && (p.fieldSchema.Some? ==> CheckFieldSchema(p.fieldSchema.value).Some?)
  }

  /** The validators run on the fields an update sets. */
  predicate PatchFieldsOk(p: TaskTypePatch) {
    && (p.name.Some? ==> |p.name.value| <= NameMax)
    && (p.description.Some? ==> |p.description.value| <= TaskDescriptionMax)
    && (p.icon.Some? ==> |p.icon.value| <= IconMax)
  }

  /** The record after an update: every field the body gives replaces the
      stored one; the id and every other field stay. */
  function Patched(t: TaskType, p: TaskTypePatch): (u: TaskType)
    requires PatchBodyOk(p)
    ensures u.id == t.id
    ensures u.name == p.name.GetOr(t.name)
    ensures u.description == (if p.description.Some? then p.description else t.description)
    ensures p.fieldSchema.None? ==> u.fieldSchema == t.fieldSchema
    ensures p.fieldSchema.Some? ==> Some(u.fieldSchema) == CheckFieldSchema(p.fieldSchema.value)
    ensures u.icon == (if p.icon.Some? then p.icon else t.icon)
    ensures u.isActive == p.isActive.GetOr(t.isActive)
  {
    TaskType(
      t.id,
      p.name.GetOr(t.name),
      if p.description.Some? then p.description else t.description,
      if p.fieldSchema.Some? then CheckFieldSchema(p.fieldSchema.value).value else t.fieldSchema,
      if p.icon.Some? then p.icon else t.icon,
      p.isActive.GetOr(t.isActive))
  }

  /** A valid record patched with fields that pass the validators is valid. */
  lemma PatchedValid(t: TaskType, p: TaskTypePatch)
    requires ValidTaskType(t) && PatchBodyOk(p) && PatchFieldsOk(p)
    ensures ValidTaskType(Patched(t, p))
  {
  }

  /** Replacing a record by one with the same id and a name no other record
      carries keeps the catalogue in order. */
  lemma ReplaceKeeps(ts: seq<TaskType>, next: Id, k: nat, u: TaskType)
    requires Stocked(ts, next) && k < |ts| && u.id == ts[k].id && ValidTaskType(u) && !NameTaken(ts, u.name, k)
    ensures Stocked(ts[k := u], next)
  {
    var ts' := ts[k := u];
    assert TaskTypeIds(ts') == TaskTypeIds(ts);
    forall i, j | 0 <= i < j < |ts'| ensures !SameName(ts', i, j) {
      if i != k && j != k {
        assert !SameName(ts, i, j);
      }
    }
  }

  /** Deactivating a task type hides it from the active listing and keeps it
      in the full one: a soft delete. */
  lemma DeactivatedHidden(ts: seq<TaskType>, k: nat)
    requires k < |ts|
    ensures ts[k].(isActive := false) !in ListTaskTypes(ts[k := ts[k].(isActive := false)], Some("true"))
    ensures ts[k].(isActive := false) in ListTaskTypes(ts[k := ts[k].(isActive := false)], None)
  {
    var ts' := ts[k := ts[k].(isActive := false)];
    ListedTaskTypes(ts', Some("true"));
    ListedTaskTypes(ts', None);
    assert ts'[k] in ts';
  }

  /** A task type just created shows up in the active listing. */
  lemma CreatedListed(ts: seq<TaskType>, t: TaskType)
    requires t.isActive
    ensures t in ListTaskTypes(ts + [t], Some("true"))
  {
    ListedTaskTypes(ts + [t], Some("true"));
    assert (ts + [t])[|ts|] == t;
  }

  /** The task-type table and the allocator of fresh ids. */
  class Catalogue {
    var types: seq<TaskType>
    var nextId: Id

    ghost predicate Valid()
      reads this
    {
      Stocked(types, nextId)
    }

    constructor ()
      ensures Valid() && types == []
    {
      types, nextId := [], 0;
    }

    /** `POST /task-types`: the body schema, then a new record that is always
        active, whatever the body says; the schema's validators and the
        unique name index can still refuse it. */
    method Create(name: Option<string>, description: Option<string>, fieldSchema: Option<seq<FieldItemBody>>,
                  icon: Option<string>) returns (r: Result<TaskType, Error>)
      requires Valid()
      modifies this
      ensures Valid()
      ensures
        var items := if fieldSchema.Some? then CheckFieldSchema(fieldSchema.value) else None;
        if name.None? || name.value == "" || items.None? then r == Err(InvalidBody) && unchanged(this)
        else
          var t := TaskType(old(nextId), name.value, description, items.value, icon, true);
          if !ValidTaskType(t) then r == Err(SchemaViolation) && unchanged(this)
          else if NameTaken(old(types), t.name, -1) then r == Err(DuplicateKey) && unchanged(this)
          else r == Ok(t) && types == old(types) + [t] && nextId == old(nextId) + 1
    {
      if name.None? || name.value == "" || fieldSchema.None? {
        return Err(InvalidBody);
      }
      var items := CheckFieldSchema(fieldSchema.value);
      if items.None? {
        return Err(InvalidBody);
      }
      var t := NewTaskType(nextId, name.value, description, items.value, icon, Some(true));
      if !ValidTaskType(t) {
        return Err(SchemaViolation);
      }
      if exists i :: 0 <= i < |types| && types[i].name == t.name {
        return Err(DuplicateKey);
      }
      AddKeeps(types, nextId, t);
      types, nextId := types + [t], nextId + 1;
      r := Ok(t);
    }

    /** `PATCH /task-types/:id`: the body schema, the validators on the
        fields it sets, the lookup, and the unique name index; then every
        field the body gives replaces the stored one. */
    method Update(id: Id, p: TaskTypePatch) returns (r: Result<TaskType, Error>)
      requires Valid()
      modifies this
      ensures Valid()
      ensures
        var k := FindTaskType(old(types), id);
        if !PatchBodyOk(p) then r == Err(InvalidBody) && unchanged(this)
        else if !PatchFieldsOk(p) then r == Err(SchemaViolation) && unchanged(this)
        else if k.None? then r == Err(TaskTypeNotFound) && unchanged(this)
        else
          var u := Patched(old(types)[k.value], p);
          if NameTaken(old(types), u.name, k.value) then r == Err(DuplicateKey) && unchanged(this)
          else r == Ok(u) && types == old(types)[k.value := u] && nextId == old(nextId)
    {
      if !PatchBodyOk(p) {
        return Err(InvalidBody);
      }
      if !PatchFieldsOk(p) {
        return Err(SchemaViolation);
      }
      var k := FindTaskType(types, id);
      if k.None? {
        return Err(TaskTypeNotFound);
      }
      var u := Patched(types[k.value], p);
      if exists i :: 0 <= i < |types| && i != k.value && types[i].name == u.name {
        return Err(DuplicateKey);
      }
      assert ValidTaskType(types[k.value]);
      PatchedValid(types[k.value], p);
      ReplaceKeeps(types, nextId, k.value, u);
      types := types[k.value := u];
      r := Ok(u);
    }

    /** `DELETE /task-types/:id`: the record stays and is marked inactive. */
    method Deactivate(id: Id) returns (r: Result<(), Error>)
      requires Valid()
      modifies this
      ensures Valid()
      ensures
        var k := FindTaskType(old(types), id);
        if k.None? then r == Err(TaskTypeNotFound) && unchanged(this)
        else r == Ok(()) && types == old(types)[k.value := old(types)[k.value].(isActive := false)] && nextId == old(nextId)
    {
      var k := FindTaskType(types, id);
      if k.None? {
        return Err(TaskTypeNotFound);
      }
      var u := types[k.value].(isActive := false);
      assert ValidTaskType(types[k.value]);
      assert !NameTaken(types, u.name, k.value) by {
        forall i | 0 <= i < |types| && i != k.value ensures types[i].name != u.name {
          if i < k.value { assert !SameName(types, i, k.value); } else { assert !SameName(types, k.value, i); }
        }
      }
      ReplaceKeeps(types, nextId, k.value, u);
      types := types[k.value := u];
      r := Ok(());
    }
  }

  /** Appending a valid record with a fresh id and a new name keeps the
      catalogue in order. */
  lemma AddKeeps(ts: seq<TaskType>, next: Id, t: TaskType)
    requires Stocked(ts, next) && t.id == next && ValidTaskType(t) && !NameTaken(ts, t.name, -1)
    ensures Stocked(ts + [t], next + 1)
  {
    var ts' := ts + [t];
    assert TaskTypeIds(ts') == TaskTypeIds(ts) + [next];
    DistinctAppend(TaskTypeIds(ts), next);
    forall i, j | 0 <= i < j < |ts'| ensures !SameName(ts', i, j) {
      if j < |ts| {
        assert !SameName(ts, i, j);
      }
    }
  }
}
