/** The TaskType record: a named, configurable form schema for task nodes,
    with a soft-delete flag; and the rules a field-schema item must follow. */
module TaskTypeModel {
  import opened Common

  const NameMax := 100
  const TaskDescriptionMax := 500
  const IconMax := 50

  /** The field kinds a form field may have. */
  datatype FieldType = Text | Number | Boolean | Select | MultiSelect | Date

  function FieldTypeName(t: FieldType): string {
    match t
    case Text => "text"
    case Number => "number"
    case Boolean => "boolean"
    case Select => "select"
    case MultiSelect => "multi-select"
    case Date => "date"
  }

  /** The `valid(...)` check on `type`: exactly the six names are accepted. */
  function ParseFieldType(s: string): (r: Option<FieldType>)
    ensures r.Some? ==> FieldTypeName(r.value) == s
    ensures forall t :: FieldTypeName(t) == s ==> r == Some(t)
  {
    if s == "text" then Some(Text)
    else if s == "number" then Some(Number)
    else if s == "boolean" then Some(Boolean)
    else if s == "select" then Some(Select)
    else if s == "multi-select" then Some(MultiSelect)
    else if s == "date" then Some(Date)
    else None
  }

  /** The kinds whose fields offer a fixed list of choices. */
  predicate HasChoices(t: FieldType) {
    t == Select || t == MultiSelect
  }

  /** A form field as stored after the body schema accepted it. */
  datatype FieldItem = FieldItem(
    name: string,
    fieldLabel: string,
    fieldType: FieldType,
    required: bool,
    options: Option<seq<string>>)

  /** A form field as a request body gives it: every key may be missing. */
  datatype FieldItemBody = FieldItemBody(
    name: Option<string>,
    fieldLabel: Option<string>,
    fieldType: Option<string>,
    required: Option<bool>,
    options: Option<seq<string>>)

  /** Every entry passes the string rule, which refuses the empty string. */
  predicate NonEmptyStrings(os: seq<string>) {
    forall i :: 0 <= i < |os| ==> os[i] != ""
  }

  /** What the stored items satisfy: a name, a label and every choice pass
      the string rule, and the two choice kinds carry a list of choices. */
  predicate ValidFieldItem(f: FieldItem) {
    && f.name != "" && f.fieldLabel != ""
    && (HasChoices(f.fieldType) ==> f.options.Some?)
    && (f.options.Some? ==> NonEmptyStrings(f.options.value))
  }

  /** The field-schema item rule: name, label and a known type are required;
      `required` defaults to false; `options` is required for the two choice
      kinds and optional otherwise, and each of its entries is a non-empty
      string. */
  function CheckFieldItem(b: FieldItemBody): (r: Option<FieldItem>)
    ensures r.Some? ==> ValidFieldItem(r.value)
    ensures r.Some? ==> b.required.None? ==> !r.value.required
    ensures r.Some? ==> b.required.Some? ==> r.value.required == b.required.value
    ensures r.Some? ==>
      && b.name == Some(r.value.name) && b.fieldLabel == Some(r.value.fieldLabel)
      && b.fieldType == Some(FieldTypeName(r.value.fieldType)) && r.value.options == b.options
    ensures r.None? <==>
      || b.name.None? || b.name == Some("") || b.fieldLabel.None? || b.fieldLabel == Some("")
      || b.fieldType.None? || ParseFieldType(b.fieldType.value).None?
      || (HasChoices(ParseFieldType(b.fieldType.value).value) && b.options.None?)
      || (b.options.Some? && !NonEmptyStrings(b.options.value))
  {
    if b.name.None? || b.name.value == "" || b.fieldLabel.None? || b.fieldLabel.value == "" || b.fieldType.None? then None
    else
      match ParseFieldType(b.fieldType.value)
      case None => None
      case Some(t) =>
        if HasChoices(t) && b.options.None? then None
        else if b.options.Some? && !NonEmptyStrings(b.options.value) then None
        else Some(FieldItem(b.name.value, b.fieldLabel.value, t, b.required.GetOr(false), b.options))
  }

  /** The body that spells out a stored item. */
  function BodyOf(f: FieldItem): FieldItemBody {
    FieldItemBody(Some(f.name), Some(f.fieldLabel), Some(FieldTypeName(f.fieldType)), Some(f.required), f.options)
  }

  /** The rule accepts every valid item spelled out in full and gives it back
      unchanged. */
  lemma CheckFieldItemRoundTrip(f: FieldItem)
    requires ValidFieldItem(f)
    ensures CheckFieldItem(BodyOf(f)) == Some(f)
  {
    assert ParseFieldType(FieldTypeName(f.fieldType)) == Some(f.fieldType);
  }

  /** Checks every item of a field schema; the whole list is refused when
      one item is. */
  function CheckFieldSchema(bs: seq<FieldItemBody>): (r: Option<seq<FieldItem>>)
    ensures r.Some? <==> forall i :: 0 <= i < |bs| ==> CheckFieldItem(bs[i]).Some?
    ensures r.Some? ==> |r.value| == |bs| && forall i :: 0 <= i < |bs| ==> Some(r.value[i]) == CheckFieldItem(bs[i])
  {
    if bs == [] then Some([])
    else
      var n := |bs| - 1;
      match CheckFieldSchema(bs[..n])
      case None => None
      case Some(items) =>
        match CheckFieldItem(bs[n])
        case None => None
        case Some(f) => Some(items + [f])
  }

  /** `field_schema` is required, and every other field is optional. */
  datatype TaskType = TaskType(
    id: Id,
    name: string,
    description: Option<string>,
    fieldSchema: seq<FieldItem>,
    icon: Option<string>,
    isActive: bool)

  /** The schema's validators: a name (the empty string fails a required
      check) of at most 100 characters, a description of at most 500 and an
      icon of at most 50. */
  predicate ValidTaskType(t: TaskType) {
    && 1 <= |t.name| <= NameMax
    && (t.description.Some? ==> |t.description.value| <= TaskDescriptionMax)
    && (t.icon.Some? ==> |t.icon.value| <= IconMax)
  }

  /** A new document before it is saved: `is_active` takes its default when
      not given. */
  function NewTaskType(id: Id, name: string, description: Option<string>, fieldSchema: seq<FieldItem>,
                       icon: Option<string>, isActive: Option<bool>): (t: TaskType)
    ensures isActive.None? ==> t.isActive
    ensures isActive.Some? ==> t.isActive == isActive.value
    ensures t.id == id && t.name == name && t.description == description
    ensures t.fieldSchema == fieldSchema && t.icon == icon
  {
    TaskType(id, name, description, fieldSchema, icon, isActive.GetOr(true))
  }

  /** Records `i` and `j` carry the same name. */
  predicate SameName(ts: seq<TaskType>, i: int, j: int)
    requires 0 <= i < |ts| && 0 <= j < |ts|
  {
    ts[i].name == ts[j].name
  }

  /** The unique index on `name`. */
  predicate UniqueNames(ts: seq<TaskType>) {
    forall i, j :: 0 <= i < j < |ts| ==> !SameName(ts, i, j)
  }

  /** `a` comes no later than `b` in code-point order, which is the byte
      order of the UTF-8 encodings the database compares. */
  predicate NameLe(a: string, b: string) {
    a == [] || (b != [] && (a[0] < b[0] || (a[0] == b[0] && NameLe(a[1..], b[1..]))))
  }

  /** Any two names are ordered one way or the other. */
  lemma {:induction false} NameLeTotal(a: string, b: string)
    ensures NameLe(a, b) || NameLe(b, a)
  {
    if a != [] && b != [] && a[0] == b[0] {
      NameLeTotal(a[1..], b[1..]);
    }
  }

  lemma {:induction false} NameLeTransitive(a: string, b: string, c: string)
    requires NameLe(a, b) && NameLe(b, c)
    ensures NameLe(a, c)
  {
    if a != [] && b != [] && c != [] && a[0] == b[0] && b[0] == c[0] {
      NameLeTransitive(a[1..], b[1..], c[1..]);
    }
  }

  /** Two names ordered both ways are the same name. */
  lemma {:induction false} NameLeAntisymmetric(a: string, b: string)
    requires NameLe(a, b) && NameLe(b, a)
    ensures a == b
  {
    if a != [] {
      NameLeAntisymmetric(a[1..], b[1..]);
      assert a == [a[0]] + a[1..] && b == [b[0]] + b[1..];
    }
  }
}
