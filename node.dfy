/** The Node record: a step of a workflow version's graph. The `node_type`
    key selects one of two variants, a task step or a decision, each with
    fields of its own. */
module NodeModel {
  import opened Common

  const NodeNameMax := 200
  const NodeDescriptionMax := 2000
  const QuestionMax := 500

  /** The variant part of a node. */
  datatype NodeKind =
    | Task(taskTypeId: Id, taskData: map<string, string>)
    | Decision(question: Option<string>)

  datatype Node = Node(
    versionId: Id,
    name: string,
    description: Option<string>,
    x: int,
    y: int,
    kind: NodeKind)

  /** The value of the discriminator key. */
  function NodeTypeName(k: NodeKind): string {
    if k.Task? then "TASK" else "DECISION"
  }

  /** The validators a stored node passes: a name of 1 to 200 characters, a
      description of at most 2000 and a decision question of at most 500. */
  predicate ValidNode(n: Node) {
    && 1 <= |n.name| <= NodeNameMax
    && (n.description.Some? ==> |n.description.value| <= NodeDescriptionMax)
    && (n.kind.Decision? && n.kind.question.Some? ==> |n.kind.question.value| <= QuestionMax)
  }

  /** The paths the validators can report, one per schema field. */
  datatype NodeField = WorkflowVersionId | NodeType | Name | Description | TaskTypeId | DecisionQuestion

  /** The fields a new document is built from; any of them may be missing,
      and those of the variant not chosen are dropped. */
  datatype NodeBody = NodeBody(
    versionId: Option<Id>,
    nodeType: Option<string>,
    name: Option<string>,
    description: Option<string>,
    x: Option<int>,
    y: Option<int>,
    taskTypeId: Option<Id>,
    taskData: Option<map<string, string>>,
    question: Option<string>)

  /** The paths the validators report for a body; the document saves when
      there are none. The variant's own paths are only checked once the
      discriminator names a known variant. */
  function Problems(b: NodeBody): (r: set<NodeField>)
    ensures WorkflowVersionId in r <==> b.versionId.None?
    ensures NodeType in r <==> !(b.nodeType == Some("TASK") || b.nodeType == Some("DECISION"))
    ensures Name in r <==> b.name.None? || !(1 <= |b.name.value| <= NodeNameMax)
    ensures Description in r <==> b.description.Some? && |b.description.value| > NodeDescriptionMax
    ensures TaskTypeId in r <==> b.nodeType == Some("TASK") && b.taskTypeId.None?
    ensures DecisionQuestion in r <==>
      b.nodeType == Some("DECISION") && b.question.Some? && |b.question.value| > QuestionMax
  {
    (if b.versionId.None? then {WorkflowVersionId} else {})
    + (if b.nodeType == Some("TASK") || b.nodeType == Some("DECISION") then {} else {NodeType})
    + (if b.name.None? || !(1 <= |b.name.value| <= NodeNameMax) then {Name} else {})
    + (if b.description.Some? && |b.description.value| > NodeDescriptionMax then {Description} else {})
    + (if b.nodeType == Some("TASK") && b.taskTypeId.None? then {TaskTypeId} else {})
    + (if b.nodeType == Some("DECISION") && b.question.Some? && |b.question.value| > QuestionMax
       then {DecisionQuestion} else {})
  }

  /** Building and validating a node document: the paths that fail, or the
      node with the positions defaulting to 0 and the task data to empty. */
  function BuildNode(b: NodeBody): (r: Result<Node, set<NodeField>>)
    ensures r.Err? <==> Problems(b) != {}
    ensures r.Err? ==> r.error == Problems(b)
    ensures r.Ok? ==> ValidNode(r.value) && NodeTypeName(r.value.kind) == b.nodeType.value
    ensures r.Ok? ==> r.value.x == b.x.GetOr(0) && r.value.y == b.y.GetOr(0)
    ensures r.Ok? ==>
      && r.value.versionId == b.versionId.value && r.value.name == b.name.value
      && r.value.description == b.description
    ensures r.Ok? && r.value.kind.Task? ==>
      r.value.kind.taskTypeId == b.taskTypeId.value && r.value.kind.taskData == b.taskData.GetOr(map[])
    ensures r.Ok? && r.value.kind.Decision? ==> r.value.kind.question == b.question
  {
    var problems := Problems(b);
    if problems != {} then Err(problems)
    else
      assert WorkflowVersionId !in problems && Name !in problems && TaskTypeId !in problems;
      var kind :=
        if b.nodeType == Some("TASK") then Task(b.taskTypeId.value, b.taskData.GetOr(map[]))
        else Decision(b.question);
      Ok(Node(b.versionId.value, b.name.value, b.description, b.x.GetOr(0), b.y.GetOr(0), kind))
  }

  /** The body that spells a stored node out in full. */
  function BodyOf(n: Node): NodeBody {
    match n.kind
    case Task(t, data) =>
      NodeBody(Some(n.versionId), Some("TASK"), Some(n.name), n.description, Some(n.x), Some(n.y), Some(t), Some(data), None)
    case Decision(q) =>
      NodeBody(Some(n.versionId), Some("DECISION"), Some(n.name), n.description, Some(n.x), Some(n.y), None, None, q)
  }

  /** Every valid node survives being written out and built again. */
  lemma BuildNodeRoundTrip(n: Node)
    requires ValidNode(n)
    ensures BuildNode(BodyOf(n)) == Ok(n)
  {
    assert Problems(BodyOf(n)) == {};
  }

  /** The fields of the variant not chosen play no part: a task body's
      question and a decision body's task fields are dropped. */
  lemma BuildNodeIgnoresOtherVariant(b: NodeBody, taskTypeId: Option<Id>, taskData: Option<map<string, string>>,
                                     question: Option<string>)
    ensures b.nodeType == Some("TASK") ==> BuildNode(b) == BuildNode(b.(question := question))
    ensures b.nodeType == Some("DECISION") ==>
      BuildNode(b) == BuildNode(b.(taskTypeId := taskTypeId, taskData := taskData))
  {
    if b.nodeType == Some("TASK") {
      assert Problems(b) == Problems(b.(question := question));
    } else if b.nodeType == Some("DECISION") {
      assert Problems(b) == Problems(b.(taskTypeId := taskTypeId, taskData := taskData));
    }
  }
}
