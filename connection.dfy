/** The Connection record: a directed edge between two nodes of a workflow
    version's graph, with the hook that refuses self-loops and the unique
    index on the ordered (from, to) pair. */
module ConnectionModel {
  import opened Common

  const LabelMax := 100

  datatype Connection = Connection(
    id: Id,
    versionId: Id,
    from: Id,
    to: Id,
    edgeLabel: Option<string>)

  /** The paths the validators can report, one per schema field. */
  datatype ConnectionField = WorkflowVersionId | FromNodeId | ToNodeId | Label

  /** The fields a new document is built from; any of them may be missing. */
  datatype ConnectionBody = ConnectionBody(
    versionId: Option<Id>,
    from: Option<Id>,
    to: Option<Id>,
    edgeLabel: Option<string>)

  /** Why a save is refused, in the order the save checks. */
  datatype SaveError =
    | Invalid(paths: set<ConnectionField>)   // the validators reported these paths
    | SelfLoop                      // the pre-save hook
    | DuplicatePair                 // the unique index on (from, to)

  /** The paths the validators report: the three ids are required and the
      label is at most 100 characters. */
  function ConnectionProblems(b: ConnectionBody): (r: set<ConnectionField>)
    ensures WorkflowVersionId in r <==> b.versionId.None?
    ensures FromNodeId in r <==> b.from.None?
    ensures ToNodeId in r <==> b.to.None?
    ensures Label in r <==> b.edgeLabel.Some? && |b.edgeLabel.value| > LabelMax
    ensures r <= {WorkflowVersionId, FromNodeId, ToNodeId, Label}
  {
    (if b.versionId.None? then {WorkflowVersionId} else {})
    + (if b.from.None? then {FromNodeId} else {})
    + (if b.to.None? then {ToNodeId} else {})
    + (if b.edgeLabel.Some? && |b.edgeLabel.value| > LabelMax then {Label} else {})
  }

  /** A stored edge: its label fits and it does not loop. */
  predicate ValidConnection(c: Connection) {
    && (c.edgeLabel.Some? ==> |c.edgeLabel.value| <= LabelMax)
    && c.from != c.to
  }

  /** No stored edge leads from a node to itself. */
  predicate NoSelfLoops(cs: seq<Connection>) {
    forall i :: 0 <= i < |cs| ==> ValidConnection(cs[i])
  }

  /** Some stored edge joins `from` to `to` in that direction. */
  predicate HasPair(cs: seq<Connection>, from: Id, to: Id) {
    exists i :: 0 <= i < |cs| && cs[i].from == from && cs[i].to == to
  }

  /** Edges `i` and `j` join the same ordered pair. */
  predicate SamePair(cs: seq<Connection>, i: int, j: int)
    requires 0 <= i < |cs| && 0 <= j < |cs|
  {
    cs[i].from == cs[j].from && cs[i].to == cs[j].to
  }

  /** The unique index on (from_node_id, to_node_id). */
  predicate UniquePairs(cs: seq<Connection>) {
    forall i, j :: 0 <= i < j < |cs| ==> !SamePair(cs, i, j)
  }

  /** `save()` of a new connection under the id `id`: validation first, then
      the self-loop hook, then the unique index; a save that passes all three
      appends the edge. */
  function SaveConnection(cs: seq<Connection>, id: Id, b: ConnectionBody): (r: Result<seq<Connection>, SaveError>)
    ensures r.Ok? <==>
      ConnectionProblems(b) == {} && b.from.value != b.to.value && !HasPair(cs, b.from.value, b.to.value)
    ensures r.Ok? ==> r.value == cs + [Connection(id, b.versionId.value, b.from.value, b.to.value, b.edgeLabel)]
    ensures r.Ok? ==> ValidConnection(r.value[|cs|])
    ensures ConnectionProblems(b) != {} ==> r == Err(Invalid(ConnectionProblems(b)))
    ensures r == Err(SelfLoop) <==> ConnectionProblems(b) == {} && b.from.value == b.to.value
  {
    var problems := ConnectionProblems(b);
    if problems != {} then Err(Invalid(problems))
    else
      assert FromNodeId !in problems && ToNodeId !in problems && WorkflowVersionId !in problems;
      if b.from.value == b.to.value then Err(SelfLoop)
      else if exists i :: 0 <= i < |cs| && cs[i].from == b.from.value && cs[i].to == b.to.value then Err(DuplicatePair)
      else Ok(cs + [Connection(id, b.versionId.value, b.from.value, b.to.value, b.edgeLabel)])
  }

  /** A valid body for a new pair is refused as a duplicate exactly when the
      ordered pair is already stored; the reverse direction is a different
      pair. */
  lemma DuplicateRejected(cs: seq<Connection>, id: Id, b: ConnectionBody)
    requires ConnectionProblems(b) == {}
    ensures SaveConnection(cs, id, b) == Err(DuplicatePair) <==>
      b.from.value != b.to.value && HasPair(cs, b.from.value, b.to.value)
  {
  }

  /** Saving keeps the collection free of self-loops and of repeated pairs. */
  lemma SaveConnectionKeeps(cs: seq<Connection>, id: Id, b: ConnectionBody)
    requires NoSelfLoops(cs) && UniquePairs(cs)
    requires SaveConnection(cs, id, b).Ok?
    ensures NoSelfLoops(SaveConnection(cs, id, b).value)
    ensures UniquePairs(SaveConnection(cs, id, b).value)
  {
    var cs' := SaveConnection(cs, id, b).value;
    forall i, j | 0 <= i < j < |cs'| ensures !SamePair(cs', i, j) {
      if j < |cs| {
        assert !SamePair(cs, i, j);
      } else {
        assert cs'[i] == cs[i];
      }
    }
  }

  /** The body that spells a stored edge out in full. */
  function ConnectionBodyOf(c: Connection): ConnectionBody {
    ConnectionBody(Some(c.versionId), Some(c.from), Some(c.to), c.edgeLabel)
  }

  /** Any valid edge whose pair is new saves as itself. */
  lemma SaveConnectionRoundTrip(cs: seq<Connection>, c: Connection)
    requires ValidConnection(c) && !HasPair(cs, c.from, c.to)
    ensures SaveConnection(cs, c.id, ConnectionBodyOf(c)) == Ok(cs + [c])
  {
    assert ConnectionProblems(ConnectionBodyOf(c)) == {};
  }
}
