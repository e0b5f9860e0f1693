/**
 * The diagram layout: a project tree becomes a flat sequence of positioned
 * nodes and a flat sequence of edges, in three fixed columns.
 *
 * `UseProjectFlow` is the traversal itself, with its running row cursor and
 * the three output lists it appends to. `Layout` is the same result as a
 * function of the tree, written by recursion on the last challenge (and on
 * the last model) so that it matches the loop's progress; the lemmas below
 * give its closed forms: counts, tier order, exact coordinates, edge order.
 */
module ProjectFlow {
  import opened Wrappers
  import opened Models

  const ProjectColumn: int := 0
  const TechnicalChallengeColumn: int := 500
  const BiologicalModelColumn: int := 1000
  const ModelSpacing: int := 120

  /**
   * Edge ids, kept structured: `ProjectChallengeEdgeId(P, C)` stands for the
   * string `project-P-challenge-C`, `ChallengeModelEdgeId(C, M)` for
   * `challenge-C-model-M`.
   */
  datatype EdgeId =
    | ProjectChallengeEdgeId(projectId: int, challengeId: int)
    | ChallengeModelEdgeId(challengeId: int, modelId: int)

  /** A directed edge between two node ids. */
  datatype Edge = Edge(id: EdgeId, source: NodeId, target: NodeId)

  /** The pair of sequences the layout returns. */
  datatype Diagram = Diagram(nodes: seq<AsteriaNode>, edges: seq<Edge>)

  function Max(a: int, b: int): int
  {
    if a < b then b else a
  }

  // ---------------------------------------------------------------------
  // One node or edge per tree entity
  // ---------------------------------------------------------------------

  function ProjectNode(p: Project): AsteriaNode
  {
    AsteriaNode(IdString(p.id), ProjectType, ProjectData(p.id, p.name), ProjectColumn, 0)
  }

  function ChallengeNode(c: TechnicalChallenge, y: int): AsteriaNode
  {
    AsteriaNode(IdString(c.id), TechnicalChallengeType, TechnicalChallengeData(c.id, c.name),
      TechnicalChallengeColumn, y)
  }

  function ModelNode(m: BiologicalModel, y: int): AsteriaNode
  {
    AsteriaNode(IdString(m.id), BiologicalModelType, BiologicalModelData(m.id, m.name),
      BiologicalModelColumn, y)
  }

  function ChallengeEdge(projectId: int, challengeId: int): Edge
  {
    Edge(ProjectChallengeEdgeId(projectId, challengeId), IdString(projectId), IdString(challengeId))
  }

  function ModelEdge(challengeId: int, modelId: int): Edge
  {
    Edge(ChallengeModelEdgeId(challengeId, modelId), IdString(challengeId), IdString(modelId))
  }

  // ---------------------------------------------------------------------
  // Rows
  // ---------------------------------------------------------------------

  /**
   * How far the row cursor moves past a challenge: one row per model, and
   * one row even when the challenge has no model.
   */
  function RowSpan(c: TechnicalChallenge): (r: int)
    ensures r >= ModelSpacing && r >= ModelSpacing * |c.biologicalModels|
  {
    Max(ModelSpacing, |c.biologicalModels| * ModelSpacing)
  }

  /** A challenge takes one row per model, and a single row when it has none. */
  lemma RowSpanRows(c: TechnicalChallenge)
    ensures RowSpan(c) == ModelSpacing * (if |c.biologicalModels| == 0 then 1 else |c.biologicalModels|)
  {
  }

  /** Where the row cursor stands once the challenges `cs` are laid out. */
  function CursorAfter(cs: seq<TechnicalChallenge>): (y: int)
    ensures y >= ModelSpacing * |cs|
  {
    if cs == [] then 0 else CursorAfter(cs[..|cs| - 1]) + RowSpan(cs[|cs| - 1])
  }

  /** The number of models over all challenges of `cs`. */
  function TotalModels(cs: seq<TechnicalChallenge>): nat
  {
    if cs == [] then 0 else TotalModels(cs[..|cs| - 1]) + |cs[|cs| - 1].biologicalModels|
  }

  // ---------------------------------------------------------------------
  // The layout as a function of the tree
  // ---------------------------------------------------------------------

  /** The model nodes of one challenge, stacked downwards from row `y`. */
  function StackedModelNodes(ms: seq<BiologicalModel>, y: int): (r: seq<AsteriaNode>)
    ensures |r| == |ms|
  {
    if ms == [] then []
    else StackedModelNodes(ms[..|ms| - 1], y) + [ModelNode(ms[|ms| - 1], y + ModelSpacing * (|ms| - 1))]
  }

  /** The edges from one challenge to each of its models, in order. */
  function ModelEdges(challengeId: int, ms: seq<BiologicalModel>): (r: seq<Edge>)
    ensures |r| == |ms|
  {
    if ms == [] then []
    else ModelEdges(challengeId, ms[..|ms| - 1]) + [ModelEdge(challengeId, ms[|ms| - 1].id)]
  }

  /** The challenge nodes, each on the row where the cursor stood when it was reached. */
  function ChallengeNodes(cs: seq<TechnicalChallenge>): (r: seq<AsteriaNode>)
    ensures |r| == |cs|
  {
    if cs == [] then []
    else
      var init := cs[..|cs| - 1];
      ChallengeNodes(init) + [ChallengeNode(cs[|cs| - 1], CursorAfter(init))]
  }

  /** The model nodes of all challenges, in traversal order. */
  function ModelNodes(cs: seq<TechnicalChallenge>): (r: seq<AsteriaNode>)
    ensures |r| == TotalModels(cs)
  {
    if cs == [] then []
    else
      var init := cs[..|cs| - 1];
      ModelNodes(init) + StackedModelNodes(cs[|cs| - 1].biologicalModels, CursorAfter(init))
  }

  /** The edges in traversal order: per challenge, its project edge, then its model edges. */
  function Edges(projectId: int, cs: seq<TechnicalChallenge>): (r: seq<Edge>)
    ensures |r| == |cs| + TotalModels(cs)
  {
    if cs == [] then []
    else
      var c := cs[|cs| - 1];
      Edges(projectId, cs[..|cs| - 1]) + [ChallengeEdge(projectId, c.id)] + ModelEdges(c.id, c.biologicalModels)
  }

  /** The nodes in tier order: the project, all challenges, all models. */
  function Nodes(p: Project): seq<AsteriaNode>
  {
    [ProjectNode(p)] + ChallengeNodes(p.technicalChallenges) + ModelNodes(p.technicalChallenges)
  }

  /** The diagram of an optional project; no project gives an empty diagram. */
  function Layout(project: Option<Project>): (d: Diagram)
    ensures project.None? ==> d.nodes == [] && d.edges == []
    ensures project.Some? ==>
              var cs := project.value.technicalChallenges;
              && |d.nodes| == 1 + |cs| + TotalModels(cs)
              && |d.edges| == |cs| + TotalModels(cs)
  {
    match project
    case None => Diagram([], [])
    case Some(p) => Diagram(Nodes(p), Edges(p.id, p.technicalChallenges))
  }

  /** Laying out one more challenge moves the cursor on by that challenge's span. */
  lemma CursorStep(cs: seq<TechnicalChallenge>, i: nat)
    requires i < |cs|
    ensures CursorAfter(cs[..i + 1]) == CursorAfter(cs[..i]) + RowSpan(cs[i])
    ensures TotalModels(cs[..i + 1]) == TotalModels(cs[..i]) + |cs[i].biologicalModels|
  {
    assert cs[..i + 1][..i] == cs[..i];
  }

  /** Laying out one more challenge appends its node, on the cursor's row. */
  lemma ChallengeNodesStep(cs: seq<TechnicalChallenge>, i: nat)
    requires i < |cs|
    ensures ChallengeNodes(cs[..i + 1]) == ChallengeNodes(cs[..i]) + [ChallengeNode(cs[i], CursorAfter(cs[..i]))]
  {
    assert cs[..i + 1][..i] == cs[..i];
  }

  /** Laying out one more challenge appends its models, stacked from the cursor's row. */
  lemma ModelNodesStep(cs: seq<TechnicalChallenge>, i: nat)
    requires i < |cs|
    ensures ModelNodes(cs[..i + 1])
            == ModelNodes(cs[..i]) + StackedModelNodes(cs[i].biologicalModels, CursorAfter(cs[..i]))
  {
    assert cs[..i + 1][..i] == cs[..i];
  }

  /** Laying out one more challenge appends its project edge, then its model edges. */
  lemma EdgesStep(projectId: int, cs: seq<TechnicalChallenge>, i: nat)
    requires i < |cs|
    ensures Edges(projectId, cs[..i + 1])
            == Edges(projectId, cs[..i]) + [ChallengeEdge(projectId, cs[i].id)]
               + ModelEdges(cs[i].id, cs[i].biologicalModels)
  {
    assert cs[..i + 1][..i] == cs[..i];
  }

  /** Stacking one more model extends the model nodes and the model edges by one each. */
  lemma StackStep(challengeId: int, ms: seq<BiologicalModel>, y: int, j: nat)
    requires j < |ms|
    ensures StackedModelNodes(ms[..j + 1], y) == StackedModelNodes(ms[..j], y) + [ModelNode(ms[j], y + ModelSpacing * j)]
    ensures ModelEdges(challengeId, ms[..j + 1]) == ModelEdges(challengeId, ms[..j]) + [ModelEdge(challengeId, ms[j].id)]
  {
    assert ms[..j + 1][..j] == ms[..j];
  }

  // ---------------------------------------------------------------------
  // The traversal
  // ---------------------------------------------------------------------

  /**
   * Walks the challenges in order with a row cursor that starts at 0; each
   * challenge is placed on the cursor's row, its models below one another
   * from that row, and the cursor then moves on by the challenge's span.
   */
  method UseProjectFlow(project: Option<Project>) returns (nodes: seq<AsteriaNode>, edges: seq<Edge>)
    ensures Diagram(nodes, edges) == Layout(project)
  {
    if project.None? {
      return [], [];
    }
    var p := project.value;
    var projectNode := ProjectNode(p);
    var currentY := 0;
    var technicalChallenges: seq<AsteriaNode> := [];
    var biologicalModels: seq<AsteriaNode> := [];
    edges := [];

    var cs := p.technicalChallenges;
    var i := 0;
    while i < |cs|
      invariant 0 <= i <= |cs|
      invariant currentY == CursorAfter(cs[..i])
      invariant technicalChallenges == ChallengeNodes(cs[..i])
      invariant biologicalModels == ModelNodes(cs[..i])
      invariant edges == Edges(p.id, cs[..i])
    {
      var challenge := cs[i];
      technicalChallenges := technicalChallenges + [ChallengeNode(challenge, currentY)];
      edges := edges + [ChallengeEdge(p.id, challenge.id)];

      var modelY := currentY;
      var ms := challenge.biologicalModels;
      var j := 0;
      while j < |ms|
        invariant 0 <= j <= |ms|
        invariant modelY == currentY + ModelSpacing * j
        invariant biologicalModels == ModelNodes(cs[..i]) + StackedModelNodes(ms[..j], currentY)
        invariant edges == Edges(p.id, cs[..i]) + [ChallengeEdge(p.id, challenge.id)]
                           + ModelEdges(challenge.id, ms[..j])
      {
        StackStep(challenge.id, ms, currentY, j);
        biologicalModels := biologicalModels + [ModelNode(ms[j], modelY)];
        edges := edges + [ModelEdge(challenge.id, ms[j].id)];
        modelY := modelY + ModelSpacing;
        j := j + 1;
      }
      assert ms[..j] == ms;
      CursorStep(cs, i);
      ChallengeNodesStep(cs, i);
      ModelNodesStep(cs, i);
      EdgesStep(p.id, cs, i);
      currentY := currentY + Max(ModelSpacing, |ms| * ModelSpacing);
      i := i + 1;
    }
    assert cs[..i] == cs;
    nodes := [projectNode] + technicalChallenges + biologicalModels;
  }
}
