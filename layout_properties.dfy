/**
 * What the layout promises, stated on the diagram `Layout` returns (which
 * `UseProjectFlow` computes): counts and tier order, exact columns and rows,
 * no vertical overlap between challenges, edge order, and edges that only
 * join emitted nodes.
 */
module LayoutProperties {
  import opened Wrappers
  import opened Models
  import opened ProjectFlow

  /** The ids of a sequence of nodes. */
  function NodeIds(ns: seq<AsteriaNode>): set<NodeId>
  {
    set n | n in ns :: n.id
  }

  /** Index of the `j`-th model node of challenge `k` within the layout's nodes. */
  function ModelIndex(p: Project, k: nat, j: nat): nat
    requires k <= |p.technicalChallenges|
  {
    1 + |p.technicalChallenges| + TotalModels(p.technicalChallenges[..k]) + j
  }

  /** Index of the project edge of challenge `k` within the layout's edges. */
  function ChallengeEdgeIndex(p: Project, k: nat): nat
    requires k <= |p.technicalChallenges|
  {
    k + TotalModels(p.technicalChallenges[..k])
  }

  // ---------------------------------------------------------------------
  // Closed forms of the recursive definitions
  // ---------------------------------------------------------------------


  /** The `j`-th stacked model node is `j` spacings below the starting row. */
  lemma {:induction false} StackedModelNodeAt(ms: seq<BiologicalModel>, y: int, j: nat)
    requires j < |ms|
    ensures StackedModelNodes(ms, y)[j] == ModelNode(ms[j], y + ModelSpacing * j)
  {
    if j < |ms| - 1 {
      var init := ms[..|ms| - 1];
      StackedModelNodeAt(init, y, j);
    }
  }

  lemma {:induction false} ModelEdgeAt(challengeId: int, ms: seq<BiologicalModel>, j: nat)
    requires j < |ms|
    ensures ModelEdges(challengeId, ms)[j] == ModelEdge(challengeId, ms[j].id)
  {
    if j < |ms| - 1 {
      ModelEdgeAt(challengeId, ms[..|ms| - 1], j);
    }
  }

  /** Challenge `k` is placed on the row the cursor reached after the challenges before it. */
  lemma {:induction false} ChallengeNodeAt(cs: seq<TechnicalChallenge>, k: nat)
    requires k < |cs|
    ensures ChallengeNodes(cs)[k] == ChallengeNode(cs[k], CursorAfter(cs[..k]))
  {
    var init := cs[..|cs| - 1];
    if k < |cs| - 1 {
      ChallengeNodeAt(init, k);
      assert init[..k] == cs[..k];
    }
  }

  lemma {:induction false} ModelNodesPrefix(cs: seq<TechnicalChallenge>, k: nat)
    requires k <= |cs|
    ensures ModelNodes(cs[..k]) <= ModelNodes(cs)
  {
    if k == |cs| {
      assert cs[..k] == cs;
    } else {
      var init := cs[..|cs| - 1];
      ModelNodesPrefix(init, k);
      assert init[..k] == cs[..k];
    }
  }

  lemma {:induction false} EdgesPrefix(projectId: int, cs: seq<TechnicalChallenge>, k: nat)
    requires k <= |cs|
    ensures Edges(projectId, cs[..k]) <= Edges(projectId, cs)
  {
    if k == |cs| {
      assert cs[..k] == cs;
    } else {
      var init := cs[..|cs| - 1];
      EdgesPrefix(projectId, init, k);
      assert init[..k] == cs[..k];
    }
  }

  /** Challenge `k`'s stacked models follow the model nodes of the challenges before it. */
  lemma ModelNodesOfChallenge(cs: seq<TechnicalChallenge>, k: nat, j: nat)
    requires k < |cs| && j < |cs[k].biologicalModels|
    ensures |ModelNodes(cs[..k])| + j < |ModelNodes(cs)|
    ensures ModelNodes(cs)[|ModelNodes(cs[..k])| + j]
            == StackedModelNodes(cs[k].biologicalModels, CursorAfter(cs[..k]))[j]
  {
    var stacked := StackedModelNodes(cs[k].biologicalModels, CursorAfter(cs[..k]));
    ModelNodesPrefix(cs, k + 1);
    ModelNodesStep(cs, k);
    PrefixAt(ModelNodes(cs), ModelNodes(cs[..k + 1]), ModelNodes(cs[..k]), stacked, j);
  }

  /** The `j`-th model of challenge `k`, in the model tier. */
  lemma ModelNodeAt(cs: seq<TechnicalChallenge>, k: nat, j: nat)
    requires k < |cs| && j < |cs[k].biologicalModels|
    ensures TotalModels(cs[..k]) + j < TotalModels(cs)
    ensures ModelNodes(cs)[TotalModels(cs[..k]) + j]
            == ModelNode(cs[k].biologicalModels[j], CursorAfter(cs[..k]) + ModelSpacing * j)
  {
    var before := ModelNodes(cs[..k]);
    var y := CursorAfter(cs[..k]);
    ModelNodesOfChallenge(cs, k, j);
    StackedModelNodeAt(cs[k].biologicalModels, y, j);
    assert |before| == TotalModels(cs[..k]);
    assert ModelNodes(cs)[|before| + j] == ModelNode(cs[k].biologicalModels[j], y + ModelSpacing * j);
  }

  /** Every node of the model tier is a well-formed model node in the model column. */
  lemma {:induction false} ModelTier(cs: seq<TechnicalChallenge>)
    ensures forall n :: n in ModelNodes(cs) ==>
              n.kind == BiologicalModelType && n.x == BiologicalModelColumn && n.WellFormed()
  {
    if cs != [] {
      var init := cs[..|cs| - 1];
      var ms := cs[|cs| - 1].biologicalModels;
      var stacked := StackedModelNodes(ms, CursorAfter(init));
      ModelTier(init);
      forall n | n in stacked
        ensures n.kind == BiologicalModelType && n.x == BiologicalModelColumn && n.WellFormed()
      {
        var j :| 0 <= j < |stacked| && stacked[j] == n;
        StackedModelNodeAt(ms, CursorAfter(init), j);
      }
    }
  }

  /** The row cursor only moves down, by at least a full span per challenge. */
  lemma {:induction false} CursorMovesDown(cs: seq<TechnicalChallenge>, k: nat, l: nat)
    requires k < l <= |cs|
    ensures CursorAfter(cs[..k]) + RowSpan(cs[k]) <= CursorAfter(cs[..l])
  {
    assert cs[..l][..l - 1] == cs[..l - 1];
    if l == k + 1 {
    } else {
      CursorMovesDown(cs, k, l - 1);
    }
  }

  // ---------------------------------------------------------------------
  // Nodes
  // ---------------------------------------------------------------------

  /**
   * The project node comes first, at the origin; then one challenge node per
   * challenge, in the challenge column; then the model nodes, in the model
   * column. Every node's kind agrees with its data and its id is its data's.
   */
  lemma LayoutTiers(p: Project)
    ensures var ns := Layout(Some(p)).nodes; var c := |p.technicalChallenges|;
            && ns[0] == AsteriaNode(IdString(p.id), ProjectType, ProjectData(p.id, p.name), ProjectColumn, 0)
            && (forall i :: 1 <= i <= c ==>
                  ns[i].kind == TechnicalChallengeType && ns[i].x == TechnicalChallengeColumn)
            && (forall i :: c < i < |ns| ==>
                  ns[i].kind == BiologicalModelType && ns[i].x == BiologicalModelColumn)
            && (forall i :: 0 <= i < |ns| ==> ns[i].WellFormed())
  {
    var cs := p.technicalChallenges;
    var ns := Layout(Some(p)).nodes;
    var pre := [ProjectNode(p)] + ChallengeNodes(cs);
    assert ns == pre + ModelNodes(cs);
    forall i | 1 <= i <= |cs|
      ensures ns[i] == ChallengeNode(cs[i - 1], CursorAfter(cs[..i - 1]))
    {
      ChallengeNodeAt(cs, i - 1);
    }
    ModelTier(cs);
    forall i | |cs| < i < |ns|
      ensures ns[i] in ModelNodes(cs)
    {
      IndexPastPrefix(pre, ModelNodes(cs), i - |pre|);
    }
  }

  /** Challenge `k` sits in the challenge column on the row where the cursor stood. */
  lemma LayoutChallengeNode(p: Project, k: nat)
    requires k < |p.technicalChallenges|
    ensures var ns := Layout(Some(p)).nodes; var c := p.technicalChallenges[k];
            && ns[1 + k] == AsteriaNode(IdString(c.id), TechnicalChallengeType,
                 TechnicalChallengeData(c.id, c.name), TechnicalChallengeColumn,
                 CursorAfter(p.technicalChallenges[..k]))
  {
    ChallengeNodeAt(p.technicalChallenges, k);
  }

  /** Model `j` of challenge `k` sits in the model column, `j` rows below its challenge. */
  lemma LayoutModelNode(p: Project, k: nat, j: nat)
    requires k < |p.technicalChallenges| && j < |p.technicalChallenges[k].biologicalModels|
    ensures var ns := Layout(Some(p)).nodes; var m := p.technicalChallenges[k].biologicalModels[j];
            && ModelIndex(p, k, j) < |ns|
            && ns[ModelIndex(p, k, j)] == AsteriaNode(IdString(m.id), BiologicalModelType,
                 BiologicalModelData(m.id, m.name), BiologicalModelColumn,
                 CursorAfter(p.technicalChallenges[..k]) + ModelSpacing * j)
  {
    var cs := p.technicalChallenges;
    var ns := Layout(Some(p)).nodes;
    var mns := ModelNodes(cs);
    ModelNodeAt(cs, k, j);
    var idx := TotalModels(cs[..k]) + j;
    assert ModelIndex(p, k, j) == 1 + |cs| + idx;
    assert ns == [ProjectNode(p)] + ChallengeNodes(cs) + mns;
    assert |[ProjectNode(p)] + ChallengeNodes(cs)| == 1 + |cs|;
    IndexPastPrefix([ProjectNode(p)] + ChallengeNodes(cs), mns, idx);
  }

  /** When `before + rest` is a prefix of `s`, the `j`-th element of `rest` sits in `s` right after `before`. */
  lemma PrefixAt<T>(s: seq<T>, prefix: seq<T>, before: seq<T>, rest: seq<T>, j: nat)
    requires prefix <= s && prefix == before + rest && j < |rest|
    ensures |before| + j < |s| && s[|before| + j] == rest[j]
  {
    assert prefix[|before| + j] == rest[j];
  }

  /** Where a prefix of `s` ends in `before`, `x`, `rest`, those sit at matching places in `s`. */
  lemma PrefixSplit<T>(s: seq<T>, prefix: seq<T>, before: seq<T>, x: T, rest: seq<T>)
    requires prefix <= s && prefix == before + [x] + rest
    ensures |before| + |rest| < |s|
    ensures s[|before|] == x
    ensures forall j :: 0 <= j < |rest| ==> s[|before| + 1 + j] == rest[j]
  {
    assert forall j :: 0 <= j < |rest| ==> prefix[|before| + 1 + j] == rest[j];
  }

  lemma IndexPastPrefix<T>(a: seq<T>, b: seq<T>, i: nat)
    requires i < |b|
    ensures (a + b)[|a| + i] == b[i]
  {
  }

  /** The first challenge is on row 0. */
  lemma FirstChallengeOnTop(p: Project)
    requires |p.technicalChallenges| > 0
    ensures Layout(Some(p)).nodes[1].y == 0
  {
    LayoutChallengeNode(p, 0);
  }

  /**
   * A challenge is aligned with its first model, and consecutive models of
   * one challenge are exactly one spacing apart.
   */
  lemma ModelsStackedUnderChallenge(p: Project, k: nat, j: nat)
    requires k < |p.technicalChallenges| && j < |p.technicalChallenges[k].biologicalModels|
    ensures var ns := Layout(Some(p)).nodes;
            && ModelIndex(p, k, j) < |ns|
            && (j == 0 ==> ns[ModelIndex(p, k, 0)].y == ns[1 + k].y)
            && (j > 0 ==> ns[ModelIndex(p, k, j)].y == ns[ModelIndex(p, k, j - 1)].y + ModelSpacing)
  {
    LayoutChallengeNode(p, k);
    LayoutModelNode(p, k, j);
    if j > 0 {
      LayoutModelNode(p, k, j - 1);
    }
  }

  /** Challenge rows strictly increase along the traversal. */
  lemma ChallengeRowsIncrease(p: Project, k: nat, l: nat)
    requires k < l < |p.technicalChallenges|
    ensures var ns := Layout(Some(p)).nodes; ns[1 + k].y < ns[1 + l].y
  {
    LayoutChallengeNode(p, k);
    LayoutChallengeNode(p, l);
    CursorMovesDown(p.technicalChallenges, k, l);
  }

  /**
   * Every model of challenge `k` lies in the band of rows from the
   * challenge's own row up to (not including) where the cursor lands after
   * it; a later challenge and its models lie at or below that point.
   */
  lemma ModelsWithinChallengeBand(p: Project, k: nat, j: nat)
    requires k < |p.technicalChallenges| && j < |p.technicalChallenges[k].biologicalModels|
    ensures var ns := Layout(Some(p)).nodes; var cs := p.technicalChallenges;
            && ModelIndex(p, k, j) < |ns|
            && CursorAfter(cs[..k]) <= ns[ModelIndex(p, k, j)].y < CursorAfter(cs[..k + 1])
  {
    var cs := p.technicalChallenges;
    LayoutModelNode(p, k, j);
    CursorMovesDown(cs, k, k + 1);
  }

  /** No vertical overlap: everything of challenge `k` is above everything of a later challenge `l`. */
  lemma NoVerticalOverlap(p: Project, k: nat, j: nat, l: nat, i: nat)
    requires k < l < |p.technicalChallenges|
    requires j < |p.technicalChallenges[k].biologicalModels|
    requires i < |p.technicalChallenges[l].biologicalModels|
    ensures var ns := Layout(Some(p)).nodes;
            && ModelIndex(p, k, j) < |ns| && ModelIndex(p, l, i) < |ns|
            && ns[ModelIndex(p, k, j)].y < ns[1 + l].y <= ns[ModelIndex(p, l, i)].y
  {
    var cs := p.technicalChallenges;
    ModelsWithinChallengeBand(p, k, j);
    LayoutModelNode(p, l, i);
    LayoutChallengeNode(p, l);
    CursorMovesDown(cs, k, l);
    assert cs[..k + 1][..k] == cs[..k];
  }

  // ---------------------------------------------------------------------
  // Edges
  // ---------------------------------------------------------------------

  /**
   * Edges come in traversal order: challenge `k`'s edge from the project,
   * then its model edges (see `LayoutModelEdge`), and then challenge `k + 1`'s
   * edge from the project.
   */
  lemma LayoutChallengeEdge(p: Project, k: nat)
    requires k < |p.technicalChallenges|
    ensures var es := Layout(Some(p)).edges; var c := p.technicalChallenges[k];
            var e0 := ChallengeEdgeIndex(p, k);
            && e0 + |c.biologicalModels| < |es|
            && es[e0] == Edge(ProjectChallengeEdgeId(p.id, c.id), IdString(p.id), IdString(c.id))
            && (k + 1 < |p.technicalChallenges| ==> ChallengeEdgeIndex(p, k + 1) == e0 + 1 + |c.biologicalModels|)
  {
    var cs := p.technicalChallenges;
    var c := cs[k];
    EdgesStep(p.id, cs, k);
    EdgesPrefix(p.id, cs, k + 1);
    PrefixSplit(Edges(p.id, cs), Edges(p.id, cs[..k + 1]), Edges(p.id, cs[..k]),
      ChallengeEdge(p.id, c.id), ModelEdges(c.id, c.biologicalModels));
    CursorStep(cs, k);
  }

  /** The `j`-th edge after challenge `k`'s project edge joins `k` to its `j`-th model. */
  lemma LayoutModelEdge(p: Project, k: nat, j: nat)
    requires k < |p.technicalChallenges| && j < |p.technicalChallenges[k].biologicalModels|
    ensures var es := Layout(Some(p)).edges; var c := p.technicalChallenges[k]; var m := c.biologicalModels[j];
            var e := ChallengeEdgeIndex(p, k) + 1 + j;
            && e < |es|
            && es[e] == Edge(ChallengeModelEdgeId(c.id, m.id), IdString(c.id), IdString(m.id))
  {
    var cs := p.technicalChallenges;
    var c := cs[k];
    var mes := ModelEdges(c.id, c.biologicalModels);
    EdgesStep(p.id, cs, k);
    EdgesPrefix(p.id, cs, k + 1);
    PrefixSplit(Edges(p.id, cs), Edges(p.id, cs[..k + 1]), Edges(p.id, cs[..k]),
      ChallengeEdge(p.id, c.id), mes);
    ModelEdgeAt(c.id, c.biologicalModels, j);
  }

  /** Laying out one more challenge keeps every earlier node and adds the new challenge and its models. */
  lemma NodeIdsGrow(p: Project, cs: seq<TechnicalChallenge>)
    requires cs != []
    ensures var init := cs[..|cs| - 1]; var c := cs[|cs| - 1]; var ids := NodeIds(Nodes(p.(technicalChallenges := cs)));
            && NodeIds(Nodes(p.(technicalChallenges := init))) <= ids
            && IdString(p.id) in ids
            && IdString(c.id) in ids
            && forall j :: 0 <= j < |c.biologicalModels| ==> IdString(c.biologicalModels[j].id) in ids
  {
    var init := cs[..|cs| - 1];
    var c := cs[|cs| - 1];
    var y := CursorAfter(init);
    var stacked := StackedModelNodes(c.biologicalModels, y);
    assert ChallengeNodes(cs) == ChallengeNodes(init) + [ChallengeNode(c, y)];
    assert ModelNodes(cs) == ModelNodes(init) + stacked;
    var big := Nodes(p.(technicalChallenges := cs));
    forall n | n in Nodes(p.(technicalChallenges := init)) ensures n in big {
    }
    assert ProjectNode(p) in big;
    assert ChallengeNode(c, y) in big;
    forall j | 0 <= j < |c.biologicalModels|
      ensures IdString(c.biologicalModels[j].id) in NodeIds(big)
    {
      StackedModelNodeAt(c.biologicalModels, y, j);
      assert stacked[j] in big;
    }
  }

  lemma {:induction false} EdgeEndpointsIn(p: Project, cs: seq<TechnicalChallenge>)
    ensures var ids := NodeIds(Nodes(p.(technicalChallenges := cs)));
            forall e :: e in Edges(p.id, cs) ==> e.source in ids && e.target in ids
  {
    if cs != [] {
      var init := cs[..|cs| - 1];
      var c := cs[|cs| - 1];
      EdgeEndpointsIn(p, init);
      NodeIdsGrow(p, cs);
      var mes := ModelEdges(c.id, c.biologicalModels);
      assert Edges(p.id, cs) == Edges(p.id, init) + [ChallengeEdge(p.id, c.id)] + mes;
      forall e | e in mes
        ensures e.source == IdString(c.id)
        ensures exists j :: 0 <= j < |c.biologicalModels| && e.target == IdString(c.biologicalModels[j].id)
      {
        var j :| 0 <= j < |mes| && mes[j] == e;
        ModelEdgeAt(c.id, c.biologicalModels, j);
      }
    }
  }

  /** Every edge joins two nodes the layout emits. */
  lemma EdgeEndpointsAreNodes(project: Option<Project>)
    ensures var d := Layout(project);
            forall e :: e in d.edges ==> e.source in NodeIds(d.nodes) && e.target in NodeIds(d.nodes)
  {
    if project.Some? {
      EdgeEndpointsIn(project.value, project.value.technicalChallenges);
      assert project.value.(technicalChallenges := project.value.technicalChallenges) == project.value;
    }
  }

  // ---------------------------------------------------------------------
  // A worked example
  // ---------------------------------------------------------------------

  /** Project 42 with challenge 101 (models 201, 202) and challenge 102 (model 203). */
  function SampleProject(): Project
  {
    Project(42, "Artificial Photosynthesis System", [
      TechnicalChallenge(101, "Light harvesting", [
        BiologicalModel(201, "Synthetic pigments"),
        BiologicalModel(202, "Quantum dot arrays")]),
      TechnicalChallenge(102, "Water oxidation", [
        BiologicalModel(203, "Manganese-calcium complex")])])
  }

  /**
   * The sample lays out as six nodes and five edges: the project, both
   * challenges (rows 0 and 240), and the three models (rows 0, 120, 240).
   */
  lemma SampleLayout()
    ensures var p := SampleProject(); var d := Layout(Some(p));
            var c1 := p.technicalChallenges[0]; var c2 := p.technicalChallenges[1];
            && d.nodes == [
                 ProjectNode(p),
                 ChallengeNode(c1, 0), ChallengeNode(c2, 240),
                 ModelNode(c1.biologicalModels[0], 0), ModelNode(c1.biologicalModels[1], 120),
                 ModelNode(c2.biologicalModels[0], 240)]
            && d.edges == [
                 ChallengeEdge(42, 101), ModelEdge(101, 201), ModelEdge(101, 202),
                 ChallengeEdge(42, 102), ModelEdge(102, 203)]
  {
    var p := SampleProject();
    var cs := p.technicalChallenges;
    assert cs[..1] == [cs[0]];
    assert cs[..0] == [];
    assert CursorAfter(cs[..1]) == 240;
  }
}
