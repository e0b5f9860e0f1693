/**
 * The data shapes of the diagram: the project tree (project -> technical
 * challenges -> biological models) and the data a diagram node carries.
 * Numbers are modelled as `int`, strings as `seq<char>`.
 */
module Models {
  import opened Wrappers

  // ---------------------------------------------------------------------
  // The project tree
  // ---------------------------------------------------------------------

  datatype BiologicalModel = BiologicalModel(id: int, name: string)

  /** A challenge owns an ordered sequence of models. */
  datatype TechnicalChallenge = TechnicalChallenge(
    id: int,
    name: string,
    biologicalModels: seq<BiologicalModel>)

  /** A project owns an ordered sequence of challenges. */
  datatype Project = Project(
    id: int,
    name: string,
    technicalChallenges: seq<TechnicalChallenge>)

  /**
   * The same three records as they arrive before the schema fills in its
   * defaults: `name` may be missing, every other field is present.
   */
  datatype RawBiologicalModel = RawBiologicalModel(id: int, name: Option<string>)

  datatype RawTechnicalChallenge = RawTechnicalChallenge(
    id: int,
    name: Option<string>,
    biologicalModels: seq<RawBiologicalModel>)

  datatype RawProject = RawProject(
    id: int,
    name: Option<string>,
    technicalChallenges: seq<RawTechnicalChallenge>)

  /** A missing name defaults to the empty string. */
  function NameOrDefault(name: Option<string>): string
  {
    match name
    case Some(s) => s
    case None => ""
  }

  function ParseBiologicalModel(raw: RawBiologicalModel): (m: BiologicalModel)
    ensures m.id == raw.id
    ensures raw.name.None? ==> m.name == ""
    ensures raw.name.Some? ==> m.name == raw.name.value
  {
    BiologicalModel(raw.id, NameOrDefault(raw.name))
  }

  function ParseTechnicalChallenge(raw: RawTechnicalChallenge): (c: TechnicalChallenge)
    ensures c.id == raw.id
    ensures raw.name.None? ==> c.name == ""
    ensures raw.name.Some? ==> c.name == raw.name.value
    ensures |c.biologicalModels| == |raw.biologicalModels|
    ensures forall j :: 0 <= j < |raw.biologicalModels| ==>
              c.biologicalModels[j] == ParseBiologicalModel(raw.biologicalModels[j])
  {
    var ms := raw.biologicalModels;
    TechnicalChallenge(raw.id, NameOrDefault(raw.name),
      seq(|ms|, j requires 0 <= j < |ms| => ParseBiologicalModel(ms[j])))
  }

  /** Applies the schema defaults to a whole tree, keeping its shape and order. */
  function ParseProject(raw: RawProject): (p: Project)
    ensures p.id == raw.id
    ensures raw.name.None? ==> p.name == ""
    ensures raw.name.Some? ==> p.name == raw.name.value
    ensures |p.technicalChallenges| == |raw.technicalChallenges|
    ensures forall i :: 0 <= i < |raw.technicalChallenges| ==>
              p.technicalChallenges[i] == ParseTechnicalChallenge(raw.technicalChallenges[i])
  {
    var cs := raw.technicalChallenges;
    Project(raw.id, NameOrDefault(raw.name),
      seq(|cs|, i requires 0 <= i < |cs| => ParseTechnicalChallenge(cs[i])))
  }

  /** A tree written out with every name present. */
  function UnparseProject(p: Project): RawProject
  {
    var cs := p.technicalChallenges;
    RawProject(p.id, Some(p.name),
      seq(|cs|, i requires 0 <= i < |cs| =>
        RawTechnicalChallenge(cs[i].id, Some(cs[i].name),
          seq(|cs[i].biologicalModels|, j requires 0 <= j < |cs[i].biologicalModels| =>
            RawBiologicalModel(cs[i].biologicalModels[j].id, Some(cs[i].biologicalModels[j].name))))))
  }

  /** Reading back a tree whose names are all present loses nothing. */
  lemma ParseUnparse(p: Project)
    ensures ParseProject(UnparseProject(p)) == p
  {
    var raw := UnparseProject(p);
    var q := ParseProject(raw);
    var cs := p.technicalChallenges;
    forall i | 0 <= i < |cs|
      ensures q.technicalChallenges[i] == cs[i]
    {
      var c := q.technicalChallenges[i];
      assert c == ParseTechnicalChallenge(raw.technicalChallenges[i]);
      assert c.biologicalModels == cs[i].biologicalModels;
    }
    assert q.technicalChallenges == cs;
  }

  // ---------------------------------------------------------------------
  // Diagram node kinds and node data
  // ---------------------------------------------------------------------

  /** The four kinds of diagram node. */
  datatype NodeType =
    | ProjectType
    | TechnicalChallengeType
    | BiologicalModelType
    | AddBiologicalModelType

  /** The tag string each kind is written as. */
  function TypeName(t: NodeType): string
  {
    match t
    case ProjectType => "project"
    case TechnicalChallengeType => "technicalChallenge"
    case BiologicalModelType => "biologicalModel"
    case AddBiologicalModelType => "addBiologicalModel"
  }

  /** Reads a tag string; anything but the four names is rejected. */
  function ParseNodeType(s: string): (r: Option<NodeType>)
    ensures r.Some? ==> TypeName(r.value) == s
    ensures (forall t: NodeType :: TypeName(t) != s) ==> r.None?
  {
    if s == "project" then Some(ProjectType)
    else if s == "technicalChallenge" then Some(TechnicalChallengeType)
    else if s == "biologicalModel" then Some(BiologicalModelType)
    else if s == "addBiologicalModel" then Some(AddBiologicalModelType)
    else None
  }

  /** Every kind is read back from its own tag, so the four tags are distinct. */
  lemma ParseTypeName(t: NodeType)
    ensures ParseNodeType(TypeName(t)) == Some(t)
  {
  }

  /**
   * The data a diagram node carries, tagged by kind. Every variant has an
   * `id` and a label (`labelText`, since `label` is a Dafny keyword); only
   * the add-model variant has a `challengeId`.
   */
  datatype NodeData =
    | ProjectData(id: int, labelText: string)
    | TechnicalChallengeData(id: int, labelText: string)
    | BiologicalModelData(id: int, labelText: string)
    | AddBiologicalModelData(id: int, labelText: string, challengeId: int)
  {
    function Kind(): NodeType
    {
      match this
      case ProjectData(_, _) => ProjectType
      case TechnicalChallengeData(_, _) => TechnicalChallengeType
      case BiologicalModelData(_, _) => BiologicalModelType
      case AddBiologicalModelData(_, _, _) => AddBiologicalModelType
    }

    /** The challenge an add-model node belongs to; no other kind has one. */
    function ChallengeIdOf(): (r: Option<int>)
      ensures r.Some? <==> Kind() == AddBiologicalModelType
      ensures r.Some? ==> r.value == challengeId
    {
      if AddBiologicalModelData? then Some(challengeId) else None
    }
  }

  /**
   * A node id: the decimal string `value.toString()` of a numeric id. Only
   * the fact that the conversion is injective on integers matters here, so
   * the string is kept in this structured form.
   */
  datatype NodeId = IdString(value: int)

  /** A positioned diagram node. */
  datatype AsteriaNode = AsteriaNode(id: NodeId, kind: NodeType, data: NodeData, x: int, y: int)
  {
    /** The node's kind agrees with its data, and its id is its data's id. */
    predicate WellFormed()
    {
      kind == data.Kind() && id == IdString(data.id)
    }
  }
}
