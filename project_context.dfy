/**
 * Copy-on-write model insertion: `addModel(challengeId, name)` builds a new
 * project in which every challenge with that id has one new model appended,
 * and leaves every other part of the tree as it was. The fresh model id,
 * taken from the clock in the source, is a parameter here.
 */
module ProjectContext {
  import opened Wrappers
  import opened Models
  import opened ProjectFlow

  /** What the update does to one challenge. */
  function AppendIfMatch(c: TechnicalChallenge, challengeId: int, m: BiologicalModel): TechnicalChallenge
  {
    if c.id == challengeId then c.(biologicalModels := c.biologicalModels + [m]) else c
  }

  /**
   * The project after adding a model named `modelName` with id `newId` to
   * the challenges whose id is `challengeId`; no project, no change.
   */
  function AddModel(project: Option<Project>, challengeId: int, modelName: string, newId: int): (r: Option<Project>)
    ensures project.None? ==> r.None?
    ensures project.Some? ==>
              var p := project.value; var cs := p.technicalChallenges;
              && r.Some? && r.value.id == p.id && r.value.name == p.name
              && |r.value.technicalChallenges| == |cs|
              && forall i :: 0 <= i < |cs| ==>
                   var c, c' := cs[i], r.value.technicalChallenges[i];
                   && c'.id == c.id && c'.name == c.name
                   && (c.id == challengeId ==>
                         c'.biologicalModels == c.biologicalModels + [BiologicalModel(newId, modelName)])
                   && (c.id != challengeId ==> c' == c)
  {
    match project
    case None => None
    case Some(p) =>
      var newModel := BiologicalModel(newId, modelName);
      var cs := p.technicalChallenges;
      Some(p.(technicalChallenges := seq(|cs|, i requires 0 <= i < |cs| => AppendIfMatch(cs[i], challengeId, newModel))))
  }

  /** The number of challenges in `cs` whose id is `challengeId`. */
  function MatchCount(cs: seq<TechnicalChallenge>, challengeId: int): nat
  {
    if cs == [] then 0
    else MatchCount(cs[..|cs| - 1], challengeId) + (if cs[|cs| - 1].id == challengeId then 1 else 0)
  }

  /** No two challenges share an id. */
  predicate UniqueChallengeIds(cs: seq<TechnicalChallenge>)
  {
    forall i, j :: 0 <= i < |cs| && 0 <= j < |cs| && cs[i].id == cs[j].id ==> i == j
  }

  /** The challenges of the updated project, given that a project is loaded. */
  function Updated(p: Project, challengeId: int, modelName: string, newId: int): seq<TechnicalChallenge>
  {
    AddModel(Some(p), challengeId, modelName, newId).value.technicalChallenges
  }

  /** With an unknown challenge id the new project equals the old one. */
  lemma AddModelUnknownChallenge(p: Project, challengeId: int, modelName: string, newId: int)
    requires forall c :: c in p.technicalChallenges ==> c.id != challengeId
    ensures AddModel(Some(p), challengeId, modelName, newId) == Some(p)
  {
    var cs := p.technicalChallenges;
    var cs' := Updated(p, challengeId, modelName, newId);
    forall i | 0 <= i < |cs|
      ensures cs'[i] == cs[i]
    {
      assert cs[i] in cs;
    }
    assert cs' == cs;
  }

  /** Restricting the update to a prefix of the challenges is updating that prefix. */
  lemma UpdatedPrefix(p: Project, challengeId: int, modelName: string, newId: int, k: nat)
    requires k <= |p.technicalChallenges|
    ensures var cs := p.technicalChallenges;
            Updated(p, challengeId, modelName, newId)[..k]
            == Updated(p.(technicalChallenges := cs[..k]), challengeId, modelName, newId)
  {
  }

  /**
   * The total number of models grows by one for every challenge whose id
   * matches.
   */
  lemma {:induction false} AddModelCount(p: Project, challengeId: int, modelName: string, newId: int)
    ensures TotalModels(Updated(p, challengeId, modelName, newId))
            == TotalModels(p.technicalChallenges) + MatchCount(p.technicalChallenges, challengeId)
    decreases |p.technicalChallenges|
  {
    var cs := p.technicalChallenges;
    if cs != [] {
      var n := |cs| - 1;
      var q := p.(technicalChallenges := cs[..n]);
      var cs' := Updated(p, challengeId, modelName, newId);
      AddModelCount(q, challengeId, modelName, newId);
      UpdatedPrefix(p, challengeId, modelName, newId, n);
      assert cs'[..|cs'| - 1] == Updated(q, challengeId, modelName, newId);
    }
  }

  /** With unique challenge ids, a known challenge id matches exactly one challenge. */
  lemma {:induction false} MatchCountUnique(cs: seq<TechnicalChallenge>, k: nat)
    requires UniqueChallengeIds(cs) && k < |cs|
    ensures MatchCount(cs, cs[k].id) == 1
  {
    var n := |cs| - 1;
    var init := cs[..n];
    if k < n {
      MatchCountUnique(init, k);
      assert cs[n].id != cs[k].id;
    } else {
      NoMatch(init, cs[k].id);
    }
  }

  /** A challenge id that appears nowhere matches nothing. */
  lemma {:induction false} NoMatch(cs: seq<TechnicalChallenge>, challengeId: int)
    requires forall i :: 0 <= i < |cs| ==> cs[i].id != challengeId
    ensures MatchCount(cs, challengeId) == 0
  {
    if cs != [] {
      NoMatch(cs[..|cs| - 1], challengeId);
    }
  }

  /** With unique challenge ids, adding to a known challenge adds exactly one model overall. */
  lemma AddModelAddsOne(p: Project, k: nat, modelName: string, newId: int)
    requires UniqueChallengeIds(p.technicalChallenges) && k < |p.technicalChallenges|
    ensures var cs := p.technicalChallenges;
            TotalModels(Updated(p, cs[k].id, modelName, newId)) == TotalModels(cs) + 1
  {
    AddModelCount(p, p.technicalChallenges[k].id, modelName, newId);
    MatchCountUnique(p.technicalChallenges, k);
  }
}
