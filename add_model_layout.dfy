/**
 * How the diagram changes when a model is added to one challenge of a
 * project whose challenge ids are unique: one more node and one more edge,
 * the new model in the model column one row below that challenge's last
 * model, and the later challenges moved down by one row unless the
 * challenge had no model (an empty challenge already reserves a row).
 */
module AddModelLayout {
  import opened Wrappers
  import opened Models
  import opened ProjectFlow
  import opened LayoutProperties
  import opened ProjectContext

  /** The challenges before the updated one are untouched. */
  lemma UpdatedBefore(p: Project, k: nat, modelName: string, newId: int, l: nat)
    requires UniqueChallengeIds(p.technicalChallenges) && k < |p.technicalChallenges| && l <= k
    ensures Updated(p, p.technicalChallenges[k].id, modelName, newId)[..l] == p.technicalChallenges[..l]
  {
    var cs := p.technicalChallenges;
    var cs' := Updated(p, cs[k].id, modelName, newId);
    forall i | 0 <= i < l
      ensures cs'[i] == cs[i]
    {
      assert cs[i].id != cs[k].id;
    }
  }

  /**
   * Where the row cursor stands after the first `l` challenges of the
   * updated project: unchanged up to the updated challenge, one row further
   * after it when that challenge already had a model.
   */
  lemma {:induction false} CursorAfterAddModel(p: Project, k: nat, modelName: string, newId: int, l: nat)
    requires UniqueChallengeIds(p.technicalChallenges) && k < |p.technicalChallenges|
    requires l <= |p.technicalChallenges|
    ensures var cs := p.technicalChallenges;
            var cs' := Updated(p, cs[k].id, modelName, newId);
            CursorAfter(cs'[..l])
            == CursorAfter(cs[..l]) + (if l > k && |cs[k].biologicalModels| > 0 then ModelSpacing else 0)
  {
    var cs := p.technicalChallenges;
    var cs' := Updated(p, cs[k].id, modelName, newId);
    if l <= k {
      UpdatedBefore(p, k, modelName, newId, l);
    } else {
      CursorAfterAddModel(p, k, modelName, newId, l - 1);
      CursorStep(cs, l - 1);
      CursorStep(cs', l - 1);
      if l - 1 != k {
        assert cs[l - 1].id != cs[k].id;
      }
    }
  }

  /** The updated diagram has exactly one more node and one more edge. */
  lemma AddModelLayoutCounts(p: Project, k: nat, modelName: string, newId: int)
    requires UniqueChallengeIds(p.technicalChallenges) && k < |p.technicalChallenges|
    ensures var d := Layout(Some(p));
            var d' := Layout(AddModel(Some(p), p.technicalChallenges[k].id, modelName, newId));
            |d'.nodes| == |d.nodes| + 1 && |d'.edges| == |d.edges| + 1
  {
    AddModelAddsOne(p, k, modelName, newId);
  }

  /**
   * The new model is laid out as the last model of its challenge: model
   * column, one row per earlier model below the challenge's row.
   */
  lemma AddedModelPlacement(p: Project, k: nat, modelName: string, newId: int)
    requires UniqueChallengeIds(p.technicalChallenges) && k < |p.technicalChallenges|
    ensures var cs := p.technicalChallenges; var m := |cs[k].biologicalModels|;
            var p' := AddModel(Some(p), cs[k].id, modelName, newId).value;
            var ns := Layout(Some(p')).nodes;
            && ModelIndex(p', k, m) < |ns|
            && ns[ModelIndex(p', k, m)]
               == AsteriaNode(IdString(newId), BiologicalModelType, BiologicalModelData(newId, modelName),
                              BiologicalModelColumn, CursorAfter(cs[..k]) + ModelSpacing * m)
  {
    var cs := p.technicalChallenges;
    var p' := AddModel(Some(p), cs[k].id, modelName, newId).value;
    LayoutModelNode(p', k, |cs[k].biologicalModels|);
    UpdatedBefore(p, k, modelName, newId, k);
  }

  /**
   * Challenges up to the updated one keep their rows; later ones move down
   * by one row when the updated challenge already had a model.
   */
  lemma ChallengeRowsAfterAddModel(p: Project, k: nat, modelName: string, newId: int, l: nat)
    requires UniqueChallengeIds(p.technicalChallenges) && k < |p.technicalChallenges|
    requires l < |p.technicalChallenges|
    ensures var cs := p.technicalChallenges;
            var ns := Layout(Some(p)).nodes;
            var ns' := Layout(AddModel(Some(p), cs[k].id, modelName, newId)).nodes;
            && 1 + l < |ns| && 1 + l < |ns'|
            && ns'[1 + l].y == ns[1 + l].y + (if l > k && |cs[k].biologicalModels| > 0 then ModelSpacing else 0)
  {
    var cs := p.technicalChallenges;
    var p' := AddModel(Some(p), cs[k].id, modelName, newId).value;
    LayoutChallengeNode(p, l);
    LayoutChallengeNode(p', l);
    CursorAfterAddModel(p, k, modelName, newId, l);
  }
}
