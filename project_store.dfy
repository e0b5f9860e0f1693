/**
 * The provider's state cell: it holds the current project (or none) and is
 * replaced wholesale when a model is added.
 */
module ProjectProvider {
  import opened Wrappers
  import opened Models
  import ProjectContext

  class ProjectStore {
    var project: Option<Project>

    constructor (initial: Option<Project>)
      ensures project == initial
    {
      project := initial;
    }

    /** Adds a model to the matching challenges; does nothing while no project is loaded. */
    method AddModel(challengeId: int, modelName: string, newId: int)
      modifies this
      ensures project == ProjectContext.AddModel(old(project), challengeId, modelName, newId)
      ensures old(project).None? ==> project.None?
      ensures old(project).Some? ==> project.Some? && project.value.id == old(project).value.id
    {
      if project.None? {
        return;
      }
      var updated := ProjectContext.AddModel(project, challengeId, modelName, newId);
      project := updated;
    }
  }
}
