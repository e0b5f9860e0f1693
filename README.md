# Project diagram layout and model insertion, in Dafny

This project models the two deterministic parts of a small viewer that draws a
research project as a node-link diagram. The project is a tree: a project owns
technical challenges, and each challenge owns biological models.

- **Layout** (`useProjectFlow`). It turns an optional project into two flat
  sequences. The nodes are the project node, then every challenge node, then
  every model node. The edges go project→challenge and challenge→model, in
  traversal order. Columns are fixed: the project at x = 0, challenges at
  x = 500, models at x = 1000. Rows come from a cursor that starts at 0. A
  challenge sits on the cursor's row, its models are stacked 120 apart from
  that row, and the cursor then moves on by `max(120, 120 · modelCount)`.
- **Model insertion** (`addModel`). It builds a new project in which every
  challenge with the given id has one new model appended. Everything else is
  left as it was. With no project loaded it does nothing.

Modules, one per source file plus property modules:

| file | module | models |
|---|---|---|
| `wrappers.dfy` | `Wrappers` | `Option` for `T \| undefined` |
| `models.dfy` | `Models` | `src/models.ts`: the tree records, their defaults, node kinds, node data |
| `project_flow.dfy` | `ProjectFlow` | `src/hooks/useProjectFlow.ts`: constants, the traversal method `UseProjectFlow` with loop invariants, and the function `Layout` it computes |
| `layout_properties.dfy` | `LayoutProperties` | closed forms of `Layout`: counts, tiers, exact coordinates, no overlap, edge order, edge endpoints, the test file's sample |
| `project_context.dfy` | `ProjectContext` | `addModel` in `src/contexts/ProjectContext.tsx` as the pure function `AddModel` |
| `project_store.dfy` | `ProjectProvider` | the provider's state cell as a class whose `AddModel` method replaces the project |
| `add_model_layout.dfy` | `AddModelLayout` | how the diagram changes when a model is added |

The code and its test file disagree, and the model follows the code. The test
file `src/hooks/useProjectFlow.spec.ts` expects an extra "add biological model"
node for each challenge, plus an edge to it (lines 57-58 and 160-206), with a
challenge's add node one row below that challenge's last model. `useProjectFlow.ts`
emits none of these (lines 81 and 84). For the test's sample the code yields 6
nodes and 5 edges. Challenge 101 and models 201 and 202 sit at rows 0, 0 and
120. Challenge 102 and model 203 both sit at row 240 (`LayoutProperties.SampleLayout`).

Representation choices:

- Ids and coordinates are `int`.
- A node id `x.toString()` is kept as `IdString(x)`. Only the injectivity of
  the conversion matters here.
- Edge ids are the structured `EdgeId` values `ProjectChallengeEdgeId(P, C)`
  (the string `project-P-challenge-C`) and `ChallengeModelEdgeId(C, M)` (the
  string `challenge-C-model-M`).
- The node-data union is a tagged datatype, `NodeData`.
- `label` is a Dafny keyword, so the label field is named `labelText`.
- The id of a new model, which the source takes from the clock, is the
  parameter `newId`.

## Model

| member | source | states |
|---|---|---|
| `Models.ParseBiologicalModel` | src/models.ts:7-10 | a model keeps its numeric id; a missing name becomes the empty string, a present one is kept |
| `Models.ParseTechnicalChallenge` | src/models.ts:17-21 | a challenge keeps its id, its name defaults to "", and its models keep their number and order, each defaulted the same way |
| `Models.ParseProject` | src/models.ts:28-32 | a project keeps its id, its name defaults to "", and its challenges keep their number and order, each defaulted the same way |
| `Models.ParseUnparse` | src/models.ts:28-32 | defaulting a tree whose names are all present gives back the same tree |
| `Models.ParseNodeType` | src/models.ts:39 | a tag string is accepted only if it is the name of one of the four kinds, and then yields that kind |
| `Models.ParseTypeName` | src/models.ts:39 | each of the four kinds is read back from its own name, so the names are distinct |
| `Models.NodeData.ChallengeIdOf` | src/models.ts:46-68 | node data has a challenge id exactly when it is of the add-model kind |
| `ProjectFlow.RowSpan` | src/hooks/useProjectFlow.ts:81 | the cursor advance past a challenge is at least one row and at least one row per model |
| `ProjectFlow.RowSpanRows` | src/hooks/useProjectFlow.ts:81 | the advance is exactly 120 per model, or 120 when the challenge has no model |
| `ProjectFlow.CursorAfter` | src/hooks/useProjectFlow.ts:32 | after `n` challenges the cursor is at least `120 · n` below row 0 |
| `ProjectFlow.CursorStep` | src/hooks/useProjectFlow.ts:81 | one more challenge moves the cursor by that challenge's span, and the model total grows by its model count |
| `ProjectFlow.StackedModelNodes` | src/hooks/useProjectFlow.ts:61-69 | a challenge contributes one model node per model |
| `ProjectFlow.ModelEdges` | src/hooks/useProjectFlow.ts:70-78 | a challenge contributes one challenge→model edge per model |
| `ProjectFlow.ChallengeNodes` | src/hooks/useProjectFlow.ts:38-49 | there is one challenge node per challenge |
| `ProjectFlow.ModelNodes` | src/hooks/useProjectFlow.ts:61-69 | the model tier has one node per model over all challenges |
| `ProjectFlow.Edges` | src/hooks/useProjectFlow.ts:50-78 | there are `c + Σ m_i` edges: one per challenge and one per model |
| `ProjectFlow.Layout` | src/hooks/useProjectFlow.ts:20-87 | no project gives two empty sequences; a project gives `1 + c + Σ m_i` nodes and `c + Σ m_i` edges |
| `ProjectFlow.UseProjectFlow` | src/hooks/useProjectFlow.ts:20-87 | the traversal, with its row cursor and the three lists it appends to, returns exactly `Layout` of its input |
| `LayoutProperties.StackedModelNodeAt` | src/hooks/useProjectFlow.ts:60-79 | the `j`-th model of a challenge is `120 · j` below the row it starts from |
| `LayoutProperties.ModelEdgeAt` | src/hooks/useProjectFlow.ts:70-78 | the `j`-th model edge of a challenge goes from that challenge to its `j`-th model |
| `LayoutProperties.ChallengeNodeAt` | src/hooks/useProjectFlow.ts:45 | challenge `k` is placed on the row the cursor reached after challenges `0..k-1` |
| `LayoutProperties.ModelNodeAt` | src/hooks/useProjectFlow.ts:60-79 | model `j` of challenge `k` is at model-tier position `Σ_{i<k} m_i + j`, on row `y_k + 120 · j` |
| `LayoutProperties.ModelTier` | src/hooks/useProjectFlow.ts:62-69 | every node of the model tier is a model node in column 1000 whose kind matches its data and whose id is its data's id |
| `LayoutProperties.CursorMovesDown` | src/hooks/useProjectFlow.ts:81 | the cursor only moves down, by at least a challenge's span past that challenge |
| `LayoutProperties.LayoutTiers` | src/hooks/useProjectFlow.ts:23-30 | the project node comes first, at (0, 0), with the project's id and name; then `c` challenge nodes in column 500; then model nodes in column 1000; every node is well formed |
| `LayoutProperties.LayoutChallengeNode` | src/hooks/useProjectFlow.ts:38-49 | node `1 + k` is challenge `k`, with its id and name, in column 500, on row `y_k` |
| `LayoutProperties.LayoutModelNode` | src/hooks/useProjectFlow.ts:62-69 | the node for model `j` of challenge `k` has the model's id and name, column 1000 and row `y_k + 120 · j` |
| `LayoutProperties.FirstChallengeOnTop` | src/hooks/useProjectFlow.ts:32 | the first challenge is on row 0 |
| `LayoutProperties.ModelsStackedUnderChallenge` | src/hooks/useProjectFlow.ts:60-79 | a challenge's first model shares its row, and consecutive models of one challenge are exactly 120 apart |
| `LayoutProperties.ChallengeRowsIncrease` | src/hooks/useProjectFlow.ts:81 | challenge rows strictly increase in traversal order |
| `LayoutProperties.ModelsWithinChallengeBand` | src/hooks/useProjectFlow.ts:60-81 | every model of challenge `k` lies in `[y_k, cursor after k)` |
| `LayoutProperties.NoVerticalOverlap` | src/hooks/useProjectFlow.ts:60-81 | for `k < l`, every model of `k` is above challenge `l`, which is at or above every model of `l` |
| `LayoutProperties.LayoutChallengeEdge` | src/hooks/useProjectFlow.ts:50-58 | challenge `k`'s edge from the project is at position `k + Σ_{i<k} m_i`, with id `project-P-challenge-C`; challenge `k + 1`'s comes right after `k`'s model edges |
| `LayoutProperties.LayoutModelEdge` | src/hooks/useProjectFlow.ts:70-78 | the `j`-th edge after challenge `k`'s project edge is `challenge-C-model-M` from `k` to its `j`-th model |
| `LayoutProperties.EdgeEndpointsIn` | src/hooks/useProjectFlow.ts:50-78 | for any list of challenges, every edge's source and target are ids of emitted nodes |
| `LayoutProperties.EdgeEndpointsAreNodes` | src/hooks/useProjectFlow.ts:84-85 | every edge of the diagram joins two nodes of the same diagram |
| `LayoutProperties.SampleLayout` | src/hooks/useProjectFlow.spec.ts:15-44 | the test's sample project lays out as exactly these 6 nodes (rows 0, 240 for the challenges; 0, 120, 240 for the models) and 5 edges, in this order |
| `ProjectContext.AddModel` | src/contexts/ProjectContext.tsx:38-63 | no project means no change; otherwise the project id, name and challenge count and order are kept; each challenge keeps its id and name; a matching challenge gets exactly the new model appended after its old models; any other challenge is unchanged |
| `ProjectContext.AddModelUnknownChallenge` | src/contexts/ProjectContext.tsx:50-59 | with a challenge id that no challenge has, the result equals the input |
| `ProjectContext.AddModelCount` | src/contexts/ProjectContext.tsx:50-59 | the total model count grows by the number of challenges whose id matches |
| `ProjectContext.MatchCountUnique` | src/contexts/ProjectContext.tsx:51 | with unique challenge ids, the id of an existing challenge matches exactly one challenge |
| `ProjectContext.NoMatch` | src/contexts/ProjectContext.tsx:51 | an id that no challenge has matches none |
| `ProjectContext.AddModelAddsOne` | src/contexts/ProjectContext.tsx:50-59 | with unique challenge ids, adding to an existing challenge adds exactly one model overall |
| `ProjectProvider.ProjectStore.constructor` | src/contexts/ProjectContext.tsx:29 | the state cell starts with the given project, or none |
| `ProjectProvider.ProjectStore.AddModel` | src/contexts/ProjectContext.tsx:38-63 | the cell is replaced by `AddModel` of its old value; with no project it stays empty; the project id is kept |
| `AddModelLayout.UpdatedBefore` | src/contexts/ProjectContext.tsx:50-57 | with unique challenge ids, the challenges before the updated one are unchanged |
| `AddModelLayout.CursorAfterAddModel` | src/hooks/useProjectFlow.ts:81 | after an insertion, the cursor is unchanged up to the updated challenge; past it, the cursor is one row lower if that challenge already had a model |
| `AddModelLayout.AddModelLayoutCounts` | src/contexts/ProjectContext.tsx:50-59 | with unique challenge ids, the new diagram has exactly one more node and one more edge |
| `AddModelLayout.AddedModelPlacement` | src/hooks/useProjectFlow.ts:60-79 | the new model's node has the new id and name, column 1000, and the row just below its challenge's old models |
| `AddModelLayout.ChallengeRowsAfterAddModel` | src/hooks/useProjectFlow.ts:81 | challenges up to the updated one keep their rows; later challenges move down 120 if the updated challenge already had a model, and stay put if it had none |

## Left out

- The add-model affordance nodes and their edges. The test file expects them, but `useProjectFlow.ts` does not emit them (see above).
- Fetching: the HTTP request, caching, JSON parsing, and the random id remapping in `src/hooks/useProject.ts`. These are I/O and randomness.
- Framework glue: memoisation, the state hook and its sync from the fetched value (`src/contexts/ProjectContext.tsx:29-35`), the context lookup that throws outside a provider, and the application wiring.
- `ProjectProvider.ProjectStore.constructor`: the source cell starts empty and is filled from the fetch. The constructor starts it at a given value instead.
- The clock. The fresh model id is the parameter `newId`. Nothing in the model says it differs from the ids already in the project.
- Uniqueness of challenge ids is not something the source guarantees. It appears only as the precondition `UniqueChallengeIds` of the lemmas that speak of "the" updated challenge (`MatchCountUnique`, `AddModelAddsOne` and every lemma of `AddModelLayout`); `AddModel`, `AddModelUnknownChallenge` and `AddModelCount` hold without it. The random ids that `sanitize` assigns (`src/hooks/useProject.ts:12`) can collide.
- The form rule that `addModel` is only called with a non-blank name (`src/components/AddBiologicalModelNode.tsx:18`). `AddModel` accepts any name, because the function itself does not check it.
- The UI components, and the constant rendering attributes (`sourcePosition`, `targetPosition`, `draggable`, `animated`, `markerEnd`). None of them affects positions, ids or order.
- Number representation. JavaScript numbers are doubles. Ids and coordinates are modelled as unbounded integers. This is exact for every id and coordinate below 2^53.
- Decimal string conversion of ids. Node ids and edge ids are kept structured (see above), not spelled out as characters.
- The schemas of `src/models.ts` are used only as types on the data path: `src/hooks/useProject.ts:47-48` returns `sanitize(JSON.parse(text))` and never calls `Project.parse`, so the `.default('')` on names is never applied to fetched data. `ParseBiologicalModel`, `ParseTechnicalChallenge` and `ParseProject` describe what `Project.parse` would do. `Layout` and `AddModel` take a `Project` whose names are all present strings; a fetched record without a `name` would reach the layout with an `undefined` label (`src/hooks/useProjectFlow.ts:26,43,65`), which the model does not represent.
- A record without its challenge or model array. The model's `Project` always has both sequences, so the `?.` on the challenge array (`src/hooks/useProjectFlow.ts:37`) has no missing case here; with real data such a record already fails in `sanitize` (`src/hooks/useProject.ts:16`). The zod library's other type checks are not modelled either.
