# ClusterMap data routines in Dafny

A model of the data-handling core of `src/clusterMap.js`, the D3 component of
clustermap.js that draws synteny plots: clusters that hold loci (genomic
segments) that hold genes. Most of that file is rendering glue over D3; what
it does to data is modelled here, module by module:

- `ClusterData` — the cluster → locus → gene record tree as classes whose
  fields are updated in place, and `initialiseData`, which runs when a cluster
  first enters the scene. For each locus it copies `start`/`end` into the
  working copies, resets the drag offset and the flip, and stamps the
  back-reference to the cluster. For each gene it stamps the back-references to
  its locus and its cluster. Dafny identifiers cannot begin with an
  underscore, so the shadow fields are renamed: `_start` → `workStart`,
  `_end` → `workEnd`, `_offset` → `offset`, `_flipped` → `flipped`,
  `_cluster` → `clusterRef`, `_locus` → `locusRef`. The two nested `forEach`
  loops are `while` loops in `InitialiseLoci` and `StampGenes`. The frame of
  `InitialiseData` names only the shadow fields. So `start`, `end`, `uid`,
  `name` and the locus and gene lists (their number and order) are unchanged
  by construction. The model does not assume the data is a tree. If one gene
  object is listed under several loci, the loops leave it with the uid of the
  last of them; `LastOwner` states this. When each gene is listed by one locus
  only (`ListedOnce`), that is the locus that holds it.
- `HiddenGroups` — `getHiddenGeneGroups`, which the legend uses to strike
  out the colour groups that no visible gene shows. The DOM scan becomes a
  parameter: a sequence of gene nodes, each with its `display` attribute and
  its group (both possibly null). The colour domain becomes a sequence of
  group keys. The method keeps the source's loop, which filters `hidden` once
  per node that shows a group still listed. It is proved equal to the
  declarative reading: no nodes gives `[]`; otherwise it is the domain without
  every shown group, in domain order.
- `ColourScale` — the write `range[d] = value` in the colour picker's change
  handler of `changeGeneColour`, with JavaScript's array semantics: entry `d`
  becomes the value, every other entry is kept, and a write past the end grows
  the range with holes (`None`).
- `ScaleBar` — the guard of `resizeScaleBar`. The prompt's answer is a
  parameter (`None` for a cancelled prompt). Only a truthy answer, i.e. a
  non-empty string, is stored as the base-pair length and asks for a redraw.
  The returned flag stands for the call to `api.plot.update()`.

With no gene node at all the code reports no hidden group, whatever the
domain, although no group then has a visible gene.

## Model

| member | source | states |
|---|---|---|
| `ClusterData.InitialiseData` | src/clusterMap.js:227-239 | only the shadow fields of the cluster's loci and genes are written; afterwards every locus has `workStart == start`, `workEnd == end`, `offset == 0`, `clusterRef ==` the cluster's uid and is not flipped; every listed gene has `clusterRef ==` the cluster's uid and `locusRef ==` the uid of the last locus listing it, which is its own locus when each gene is listed once; on an already initialised cluster nothing changes (idempotence) |
| `ClusterData.InitialiseLoci` | src/clusterMap.js:228-238 | the loop over the loci gives every locus its initial shadow state and every gene listed by them the cluster's uid and the uid of its last listing locus |
| `ClusterData.InitialiseLocus` | src/clusterMap.js:229-233 | one locus gets `workStart == start`, `workEnd == end`, `offset == 0`, the cluster's uid and `flipped == false`, and only those five fields are written |
| `ClusterData.StampGenes` | src/clusterMap.js:234-237 | every gene of the locus gets the locus's uid and the cluster's uid as back-references, and only those two fields are written |
| `ClusterData.LastOwner` | src/clusterMap.js:228-236 | a gene has a last listing locus exactly when some locus lists it |
| `ClusterData.LastOwnerIsSoleOwner` | src/clusterMap.js:234-236 | a gene that no later locus lists keeps the uid of the locus that lists it |
| `ClusterData.OwnerStamped` | src/clusterMap.js:232-236 | in an initialised cluster where each gene is listed by one locus, each gene's back-references are its own locus's uid and its cluster's uid |
| `HiddenGroups.GetHiddenGeneGroups` | src/clusterMap.js:281-296 | the loop's result equals the declarative hidden groups: `[]` when there is no gene node; otherwise a group is in the result iff it is in the domain and no node displayed inline shows it |
| `HiddenGroups.Exclude` | src/clusterMap.js:292 | the filter keeps exactly the entries not dropped and is never longer than its input |
| `HiddenGroups.ExcludeIsSubsequence` | src/clusterMap.js:292 | filtering keeps the remaining entries in their original order |
| `HiddenGroups.ExcludeCounts` | src/clusterMap.js:292 | a kept entry keeps all its occurrences, a dropped entry loses all of them |
| `HiddenGroups.ExcludeDisjoint` | src/clusterMap.js:291-292 | removing groups the list does not hold changes nothing, so the `includes` guard never changes the result |
| `HiddenGroups.ExcludeTwice` | src/clusterMap.js:288-293 | filtering twice equals filtering once by the union, so the per-node filters add up to one filter by all shown groups |
| `HiddenGroups.ShownGroupsSnoc` | src/clusterMap.js:288-291 | one more node adds its group to the shown groups exactly when it is displayed inline and has a non-null group |
| `HiddenGroups.HiddenGroupsInDomainOrder` | src/clusterMap.js:287-293 | the hidden groups are a subsequence of the colour domain |
| `HiddenGroups.NonShowingNodeIgnored` | src/clusterMap.js:291 | a node that is not displayed inline, or has a null group, removes nothing wherever it stands in a non-empty scan |
| `HiddenGroups.HiddenGroupsExample` | src/clusterMap.js:281-296 | domain A, B, C with visible genes only in A and C gives exactly B |
| `ColourScale.AssignIndex` | src/clusterMap.js:246 | after `range[d] = value`, entry `d` is the value, every other old entry is kept, and new entries before `d` are holes |
| `ColourScale.AssignIndexIdempotent` | src/clusterMap.js:245-247 | picking the same colour for a group twice gives the same range as once |
| `ColourScale.AssignIndexLastWins` | src/clusterMap.js:245-247 | of two picks for one group the later one wins |
| `ColourScale.AssignIndexCommutes` | src/clusterMap.js:245-247 | recolouring two different groups gives the same range in either order |
| `ColourScale.OrdinalScale.ChangeGeneColour` | src/clusterMap.js:243-247 | the scale's range becomes the old range with entry `d` set to the picked value, every other entry unchanged; no other field of the scale is written |
| `ScaleBar.ScaleBarConfig.ResizeScaleBar` | src/clusterMap.js:254-260 | a redraw is requested iff the prompt's answer is truthy (not null, not empty); then the answer is the new base-pair length, otherwise the length is unchanged; no other configuration field is written |

## Left out

- The body of `my` (src/clusterMap.js:17-225): D3 selections, the keyed enter/update/exit joins, the shared transition and SVG construction. The join partition lives in d3-selection, which is not part of this model.
- Pan/zoom set-up and the hover handlers gated by `api.flags.isDragging`: event-driven UI.
- Flip, drag-move and drag-resize (`api.locus.flip`, `api.locus.dragPosition`, `api.locus.dragResize`) and `api.scale.update`: their logic is in `api.js`, which is not part of this model.
- The `prompt` dialog and the colour picker: their answers are parameters. The repaint `d3.selectAll('.group-d').attr('fill', value)` in `changeGeneColour` is a DOM write and is not modelled.
- `api.plot.update()` is not called. `ResizeScaleBar` returns a flag saying whether the source calls it.
- The widget builders `getScaleBarFn`, `getColourBarFn` and `getLegendFn`: fluent configuration of external widgets. `my.config` only delegates to `api.plot.updateConfig`, which is not part of this model.
- JavaScript numbers are modelled as unbounded integers. Coordinates and offsets are never fractional in what is modelled, and no arithmetic is done on them.
- Before `initialiseData` runs, the shadow fields of the JavaScript objects are `undefined`. The constructors leave them unspecified.
- ColourScale.OrdinalScale.ChangeGeneColour: the group key is taken to be a non-negative integer index below 2^32 − 1, since no colour domain reaches that. At 2^32 − 1 or above, JavaScript treats `range[d] = value` as a plain property write that leaves the length unchanged, so the range written back would be unchanged; `AssignIndex` does not model that. A key of another kind would set a property of the copied array rather than an entry, and is not modelled. How the ordinal scale maps a group to a range entry is D3's and is not modelled.
- HiddenGroups.GetHiddenGeneGroups: JavaScript's `includes` (SameValueZero) and `!==` are both modelled as Dafny equality. They differ only on NaN, which is not a group key.
