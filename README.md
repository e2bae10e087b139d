# Path length analysis: a verified model of the decision layer

The path length analysis tool reads a chip layout. In that layout, metal
*paths* are drawn on one layer, and labelled *cutting polygons* are drawn on
another layer to mark the ports.

The tool works in these steps:

1. It keeps the cuts that really cut a path, and the labels that lie inside a kept cut.
2. It rejects the run when two kept labels share a text.
3. It gives each cut its label and groups the (cut, label) pairs by path.
4. It splits every path along its cuts into pieces. The moved labels give each piece its port names.
5. It turns each piece with two names into a weighted edge. Each piece's length comes from its area and perimeter.
6. It reports the shortest distance between every pair of graph nodes. It keeps the first row for each joined sorted key: at most one row per unordered pair, and pairs whose names join to the same string (("ab", "c") and ("a", "bc")) share one row. A length of −1 means the pair is unreachable.
7. The package variant then also keeps only rows with a positive length, and optionally only rows between requested nodes.

The repository ships this pipeline twice:

- the package `path_analysis/path_analysis.py`;
- the older script `path_length.py`.

The two differ in the cut test, the label guard, the tail edges, the error
behaviour and the report's tail. Each gets its own module here, over shared
modules for what they have in common.

Modules:

- `Seqs`: sequence helpers. `Filter` (list comprehensions), `Zip` (Python's truncating `zip`), `Subsequence` and `Distinct`.
- `Geometry`: the entities (`Polygon`, `Label`, `Cell`, `LayerSelector`), plus:
  - the `Error`/`Result` taxonomy that replaces `exit(1)` and exceptions;
  - the geometry engine, `math.sqrt` and the layout reader as a record of functions (`Engine`, `Disk`).
- `Duplication`: `get_duplicates`.
- `SegmentLength`: `get_length`.
- `CellSelection`: `_get_polygons`.
- `NodeLabels`: label assignment, `move_labels_on_path` and `get_node_names`.
- `Report`: `get_paths_report`. It covers the all-pairs records, the sorted-key deduplication and the node order of the graph.
- `PathAnalysis`: the package's pipeline.
- `PathLengthScript`: the script's pipeline.

Loops of the source are methods proved equal to a specification function, and
the properties are proved about those functions.

Where the code and its documentation disagree, the model follows the code:

- The package's one-name ("tail") branch in `construct_graph_data_frame` is unreachable: a `continue` comes first. So the package emits only edges between two names, while its description speaks of tail nodes.
- The script never filters by positive length or by requested nodes.
- When the script has nothing to report, it fails while naming the report's columns, not with a "no nodes" message.
- The script's label test in `_rearrange_data` is always true (a non-empty list), so it filters nothing.
- `filter_path_report` (path_analysis.py:596-600) is described as keeping rows where either end is a requested node, but the code requires both ends to be. `PathAnalysis.FilterPathReportSpec` states the code's rule.
- Where path_analysis.py:264 pairs the cuts with the labels, a cut that contains no label shifts every later label onto the wrong cut. It is modelled as written. `PathAnalysis.ZipMisalignment` and `PathLengthScript.ZipMisalignment` show the effect.

## Model

| member | source | states |
|---|---|---|
| Duplication.GetDuplicates | path_analysis/path_analysis.py:288-294 | the scan with a seen-set returns exactly the specification list `Duplicates` |
| Duplication.DuplicatesCount | path_analysis/path_analysis.py:288-294 | every element occurs in the result once fewer than in the input, and not at all if absent |
| Duplication.DuplicatesEmptyIff | path_analysis/path_analysis.py:220-229 | no duplicates is reported exactly when the texts are pairwise distinct, which is when the run goes on |
| Duplication.DuplicatesLength | path_analysis/path_analysis.py:288-294 | the number of duplicates is the length minus the number of distinct elements |
| Duplication.DuplicatesPositions | path_analysis/path_analysis.py:288-294 | the result is, in input order, exactly the elements already seen earlier in the list |
| Duplication.DuplicatesExample | path_analysis/path_analysis.py:284-286 | the documented example: for any five different values, `[a,b,b,c,d,d,e]` gives `[b,d]` (so `[1,2,2,3,4,4,5]` gives `[2,4]`) |
| Duplication.DuplicatesRepeatedExample | path_analysis/path_analysis.py:288-294 | a value seen three times is reported twice: `[a,b,a,c,a]` gives `[a,a]` for different a, b, c |
| SegmentLength.GetLength | path_analysis/path_analysis.py:60-72 | fails exactly when p²/16 − a < 0, with area and perimeter in the error; otherwise, with a true square root, the length L is at least p/4 and solves L·(p/2 − L) = a |
| SegmentLength.RectangleDiscriminant | path_analysis/path_analysis.py:62 | for an l×w rectangle the discriminant is ((l−w)/2)² |
| SegmentLength.RectangleLength | path_analysis/path_analysis.py:60-72 | a rectangle's length is its longer side |
| SegmentLength.UnitSquareLength | path_analysis/path_analysis.py:56-58 | the documented unit square has length 1 |
| CellSelection.SelectCell | path_analysis/path_analysis.py:142-162 | no cells, several cells without a name, and an unknown name are the three fatal cases; otherwise the only cell, or the first with the name, is chosen, and a choosable cell always is |
| CellSelection.ChosenUnique | path_analysis/path_analysis.py:142-162 | the selection rules pick at most one cell, so the chosen cell is determined by the cells and the name |
| CellSelection.GetPolygons | path_analysis/path_analysis.py:142-174 | the same three errors; success exactly when a cell can be chosen, and then the merged path shapes, the cutting shapes and the labels of that cell |
| NodeLabels.FirstInsideSpec | path_analysis/path_analysis.py:255-258 | none exactly when no label lies inside the cut; otherwise the first label, in order, that does |
| NodeLabels.AssignLabels | path_analysis/path_analysis.py:252-258 | the nested scan yields, in cut order, the first label inside each cut that has one |
| NodeLabels.SortedLabelsLength | path_analysis/path_analysis.py:252-258 | one label per cut that contains a label, so never more labels than cuts |
| NodeLabels.SortedLabelsAligned | path_analysis/path_analysis.py:252-258 | when every cut contains a label, the i-th label is the first one inside the i-th cut |
| NodeLabels.LabelsAt | path_analysis/path_analysis.py:472 | one label with the text at each point, in the points' order |
| NodeLabels.MoveLabelsOnPath | path_analysis/path_analysis.py:501-508 | the nested loop concatenates, path by path and pair by pair, the labels placed for each pair; the first failure is the result |
| NodeLabels.MovedTexts | path_analysis/path_analysis.py:501-508 | with a placement that keeps the text, every moved label bears the text of some label paired with a cut |
| NodeLabels.MovedAlongFails | path_analysis/path_analysis.py:505-507 | moving fails exactly when placing one of the pairs fails |
| NodeLabels.NodeNamesSpec | path_analysis/path_analysis.py:440-446 | the names are distinct and are exactly the texts of labels whose origin lies inside the piece |
| NodeLabels.GetNodeNames | path_analysis/path_analysis.py:440-446 | the loop computes `NodeNames` |
| Report.StrLessTotal | path_analysis/path_analysis.py:579-581 | the string order used by `sorted` is total and asymmetric |
| Report.SortedKeySymmetric | path_analysis/path_analysis.py:579-581 | a pair's joined sorted key does not depend on the direction |
| Report.SortedKeyCollision | path_analysis/path_analysis.py:579-581 | ("ab","c") and ("a","bc") get the same key "abc" |
| Report.CollidingPairsMerge | path_analysis/path_analysis.py:579-584 | because of that collision, deduplication drops the second of two unrelated pairs |
| Report.GraphNodesSpec | path_analysis/path_analysis.py:535 | the graph's nodes are distinct and are exactly the ends of the edges |
| Report.PairRecords | path_analysis/path_analysis.py:561-571 | the double loop over the nodes builds exactly the all-pairs specification |
| Report.AllPairsMembership | path_analysis/path_analysis.py:561-571 | a record exists exactly for ordered pairs of different nodes, with the shortest length or −1 |
| Report.AllPairsRows | path_analysis/path_analysis.py:561-571 | a row is in the records exactly when its ends are different nodes and its length is the pair's distance, or −1 if there is none |
| Report.AllPairsCount | path_analysis/path_analysis.py:561-571 | n distinct nodes give n·(n−1) records |
| Report.AllPairsEmpty | path_analysis/path_analysis.py:572-574 | there are no records exactly when there are fewer than two nodes |
| Report.DropDuplicatesPositions | path_analysis/path_analysis.py:579-584 | deduplication keeps, in order, exactly the rows whose sorted key has not appeared earlier |
| Report.DropDuplicatesKeys | path_analysis/path_analysis.py:579-584 | the kept rows have pairwise different keys and the same key set as the input |
| Report.DropDuplicatesSubsequence | path_analysis/path_analysis.py:579-584 | the kept rows are a subsequence of the records |
| Report.NoPairTwice | path_analysis/path_analysis.py:579-584 | after deduplication no two rows join the same two nodes, in the same or in opposite order |
| Report.OnePerPairSubsequence | path_analysis/path_analysis.py:688-693 | the later row filters keep every pair of nodes at most once |
| Report.ReportRows | path_analysis/path_analysis.py:560-585 | every reported row joins two different nodes with their distance; every unordered pair of different nodes is covered by some key; no two rows join the same two nodes, in either order |
| PathAnalysis.CutsPath | path_analysis/path_analysis.py:320-325 | the decision table: more than one path piece left means it cuts; nothing left means it does not; exactly one piece means it cuts if the cut overlaps the paths and no cut vertex lies inside them |
| PathAnalysis.KeptSpec | path_analysis/path_analysis.py:204-218 | the kept cuts are exactly the cutting ones and the kept labels exactly those inside some kept cut, both in their original order |
| PathAnalysis.RearrangeData | path_analysis/path_analysis.py:252-271 | the loops build exactly `Grouping`, the reference definition: for each path, the two halves of the zipped (cut, label) pairs that pass the test for that path |
| PathAnalysis.ValidPairs | path_analysis/path_analysis.py:264-268 | the inner loop keeps exactly the zipped pairs whose cut cuts the path and contains its label |
| PathAnalysis.RearrangedPairs | path_analysis/path_analysis.py:261-271 | each path has as many labels as cuts; every kept cut cuts the path and contains its label; both are subsequences of the inputs |
| PathAnalysis.RearrangedFirstLabel | path_analysis/path_analysis.py:252-271 | when every cut contains a label, each path's k-th label is the first label inside its k-th cut |
| PathAnalysis.ZipMisalignment | path_analysis/path_analysis.py:264 | a first cut without a label makes the zip pair the second cut's label with the first cut, and the pair is then dropped |
| PathAnalysis.FilterPolygons | path_analysis/path_analysis.py:204-231 | fails exactly when the kept label texts repeat, naming the duplicates; otherwise the grouping of the rearrangement |
| PathAnalysis.PathLabels | path_analysis/path_analysis.py:466-472 | fails exactly when the cut and the path do not intersect; otherwise one label with the text at each vertex of the first intersection polygon |
| PathAnalysis.MovedLabelTexts | path_analysis/path_analysis.py:501-508 | every moved label bears a paired label's text |
| PathAnalysis.ConstructGraphDataFrame | path_analysis/path_analysis.py:392-412 | the nested loop builds exactly the edge-table specification, or its first length failure |
| PathAnalysis.SplitRecords | path_analysis/path_analysis.py:397-410 | the loop over one path's pieces builds exactly that path's records |
| PathAnalysis.PieceRecordsRows | path_analysis/path_analysis.py:399-410 | every record is a piece whose names are exactly its two ports, with that piece's length |
| PathAnalysis.PieceRecordsFail | path_analysis/path_analysis.py:409 | building fails exactly when a two-name piece has no real length |
| PathAnalysis.PieceRecordsCount | path_analysis/path_analysis.py:400-406 | one record per two-name piece, so one-name pieces give none (the dead tail branch) |
| PathAnalysis.GraphRecordsRows | path_analysis/path_analysis.py:392-412 | every edge has two different ends, each the text of a label paired with a cut |
| PathAnalysis.GetPathsReport | path_analysis/path_analysis.py:560-585 | fails with no-nodes exactly when there are fewer than two nodes; otherwise the deduplicated all-pairs records |
| PathAnalysis.PositiveRowsSpec | path_analysis/path_analysis.py:688 | exactly the rows of positive length are kept, in order |
| PathAnalysis.FilterPathReportSpec | path_analysis/path_analysis.py:600 | exactly the rows with both ends requested are kept, in order |
| PathAnalysis.FilterPathReportAll | path_analysis/path_analysis.py:600 | requesting every end of every row changes nothing |
| PathAnalysis.CleanReportSpec | path_analysis/path_analysis.py:688-693 | the final report is the subsequence of rows with positive length and, when nodes are requested, with both ends requested |
| PathAnalysis.KeyExistDict | path_analysis/path_analysis.py:614-618 | the value under the key exactly when it is present; otherwise a missing-key error naming it |
| PathAnalysis.ReportFromGeometry | path_analysis/path_analysis.py:684-693 | on a cell's geometry (cuts kept and grouped as `get_polygons` does at lines 104-108): the duplicate-label error, then the edge table's failure, then too few nodes; otherwise the cleaned all-pairs report of the edge table built on the rearranged cuts and labels, with positive lengths, different ends, ends among the requested nodes and at most one row per pair |
| PathAnalysis.PathLength | path_analysis/path_analysis.py:663-693 | missing layer keys (in order), a missing file and the cell errors each produce their error; for the chosen cell it fails with the duplicate-label error, then with the edge table's failure, then with too few nodes, and otherwise succeeds with the cleaned all-pairs report of the edge table built on that cell's rearranged cuts and labels; every reported row has positive length, different ends, ends among the requested nodes, and no two rows join the same two nodes in either order |
| PathLengthScript.FilterOkSpec | path_length.py:212-216 | a comprehension whose test can raise fails exactly when some test fails, with the first failure; otherwise it keeps exactly the elements whose test is true |
| PathLengthScript.CutsPath | path_length.py:323-333 | the script's decision table: no remainder means no cut; more than one piece means a cut; equal printed forms of union and difference mean no cut; otherwise it compares the lengths, failing when one has none |
| PathLengthScript.ContainGuard | path_length.py:273 | the guard is a one-element list, hence always truthy |
| PathLengthScript.GuardIgnored | path_length.py:272-275 | the pair test reduces to the cut test alone |
| PathLengthScript.ValidPairs | path_length.py:271-275 | the inner loop keeps exactly the zipped pairs that cut the path, or stops at the first failing test |
| PathLengthScript.RearrangeData | path_length.py:258-278 | succeeds exactly when every path's pair test succeeds, and then builds exactly `Grouping`, the reference definition of the per-path halves of the kept pairs; otherwise the first failure |
| PathLengthScript.RearrangedPairs | path_length.py:267-278 | each path has as many labels as cuts; every kept cut cuts the path; both are subsequences of the inputs |
| PathLengthScript.ZipMisalignment | path_length.py:271 | a first cut without a label gets the second cut's label |
| PathLengthScript.FilterPolygons | path_length.py:212-237 | a cut-test failure comes first, then the duplicate-label error naming the duplicates; past both, it succeeds exactly when every path's re-test succeeds, giving the per-path grouping, and otherwise fails with the first path's re-test error |
| PathLengthScript.FilterCuts | path_length.py:212-216 | the walk over the cuts, keeping those whose test is true and stopping at the first raised error, yields the kept-cut list that `FilterOkSpec` and `KeptSpec` characterise |
| PathLengthScript.KeptSpec | path_length.py:212-226 | on success the kept cuts are exactly the cutting ones and the kept labels exactly those inside a kept cut, in order |
| PathLengthScript.PathLabels | path_length.py:472-473 | fails exactly when path and cut do not intersect (indexing an empty list); otherwise one label per vertex of the first intersection polygon |
| PathLengthScript.NatToString | path_length.py:410 | the decimal form of the index is non-empty and all digits |
| PathLengthScript.NatToStringInjective | path_length.py:410 | different numbers print differently |
| PathLengthScript.TailNameInjective | path_length.py:410 | a tail name determines its path index and tail counter |
| PathLengthScript.ConstructGraphDataFrame | path_length.py:400-419 | the enumerated nested loop builds exactly the edge-table specification, or its first failure |
| PathLengthScript.SplitRecords | path_length.py:403-417 | the loop over one path's pieces, with the tail counter starting at 0, builds that path's records |
| PathLengthScript.TailRecords | path_length.py:407-411 | the k-th piece with a single name yields an edge from that name to the path's tail numbered by the one-name pieces before it, with the piece's length |
| PathLengthScript.DistinctTails | path_length.py:410-411 | two one-name pieces of a path get different tail nodes |
| PathLengthScript.PieceRecordsRows | path_length.py:407-417 | every record is a piece's edge: between its two names, or from its single name to a tail, with its length |
| PathLengthScript.PieceRecordsFail | path_length.py:416 | building fails exactly when a piece with one or two names has no real length |
| PathLengthScript.PieceRecordsCount | path_length.py:406-417 | one record per piece with one or two names, so never more records than pieces |
| PathLengthScript.PathRecordsRows | path_length.py:402-417 | every record is the edge of a piece of the path at its enumerated position, a path with cuts, so its tails carry that position |
| PathLengthScript.PieceRowEnds | path_length.py:407-413 | a piece's edge starts at a moved label's text and ends at another, different such text or at a tail of its path |
| PathLengthScript.GraphRecordsRows | path_length.py:400-419 | every edge of the table comes from a piece of some path with cuts; it starts at the text of a label paired with a cut, and ends at a different such text or at a tail named after a path index |
| PathLengthScript.GetPathsReport | path_length.py:558-579 | fails exactly when there are fewer than two nodes (the columns cannot be set on an empty table); otherwise the deduplicated all-pairs records |
| PathLengthScript.ReportFromGeometry | path_length.py:641-645 | on a cell's geometry (cuts kept and grouped as `get_polygons` does at lines 99-104): the first failing cut test, the duplicate-label error, the first failing re-test, the edge table's failure, then too few nodes; otherwise the all-pairs report of the edge table built on the rearranged cuts and labels, with different ends and at most one row per pair |
| PathLengthScript.PathLength | path_length.py:627-645 | a missing file and the cell errors each produce their error; for the chosen cell it fails with the first failing cut test, then the duplicate-label error, then the first path's failing re-test, then the edge table's failure, then too few nodes, and otherwise succeeds with the all-pairs report of the edge table built on that cell's rearranged cuts and labels; rows have different ends and no two rows join the same two nodes in either order |

## Left out

- Geometry: polygon boolean operations, point containment, vertices, area and perimeter are parameters of `Engine`. So is the printed form of a result list. These are properties of gdstk, not of this code.
- Engine.inside: it is unconstrained. The model does not tie `inside(q, ps)` to containment in some polygon of `ps`, and it does not tie the set-wide test to the per-polygon one. No contract depends on either link.
- `math.sqrt` is a parameter too. Lemmas that need a true root require it explicitly (`IsRootAt`).
- `round(…, 12)` in `get_length`: real arithmetic is exact, so the discriminant is used unrounded.
- File access and GDS parsing (`os.path.isfile`, `gdstk.read_gds`, `top_level`, `get_polygons`, `get_labels`) are parameters of `Disk` and `Engine`.
- `get_polygons` (path_analysis.py:104-108, path_length.py:99-104) only chains `_get_polygons` and `filter_polygons`. It is inlined: `PathLength` calls the first, and `ReportFromGeometry` the second.
- `get_nx_graph` and networkx: the graph is its node list in first-appearance order (`GraphNodes`) plus a `Router` parameter for `shortest_path_length`.
  - Which of several parallel edges the graph keeps is also left to that parameter.
  - `nx.NetworkXNoPath` is the parameter's "no path" answer.
- pandas: a table is a sequence of rows.
  - The script names its columns `node1`/`node2` where the package uses `port1`/`port2`. Both are `Row.port1`/`Row.port2` here.
  - Column renaming and `drop` are not modelled.
- `list(set(names))` in `get_node_names` has an unspecified order. The model uses first-appearance order, so it fixes one of the allowed orders.
- Logging, and the messages written before `exit(1)`.
- The script's command-line entry point: docopt, the YAML configuration, the log directory and timing.
- `setup.py` and the tests.
- Integer widths: layer numbers and datatypes are unbounded integers. The default datatype 0 of the script is an ordinary parameter.
- SegmentLength.GetLength: it states the length's defining equation only when the `sqrt` parameter returns a true root.
