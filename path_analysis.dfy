/** The packaged pipeline (path_analysis/path_analysis.py): which cutting
    polygons count as cuts of the paths, which labels go with them, how they
    are grouped per path, how the path pieces become edge records, and how
    the all-pairs report is cleaned and filtered before it is returned. */
module PathAnalysis {
  import opened Seqs
  import opened Geometry
  import opened Duplication
  import opened SegmentLength
  import opened CellSelection
  import opened NodeLabels
  import opened Report

  /** `check_if_polygon_cuts_path`: `cut` is a valid cut of `paths` when
      removing it leaves several pieces, or when it overlaps them, leaves a
      single piece, and has no vertex inside them (which a cut sitting on a
      path's end would have). */
  predicate CutsPath(g: Engine, cut: Polygon, paths: seq<Polygon>)
    ensures |g.difference(paths, [cut])| > 1 ==> CutsPath(g, cut, paths)
    ensures g.difference(paths, [cut]) == [] ==> !CutsPath(g, cut, paths)
    ensures |g.difference(paths, [cut])| == 1 ==>
      (CutsPath(g, cut, paths) <==> g.intersection(paths, [cut]) != [] && !AnyVertexInside(g, cut, paths))
  {
    var split := g.difference(paths, [cut]);
    if |split| > 1 then true
    else if |split| == 1 && g.intersection(paths, [cut]) != [] then !AnyVertexInside(g, cut, paths)
    else false
  }

  function CutTest(g: Engine, paths: seq<Polygon>): Polygon -> bool {
    c => CutsPath(g, c, paths)
  }

  function InsideAny(g: Engine, cuts: seq<Polygon>): Label -> bool {
    (l: Label) => g.inside(l.origin, cuts)
  }

  /** The cutting polygons that cut some path, in layout order. */
  function KeptCuts(g: Engine, paths: seq<Polygon>, cuts: seq<Polygon>): seq<Polygon> {
    Filter(cuts, CutTest(g, paths))
  }

  /** The labels whose origin lies inside one of the kept cuts, in layout order. */
  function KeptLabels(g: Engine, kept: seq<Polygon>, labels: seq<Label>): seq<Label> {
    Filter(labels, InsideAny(g, kept))
  }

  /** The kept cuts are exactly the cutting polygons that cut a path, and the
      kept labels exactly the labels inside a kept cut, both in their
      original order. */
  lemma KeptSpec(g: Engine, paths: seq<Polygon>, cuts: seq<Polygon>, labels: seq<Label>)
    ensures forall c :: c in KeptCuts(g, paths, cuts) <==> c in cuts && CutsPath(g, c, paths)
    ensures Subsequence(KeptCuts(g, paths, cuts), cuts)
    ensures forall l :: l in KeptLabels(g, KeptCuts(g, paths, cuts), labels) <==>
      l in labels && g.inside(l.origin, KeptCuts(g, paths, cuts))
    ensures Subsequence(KeptLabels(g, KeptCuts(g, paths, cuts), labels), labels)
  {
    FilterMembership(cuts, CutTest(g, paths));
    FilterSubsequence(cuts, CutTest(g, paths));
    FilterMembership(labels, InsideAny(g, KeptCuts(g, paths, cuts)));
    FilterSubsequence(labels, InsideAny(g, KeptCuts(g, paths, cuts)));
  }

  /** The test a (cut, label) pair of the zip must pass to stay with a path:
      the cut cuts that one path and contains the label's origin. */
  function PairTest(g: Engine, path: Polygon): ((Polygon, Label)) -> bool {
    (pr: (Polygon, Label)) => CutsPath(g, pr.0, [path]) && g.inside(pr.1.origin, [pr.0])
  }

  /** The pairs kept for one path: `zip(cutting_polygons, sorted_labels)`
      filtered by the pair test. */
  function PathPairs(g: Engine, path: Polygon, cuts: seq<Polygon>, sorted: seq<Label>): seq<(Polygon, Label)> {
    Filter(Zip(cuts, sorted), PairTest(g, path))
  }

  /** The grouping `_rearrange_data` builds: for every path, the cuts and the
      labels of its kept (cut, label) pairs. */
  function Grouping(g: Engine, paths: seq<Polygon>, cuts: seq<Polygon>, labels: seq<Label>)
    : (seq<seq<Polygon>>, seq<seq<Label>>)
  {
    var sorted := SortedLabels(g, cuts, labels);
    (seq(|paths|, i requires 0 <= i < |paths| => Firsts(PathPairs(g, paths[i], cuts, sorted))),
     seq(|paths|, i requires 0 <= i < |paths| => Seconds(PathPairs(g, paths[i], cuts, sorted))))
  }

  /** `cutss` and `labelss` are the grouping of `paths`, `cuts` and `labels`. */
  ghost predicate IsRearranged(g: Engine, paths: seq<Polygon>, cuts: seq<Polygon>, labels: seq<Label>,
                               cutss: seq<seq<Polygon>>, labelss: seq<seq<Label>>)
  {
    (cutss, labelss) == Grouping(g, paths, cuts, labels)
  }

  /** `_rearrange_data`: assign labels to cuts, then, for every path, keep the
      zipped (cut, label) pairs that pass the pair test. */
  method RearrangeData(g: Engine, paths: seq<Polygon>, cuts: seq<Polygon>, labels: seq<Label>)
    returns (cutss: seq<seq<Polygon>>, labelss: seq<seq<Label>>)
    ensures IsRearranged(g, paths, cuts, labels, cutss, labelss)
  {
    var sorted := AssignLabels(g, cuts, labels);
    cutss, labelss := [], [];
    for i := 0 to |paths|
      invariant |cutss| == i && |labelss| == i
      invariant forall k :: 0 <= k < i ==>
        cutss[k] == Firsts(PathPairs(g, paths[k], cuts, sorted)) && labelss[k] == Seconds(PathPairs(g, paths[k], cuts, sorted))
    {
      var validCuts, validLabels := ValidPairs(g, paths[i], cuts, sorted);
      cutss := cutss + [validCuts];
      labelss := labelss + [validLabels];
    }
    ghost var q := Grouping(g, paths, cuts, labels);
    assert cutss == q.0 by {
      forall k | 0 <= k < |paths| ensures cutss[k] == q.0[k] { }
    }
    assert labelss == q.1 by {
      forall k | 0 <= k < |paths| ensures labelss[k] == q.1[k] { }
    }
  }

  /** The inner loop of `_rearrange_data` for one path. */
  method ValidPairs(g: Engine, path: Polygon, cuts: seq<Polygon>, sorted: seq<Label>)
    returns (validCuts: seq<Polygon>, validLabels: seq<Label>)
    ensures validCuts == Firsts(PathPairs(g, path, cuts, sorted))
    ensures validLabels == Seconds(PathPairs(g, path, cuts, sorted))
  {
    var zipped := Zip(cuts, sorted);
    var test := PairTest(g, path);
    validCuts, validLabels := [], [];
    ghost var pairs: seq<(Polygon, Label)> := [];
    for j := 0 to |zipped|
      invariant pairs == Filter(zipped[..j], test)
      invariant validCuts == Firsts(pairs) && validLabels == Seconds(pairs)
    {
      var (polygon, cutLabel) := zipped[j];
      assert zipped[..j + 1] == zipped[..j] + [zipped[j]];
      FilterAppend(zipped[..j], [zipped[j]], test);
      if CutsPath(g, polygon, [path]) {
        if g.inside(cutLabel.origin, [polygon]) {
          validCuts := validCuts + [polygon];
          validLabels := validLabels + [cutLabel];
          pairs := pairs + [(polygon, cutLabel)];
          assert validCuts == Firsts(pairs);
          assert validLabels == Seconds(pairs);
        }
      }
    }
    assert zipped[..|zipped|] == zipped;
  }

  /** Every kept pair passes the pair test, cuts and labels stay aligned, and
      both keep the order of the cut list and of the assigned labels. */
  lemma RearrangedPairs(g: Engine, paths: seq<Polygon>, cuts: seq<Polygon>, labels: seq<Label>,
                        cutss: seq<seq<Polygon>>, labelss: seq<seq<Label>>, i: nat)
    requires IsRearranged(g, paths, cuts, labels, cutss, labelss)
    requires i < |paths|
    ensures |cutss[i]| == |labelss[i]|
    ensures forall k :: 0 <= k < |cutss[i]| ==>
      CutsPath(g, cutss[i][k], [paths[i]]) && g.inside(labelss[i][k].origin, [cutss[i][k]])
    ensures Subsequence(cutss[i], cuts) && Subsequence(labelss[i], SortedLabels(g, cuts, labels))
  {
    var sorted := SortedLabels(g, cuts, labels);
    var pairs := PathPairs(g, paths[i], cuts, sorted);
    var idx := FilterIndexing(Zip(cuts, sorted), PairTest(g, paths[i]));
    ZipIndexing(pairs, cuts, sorted, idx);
    FilterMembership(Zip(cuts, sorted), PairTest(g, paths[i]));
    forall k | 0 <= k < |cutss[i]|
      ensures CutsPath(g, cutss[i][k], [paths[i]]) && g.inside(labelss[i][k].origin, [cutss[i][k]])
    {
      assert pairs[k] in pairs;
    }
  }

  /** When every cut contains a label, each kept label is the first label
      inside the cut it is paired with. */
  lemma RearrangedFirstLabel(g: Engine, paths: seq<Polygon>, cuts: seq<Polygon>, labels: seq<Label>,
                             cutss: seq<seq<Polygon>>, labelss: seq<seq<Label>>, i: nat)
    requires IsRearranged(g, paths, cuts, labels, cutss, labelss)
    requires i < |paths|
    requires forall c | c in cuts :: FirstInside(g, c, labels).Some?
    ensures forall k :: 0 <= k < |labelss[i]| && k < |cutss[i]| ==>
      FirstInside(g, cutss[i][k], labels) == Some(labelss[i][k])
  {
    var sorted := SortedLabels(g, cuts, labels);
    SortedLabelsAligned(g, cuts, labels);
    var idx := FilterIndexing(Zip(cuts, sorted), PairTest(g, paths[i]));
    ZipIndexing(PathPairs(g, paths[i], cuts, sorted), cuts, sorted, idx);
  }

  /** The zip at path_analysis.py:264 pairs the i-th kept cut with the i-th
      assigned label, and a cut without a label shifts the later labels down.
      With cuts [c1, c2] and the single label l2, inside c2 only, the zip
      pairs c1 with l2, their containment test fails, and c2 is lost on
      every path although it contains its label. */
  lemma ZipMisalignment(g: Engine, path: Polygon, c1: Polygon, c2: Polygon, l2: Label)
    requires !g.inside(l2.origin, [c1]) && g.inside(l2.origin, [c2])
    ensures FirstInside(g, c2, [l2]) == Some(l2)
    ensures SortedLabels(g, [c1, c2], [l2]) == [l2]
    ensures PathPairs(g, path, [c1, c2], SortedLabels(g, [c1, c2], [l2])) == []
  {
    assert [c1, c2][..1] == [c1];
    assert [c1][..0] == [];
    assert [l2][1..] == [];
    assert FirstInside(g, c1, [l2]) == None;
    assert FirstInside(g, c2, [l2]) == Some(l2);
    assert SortedLabels(g, [c1], [l2]) == [];
    assert SortedLabels(g, [c1, c2], [l2]) == SortedLabels(g, [c1], [l2]) + [l2];
    var z := Zip([c1, c2], [l2]);
    assert z == [(c1, l2)];
    assert z[1..] == [];
  }

  /** `filter_polygons`: keep the cuts and their labels, refuse repeated
      label texts, and group the rest per path. */
  method FilterPolygons(g: Engine, paths: seq<Polygon>, cuts: seq<Polygon>, labels: seq<Label>)
    returns (r: Result<(seq<seq<Polygon>>, seq<seq<Label>>)>)
    ensures r.Err? <==> !Distinct(Texts(KeptLabels(g, KeptCuts(g, paths, cuts), labels)))
    ensures r.Err? ==> r.error == DuplicateLabels(Duplicates(Texts(KeptLabels(g, KeptCuts(g, paths, cuts), labels))))
    ensures r.Ok? ==>
      IsRearranged(g, paths, KeptCuts(g, paths, cuts), KeptLabels(g, KeptCuts(g, paths, cuts), labels), r.value.0, r.value.1)
  {
    var kept := KeptCuts(g, paths, cuts);
    var keptLabels := KeptLabels(g, kept, labels);
    var duplicates := GetDuplicates(Texts(keptLabels));
    DuplicatesEmptyIff(Texts(keptLabels));
    if duplicates != [] {
      return Err(DuplicateLabels(duplicates));
    }
    var cutss, labelss := RearrangeData(g, paths, kept, keptLabels);
    return Ok((cutss, labelss));
  }

  /** `_get_path_labels`: one label with the cut's text at each vertex of the
      first polygon of the cut-and-path intersection; an empty intersection
      is fatal. */
  function PathLabels(g: Engine, path: Polygon, cut: Polygon, text: string): (r: Result<seq<Label>>)
    ensures r.Err? <==> g.intersection([cut], [path]) == []
    ensures r.Err? ==> r.error == NoIntersection
    ensures r.Ok? ==> forall l | l in r.value :: l.text == text && l.origin in g.vertices(g.intersection([cut], [path])[0])
    ensures r.Ok? ==> |r.value| == |g.vertices(g.intersection([cut], [path])[0])|
  {
    var inter := g.intersection([cut], [path]);
    if inter == [] then Err(NoIntersection) else Ok(LabelsAt(text, g.vertices(inter[0])))
  }

  /** `partial(_get_path_labels, path=...)` as the placement handed to
      `move_labels_on_path`. */
  function Labeler(g: Engine): NodeLabels.Labeler {
    (path, cut, text) => PathLabels(g, path, cut, text)
  }

  /** The package's placement only writes the text it is given, so every
      moved label carries the text of a label paired with a cut. */
  lemma MovedLabelTexts(g: Engine, groups: seq<(Polygon, (seq<Polygon>, seq<Label>))>)
    ensures MovedOver(Labeler(g), groups).Ok? ==>
      forall l | l in MovedOver(Labeler(g), groups).value :: PairedText(groups, l.text)
  {
    assert KeepsText(Labeler(g));
    MovedTexts(Labeler(g), groups);
  }

  /** `split_polygon`: the pieces left of a path once its cuts are removed. */
  function Pieces(g: Engine, path: Polygon, cuts: seq<Polygon>): seq<Polygon> {
    g.difference([path], cuts)
  }

  /** `row` is the edge of `piece`: the piece's node names are exactly its
      two ends and its length is the row's length. */
  predicate IsPieceRow(g: Engine, piece: Polygon, moved: seq<Label>, row: Row) {
    NodeNames(g, piece, moved) == [row.port1, row.port2] && PieceLength(g, piece) == Ok(row.length)
  }

  /** The record of one piece. Only a piece named by exactly two labels gives
      an edge; the one-name branch `continue`s before its tail lines, which
      therefore never run. */
  function PieceRecord(g: Engine, piece: Polygon, moved: seq<Label>): Result<seq<Row>> {
    var names := NodeNames(g, piece, moved);
    if |names| == 2 then
      match PieceLength(g, piece)
      case Ok(len) => Ok([Row(names[0], names[1], len)])
      case Err(e) => Err(e)
    else Ok([])
  }

  /** The records of a path's pieces, in piece order; the first failing
      length aborts. */
  function PieceRecords(g: Engine, pieces: seq<Polygon>, moved: seq<Label>): Result<seq<Row>> {
    if pieces == [] then Ok([])
    else Chain(PieceRecord(g, pieces[0], moved), PieceRecords(g, pieces[1..], moved))
  }

  /** The records of every (path, cuts) pair; a path without cuts gives none. */
  function PathRecords(g: Engine, pairs: seq<(Polygon, seq<Polygon>)>, moved: seq<Label>): Result<seq<Row>> {
    if pairs == [] then Ok([])
    else
      Chain(if pairs[0].1 == [] then Ok([]) else PieceRecords(g, Pieces(g, pairs[0].0, pairs[0].1), moved),
            PathRecords(g, pairs[1..], moved))
  }

  /** The edge table: move the labels onto the paths, then collect the
      records of every path. */
  function GraphRecords(g: Engine, paths: seq<Polygon>, cutss: seq<seq<Polygon>>, labelss: seq<seq<Label>>)
    : Result<seq<Row>>
  {
    var moved :- MovedOver(Labeler(g), Groups(paths, cutss, labelss));
    PathRecords(g, Zip(paths, cutss), moved)
  }

  /** `construct_graph_data_frame`: move the labels, then walk the paths
      that have cuts and their pieces. */
  method ConstructGraphDataFrame(g: Engine, paths: seq<Polygon>, cutss: seq<seq<Polygon>>, labelss: seq<seq<Label>>)
    returns (r: Result<seq<Row>>)
    ensures r == GraphRecords(g, paths, cutss, labelss)
  {
    var movedResult := MoveLabelsOnPath(Labeler(g), paths, cutss, labelss);
    if movedResult.Err? {
      return Err(movedResult.error);
    }
    var moved := movedResult.value;
    var pairs := Zip(paths, cutss);
    var records: seq<Row> := [];
    var i := 0;
    assert pairs[0..] == pairs;
    PrependNothing(PathRecords(g, pairs, moved));
    while i < |pairs|
      invariant 0 <= i <= |pairs|
      invariant PathRecords(g, pairs, moved) == Prepend(records, PathRecords(g, pairs[i..], moved))
    {
      var (poly, cuttingPolys) := pairs[i];
      assert pairs[i..][1..] == pairs[i + 1..];
      var rest := PathRecords(g, pairs[i + 1..], moved);
      if cuttingPolys != [] {
        var pieceRecords := SplitRecords(g, Pieces(g, poly, cuttingPolys), moved);
        if pieceRecords.Err? {
          return Err(pieceRecords.error);
        }
        PrependPrepend(records, pieceRecords.value, rest);
        records := records + pieceRecords.value;
      } else {
        PrependNothing(rest);
      }
      i := i + 1;
    }
    assert pairs[i..] == [];
    assert records + [] == records;
    return Ok(records);
  }

  /** The inner loop of `construct_graph_data_frame` over one path's pieces. */
  method SplitRecords(g: Engine, pieces: seq<Polygon>, moved: seq<Label>) returns (r: Result<seq<Row>>)
    ensures r == PieceRecords(g, pieces, moved)
  {
    var records: seq<Row> := [];
    var j := 0;
    assert pieces[0..] == pieces;
    PrependNothing(PieceRecords(g, pieces, moved));
    while j < |pieces|
      invariant 0 <= j <= |pieces|
      invariant PieceRecords(g, pieces, moved) == Prepend(records, PieceRecords(g, pieces[j..], moved))
    {
      assert pieces[j..][1..] == pieces[j + 1..];
      var later := PieceRecords(g, pieces[j + 1..], moved);
      var names := GetNodeNames(g, pieces[j], moved);
      if |names| == 2 {
        var length := PieceLength(g, pieces[j]);
        if length.Err? {
          return Err(length.error);
        }
        var row := [Row(names[0], names[1], length.value)];
        PrependPrepend(records, row, later);
        records := records + row;
      } else {
        PrependNothing(later);
      }
      j := j + 1;
    }
    assert pieces[j..] == [];
    assert records + [] == records;
    return Ok(records);
  }

  /** Every record of a path's pieces is the edge of one of them. */
  lemma {:induction false} PieceRecordsRows(g: Engine, pieces: seq<Polygon>, moved: seq<Label>)
    ensures PieceRecords(g, pieces, moved).Ok? ==>
      forall row | row in PieceRecords(g, pieces, moved).value ::
        exists k :: 0 <= k < |pieces| && IsPieceRow(g, pieces[k], moved, row)
  {
    if pieces != [] {
      PieceRecordsRows(g, pieces[1..], moved);
      assert forall k :: 1 <= k < |pieces| ==> pieces[1..][k - 1] == pieces[k];
      var names := NodeNames(g, pieces[0], moved);
      if |names| == 2 && PieceLength(g, pieces[0]).Ok? {
        assert names == [names[0], names[1]];
        assert IsPieceRow(g, pieces[0], moved, Row(names[0], names[1], PieceLength(g, pieces[0]).value));
      }
    }
  }

  /** Building a path's records fails exactly when a two-name piece has no
      real length. */
  lemma {:induction false} PieceRecordsFail(g: Engine, pieces: seq<Polygon>, moved: seq<Label>)
    ensures PieceRecords(g, pieces, moved).Err? <==>
      exists k :: 0 <= k < |pieces| && |NodeNames(g, pieces[k], moved)| == 2 && PieceLength(g, pieces[k]).Err?
  {
    if pieces != [] {
      PieceRecordsFail(g, pieces[1..], moved);
      assert forall k :: 1 <= k < |pieces| ==> pieces[1..][k - 1] == pieces[k];
    }
  }

  function TwoNames(g: Engine, moved: seq<Label>): Polygon -> bool {
    p => |NodeNames(g, p, moved)| == 2
  }

  /** There is one record per piece named by exactly two labels. */
  lemma {:induction false} PieceRecordsCount(g: Engine, pieces: seq<Polygon>, moved: seq<Label>)
    ensures PieceRecords(g, pieces, moved).Ok? ==>
      |PieceRecords(g, pieces, moved).value| == |Filter(pieces, TwoNames(g, moved))| <= |pieces|
  {
    if pieces != [] {
      PieceRecordsCount(g, pieces[1..], moved);
    }
  }

  /** Every record of the edge table is the edge of a piece of some path
      that has cuts. */
  lemma {:induction false} PathRecordsRows(g: Engine, pairs: seq<(Polygon, seq<Polygon>)>, moved: seq<Label>)
    ensures PathRecords(g, pairs, moved).Ok? ==>
      forall row | row in PathRecords(g, pairs, moved).value ::
        exists i, k :: 0 <= i < |pairs| && pairs[i].1 != [] && 0 <= k < |Pieces(g, pairs[i].0, pairs[i].1)|
          && IsPieceRow(g, Pieces(g, pairs[i].0, pairs[i].1)[k], moved, row)
  {
    if pairs != [] {
      PathRecordsRows(g, pairs[1..], moved);
      assert forall i :: 1 <= i < |pairs| ==> pairs[1..][i - 1] == pairs[i];
      if pairs[0].1 != [] {
        PieceRecordsRows(g, Pieces(g, pairs[0].0, pairs[0].1), moved);
      }
    }
  }

  /** Every edge joins two different node names, and each name is the text
      of a label that was paired with a cut of some path. */
  lemma GraphRecordsRows(g: Engine, paths: seq<Polygon>, cutss: seq<seq<Polygon>>, labelss: seq<seq<Label>>)
    ensures GraphRecords(g, paths, cutss, labelss).Ok? ==>
      forall row | row in GraphRecords(g, paths, cutss, labelss).value ::
        row.port1 != row.port2
          && PairedText(Groups(paths, cutss, labelss), row.port1)
          && PairedText(Groups(paths, cutss, labelss), row.port2)
  {
    var groups := Groups(paths, cutss, labelss);
    var movedResult := MovedOver(Labeler(g), groups);
    if movedResult.Ok? {
      var moved := movedResult.value;
      var pairs := Zip(paths, cutss);
      PathRecordsRows(g, pairs, moved);
      MovedLabelTexts(g, groups);
      forall row | PathRecords(g, pairs, moved).Ok? && row in PathRecords(g, pairs, moved).value
        ensures row.port1 != row.port2 && PairedText(groups, row.port1) && PairedText(groups, row.port2)
      {
        var i, k :| 0 <= i < |pairs| && pairs[i].1 != [] && 0 <= k < |Pieces(g, pairs[i].0, pairs[i].1)|
          && IsPieceRow(g, Pieces(g, pairs[i].0, pairs[i].1)[k], moved, row);
        var piece := Pieces(g, pairs[i].0, pairs[i].1)[k];
        var names := NodeNames(g, piece, moved);
        NodeNamesSpec(g, piece, moved);
        assert names[0] == row.port1 && names[1] == row.port2;
        assert row.port1 in names && row.port2 in names;
        var a :| 0 <= a < |moved| && g.inside(moved[a].origin, [piece]) && moved[a].text == row.port1;
        var b :| 0 <= b < |moved| && g.inside(moved[b].origin, [piece]) && moved[b].text == row.port2;
        assert moved[a] in moved && moved[b] in moved;
      }
    }
  }

  /** `get_paths_report` over the graph's nodes; when no pair of nodes
      exists the run stops. */
  method GetPathsReport(nodes: seq<string>, dist: Distance) returns (r: Result<seq<Row>>)
    requires Distinct(nodes)
    ensures r.Err? <==> |nodes| <= 1
    ensures r.Err? ==> r.error == NoNodes
    ensures r.Ok? ==> r.value == DropDuplicateKeys(AllPairs(dist, nodes, nodes))
  {
    var records := PairRecords(nodes, dist);
    AllPairsEmpty(dist, nodes);
    if records == [] {
      return Err(NoNodes);
    }
    return Ok(DropDuplicateKeys(records));
  }

  predicate PositiveLength(row: Row) {
    row.length > 0.0
  }

  /** `report[report["length (um)"] > 0]`. */
  function PositiveRows(rows: seq<Row>): seq<Row> {
    Filter(rows, PositiveLength)
  }

  function AmongNodes(nodes: seq<string>): Row -> bool {
    (row: Row) => row.port1 in nodes && row.port2 in nodes
  }

  /** `filter_path_report`: the rows both of whose ends are among `nodes`. */
  function FilterPathReport(rows: seq<Row>, nodes: seq<string>): seq<Row> {
    Filter(rows, AmongNodes(nodes))
  }

  /** The report keeps exactly the rows of positive length, in order, so
      unreachable pairs (−1) and zero-length pairs are gone. */
  lemma PositiveRowsSpec(rows: seq<Row>)
    ensures forall row :: row in PositiveRows(rows) <==> row in rows && row.length > 0.0
    ensures Subsequence(PositiveRows(rows), rows)
  {
    FilterMembership(rows, PositiveLength);
    FilterSubsequence(rows, PositiveLength);
  }

  /** The node filter keeps exactly the rows between requested nodes, in order. */
  lemma FilterPathReportSpec(rows: seq<Row>, nodes: seq<string>)
    ensures forall row :: row in FilterPathReport(rows, nodes) <==>
      row in rows && row.port1 in nodes && row.port2 in nodes
    ensures Subsequence(FilterPathReport(rows, nodes), rows)
  {
    FilterMembership(rows, AmongNodes(nodes));
    FilterSubsequence(rows, AmongNodes(nodes));
  }

  /** Requesting nodes that cover every row changes nothing. */
  lemma FilterPathReportAll(rows: seq<Row>, nodes: seq<string>)
    requires forall i :: 0 <= i < |rows| ==> rows[i].port1 in nodes && rows[i].port2 in nodes
    ensures FilterPathReport(rows, nodes) == rows
  {
    FilterKeepsAll(rows, AmongNodes(nodes));
  }

  /** The tail of `path_length`: drop non-positive lengths, then, when nodes
      were requested, keep only rows between them. */
  function CleanReport(report: seq<Row>, nodes: seq<string>): seq<Row> {
    var clean := PositiveRows(report);
    if nodes != [] then FilterPathReport(clean, nodes) else clean
  }

  lemma CleanReportSpec(report: seq<Row>, nodes: seq<string>)
    ensures forall row :: row in CleanReport(report, nodes) <==>
      row in report && row.length > 0.0 && (nodes != [] ==> row.port1 in nodes && row.port2 in nodes)
    ensures Subsequence(CleanReport(report, nodes), report)
  {
    PositiveRowsSpec(report);
    if nodes != [] {
      FilterPathReportSpec(PositiveRows(report), nodes);
      FilterFilter(report, PositiveLength, AmongNodes(nodes));
      FilterSubsequence(report, Both(PositiveLength, AmongNodes(nodes)));
    }
  }

  /** `key_exist_dict`: the value under `key`; a missing key is fatal. */
  function KeyExistDict(key: string, d: map<string, int>): (r: Result<int>)
    ensures r.Ok? <==> key in d
    ensures r.Ok? ==> r.value == d[key]
    ensures r.Err? ==> r.error == MissingKey(key)
  {
    if key in d then Ok(d[key]) else Err(MissingKey(key))
  }

  predicate HasLayerKeys(d: map<string, int>) {
    "layer_no" in d && "layer_dtype" in d
  }

  /** The outcome of `path_length` once the chosen cell's geometry is read:
      the duplicate-label error, then the failures of the edge table built on
      the rearranged cuts, then too few nodes; otherwise the cleaned all-pairs
      report of that edge table. */
  ghost predicate ReportOutcome(g: Engine, paths: seq<Polygon>, cuts: seq<Polygon>, labels: seq<Label>,
                                nodes: seq<string>, router: Router, r: Result<seq<Row>>)
  {
    var kept := KeptCuts(g, paths, cuts);
    var keptLabels := KeptLabels(g, kept, labels);
    var grouping := Grouping(g, paths, kept, keptLabels);
    var edges := GraphRecords(g, paths, grouping.0, grouping.1);
    && (r.Ok? <==> Distinct(Texts(keptLabels)) && edges.Ok? && |GraphNodes(edges.value)| >= 2)
    && (!Distinct(Texts(keptLabels)) ==> r == Err(DuplicateLabels(Duplicates(Texts(keptLabels)))))
    && (Distinct(Texts(keptLabels)) && edges.Err? ==> r == Err(edges.error))
    && (Distinct(Texts(keptLabels)) && edges.Ok? && |GraphNodes(edges.value)| <= 1 ==> r == Err(NoNodes))
    && (r.Ok? ==> r.value == CleanReport(EdgeReport(router, edges.value), nodes))
  }

  /** The stages of `path_length` after the cell's geometry is read: keep
      and group the cuts, build the edge table and its graph, report every
      pair, and clean the report. */
  method ReportFromGeometry(g: Engine, paths: seq<Polygon>, cuts: seq<Polygon>, labels: seq<Label>,
                            nodes: seq<string>, router: Router)
    returns (r: Result<seq<Row>>)
    ensures ReportOutcome(g, paths, cuts, labels, nodes, router, r)
    ensures r.Ok? ==> exists edges :: |GraphNodes(edges)| >= 2 && r.value == CleanReport(EdgeReport(router, edges), nodes)
    ensures r.Ok? ==> forall row | row in r.value ::
      row.length > 0.0 && row.port1 != row.port2 && (nodes != [] ==> row.port1 in nodes && row.port2 in nodes)
    ensures r.Ok? ==> OnePerPair(r.value)
  {
    var grouped :- FilterPolygons(g, paths, cuts, labels);
    var edges :- ConstructGraphDataFrame(g, paths, grouped.0, grouped.1);
    var graphNodes := GraphNodes(edges);
    GraphNodesSpec(edges);
    var report :- GetPathsReport(graphNodes, router(edges));
    ReportRows(router(edges), graphNodes);
    CleanReportSpec(report, nodes);
    OnePerPairSubsequence(CleanReport(report, nodes), report);
    r := Ok(CleanReport(report, nodes));
  }

  /** `path_length`: read both layer specifications, check the layout file,
      choose the cell, and report on its geometry. */
  method PathLength(g: Engine, disk: Disk, gdsFile: string, pathLayer: map<string, int>,
                    cuttingLayer: map<string, int>, cellName: Option<string>, nodes: seq<string>, router: Router)
    returns (r: Result<seq<Row>>)
    ensures "layer_no" !in pathLayer ==> r == Err(MissingKey("layer_no"))
    ensures "layer_no" in pathLayer && "layer_dtype" !in pathLayer ==> r == Err(MissingKey("layer_dtype"))
    ensures HasLayerKeys(pathLayer) && "layer_no" !in cuttingLayer ==> r == Err(MissingKey("layer_no"))
    ensures HasLayerKeys(pathLayer) && "layer_no" in cuttingLayer && "layer_dtype" !in cuttingLayer ==>
      r == Err(MissingKey("layer_dtype"))
    ensures HasLayerKeys(pathLayer) && HasLayerKeys(cuttingLayer) && !disk.isFile(gdsFile) ==>
      r == Err(FileNotFound(gdsFile))
    ensures HasLayerKeys(pathLayer) && HasLayerKeys(cuttingLayer) && disk.isFile(gdsFile) ==>
      var cells := disk.topLevel(gdsFile);
      && (|cells| == 0 ==> r == Err(NoCells))
      && (|cells| > 1 && cellName.None? ==> r == Err(CellNameRequired))
      && (|cells| > 0 && cellName.Some? && (forall c | c in cells :: c.name != cellName.value) ==>
            r == Err(InvalidCellName))
    ensures HasLayerKeys(pathLayer) && HasLayerKeys(cuttingLayer) && disk.isFile(gdsFile) ==>
      forall c | Chosen(disk.topLevel(gdsFile), cellName, c) ::
        var geometry := CellGeometry(g, c, LayerSelector(pathLayer["layer_no"], pathLayer["layer_dtype"]),
                                     LayerSelector(cuttingLayer["layer_no"], cuttingLayer["layer_dtype"]));
        ReportOutcome(g, geometry.0, geometry.1, geometry.2, nodes, router, r)
    ensures r.Ok? ==> exists edges :: |GraphNodes(edges)| >= 2 && r.value == CleanReport(EdgeReport(router, edges), nodes)
    ensures r.Ok? ==> forall row | row in r.value ::
      row.length > 0.0 && row.port1 != row.port2 && (nodes != [] ==> row.port1 in nodes && row.port2 in nodes)
    ensures r.Ok? ==> OnePerPair(r.value)
  {
    var pathNo :- KeyExistDict("layer_no", pathLayer);
    var pathDtype :- KeyExistDict("layer_dtype", pathLayer);
    var cutNo :- KeyExistDict("layer_no", cuttingLayer);
    var cutDtype :- KeyExistDict("layer_dtype", cuttingLayer);
    if !disk.isFile(gdsFile) {
      return Err(FileNotFound(gdsFile));
    }
    var cells := disk.topLevel(gdsFile);
    var geometry :- GetPolygons(g, cells, LayerSelector(pathNo, pathDtype), LayerSelector(cutNo, cutDtype), cellName);
    ghost var chosen :| Chosen(cells, cellName, chosen)
      && geometry == CellGeometry(g, chosen, LayerSelector(pathNo, pathDtype), LayerSelector(cutNo, cutDtype));
    forall c | Chosen(cells, cellName, c)
      ensures c == chosen
    {
      ChosenUnique(cells, cellName, c, chosen);
    }
    var (paths, cuts, labels) := geometry;
    r := ReportFromGeometry(g, paths, cuts, labels, nodes, router);
  }
}
