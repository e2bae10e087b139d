/** The label bookkeeping both source files share: giving each kept cut its
    label (the first loop of `_rearrange_data`), placing the moved labels on
    the paths (`move_labels_on_path`, with the per-pair placement of each file
    passed in, as the source passes it through `partial`), and naming a path
    piece by the labels inside it (`get_node_names`). */
module NodeLabels {
  import opened Seqs
  import opened Geometry

  /** The first label, in label order, whose origin lies inside `cut`. */
  function FirstInside(g: Engine, cut: Polygon, labels: seq<Label>): Option<Label> {
    if labels == [] then None
    else if g.inside(labels[0].origin, [cut]) then Some(labels[0])
    else FirstInside(g, cut, labels[1..])
  }

  /** No label is found exactly when no label lies inside the cut; a found
      label is the earliest one inside it. */
  lemma {:induction false} FirstInsideSpec(g: Engine, cut: Polygon, labels: seq<Label>)
    ensures FirstInside(g, cut, labels).None? <==> forall i :: 0 <= i < |labels| ==> !g.inside(labels[i].origin, [cut])
    ensures FirstInside(g, cut, labels).Some? ==>
      exists k :: 0 <= k < |labels| && labels[k] == FirstInside(g, cut, labels).value
        && g.inside(labels[k].origin, [cut]) && forall j :: 0 <= j < k ==> !g.inside(labels[j].origin, [cut])
  {
    if labels != [] && !g.inside(labels[0].origin, [cut]) {
      FirstInsideSpec(g, cut, labels[1..]);
      assert forall i :: 0 < i < |labels| ==> labels[i] == labels[1..][i - 1];
      if FirstInside(g, cut, labels).Some? {
        var k :| 0 <= k < |labels[1..]| && labels[1..][k] == FirstInside(g, cut, labels).value
          && g.inside(labels[1..][k].origin, [cut]) && forall j :: 0 <= j < k ==> !g.inside(labels[1..][j].origin, [cut]);
        assert labels[k + 1] == labels[1..][k];
      }
    }
  }

  function OptionToSeq<T>(o: Option<T>): seq<T> {
    match o
    case None => []
    case Some(x) => [x]
  }

  /** The labels assigned to the cuts, in cut order; a cut that contains no
      label contributes nothing, so later labels move up. */
  function SortedLabels(g: Engine, cuts: seq<Polygon>, labels: seq<Label>): seq<Label> {
    if cuts == [] then []
    else SortedLabels(g, cuts[..|cuts| - 1], labels) + OptionToSeq(FirstInside(g, cuts[|cuts| - 1], labels))
  }

  /** The first loop of `_rearrange_data`: for each cut, scan the labels and
      append the first one whose origin the cut contains. */
  method AssignLabels(g: Engine, cuts: seq<Polygon>, labels: seq<Label>) returns (sorted: seq<Label>)
    ensures sorted == SortedLabels(g, cuts, labels)
  {
    sorted := [];
    for i := 0 to |cuts|
      invariant sorted == SortedLabels(g, cuts[..i], labels)
    {
      assert cuts[..i + 1][..i] == cuts[..i];
      var j := 0;
      while j < |labels|
        invariant 0 <= j <= |labels|
        invariant sorted == SortedLabels(g, cuts[..i], labels)
        invariant FirstInside(g, cuts[i], labels) == FirstInside(g, cuts[i], labels[j..])
      {
        assert labels[j..][1..] == labels[j + 1..];
        if g.inside(labels[j].origin, [cuts[i]]) {
          sorted := sorted + [labels[j]];
          break;
        }
        j := j + 1;
      }
    }
    assert cuts[..|cuts|] == cuts;
  }

  /** The cuts that contain some label. */
  function Labelled(g: Engine, cuts: seq<Polygon>, labels: seq<Label>): seq<Polygon> {
    Filter(cuts, c => FirstInside(g, c, labels).Some?)
  }

  /** One label per cut that contains a label, so the list is no longer than the cuts. */
  lemma {:induction false} SortedLabelsLength(g: Engine, cuts: seq<Polygon>, labels: seq<Label>)
    ensures |SortedLabels(g, cuts, labels)| == |Labelled(g, cuts, labels)| <= |cuts|
  {
    if cuts != [] {
      var init := cuts[..|cuts| - 1];
      SortedLabelsLength(g, init, labels);
      assert cuts == init + [cuts[|cuts| - 1]];
      FilterAppend(init, [cuts[|cuts| - 1]], c => FirstInside(g, c, labels).Some?);
    }
  }

  /** When every cut contains a label, the i-th assigned label is the first
      label inside the i-th cut. */
  lemma {:induction false} SortedLabelsAligned(g: Engine, cuts: seq<Polygon>, labels: seq<Label>)
    requires forall i :: 0 <= i < |cuts| ==> FirstInside(g, cuts[i], labels).Some?
    ensures |SortedLabels(g, cuts, labels)| == |cuts|
    ensures forall i :: 0 <= i < |cuts| ==> SortedLabels(g, cuts, labels)[i] == FirstInside(g, cuts[i], labels).value
  {
    if cuts != [] {
      var init := cuts[..|cuts| - 1];
      var last := cuts[|cuts| - 1];
      assert forall i :: 0 <= i < |init| ==> init[i] == cuts[i];
      SortedLabelsAligned(g, init, labels);
      var first := FirstInside(g, last, labels);
      assert first.Some?;
      var sorted := SortedLabels(g, cuts, labels);
      assert sorted == SortedLabels(g, init, labels) + [first.value];
      forall i | 0 <= i < |cuts|
        ensures sorted[i] == FirstInside(g, cuts[i], labels).value
      {
        if i < |init| {
          assert sorted[i] == SortedLabels(g, init, labels)[i];
        }
      }
    }
  }

  /** The labels a placement creates: `text` at each of the given points, in
      order (the comprehension at the end of `_get_path_labels`). */
  function LabelsAt(text: string, points: seq<Point>): (r: seq<Label>)
    ensures |r| == |points| && forall k :: 0 <= k < |points| ==> r[k] == Label(text, points[k])
  {
    seq(|points|, k requires 0 <= k < |points| => Label(text, points[k]))
  }

  /** Places labels on `path` for the cut `cut` carrying `text`. */
  type Labeler = (Polygon, Polygon, string) -> Result<seq<Label>>

  /** The moved labels of one path, pair by pair; the first failure aborts. */
  function MovedAlong(place: Labeler, path: Polygon, pairs: seq<(Polygon, Label)>): Result<seq<Label>> {
    if pairs == [] then Ok([])
    else Chain(place(path, pairs[0].0, pairs[0].1.text), MovedAlong(place, path, pairs[1..]))
  }

  /** The moved labels of all paths, path by path. */
  function MovedOver(place: Labeler, groups: seq<(Polygon, (seq<Polygon>, seq<Label>))>): Result<seq<Label>> {
    if groups == [] then Ok([])
    else
      Chain(MovedAlong(place, groups[0].0, Zip(groups[0].1.0, groups[0].1.1)), MovedOver(place, groups[1..]))
  }

  /** `zip(path_polygons, cutting_polygons, labels)`, as nested pairs. */
  function Groups(paths: seq<Polygon>, cutss: seq<seq<Polygon>>, labelss: seq<seq<Label>>)
    : seq<(Polygon, (seq<Polygon>, seq<Label>))>
  {
    Zip(paths, Zip(cutss, labelss))
  }

  /** `move_labels_on_path`: concatenate, over the paths and then over each
      path's (cut, label) pairs, the labels that `place` puts on the path. */
  method MoveLabelsOnPath(place: Labeler, paths: seq<Polygon>, cutss: seq<seq<Polygon>>, labelss: seq<seq<Label>>)
    returns (r: Result<seq<Label>>)
    ensures r == MovedOver(place, Groups(paths, cutss, labelss))
  {
    var groups := Groups(paths, cutss, labelss);
    var moved: seq<Label> := [];
    var i := 0;
    assert groups[0..] == groups;
    PrependNothing(MovedOver(place, groups));
    while i < |groups|
      invariant 0 <= i <= |groups|
      invariant MovedOver(place, groups) == Prepend(moved, MovedOver(place, groups[i..]))
    {
      var path := groups[i].0;
      var pairs := Zip(groups[i].1.0, groups[i].1.1);
      assert groups[i..][1..] == groups[i + 1..];
      var rest := MovedOver(place, groups[i + 1..]);
      var j := 0;
      while j < |pairs|
        invariant 0 <= j <= |pairs|
        invariant MovedOver(place, groups) == Prepend(moved, Chain(MovedAlong(place, path, pairs[j..]), rest))
      {
        assert pairs[j..][1..] == pairs[j + 1..];
        var placed := place(path, pairs[j].0, pairs[j].1.text);
        if placed.Err? {
          return Err(placed.error);
        }
        ChainPrepend(placed.value, MovedAlong(place, path, pairs[j + 1..]), rest);
        PrependPrepend(moved, placed.value, Chain(MovedAlong(place, path, pairs[j + 1..]), rest));
        moved := moved + placed.value;
        j := j + 1;
      }
      assert pairs[j..] == [];
      PrependNothing(rest);
      i := i + 1;
    }
    assert groups[i..] == [];
    assert moved + [] == moved;
    return Ok(moved);
  }

  /** `t` is the text of a label paired with a cut of some path. */
  ghost predicate PairedText(groups: seq<(Polygon, (seq<Polygon>, seq<Label>))>, t: string) {
    exists i, j :: 0 <= i < |groups| && 0 <= j < |Zip(groups[i].1.0, groups[i].1.1)|
      && Zip(groups[i].1.0, groups[i].1.1)[j].1.text == t
  }

  /** A placement that only ever writes the text it is given. */
  ghost predicate KeepsText(place: Labeler) {
    forall path, cut, t :: place(path, cut, t).Ok? ==> forall l | l in place(path, cut, t).value :: l.text == t
  }

  lemma {:induction false} MovedAlongTexts(place: Labeler, path: Polygon, pairs: seq<(Polygon, Label)>)
    requires KeepsText(place)
    ensures MovedAlong(place, path, pairs).Ok? ==>
      forall l | l in MovedAlong(place, path, pairs).value :: exists j :: 0 <= j < |pairs| && pairs[j].1.text == l.text
  {
    if pairs != [] {
      MovedAlongTexts(place, path, pairs[1..]);
      assert forall j :: 1 <= j < |pairs| ==> pairs[1..][j - 1] == pairs[j];
    }
  }

  /** Every moved label carries the text of a label that was paired with a cut. */
  lemma {:induction false} MovedTexts(place: Labeler, groups: seq<(Polygon, (seq<Polygon>, seq<Label>))>)
    requires KeepsText(place)
    ensures MovedOver(place, groups).Ok? ==>
      forall l | l in MovedOver(place, groups).value :: PairedText(groups, l.text)
  {
    if groups != [] {
      MovedTexts(place, groups[1..]);
      MovedAlongTexts(place, groups[0].0, Zip(groups[0].1.0, groups[0].1.1));
      assert forall i :: 1 <= i < |groups| ==> groups[1..][i - 1] == groups[i];
      if MovedOver(place, groups).Ok? {
        forall l | l in MovedOver(place, groups).value
          ensures PairedText(groups, l.text)
        {
          var head := MovedAlong(place, groups[0].0, Zip(groups[0].1.0, groups[0].1.1));
          if l in head.value {
            var j :| 0 <= j < |Zip(groups[0].1.0, groups[0].1.1)| && Zip(groups[0].1.0, groups[0].1.1)[j].1.text == l.text;
            assert PairedText(groups, l.text) by {
              assert 0 <= 0 < |groups| && 0 <= j < |Zip(groups[0].1.0, groups[0].1.1)|;
            }
          } else {
            assert PairedText(groups[1..], l.text);
            var i, j :| 0 <= i < |groups[1..]| && 0 <= j < |Zip(groups[1..][i].1.0, groups[1..][i].1.1)|
              && Zip(groups[1..][i].1.0, groups[1..][i].1.1)[j].1.text == l.text;
            assert groups[1..][i] == groups[i + 1];
          }
        }
      }
    }
  }

  /** The moving fails exactly when placing some paired label fails. */
  lemma {:induction false} MovedAlongFails(place: Labeler, path: Polygon, pairs: seq<(Polygon, Label)>)
    ensures MovedAlong(place, path, pairs).Err? <==>
      exists j :: 0 <= j < |pairs| && place(path, pairs[j].0, pairs[j].1.text).Err?
  {
    if pairs != [] {
      MovedAlongFails(place, path, pairs[1..]);
      assert forall j :: 1 <= j < |pairs| ==> pairs[1..][j - 1] == pairs[j];
    }
  }

  /** The texts of the labels whose origin lies inside `piece`, each once,
      in first-appearance order. */
  function NodeNames(g: Engine, piece: Polygon, labels: seq<Label>): seq<string> {
    if labels == [] then []
    else
      var last := labels[|labels| - 1];
      var front := NodeNames(g, piece, labels[..|labels| - 1]);
      if g.inside(last.origin, [piece]) && last.text !in front then front + [last.text] else front
  }

  /** The names are distinct and are exactly the texts of the labels inside the piece. */
  lemma {:induction false} NodeNamesSpec(g: Engine, piece: Polygon, labels: seq<Label>)
    ensures Distinct(NodeNames(g, piece, labels))
    ensures forall t :: t in NodeNames(g, piece, labels) <==>
      exists i :: 0 <= i < |labels| && g.inside(labels[i].origin, [piece]) && labels[i].text == t
  {
    if labels != [] {
      var init := labels[..|labels| - 1];
      NodeNamesSpec(g, piece, init);
      assert forall i :: 0 <= i < |init| ==> init[i] == labels[i];
    }
  }

  /** `get_node_names`: scan the labels, collect the text of each one whose
      origin lies inside the piece, and keep each text once. */
  method GetNodeNames(g: Engine, piece: Polygon, labels: seq<Label>) returns (names: seq<string>)
    ensures names == NodeNames(g, piece, labels)
  {
    names := [];
    for i := 0 to |labels|
      invariant names == NodeNames(g, piece, labels[..i])
    {
      assert labels[..i + 1][..i] == labels[..i];
      if g.inside(labels[i].origin, [piece]) && labels[i].text !in names {
        names := names + [labels[i].text];
      }
    }
    assert labels[..|labels|] == labels;
  }
}
