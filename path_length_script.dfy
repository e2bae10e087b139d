/** The stand-alone script (path_length.py), where it differs from the
    package: its cut test subtracts the paths from the cut and compares
    lengths, so it can fail; its containment guard in `_rearrange_data` is
    always true; its labels come from the path-and-cut intersection without
    an emptiness check; a piece named by one label gets a numbered tail
    node; and an empty report fails when its columns are named. */
module PathLengthScript {
  import opened Seqs
  import opened Geometry
  import opened Duplication
  import opened SegmentLength
  import opened CellSelection
  import opened NodeLabels
  import opened Report

  /** A list comprehension whose test can raise: the elements whose test
      gives true, in order; the first raised error aborts. */
  function FilterOk<T>(s: seq<T>, test: T -> Result<bool>): Result<seq<T>> {
    if s == [] then Ok([])
    else
      Chain(match test(s[0]) case Ok(b) => Ok(if b then [s[0]] else []) case Err(e) => Err(e),
            FilterOk(s[1..], test))
  }

  function OkTrue<T>(test: T -> Result<bool>): T -> bool {
    x => test(x) == Ok(true)
  }

  /** A successful filter keeps exactly the elements whose test gives true;
      it fails exactly when some test fails, with the first such error. */
  lemma {:induction false} FilterOkSpec<T>(s: seq<T>, test: T -> Result<bool>)
    ensures FilterOk(s, test).Ok? ==> FilterOk(s, test).value == Filter(s, OkTrue(test))
    ensures FilterOk(s, test).Err? <==> exists i :: 0 <= i < |s| && test(s[i]).Err?
    ensures FilterOk(s, test).Err? ==>
      exists i :: 0 <= i < |s| && test(s[i]) == Err(FilterOk(s, test).error) && forall j :: 0 <= j < i ==> test(s[j]).Ok?
  {
    if s != [] {
      FilterOkSpec(s[1..], test);
      assert forall i :: 1 <= i < |s| ==> s[1..][i - 1] == s[i];
      if test(s[0]).Ok? && FilterOk(s[1..], test).Err? {
        var i :| 0 <= i < |s[1..]| && test(s[1..][i]) == Err(FilterOk(s[1..], test).error)
          && forall j :: 0 <= j < i ==> test(s[1..][j]).Ok?;
        assert test(s[i + 1]) == Err(FilterOk(s, test).error);
        assert forall j :: 0 <= j < i + 1 ==> test(s[j]).Ok? by {
          forall j | 0 <= j < i + 1 ensures test(s[j]).Ok? {
            if j > 0 { assert s[j] == s[1..][j - 1]; }
          }
        }
      }
    }
  }

  /** `check_if_polygon_cuts_path` of the script: subtract the paths from the
      cut; no piece means no cut, several pieces mean a cut; with one piece,
      equal printed forms of the union and the difference mean no cut, and
      otherwise the cut is valid when the piece and the whole cut have
      different lengths. A length that cannot be computed is fatal. */
  function CutsPath(g: Engine, cut: Polygon, paths: seq<Polygon>): (r: Result<bool>)
    ensures g.difference([cut], paths) == [] ==> r == Ok(false)
    ensures |g.difference([cut], paths)| > 1 ==> r == Ok(true)
    ensures |g.difference([cut], paths)| == 1 && g.describe(g.union([cut], paths)) == g.describe(g.difference([cut], paths)) ==>
      r == Ok(false)
    ensures |g.difference([cut], paths)| == 1 && g.describe(g.union([cut], paths)) != g.describe(g.difference([cut], paths)) ==>
      && (r.Err? <==> PieceLength(g, g.difference([cut], paths)[0]).Err? || PieceLength(g, cut).Err?)
      && (PieceLength(g, g.difference([cut], paths)[0]).Err? ==> r == Err(PieceLength(g, g.difference([cut], paths)[0]).error))
      && (r.Ok? ==> (r.value <==> PieceLength(g, g.difference([cut], paths)[0]).value != PieceLength(g, cut).value))
  {
    var split := g.difference([cut], paths);
    if split == [] then Ok(false)
    else if |split| > 1 then Ok(true)
    else if g.describe(g.union([cut], paths)) == g.describe(split) then Ok(false)
    else
      var pieceLength :- PieceLength(g, split[0]);
      var cutLength :- PieceLength(g, cut);
      Ok(pieceLength != cutLength)
  }

  function CutTest(g: Engine, paths: seq<Polygon>): Polygon -> Result<bool> {
    c => CutsPath(g, c, paths)
  }

  function InsideAny(g: Engine, cuts: seq<Polygon>): Label -> bool {
    (l: Label) => g.inside(l.origin, cuts)
  }

  /** The cuts kept against all paths, or the first length failure. */
  function KeptCuts(g: Engine, paths: seq<Polygon>, cuts: seq<Polygon>): Result<seq<Polygon>> {
    FilterOk(cuts, CutTest(g, paths))
  }

  function KeptLabels(g: Engine, kept: seq<Polygon>, labels: seq<Label>): seq<Label> {
    Filter(labels, InsideAny(g, kept))
  }

  /** `gdstk.inside([label.origin], polygon)`: a one-element list of
      booleans, which Python's `if` treats as true whatever it holds. */
  function ContainGuard(g: Engine, l: Label, cut: Polygon): (r: seq<bool>)
    ensures |r| == 1 && (r[0] <==> g.inside(l.origin, [cut]))
  {
    [g.inside(l.origin, [cut])]
  }

  /** The test of a zipped (cut, label) pair for one path. */
  function PairTest(g: Engine, path: Polygon): ((Polygon, Label)) -> Result<bool> {
    (pr: (Polygon, Label)) =>
      match CutsPath(g, pr.0, [path])
      case Err(e) => Err(e)
      case Ok(b) => Ok(b && |ContainGuard(g, pr.1, pr.0)| > 0)
  }

  /** The guard never rejects a pair: retention depends on the re-test alone,
      whether or not the cut contains the label. */
  lemma GuardIgnored(g: Engine, path: Polygon, pr: (Polygon, Label))
    ensures PairTest(g, path)(pr) == CutsPath(g, pr.0, [path])
  {
    var guard := ContainGuard(g, pr.1, pr.0);
  }

  function PathPairs(g: Engine, path: Polygon, cuts: seq<Polygon>, sorted: seq<Label>): Result<seq<(Polygon, Label)>> {
    FilterOk(Zip(cuts, sorted), PairTest(g, path))
  }

  /** The inner loop of `_rearrange_data` for one path. */
  method ValidPairs(g: Engine, path: Polygon, cuts: seq<Polygon>, sorted: seq<Label>)
    returns (r: Result<(seq<Polygon>, seq<Label>)>)
    ensures r.Ok? <==> PathPairs(g, path, cuts, sorted).Ok?
    ensures r.Err? ==> r.error == PathPairs(g, path, cuts, sorted).error
    ensures r.Ok? ==>
      r.value.0 == Firsts(PathPairs(g, path, cuts, sorted).value)
      && r.value.1 == Seconds(PathPairs(g, path, cuts, sorted).value)
  {
    var zipped := Zip(cuts, sorted);
    var test := PairTest(g, path);
    var validCuts: seq<Polygon> := [];
    var validLabels: seq<Label> := [];
    ghost var pairs: seq<(Polygon, Label)> := [];
    var j := 0;
    assert zipped[0..] == zipped;
    PrependNothing(FilterOk(zipped, test));
    while j < |zipped|
      invariant 0 <= j <= |zipped|
      invariant FilterOk(zipped, test) == Prepend(pairs, FilterOk(zipped[j..], test))
      invariant validCuts == Firsts(pairs) && validLabels == Seconds(pairs)
    {
      var (polygon, cutLabel) := zipped[j];
      assert zipped[j..][1..] == zipped[j + 1..];
      var later := FilterOk(zipped[j + 1..], test);
      var cuts := CutsPath(g, polygon, [path]);
      if cuts.Err? {
        return Err(cuts.error);
      }
      if cuts.value {
        if |ContainGuard(g, cutLabel, polygon)| > 0 {
          PrependPrepend(pairs, [(polygon, cutLabel)], later);
          validCuts := validCuts + [polygon];
          validLabels := validLabels + [cutLabel];
          pairs := pairs + [(polygon, cutLabel)];
          assert validCuts == Firsts(pairs);
          assert validLabels == Seconds(pairs);
        }
      } else {
        PrependNothing(later);
      }
      j := j + 1;
    }
    assert zipped[j..] == [];
    assert pairs + [] == pairs;
    return Ok((validCuts, validLabels));
  }

  /** Every path's re-test of the zipped (cut, label) pairs succeeds. */
  predicate PairsPass(g: Engine, paths: seq<Polygon>, cuts: seq<Polygon>, labels: seq<Label>) {
    forall i :: 0 <= i < |paths| ==> PathPairs(g, paths[i], cuts, SortedLabels(g, cuts, labels)).Ok?
  }

  /** The grouping `_rearrange_data` builds when every re-test succeeds: for
      every path, the cuts and the labels of its kept (cut, label) pairs. */
  function Grouping(g: Engine, paths: seq<Polygon>, cuts: seq<Polygon>, labels: seq<Label>)
    : (seq<seq<Polygon>>, seq<seq<Label>>)
  {
    var sorted := SortedLabels(g, cuts, labels);
    (seq(|paths|, i requires 0 <= i < |paths| =>
       var pairs := PathPairs(g, paths[i], cuts, sorted); if pairs.Ok? then Firsts(pairs.value) else []),
     seq(|paths|, i requires 0 <= i < |paths| =>
       var pairs := PathPairs(g, paths[i], cuts, sorted); if pairs.Ok? then Seconds(pairs.value) else []))
  }

  /** Every path's re-test succeeded, and `cutss` and `labelss` are the
      grouping of `paths`, `cuts` and `labels`. */
  ghost predicate IsRearranged(g: Engine, paths: seq<Polygon>, cuts: seq<Polygon>, labels: seq<Label>,
                               cutss: seq<seq<Polygon>>, labelss: seq<seq<Label>>)
  {
    PairsPass(g, paths, cuts, labels) && (cutss, labelss) == Grouping(g, paths, cuts, labels)
  }

  /** `_rearrange_data` of the script: the first path whose re-test fails
      stops the run with that error. */
  method RearrangeData(g: Engine, paths: seq<Polygon>, cuts: seq<Polygon>, labels: seq<Label>)
    returns (r: Result<(seq<seq<Polygon>>, seq<seq<Label>>)>)
    ensures r.Ok? <==> forall i :: 0 <= i < |paths| ==> PathPairs(g, paths[i], cuts, SortedLabels(g, cuts, labels)).Ok?
    ensures r.Ok? ==> IsRearranged(g, paths, cuts, labels, r.value.0, r.value.1)
    ensures r.Err? ==>
      exists i :: (0 <= i < |paths|
        && PathPairs(g, paths[i], cuts, SortedLabels(g, cuts, labels)) == Err(r.error)
        && forall k :: 0 <= k < i ==> PathPairs(g, paths[k], cuts, SortedLabels(g, cuts, labels)).Ok?)
  {
    var sorted := AssignLabels(g, cuts, labels);
    var cutss: seq<seq<Polygon>> := [];
    var labelss: seq<seq<Label>> := [];
    for i := 0 to |paths|
      invariant |cutss| == i && |labelss| == i
      invariant forall k :: 0 <= k < i ==>
        PathPairs(g, paths[k], cuts, sorted).Ok?
        && cutss[k] == Firsts(PathPairs(g, paths[k], cuts, sorted).value)
        && labelss[k] == Seconds(PathPairs(g, paths[k], cuts, sorted).value)
    {
      var valid := ValidPairs(g, paths[i], cuts, sorted);
      if valid.Err? {
        return Err(valid.error);
      }
      cutss := cutss + [valid.value.0];
      labelss := labelss + [valid.value.1];
    }
    ghost var q := Grouping(g, paths, cuts, labels);
    assert cutss == q.0 by {
      forall k | 0 <= k < |paths| ensures cutss[k] == q.0[k] { }
    }
    assert labelss == q.1 by {
      forall k | 0 <= k < |paths| ensures labelss[k] == q.1[k] { }
    }
    return Ok((cutss, labelss));
  }

  /** Every kept pair's cut passed the re-test against its path, and both
      lists keep the order of the cuts and of the assigned labels. */
  lemma RearrangedPairs(g: Engine, paths: seq<Polygon>, cuts: seq<Polygon>, labels: seq<Label>,
                        cutss: seq<seq<Polygon>>, labelss: seq<seq<Label>>, i: nat)
    requires IsRearranged(g, paths, cuts, labels, cutss, labelss)
    requires i < |paths|
    ensures |cutss[i]| == |labelss[i]|
    ensures forall k :: 0 <= k < |cutss[i]| ==> CutsPath(g, cutss[i][k], [paths[i]]) == Ok(true)
    ensures Subsequence(cutss[i], cuts) && Subsequence(labelss[i], SortedLabels(g, cuts, labels))
  {
    var sorted := SortedLabels(g, cuts, labels);
    var zipped := Zip(cuts, sorted);
    var test := PairTest(g, paths[i]);
    FilterOkSpec(zipped, test);
    var pairs := Filter(zipped, OkTrue(test));
    var idx := FilterIndexing(zipped, OkTrue(test));
    ZipIndexing(pairs, cuts, sorted, idx);
    forall k | 0 <= k < |cutss[i]|
      ensures CutsPath(g, cutss[i][k], [paths[i]]) == Ok(true)
    {
      GuardIgnored(g, paths[i], pairs[k]);
    }
  }

  /** The zip misalignment of the script: with cuts [c1, c2] and the single
      label l2, inside c2 only, the zip pairs c1 with l2, and the always-true
      guard keeps the pair when c1 cuts the path, so c1 is named after a
      label it does not contain. */
  lemma ZipMisalignment(g: Engine, path: Polygon, c1: Polygon, c2: Polygon, l2: Label)
    requires !g.inside(l2.origin, [c1]) && g.inside(l2.origin, [c2])
    requires CutsPath(g, c1, [path]) == Ok(true)
    ensures SortedLabels(g, [c1, c2], [l2]) == [l2]
    ensures PathPairs(g, path, [c1, c2], SortedLabels(g, [c1, c2], [l2])) == Ok([(c1, l2)])
  {
    assert [c1, c2][..1] == [c1];
    assert [c1][..0] == [];
    assert [l2][1..] == [];
    assert FirstInside(g, c1, [l2]) == None;
    assert FirstInside(g, c2, [l2]) == Some(l2);
    assert SortedLabels(g, [c1], [l2]) == [];
    assert SortedLabels(g, [c1, c2], [l2]) == SortedLabels(g, [c1], [l2]) + [l2];
    var z := Zip([c1, c2], [l2]);
    assert z == [(c1, l2)];
    assert z[1..] == [];
    GuardIgnored(g, path, (c1, l2));
    assert FilterOk(z[1..], PairTest(g, path)) == Ok([]);
    assert [(c1, l2)] + [] == [(c1, l2)];
  }

  /** `filter_polygons` of the script: a failing cut test, then repeated
      label texts, then a failing re-test stop the run, in that order; when
      none occurs the result is the per-path grouping. */
  method FilterPolygons(g: Engine, paths: seq<Polygon>, cuts: seq<Polygon>, labels: seq<Label>)
    returns (r: Result<(seq<seq<Polygon>>, seq<seq<Label>>)>)
    ensures KeptCuts(g, paths, cuts).Err? ==> r == Err(KeptCuts(g, paths, cuts).error)
    ensures KeptCuts(g, paths, cuts).Ok? ==>
      var keptLabels := KeptLabels(g, KeptCuts(g, paths, cuts).value, labels);
      && (!Distinct(Texts(keptLabels)) ==> r == Err(DuplicateLabels(Duplicates(Texts(keptLabels)))))
      && (r.Ok? ==>
            (Distinct(Texts(keptLabels))
             && IsRearranged(g, paths, KeptCuts(g, paths, cuts).value, keptLabels, r.value.0, r.value.1)))
    ensures KeptCuts(g, paths, cuts).Ok? ==>
      var kept := KeptCuts(g, paths, cuts).value;
      var keptLabels := KeptLabels(g, kept, labels);
      Distinct(Texts(keptLabels)) ==>
        && (r.Ok? <==> forall i :: 0 <= i < |paths| ==> PathPairs(g, paths[i], kept, SortedLabels(g, kept, keptLabels)).Ok?)
        && (r.Err? ==>
              exists i :: (0 <= i < |paths|
                && PathPairs(g, paths[i], kept, SortedLabels(g, kept, keptLabels)) == Err(r.error)
                && forall k :: 0 <= k < i ==> PathPairs(g, paths[k], kept, SortedLabels(g, kept, keptLabels)).Ok?))
  {
    var keptResult := FilterCuts(g, paths, cuts);
    if keptResult.Err? {
      return Err(keptResult.error);
    }
    var kept := keptResult.value;
    var keptLabels := KeptLabels(g, kept, labels);
    var duplicates := GetDuplicates(Texts(keptLabels));
    DuplicatesEmptyIff(Texts(keptLabels));
    if duplicates != [] {
      return Err(DuplicateLabels(duplicates));
    }
    r := RearrangeData(g, paths, kept, keptLabels);
  }

  /** The first comprehension of `filter_polygons`: walk the cuts, keep those
      whose cut test gives true, and stop at the first test that raises. */
  method FilterCuts(g: Engine, paths: seq<Polygon>, cuts: seq<Polygon>) returns (r: Result<seq<Polygon>>)
    ensures r == KeptCuts(g, paths, cuts)
  {
    var test := CutTest(g, paths);
    var kept: seq<Polygon> := [];
    var j := 0;
    assert cuts[0..] == cuts;
    PrependNothing(FilterOk(cuts, test));
    while j < |cuts|
      invariant 0 <= j <= |cuts|
      invariant FilterOk(cuts, test) == Prepend(kept, FilterOk(cuts[j..], test))
    {
      assert cuts[j..][1..] == cuts[j + 1..];
      var rest := FilterOk(cuts[j + 1..], test);
      var cutsIt := CutsPath(g, cuts[j], paths);
      if cutsIt.Err? {
        return Err(cutsIt.error);
      }
      if cutsIt.value {
        PrependPrepend(kept, [cuts[j]], rest);
        kept := kept + [cuts[j]];
      } else {
        PrependNothing(rest);
      }
      j := j + 1;
    }
    assert cuts[j..] == [];
    assert kept + [] == kept;
    return Ok(kept);
  }

  /** The kept cuts are exactly those whose test gives true, in order; the
      kept labels exactly those inside a kept cut, in order. */
  lemma KeptSpec(g: Engine, paths: seq<Polygon>, cuts: seq<Polygon>, labels: seq<Label>)
    requires KeptCuts(g, paths, cuts).Ok?
    ensures forall c :: c in KeptCuts(g, paths, cuts).value <==> c in cuts && CutsPath(g, c, paths) == Ok(true)
    ensures Subsequence(KeptCuts(g, paths, cuts).value, cuts)
    ensures forall l :: l in KeptLabels(g, KeptCuts(g, paths, cuts).value, labels) <==>
      l in labels && g.inside(l.origin, KeptCuts(g, paths, cuts).value)
  {
    FilterOkSpec(cuts, CutTest(g, paths));
    FilterMembership(cuts, OkTrue(CutTest(g, paths)));
    FilterSubsequence(cuts, OkTrue(CutTest(g, paths)));
    FilterMembership(labels, InsideAny(g, KeptCuts(g, paths, cuts).value));
  }

  /** `_get_path_labels` of the script: one label per vertex of the first
      polygon of the path-and-cut intersection; an empty intersection makes
      the `[0]` index raise. */
  function PathLabels(g: Engine, path: Polygon, cut: Polygon, text: string): (r: Result<seq<Label>>)
    ensures r.Err? <==> g.intersection([path], [cut]) == []
    ensures r.Err? ==> r.error == NoIntersection
    ensures r.Ok? ==> forall l | l in r.value :: l.text == text && l.origin in g.vertices(g.intersection([path], [cut])[0])
    ensures r.Ok? ==> |r.value| == |g.vertices(g.intersection([path], [cut])[0])|
  {
    var inter := g.intersection([path], [cut]);
    if inter == [] then Err(NoIntersection) else Ok(LabelsAt(text, g.vertices(inter[0])))
  }

  function Labeler(g: Engine): NodeLabels.Labeler {
    (path, cut, text) => PathLabels(g, path, cut, text)
  }

  /** `'0'` to `'9'`. */
  function Digit(d: nat): char
    requires d < 10
  {
    (48 + d) as char
  }

  /** `str(n)` for a natural number: its decimal digits. */
  function NatToString(n: nat): (s: string)
    ensures |s| > 0 && forall k :: 0 <= k < |s| ==> '0' <= s[k] <= '9'
  {
    if n < 10 then [Digit(n)] else NatToString(n / 10) + [Digit(n % 10)]
  }

  lemma {:induction false} NatToStringInjective(a: nat, b: nat)
    requires NatToString(a) == NatToString(b)
    ensures a == b
  {
    var sa, sb := NatToString(a), NatToString(b);
    if a >= 10 && b >= 10 {
      assert sa[|sa| - 1] == Digit(a % 10) && sb[|sb| - 1] == Digit(b % 10);
      assert sa[..|sa| - 1] == NatToString(a / 10);
      assert sb[..|sb| - 1] == NatToString(b / 10);
      NatToStringInjective(a / 10, b / 10);
    }
  }

  /** The name of the k-th tail of the i-th path. */
  function TailName(i: nat, k: nat): string {
    "polygon_" + NatToString(i) + "_tail_" + NatToString(k)
  }

  /** Different (path, counter) pairs give different tail names. */
  lemma TailNameInjective(i: nat, k: nat, i2: nat, k2: nat)
    requires TailName(i, k) == TailName(i2, k2)
    ensures i == i2 && k == k2
  {
    var a, b := NatToString(i), NatToString(k);
    var a2, b2 := NatToString(i2), NatToString(k2);
    assert TailName(i, k) == "polygon_" + (a + "_tail_" + b);
    assert TailName(i2, k2) == "polygon_" + (a2 + "_tail_" + b2);
    assert a + "_tail_" + b == TailName(i, k)[8..] == a2 + "_tail_" + b2;
    SplitTail(a, b, a2, b2);
    NatToStringInjective(i, i2);
    NatToStringInjective(k, k2);
  }

  /** A digit string followed by the separator is recovered from the whole. */
  lemma SplitTail(a: string, b: string, a2: string, b2: string)
    requires forall k :: 0 <= k < |a| ==> '0' <= a[k] <= '9'
    requires forall k :: 0 <= k < |a2| ==> '0' <= a2[k] <= '9'
    requires a + "_tail_" + b == a2 + "_tail_" + b2
    ensures a == a2 && b == b2
  {
    SeparatorAt(a, b);
    SeparatorAt(a2, b2);
    DigitAt(a, b, |a2|);
    DigitAt(a2, b2, |a|);
    assert |a| == |a2|;
    var s := a + "_tail_" + b;
    assert a == s[..|a|];
    assert a2 == (a2 + "_tail_" + b2)[..|a2|];
    assert b == s[|a| + 6..];
    assert b2 == (a2 + "_tail_" + b2)[|a2| + 6..];
  }

  lemma SeparatorAt(a: string, b: string)
    ensures (a + "_tail_" + b)[|a|] == '_'
  {
  }

  lemma DigitAt(a: string, b: string, m: nat)
    ensures m < |a| ==> (a + "_tail_" + b)[m] == a[m]
  {
  }

  /** The record of a piece between nodes `a` and `b`, or its length failure. */
  function Edge(g: Engine, piece: Polygon, a: string, b: string): Result<seq<Row>> {
    match PieceLength(g, piece)
    case Ok(len) => Ok([Row(a, b, len)])
    case Err(e) => Err(e)
  }

  /** The records of the pieces of path `i`, `tail` tails having been named
      already: a one-name piece ends at the next tail, a two-name piece joins
      its names, any other piece gives nothing. */
  function PieceRecords(g: Engine, i: nat, tail: nat, pieces: seq<Polygon>, moved: seq<Label>): Result<seq<Row>>
    decreases pieces
  {
    if pieces == [] then Ok([])
    else
      var names := NodeNames(g, pieces[0], moved);
      if |names| == 1 then
        Chain(Edge(g, pieces[0], names[0], TailName(i, tail)), PieceRecords(g, i, tail + 1, pieces[1..], moved))
      else if |names| == 2 then
        Chain(Edge(g, pieces[0], names[0], names[1]), PieceRecords(g, i, tail, pieces[1..], moved))
      else PieceRecords(g, i, tail, pieces[1..], moved)
  }

  function Pieces(g: Engine, path: Polygon, cuts: seq<Polygon>): seq<Polygon> {
    g.difference([path], cuts)
  }

  /** The records of the (path, cuts) pairs from position `start` on. */
  function PathRecords(g: Engine, start: nat, pairs: seq<(Polygon, seq<Polygon>)>, moved: seq<Label>): Result<seq<Row>>
    decreases pairs
  {
    if pairs == [] then Ok([])
    else
      Chain(if pairs[0].1 == [] then Ok([]) else PieceRecords(g, start, 0, Pieces(g, pairs[0].0, pairs[0].1), moved),
            PathRecords(g, start + 1, pairs[1..], moved))
  }

  function GraphRecords(g: Engine, paths: seq<Polygon>, cutss: seq<seq<Polygon>>, labelss: seq<seq<Label>>)
    : Result<seq<Row>>
  {
    var moved :- MovedOver(Labeler(g), Groups(paths, cutss, labelss));
    PathRecords(g, 0, Zip(paths, cutss), moved)
  }

  /** `construct_graph_data_frame` of the script. */
  method ConstructGraphDataFrame(g: Engine, paths: seq<Polygon>, cutss: seq<seq<Polygon>>, labelss: seq<seq<Label>>)
    returns (r: Result<seq<Row>>)
    ensures r == GraphRecords(g, paths, cutss, labelss)
  {
    var movedResult := MoveLabelsOnPath(Labeler(g), paths, cutss, labelss);
    if movedResult.Err? {
      return Err(movedResult.error);
    }
    var moved := movedResult.value;
    var pairs := Zip(paths, cutss);
    var records: seq<Row> := [];
    var i := 0;
    assert pairs[0..] == pairs;
    PrependNothing(PathRecords(g, 0, pairs, moved));
    while i < |pairs|
      invariant 0 <= i <= |pairs|
      invariant PathRecords(g, 0, pairs, moved) == Prepend(records, PathRecords(g, i, pairs[i..], moved))
    {
      var (poly, cuttingPolys) := pairs[i];
      assert pairs[i..][1..] == pairs[i + 1..];
      var rest := PathRecords(g, i + 1, pairs[i + 1..], moved);
      if cuttingPolys != [] {
        var pieceRecords := SplitRecords(g, i, Pieces(g, poly, cuttingPolys), moved);
        if pieceRecords.Err? {
          return Err(pieceRecords.error);
        }
        PrependPrepend(records, pieceRecords.value, rest);
        records := records + pieceRecords.value;
      } else {
        PrependNothing(rest);
      }
      i := i + 1;
    }
    assert pairs[i..] == [];
    assert records + [] == records;
    return Ok(records);
  }

  /** The inner loop over the pieces of path `i`, with its tail counter. */
  method SplitRecords(g: Engine, i: nat, pieces: seq<Polygon>, moved: seq<Label>) returns (r: Result<seq<Row>>)
    ensures r == PieceRecords(g, i, 0, pieces, moved)
  {
    var records: seq<Row> := [];
    var tailCounter := 0;
    var j := 0;
    assert pieces[0..] == pieces;
    PrependNothing(PieceRecords(g, i, 0, pieces, moved));
    while j < |pieces|
      invariant 0 <= j <= |pieces|
      invariant PieceRecords(g, i, 0, pieces, moved) == Prepend(records, PieceRecords(g, i, tailCounter, pieces[j..], moved))
    {
      assert pieces[j..][1..] == pieces[j + 1..];
      var names := GetNodeNames(g, pieces[j], moved);
      var node1: string, node2: string;
      if |names| == 1 {
        node1, node2 := names[0], TailName(i, tailCounter);
        tailCounter := tailCounter + 1;
      } else if |names| == 2 {
        node1, node2 := names[0], names[1];
      } else {
        PrependNothing(PieceRecords(g, i, tailCounter, pieces[j + 1..], moved));
        j := j + 1;
        continue;
      }
      var later := PieceRecords(g, i, tailCounter, pieces[j + 1..], moved);
      var length := PieceLength(g, pieces[j]);
      if length.Err? {
        return Err(length.error);
      }
      var row := [Row(node1, node2, length.value)];
      PrependPrepend(records, row, later);
      records := records + row;
      j := j + 1;
    }
    assert pieces[j..] == [];
    assert records + [] == records;
    return Ok(records);
  }

  function OneName(g: Engine, moved: seq<Label>): Polygon -> bool {
    p => |NodeNames(g, p, moved)| == 1
  }

  /** How many one-name pieces come before position `k`. */
  function TailsBefore(g: Engine, pieces: seq<Polygon>, moved: seq<Label>, k: nat): nat
    requires k <= |pieces|
  {
    |Filter(pieces[..k], OneName(g, moved))|
  }

  /** Each one-name piece of path `i` ends at the tail numbered by how many
      one-name pieces precede it (counting from `tail`). */
  lemma {:induction false} TailRecords(g: Engine, i: nat, tail: nat, pieces: seq<Polygon>, moved: seq<Label>, k: nat)
    requires k < |pieces| && |NodeNames(g, pieces[k], moved)| == 1
    requires PieceRecords(g, i, tail, pieces, moved).Ok?
    decreases pieces
    ensures PieceLength(g, pieces[k]).Ok?
    ensures Row(NodeNames(g, pieces[k], moved)[0], TailName(i, tail + TailsBefore(g, pieces, moved, k)),
                PieceLength(g, pieces[k]).value) in PieceRecords(g, i, tail, pieces, moved).value
  {
    var names := NodeNames(g, pieces[0], moved);
    var next := if |names| == 1 then tail + 1 else tail;
    var rest := PieceRecords(g, i, next, pieces[1..], moved);
    var all := PieceRecords(g, i, tail, pieces, moved);
    if |names| == 1 {
      assert all == Chain(Edge(g, pieces[0], names[0], TailName(i, tail)), rest);
    } else if |names| == 2 {
      assert all == Chain(Edge(g, pieces[0], names[0], names[1]), rest);
    } else {
      assert all == rest;
    }
    assert rest.Ok? && forall row :: row in rest.value ==> row in all.value;
    if k == 0 {
      assert pieces[..0] == [];
      assert TailsBefore(g, pieces, moved, 0) == 0;
      assert Row(names[0], TailName(i, tail), PieceLength(g, pieces[0]).value) in all.value;
    } else {
      assert pieces[1..][k - 1] == pieces[k];
      TailRecords(g, i, next, pieces[1..], moved, k - 1);
      TailsBeforeStep(g, pieces, moved, k);
      assert next + TailsBefore(g, pieces[1..], moved, k - 1) == tail + TailsBefore(g, pieces, moved, k);
    }
  }

  /** Counting the one-name pieces before `k` past the first piece. */
  lemma TailsBeforeStep(g: Engine, pieces: seq<Polygon>, moved: seq<Label>, k: nat)
    requires 0 < k <= |pieces|
    ensures TailsBefore(g, pieces, moved, k) ==
      (if |NodeNames(g, pieces[0], moved)| == 1 then 1 else 0) + TailsBefore(g, pieces[1..], moved, k - 1)
  {
    assert pieces[..k] == [pieces[0]] + pieces[1..][..k - 1];
    FilterAppend([pieces[0]], pieces[1..][..k - 1], OneName(g, moved));
    assert [pieces[0]][1..] == [];
  }

  /** Two different one-name pieces of a path end at different tails. */
  lemma DistinctTails(g: Engine, i: nat, tail: nat, pieces: seq<Polygon>, moved: seq<Label>, k1: nat, k2: nat)
    requires k1 < k2 < |pieces|
    requires |NodeNames(g, pieces[k1], moved)| == 1 && |NodeNames(g, pieces[k2], moved)| == 1
    ensures TailName(i, tail + TailsBefore(g, pieces, moved, k1)) != TailName(i, tail + TailsBefore(g, pieces, moved, k2))
  {
    assert pieces[..k2] == pieces[..k1] + pieces[k1..k2];
    FilterAppend(pieces[..k1], pieces[k1..k2], OneName(g, moved));
    assert pieces[k1..k2] == [pieces[k1]] + pieces[k1 + 1..k2];
    FilterAppend([pieces[k1]], pieces[k1 + 1..k2], OneName(g, moved));
    assert [pieces[k1]][1..] == [];
    if TailName(i, tail + TailsBefore(g, pieces, moved, k1)) == TailName(i, tail + TailsBefore(g, pieces, moved, k2)) {
      TailNameInjective(i, tail + TailsBefore(g, pieces, moved, k1), i, tail + TailsBefore(g, pieces, moved, k2));
    }
  }

  /** `row` is the edge of `piece` on path `i`: between its two names, or
      from its single name to one of the path's tails, weighted by the
      piece's length. */
  ghost predicate IsPieceRow(g: Engine, i: nat, piece: Polygon, moved: seq<Label>, row: Row) {
    && PieceLength(g, piece) == Ok(row.length)
    && (|| NodeNames(g, piece, moved) == [row.port1, row.port2]
        || (NodeNames(g, piece, moved) == [row.port1] && exists m: nat :: row.port2 == TailName(i, m)))
  }

  /** Every record of a path's pieces is the edge of one of them. */
  lemma {:induction false} PieceRecordsRows(g: Engine, i: nat, tail: nat, pieces: seq<Polygon>, moved: seq<Label>)
    decreases pieces
    ensures PieceRecords(g, i, tail, pieces, moved).Ok? ==>
      forall row | row in PieceRecords(g, i, tail, pieces, moved).value ::
        exists k :: 0 <= k < |pieces| && IsPieceRow(g, i, pieces[k], moved, row)
  {
    if pieces != [] {
      var names := NodeNames(g, pieces[0], moved);
      PieceRecordsRows(g, i, if |names| == 1 then tail + 1 else tail, pieces[1..], moved);
      assert forall k :: 1 <= k < |pieces| ==> pieces[1..][k - 1] == pieces[k];
      if PieceLength(g, pieces[0]).Ok? {
        var len := PieceLength(g, pieces[0]).value;
        if |names| == 1 {
          assert names == [names[0]];
          assert TailName(i, tail) == TailName(i, tail);
          assert IsPieceRow(g, i, pieces[0], moved, Row(names[0], TailName(i, tail), len));
        } else if |names| == 2 {
          assert names == [names[0], names[1]];
          assert IsPieceRow(g, i, pieces[0], moved, Row(names[0], names[1], len));
        }
      }
    }
  }

  /** Building a path's records fails exactly when a piece with one or two
      names has no real length. */
  lemma {:induction false} PieceRecordsFail(g: Engine, i: nat, tail: nat, pieces: seq<Polygon>, moved: seq<Label>)
    ensures PieceRecords(g, i, tail, pieces, moved).Err? <==>
      exists k :: 0 <= k < |pieces| && 1 <= |NodeNames(g, pieces[k], moved)| <= 2 && PieceLength(g, pieces[k]).Err?
    decreases pieces
  {
    if pieces != [] {
      var names := NodeNames(g, pieces[0], moved);
      PieceRecordsFail(g, i, if |names| == 1 then tail + 1 else tail, pieces[1..], moved);
      assert forall k :: 1 <= k < |pieces| ==> pieces[1..][k - 1] == pieces[k];
    }
  }

  function NamedPiece(g: Engine, moved: seq<Label>): Polygon -> bool {
    p => 1 <= |NodeNames(g, p, moved)| <= 2
  }

  /** One record per piece with one or two names, so no more records than pieces. */
  lemma {:induction false} PieceRecordsCount(g: Engine, i: nat, tail: nat, pieces: seq<Polygon>, moved: seq<Label>)
    decreases pieces
    ensures PieceRecords(g, i, tail, pieces, moved).Ok? ==>
      |PieceRecords(g, i, tail, pieces, moved).value| == |Filter(pieces, NamedPiece(g, moved))| <= |pieces|
  {
    if pieces != [] {
      var names := NodeNames(g, pieces[0], moved);
      PieceRecordsCount(g, i, if |names| == 1 then tail + 1 else tail, pieces[1..], moved);
    }
  }

  /** Every record of the edge table is the edge of a piece of the path at
      its enumerated position `start + i`, a path that has cuts. */
  lemma {:induction false} PathRecordsRows(g: Engine, start: nat, pairs: seq<(Polygon, seq<Polygon>)>, moved: seq<Label>)
    decreases pairs
    ensures PathRecords(g, start, pairs, moved).Ok? ==>
      forall row | row in PathRecords(g, start, pairs, moved).value ::
        exists i, k :: 0 <= i < |pairs| && pairs[i].1 != [] && 0 <= k < |Pieces(g, pairs[i].0, pairs[i].1)|
          && IsPieceRow(g, start + i, Pieces(g, pairs[i].0, pairs[i].1)[k], moved, row)
  {
    if pairs != [] {
      PathRecordsRows(g, start + 1, pairs[1..], moved);
      if pairs[0].1 != [] {
        PieceRecordsRows(g, start, 0, Pieces(g, pairs[0].0, pairs[0].1), moved);
      }
      if PathRecords(g, start, pairs, moved).Ok? {
        forall row | row in PathRecords(g, start, pairs, moved).value
          ensures exists i, k :: (0 <= i < |pairs| && pairs[i].1 != [] && 0 <= k < |Pieces(g, pairs[i].0, pairs[i].1)|
            && IsPieceRow(g, start + i, Pieces(g, pairs[i].0, pairs[i].1)[k], moved, row))
        {
          var head := if pairs[0].1 == [] then Ok([]) else PieceRecords(g, start, 0, Pieces(g, pairs[0].0, pairs[0].1), moved);
          if row !in head.value {
            var i, k :| 0 <= i < |pairs[1..]| && pairs[1..][i].1 != [] && 0 <= k < |Pieces(g, pairs[1..][i].0, pairs[1..][i].1)|
              && IsPieceRow(g, start + 1 + i, Pieces(g, pairs[1..][i].0, pairs[1..][i].1)[k], moved, row);
            assert pairs[1..][i] == pairs[i + 1];
            assert start + 1 + i == start + (i + 1);
          }
        }
      }
    }
  }

  /** Every edge comes from a piece of some path `i` with cuts; it starts at
      the text of a label paired with a cut, and ends either at another such
      text or at a tail node named after `i`. */
  lemma GraphRecordsRows(g: Engine, paths: seq<Polygon>, cutss: seq<seq<Polygon>>, labelss: seq<seq<Label>>)
    ensures GraphRecords(g, paths, cutss, labelss).Ok? ==>
      var groups := Groups(paths, cutss, labelss);
      forall row | row in GraphRecords(g, paths, cutss, labelss).value ::
        && (exists i, k :: 0 <= i < |paths| && i < |cutss| && cutss[i] != [] && 0 <= k < |Pieces(g, paths[i], cutss[i])|
              && IsPieceRow(g, i, Pieces(g, paths[i], cutss[i])[k], MovedOver(Labeler(g), groups).value, row))
        && PairedText(groups, row.port1)
        && ((row.port1 != row.port2 && PairedText(groups, row.port2))
            || exists i: nat, m: nat :: i < |paths| && row.port2 == TailName(i, m))
  {
    var groups := Groups(paths, cutss, labelss);
    var movedResult := MovedOver(Labeler(g), groups);
    if movedResult.Ok? {
      var moved := movedResult.value;
      var pairs := Zip(paths, cutss);
      PathRecordsRows(g, 0, pairs, moved);
      assert KeepsText(Labeler(g));
      MovedTexts(Labeler(g), groups);
      forall row | PathRecords(g, 0, pairs, moved).Ok? && row in PathRecords(g, 0, pairs, moved).value
        ensures exists i, k :: (0 <= i < |paths| && i < |cutss| && cutss[i] != [] && 0 <= k < |Pieces(g, paths[i], cutss[i])|
              && IsPieceRow(g, i, Pieces(g, paths[i], cutss[i])[k], moved, row))
        ensures PairedText(groups, row.port1)
        ensures (row.port1 != row.port2 && PairedText(groups, row.port2))
            || exists i: nat, m: nat :: i < |paths| && row.port2 == TailName(i, m)
      {
        var i, k :| 0 <= i < |pairs| && pairs[i].1 != [] && 0 <= k < |Pieces(g, pairs[i].0, pairs[i].1)|
          && IsPieceRow(g, 0 + i, Pieces(g, pairs[i].0, pairs[i].1)[k], moved, row);
        assert pairs[i] == (paths[i], cutss[i]);
        PieceRowEnds(g, groups, moved, i, Pieces(g, paths[i], cutss[i])[k], row);
      }
    }
  }

  /** The ends of one piece's edge: its first end is a moved label's text;
      its second is another such text or a tail of path `i`. */
  lemma PieceRowEnds(g: Engine, groups: seq<(Polygon, (seq<Polygon>, seq<Label>))>, moved: seq<Label>, i: nat,
                     piece: Polygon, row: Row)
    requires forall l | l in moved :: PairedText(groups, l.text)
    requires IsPieceRow(g, i, piece, moved, row)
    ensures PairedText(groups, row.port1)
    ensures (row.port1 != row.port2 && PairedText(groups, row.port2)) || exists m: nat :: row.port2 == TailName(i, m)
  {
    var names := NodeNames(g, piece, moved);
    NodeNamesSpec(g, piece, moved);
    assert row.port1 in names;
    var a :| 0 <= a < |moved| && g.inside(moved[a].origin, [piece]) && moved[a].text == row.port1;
    assert moved[a] in moved;
    if names == [row.port1, row.port2] {
      assert names[0] != names[1];
      assert row.port2 in names;
      var b :| 0 <= b < |moved| && g.inside(moved[b].origin, [piece]) && moved[b].text == row.port2;
      assert moved[b] in moved;
    }
  }

  /** `get_paths_report` of the script: no record leaves an empty table,
      and naming its three columns fails. */
  method GetPathsReport(nodes: seq<string>, dist: Distance) returns (r: Result<seq<Row>>)
    requires Distinct(nodes)
    ensures r.Err? <==> |nodes| <= 1
    ensures r.Err? ==> r.error == ColumnMismatch
    ensures r.Ok? ==> r.value == DropDuplicateKeys(AllPairs(dist, nodes, nodes))
  {
    var records := PairRecords(nodes, dist);
    AllPairsEmpty(dist, nodes);
    if records == [] {
      return Err(ColumnMismatch);
    }
    return Ok(DropDuplicateKeys(records));
  }

  /** The outcome of the script's `path_length` once the chosen cell's
      geometry is read: a failing cut test, then repeated label texts, then
      the first failing re-test of a path, then the failures of the edge
      table built on the rearranged cuts, then too few nodes; otherwise the
      all-pairs report of that edge table. */
  ghost predicate ReportOutcome(g: Engine, paths: seq<Polygon>, cuts: seq<Polygon>, labels: seq<Label>,
                                router: Router, r: Result<seq<Row>>)
  {
    match KeptCuts(g, paths, cuts)
    case Err(e) => r == Err(e)
    case Ok(kept) =>
      var keptLabels := KeptLabels(g, kept, labels);
      var grouping := Grouping(g, paths, kept, keptLabels);
      var edges := GraphRecords(g, paths, grouping.0, grouping.1);
      var passes := Distinct(Texts(keptLabels)) && PairsPass(g, paths, kept, keptLabels);
      && (r.Ok? <==> passes && edges.Ok? && |GraphNodes(edges.value)| >= 2)
      && (!Distinct(Texts(keptLabels)) ==> r == Err(DuplicateLabels(Duplicates(Texts(keptLabels)))))
      && (Distinct(Texts(keptLabels)) && !PairsPass(g, paths, kept, keptLabels) ==>
            exists i :: (0 <= i < |paths|
              && PathPairs(g, paths[i], kept, SortedLabels(g, kept, keptLabels)).Err?
              && r == Err(PathPairs(g, paths[i], kept, SortedLabels(g, kept, keptLabels)).error)
              && forall k :: 0 <= k < i ==> PathPairs(g, paths[k], kept, SortedLabels(g, kept, keptLabels)).Ok?))
      && (passes && edges.Err? ==> r == Err(edges.error))
      && (passes && edges.Ok? && |GraphNodes(edges.value)| <= 1 ==> r == Err(ColumnMismatch))
      && (r.Ok? ==> r.value == EdgeReport(router, edges.value))
  }

  /** The stages of the script's `path_length` after the cell's geometry is
      read: keep and group the cuts, build the edge table and its graph, and
      report every pair, unreachable ones (−1) included. */
  method ReportFromGeometry(g: Engine, paths: seq<Polygon>, cuts: seq<Polygon>, labels: seq<Label>, router: Router)
    returns (r: Result<seq<Row>>)
    ensures ReportOutcome(g, paths, cuts, labels, router, r)
    ensures r.Ok? ==> exists edges :: |GraphNodes(edges)| >= 2 && r.value == EdgeReport(router, edges)
    ensures r.Ok? ==> forall row | row in r.value :: row.port1 != row.port2
    ensures r.Ok? ==> OnePerPair(r.value)
  {
    var grouped :- FilterPolygons(g, paths, cuts, labels);
    var edges :- ConstructGraphDataFrame(g, paths, grouped.0, grouped.1);
    var graphNodes := GraphNodes(edges);
    GraphNodesSpec(edges);
    var report :- GetPathsReport(graphNodes, router(edges));
    ReportRows(router(edges), graphNodes);
    r := Ok(report);
  }

  /** `path_length` of the script: check the layout file, choose the cell,
      and report on its geometry. */
  method PathLength(g: Engine, disk: Disk, gdsFile: string, pathLayer: int, cuttingLayer: int,
                    cellName: Option<string>, pathDtype: int, cuttingDtype: int, router: Router)
    returns (r: Result<seq<Row>>)
    ensures !disk.isFile(gdsFile) ==> r == Err(FileNotFound(gdsFile))
    ensures disk.isFile(gdsFile) ==>
      var cells := disk.topLevel(gdsFile);
      && (|cells| == 0 ==> r == Err(NoCells))
      && (|cells| > 1 && cellName.None? ==> r == Err(CellNameRequired))
      && (|cells| > 0 && cellName.Some? && (forall c | c in cells :: c.name != cellName.value) ==>
            r == Err(InvalidCellName))
    ensures disk.isFile(gdsFile) ==>
      forall c | Chosen(disk.topLevel(gdsFile), cellName, c) ::
        var geometry := CellGeometry(g, c, LayerSelector(pathLayer, pathDtype), LayerSelector(cuttingLayer, cuttingDtype));
        ReportOutcome(g, geometry.0, geometry.1, geometry.2, router, r)
    ensures r.Ok? ==> exists edges :: |GraphNodes(edges)| >= 2 && r.value == EdgeReport(router, edges)
    ensures r.Ok? ==> forall row | row in r.value :: row.port1 != row.port2
    ensures r.Ok? ==> OnePerPair(r.value)
  {
    if !disk.isFile(gdsFile) {
      return Err(FileNotFound(gdsFile));
    }
    var cells := disk.topLevel(gdsFile);
    var geometry :- GetPolygons(g, cells, LayerSelector(pathLayer, pathDtype), LayerSelector(cuttingLayer, cuttingDtype), cellName);
    ghost var chosen :| Chosen(cells, cellName, chosen)
      && geometry == CellGeometry(g, chosen, LayerSelector(pathLayer, pathDtype), LayerSelector(cuttingLayer, cuttingDtype));
    forall c | Chosen(cells, cellName, c)
      ensures c == chosen
    {
      ChosenUnique(cells, cellName, c, chosen);
    }
    var (paths, cuts, labels) := geometry;
    r := ReportFromGeometry(g, paths, cuts, labels, router);
  }
}
