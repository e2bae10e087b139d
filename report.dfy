/** Rows of (name, name, length), the graph's node list, and the all-pairs
    report before and after its deduplication on the sorted-name key. The
    shortest-path query of the graph library is a parameter: a function from
    two node names to the length of a shortest path, or `None` when no path
    exists. */
module Report {
  import opened Seqs
  import opened Geometry

  /** A segment record or a report row: two node names and a length. */
  datatype Row = Row(port1: string, port2: string, length: real)

  /** Shortest-path length between two nodes of the graph, if they are connected. */
  type Distance = (string, string) -> Option<real>

  /** The weighted graph the library builds from an edge table, seen through
      its shortest-path query. */
  type Router = seq<Row> -> Distance

  /** Python's `<` on strings: lexicographic by character, a proper prefix first. */
  predicate StrLess(a: string, b: string) {
    if a == [] then b != []
    else if b == [] then false
    else if a[0] != b[0] then a[0] < b[0]
    else StrLess(a[1..], b[1..])
  }

  /** `"".join(sorted([a, b]))`. */
  function SortedKey(a: string, b: string): string {
    if StrLess(b, a) then b + a else a + b
  }

  function KeyOf(row: Row): string {
    SortedKey(row.port1, row.port2)
  }

  /** Python's string order is a strict total order. */
  lemma {:induction false} StrLessTotal(a: string, b: string)
    ensures a != b ==> StrLess(a, b) || StrLess(b, a)
    ensures !(StrLess(a, b) && StrLess(b, a))
  {
    if a != [] && b != [] && a[0] == b[0] {
      StrLessTotal(a[1..], b[1..]);
      assert a == [a[0]] + a[1..] && b == [b[0]] + b[1..];
    }
  }

  /** The key does not depend on the order of the two names. */
  lemma SortedKeySymmetric(a: string, b: string)
    ensures SortedKey(a, b) == SortedKey(b, a)
  {
    StrLessTotal(a, b);
  }

  /** Two different pairs can share a key: the key is a bare concatenation. */
  lemma SortedKeyCollision()
    ensures SortedKey("ab", "c") == SortedKey("a", "bc") == "abc"
  {
    assert StrLess("ab", "c");
    assert StrLess("a", "bc");
  }

  /** The graph's nodes, in the order the edge list first mentions them
      (first name, then second name, row by row). */
  function GraphNodes(rows: seq<Row>): seq<string> {
    if rows == [] then []
    else
      var last := rows[|rows| - 1];
      var front := GraphNodes(rows[..|rows| - 1]);
      var withFirst := if last.port1 in front then front else front + [last.port1];
      if last.port2 in withFirst then withFirst else withFirst + [last.port2]
  }

  /** The graph's nodes are distinct and are exactly the ends of the edges. */
  lemma {:induction false} GraphNodesSpec(rows: seq<Row>)
    ensures Distinct(GraphNodes(rows))
    ensures forall n :: n in GraphNodes(rows) <==> exists i :: 0 <= i < |rows| && (rows[i].port1 == n || rows[i].port2 == n)
  {
    if rows != [] {
      var init := rows[..|rows| - 1];
      var last := rows[|rows| - 1];
      GraphNodesSpec(init);
      var front := GraphNodes(init);
      var withFirst := if last.port1 in front then front else front + [last.port1];
      DistinctSnoc(front, last.port1);
      DistinctSnoc(withFirst, last.port2);
      var r := GraphNodes(rows);
      assert forall n :: n in r <==> n in front || n == last.port1 || n == last.port2;
      forall n
        ensures n in r <==> exists i :: 0 <= i < |rows| && (rows[i].port1 == n || rows[i].port2 == n)
      {
        if n in front {
          var i :| 0 <= i < |init| && (init[i].port1 == n || init[i].port2 == n);
          assert rows[i] == init[i];
        }
        if exists i :: 0 <= i < |rows| && (rows[i].port1 == n || rows[i].port2 == n) {
          var i :| 0 <= i < |rows| && (rows[i].port1 == n || rows[i].port2 == n);
          if i < |init| {
            assert init[i] == rows[i];
          }
        }
      }
    }
  }

  /** The record for an ordered pair: the shortest-path length, or −1 when
      the two nodes are not connected. */
  function PairLength(dist: Distance, a: string, b: string): real {
    match dist(a, b)
    case Some(d) => d
    case None => -1.0
  }

  /** The inner loop: records from `start` to every node of `ends` other than itself. */
  function RowsFrom(dist: Distance, start: string, ends: seq<string>): seq<Row> {
    if ends == [] then []
    else
      var e := ends[|ends| - 1];
      RowsFrom(dist, start, ends[..|ends| - 1]) + (if e != start then [Row(start, e, PairLength(dist, start, e))] else [])
  }

  /** The outer loop: the records of every start node, in order. */
  function AllPairs(dist: Distance, starts: seq<string>, nodes: seq<string>): seq<Row> {
    if starts == [] then []
    else AllPairs(dist, starts[..|starts| - 1], nodes) + RowsFrom(dist, starts[|starts| - 1], nodes)
  }

  /** The nested loops of `get_paths_report` that fill `records`. */
  method PairRecords(nodes: seq<string>, dist: Distance) returns (records: seq<Row>)
    ensures records == AllPairs(dist, nodes, nodes)
  {
    records := [];
    for i := 0 to |nodes|
      invariant records == AllPairs(dist, nodes[..i], nodes)
    {
      assert nodes[..i + 1][..i] == nodes[..i];
      ghost var before := records;
      for j := 0 to |nodes|
        invariant records == before + RowsFrom(dist, nodes[i], nodes[..j])
      {
        assert nodes[..j + 1][..j] == nodes[..j];
        if nodes[i] != nodes[j] {
          records := records + [Row(nodes[i], nodes[j], PairLength(dist, nodes[i], nodes[j]))];
        }
      }
      assert nodes[..|nodes|] == nodes;
    }
    assert nodes[..|nodes|] == nodes;
  }

  lemma {:induction false} RowsFromMembership(dist: Distance, start: string, ends: seq<string>)
    ensures forall row :: row in RowsFrom(dist, start, ends) <==>
      row.port1 == start && row.port2 in ends && row.port2 != start && row.length == PairLength(dist, start, row.port2)
  {
    if ends != [] {
      var init := ends[..|ends| - 1];
      RowsFromMembership(dist, start, init);
      assert ends == init + [ends[|ends| - 1]];
    }
  }

  lemma {:induction false} AllPairsMembership(dist: Distance, starts: seq<string>, nodes: seq<string>)
    ensures forall row :: row in AllPairs(dist, starts, nodes) <==>
      row.port1 in starts && row.port2 in nodes && row.port1 != row.port2
        && row.length == PairLength(dist, row.port1, row.port2)
  {
    if starts != [] {
      var init := starts[..|starts| - 1];
      AllPairsMembership(dist, init, nodes);
      RowsFromMembership(dist, starts[|starts| - 1], nodes);
      assert starts == init + [starts[|starts| - 1]];
    }
  }

  /** Before deduplication the records are exactly one row per ordered pair of
      distinct nodes, carrying the pair's shortest-path length or −1. */
  lemma AllPairsRows(dist: Distance, nodes: seq<string>)
    ensures forall row :: row in AllPairs(dist, nodes, nodes) <==>
      row.port1 in nodes && row.port2 in nodes && row.port1 != row.port2
        && row.length == PairLength(dist, row.port1, row.port2)
  {
    AllPairsMembership(dist, nodes, nodes);
  }

  lemma {:induction false} RowsFromCount(dist: Distance, start: string, ends: seq<string>)
    requires Distinct(ends)
    ensures |RowsFrom(dist, start, ends)| == if start in ends then |ends| - 1 else |ends|
  {
    if ends != [] {
      var init := ends[..|ends| - 1];
      assert Distinct(init);
      RowsFromCount(dist, start, init);
      assert ends == init + [ends[|ends| - 1]];
      assert ends[|ends| - 1] !in init;
    }
  }

  lemma {:induction false} AllPairsCountFrom(dist: Distance, starts: seq<string>, nodes: seq<string>)
    requires Distinct(nodes)
    requires forall s | s in starts :: s in nodes
    ensures |AllPairs(dist, starts, nodes)| == |starts| * (|nodes| - 1)
  {
    if starts != [] {
      var init := starts[..|starts| - 1];
      var last := starts[|starts| - 1];
      assert forall s | s in init :: s in starts;
      AllPairsCountFrom(dist, init, nodes);
      assert last in starts;
      RowsFromCount(dist, last, nodes);
      var k, m := |init|, |nodes| - 1;
      assert |AllPairs(dist, starts, nodes)| == k * m + m;
      assert |starts| == k + 1;
      MulSucc(k, m);
    }
  }

  lemma MulSucc(k: nat, m: int)
    ensures (k + 1) * m == k * m + m
  {
  }

  /** With n distinct nodes there are n·(n−1) records. */
  lemma AllPairsCount(dist: Distance, nodes: seq<string>)
    requires Distinct(nodes)
    ensures |AllPairs(dist, nodes, nodes)| == |nodes| * (|nodes| - 1)
  {
    AllPairsCountFrom(dist, nodes, nodes);
  }

  /** There is no record exactly when there are fewer than two distinct nodes. */
  lemma AllPairsEmpty(dist: Distance, nodes: seq<string>)
    requires Distinct(nodes)
    ensures AllPairs(dist, nodes, nodes) == [] <==> |nodes| <= 1
  {
    AllPairsRows(dist, nodes);
    if |nodes| >= 2 {
      assert Row(nodes[0], nodes[1], PairLength(dist, nodes[0], nodes[1])) in AllPairs(dist, nodes, nodes);
    } else {
      AllPairsCount(dist, nodes);
      assert |nodes| == 0 || |nodes| == 1;
    }
  }

  /** The keys of a list of rows. */
  function Keys(rows: seq<Row>): set<string> {
    set i | 0 <= i < |rows| :: KeyOf(rows[i])
  }

  /** `drop_duplicates` on the sorted-name key: a row is kept when no earlier
      row has the same key. */
  function DropDuplicateKeys(rows: seq<Row>): seq<Row> {
    if rows == [] then []
    else
      var init := rows[..|rows| - 1];
      var last := rows[|rows| - 1];
      DropDuplicateKeys(init) + (if KeyOf(last) in Keys(init) then [] else [last])
  }

  lemma KeysSnoc(rows: seq<Row>, row: Row)
    ensures Keys(rows + [row]) == Keys(rows) + {KeyOf(row)}
  {
    var s := rows + [row];
    assert forall i :: 0 <= i < |rows| ==> s[i] == rows[i];
    assert s[|rows|] == row;
  }

  /** The kept rows are, in order, exactly the rows whose key no earlier row has. */
  lemma {:induction false} DropDuplicatesPositions(rows: seq<Row>) returns (idx: seq<nat>)
    ensures IsIndexing(DropDuplicateKeys(rows), rows, idx)
    ensures forall i :: 0 <= i < |rows| ==> (i in idx <==> KeyOf(rows[i]) !in Keys(rows[..i]))
  {
    if rows == [] {
      idx := [];
    } else {
      var init, last := rows[..|rows| - 1], rows[|rows| - 1];
      assert rows == init + [last];
      var prev := DropDuplicatesPositions(init);
      SnocIndexing(DropDuplicateKeys(init), init, prev, last);
      assert forall i :: 0 <= i < |init| ==> rows[..i] == init[..i] && rows[i] == init[i];
      if KeyOf(last) in Keys(init) {
        idx := prev;
      } else {
        idx := prev + [|init|];
      }
    }
  }

  /** Deduplication loses no key and keeps every key once. */
  lemma {:induction false} DropDuplicatesKeys(rows: seq<Row>)
    ensures Keys(DropDuplicateKeys(rows)) == Keys(rows)
    ensures forall i, j :: 0 <= i < j < |DropDuplicateKeys(rows)| ==>
      KeyOf(DropDuplicateKeys(rows)[i]) != KeyOf(DropDuplicateKeys(rows)[j])
  {
    if rows != [] {
      var init, last := rows[..|rows| - 1], rows[|rows| - 1];
      assert rows == init + [last];
      DropDuplicatesKeys(init);
      KeysSnoc(init, last);
      var front := DropDuplicateKeys(init);
      if KeyOf(last) !in Keys(init) {
        var r := front + [last];
        assert DropDuplicateKeys(rows) == r;
        KeysSnoc(front, last);
        forall i, j | 0 <= i < j < |r|
          ensures KeyOf(r[i]) != KeyOf(r[j])
        {
          assert r[i] == front[i];
          if j == |front| {
            assert r[j] == last;
            assert KeyOf(front[i]) in Keys(front);
          } else {
            assert r[j] == front[j];
          }
        }
      } else {
        assert DropDuplicateKeys(rows) == front;
      }
    }
  }

  /** The two rows join the same two nodes, in either order. */
  predicate SamePair(a: Row, b: Row) {
    || (a.port1 == b.port1 && a.port2 == b.port2)
    || (a.port1 == b.port2 && a.port2 == b.port1)
  }

  /** No two rows join the same two nodes, in the same or in opposite order. */
  ghost predicate OnePerPair(rows: seq<Row>) {
    forall i, j :: 0 <= i < j < |rows| ==> !SamePair(rows[i], rows[j])
  }

  /** Rows joining the same two nodes have the same sorted key. */
  lemma SamePairKey(a: Row, b: Row)
    requires SamePair(a, b)
    ensures KeyOf(a) == KeyOf(b)
  {
    SortedKeySymmetric(a.port1, a.port2);
  }

  /** After deduplication no pair of nodes appears twice, in either order. */
  lemma NoPairTwice(rows: seq<Row>)
    ensures OnePerPair(DropDuplicateKeys(rows))
  {
    DropDuplicatesKeys(rows);
    var r := DropDuplicateKeys(rows);
    forall i, j | 0 <= i < j < |r|
      ensures !SamePair(r[i], r[j])
    {
      if SamePair(r[i], r[j]) {
        SamePairKey(r[i], r[j]);
      }
    }
  }

  /** Distinct pairs whose concatenations collide are merged into the first. */
  lemma CollidingPairsMerge()
    ensures DropDuplicateKeys([Row("ab", "c", 1.0), Row("a", "bc", 2.0)]) == [Row("ab", "c", 1.0)]
  {
    SortedKeyCollision();
    var rows := [Row("ab", "c", 1.0), Row("a", "bc", 2.0)];
    assert rows[..1] == [] + [Row("ab", "c", 1.0)];
    assert rows[..1][..0] == [];
    assert Keys([]) == {};
    KeysSnoc([], Row("ab", "c", 1.0));
    assert Keys(rows[..1]) == {"abc"};
  }

  /** Leaving rows out cannot make a pair appear twice. */
  lemma OnePerPairSubsequence(a: seq<Row>, b: seq<Row>)
    requires OnePerPair(b) && Subsequence(a, b)
    ensures OnePerPair(a)
  {
    var idx :| IsIndexing(a, b, idx);
    forall i, j | 0 <= i < j < |a|
      ensures !SamePair(a[i], a[j])
    {
      assert idx[i] < idx[j];
      assert a[i] == b[idx[i]] && a[j] == b[idx[j]];
    }
  }

  /** The kept rows are rows of the input, in their original order. */
  lemma DropDuplicatesSubsequence(rows: seq<Row>)
    ensures Subsequence(DropDuplicateKeys(rows), rows)
    ensures forall row | row in DropDuplicateKeys(rows) :: row in rows
  {
    var idx := DropDuplicatesPositions(rows);
  }

  /** The deduplicated report of n distinct nodes: rows of distinct nodes with
      their shortest-path length or −1, one per key, covering every pair, and
      and no pair of nodes twice, in either order. */
  lemma ReportRows(dist: Distance, nodes: seq<string>)
    ensures forall row | row in DropDuplicateKeys(AllPairs(dist, nodes, nodes)) ::
      row.port1 in nodes && row.port2 in nodes && row.port1 != row.port2
        && row.length == PairLength(dist, row.port1, row.port2)
    ensures forall a, b | a in nodes && b in nodes && a != b ::
      SortedKey(a, b) in Keys(DropDuplicateKeys(AllPairs(dist, nodes, nodes)))
    ensures OnePerPair(DropDuplicateKeys(AllPairs(dist, nodes, nodes)))
  {
    var all := AllPairs(dist, nodes, nodes);
    AllPairsRows(dist, nodes);
    DropDuplicatesSubsequence(all);
    DropDuplicatesKeys(all);
    NoPairTwice(all);
    forall a, b | a in nodes && b in nodes && a != b
      ensures SortedKey(a, b) in Keys(DropDuplicateKeys(all))
    {
      var row := Row(a, b, PairLength(dist, a, b));
      assert row in all;
      var i :| 0 <= i < |all| && all[i] == row;
      assert KeyOf(all[i]) in Keys(all);
    }
  }

  /** The deduplicated all-pairs report of the graph built from an edge table. */
  function EdgeReport(router: Router, edges: seq<Row>): seq<Row> {
    DropDuplicateKeys(AllPairs(router(edges), GraphNodes(edges), GraphNodes(edges)))
  }
}
