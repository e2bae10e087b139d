/** `_get_polygons`: choose the top-level cell of the layout library and read
    the path shapes (merged), the cutting shapes and the labels from it. The
    two source files differ only in how the layers are passed in. */
module CellSelection {
  import opened Geometry

  /** `c` is the cell the selection rules pick: the only top-level cell when
      no name is given, else the first top-level cell with that name. */
  ghost predicate Chosen(cells: seq<Cell>, cellName: Option<string>, c: Cell) {
    match cellName
    case None => |cells| == 1 && c == cells[0]
    case Some(n) =>
      exists k :: 0 <= k < |cells| && cells[k] == c && c.name == n && forall j :: 0 <= j < k ==> cells[j].name != n
  }

  /** The selection rules pick at most one cell: the first match by name
      leaves no room for a second. */
  lemma ChosenUnique(cells: seq<Cell>, cellName: Option<string>, c: Cell, d: Cell)
    requires Chosen(cells, cellName, c) && Chosen(cells, cellName, d)
    ensures c == d
  {
    if cellName.Some? {
      var n := cellName.value;
      var k :| 0 <= k < |cells| && cells[k] == c && c.name == n && forall j :: 0 <= j < k ==> cells[j].name != n;
      var m :| 0 <= m < |cells| && cells[m] == d && d.name == n && forall j :: 0 <= j < m ==> cells[j].name != n;
    }
  }

  /** The selection branches, with the search over the cells by name. */
  method SelectCell(cells: seq<Cell>, cellName: Option<string>) returns (r: Result<Cell>)
    ensures |cells| == 0 ==> r == Err(NoCells)
    ensures |cells| > 1 && cellName.None? ==> r == Err(CellNameRequired)
    ensures |cells| > 0 && cellName.Some? && (forall c | c in cells :: c.name != cellName.value) ==>
      r == Err(InvalidCellName)
    ensures r.Ok? ==> Chosen(cells, cellName, r.value)
    ensures (exists c :: Chosen(cells, cellName, c)) ==> r.Ok?
    ensures r.Err? ==> r.error in {NoCells, CellNameRequired, InvalidCellName}
  {
    if |cells| < 1 {
      return Err(NoCells);
    }
    if |cells| > 1 && cellName.None? {
      return Err(CellNameRequired);
    }
    var cell: Option<Cell> := None;
    if cellName.None? {
      cell := Some(cells[0]);
    } else {
      var i := 0;
      while i < |cells|
        invariant 0 <= i <= |cells|
        invariant cell == None
        invariant forall j :: 0 <= j < i ==> cells[j].name != cellName.value
      {
        if cells[i].name == cellName.value {
          cell := Some(cells[i]);
          assert Chosen(cells, cellName, cells[i]);
          break;
        }
        i := i + 1;
      }
    }
    if cell.None? {
      return Err(InvalidCellName);
    }
    return Ok(cell.value);
  }

  /** What is read from the chosen cell: the path-layer shapes merged by a
      union with themselves, and the cutting-layer shapes and labels. */
  function CellGeometry(g: Engine, c: Cell, pathLayer: LayerSelector, cuttingLayer: LayerSelector)
    : (seq<Polygon>, seq<Polygon>, seq<Label>)
  {
    var raw := g.polygonsOn(c, pathLayer);
    (g.union(raw, raw), g.polygonsOn(c, cuttingLayer), g.labelsOn(c, cuttingLayer))
  }

  /** `_get_polygons`: choose the cell, then read its geometry; the three
      selection failures are passed on. */
  method GetPolygons(g: Engine, cells: seq<Cell>, pathLayer: LayerSelector, cuttingLayer: LayerSelector,
                     cellName: Option<string>)
    returns (r: Result<(seq<Polygon>, seq<Polygon>, seq<Label>)>)
    ensures |cells| == 0 ==> r == Err(NoCells)
    ensures |cells| > 1 && cellName.None? ==> r == Err(CellNameRequired)
    ensures |cells| > 0 && cellName.Some? && (forall c | c in cells :: c.name != cellName.value) ==>
      r == Err(InvalidCellName)
    ensures r.Ok? <==> exists c :: Chosen(cells, cellName, c)
    ensures r.Ok? ==> exists c :: Chosen(cells, cellName, c) && r.value == CellGeometry(g, c, pathLayer, cuttingLayer)
    ensures r.Err? ==> r.error in {NoCells, CellNameRequired, InvalidCellName}
  {
    var cell := SelectCell(cells, cellName);
    if cell.Err? {
      return Err(cell.error);
    }
    r := Ok(CellGeometry(g, cell.value, pathLayer, cuttingLayer));
  }
}
