/** The entities the pipeline passes around, the error taxonomy that replaces
    the source's `exit(1)` calls and Python exceptions, and the external
    collaborators (the planar geometry engine, `math.sqrt`, and the layout
    reader) as one record of functions. Nothing in the model looks inside a
    polygon: only the engine does. */
module Geometry {

  datatype Point = Point(x: real, y: real)

  /** An opaque handle on a polygon produced by the geometry engine. */
  datatype Polygon = Polygon(handle: nat)

  /** A text label placed by the designer to name a port. */
  datatype Label = Label(text: string, origin: Point)

  /** A drawing layer: layer number and datatype (texttype for labels). */
  datatype LayerSelector = LayerSelector(layer: int, dtype: int)

  /** A top-level cell of the layout library, known by its name. */
  datatype Cell = Cell(name: string, handle: nat)

  datatype Option<T> = None | Some(value: T)

  /** Every fatal condition of the pipeline. */
  datatype Error =
    | NoCells                                  // the library has no top-level cell
    | CellNameRequired                         // several top-level cells and no name given
    | InvalidCellName                          // no top-level cell has the requested name
    | MissingKey(key: string)                  // a layer dictionary lacks a required key
    | FileNotFound(path: string)               // the layout file does not exist
    | DuplicateLabels(texts: seq<string>)      // repeated label texts among the kept labels
    | NoIntersection                           // a cut does not intersect the path it was paired with
    | NegativeDiscriminant(area: real, perimeter: real)  // no real length for a piece
    | NoNodes                                  // the all-pairs report has no record
    | ColumnMismatch                           // the all-pairs report table could not be given its columns

  datatype Result<T> = Ok(value: T) | Err(error: Error) {
    predicate IsFailure() { Err? }
    function PropagateFailure<U>(): Result<U>
      requires Err?
    {
      Err(error)
    }
    function Extract(): T
      requires Ok?
    {
      value
    }
  }

  /** `acc` put in front of a successful list result; an error is passed on. */
  function Prepend<T>(acc: seq<T>, r: Result<seq<T>>): Result<seq<T>> {
    match r
    case Ok(v) => Ok(acc + v)
    case Err(e) => Err(e)
  }

  /** Two list results in sequence: the first failure wins, else the lists are joined. */
  function Chain<T>(a: Result<seq<T>>, b: Result<seq<T>>): Result<seq<T>> {
    match a
    case Ok(x) => Prepend(x, b)
    case Err(e) => Err(e)
  }

  lemma PrependNothing<T>(r: Result<seq<T>>)
    ensures Prepend([], r) == r
  {
    if r.Ok? {
      assert [] + r.value == r.value;
    }
  }

  lemma PrependPrepend<T>(x: seq<T>, y: seq<T>, r: Result<seq<T>>)
    ensures Prepend(x, Prepend(y, r)) == Prepend(x + y, r)
  {
    if r.Ok? {
      assert x + (y + r.value) == (x + y) + r.value;
    }
  }

  lemma ChainPrepend<T>(x: seq<T>, a: Result<seq<T>>, b: Result<seq<T>>)
    ensures Chain(Prepend(x, a), b) == Prepend(x, Chain(a, b))
  {
    if a.Ok? {
      PrependPrepend(x, a.value, b);
    }
  }

  /** The external collaborators. The boolean operations return the list of
      resulting polygons, in the engine's order; `inside(q, ps)` is the
      engine's answer for point `q` and the polygons `ps` (gdstk `inside`, and
      `Polygon.contain` for a single polygon), on which the model places no
      constraint; `describe` is the text the
      engine prints for a result list; `sqrt` is `math.sqrt`; `polygonsOn`
      and `labelsOn` read the shapes and texts of a cell on a layer,
      through its whole instance hierarchy. */
  datatype Engine = Engine(
    difference: (seq<Polygon>, seq<Polygon>) -> seq<Polygon>,
    intersection: (seq<Polygon>, seq<Polygon>) -> seq<Polygon>,
    union: (seq<Polygon>, seq<Polygon>) -> seq<Polygon>,
    inside: (Point, seq<Polygon>) -> bool,
    vertices: Polygon -> seq<Point>,
    area: Polygon -> real,
    perimeter: Polygon -> real,
    describe: seq<Polygon> -> string,
    sqrt: real -> real,
    polygonsOn: (Cell, LayerSelector) -> seq<Polygon>,
    labelsOn: (Cell, LayerSelector) -> seq<Label>)

  /** The file system and the layout reader: whether a path names an existing
      file, and the top-level cells of the library read from that file. */
  datatype Disk = Disk(isFile: string -> bool, topLevel: string -> seq<Cell>)

  /** Some vertex of `p` lies inside one of `ps` (gdstk `any_inside`). */
  predicate AnyVertexInside(g: Engine, p: Polygon, ps: seq<Polygon>) {
    exists i :: 0 <= i < |g.vertices(p)| && g.inside(g.vertices(p)[i], ps)
  }

  function Texts(labels: seq<Label>): (r: seq<string>)
    ensures |r| == |labels| && forall i :: 0 <= i < |labels| ==> r[i] == labels[i].text
  {
    seq(|labels|, i requires 0 <= i < |labels| => labels[i].text)
  }
}
