/** The pixel buffer of framebuffer.js: a square grid of optional colours
    stored row-major in one flat array, and the traversal that turns the set
    cells into quads for the display. */
module Framebuffers {
  import opened Values

  /** The contents of the buffer: `None` is the `null` of an unset cell. */
  type Cells = seq<Option<Color>>

  /** Row-major position of pixel (x, y) in a grid `w` pixels wide; an
      in-grid pixel has its slot inside the `w * w` buffer. */
  function Index(x: nat, y: nat, w: nat): (k: nat)
    ensures x < w && y < w ==> k < w * w
  {
    if x < w && y < w then IndexInGrid(x, y, w); y * w + x else y * w + x
  }

  lemma IndexInGrid(x: nat, y: nat, w: nat)
    requires x < w && y < w
    ensures y * w + x < w * w
  {
    calc {
      y * w + x;
    <
      y * w + w;
    ==
      (y + 1) * w;
    <= { MulMonotone(y + 1, w, w); }
      w * w;
    }
  }

  lemma MulMonotone(a: nat, b: nat, w: nat)
    requires a <= b
    ensures a * w <= b * w
  {
  }

  /** No two in-grid pixels share a slot. */
  lemma IndexUnique(x1: nat, y1: nat, x2: nat, y2: nat, w: nat)
    requires x1 < w && x2 < w
    requires Index(x1, y1, w) == Index(x2, y2, w)
    ensures x1 == x2 && y1 == y2
  {
    if y1 < y2 {
      MulMonotone(y1 + 1, y2, w);
      assert false;
    } else if y2 < y1 {
      MulMonotone(y2 + 1, y1, w);
      assert false;
    }
  }

  /** A buffer of `n` unset cells. */
  function Blank(n: nat): (b: Cells)
    ensures |b| == n && forall i :: 0 <= i < n ==> b[i] == None
  {
    seq(n, _ => None)
  }

  /** What `fill(null)` leaves: the same number of cells, all unset. */
  function Cleared(b: Cells): (r: Cells)
    ensures |r| == |b| && forall i :: 0 <= i < |r| ==> r[i] == None
  {
    Blank(|b|)
  }

  /** Clearing an already cleared buffer changes nothing. */
  lemma ClearedIdempotent(b: Cells)
    ensures Cleared(Cleared(b)) == Cleared(b)
  {
  }

  /** The buffer after `setPixel(x, y, c)`: the slot of (x, y) holds `c`
      whatever it held, every other slot is untouched. */
  function Written(b: Cells, w: nat, x: nat, y: nat, c: Color): (r: Cells)
    requires |b| == w * w && x < w && y < w
    ensures |r| == |b|
    ensures r[Index(x, y, w)] == Some(c)
    ensures forall i :: 0 <= i < |b| && i != Index(x, y, w) ==> r[i] == b[i]
  {
    b[Index(x, y, w) := Some(c)]
  }

  /** The same, pixel by pixel: a write changes exactly the pixel written. */
  lemma WrittenAt(b: Cells, w: nat, x: nat, y: nat, c: Color, px: nat, py: nat)
    requires |b| == w * w && x < w && y < w && px < w && py < w
    ensures Written(b, w, x, y, c)[Index(px, py, w)]
         == if px == x && py == y then Some(c) else b[Index(px, py, w)]
  {
    if Index(px, py, w) == Index(x, y, w) {
      IndexUnique(px, py, x, y, w);
    }
  }

  /** A set cell as the display visits it. */
  datatype Pixel = Pixel(x: nat, y: nat, color: Color)

  /** Whether pixel `p` names an in-grid cell of `b` that holds its colour. */
  predicate IsSet(b: Cells, w: nat, p: Pixel)
    requires |b| == w * w
  {
    p.x < w && p.y < w && b[Index(p.x, p.y, w)] == Some(p.color)
  }

  /** The set cells among rows `0 .. n-1` of column `x`, top to bottom. */
  function ColumnCells(b: Cells, w: nat, x: nat, n: nat): seq<Pixel>
    requires |b| == w * w && x < w && n <= w
    decreases n
  {
    if n == 0 then []
    else
      var rest := ColumnCells(b, w, x, n - 1);
      match b[Index(x, n - 1, w)]
      case None => rest
      case Some(c) => rest + [Pixel(x, n - 1, c)]
  }

  /** The set cells of columns `0 .. m-1`, column by column. */
  function GridCells(b: Cells, w: nat, m: nat): seq<Pixel>
    requires |b| == w * w && m <= w
    decreases m
  {
    if m == 0 then [] else GridCells(b, w, m - 1) + ColumnCells(b, w, m - 1, w)
  }

  /** The set cells of the whole grid in the order `display` visits them:
      x in the outer loop, y in the inner one. */
  function SetCells(b: Cells, w: nat): seq<Pixel>
    requires |b| == w * w
  {
    GridCells(b, w, w)
  }

  /** Column-major order: `p` comes first when it lies in an earlier column,
      or higher up in the same column. */
  predicate Before(p: Pixel, q: Pixel)
  {
    p.x < q.x || (p.x == q.x && p.y < q.y)
  }

  /** Every pixel of `ps` comes before every later one. */
  predicate InOrder(ps: seq<Pixel>)
  {
    forall i, j :: 0 <= i < j < |ps| ==> Before(ps[i], ps[j])
  }

  lemma InOrderAppend(a: seq<Pixel>, b: seq<Pixel>)
    requires InOrder(a) && InOrder(b)
    requires forall p <- a, q <- b :: Before(p, q)
    ensures InOrder(a + b)
  {
    forall i, j | 0 <= i < j < |a + b|
      ensures Before((a + b)[i], (a + b)[j])
    {
      if j < |a| {
        assert (a + b)[i] == a[i] && (a + b)[j] == a[j];
      } else if i < |a| {
        assert (a + b)[i] in a && (a + b)[j] in b;
      } else {
        assert (a + b)[i] == b[i - |a|] && (a + b)[j] == b[j - |a|];
      }
    }
  }

  lemma {:induction false} ColumnCellsMembers(b: Cells, w: nat, x: nat, n: nat)
    requires |b| == w * w && x < w && n <= w
    ensures forall p :: p in ColumnCells(b, w, x, n) <==> p.x == x && p.y < n && IsSet(b, w, p)
  {
    if n > 0 {
      ColumnCellsMembers(b, w, x, n - 1);
      forall p: Pixel | p.x == x && p.y < n && IsSet(b, w, p)
        ensures p in ColumnCells(b, w, x, n)
      {
        if p.y == n - 1 {
          assert b[Index(x, n - 1, w)] == Some(p.color);
        }
      }
    }
  }

  /** A column's cells lie in that column, above row `n`, top to bottom. */
  lemma {:induction false} ColumnCellsSorted(b: Cells, w: nat, x: nat, n: nat)
    requires |b| == w * w && x < w && n <= w
    ensures forall p <- ColumnCells(b, w, x, n) :: p.x == x && p.y < n
    ensures InOrder(ColumnCells(b, w, x, n))
  {
    if n > 0 {
      ColumnCellsSorted(b, w, x, n - 1);
      var rest := ColumnCells(b, w, x, n - 1);
      if b[Index(x, n - 1, w)].Some? {
        InOrderAppend(rest, [Pixel(x, n - 1, b[Index(x, n - 1, w)].value)]);
      }
    }
  }

  lemma {:induction false} GridCellsMembers(b: Cells, w: nat, m: nat)
    requires |b| == w * w && m <= w
    ensures forall p :: p in GridCells(b, w, m) <==> p.x < m && IsSet(b, w, p)
  {
    if m > 0 {
      GridCellsMembers(b, w, m - 1);
      ColumnCellsMembers(b, w, m - 1, w);
    }
  }

  /** The cells of the first `m` columns lie in those columns, in
      column-major order. */
  lemma {:induction false} GridCellsSorted(b: Cells, w: nat, m: nat)
    requires |b| == w * w && m <= w
    ensures forall p <- GridCells(b, w, m) :: p.x < m
    ensures InOrder(GridCells(b, w, m))
  {
    if m > 0 {
      var prev, col := GridCells(b, w, m - 1), ColumnCells(b, w, m - 1, w);
      GridCellsSorted(b, w, m - 1);
      ColumnCellsSorted(b, w, m - 1, w);
      InOrderAppend(prev, col);
    }
  }

  /** The traversal yields exactly the set cells of the grid ... */
  lemma SetCellsExact(b: Cells, w: nat, p: Pixel)
    requires |b| == w * w
    ensures p in SetCells(b, w) <==> IsSet(b, w, p)
  {
    GridCellsMembers(b, w, w);
  }

  /** ... each once, in column-major order. */
  lemma SetCellsOrdered(b: Cells, w: nat, i: nat, j: nat)
    requires |b| == w * w && i < j < |SetCells(b, w)|
    ensures Before(SetCells(b, w)[i], SetCells(b, w)[j])
    ensures SetCells(b, w)[i] != SetCells(b, w)[j]
  {
    GridCellsSorted(b, w, w);
  }

  /** One vertex of the quad drawn for a cell, as grid corner coordinates.
      The display maps corner (gx, gy) to clip space (gx / w * 2 - 1,
      gy / w * -2 + 1, 0.0): three components per corner. */
  datatype Corner = Corner(gx: nat, gy: nat)

  /** The six vertices pushed for cell (x, y): two triangles covering it. */
  function Quad(p: Pixel): seq<Corner>
  {
    [Corner(p.x, p.y), Corner(p.x, p.y + 1), Corner(p.x + 1, p.y + 1),
     Corner(p.x, p.y), Corner(p.x + 1, p.y), Corner(p.x + 1, p.y + 1)]
  }

  /** The vertex array built for the visited cells, six per cell. */
  function QuadVertices(ps: seq<Pixel>): (vs: seq<Corner>)
    ensures |vs| == 6 * |ps|
  {
    if ps == [] then [] else QuadVertices(ps[..|ps| - 1]) + Quad(ps[|ps| - 1])
  }

  /** `n` copies of one colour. */
  function Copies(c: Color, n: nat): (r: seq<Color>)
    ensures |r| == n && forall i :: 0 <= i < n ==> r[i] == c
  {
    seq(n, _ => c)
  }

  lemma CopiesSnoc(c: Color, n: nat)
    ensures Copies(c, n + 1) == Copies(c, n) + [c]
  {
    assert Copies(c, n + 1)[..n] == Copies(c, n);
  }

  /** The colour array built for the visited cells, six copies per cell. */
  function QuadColors(ps: seq<Pixel>): (cs: seq<Color>)
    ensures |cs| == 6 * |ps|
  {
    if ps == [] then [] else QuadColors(ps[..|ps| - 1]) + Copies(ps[|ps| - 1].color, 6)
  }

  /** One more visited cell appends its quad and its six colours. */
  lemma QuadsSnoc(ps: seq<Pixel>, p: Pixel)
    ensures QuadVertices(ps + [p]) == QuadVertices(ps) + Quad(p)
    ensures QuadColors(ps + [p]) == QuadColors(ps) + Copies(p.color, 6)
  {
    assert (ps + [p])[..|ps|] == ps;
  }

  /** Visiting row `y` of column `x` appends the cell there when it is set. */
  lemma ColumnCellsSnoc(b: Cells, w: nat, x: nat, y: nat, done: seq<Pixel>)
    requires |b| == w * w && x < w && y < w
    ensures done + ColumnCells(b, w, x, y + 1)
         == match b[Index(x, y, w)]
            case None => done + ColumnCells(b, w, x, y)
            case Some(c) => done + ColumnCells(b, w, x, y) + [Pixel(x, y, c)]
  {
  }

  /** Block `k` of the two arrays is the quad of the k-th visited cell,
      painted with that cell's colour. */
  lemma {:induction false} QuadsAt(ps: seq<Pixel>, k: nat)
    requires k < |ps|
    ensures QuadVertices(ps)[6 * k .. 6 * k + 6] == Quad(ps[k])
    ensures forall j :: 6 * k <= j < 6 * k + 6 ==> QuadColors(ps)[j] == ps[k].color
  {
    var last := |ps| - 1;
    if k < last {
      QuadsAt(ps[..last], k);
      assert QuadVertices(ps) == QuadVertices(ps[..last]) + Quad(ps[last]);
      assert QuadColors(ps) == QuadColors(ps[..last]) + Copies(ps[last].color, 6);
    }
  }

  class Framebuffer {
    /** How many pixels fit along one side of the canvas. */
    const pixelsWide: nat
    /** The colour of pixel (x, y) lives at `buffer[y * pixelsWide + x]`. */
    const buffer: array<Option<Color>>

    predicate Valid()
    {
      buffer.Length == pixelsWide * pixelsWide
    }

    /** Allocates `pixelsWide * pixelsWide` cells, all unset. */
    constructor (pixelsWide: nat)
      ensures Valid() && fresh(buffer)
      ensures this.pixelsWide == pixelsWide
      ensures buffer[..] == Blank(pixelsWide * pixelsWide)
    {
      this.pixelsWide := pixelsWide;
      buffer := new Option<Color>[pixelsWide * pixelsWide](_ => None);
    }

    /** Overwrites one in-grid cell with `color`: last write wins. */
    method SetPixel(x: int, y: int, color: Color)
      requires Valid()
      requires 0 <= x < pixelsWide && 0 <= y < pixelsWide
      modifies buffer
      ensures buffer[..] == Written(old(buffer[..]), pixelsWide, x, y, color)
    {
      assert Index(x, y, pixelsWide) == y * pixelsWide + x;
      buffer[y * pixelsWide + x] := Some(color);
    }

    /** Resets every cell to unset. */
    method Clear()
      requires Valid()
      modifies buffer
      ensures buffer[..] == Cleared(old(buffer[..]))
    {
      forall i | 0 <= i < buffer.Length {
        buffer[i] := None;
      }
    }

    /** The vertex and colour arrays handed to the GPU, and the vertex count
        passed to drawArrays (`V.length / 3`). */
    method Display() returns (verts: seq<Corner>, colors: seq<Color>, count: nat)
      requires Valid()
      ensures verts == QuadVertices(SetCells(buffer[..], pixelsWide))
      ensures colors == QuadColors(SetCells(buffer[..], pixelsWide))
      ensures count == |verts| == 6 * |SetCells(buffer[..], pixelsWide)|
    {
      ghost var b := buffer[..];
      var w := pixelsWide;
      verts, colors := [], [];
      for x := 0 to w
        invariant verts == QuadVertices(GridCells(b, w, x))
        invariant colors == QuadColors(GridCells(b, w, x))
      {
        verts, colors := DisplayColumn(x, verts, colors, GridCells(b, w, x));
        assert GridCells(b, w, x + 1) == GridCells(b, w, x) + ColumnCells(b, w, x, w);
      }
      count := |verts|;
    }

    /** The body of `if (color)`: the six corners of cell `p`, then its
        colour six times. */
    static method PushQuad(verts0: seq<Corner>, colors0: seq<Color>, p: Pixel, ghost visited: seq<Pixel>)
      returns (verts: seq<Corner>, colors: seq<Color>)
      requires verts0 == QuadVertices(visited) && colors0 == QuadColors(visited)
      ensures verts == QuadVertices(visited + [p]) && colors == QuadColors(visited + [p])
    {
      QuadsSnoc(visited, p);
      verts := verts0 + Quad(p);
      colors := colors0;
      for i := 0 to 6
        invariant colors == colors0 + Copies(p.color, i)
      {
        CopiesSnoc(p.color, i);
        colors := colors + [p.color];
      }
    }

    /** The inner loop of `display`: the quads of the set cells of column
        `x`, top to bottom, pushed after those of the columns `done` covers. */
    method DisplayColumn(x: nat, verts0: seq<Corner>, colors0: seq<Color>, ghost done: seq<Pixel>)
      returns (verts: seq<Corner>, colors: seq<Color>)
      requires Valid() && x < pixelsWide
      requires verts0 == QuadVertices(done) && colors0 == QuadColors(done)
      ensures verts == QuadVertices(done + ColumnCells(buffer[..], pixelsWide, x, pixelsWide))
      ensures colors == QuadColors(done + ColumnCells(buffer[..], pixelsWide, x, pixelsWide))
    {
      var w := pixelsWide;
      ghost var b := buffer[..];
      verts, colors := verts0, colors0;
      ghost var visited := done;
      assert done + ColumnCells(b, w, x, 0) == done;
      for y := 0 to w
        invariant visited == done + ColumnCells(b, w, x, y)
        invariant verts == QuadVertices(visited)
        invariant colors == QuadColors(visited)
      {
        var color := buffer[Index(x, y, w)];
        ColumnCellsSnoc(b, w, x, y, done);
        if color.Some? {
          var c := color.value;
          var p := Pixel(x, y, c);
          verts, colors := PushQuad(verts, colors, p, visited);
          visited := visited + [p];
        }
      }
    }
  }
}
