# Pixel framebuffer and scene rasterizer, modelled in Dafny

This project models the CPU-side core of a small WebGL teaching rasterizer.
The model has two parts:

- **`Framebuffer`** (framebuffer.js) keeps a square grid of `pixelsWide × pixelsWide` optional colours.
  - They live in one flat array, stored row-major at `y * pixelsWide + x`.
  - `setPixel` overwrites one cell and `clear` empties them all.
  - `display` walks the grid with x in the outer loop and y in the inner one. For every set cell it pushes one quad of six vertices and six copies of the cell's colour.
- **`Rasterizer.parse`** (rasterizer.js) reads a scene text in these steps:
  - It clears the framebuffer.
  - It splits the text on `;` and trims each piece.
  - It buckets the pieces by their first character: `v` vertex, `p` point, `l` line, `t` triangle.
  - It builds the vertex list from the `v` pieces in text order.
  - It calls `drawTriangle` for every triangle, then `drawLine` for every line, then `setPixel` for every point, at the floored vertex position with the vertex colour.

The model is split into four modules:

- `Values` (values.dfy): JavaScript numbers as `Finite(real) | NaN`, colours, vertices, `Math.floor` and `Array.prototype.map`.
- `Framebuffers` (framebuffer.dfy): the class `Framebuffer`, whose `buffer` is an `array<Option<Color>>`. `None` stands for `null`.
  - Its methods are proved against specification functions on the buffer contents: `Blank`, `Written`, `Cleared`, and `SetCells` (the set cells in visiting order).
  - `Corner(gx, gy)` names the grid corners that `display` converts to clip space.
- `SceneText` (scene.dfy): the pure text handling, as JavaScript defines it.
  - `String.prototype.split` with a one-character separator, and `trim` over JavaScript's white space and line terminators.
  - `parseInt` with no radix, including the `0x` prefix, and `parseFloat` as a decimal literal with optional fraction and exponent, giving exact reals.
  - The `startsWith` filters, the `Command` variant behind each tag, and the `Scene` the filters produce.
- `Rasterizers` (rasterizer.dfy): the class `Rasterizer` and the `forEach` loop that builds the vertex list.
  - `drawTriangle` and `drawLine` are not defined in rasterizer.js or framebuffer.js, so those methods are abstract. They may change the buffer in any way, and they add a record of the call to a ghost trace `Steps`.
  - Each trace step stores the call and the buffer contents before and after it.
  - `Parse` is proved to make exactly `SceneCalls(SceneOf(Lines(input)))` on a freshly cleared buffer, one after the other. That sequence is all triangle calls, then all line calls, then all pixel writes, each class in text order.
  - Every pixel write in the trace changes exactly its own cell.

How the code treats unusual input, and how the model states it:

- A piece with an unknown tag, or an empty piece, is dropped silently (proved: `SceneText.IgnoredPiece`).
- A field that is not a number reads as NaN (`None` from `ParseInt`, `NaN` from `ParseFloat`).
- A vertex index that does not parse or is out of range, and a point whose floored position is off the grid, are preconditions of `Parse` (`Drawable`). The code would pass `undefined` on, throw at `Math.floor(v[0])`, or write to a cell outside the point's own position.
- `new Array(opts.pixelsWide * opts.pixelsWide)` (framebuffer.js:9) throws a `RangeError` when the product is not a valid array length, for example when `pixelsWide` is 2.5 or `undefined`. The constructor's `nat` parameter rules out non-integer and negative widths. A width of zero gives an empty grid.

## Model

| member | source | states |
|---|---|---|
| Values.Floor | rasterizer.js:55 | `Math.floor` of a finite number is the integer `k` with `k <= v < k + 1` |
| Values.MapSeq | rasterizer.js:11 | `map` keeps the length and applies the function to each element in place |
| Framebuffers.Index | framebuffer.js:70-73 | for `0 <= x, y < w` the slot `y * w + x` lies inside the `w * w` buffer |
| Framebuffers.IndexUnique | framebuffer.js:73 | two in-grid pixels with the same slot are the same pixel |
| Framebuffers.Blank | framebuffer.js:9-10 | the allocated buffer has `n` cells, all `null` |
| Framebuffers.Cleared | framebuffer.js:102-103 | `fill(null)` keeps the length and unsets every cell |
| Framebuffers.ClearedIdempotent | framebuffer.js:102-103 | clearing twice is clearing once |
| Framebuffers.Written | framebuffer.js:73 | after the write the slot of (x, y) holds the colour whatever it held, every other slot is unchanged, and the length is unchanged |
| Framebuffers.WrittenAt | framebuffer.js:73 | the same per pixel: exactly pixel (x, y) changes, to the colour written |
| Framebuffers.ColumnCellsMembers | framebuffer.js:81-83 | the inner loop over column `x` meets exactly the set cells of that column, above the current row |
| Framebuffers.ColumnCellsSorted | framebuffer.js:81-83 | the cells of one column come top to bottom |
| Framebuffers.GridCellsMembers | framebuffer.js:80-83 | after `m` outer iterations exactly the set cells with `x < m` have been met |
| Framebuffers.GridCellsSorted | framebuffer.js:80-83 | those cells come in column-major order |
| Framebuffers.SetCells | framebuffer.js:80-83 | the cells the two `display` loops visit and find set, column by column and top to bottom in each column; defined without a contract of its own, its meaning is `SetCellsExact` and `SetCellsOrdered` |
| Framebuffers.SetCellsExact | framebuffer.js:80-83 | a pixel is yielded by the traversal if and only if its cell is set to its colour |
| Framebuffers.SetCellsOrdered | framebuffer.js:80-83 | of two yielded cells the earlier lies in an earlier column, or higher in the same column, so no cell is yielded twice |
| Framebuffers.Quad | framebuffer.js:84-89 | the six corners pushed for one cell, two triangles sharing the diagonal from (x, y) to (x+1, y+1); a definition, related to the vertex array by `QuadsAt` |
| Framebuffers.QuadVertices | framebuffer.js:84-89 | six vertices per visited cell |
| Framebuffers.QuadColors | framebuffer.js:91-93 | six colour entries per visited cell |
| Framebuffers.QuadsAt | framebuffer.js:84-93 | block `k` of the vertex array is the two triangles covering the k-th visited cell, and block `k` of the colour array is six copies of that cell's colour |
| Framebuffers.Framebuffer.constructor | framebuffer.js:4-10 | the buffer is fresh, has `pixelsWide * pixelsWide` cells, and all are unset |
| Framebuffers.Framebuffer.SetPixel | framebuffer.js:69-74 | for in-range coordinates the new buffer is `Written(old buffer, x, y, color)`: last write wins, nothing else changes |
| Framebuffers.Framebuffer.Clear | framebuffer.js:102-103 | the new buffer is `Cleared(old buffer)` |
| Framebuffers.Framebuffer.PushQuad | framebuffer.js:84-93 | the body of `if (color)` appends the cell's quad and its six colours, which extends the arrays for the cells visited so far by one cell |
| Framebuffers.Framebuffer.DisplayColumn | framebuffer.js:81-95 | the inner loop over `y` extends the arrays by the quads of exactly the set cells of column `x`, in order |
| Framebuffers.Framebuffer.Display | framebuffer.js:76-99 | the arrays are the quads and colours of `SetCells` (the set cells, column-major), and the vertex count `V.length / 3` is six times the number of set cells |
| SceneText.Split | rasterizer.js:11 | `split(';')` gives at least one piece, no piece holds the separator, and joining the pieces back gives the input |
| SceneText.SplitJoin | rasterizer.js:11 | splitting undoes joining separator-free pieces |
| SceneText.TrimStart | rasterizer.js:11 | what is removed is white space, and the rest starts with a non-white character |
| SceneText.TrimEnd | rasterizer.js:11 | what is removed is white space, and the rest ends with a non-white character |
| SceneText.Trim | rasterizer.js:11 | the result is an infix of the piece with only white space around it, and it neither starts nor ends with white space |
| SceneText.Lines | rasterizer.js:11 | `input.split(';').map(l => l.trim())`: one line per `;`-separated piece, none holding a `;`, none starting or ending with white space |
| SceneText.LinesOfJoin | rasterizer.js:11 | the lines of a text made of `;`-separated pieces are those pieces, trimmed, in order |
| SceneText.ParseInt | rasterizer.js:33-35 | `parseInt` with no radix: leading white space, an optional sign, then a `0x`/`0X` hex run or a decimal run, `None` (NaN) when the run is empty; a definition, read back by `ParseIntNat` |
| SceneText.ParseIntNat | rasterizer.js:33-35 | `parseInt` reads back the decimal numeral of any natural number, whatever non-digit text follows, except an `x` or `X` right after a lone `0`, which makes a hex prefix (`parseInt("0x5")` is 5) |
| SceneText.ParseFloat | rasterizer.js:22-26 | `parseFloat`: leading white space, an optional sign, digits with an optional fraction and exponent, NaN when there are no digits; a definition, read back by `ParseFloatNat` |
| SceneText.ParseFloatNat | rasterizer.js:22-26 | `parseFloat` reads back the decimal numeral of any natural number |
| SceneText.Filter | rasterizer.js:12-15 | `filter(l => l.startsWith(c))` keeps exactly the lines starting with `c` |
| SceneText.FilterAppend | rasterizer.js:12-15 | filtering keeps text order: it commutes with concatenation |
| SceneText.ParseVertexLine | rasterizer.js:20-27 | fields 1 to 5 of a `v` line, each through `parseFloat`; a definition, stated field by field in `VertexFields` |
| SceneText.ParseTriangleLine | rasterizer.js:32-35 | a triangle command from fields 1 to 3 through `parseInt`; stated in `TriangleFields` |
| SceneText.ParseLineLine | rasterizer.js:42-44 | a line command from fields 1 and 2 through `parseInt`; stated in `LineFields` |
| SceneText.ParsePointLine | rasterizer.js:51-52 | a point command from field 1 through `parseInt`; stated in `PointFields` |
| SceneText.VertexFields | rasterizer.js:20-27 | a `v` piece stores its comma-separated fields 1 to 5 as `(x, y, [r, g, b])`, whatever field 0 holds and whatever follows field 5 |
| SceneText.TriangleFields | rasterizer.js:32-35 | a `t` piece refers to the vertices named by its fields 1 to 3 |
| SceneText.LineFields | rasterizer.js:42-44 | an `l` piece refers to the vertices named by its fields 1 and 2 |
| SceneText.PointFields | rasterizer.js:51-52 | a `p` piece refers to the vertex named by its field 1 |
| SceneText.Classify | rasterizer.js:12-15 | a piece is a command if and only if its first character is `v`, `p`, `l` or `t` |
| SceneText.SceneOf | rasterizer.js:11-15 | the four `filter` buckets, each parsed; one command per line of its class |
| SceneText.SceneGroupsCommands | rasterizer.js:11-15 | bucketing by first character gives what classifying every piece in text order and then grouping the commands by kind gives |
| SceneText.IgnoredPiece | rasterizer.js:11-15 | a piece with no command tag, an empty one included, changes nothing wherever it stands |
| SceneText.VertexNumbering | rasterizer.js:12 | vertex `i` is the i-th `v` piece: moving any other piece does not renumber the vertices |
| Rasterizers.PointCall | rasterizer.js:54-55 | the write of a point is at the floored position of its vertex and carries the vertex colour unmodified |
| Rasterizers.TriangleCalls | rasterizer.js:31-38 | one triangle call per `t` piece |
| Rasterizers.LineCalls | rasterizer.js:41-47 | one line call per `l` piece |
| Rasterizers.PointCalls | rasterizer.js:50-56 | one pixel write per `p` piece |
| Rasterizers.SceneCalls | rasterizer.js:31-56 | the triangle calls, then the line calls, then the pixel writes; one call per command of the scene |
| Rasterizers.CallsInClassOrder | rasterizer.js:31-56 | in the calls of a scene every triangle call precedes every line call, which precedes every pixel write |
| Rasterizers.PointWriteCount | rasterizer.js:50-56 | the number of pixel writes `parse` makes equals the number of `p` pieces |
| Rasterizers.Paint | rasterizer.js:50-56 | the buffer after a run of point writes, each a `Written` on the previous one; it keeps the buffer's size |
| Rasterizers.PaintLastWins | rasterizer.js:50-56 | after a run of writes a pixel holds the colour of the last write to it, or its old content when none wrote it |
| Rasterizers.PaintForgetsOverwritten | rasterizer.js:50-56 | a pixel that some point writes ends with the same colour whatever the buffer held before |
| Rasterizers.LastWritesDecide | rasterizer.js:50-56 | every pixel some point writes ends with the colour of the last such point |
| Rasterizers.BuildVertices | rasterizer.js:18-28 | vertex `i` of the list is the parse of the i-th `v` piece, and there is one vertex per `v` piece |
| Rasterizers.Rasterizer.constructor | rasterizer.js:2-4 | the rasterizer draws into the framebuffer it is given, with an empty trace |
| Rasterizers.Rasterizer.DrawTriangle | rasterizer.js:37 | the call is on record with the buffer it saw and left |
| Rasterizers.Rasterizer.DrawLine | rasterizer.js:46 | the call is on record with the buffer it saw and left |
| Rasterizers.Rasterizer.SetPixel | rasterizer.js:59-61 | forwards to the framebuffer: the buffer is `Written(old buffer, x, y, color)` and the write is on record |
| Rasterizers.Rasterizer.DrawTriangles | rasterizer.js:31-38 | the earlier trace is kept as a prefix and grows by the triangle calls of the scene, in text order, each on the vertices its fields 1 to 3 name |
| Rasterizers.Rasterizer.DrawLines | rasterizer.js:41-47 | the earlier trace is kept as a prefix and grows by the line calls of the scene, in text order, each on the vertices its fields 1 and 2 name |
| Rasterizers.Rasterizer.DrawPoint | rasterizer.js:51-55 | one point writes the next pixel call and nothing else, after the earlier trace |
| Rasterizers.Rasterizer.DrawPoints | rasterizer.js:50-56 | the earlier trace is kept as a prefix and grows by the pixel writes of the scene, in text order, and the buffer is the old one with those writes applied in order |
| Rasterizers.Rasterizer.DrawScene | rasterizer.js:31-56 | the trace is triangles, then lines, then points, from the buffer as it was; the last point at a pixel decides its colour; a scene of points alone gives the buffer with the writes applied |
| Rasterizers.Rasterizer.DrawText | rasterizer.js:7-56 | the part of `parse` after the split: the same three promises as `Parse`, for the trimmed lines |
| Rasterizers.Rasterizer.Parse | rasterizer.js:6-57 | the calls made are exactly those of the parsed scene in class order, one after the other, starting from a cleared buffer; every pixel some point writes ends with the last such point's colour, over whatever triangles and lines drew there; a scene of points alone gives a buffer that depends only on the text |

## Left out

- The WebGL side is an external graphics API and is not modelled. This covers context creation, `shaderSetUp`, `bindVertexBuffers`, `viewport`, `drawArrays`, `gl.clearColor` and `gl.clear`, and the `alert` when no context is available.
- `saveImage` is DOM and file export, and is not modelled.
- `console.log` has no effect on the state, and is not modelled.
- The clip-space arithmetic of `display`, such as `x / w * 2 - 1`, is floating point. Each vertex is modelled as the grid corner `Corner(gx, gy)` it is computed from, so `V.length / 3` is the number of corners. Likewise `C.push(...color)` spreads each colour into three numbers, so `C` gets 18 numbers per cell; the model keeps six `Color` triples per cell instead.
- Floating-point numbers are modelled as exact reals. `parseFloat` does not round, knows no `Infinity` or `-0`, and overflows nothing. Large `parseInt` results are exact integers.
- The bodies of `drawTriangle` and `drawLine` are not part of this model, because they are not defined in rasterizer.js or framebuffer.js. The two methods are abstract: their contracts only keep the buffer size and record the call.
- Rasterizers.Rasterizer.Parse: it requires every vertex index to parse and to be in range, and every point's vertex to have a finite position whose floor lies on the grid. The code instead passes `undefined` to the draw calls, throws at `Math.floor(v[0])`, or writes to `buffer[y * w + x]` after a failed `console.assert`. With an x off the grid that index wraps into a neighbouring row: a point at (-0.5, 1.2) paints pixel (w-1, 0). With NaN or an index outside 0 to w*w-1 it adds a property or grows the array. None of those outcomes is modelled.
- Framebuffers.Framebuffer.constructor: the `nat` width has no upper bound, but `new Array` throws a `RangeError` when `pixelsWide * pixelsWide` exceeds 2^32 - 1, from `pixelsWide = 65536` on. A negative width, which JavaScript accepts (`pixelsWide = -2` gives a 4-cell buffer that `display` never visits and that every `setPixel` fails its assertions on), is ruled out by the type. Neither case is modelled.
- Framebuffers.Framebuffer.SetPixel: it requires in-range integer coordinates. The source only calls `console.assert` and then writes `buffer[y * w + x]` anyway. An x off the grid wraps into a neighbouring row: `setPixel(-1, 1, c)` writes cell w-1, which is pixel (w-1, 0), and `setPixel(w, 0, c)` writes pixel (0, 1). A fractional coordinate either misses the cells or hits another pixel: `setPixel(0.5, 0, c)` adds the property `"0.5"`, and with w = 4 `setPixel(0, 0.5, c)` writes index 2, which is pixel (2, 0). An integer index below 0 or from w*w on also falls outside the cells, where it adds a property that is not an index or grows the array. That behaviour is not modelled.
- Rasterizers.Rasterizer.Parse: a scene containing triangles or lines is not proved to give a buffer independent of the earlier contents. What those calls draw is not part of this model. The trace does start from a cleared buffer, and the independence is proved for pixels that points write and for scenes of points alone.
- Rasterizers.Rasterizer.DrawText: the same as for `Parse`, of which it is the part after the split.
- Framebuffers.SetCellsOrdered: the count of set cells is not stated as a number independent of the traversal. The traversal's membership and its strict order are proved, and together they imply each set cell is visited once.
