/** `Rasterizer` of rasterizer.js: `parse` clears the framebuffer, reads the
    scene, then draws every triangle, every line and every point, in that
    order, each class in text order. */
module Rasterizers {
  import opened Values
  import opened Framebuffers
  import opened SceneText

  /** One call `parse` makes, with vertices resolved. */
  datatype DrawCall =
    | TriangleCall(a: Vertex, b: Vertex, c: Vertex)
    | LineCall(a: Vertex, b: Vertex)
    | PixelCall(x: int, y: int, color: Color)

  /** The class rank of a call: triangles, then lines, then points. */
  function Rank(c: DrawCall): nat
  {
    match c
    case TriangleCall(_, _, _) => 0
    case LineCall(_, _) => 1
    case PixelCall(_, _, _) => 2
  }

  predicate Resolves(r: Ref, n: nat)
  {
    r.Some? && 0 <= r.value < n
  }

  /** Every index of the scene names a declared vertex, and every point's
      vertex has a numeric position. */
  predicate Resolvable(s: Scene)
  {
    var n := |s.vertices|;
    && (forall c <- s.triangles :: c.TriangleCmd? && Resolves(c.v1, n) && Resolves(c.v2, n) && Resolves(c.v3, n))
    && (forall c <- s.lines :: c.LineCmd? && Resolves(c.v1, n) && Resolves(c.v2, n))
    && (forall c <- s.points :: c.PointCmd? && Resolves(c.v, n)
          && s.vertices[c.v.value].x.Finite? && s.vertices[c.v.value].y.Finite?)
  }

  /** The `setPixel` call of a point: the floored position and the
      vertex colour, unmodified. */
  function PointCall(v: Vertex): (c: DrawCall)
    requires v.x.Finite? && v.y.Finite?
    ensures c.PixelCall? && c.color == v.color
    ensures c.x as real <= v.x.value < c.x as real + 1.0
    ensures c.y as real <= v.y.value < c.y as real + 1.0
  {
    PixelCall(Floor(v.x), Floor(v.y), v.color)
  }

  function TriangleCalls(s: Scene): (cs: seq<DrawCall>)
    requires Resolvable(s)
    ensures |cs| == |s.triangles| && forall c <- cs :: c.TriangleCall?
  {
    var V := s.vertices;
    seq(|s.triangles|, k requires 0 <= k < |s.triangles| =>
      var t := s.triangles[k];
      TriangleCall(V[t.v1.value], V[t.v2.value], V[t.v3.value]))
  }

  function LineCalls(s: Scene): (cs: seq<DrawCall>)
    requires Resolvable(s)
    ensures |cs| == |s.lines| && forall c <- cs :: c.LineCall?
  {
    var V := s.vertices;
    seq(|s.lines|, k requires 0 <= k < |s.lines| =>
      var l := s.lines[k];
      LineCall(V[l.v1.value], V[l.v2.value]))
  }

  function PointCalls(s: Scene): (cs: seq<DrawCall>)
    requires Resolvable(s)
    ensures |cs| == |s.points| && forall c <- cs :: c.PixelCall?
  {
    seq(|s.points|, k requires 0 <= k < |s.points| => PointCall(s.vertices[s.points[k].v.value]))
  }

  /** The calls of a scene, in the order `parse` makes them. */
  function SceneCalls(s: Scene): (cs: seq<DrawCall>)
    requires Resolvable(s)
    ensures |cs| == |s.triangles| + |s.lines| + |s.points|
  {
    TriangleCalls(s) + LineCalls(s) + PointCalls(s)
  }

  /** All triangle calls come before all line calls, which come before all
      point calls. */
  lemma CallsInClassOrder(s: Scene, i: nat, j: nat)
    requires Resolvable(s) && i <= j < |SceneCalls(s)|
    ensures Rank(SceneCalls(s)[i]) <= Rank(SceneCalls(s)[j])
  {
    var T, L, P := TriangleCalls(s), LineCalls(s), PointCalls(s);
    assert SceneCalls(s)[i] == (if i < |T| then T[i] else if i < |T| + |L| then L[i - |T|] else P[i - |T| - |L|]);
    assert SceneCalls(s)[j] == (if j < |T| then T[j] else if j < |T| + |L| then L[j - |T|] else P[j - |T| - |L|]);
    assert i < |T| ==> T[i] in T;
    assert |T| <= i < |T| + |L| ==> L[i - |T|] in L;
    assert |T| + |L| <= i ==> P[i - |T| - |L|] in P;
    assert j < |T| ==> T[j] in T;
    assert |T| <= j < |T| + |L| ==> L[j - |T|] in L;
    assert |T| + |L| <= j ==> P[j - |T| - |L|] in P;
  }

  /** How many pixel writes a sequence of calls makes. */
  function PixelWrites(calls: seq<DrawCall>): nat
  {
    if calls == [] then 0 else (if calls[0].PixelCall? then 1 else 0) + PixelWrites(calls[1..])
  }

  lemma {:induction false} PixelWritesAppend(a: seq<DrawCall>, b: seq<DrawCall>)
    ensures PixelWrites(a + b) == PixelWrites(a) + PixelWrites(b)
  {
    if a == [] {
      assert a + b == b;
    } else {
      assert (a + b)[0] == a[0] && (a + b)[1..] == a[1..] + b;
      PixelWritesAppend(a[1..], b);
    }
  }

  lemma {:induction false} PixelWritesUniform(cs: seq<DrawCall>, pixels: bool)
    requires forall c <- cs :: c.PixelCall? == pixels
    ensures PixelWrites(cs) == if pixels then |cs| else 0
  {
    if cs != [] {
      assert forall c <- cs[1..] :: c in cs;
      PixelWritesUniform(cs[1..], pixels);
    }
  }

  /** One pixel write per `p` line of the text, and no other. */
  lemma PointWriteCount(lines: seq<string>)
    requires Resolvable(SceneOf(lines))
    ensures PixelWrites(SceneCalls(SceneOf(lines))) == |Filter(lines, 'p')|
  {
    var s := SceneOf(lines);
    PixelWritesAppend(TriangleCalls(s) + LineCalls(s), PointCalls(s));
    PixelWritesAppend(TriangleCalls(s), LineCalls(s));
    PixelWritesUniform(TriangleCalls(s), false);
    PixelWritesUniform(LineCalls(s), false);
    PixelWritesUniform(PointCalls(s), true);
  }

  // ---------------------------------------------------------------------
  // Pixel writes and the buffer they leave

  /** Every call is a pixel write inside a grid `w` pixels wide. */
  predicate OnGrid(calls: seq<DrawCall>, w: nat)
  {
    forall c <- calls :: c.PixelCall? && 0 <= c.x < w && 0 <= c.y < w
  }

  /** The buffer after the pixel writes, applied in order to `b`. */
  function Paint(b: Cells, w: nat, calls: seq<DrawCall>): (r: Cells)
    requires |b| == w * w && OnGrid(calls, w)
    ensures |r| == |b|
    decreases |calls|
  {
    if calls == [] then b
    else
      var c := calls[|calls| - 1];
      assert c in calls;
      assert forall d <- calls[..|calls| - 1] :: d in calls;
      Written(Paint(b, w, calls[..|calls| - 1]), w, c.x, c.y, c.color)
  }

  /** One more write on top of the first `k`. */
  lemma PaintSnoc(b: Cells, w: nat, calls: seq<DrawCall>, k: nat)
    requires |b| == w * w && OnGrid(calls, w) && k < |calls|
    ensures OnGrid(calls[..k], w) && OnGrid(calls[..k + 1], w)
    ensures Paint(b, w, calls[..k + 1])
         == Written(Paint(b, w, calls[..k]), w, calls[k].x, calls[k].y, calls[k].color)
  {
    assert forall d <- calls[..k + 1] :: d in calls;
    assert forall d <- calls[..k] :: d in calls;
    assert calls[..k + 1][..k] == calls[..k];
  }

  /** The colour of the last write to pixel (x, y), if any. */
  function LastWrite(calls: seq<DrawCall>, x: int, y: int): Option<Color>
    requires forall c <- calls :: c.PixelCall?
    decreases |calls|
  {
    if calls == [] then None
    else
      var c := calls[|calls| - 1];
      assert c in calls;
      assert forall d <- calls[..|calls| - 1] :: d in calls;
      if c.x == x && c.y == y then Some(c.color) else LastWrite(calls[..|calls| - 1], x, y)
  }

  /** Last write wins: after the writes a pixel holds the colour of the
      last write to it, or what it held before when nothing wrote it. */
  lemma {:induction false} PaintLastWins(b: Cells, w: nat, calls: seq<DrawCall>, x: nat, y: nat)
    requires |b| == w * w && OnGrid(calls, w) && x < w && y < w
    ensures Paint(b, w, calls)[Index(x, y, w)]
         == match LastWrite(calls, x, y) case Some(c) => Some(c) case None => b[Index(x, y, w)]
    decreases |calls|
  {
    if calls != [] {
      var c, init := calls[|calls| - 1], calls[..|calls| - 1];
      assert c in calls;
      assert forall d <- init :: d in calls;
      PaintLastWins(b, w, init, x, y);
      WrittenAt(Paint(b, w, init), w, c.x, c.y, c.color, x, y);
    }
  }

  /** The last point written at a pixel decides its colour. */
  lemma LastWritesDecide(b: Cells, w: nat, calls: seq<DrawCall>)
    requires |b| == w * w && OnGrid(calls, w)
    ensures forall x: nat, y: nat :: (x < w && y < w && LastWrite(calls, x, y).Some?) ==>
              Paint(b, w, calls)[Index(x, y, w)] == LastWrite(calls, x, y)
  {
    forall x: nat, y: nat | x < w && y < w && LastWrite(calls, x, y).Some?
      ensures Paint(b, w, calls)[Index(x, y, w)] == LastWrite(calls, x, y)
    {
      PaintLastWins(b, w, calls, x, y);
    }
  }

  /** Pixel writes on the grid that lands on the same pixel more than once
      keep only the last, whatever was there before. */
  lemma PaintForgetsOverwritten(b1: Cells, b2: Cells, w: nat, calls: seq<DrawCall>, x: nat, y: nat)
    requires |b1| == w * w && |b2| == w * w && OnGrid(calls, w) && x < w && y < w
    requires LastWrite(calls, x, y).Some?
    ensures Paint(b1, w, calls)[Index(x, y, w)] == Paint(b2, w, calls)[Index(x, y, w)]
  {
    PaintLastWins(b1, w, calls, x, y);
    PaintLastWins(b2, w, calls, x, y);
  }

  // ---------------------------------------------------------------------
  // The trace of calls

  /** A call together with the buffer contents just before and just after it. */
  datatype Step = Step(call: DrawCall, before: Cells, after: Cells)

  /** The steps run one after the other from `start` to `end`: each step
      sees what the previous one left. */
  ghost predicate Chained(steps: seq<Step>, start: Cells, end: Cells)
  {
    if steps == [] then start == end
    else
      && steps[0].before == start
      && steps[|steps| - 1].after == end
      && forall k :: 0 < k < |steps| ==> Linked(steps, k)
  }

  /** Step `k` starts from what step `k - 1` left. */
  ghost predicate Linked(steps: seq<Step>, k: nat)
    requires 0 < k < |steps|
  {
    steps[k].before == steps[k - 1].after
  }

  /** A pixel step changes exactly the pixel it writes; the two abstract
      draws keep the buffer size. */
  ghost predicate Exact(s: Step, w: nat)
  {
    && |s.before| == w * w && |s.after| == w * w
    && (s.call.PixelCall? ==>
          && 0 <= s.call.x < w && 0 <= s.call.y < w
          && s.after == Written(s.before, w, s.call.x, s.call.y, s.call.color))
  }

  /** The calls of the steps, in order. */
  function CallsOf(steps: seq<Step>): (cs: seq<DrawCall>)
    ensures |cs| == |steps| && forall k :: 0 <= k < |steps| ==> cs[k] == steps[k].call
  {
    MapSeq(steps, (s: Step) => s.call)
  }

  /** The steps make exactly `calls`, in order, one after the other from
      `start` to `end`, each pixel write exact. */
  ghost predicate Replays(steps: seq<Step>, calls: seq<DrawCall>, start: Cells, end: Cells, w: nat)
  {
    && CallsOf(steps) == calls
    && Chained(steps, start, end)
    && forall s <- steps :: Exact(s, w)
  }

  /** `steps` begins with `prefix`: a trace only ever grows. */
  predicate Extends(steps: seq<Step>, prefix: seq<Step>)
  {
    |steps| >= |prefix| && steps[..|prefix|] == prefix
  }

  lemma ExtendsSnoc(steps: seq<Step>, prefix: seq<Step>, st: Step)
    requires Extends(steps, prefix)
    ensures Extends(steps + [st], prefix)
  {
    assert (steps + [st])[..|prefix|] == steps[..|prefix|];
  }

  lemma ExtendsTrans(a: seq<Step>, b: seq<Step>, c: seq<Step>)
    requires Extends(a, b) && Extends(b, c)
    ensures Extends(a, c)
  {
    assert a[..|c|] == a[..|b|][..|c|];
  }

  lemma PrefixSnoc<T>(done: seq<T>, xs: seq<T>, k: nat)
    requires k < |xs|
    ensures done + xs[..k + 1] == done + xs[..k] + [xs[k]]
  {
    assert xs[..k + 1] == xs[..k] + [xs[k]];
  }

  lemma ReplaysSnoc(steps: seq<Step>, calls: seq<DrawCall>, start: Cells, st: Step, w: nat)
    requires Replays(steps, calls, start, st.before, w) && Exact(st, w)
    ensures Replays(steps + [st], calls + [st.call], start, st.after, w)
  {
    assert CallsOf(steps + [st]) == calls + [st.call];
    var all := steps + [st];
    forall k | 0 < k < |all|
      ensures Linked(all, k)
    {
      if k < |steps| {
        assert Linked(steps, k);
        assert all[k] == steps[k] && all[k - 1] == steps[k - 1];
      }
    }
  }

  /** Every point lands on the grid: the precondition `parse` needs. */
  predicate Drawable(s: Scene, w: nat)
  {
    Resolvable(s) && OnGrid(PointCalls(s), w)
  }

  /** Vertex list construction: vertex `i` is the i-th `v` line. */
  method BuildVertices(vLines: seq<string>) returns (vs: seq<Vertex>)
    ensures |vs| == |vLines|
    ensures forall i :: 0 <= i < |vLines| ==> vs[i] == ParseVertexLine(vLines[i])
  {
    vs := [];
    for k := 0 to |vLines|
      invariant vs == MapSeq(vLines[..k], ParseVertexLine)
    {
      var v := ParseVertexLine(vLines[k]);
      MapSeqAppend(vLines[..k], [vLines[k]], ParseVertexLine);
      assert vLines[..k + 1] == vLines[..k] + [vLines[k]];
      vs := vs + [v];
    }
    assert vLines[..|vLines|] == vLines;
  }

  class Rasterizer {
    const framebuffer: Framebuffer
    /** The calls `parse` has made since it began. */
    ghost var Steps: seq<Step>

    constructor (framebuffer: Framebuffer)
      ensures this.framebuffer == framebuffer && Steps == []
    {
      this.framebuffer := framebuffer;
      Steps := [];
    }

    /** Rasterizes a triangle into the framebuffer. Its algorithm is not
        defined in rasterizer.js or framebuffer.js and is not part of this
        model: callers may assume only that the buffer changed in
        some way and that the call is on record with the contents it saw and
        left. */
    method DrawTriangle(a: Vertex, b: Vertex, c: Vertex)
      requires framebuffer.Valid()
      modifies this, framebuffer.buffer
      ensures Steps == old(Steps) + [Step(TriangleCall(a, b, c), old(framebuffer.buffer[..]), framebuffer.buffer[..])]
    {
      Steps := Steps + [Step(TriangleCall(a, b, c), framebuffer.buffer[..], framebuffer.buffer[..])];
    }

    /** Rasterizes a line segment; like DrawTriangle, only its frame and its
        place in the trace are modelled. */
    method DrawLine(a: Vertex, b: Vertex)
      requires framebuffer.Valid()
      modifies this, framebuffer.buffer
      ensures Steps == old(Steps) + [Step(LineCall(a, b), old(framebuffer.buffer[..]), framebuffer.buffer[..])]
    {
      Steps := Steps + [Step(LineCall(a, b), framebuffer.buffer[..], framebuffer.buffer[..])];
    }

    /** Forwards to the framebuffer. */
    method SetPixel(x: int, y: int, color: Color)
      requires framebuffer.Valid()
      requires 0 <= x < framebuffer.pixelsWide && 0 <= y < framebuffer.pixelsWide
      modifies this, framebuffer.buffer
      ensures framebuffer.buffer[..] == Written(old(framebuffer.buffer[..]), framebuffer.pixelsWide, x, y, color)
      ensures Steps == old(Steps) + [Step(PixelCall(x, y, color), old(framebuffer.buffer[..]), framebuffer.buffer[..])]
    {
      framebuffer.SetPixel(x, y, color);
      Steps := Steps + [Step(PixelCall(x, y, color), old(framebuffer.buffer[..]), framebuffer.buffer[..])];
    }

    /** The `tLines.forEach` loop: one DrawTriangle per line, in order. */
    method DrawTriangles(V: seq<Vertex>, tLines: seq<string>, ghost s: Scene,
                         ghost done: seq<DrawCall>, ghost start: Cells)
      requires framebuffer.Valid() && Resolvable(s) && V == s.vertices
      requires |tLines| == |s.triangles| && forall k :: 0 <= k < |tLines| ==> ParseTriangleLine(tLines[k]) == s.triangles[k]
      requires Replays(Steps, done, start, framebuffer.buffer[..], framebuffer.pixelsWide)
      modifies this, framebuffer.buffer
      ensures Replays(Steps, done + TriangleCalls(s), start, framebuffer.buffer[..], framebuffer.pixelsWide)
      ensures Extends(Steps, old(Steps))
    {
      ghost var calls := TriangleCalls(s);
      ghost var s0 := Steps;
      for k := 0 to |tLines|
        invariant Replays(Steps, done + calls[..k], start, framebuffer.buffer[..], framebuffer.pixelsWide)
        invariant Extends(Steps, s0)
      {
        var t := ParseTriangleLine(tLines[k]);
        assert t in s.triangles;
        ghost var trace := Steps;
        DrawTriangle(V[t.v1.value], V[t.v2.value], V[t.v3.value]);
        ReplaysSnoc(trace, done + calls[..k], start, Steps[|Steps| - 1], framebuffer.pixelsWide);
        PrefixSnoc(done, calls, k);
        ExtendsSnoc(trace, s0, Steps[|Steps| - 1]);
      }
      assert calls[..|tLines|] == calls;
    }

    /** The `lLines.forEach` loop: one DrawLine per line, in order. */
    method DrawLines(V: seq<Vertex>, lLines: seq<string>, ghost s: Scene,
                     ghost done: seq<DrawCall>, ghost start: Cells)
      requires framebuffer.Valid() && Resolvable(s) && V == s.vertices
      requires |lLines| == |s.lines| && forall k :: 0 <= k < |lLines| ==> ParseLineLine(lLines[k]) == s.lines[k]
      requires Replays(Steps, done, start, framebuffer.buffer[..], framebuffer.pixelsWide)
      modifies this, framebuffer.buffer
      ensures Replays(Steps, done + LineCalls(s), start, framebuffer.buffer[..], framebuffer.pixelsWide)
      ensures Extends(Steps, old(Steps))
    {
      ghost var calls := LineCalls(s);
      ghost var s0 := Steps;
      for k := 0 to |lLines|
        invariant Replays(Steps, done + calls[..k], start, framebuffer.buffer[..], framebuffer.pixelsWide)
        invariant Extends(Steps, s0)
      {
        var l := ParseLineLine(lLines[k]);
        assert l in s.lines;
        ghost var trace := Steps;
        DrawLine(V[l.v1.value], V[l.v2.value]);
        ReplaysSnoc(trace, done + calls[..k], start, Steps[|Steps| - 1], framebuffer.pixelsWide);
        PrefixSnoc(done, calls, k);
        ExtendsSnoc(trace, s0, Steps[|Steps| - 1]);
      }
      assert calls[..|lLines|] == calls;
    }

    /** The body of the `pLines.forEach` loop: the `k`-th point call of
        `calls`, made at the floored position of `v` with its colour. */
    method DrawPoint(v: Vertex, ghost calls: seq<DrawCall>, ghost k: nat,
                     ghost done: seq<DrawCall>, ghost start: Cells, ghost painted: Cells)
      requires framebuffer.Valid() && |painted| == framebuffer.buffer.Length
      requires OnGrid(calls, framebuffer.pixelsWide) && k < |calls| && v.x.Finite? && v.y.Finite? && calls[k] == PointCall(v)
      requires Replays(Steps, done + calls[..k], start, framebuffer.buffer[..], framebuffer.pixelsWide)
      requires framebuffer.buffer[..] == Paint(painted, framebuffer.pixelsWide, calls[..k])
      modifies this, framebuffer.buffer
      ensures OnGrid(calls[..k + 1], framebuffer.pixelsWide)
      ensures Replays(Steps, done + calls[..k + 1], start, framebuffer.buffer[..], framebuffer.pixelsWide)
      ensures framebuffer.buffer[..] == Paint(painted, framebuffer.pixelsWide, calls[..k + 1])
      ensures Extends(Steps, old(Steps))
    {
      assert calls[k] in calls;
      ghost var trace := Steps;
      SetPixel(Floor(v.x), Floor(v.y), v.color);
      PaintSnoc(painted, framebuffer.pixelsWide, calls, k);
      ReplaysSnoc(trace, done + calls[..k], start, Steps[|Steps| - 1], framebuffer.pixelsWide);
      PrefixSnoc(done, calls, k);
      assert Extends(trace, trace);
      ExtendsSnoc(trace, trace, Steps[|Steps| - 1]);
    }

    /** The `pLines.forEach` loop: one setPixel per line, in order, at the
        floored position of its vertex with the vertex colour. */
    method DrawPoints(V: seq<Vertex>, pLines: seq<string>, ghost s: Scene,
                      ghost done: seq<DrawCall>, ghost start: Cells)
      requires framebuffer.Valid() && Drawable(s, framebuffer.pixelsWide) && V == s.vertices
      requires |pLines| == |s.points| && forall k :: 0 <= k < |pLines| ==> ParsePointLine(pLines[k]) == s.points[k]
      requires Replays(Steps, done, start, framebuffer.buffer[..], framebuffer.pixelsWide)
      modifies this, framebuffer.buffer
      ensures Replays(Steps, done + PointCalls(s), start, framebuffer.buffer[..], framebuffer.pixelsWide)
      ensures Extends(Steps, old(Steps))
      ensures framebuffer.buffer[..] == Paint(old(framebuffer.buffer[..]), framebuffer.pixelsWide, PointCalls(s))
    {
      ghost var calls := PointCalls(s);
      ghost var s0 := Steps;
      ghost var painted := framebuffer.buffer[..];
      for k := 0 to |pLines|
        invariant OnGrid(calls[..k], framebuffer.pixelsWide)
        invariant Replays(Steps, done + calls[..k], start, framebuffer.buffer[..], framebuffer.pixelsWide)
        invariant Extends(Steps, s0)
        invariant framebuffer.buffer[..] == Paint(painted, framebuffer.pixelsWide, calls[..k])
      {
        var p := ParsePointLine(pLines[k]);
        assert p == s.points[k] && p in s.points;
        var v := V[p.v.value];
        assert calls[k] == PointCall(v);
        ghost var trace := Steps;
        DrawPoint(v, calls, k, done, start, painted);
        ExtendsTrans(Steps, trace, s0);
      }
      assert calls[..|pLines|] == calls;
    }

    /** The three drawing loops of `parse` on a cleared buffer: triangles,
        then lines, then points. */
    method DrawScene(V: seq<Vertex>, tLines: seq<string>, lLines: seq<string>, pLines: seq<string>,
                     ghost s: Scene)
      requires framebuffer.Valid() && Drawable(s, framebuffer.pixelsWide) && V == s.vertices
      requires |tLines| == |s.triangles| && forall k :: 0 <= k < |tLines| ==> ParseTriangleLine(tLines[k]) == s.triangles[k]
      requires |lLines| == |s.lines| && forall k :: 0 <= k < |lLines| ==> ParseLineLine(lLines[k]) == s.lines[k]
      requires |pLines| == |s.points| && forall k :: 0 <= k < |pLines| ==> ParsePointLine(pLines[k]) == s.points[k]
      requires Steps == []
      modifies this, framebuffer.buffer
      ensures Replays(Steps, SceneCalls(s), old(framebuffer.buffer[..]), framebuffer.buffer[..], framebuffer.pixelsWide)
      ensures forall x: nat, y: nat ::
                (x < framebuffer.pixelsWide && y < framebuffer.pixelsWide && LastWrite(PointCalls(s), x, y).Some?) ==>
                framebuffer.buffer[..][Index(x, y, framebuffer.pixelsWide)] == LastWrite(PointCalls(s), x, y)
      ensures s.triangles == [] && s.lines == [] ==>
                framebuffer.buffer[..] == Paint(old(framebuffer.buffer[..]), framebuffer.pixelsWide, PointCalls(s))
    {
      ghost var start := framebuffer.buffer[..];
      DrawTriangles(V, tLines, s, [], start);
      DrawLines(V, lLines, s, TriangleCalls(s), start);
      ghost var painted := framebuffer.buffer[..];
      assert s.triangles == [] && s.lines == [] ==> painted == start by {
        if s.triangles == [] && s.lines == [] {
          assert CallsOf(Steps) == [];
        }
      }
      DrawPoints(V, pLines, s, TriangleCalls(s) + LineCalls(s), start);
      LastWritesDecide(painted, framebuffer.pixelsWide, PointCalls(s));
    }

    /** `parse` after the split: clears the framebuffer, then buckets the
        trimmed lines, builds the vertex list and draws the scene. */
    method DrawText(lines: seq<string>)
      requires framebuffer.Valid()
      requires Drawable(SceneOf(lines), framebuffer.pixelsWide)
      modifies this, framebuffer.buffer
      ensures Replays(Steps, SceneCalls(SceneOf(lines)), Blank(framebuffer.buffer.Length),
                      framebuffer.buffer[..], framebuffer.pixelsWide)
      ensures forall x: nat, y: nat ::
                (x < framebuffer.pixelsWide && y < framebuffer.pixelsWide
                 && LastWrite(PointCalls(SceneOf(lines)), x, y).Some?) ==>
                framebuffer.buffer[..][Index(x, y, framebuffer.pixelsWide)]
                == LastWrite(PointCalls(SceneOf(lines)), x, y)
      ensures SceneOf(lines).triangles == [] && SceneOf(lines).lines == [] ==>
                framebuffer.buffer[..]
                == Paint(Blank(framebuffer.buffer.Length), framebuffer.pixelsWide, PointCalls(SceneOf(lines)))
    {
      framebuffer.Clear();
      Steps := [];
      assert framebuffer.buffer[..] == Blank(framebuffer.buffer.Length);

      var vLines := Filter(lines, 'v');
      var pLines := Filter(lines, 'p');
      var lLines := Filter(lines, 'l');
      var tLines := Filter(lines, 't');
      ghost var s := SceneOf(lines);
      var V := BuildVertices(vLines);
      assert V == s.vertices;
      DrawScene(V, tLines, lLines, pLines, s);
    }

    /** Clears the framebuffer and draws the scene `input` describes. */
    method Parse(input: string)
      requires framebuffer.Valid()
      requires Drawable(SceneOf(Lines(input)), framebuffer.pixelsWide)
      modifies this, framebuffer.buffer
      // the calls made, in order, one after the other on a buffer cleared first
      ensures Replays(Steps, SceneCalls(SceneOf(Lines(input))), Blank(framebuffer.buffer.Length),
                      framebuffer.buffer[..], framebuffer.pixelsWide)
      // points come last, so the last point at a pixel decides its colour
      ensures forall x: nat, y: nat ::
                (x < framebuffer.pixelsWide && y < framebuffer.pixelsWide
                 && LastWrite(PointCalls(SceneOf(Lines(input))), x, y).Some?) ==>
                framebuffer.buffer[..][Index(x, y, framebuffer.pixelsWide)]
                == LastWrite(PointCalls(SceneOf(Lines(input))), x, y)
      // a scene of points alone does not depend on what the buffer held
      ensures SceneOf(Lines(input)).triangles == [] && SceneOf(Lines(input)).lines == [] ==>
                framebuffer.buffer[..]
                == Paint(Blank(framebuffer.buffer.Length), framebuffer.pixelsWide, PointCalls(SceneOf(Lines(input))))
    {
      var lines := Lines(input);
      DrawText(lines);
    }
  }
}
