/** Values shared by the pixel buffer and the scene parser. */
module Values {

  datatype Option<+T> = None | Some(value: T)

  /** A JavaScript number as the scene parser produces it: a finite value
      or NaN (what parseFloat and parseInt return when no literal is found). */
  datatype Number = Finite(value: real) | NaN

  /** The `[r, g, b]` array a vertex carries and a pixel stores. */
  datatype Color = Color(r: Number, g: Number, b: Number)

  /** A parsed vertex `[x, y, [r, g, b]]`. */
  datatype Vertex = Vertex(x: Number, y: Number, color: Color)

  /** Math.floor on a finite number. */
  function Floor(n: Number): (k: int)
    requires n.Finite?
    ensures k as real <= n.value < k as real + 1.0
  {
    n.value.Floor
  }

  /** Array.prototype.map: element-wise application, order kept. */
  function MapSeq<A, B>(s: seq<A>, f: A -> B): (r: seq<B>)
    ensures |r| == |s|
    ensures forall i :: 0 <= i < |s| ==> r[i] == f(s[i])
  {
    seq(|s|, i requires 0 <= i < |s| => f(s[i]))
  }

  lemma MapSeqAppend<A, B>(a: seq<A>, b: seq<A>, f: A -> B)
    ensures MapSeq(a + b, f) == MapSeq(a, f) + MapSeq(b, f)
  {
  }
}
