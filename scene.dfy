/** The text side of `Rasterizer.parse`: splitting the scene on `;`,
    trimming, bucketing by leading character and reading the comma-separated
    fields with JavaScript's parseFloat and parseInt. */
module SceneText {
  import opened Values

  // ---------------------------------------------------------------------
  // Characters and String.prototype.split / trim

  /** JavaScript's WhiteSpace and LineTerminator characters: what `trim`
      removes and what parseFloat and parseInt skip at the start. */
  predicate IsWhite(c: char)
  {
    || c == '\t' || c == '\n' || c == '\U{000B}' || c == '\U{000C}' || c == '\r'
    || c == ' ' || c == '\U{00A0}' || c == '\U{1680}' || ('\U{2000}' <= c <= '\U{200A}')
    || c == '\U{2028}' || c == '\U{2029}' || c == '\U{202F}' || c == '\U{205F}'
    || c == '\U{3000}' || c == '\U{FEFF}'
  }

  /** The pieces joined back with the separator between them. */
  function Join(pieces: seq<string>, sep: char): string
    requires |pieces| >= 1
    decreases |pieces|
  {
    if |pieces| == 1 then pieces[0] else pieces[0] + [sep] + Join(pieces[1..], sep)
  }

  /** String.prototype.split with a one-character separator: the maximal
      separator-free pieces, empty ones included, that join back to `s`. */
  function Split(s: string, sep: char): (pieces: seq<string>)
    ensures |pieces| >= 1
    ensures forall p <- pieces :: sep !in p
    ensures Join(pieces, sep) == s
    decreases |s|
  {
    if s == [] then [[]]
    else
      var rest := Split(s[1..], sep);
      if s[0] == sep then [[]] + rest
      else
        var head := [s[0]] + rest[0];
        assert ([head] + rest[1..])[1..] == rest[1..];
        [head] + rest[1..]
  }

  lemma {:induction false} SplitNoSeparator(u: string, sep: char)
    requires sep !in u
    ensures Split(u, sep) == [u]
    decreases |u|
  {
    if u != [] {
      SplitNoSeparator(u[1..], sep);
    }
  }

  lemma {:induction false} SplitAtSeparator(u: string, t: string, sep: char)
    requires sep !in u
    ensures Split(u + [sep] + t, sep) == [u] + Split(t, sep)
    decreases |u|
  {
    if u == [] {
      assert u + [sep] + t == [sep] + t;
    } else {
      assert (u + [sep] + t)[1..] == u[1..] + [sep] + t;
      SplitAtSeparator(u[1..], t, sep);
      assert [u[0]] + u[1..] == u;
    }
  }

  /** Splitting undoes joining separator-free pieces. */
  lemma {:induction false} SplitJoin(pieces: seq<string>, sep: char)
    requires |pieces| >= 1 && forall p <- pieces :: sep !in p
    ensures Split(Join(pieces, sep), sep) == pieces
    decreases |pieces|
  {
    if |pieces| == 1 {
      SplitNoSeparator(pieces[0], sep);
    } else {
      SplitJoin(pieces[1..], sep);
      SplitAtSeparator(pieces[0], Join(pieces[1..], sep), sep);
      assert [pieces[0]] + pieces[1..] == pieces;
    }
  }

  /** String.prototype.trimStart: the suffix left after the leading white space. */
  function TrimStart(s: string): (r: string)
    ensures |r| <= |s| && r == s[|s| - |r|..]
    ensures forall i :: 0 <= i < |s| - |r| ==> IsWhite(s[i])
    ensures r != [] ==> !IsWhite(r[0])
    decreases |s|
  {
    if s != [] && IsWhite(s[0]) then TrimStart(s[1..]) else s
  }

  /** String.prototype.trimEnd: the prefix left before the trailing white space. */
  function TrimEnd(s: string): (r: string)
    ensures |r| <= |s| && r == s[..|r|]
    ensures forall i :: |r| <= i < |s| ==> IsWhite(s[i])
    ensures r != [] ==> !IsWhite(r[|r| - 1])
    decreases |s|
  {
    if s != [] && IsWhite(s[|s| - 1]) then TrimEnd(s[..|s| - 1]) else s
  }

  /** `r` is the infix of `s` starting at `i`, with only white space
      before and after it. */
  predicate InfixAt(s: string, r: string, i: nat)
  {
    && i + |r| <= |s| && r == s[i..i + |r|]
    && (forall k :: 0 <= k < i ==> IsWhite(s[k]))
    && (forall k :: i + |r| <= k < |s| ==> IsWhite(s[k]))
  }

  /** String.prototype.trim: the infix of `s` left once white space is
      removed from both ends. */
  function Trim(s: string): (r: string)
    ensures r != [] ==> !IsWhite(r[0]) && !IsWhite(r[|r| - 1])
    ensures exists i :: InfixAt(s, r, i)
  {
    var t := TrimStart(s);
    var r := TrimEnd(t);
    var i := |s| - |t|;
    assert InfixAt(s, r, i);
    r
  }

  /** `input.split(';').map(l => l.trim())`. */
  function Lines(input: string): (r: seq<string>)
    ensures |r| == |Split(input, ';')|
    ensures forall i :: 0 <= i < |r| ==> ';' !in r[i]
    ensures forall i :: 0 <= i < |r| ==> r[i] == [] || (!IsWhite(r[i][0]) && !IsWhite(r[i][|r[i]| - 1]))
  {
    var ps := Split(input, ';');
    var r := MapSeq(ps, Trim);
    TrimsOf(ps, r);
    r
  }

  /** Trimmed `;`-free pieces hold no `;` and neither start nor end with
      white space. */
  lemma TrimsOf(ps: seq<string>, r: seq<string>)
    requires forall p <- ps :: ';' !in p
    requires |r| == |ps| && forall i :: 0 <= i < |ps| ==> r[i] == Trim(ps[i])
    ensures forall i :: 0 <= i < |r| ==> ';' !in r[i]
    ensures forall i :: 0 <= i < |r| ==> r[i] == [] || (!IsWhite(r[i][0]) && !IsWhite(r[i][|r[i]| - 1]))
  {
    forall i | 0 <= i < |ps|
      ensures ';' !in r[i]
    {
      TrimKeepsChar(ps[i], ';');
    }
  }

  lemma TrimKeepsChar(p: string, c: char)
    requires c !in p
    ensures c !in Trim(p)
  {
    var t := Trim(p);
    var i: nat :| InfixAt(p, t, i);
  }

  /** The lines of a scene written as `;`-separated pieces are those pieces,
      trimmed, in order. */
  lemma LinesOfJoin(pieces: seq<string>)
    requires |pieces| >= 1 && forall p <- pieces :: ';' !in p
    ensures Lines(Join(pieces, ';')) == MapSeq(pieces, Trim)
  {
    SplitJoin(pieces, ';');
  }

  // ---------------------------------------------------------------------
  // Numbers: parseInt and parseFloat

  predicate IsDigit(c: char)
  {
    '0' <= c <= '9'
  }

  predicate AllDigits(s: string)
  {
    forall i :: 0 <= i < |s| ==> IsDigit(s[i])
  }

  /** The length of the run of decimal digits `s` starts with. */
  function DigitRun(s: string): (n: nat)
    ensures n <= |s| && AllDigits(s[..n])
    ensures n < |s| ==> !IsDigit(s[n])
    decreases |s|
  {
    if s != [] && IsDigit(s[0]) then 1 + DigitRun(s[1..]) else 0
  }

  /** The value of a string of decimal digits. */
  function DecimalValue(ds: string): nat
    requires AllDigits(ds)
    decreases |ds|
  {
    if ds == [] then 0
    else DecimalValue(ds[..|ds| - 1]) * 10 + ((ds[|ds| - 1] as int) - ('0' as int))
  }

  function Pow10(n: nat): (p: nat)
    ensures p >= 1
  {
    if n == 0 then 1 else 10 * Pow10(n - 1)
  }

  /** `10^e` for a possibly negative exponent. */
  function Scale(e: int): real
  {
    if e >= 0 then Pow10(e) as real else 1.0 / Pow10(-e) as real
  }

  predicate HasSign(t: string)
  {
    t != [] && (t[0] == '+' || t[0] == '-')
  }

  /** What follows an optional leading sign. */
  function Unsigned(t: string): string
  {
    if HasSign(t) then t[1..] else t
  }

  predicate IsNegative(t: string)
  {
    t != [] && t[0] == '-'
  }

  predicate IsHexDigit(c: char)
  {
    IsDigit(c) || 'a' <= c <= 'f' || 'A' <= c <= 'F'
  }

  predicate AllHex(s: string)
  {
    forall i :: 0 <= i < |s| ==> IsHexDigit(s[i])
  }

  /** The length of the run of hexadecimal digits `s` starts with. */
  function HexRun(s: string): (n: nat)
    ensures n <= |s| && AllHex(s[..n])
    ensures n < |s| ==> !IsHexDigit(s[n])
    decreases |s|
  {
    if s != [] && IsHexDigit(s[0]) then 1 + HexRun(s[1..]) else 0
  }

  function HexDigitValue(c: char): (d: nat)
    requires IsHexDigit(c)
    ensures d < 16
  {
    if IsDigit(c) then (c as int) - ('0' as int)
    else if 'a' <= c <= 'f' then (c as int) - ('a' as int) + 10
    else (c as int) - ('A' as int) + 10
  }

  /** The value of a string of hexadecimal digits. */
  function HexValue(ds: string): nat
    requires AllHex(ds)
    decreases |ds|
  {
    if ds == [] then 0
    else HexValue(ds[..|ds| - 1]) * 16 + HexDigitValue(ds[|ds| - 1])
  }

  /** `0x` or `0X`: with no radix given, parseInt then reads base 16. */
  predicate HasHexPrefix(u: string)
  {
    |u| >= 2 && u[0] == '0' && (u[1] == 'x' || u[1] == 'X')
  }

  /** parseInt(s) with no radix: leading white space skipped, an optional
      sign, then either `0x`/`0X` and the longest run of hexadecimal digits
      or the longest run of decimal digits; NaN (`None`) when the run is
      empty. */
  function ParseInt(s: string): Option<int>
  {
    var t := TrimStart(s);
    var u := Unsigned(t);
    if HasHexPrefix(u) then
      var h := u[2..];
      var n := HexRun(h);
      if n == 0 then None
      else
        var v: int := HexValue(h[..n]);
        Some(if IsNegative(t) then -v else v)
    else
      var n := DigitRun(u);
      if n == 0 then None
      else
        var v: int := DecimalValue(u[..n]);
        Some(if IsNegative(t) then -v else v)
  }

  /** The exponent part `e[+-]digits` a float literal may end with, or 0
      when `s` does not start with a complete one. */
  function Exponent(s: string): int
  {
    if s != [] && (s[0] == 'e' || s[0] == 'E') then
      var t := s[1..];
      var u := Unsigned(t);
      var n := DigitRun(u);
      if n == 0 then 0
      else
        var v: int := DecimalValue(u[..n]);
        if IsNegative(t) then -v else v
    else 0
  }

  /** parseFloat(s): leading white space skipped, then the longest prefix
      that is a decimal literal `[+-] digits [. digits] [e [+-] digits]`
      with at least one mantissa digit; NaN when there is none. */
  function ParseFloat(s: string): Number
  {
    var t := TrimStart(s);
    var u := Unsigned(t);
    var i := DigitRun(u);
    var point := i < |u| && u[i] == '.';
    var f := if point then DigitRun(u[i + 1..]) else 0;
    if i == 0 && f == 0 then NaN
    else
      var whole := DecimalValue(u[..i]) as real;
      var frac := if point then DecimalValue(u[i + 1..][..f]) as real / Pow10(f) as real else 0.0;
      var e := Exponent(u[if point then i + 1 + f else i..]);
      var m := (whole + frac) * Scale(e);
      Finite(if IsNegative(t) then -m else m)
  }

  /** The decimal digits of `n`, without leading zeros. */
  function NatString(n: nat): (s: string)
    ensures s != [] && AllDigits(s)
    ensures DecimalValue(s) == n
  {
    var d := ['0' + ((n % 10) as char)];
    if n < 10 then d
    else
      var s := NatString(n / 10) + d;
      assert s[..|s| - 1] == NatString(n / 10);
      s
  }

  lemma {:induction false} DigitRunOfDigits(ds: string, rest: string)
    requires AllDigits(ds)
    requires rest == [] || !IsDigit(rest[0])
    ensures DigitRun(ds + rest) == |ds|
    decreases |ds|
  {
    if ds != [] {
      assert (ds + rest)[1..] == ds[1..] + rest;
      DigitRunOfDigits(ds[1..], rest);
    }
  }

  /** parseInt reads back the decimal numeral of a natural number, whatever
      non-digit text follows it (after a lone `0`, an `x` would make it a
      hexadecimal prefix). */
  lemma ParseIntNat(n: nat, rest: string)
    requires rest == [] || !IsDigit(rest[0])
    requires n == 0 && rest != [] ==> rest[0] != 'x' && rest[0] != 'X'
    ensures ParseInt(NatString(n) + rest) == Some(n)
  {
    var s := NatString(n) + rest;
    assert !IsWhite(s[0]) && !HasSign(s);
    if HasHexPrefix(s) {
      if n > 0 {
        LeadingDigit(n);
      }
      assert false;
    }
    DigitRunOfDigits(NatString(n), rest);
    assert s[..|NatString(n)|] == NatString(n);
  }

  /** Only the numeral of 0 starts with `0`. */
  lemma {:induction false} LeadingDigit(n: nat)
    requires n > 0
    ensures NatString(n)[0] != '0'
  {
    if n >= 10 {
      assert NatString(n)[0] == NatString(n / 10)[0];
      LeadingDigit(n / 10);
    }
  }

  /** parseFloat reads back the decimal numeral of a natural number. */
  lemma ParseFloatNat(n: nat)
    ensures ParseFloat(NatString(n)) == Finite(n as real)
  {
    var s := NatString(n);
    assert !IsWhite(s[0]) && !HasSign(s);
    DigitRunOfDigits(s, []);
    assert s + [] == s && s[..|s|] == s && s[|s|..] == [];
  }

  // ---------------------------------------------------------------------
  // Commands

  /** `l.startsWith(c)` for a one-character prefix. */
  predicate StartsWith(l: string, c: char)
  {
    l != [] && l[0] == c
  }

  /** `lines.filter(l => l.startsWith(c))`. */
  function Filter(lines: seq<string>, c: char): (r: seq<string>)
    ensures forall l :: l in r <==> l in lines && StartsWith(l, c)
    ensures |r| <= |lines|
  {
    if lines == [] then []
    else (if StartsWith(lines[0], c) then [lines[0]] else []) + Filter(lines[1..], c)
  }

  /** Filtering keeps text order: it commutes with concatenation. */
  lemma {:induction false} FilterAppend(a: seq<string>, b: seq<string>, c: char)
    ensures Filter(a + b, c) == Filter(a, c) + Filter(b, c)
  {
    if a != [] {
      assert (a + b)[0] == a[0] && (a + b)[1..] == a[1..] + b;
      FilterAppend(a[1..], b, c);
      var h := if StartsWith(a[0], c) then [a[0]] else [];
      assert Filter(a + b, c) == h + (Filter(a[1..], c) + Filter(b, c));
    } else {
      assert a + b == b;
    }
  }

  /** An index as parseInt leaves it: `None` is NaN. */
  type Ref = Option<int>

  /** One classified scene piece: the explicit variant behind the tag
      character. */
  datatype Command =
    | VertexCmd(vertex: Vertex)
    | PointCmd(v: Ref)
    | LineCmd(v1: Ref, v2: Ref)
    | TriangleCmd(v1: Ref, v2: Ref, v3: Ref)

  /** `parseFloat(p[k])`; a missing field is `undefined`, which reads as NaN. */
  function FloatField(p: seq<string>, k: nat): Number
  {
    if k < |p| then ParseFloat(p[k]) else NaN
  }

  /** `parseInt(p[k])`; a missing field reads as NaN. */
  function IntField(p: seq<string>, k: nat): Ref
  {
    if k < |p| then ParseInt(p[k]) else None
  }

  /** A `v` line: fields 1 to 5 are x, y, r, g, b. */
  function ParseVertexLine(l: string): Vertex
  {
    var p := Split(l, ',');
    Vertex(FloatField(p, 1), FloatField(p, 2),
           Color(FloatField(p, 3), FloatField(p, 4), FloatField(p, 5)))
  }

  /** A `t` line: fields 1 to 3 are vertex indices. */
  function ParseTriangleLine(l: string): (r: Command)
    ensures r.TriangleCmd?
  {
    var p := Split(l, ',');
    TriangleCmd(IntField(p, 1), IntField(p, 2), IntField(p, 3))
  }

  /** An `l` line: fields 1 and 2 are vertex indices. */
  function ParseLineLine(l: string): (r: Command)
    ensures r.LineCmd?
  {
    var p := Split(l, ',');
    LineCmd(IntField(p, 1), IntField(p, 2))
  }

  /** A `p` line: field 1 is a vertex index. */
  function ParsePointLine(l: string): (r: Command)
    ensures r.PointCmd?
  {
    var p := Split(l, ',');
    PointCmd(IntField(p, 1))
  }

  /** The fields of a vertex line are its comma-separated parts 1 to 5,
      whatever the tag part says and whatever parts follow. */
  lemma VertexFields(tag: string, x: string, y: string, r: string, g: string, b: string, more: seq<string>)
    requires forall f <- [tag, x, y, r, g, b] + more :: ',' !in f
    ensures ParseVertexLine(Join([tag, x, y, r, g, b] + more, ','))
         == Vertex(ParseFloat(x), ParseFloat(y), Color(ParseFloat(r), ParseFloat(g), ParseFloat(b)))
  {
    SplitJoin([tag, x, y, r, g, b] + more, ',');
  }

  /** Likewise the three index fields of a triangle line. */
  lemma TriangleFields(tag: string, a: string, b: string, c: string, more: seq<string>)
    requires forall f <- [tag, a, b, c] + more :: ',' !in f
    ensures ParseTriangleLine(Join([tag, a, b, c] + more, ','))
         == TriangleCmd(ParseInt(a), ParseInt(b), ParseInt(c))
  {
    SplitJoin([tag, a, b, c] + more, ',');
  }

  /** An `l` piece refers to the vertices named by its fields 1 and 2. */
  lemma LineFields(tag: string, a: string, b: string, more: seq<string>)
    requires forall f <- [tag, a, b] + more :: ',' !in f
    ensures ParseLineLine(Join([tag, a, b] + more, ','))
         == LineCmd(ParseInt(a), ParseInt(b))
  {
    SplitJoin([tag, a, b] + more, ',');
  }

  /** A `p` piece refers to the vertex named by its field 1. */
  lemma PointFields(tag: string, a: string, more: seq<string>)
    requires forall f <- [tag, a] + more :: ',' !in f
    ensures ParsePointLine(Join([tag, a] + more, ',')) == PointCmd(ParseInt(a))
  {
    SplitJoin([tag, a] + more, ',');
  }

  /** The class of a line is decided by its first character alone; a line
      with any other first character, or an empty one, is no command. */
  function Classify(l: string): (c: Option<Command>)
    ensures c.None? <==> !(StartsWith(l, 'v') || StartsWith(l, 'p') || StartsWith(l, 'l') || StartsWith(l, 't'))
  {
    if StartsWith(l, 'v') then Some(VertexCmd(ParseVertexLine(l)))
    else if StartsWith(l, 'p') then Some(ParsePointLine(l))
    else if StartsWith(l, 'l') then Some(ParseLineLine(l))
    else if StartsWith(l, 't') then Some(ParseTriangleLine(l))
    else None
  }

  /** The commands of the lines, one per classified line, in text order. */
  function CommandsOf(lines: seq<string>): seq<Command>
  {
    if lines == [] then []
    else
      (match Classify(lines[0]) case Some(c) => [c] case None => []) + CommandsOf(lines[1..])
  }

  /** The vertices among some commands, in order. */
  function VerticesIn(cmds: seq<Command>): seq<Vertex>
  {
    if cmds == [] then [] else (if cmds[0].VertexCmd? then [cmds[0].vertex] else []) + VerticesIn(cmds[1..])
  }

  predicate SameKind(a: Command, b: Command)
  {
    (a.VertexCmd? && b.VertexCmd?) || (a.PointCmd? && b.PointCmd?)
    || (a.LineCmd? && b.LineCmd?) || (a.TriangleCmd? && b.TriangleCmd?)
  }

  /** The commands of the same kind as `k`, in order. */
  function OfKind(cmds: seq<Command>, k: Command): seq<Command>
  {
    if cmds == [] then [] else (if SameKind(cmds[0], k) then [cmds[0]] else []) + OfKind(cmds[1..], k)
  }

  /** A scene as `parse` reads it: the vertex list from the `v` lines and
      the draw commands from the `t`, `l` and `p` lines, each class in text
      order. */
  datatype Scene = Scene(vertices: seq<Vertex>, triangles: seq<Command>,
                         lines: seq<Command>, points: seq<Command>)

  function SceneOf(lines: seq<string>): (r: Scene)
    ensures |r.vertices| == |Filter(lines, 'v')| && |r.triangles| == |Filter(lines, 't')|
    ensures |r.lines| == |Filter(lines, 'l')| && |r.points| == |Filter(lines, 'p')|
  {
    Scene(MapSeq(Filter(lines, 'v'), ParseVertexLine),
          MapSeq(Filter(lines, 't'), ParseTriangleLine),
          MapSeq(Filter(lines, 'l'), ParseLineLine),
          MapSeq(Filter(lines, 'p'), ParsePointLine))
  }

  lemma {:induction false} VerticesInAppend(a: seq<Command>, b: seq<Command>)
    ensures VerticesIn(a + b) == VerticesIn(a) + VerticesIn(b)
  {
    if a != [] {
      assert (a + b)[0] == a[0] && (a + b)[1..] == a[1..] + b;
      VerticesInAppend(a[1..], b);
      var h := if a[0].VertexCmd? then [a[0].vertex] else [];
      assert VerticesIn(a + b) == h + (VerticesIn(a[1..]) + VerticesIn(b));
    } else {
      assert a + b == b;
    }
  }

  lemma {:induction false} OfKindAppend(a: seq<Command>, b: seq<Command>, k: Command)
    ensures OfKind(a + b, k) == OfKind(a, k) + OfKind(b, k)
  {
    if a != [] {
      assert (a + b)[0] == a[0] && (a + b)[1..] == a[1..] + b;
      OfKindAppend(a[1..], b, k);
      var h := if SameKind(a[0], k) then [a[0]] else [];
      assert OfKind(a + b, k) == h + (OfKind(a[1..], k) + OfKind(b, k));
    } else {
      assert a + b == b;
    }
  }

  /** The first bucket step: the head line lands in its own class only. */
  lemma BucketStep(lines: seq<string>, c: char, f: string -> Command)
    requires lines != []
    ensures MapSeq(Filter(lines, c), f)
         == (if StartsWith(lines[0], c) then [f(lines[0])] else []) + MapSeq(Filter(lines[1..], c), f)
  {
    var h := if StartsWith(lines[0], c) then [lines[0]] else [];
    assert Filter(lines, c) == h + Filter(lines[1..], c);
    MapSeqAppend(h, Filter(lines[1..], c), f);
    assert MapSeq(h, f) == if StartsWith(lines[0], c) then [f(lines[0])] else [];
  }

  /** Bucketing the lines by first character and parsing each bucket gives
      what classifying every line in text order and then grouping the
      commands by kind gives. */
  lemma {:induction false} SceneGroupsCommands(lines: seq<string>)
    ensures SceneOf(lines).vertices == VerticesIn(CommandsOf(lines))
    ensures SceneOf(lines).triangles == OfKind(CommandsOf(lines), TriangleCmd(None, None, None))
    ensures SceneOf(lines).lines == OfKind(CommandsOf(lines), LineCmd(None, None))
    ensures SceneOf(lines).points == OfKind(CommandsOf(lines), PointCmd(None))
  {
    if lines != [] {
      var l, rest := lines[0], lines[1..];
      SceneGroupsCommands(rest);
      var head := match Classify(l) case Some(c) => [c] case None => [];
      var tail := CommandsOf(rest);
      assert CommandsOf(lines) == head + tail;
      VerticesInAppend(head, tail);
      OfKindAppend(head, tail, TriangleCmd(None, None, None));
      OfKindAppend(head, tail, LineCmd(None, None));
      OfKindAppend(head, tail, PointCmd(None));
      BucketStep(lines, 't', ParseTriangleLine);
      BucketStep(lines, 'l', ParseLineLine);
      BucketStep(lines, 'p', ParsePointLine);
      MapSeqAppend(if StartsWith(l, 'v') then [l] else [], Filter(rest, 'v'), ParseVertexLine);
    }
  }

  /** A piece with no command tag, an empty one included, changes nothing,
      wherever it stands in the text. */
  lemma IgnoredPiece(before: seq<string>, junk: string, after: seq<string>)
    requires Classify(junk).None?
    ensures SceneOf(before + [junk] + after) == SceneOf(before + after)
  {
    FilterDrops(before, junk, after, 'v');
    FilterDrops(before, junk, after, 't');
    FilterDrops(before, junk, after, 'l');
    FilterDrops(before, junk, after, 'p');
  }

  /** Vertex `i` is the i-th `v` line wherever the draw commands stand:
      moving a non-vertex line does not renumber the vertices. */
  lemma VertexNumbering(before: seq<string>, d: string, after: seq<string>)
    requires !StartsWith(d, 'v')
    ensures SceneOf(before + [d] + after).vertices == SceneOf(before + after).vertices
  {
    FilterDrops(before, d, after, 'v');
  }

  lemma FilterDrops(before: seq<string>, d: string, after: seq<string>, c: char)
    requires !StartsWith(d, c)
    ensures Filter(before + [d] + after, c) == Filter(before + after, c)
  {
    FilterAppend(before + [d], after, c);
    FilterAppend(before, [d], c);
    FilterAppend(before, after, c);
  }
}
