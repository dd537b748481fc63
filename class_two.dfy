/** Class II subdivision, classIILayer (scripts/subdivisions.js:173-381 and
    its copy at scripts/geodesic.js:407-608). The walk over a face a, b, c
    slides by 2/3 of a unit: counted in thirds every weight is a whole
    number, which is how the weights are written here (W3). A depth step
    either slides away from a or, right after a step that did, towards b;
    the width loop of each row then slides towards c. Faces that share a
    base edge are stitched together through the table
    `interFaceConnections`: the first face to walk a base edge records the
    names of its nodes next to that edge, and each later face joins its own
    boundary nodes to the recorded ones. */
module ClassTwo {
  import opened Wrappers
  import opened Keys
  import opened Geometry
  import opened Structures
  import opened Colours
  import opened Layers
  import opened Connections
  import opened Walks

  /** barycentric weights counted in thirds: the slide of 2/3 is 2 */
  datatype W3 = W3(a: int, b: int, c: int)

  function Total(w: W3): int
  {
    w.a + w.b + w.c
  }

  /** One depth step: towards b (aw -= slide, bw += 2 slide, cw -= slide)
      right after a step that slid down, away from a (aw -= 2 slide,
      bw += slide, cw += slide) otherwise. */
  function DepthSlide(w: W3, slidDown: bool): (r: W3)
    ensures Total(r) == Total(w)
  {
    if slidDown then W3(w.a - 2, w.b + 4, w.c - 2) else W3(w.a - 4, w.b + 2, w.c + 2)
  }

  /** One width step, towards c (aww -= slide, bww -= slide, cww += 2 slide). */
  function WidthSlide(w: W3): (r: W3)
    ensures Total(r) == Total(w)
  {
    W3(w.a - 2, w.b - 2, w.c + 4)
  }

  /** the depth point after k steps of the depth loop, which starts at the
      corner a with previouslySlidDown false and flips it at every step */
  function DepthWalk(nv: nat, k: nat): W3
  {
    if k == 0 then W3(3 * nv, 0, 0) else DepthSlide(DepthWalk(nv, k - 1), (k - 1) % 2 == 1)
  }

  /** The depth point after k steps in closed form: cw is 0 after an even
      number of steps and 2/3 after an odd number. */
  function DepthAt(nv: nat, k: nat): W3
  {
    if k % 2 == 0 then W3(3 * nv - 3 * k, 3 * k, 0) else W3(3 * nv - 3 * k - 1, 3 * k - 1, 2)
  }

  /** The closed form is the point the depth loop reaches, and every point
      it reaches keeps the weight sum nv. */
  lemma {:induction false} DepthWalkClosed(nv: nat, k: nat)
    ensures DepthWalk(nv, k) == DepthAt(nv, k)
    ensures Total(DepthWalk(nv, k)) == 3 * nv
  {
    if k > 0 {
      DepthWalkClosed(nv, k - 1);
    }
  }

  /** the number of depth steps */
  function DepthCount(nv: nat): nat
  {
    nv + nv % 2
  }

  /** `while (bw + .1 < nv)` holds, that is bw < nv counted in thirds, for
      exactly the first DepthCount(nv) depth points; for even nv the loop
      runs nv times and stops at the corner b, (0, nv, 0). */
  lemma DepthLoopRuns(nv: nat, k: nat)
    ensures DepthAt(nv, k).b < 3 * nv <==> k < DepthCount(nv)
    ensures nv % 2 == 0 ==> DepthCount(nv) == nv && DepthAt(nv, nv) == W3(0, 3 * nv, 0)
    ensures DepthAt(nv, k).b >= 0
  {
  }

  /** the point s width steps into row k */
  function WidthAt(nv: nat, k: nat, s: nat): W3
  {
    var d := DepthAt(nv, k);
    W3(d.a - 2 * s, d.b - 2 * s, d.c + 4 * s)
  }

  /** the number of rounds of `while (aww > .1 && bww > .1)` in row k:
      aww and bww count down together by 2 thirds until one is 0 or less */
  function WidthCount(nv: nat, k: nat): nat
  {
    var d := DepthAt(nv, k);
    var least := if d.a < d.b then d.a else d.b;
    if least <= 0 then 0 else (least + 1) / 2
  }

  /** The width loop of row k runs while both aww and bww are positive:
      exactly WidthCount(nv, k) times. */
  lemma WidthLoopRuns(nv: nat, k: nat, s: nat)
    requires s <= WidthCount(nv, k)
    ensures WidthAt(nv, k, s).a > 0 && WidthAt(nv, k, s).b > 0 <==> s < WidthCount(nv, k)
    ensures WidthAt(nv, k, 0) == DepthAt(nv, k) && WidthAt(nv, k, s + 1) == WidthSlide(WidthAt(nv, k, s))
  {
  }

  /** generateNodeKey(a, b, c, aw, bw, cw) for the weights w, counted in
      thirds */
  function KeyOf(t: Tri, key3: NodeKeyFn, w: W3): string
  {
    key3(t.a, t.b, t.c, w.a, w.b, w.c)
  }

  /** the name of the point s width steps into row k */
  function Pt(t: Tri, key3: NodeKeyFn, nv: nat, k: nat, s: nat): string
  {
    KeyOf(t, key3, WidthAt(nv, k, s))
  }

  /** the first s + 1 points of row k */
  ghost function Row(t: Tri, key3: NodeKeyFn, nv: nat, k: nat, s: nat): set<string>
  {
    if s == 0 then {Pt(t, key3, nv, k, 0)} else Row(t, key3, nv, k, s - 1) + {Pt(t, key3, nv, k, s)}
  }

  /** the last point of a row is among its points */
  lemma RowHasLast(t: Tri, key3: NodeKeyFn, nv: nat, k: nat, s: nat)
    ensures Pt(t, key3, nv, k, s) in Row(t, key3, nv, k, s)
  {
  }

  /** the points of rows 1..k */
  ghost function Rows(t: Tri, key3: NodeKeyFn, nv: nat, k: nat): set<string>
  {
    if k == 0 then {} else Rows(t, key3, nv, k - 1) + Row(t, key3, nv, k, WidthCount(nv, k))
  }

  /** `interFaceConnections.get(k)[n / 2 - 1]`: an index when n is even;
      otherwise the index is fractional and the entry read is undefined,
      which -1 stands for */
  function HalfIndex(n: int): int
  {
    if n % 2 == 0 then n / 2 - 1 else -1
  }

  /** Math.round(c / 3), with halves rounded up */
  function RoundThirds(c: int): int
  {
    (2 * c + 3) / 6
  }

  /** The faces of the stitching at a base edge whose boundary list the
      table holds: connectFace(p, q, conn) and connectFace(p, conn, toward),
      where conn is entry i of the list. None when the entry is missing,
      where the walk fails. */
  function SeamFaces(table: map<string, seq<string>>, edgeKey: string, i: int,
                     p: string, q: string, toward: string): seq<string>
  {
    if edgeKey in table && 0 <= i < |table[edgeKey]| then
      [FaceKey(p, q, table[edgeKey][i]), FaceKey(p, table[edgeKey][i], toward)]
    else []
  }

  /** the down triangle of a depth step that ends at d: connectFace(p, q,
      rightNode), rightNode at (aw + slide, bw - 2 slide, cw + slide) */
  function DownFaces(t: Tri, key3: NodeKeyFn, d: W3, p: string, q: string): seq<string>
  {
    [FaceKey(p, q, KeyOf(t, key3, W3(d.a + 2, d.b - 4, d.c + 2)))]
  }

  /** The triangles of a width step from p to q, ending at w: the up
      triangle connectFace(p, q, upNode), upNode at (aww + 2 slide,
      bww - slide, cww - slide), and once bww > 1 the triangle
      connectFace(q, upNode, rightNode), rightNode at (aww + slide,
      bww - 2 slide, cww + slide). */
  function TileFaces(t: Tri, key3: NodeKeyFn, w: W3, p: string, q: string): seq<string>
  {
    var up := KeyOf(t, key3, W3(w.a + 4, w.b - 2, w.c - 2));
    [FaceKey(p, q, up)] + (if w.b > 3 then [FaceKey(q, up, KeyOf(t, key3, W3(w.a + 2, w.b - 4, w.c + 2)))] else [])
  }

  /** The faces of depth step k: the stitching at a-b when the step ends
      on a-b (cw < .1), then the down triangle after a step away from a
      once bw > 1. */
  function DepthFaces(t: Tri, key3: NodeKeyFn, nv: nat, table: map<string, seq<string>>, k: nat): seq<string>
    requires k >= 1
  {
    var d := DepthAt(nv, k);
    var p, q := Pt(t, key3, nv, k - 1, 0), Pt(t, key3, nv, k, 0);
    (if d.c <= 0
     then SeamFaces(table, EdgeKey(t.a, t.b), HalfIndex(d.b / 3), p, q, KeyOf(t, key3, W3(d.a + 6, d.b - 6, d.c)))
     else [])
    + (if (k - 1) % 2 == 0 && d.b > 3 then DownFaces(t, key3, d, p, q) else [])
  }

  /** The faces of width step s of row k: the stitching at a-c when the
      step ends on a-c (bww < .1), the stitching at b-c when it ends on b-c
      (aww < .1), and while bww > .1 the up triangle and, once bww > 1,
      the triangle to its right. */
  function WidthFaces(t: Tri, key3: NodeKeyFn, nv: nat, table: map<string, seq<string>>, k: nat, s: nat): seq<string>
    requires s >= 1
  {
    var w := WidthAt(nv, k, s);
    var p, q := Pt(t, key3, nv, k, s - 1), Pt(t, key3, nv, k, s);
    (if w.b <= 0
     then SeamFaces(table, EdgeKey(t.a, t.c), HalfIndex(RoundThirds(w.c)), p, q, KeyOf(t, key3, W3(w.a + 6, w.b, w.c - 6)))
     else [])
    + (if w.a <= 0
       then SeamFaces(table, EdgeKey(t.b, t.c), HalfIndex(RoundThirds(w.c)), p, q, KeyOf(t, key3, W3(w.a, w.b + 6, w.c - 6)))
       else [])
    + (if w.b > 0 then TileFaces(t, key3, w, p, q) else [])
  }

  /** the faces of depth step k and the first s width steps of its row */
  function RowFaces(t: Tri, key3: NodeKeyFn, nv: nat, table: map<string, seq<string>>, k: nat, s: nat): seq<string>
    requires k >= 1
  {
    if s == 0 then DepthFaces(t, key3, nv, table, k)
    else RowFaces(t, key3, nv, table, k, s - 1) + WidthFaces(t, key3, nv, table, k, s)
  }

  /** the faces of the first k rows */
  function WalkFaces(t: Tri, key3: NodeKeyFn, nv: nat, table: map<string, seq<string>>, k: nat): seq<string>
  {
    if k == 0 then [] else WalkFaces(t, key3, nv, table, k - 1) + RowFaces(t, key3, nv, table, k, WidthCount(nv, k))
  }

  /** The edge of the stitching at a base edge whose boundary list the
      table holds: connectEdge(p, conn), conn entry i of the list. */
  function SeamEdges(table: map<string, seq<string>>, edgeKey: string, i: int, p: string): seq<string>
  {
    if edgeKey in table && 0 <= i < |table[edgeKey]| then [EdgeKey(p, table[edgeKey][i])] else []
  }

  /** The edges of the triangles of a width step to q, ending at w:
      connectEdge(q, upNode), then once bww > 1 connectEdge(q, rightNode). */
  function TileEdges(t: Tri, key3: NodeKeyFn, w: W3, q: string): seq<string>
  {
    [EdgeKey(q, KeyOf(t, key3, W3(w.a + 4, w.b - 2, w.c - 2)))]
    + (if w.b > 3 then [EdgeKey(q, KeyOf(t, key3, W3(w.a + 2, w.b - 4, w.c + 2)))] else [])
  }

  /** the edges depth step k connects after the one to its depth point:
      the seam edge at a-b, then connectEdge(depthNode, rightNode) of the
      down triangle */
  function DepthLinkEdges(t: Tri, key3: NodeKeyFn, nv: nat, table: map<string, seq<string>>, k: nat): seq<string>
    requires k >= 1
  {
    var d := DepthAt(nv, k);
    var p, q := Pt(t, key3, nv, k - 1, 0), Pt(t, key3, nv, k, 0);
    (if d.c <= 0 then SeamEdges(table, EdgeKey(t.a, t.b), HalfIndex(d.b / 3), p) else [])
    + (if (k - 1) % 2 == 0 && d.b > 3 then [EdgeKey(q, KeyOf(t, key3, W3(d.a + 2, d.b - 4, d.c + 2)))] else [])
  }

  /** the edges of depth step k: connectEdge(prevDepthNode, depthNode),
      then the step's links */
  function DepthEdges(t: Tri, key3: NodeKeyFn, nv: nat, table: map<string, seq<string>>, k: nat): seq<string>
    requires k >= 1
  {
    [EdgeKey(Pt(t, key3, nv, k - 1, 0), Pt(t, key3, nv, k, 0))] + DepthLinkEdges(t, key3, nv, table, k)
  }

  /** the edges width step s of row k connects after the one to its
      point: the seam edges at a-c and at b-c, then the tiles' edges */
  function WidthLinkEdges(t: Tri, key3: NodeKeyFn, nv: nat, table: map<string, seq<string>>, k: nat, s: nat): seq<string>
    requires s >= 1
  {
    var w := WidthAt(nv, k, s);
    var p, q := Pt(t, key3, nv, k, s - 1), Pt(t, key3, nv, k, s);
    (if w.b <= 0 then SeamEdges(table, EdgeKey(t.a, t.c), HalfIndex(RoundThirds(w.c)), p) else [])
    + (if w.a <= 0 then SeamEdges(table, EdgeKey(t.b, t.c), HalfIndex(RoundThirds(w.c)), p) else [])
    + (if w.b > 0 then TileEdges(t, key3, w, q) else [])
  }

  /** the edges of width step s of row k: connectEdge(prevWidthNode,
      widthNode), then the step's links */
  function WidthEdges(t: Tri, key3: NodeKeyFn, nv: nat, table: map<string, seq<string>>, k: nat, s: nat): seq<string>
    requires s >= 1
  {
    [EdgeKey(Pt(t, key3, nv, k, s - 1), Pt(t, key3, nv, k, s))] + WidthLinkEdges(t, key3, nv, table, k, s)
  }

  /** the edges of depth step k and the first s width steps of its row */
  function RowEdges(t: Tri, key3: NodeKeyFn, nv: nat, table: map<string, seq<string>>, k: nat, s: nat): seq<string>
    requires k >= 1
  {
    if s == 0 then DepthEdges(t, key3, nv, table, k)
    else RowEdges(t, key3, nv, table, k, s - 1) + WidthEdges(t, key3, nv, table, k, s)
  }

  /** the edges of the first k rows */
  function WalkEdges(t: Tri, key3: NodeKeyFn, nv: nat, table: map<string, seq<string>>, k: nat): seq<string>
  {
    if k == 0 then [] else WalkEdges(t, key3, nv, table, k - 1) + RowEdges(t, key3, nv, table, k, WidthCount(nv, k))
  }

  /** The stitching at a base edge can run: the table lacks the edge, or
      entry i of its list and the node `toward` are nodes of the layer. */
  predicate SeamReady(layer: Layer, table: map<string, seq<string>>, edgeKey: string, i: int, toward: string)
    reads layer
  {
    edgeKey in table ==> 0 <= i < |table[edgeKey]| && layer.HasNode(table[edgeKey][i]) && layer.HasNode(toward)
  }

  /** the nodes the triangles of a width step ending at w look up exist:
      upNode, and rightNode once bww > 1 */
  predicate TilesReady(layer: Layer, t: Tri, key3: NodeKeyFn, w: W3)
    reads layer
  {
    layer.HasNode(KeyOf(t, key3, W3(w.a + 4, w.b - 2, w.c - 2)))
    && (w.b > 3 ==> layer.HasNode(KeyOf(t, key3, W3(w.a + 2, w.b - 4, w.c + 2))))
  }

  /** the nodes the links of depth step k look up exist */
  predicate DepthReady(layer: Layer, t: Tri, key3: NodeKeyFn, nv: nat, table: map<string, seq<string>>, k: nat)
    reads layer
  {
    var d := DepthAt(nv, k);
    (d.c <= 0 ==> SeamReady(layer, table, EdgeKey(t.a, t.b), HalfIndex(d.b / 3), KeyOf(t, key3, W3(d.a + 6, d.b - 6, d.c))))
    && ((k - 1) % 2 == 0 && d.b > 3 ==> layer.HasNode(KeyOf(t, key3, W3(d.a + 2, d.b - 4, d.c + 2))))
  }

  /** the nodes the stitchings of a width step ending at w look up exist */
  predicate SeamsReady(layer: Layer, t: Tri, key3: NodeKeyFn, w: W3, table: map<string, seq<string>>)
    reads layer
  {
    (w.b <= 0 ==> SeamReady(layer, table, EdgeKey(t.a, t.c), HalfIndex(RoundThirds(w.c)), KeyOf(t, key3, W3(w.a + 6, w.b, w.c - 6))))
    && (w.a <= 0 ==> SeamReady(layer, table, EdgeKey(t.b, t.c), HalfIndex(RoundThirds(w.c)), KeyOf(t, key3, W3(w.a, w.b + 6, w.c - 6))))
  }

  /** the boundary lists abInter, acInter and bcInter of one face */
  datatype Inter = Inter(ab: seq<string>, ac: seq<string>, bc: seq<string>)

  /** what depth step k pushes onto abInter: the depth point before it,
      when the step ends on a-b */
  function ABPush(t: Tri, key3: NodeKeyFn, nv: nat, k: nat): seq<string>
    requires k >= 1
  {
    if DepthAt(nv, k).c <= 0 then [Pt(t, key3, nv, k - 1, 0)] else []
  }

  /** what width step s of row k pushes onto acInter: the point before
      it, when the step ends on a-c */
  function ACPush(t: Tri, key3: NodeKeyFn, nv: nat, k: nat, s: nat): seq<string>
    requires s >= 1
  {
    if WidthAt(nv, k, s).b <= 0 then [Pt(t, key3, nv, k, s - 1)] else []
  }

  /** what width step s of row k puts in front of bcInter (`unshift`):
      the point before it, when the step ends on b-c */
  function BCPush(t: Tri, key3: NodeKeyFn, nv: nat, k: nat, s: nat): seq<string>
    requires s >= 1
  {
    if WidthAt(nv, k, s).a <= 0 then [Pt(t, key3, nv, k, s - 1)] else []
  }

  function ABList(t: Tri, key3: NodeKeyFn, nv: nat, k: nat): seq<string>
  {
    if k == 0 then [] else ABList(t, key3, nv, k - 1) + ABPush(t, key3, nv, k)
  }

  function ACRow(t: Tri, key3: NodeKeyFn, nv: nat, k: nat, s: nat): seq<string>
  {
    if s == 0 then [] else ACRow(t, key3, nv, k, s - 1) + ACPush(t, key3, nv, k, s)
  }

  function BCRow(t: Tri, key3: NodeKeyFn, nv: nat, k: nat, s: nat): seq<string>
  {
    if s == 0 then [] else BCPush(t, key3, nv, k, s) + BCRow(t, key3, nv, k, s - 1)
  }

  function ACList(t: Tri, key3: NodeKeyFn, nv: nat, k: nat): seq<string>
  {
    if k == 0 then [] else ACList(t, key3, nv, k - 1) + ACRow(t, key3, nv, k, WidthCount(nv, k))
  }

  function BCList(t: Tri, key3: NodeKeyFn, nv: nat, k: nat): seq<string>
  {
    if k == 0 then [] else BCRow(t, key3, nv, k, WidthCount(nv, k)) + BCList(t, key3, nv, k - 1)
  }

  /** A list only grows while the table lacks its edge: otherwise the
      face reads the recorded list instead. */
  function Gate(table: map<string, seq<string>>, edgeKey: string, list: seq<string>): seq<string>
  {
    if edgeKey in table then [] else list
  }

  /** the three lists after k whole rows */
  function Collected(t: Tri, key3: NodeKeyFn, nv: nat, table: map<string, seq<string>>, k: nat): Inter
  {
    Inter(Gate(table, EdgeKey(t.a, t.b), ABList(t, key3, nv, k)),
          Gate(table, EdgeKey(t.a, t.c), ACList(t, key3, nv, k)),
          Gate(table, EdgeKey(t.b, t.c), BCList(t, key3, nv, k)))
  }

  /** the three lists after depth step k and s width steps of its row */
  function Partial(t: Tri, key3: NodeKeyFn, nv: nat, table: map<string, seq<string>>, k: nat, s: nat): Inter
    requires k >= 1
  {
    Inter(Gate(table, EdgeKey(t.a, t.b), ABList(t, key3, nv, k)),
          Gate(table, EdgeKey(t.a, t.c), ACList(t, key3, nv, k - 1) + ACRow(t, key3, nv, k, s)),
          Gate(table, EdgeKey(t.b, t.c), BCRow(t, key3, nv, k, s) + BCList(t, key3, nv, k - 1)))
  }

  /** `if (!interFaceConnections.has(k)) interFaceConnections.set(k, list)`
      for a-b, then a-c, then b-c, at the end of the face */
  function Stitched(table: map<string, seq<string>>, t: Tri, lists: Inter): map<string, seq<string>>
  {
    Remember(Remember(Remember(table, EdgeKey(t.a, t.b), lists.ab), EdgeKey(t.a, t.c), lists.ac), EdgeKey(t.b, t.c), lists.bc)
  }

  /** The step the Class II walk repeats: the point `name` is created at p
      unless the layer has it, then connectEdge(from, name). */
  method Reach(layer: Layer, from: string, name: string, p: Point, ghost objs: set<Node>, m: Measures, variant: Variant)
    returns (node: Node, ghost objs': set<Node>)
    requires layer.Valid() && layer.Within(objs) && layer.HasNode(from)
    modifies layer, objs
    ensures layer.Valid() && layer.Within(objs') && fresh(objs' - objs) && node in objs'
    ensures node.name == name && layer.NodeKeys() == old(layer.NodeKeys()) + {name}
    ensures old(layer.HasNode(name)) ==> layer.nodesNear == old(layer.nodesNear) && layer.nodesFar == old(layer.nodesFar)
    ensures !old(layer.HasNode(name)) ==>
              if IsNear([p.z]) then layer.nodesNear == old(layer.nodesNear)[name := node] && layer.nodesFar == old(layer.nodesFar)
              else layer.nodesFar == old(layer.nodesFar)[name := node] && layer.nodesNear == old(layer.nodesNear)
    ensures old(layer.nodesNear.Keys) <= layer.nodesNear.Keys && old(layer.nodesFar.Keys) <= layer.nodesFar.Keys
    ensures layer.links.faceLog == old(layer.links.faceLog)
    ensures layer.links.edgeLog == old(layer.links.edgeLog) + [EdgeKey(from, name)] && (old(layer.links.Logged()) ==> layer.links.Logged())
    ensures old(layer.links.Good(variant)) ==> layer.links.Good(variant)
  {
    node := layer.EnsureNode(name, p, objs);
    objs' := objs + {node};
    var fromNode := layer.GetNode(from).value;
    WalkEdge(layer, fromNode, node, m, variant);
  }

  /** The stitching at a base edge whose boundary list the table holds:
      entry i of the list, conn, is joined to p, then the faces p, q, conn
      and p, conn, toward are connected. A missing entry or node fails. */
  method Seam(layer: Layer, table: map<string, seq<string>>, edgeKey: string, i: int, p: Node, q: Node, toward: string,
              ghost objs: set<Node>, m: Measures, variant: Variant)
    returns (r: Result<()>)
    requires layer.Valid() && layer.Within(objs) && p in objs && q in objs && edgeKey in table
    modifies layer, objs
    ensures layer.nodesNear == old(layer.nodesNear) && layer.nodesFar == old(layer.nodesFar)
    ensures r.Success? <==> SeamReady(layer, table, edgeKey, i, toward)
    ensures r.Success? ==>
              layer.links.faceLog == old(layer.links.faceLog) + SeamFaces(table, edgeKey, i, p.name, q.name, toward)
              && layer.links.edgeLog == old(layer.links.edgeLog) + SeamEdges(table, edgeKey, i, p.name)
    ensures old(layer.links.Logged()) ==> layer.links.Logged()
    ensures old(layer.links.Good(variant)) ==> layer.links.Good(variant)
  {
    var list := table[edgeKey];
    if !(0 <= i < |list|) {
      return Failure(SeamNodeNotFound(edgeKey));
    }
    var conn := layer.GetNode(list[i]);
    if conn.None? {
      return Failure(NodeNotFound(list[i]));
    }
    var towardNode := layer.GetNode(toward);
    if towardNode.None? {
      return Failure(NodeNotFound(toward));
    }
    WalkEdge(layer, p, conn.value, m, variant);
    WalkFace(layer, p, q, conn.value, m, variant);
    WalkFace(layer, p, conn.value, towardNode.value, m, variant);
    r := Success(());
  }

  /** the stitching or the push at one base edge: with the edge's list
      recorded, the seam; without, `list` gains `name` at its end or, for
      `front`, at its start */
  method SeamOrPush(layer: Layer, table: map<string, seq<string>>, edgeKey: string, i: int, p: Node, q: Node,
                    toward: string, list: seq<string>, front: bool, ghost objs: set<Node>, m: Measures, variant: Variant)
    returns (r: Result<seq<string>>)
    requires layer.Valid() && layer.Within(objs) && p in objs && q in objs
    modifies layer, objs
    ensures layer.nodesNear == old(layer.nodesNear) && layer.nodesFar == old(layer.nodesFar)
    ensures r.Success? <==> SeamReady(layer, table, edgeKey, i, toward)
    ensures r.Success? ==>
              layer.links.faceLog == old(layer.links.faceLog) + SeamFaces(table, edgeKey, i, p.name, q.name, toward)
              && layer.links.edgeLog == old(layer.links.edgeLog) + SeamEdges(table, edgeKey, i, p.name)
              && r.value == (if edgeKey in table then list else if front then [p.name] + list else list + [p.name])
    ensures old(layer.links.Logged()) ==> layer.links.Logged()
    ensures old(layer.links.Good(variant)) ==> layer.links.Good(variant)
  {
    if edgeKey in table {
      var seam := Seam(layer, table, edgeKey, i, p, q, toward, objs, m, variant);
      if seam.Failure? {
        return Failure(seam.error);
      }
      r := Success(list);
    } else {
      r := Success(if front then [p.name] + list else list + [p.name]);
    }
  }

  /** A triangle p, q and the node `name`: the node is joined to q, or to
      p when `toP`, then the triangle connected. A missing node fails. */
  method Corner(layer: Layer, p: Node, q: Node, name: string, toP: bool, ghost objs: set<Node>, m: Measures, variant: Variant)
    returns (r: Result<Node>)
    requires layer.Valid() && layer.Within(objs) && p in objs && q in objs
    modifies layer, objs
    ensures layer.nodesNear == old(layer.nodesNear) && layer.nodesFar == old(layer.nodesFar)
    ensures r.Success? <==> layer.HasNode(name)
    ensures r.Success? ==> r.value in objs && r.value.name == name
    ensures r.Success? ==>
              layer.links.faceLog == old(layer.links.faceLog) + [FaceKey(p.name, q.name, name)]
              && layer.links.edgeLog == old(layer.links.edgeLog) + [EdgeKey((if toP then p else q).name, name)]
    ensures old(layer.links.Logged()) ==> layer.links.Logged()
    ensures old(layer.links.Good(variant)) ==> layer.links.Good(variant)
  {
    var found := layer.GetNode(name);
    if found.None? {
      return Failure(NodeNotFound(name));
    }
    WalkEdge(layer, if toP then p else q, found.value, m, variant);
    WalkFace(layer, p, q, found.value, m, variant);
    r := Success(found.value);
  }

  /** The triangles of a width step from p to q ending at w, while
      bww > .1: the up triangle, then once bww > 1 the one to its right. */
  method Tiles(layer: Layer, t: Tri, key3: NodeKeyFn, w: W3, p: Node, q: Node,
               ghost objs: set<Node>, m: Measures, variant: Variant)
    returns (r: Result<()>)
    requires layer.Valid() && layer.Within(objs) && p in objs && q in objs
    modifies layer, objs
    ensures layer.nodesNear == old(layer.nodesNear) && layer.nodesFar == old(layer.nodesFar)
    ensures r.Success? <==> TilesReady(layer, t, key3, w)
    ensures r.Success? ==>
              layer.links.faceLog == old(layer.links.faceLog) + TileFaces(t, key3, w, p.name, q.name)
              && layer.links.edgeLog == old(layer.links.edgeLog) + TileEdges(t, key3, w, q.name)
    ensures old(layer.links.Logged()) ==> layer.links.Logged()
    ensures old(layer.links.Good(variant)) ==> layer.links.Good(variant)
  {
    var up := Corner(layer, p, q, KeyOf(t, key3, W3(w.a + 4, w.b - 2, w.c - 2)), false, objs, m, variant);
    if up.Failure? {
      return Failure(up.error);
    }
    r := Success(());
    if w.b > 3 {
      var right := Corner(layer, q, up.value, KeyOf(t, key3, W3(w.a + 2, w.b - 4, w.c + 2)), true, objs, m, variant);
      if right.Failure? {
        r := Failure(right.error);
      }
    }
  }

  /** the faces of a depth step are those of its seam, then that of its
      down triangle */
  lemma DepthLogGrows(t: Tri, key3: NodeKeyFn, nv: nat, table: map<string, seq<string>>, k: nat,
                      d: W3, p: string, q: string,
                      log: seq<string>, log1: seq<string>, log2: seq<string>,
                      elog: seq<string>, elog1: seq<string>, elog2: seq<string>)
    requires k >= 1 && d == DepthAt(nv, k) && p == Pt(t, key3, nv, k - 1, 0) && q == Pt(t, key3, nv, k, 0)
    requires log1 == log + (if d.c <= 0 then SeamFaces(table, EdgeKey(t.a, t.b), HalfIndex(d.b / 3), p, q, KeyOf(t, key3, W3(d.a + 6, d.b - 6, d.c))) else [])
             && log2 == log1 + (if (k - 1) % 2 == 0 && d.b > 3 then [FaceKey(p, q, KeyOf(t, key3, W3(d.a + 2, d.b - 4, d.c + 2)))] else [])
    requires elog1 == elog + (if d.c <= 0 then SeamEdges(table, EdgeKey(t.a, t.b), HalfIndex(d.b / 3), p) else [])
             && elog2 == elog1 + (if (k - 1) % 2 == 0 && d.b > 3 then [EdgeKey(q, KeyOf(t, key3, W3(d.a + 2, d.b - 4, d.c + 2)))] else [])
    ensures log2 == log + DepthFaces(t, key3, nv, table, k)
    ensures elog2 == elog + DepthLinkEdges(t, key3, nv, table, k)
  {
  }

  /** The stitching or the push of a depth step from p to q ending at d:
      at a-b when cw < .1. */
  method DepthSeam(layer: Layer, t: Tri, key3: NodeKeyFn, d: W3, table: map<string, seq<string>>, p: Node, q: Node,
                   ab: seq<string>, ghost objs: set<Node>, m: Measures, variant: Variant)
    returns (r: Result<seq<string>>)
    requires layer.Valid() && layer.Within(objs) && p in objs && q in objs
    modifies layer, objs
    ensures layer.nodesNear == old(layer.nodesNear) && layer.nodesFar == old(layer.nodesFar)
    ensures r.Success? <==>
              (d.c <= 0 ==> SeamReady(layer, table, EdgeKey(t.a, t.b), HalfIndex(d.b / 3), KeyOf(t, key3, W3(d.a + 6, d.b - 6, d.c))))
    ensures r.Success? ==>
              layer.links.faceLog == old(layer.links.faceLog)
                                     + (if d.c <= 0 then SeamFaces(table, EdgeKey(t.a, t.b), HalfIndex(d.b / 3), p.name, q.name, KeyOf(t, key3, W3(d.a + 6, d.b - 6, d.c))) else [])
              && layer.links.edgeLog == old(layer.links.edgeLog)
                                        + (if d.c <= 0 then SeamEdges(table, EdgeKey(t.a, t.b), HalfIndex(d.b / 3), p.name) else [])
              && r.value == ab + (if d.c <= 0 then Gate(table, EdgeKey(t.a, t.b), [p.name]) else [])
    ensures old(layer.links.Logged()) ==> layer.links.Logged()
    ensures old(layer.links.Good(variant)) ==> layer.links.Good(variant)
  {
    r := Success(ab);
    if d.c <= 0 {
      r := SeamOrPush(layer, table, EdgeKey(t.a, t.b), HalfIndex(d.b / 3), p, q,
                      KeyOf(t, key3, W3(d.a + 6, d.b - 6, d.c)), ab, false, objs, m, variant);
    }
  }

  /** What depth step k does between its depth point q and the one
      before, p: at a-b the stitching or the push onto abInter, then the
      down triangle after a step away from a once bw > 1. */
  method DepthLinks(layer: Layer, t: Tri, key3: NodeKeyFn, nv: nat, k: nat, d: W3, slidDown: bool,
                    table: map<string, seq<string>>, p: Node, q: Node, ab: seq<string>,
                    ghost objs: set<Node>, m: Measures, variant: Variant)
    returns (r: Result<seq<string>>)
    requires layer.Valid() && layer.Within(objs) && p in objs && q in objs
    requires k >= 1 && d == DepthAt(nv, k) && slidDown == ((k - 1) % 2 == 1)
    requires p.name == Pt(t, key3, nv, k - 1, 0) && q.name == Pt(t, key3, nv, k, 0)
    modifies layer, objs
    ensures layer.nodesNear == old(layer.nodesNear) && layer.nodesFar == old(layer.nodesFar)
    ensures r.Success? <==> DepthReady(layer, t, key3, nv, table, k)
    ensures r.Success? ==>
              layer.links.faceLog == old(layer.links.faceLog) + DepthFaces(t, key3, nv, table, k)
              && layer.links.edgeLog == old(layer.links.edgeLog) + DepthLinkEdges(t, key3, nv, table, k)
              && r.value == ab + Gate(table, EdgeKey(t.a, t.b), ABPush(t, key3, nv, k))
    ensures old(layer.links.Logged()) ==> layer.links.Logged()
    ensures old(layer.links.Good(variant)) ==> layer.links.Good(variant)
  {
    hide DepthFaces, DepthLinkEdges, EdgeKey, FaceKey, SeamFaces, SeamEdges, DepthAt, Pt, KeyOf, HalfIndex;
    var seam := DepthSeam(layer, t, key3, d, table, p, q, ab, objs, m, variant);
    if seam.Failure? {
      return Failure(seam.error);
    }
    ghost var log1, elog1 := layer.links.faceLog, layer.links.edgeLog;
    if !slidDown && d.b > 3 {
      var down := Corner(layer, p, q, KeyOf(t, key3, W3(d.a + 2, d.b - 4, d.c + 2)), false, objs, m, variant);
      if down.Failure? {
        return Failure(down.error);
      }
    }
    DepthLogGrows(t, key3, nv, table, k, d, p.name, q.name, old(layer.links.faceLog), log1, layer.links.faceLog,
                  old(layer.links.edgeLog), elog1, layer.links.edgeLog);
    r := seam;
  }

  /** Depth step k, to the point d: the point is created if absent and
      joined to the depth point before, then the links of the step
      follow. */
  method DepthStep(layer: Layer, c: Corners, key3: NodeKeyFn, nv: nat, k: nat, d: W3, slidDown: bool, radius: real,
                   table: map<string, seq<string>>, inter: Inter, ghost objs: set<Node>, m: Measures, variant: Variant)
    returns (r: Result<Inter>, ghost objs': set<Node>)
    requires layer.Valid() && layer.Within(objs) && k >= 1 && d == DepthAt(nv, k) && slidDown == ((k - 1) % 2 == 1)
    requires layer.HasNode(Pt(c.names, key3, nv, k - 1, 0))
    modifies layer, objs
    ensures layer.Valid() && layer.Within(objs') && fresh(objs' - objs)
    ensures old(layer.nodesNear.Keys) <= layer.nodesNear.Keys && old(layer.nodesFar.Keys) <= layer.nodesFar.Keys
    ensures r.Success? ==>
              layer.NodeKeys() == old(layer.NodeKeys()) + {Pt(c.names, key3, nv, k, 0)}
              && layer.links.faceLog == old(layer.links.faceLog) + DepthFaces(c.names, key3, nv, table, k)
              && layer.links.edgeLog == old(layer.links.edgeLog) + DepthEdges(c.names, key3, nv, table, k)
              && r.value == inter.(ab := inter.ab + Gate(table, EdgeKey(c.names.a, c.names.b), ABPush(c.names, key3, nv, k)))
    ensures old(layer.links.Logged()) ==> layer.links.Logged()
    ensures old(layer.links.Good(variant)) ==> layer.links.Good(variant)
  {
    var t := c.names;
    var prevName := Pt(t, key3, nv, k - 1, 0);
    var depthNode;
    depthNode, objs' := Reach(layer, prevName, Pt(t, key3, nv, k, 0),
                              PlaceAt(c, m, d.a as real / 3.0, d.b as real / 3.0, d.c as real / 3.0, radius), objs, m, variant);
    var prevDepthNode := layer.GetNode(prevName).value;
    var ab := DepthLinks(layer, t, key3, nv, k, d, slidDown, table, prevDepthNode, depthNode, inter.ab, objs', m, variant);
    if ab.Failure? {
      return Failure(ab.error), objs';
    }
    LogGrows(old(layer.links.edgeLog), [EdgeKey(prevName, depthNode.name)], DepthLinkEdges(t, key3, nv, table, k));
    r := Success(inter.(ab := ab.value));
  }

  /** the faces of a width step are those of its seams, then those of its
      tiles */
  lemma WidthLogGrows(t: Tri, key3: NodeKeyFn, nv: nat, table: map<string, seq<string>>, k: nat, s: nat,
                      w: W3, p: string, q: string,
                      log: seq<string>, log1: seq<string>, log2: seq<string>,
                      elog: seq<string>, elog1: seq<string>, elog2: seq<string>)
    requires s >= 1 && w == WidthAt(nv, k, s) && p == Pt(t, key3, nv, k, s - 1) && q == Pt(t, key3, nv, k, s)
    requires log1 == log + (if w.b <= 0 then SeamFaces(table, EdgeKey(t.a, t.c), HalfIndex(RoundThirds(w.c)), p, q, KeyOf(t, key3, W3(w.a + 6, w.b, w.c - 6))) else [])
                         + (if w.a <= 0 then SeamFaces(table, EdgeKey(t.b, t.c), HalfIndex(RoundThirds(w.c)), p, q, KeyOf(t, key3, W3(w.a, w.b + 6, w.c - 6))) else [])
             && log2 == log1 + (if w.b > 0 then TileFaces(t, key3, w, p, q) else [])
    requires elog1 == elog + (if w.b <= 0 then SeamEdges(table, EdgeKey(t.a, t.c), HalfIndex(RoundThirds(w.c)), p) else [])
                           + (if w.a <= 0 then SeamEdges(table, EdgeKey(t.b, t.c), HalfIndex(RoundThirds(w.c)), p) else [])
             && elog2 == elog1 + (if w.b > 0 then TileEdges(t, key3, w, q) else [])
    ensures log2 == log + WidthFaces(t, key3, nv, table, k, s)
    ensures elog2 == elog + WidthLinkEdges(t, key3, nv, table, k, s)
  {
    hide SeamFaces, SeamEdges, TileFaces, TileEdges, EdgeKey, FaceKey, KeyOf, HalfIndex, RoundThirds, WidthAt, Pt;
  }

  /** The stitching or the pushes of a width step from p to q ending at w:
      at a-c when bww < .1, at b-c when aww < .1. */
  method WidthSeams(layer: Layer, t: Tri, key3: NodeKeyFn, w: W3, table: map<string, seq<string>>, p: Node, q: Node,
                    ac: seq<string>, bc: seq<string>, ghost objs: set<Node>, m: Measures, variant: Variant)
    returns (r: Result<(seq<string>, seq<string>)>)
    requires layer.Valid() && layer.Within(objs) && p in objs && q in objs
    modifies layer, objs
    ensures layer.nodesNear == old(layer.nodesNear) && layer.nodesFar == old(layer.nodesFar)
    ensures r.Success? <==> SeamsReady(layer, t, key3, w, table)
    ensures r.Success? ==>
              layer.links.faceLog == old(layer.links.faceLog)
                                     + (if w.b <= 0 then SeamFaces(table, EdgeKey(t.a, t.c), HalfIndex(RoundThirds(w.c)), p.name, q.name, KeyOf(t, key3, W3(w.a + 6, w.b, w.c - 6))) else [])
                                     + (if w.a <= 0 then SeamFaces(table, EdgeKey(t.b, t.c), HalfIndex(RoundThirds(w.c)), p.name, q.name, KeyOf(t, key3, W3(w.a, w.b + 6, w.c - 6))) else [])
              && layer.links.edgeLog == old(layer.links.edgeLog)
                                        + (if w.b <= 0 then SeamEdges(table, EdgeKey(t.a, t.c), HalfIndex(RoundThirds(w.c)), p.name) else [])
                                        + (if w.a <= 0 then SeamEdges(table, EdgeKey(t.b, t.c), HalfIndex(RoundThirds(w.c)), p.name) else [])
    ensures r.Success? ==>
              r.value.0 == ac + (if w.b <= 0 then Gate(table, EdgeKey(t.a, t.c), [p.name]) else [])
              && r.value.1 == (if w.a <= 0 then Gate(table, EdgeKey(t.b, t.c), [p.name]) else []) + bc
    ensures old(layer.links.Logged()) ==> layer.links.Logged()
    ensures old(layer.links.Good(variant)) ==> layer.links.Good(variant)
  {
    hide SeamFaces, SeamEdges, EdgeKey, FaceKey, KeyOf, HalfIndex, RoundThirds;
    var ac', bc' := ac, bc;
    if w.b <= 0 {
      var pushed := SeamOrPush(layer, table, EdgeKey(t.a, t.c), HalfIndex(RoundThirds(w.c)), p, q,
                               KeyOf(t, key3, W3(w.a + 6, w.b, w.c - 6)), ac, false, objs, m, variant);
      if pushed.Failure? {
        return Failure(pushed.error);
      }
      ac' := pushed.value;
    }
    if w.a <= 0 {
      var pushed := SeamOrPush(layer, table, EdgeKey(t.b, t.c), HalfIndex(RoundThirds(w.c)), p, q,
                               KeyOf(t, key3, W3(w.a, w.b + 6, w.c - 6)), bc, true, objs, m, variant);
      if pushed.Failure? {
        return Failure(pushed.error);
      }
      bc' := pushed.value;
    }
    assert SeamsReady(layer, t, key3, w, table);
    r := Success((ac', bc'));
  }

  /** What width step s of row k does between its point q and the one
      before, p: the stitching or the pushes at a-c and at b-c, then the
      triangles above while bww > .1. */
  method WidthLinks(layer: Layer, t: Tri, key3: NodeKeyFn, nv: nat, k: nat, s: nat, w: W3,
                    table: map<string, seq<string>>, p: Node, q: Node, ac: seq<string>, bc: seq<string>,
                    ghost objs: set<Node>, m: Measures, variant: Variant)
    returns (r: Result<(seq<string>, seq<string>)>)
    requires layer.Valid() && layer.Within(objs) && p in objs && q in objs
    requires s >= 1 && w == WidthAt(nv, k, s)
    requires p.name == Pt(t, key3, nv, k, s - 1) && q.name == Pt(t, key3, nv, k, s)
    modifies layer, objs
    ensures layer.nodesNear == old(layer.nodesNear) && layer.nodesFar == old(layer.nodesFar)
    ensures r.Success? <==> SeamsReady(layer, t, key3, w, table) && (w.b > 0 ==> TilesReady(layer, t, key3, w))
    ensures r.Success? ==>
              layer.links.faceLog == old(layer.links.faceLog) + WidthFaces(t, key3, nv, table, k, s)
              && layer.links.edgeLog == old(layer.links.edgeLog) + WidthLinkEdges(t, key3, nv, table, k, s)
              && r.value == (ac + Gate(table, EdgeKey(t.a, t.c), ACPush(t, key3, nv, k, s)),
                             Gate(table, EdgeKey(t.b, t.c), BCPush(t, key3, nv, k, s)) + bc)
    ensures old(layer.links.Logged()) ==> layer.links.Logged()
    ensures old(layer.links.Good(variant)) ==> layer.links.Good(variant)
  {
    hide WidthFaces, WidthLinkEdges, EdgeKey, FaceKey, SeamFaces, SeamEdges, TileFaces, TileEdges, HalfIndex, RoundThirds,
         WidthAt, Pt, KeyOf;
    var seams := WidthSeams(layer, t, key3, w, table, p, q, ac, bc, objs, m, variant);
    if seams.Failure? {
      return Failure(seams.error);
    }
    ghost var log1, elog1 := layer.links.faceLog, layer.links.edgeLog;
    if w.b > 0 {
      var tiles := Tiles(layer, t, key3, w, p, q, objs, m, variant);
      if tiles.Failure? {
        return Failure(tiles.error);
      }
    }
    WidthLogGrows(t, key3, nv, table, k, s, w, p.name, q.name, old(layer.links.faceLog), log1, layer.links.faceLog,
                  old(layer.links.edgeLog), elog1, layer.links.edgeLog);
    r := seams;
  }

  /** Width step s of row k, to the point w: the point is created if
      absent and joined to the one before; at a-c and at b-c the face
      stitches to the recorded list or records the point before (at the
      end of acInter, at the front of bcInter); while bww > .1 the
      triangles above follow. */
  method WidthStep(layer: Layer, c: Corners, key3: NodeKeyFn, nv: nat, k: nat, s: nat, w: W3, radius: real,
                   table: map<string, seq<string>>, inter: Inter, ghost objs: set<Node>, m: Measures, variant: Variant)
    returns (r: Result<Inter>, ghost objs': set<Node>)
    requires layer.Valid() && layer.Within(objs) && s >= 1 && w == WidthAt(nv, k, s)
    requires layer.HasNode(Pt(c.names, key3, nv, k, s - 1))
    modifies layer, objs
    ensures layer.Valid() && layer.Within(objs') && fresh(objs' - objs)
    ensures old(layer.nodesNear.Keys) <= layer.nodesNear.Keys && old(layer.nodesFar.Keys) <= layer.nodesFar.Keys
    ensures r.Success? ==>
              layer.NodeKeys() == old(layer.NodeKeys()) + {Pt(c.names, key3, nv, k, s)}
              && layer.links.faceLog == old(layer.links.faceLog) + WidthFaces(c.names, key3, nv, table, k, s)
              && layer.links.edgeLog == old(layer.links.edgeLog) + WidthEdges(c.names, key3, nv, table, k, s)
              && r.value == Inter(inter.ab,
                                  inter.ac + Gate(table, EdgeKey(c.names.a, c.names.c), ACPush(c.names, key3, nv, k, s)),
                                  Gate(table, EdgeKey(c.names.b, c.names.c), BCPush(c.names, key3, nv, k, s)) + inter.bc)
    ensures old(layer.links.Logged()) ==> layer.links.Logged()
    ensures old(layer.links.Good(variant)) ==> layer.links.Good(variant)
  {
    var t := c.names;
    var prevName := Pt(t, key3, nv, k, s - 1);
    var widthNode;
    widthNode, objs' := Reach(layer, prevName, Pt(t, key3, nv, k, s),
                              PlaceAt(c, m, w.a as real / 3.0, w.b as real / 3.0, w.c as real / 3.0, radius), objs, m, variant);
    var prevWidthNode := layer.GetNode(prevName).value;
    var lists := WidthLinks(layer, t, key3, nv, k, s, w, table, prevWidthNode, widthNode, inter.ac, inter.bc, objs', m, variant);
    if lists.Failure? {
      return Failure(lists.error), objs';
    }
    LogGrows(old(layer.links.edgeLog), [EdgeKey(prevName, widthNode.name)], WidthLinkEdges(t, key3, nv, table, k, s));
    r := Success(Inter(inter.ab, lists.value.0, lists.value.1));
  }

  /** A width step appends its faces and edges to the row's. */
  lemma WidthLogsGrow(t: Tri, key3: NodeKeyFn, nv: nat, table: map<string, seq<string>>, k: nat, s: nat,
                      log: seq<string>, elog: seq<string>)
    requires k >= 1
    ensures log + RowFaces(t, key3, nv, table, k, s) + WidthFaces(t, key3, nv, table, k, s + 1)
            == log + RowFaces(t, key3, nv, table, k, s + 1)
    ensures elog + RowEdges(t, key3, nv, table, k, s) + WidthEdges(t, key3, nv, table, k, s + 1)
            == elog + RowEdges(t, key3, nv, table, k, s + 1)
  {
    LogGrows(log, RowFaces(t, key3, nv, table, k, s), WidthFaces(t, key3, nv, table, k, s + 1));
    LogGrows(elog, RowEdges(t, key3, nv, table, k, s), WidthEdges(t, key3, nv, table, k, s + 1));
  }

  /** A width step extends acInter at its end and bcInter at its front. */
  lemma WidthListsGrow(t: Tri, key3: NodeKeyFn, nv: nat, table: map<string, seq<string>>, k: nat, s: nat)
    requires k >= 1
    ensures var p := Partial(t, key3, nv, table, k, s);
            Inter(p.ab, p.ac + Gate(table, EdgeKey(t.a, t.c), ACPush(t, key3, nv, k, s + 1)),
                  Gate(table, EdgeKey(t.b, t.c), BCPush(t, key3, nv, k, s + 1)) + p.bc)
            == Partial(t, key3, nv, table, k, s + 1)
  {
    LogGrows(ACList(t, key3, nv, k - 1), ACRow(t, key3, nv, k, s), ACPush(t, key3, nv, k, s + 1));
    LogGrows(BCPush(t, key3, nv, k, s + 1), BCRow(t, key3, nv, k, s), BCList(t, key3, nv, k - 1));
  }

  /** A width step extends the row's points, faces and lists by its own:
      acInter at its end, bcInter at its front. */
  lemma WidthGrows(t: Tri, key3: NodeKeyFn, nv: nat, table: map<string, seq<string>>, k: nat, s: nat,
                   keys: set<string>, log: seq<string>, elog: seq<string>)
    requires k >= 1
    ensures keys + Row(t, key3, nv, k, s) + {Pt(t, key3, nv, k, s + 1)} == keys + Row(t, key3, nv, k, s + 1)
    ensures log + RowFaces(t, key3, nv, table, k, s) + WidthFaces(t, key3, nv, table, k, s + 1)
            == log + RowFaces(t, key3, nv, table, k, s + 1)
    ensures elog + RowEdges(t, key3, nv, table, k, s) + WidthEdges(t, key3, nv, table, k, s + 1)
            == elog + RowEdges(t, key3, nv, table, k, s + 1)
    ensures var p := Partial(t, key3, nv, table, k, s);
            Inter(p.ab, p.ac + Gate(table, EdgeKey(t.a, t.c), ACPush(t, key3, nv, k, s + 1)),
                  Gate(table, EdgeKey(t.b, t.c), BCPush(t, key3, nv, k, s + 1)) + p.bc)
            == Partial(t, key3, nv, table, k, s + 1)
  {
    WidthLogsGrow(t, key3, nv, table, k, s, log, elog);
    WidthListsGrow(t, key3, nv, table, k, s);
  }

  /** WidthStep on the loop's terms: the row so far grows by one point,
      the row's faces and lists by the step's. */
  method WidthRound(layer: Layer, c: Corners, key3: NodeKeyFn, nv: nat, k: nat, s: nat, w: W3, radius: real,
                    table: map<string, seq<string>>, inter: Inter,
                    ghost objs: set<Node>, ghost keys: set<string>, ghost log: seq<string>, ghost elog: seq<string>,
                    m: Measures, variant: Variant)
    returns (r: Result<Inter>, ghost objs': set<Node>)
    requires layer.Valid() && layer.Within(objs) && k >= 1 && w == WidthAt(nv, k, s + 1)
    requires layer.NodeKeys() == keys + Row(c.names, key3, nv, k, s)
    requires layer.links.faceLog == log + RowFaces(c.names, key3, nv, table, k, s)
    requires layer.links.edgeLog == elog + RowEdges(c.names, key3, nv, table, k, s)
    requires inter == Partial(c.names, key3, nv, table, k, s)
    modifies layer, objs
    ensures layer.Valid() && layer.Within(objs') && fresh(objs' - objs)
    ensures old(layer.nodesNear.Keys) <= layer.nodesNear.Keys && old(layer.nodesFar.Keys) <= layer.nodesFar.Keys
    ensures r.Success? ==>
              layer.NodeKeys() == keys + Row(c.names, key3, nv, k, s + 1)
              && layer.links.faceLog == log + RowFaces(c.names, key3, nv, table, k, s + 1)
              && layer.links.edgeLog == elog + RowEdges(c.names, key3, nv, table, k, s + 1)
              && r.value == Partial(c.names, key3, nv, table, k, s + 1)
    ensures old(layer.links.Logged()) ==> layer.links.Logged()
    ensures old(layer.links.Good(variant)) ==> layer.links.Good(variant)
  {
    hide *;
    RowHasLast(c.names, key3, nv, k, s);
    KeyNamesNode(layer, Pt(c.names, key3, nv, k, s));
    r, objs' := WidthStep(layer, c, key3, nv, k, s + 1, w, radius, table, inter, objs, m, variant);
    if r.Success? {
      WidthGrows(c.names, key3, nv, table, k, s, keys, log, elog);
    }
  }

  /** The width loop of row k, after its depth point: `while (aww > .1 &&
      bww > .1)`, one width step per round, WidthCount(nv, k) rounds. */
  method WidthLoop(layer: Layer, c: Corners, key3: NodeKeyFn, nv: nat, k: nat, radius: real,
                   table: map<string, seq<string>>, inter: Inter,
                   ghost objs: set<Node>, ghost keys: set<string>, ghost log: seq<string>, ghost elog: seq<string>,
                   m: Measures, variant: Variant)
    returns (r: Result<Inter>, ghost objs': set<Node>)
    requires layer.Valid() && layer.Within(objs) && k >= 1
    requires layer.NodeKeys() == keys + Row(c.names, key3, nv, k, 0)
    requires layer.links.faceLog == log + RowFaces(c.names, key3, nv, table, k, 0)
    requires layer.links.edgeLog == elog + RowEdges(c.names, key3, nv, table, k, 0)
    requires inter == Partial(c.names, key3, nv, table, k, 0)
    modifies layer, objs
    ensures layer.Valid() && layer.Within(objs') && fresh(objs' - objs)
    ensures old(layer.nodesNear.Keys) <= layer.nodesNear.Keys && old(layer.nodesFar.Keys) <= layer.nodesFar.Keys
    ensures r.Success? ==>
              var n := WidthCount(nv, k);
              layer.NodeKeys() == keys + Row(c.names, key3, nv, k, n)
              && layer.links.faceLog == log + RowFaces(c.names, key3, nv, table, k, n)
              && layer.links.edgeLog == elog + RowEdges(c.names, key3, nv, table, k, n)
              && r.value == Partial(c.names, key3, nv, table, k, n)
    ensures old(layer.links.Logged()) ==> layer.links.Logged()
    ensures old(layer.links.Good(variant)) ==> layer.links.Good(variant)
  {
    hide *;
    objs' := objs;
    var w := DepthAt(nv, k);
    var s := 0;
    var lists := inter;
    WidthLoopRuns(nv, k, 0);
    while w.a > 0 && w.b > 0
      invariant s <= WidthCount(nv, k) && w == WidthAt(nv, k, s)
      invariant layer.Valid() && layer.Within(objs') && fresh(objs' - objs)
      invariant layer.NodeKeys() == keys + Row(c.names, key3, nv, k, s)
      invariant layer.links.faceLog == log + RowFaces(c.names, key3, nv, table, k, s)
      invariant layer.links.edgeLog == elog + RowEdges(c.names, key3, nv, table, k, s)
      invariant lists == Partial(c.names, key3, nv, table, k, s)
      invariant old(layer.nodesNear.Keys) <= layer.nodesNear.Keys && old(layer.nodesFar.Keys) <= layer.nodesFar.Keys
      invariant old(layer.links.Logged()) ==> layer.links.Logged()
      decreases WidthCount(nv, k) - s
      invariant old(layer.links.Good(variant)) ==> layer.links.Good(variant)
    {
      WidthLoopRuns(nv, k, s);
      w := WidthSlide(w);
      r, objs' := WidthRound(layer, c, key3, nv, k, s, w, radius, table, lists, objs', keys, log, elog, m, variant);
      if r.Failure? {
        return;
      }
      lists := r.value;
      s := s + 1;
    }
    r := Success(lists);
    WidthLoopRuns(nv, k, s);
  }




  /** the depth step that follows k steps: the flag previouslySlidDown is
      set after an odd number of steps */
  lemma DepthSlideStep(nv: nat, k: nat)
    ensures DepthSlide(DepthAt(nv, k), k % 2 == 1) == DepthAt(nv, k + 1)
  {
  }

  /** the first point of a row is among its points */
  lemma {:induction false} RowHasFirst(t: Tri, key3: NodeKeyFn, nv: nat, k: nat, s: nat)
    ensures Pt(t, key3, nv, k, 0) in Row(t, key3, nv, k, s)
  {
    if s > 0 {
      RowHasFirst(t, key3, nv, k, s - 1);
    }
  }

  /** The lists after depth step k are those of the rows before, with
      abInter extended by the step; a whole row leaves them as Collected
      says. */
  lemma RowLists(t: Tri, key3: NodeKeyFn, nv: nat, table: map<string, seq<string>>, k: nat)
    requires k >= 1
    ensures var p := Collected(t, key3, nv, table, k - 1);
            p.(ab := p.ab + Gate(table, EdgeKey(t.a, t.b), ABPush(t, key3, nv, k))) == Partial(t, key3, nv, table, k, 0)
    ensures Partial(t, key3, nv, table, k, WidthCount(nv, k)) == Collected(t, key3, nv, table, k)
  {
  }

  /** A row extends the walk's points and faces by its own. */
  lemma DepthGrows(t: Tri, key3: NodeKeyFn, nv: nat, table: map<string, seq<string>>, k: nat,
                   keys: set<string>, log: seq<string>, elog: seq<string>)
    requires k >= 1
    ensures keys + Rows(t, key3, nv, k - 1) + Row(t, key3, nv, k, WidthCount(nv, k)) == keys + Rows(t, key3, nv, k)
    ensures log + WalkFaces(t, key3, nv, table, k - 1) + RowFaces(t, key3, nv, table, k, WidthCount(nv, k))
            == log + WalkFaces(t, key3, nv, table, k)
    ensures elog + WalkEdges(t, key3, nv, table, k - 1) + RowEdges(t, key3, nv, table, k, WidthCount(nv, k))
            == elog + WalkEdges(t, key3, nv, table, k)
  {
    LogGrows(log, WalkFaces(t, key3, nv, table, k - 1), RowFaces(t, key3, nv, table, k, WidthCount(nv, k)));
    LogGrows(elog, WalkEdges(t, key3, nv, table, k - 1), RowEdges(t, key3, nv, table, k, WidthCount(nv, k)));
  }

  /** One round of the depth loop: depth step k, then the width loop of
      its row. */
  method RowStep(layer: Layer, c: Corners, key3: NodeKeyFn, nv: nat, k: nat, d: W3, slidDown: bool, radius: real,
                 table: map<string, seq<string>>, inter: Inter, ghost objs: set<Node>, m: Measures, variant: Variant)
    returns (r: Result<Inter>, ghost objs': set<Node>)
    requires layer.Valid() && layer.Within(objs) && k >= 1 && d == DepthAt(nv, k) && slidDown == ((k - 1) % 2 == 1)
    requires layer.HasNode(Pt(c.names, key3, nv, k - 1, 0)) && inter == Collected(c.names, key3, nv, table, k - 1)
    modifies layer, objs
    ensures layer.Valid() && layer.Within(objs') && fresh(objs' - objs)
    ensures old(layer.nodesNear.Keys) <= layer.nodesNear.Keys && old(layer.nodesFar.Keys) <= layer.nodesFar.Keys
    ensures r.Success? ==>
              layer.NodeKeys() == old(layer.NodeKeys()) + Row(c.names, key3, nv, k, WidthCount(nv, k))
              && layer.links.faceLog == old(layer.links.faceLog) + RowFaces(c.names, key3, nv, table, k, WidthCount(nv, k))
              && layer.links.edgeLog == old(layer.links.edgeLog) + RowEdges(c.names, key3, nv, table, k, WidthCount(nv, k))
              && r.value == Collected(c.names, key3, nv, table, k)
    ensures old(layer.links.Logged()) ==> layer.links.Logged()
    ensures old(layer.links.Good(variant)) ==> layer.links.Good(variant)
  {
    RowLists(c.names, key3, nv, table, k);
    r, objs' := DepthStep(layer, c, key3, nv, k, d, slidDown, radius, table, inter, objs, m, variant);
    if r.Success? {
      r, objs' := WidthLoop(layer, c, key3, nv, k, radius, table, r.value, objs', old(layer.NodeKeys()), old(layer.links.faceLog),
                            old(layer.links.edgeLog), m, variant);
    }
  }

  /** RowStep on the loop's terms: the rows so far grow by row k, the
      walk's faces by that row's, and the lists are those of k rows. */
  method DepthRound(layer: Layer, c: Corners, key3: NodeKeyFn, nv: nat, k: nat, d: W3, slidDown: bool, radius: real,
                    table: map<string, seq<string>>, inter: Inter,
                    ghost objs: set<Node>, ghost keys: set<string>, ghost log: seq<string>, ghost elog: seq<string>,
                    m: Measures, variant: Variant)
    returns (r: Result<Inter>, ghost objs': set<Node>)
    requires layer.Valid() && layer.Within(objs) && k >= 1 && d == DepthAt(nv, k) && slidDown == ((k - 1) % 2 == 1)
    requires layer.HasNode(Pt(c.names, key3, nv, k - 1, 0)) && inter == Collected(c.names, key3, nv, table, k - 1)
    requires layer.NodeKeys() == keys + Rows(c.names, key3, nv, k - 1)
    requires layer.links.faceLog == log + WalkFaces(c.names, key3, nv, table, k - 1)
    requires layer.links.edgeLog == elog + WalkEdges(c.names, key3, nv, table, k - 1)
    modifies layer, objs
    ensures layer.Valid() && layer.Within(objs') && fresh(objs' - objs)
    ensures old(layer.nodesNear.Keys) <= layer.nodesNear.Keys && old(layer.nodesFar.Keys) <= layer.nodesFar.Keys
    ensures old(layer.links.Logged()) ==> layer.links.Logged()
    ensures r.Success? ==>
              layer.NodeKeys() == keys + Rows(c.names, key3, nv, k)
              && layer.links.faceLog == log + WalkFaces(c.names, key3, nv, table, k)
              && layer.links.edgeLog == elog + WalkEdges(c.names, key3, nv, table, k)
              && r.value == Collected(c.names, key3, nv, table, k)
              && layer.HasNode(Pt(c.names, key3, nv, k, 0))
    ensures old(layer.links.Good(variant)) ==> layer.links.Good(variant)
  {
    r, objs' := RowStep(layer, c, key3, nv, k, d, slidDown, radius, table, inter, objs, m, variant);
    if r.Success? {
      DepthGrows(c.names, key3, nv, table, k, keys, log, elog);
      RowHasFirst(c.names, key3, nv, k, WidthCount(nv, k));
    }
  }

  /** before the depth loop: no rows, no faces, empty lists, and the
      depth point is the corner a */
  lemma WalkStarts(t: Tri, key3: NodeKeyFn, nv: nat, table: map<string, seq<string>>)
    requires NamesCorners(key3)
    ensures DepthAt(nv, 0) == W3(3 * nv, 0, 0)
    ensures Rows(t, key3, nv, 0) == {} && WalkFaces(t, key3, nv, table, 0) == [] && WalkEdges(t, key3, nv, table, 0) == []
    ensures Collected(t, key3, nv, table, 0) == Inter([], [], [])
    ensures nv > 0 ==> Pt(t, key3, nv, 0, 0) == t.a
  {
  }

  /** The walk over one face a, b, c of the previous layer: the depth loop
      `while (bw + .1 < nv)` from the corner a, one row per round, then the
      face's three boundary lists go into the table where it lacks their
      base edge. */
  method ClassIIFace(layer: Layer, c: Corners, key3: NodeKeyFn, nv: nat, radius: real,
                     table: map<string, seq<string>>, ghost objs: set<Node>, m: Measures, variant: Variant)
    returns (r: Result<map<string, seq<string>>>, ghost objs': set<Node>)
    requires layer.Valid() && layer.Within(objs) && NamesCorners(key3) && layer.HasNode(c.names.a)
    modifies layer, objs
    ensures layer.Valid() && layer.Within(objs') && fresh(objs' - objs)
    ensures old(layer.nodesNear.Keys) <= layer.nodesNear.Keys && old(layer.nodesFar.Keys) <= layer.nodesFar.Keys
    ensures old(layer.links.Logged()) ==> layer.links.Logged()
    ensures r.Success? ==>
              var n := DepthCount(nv);
              layer.NodeKeys() == old(layer.NodeKeys()) + Rows(c.names, key3, nv, n)
              && layer.links.faceLog == old(layer.links.faceLog) + WalkFaces(c.names, key3, nv, table, n)
              && layer.links.edgeLog == old(layer.links.edgeLog) + WalkEdges(c.names, key3, nv, table, n)
              && r.value == Stitched(table, c.names, Collected(c.names, key3, nv, table, n))
    ensures old(layer.links.Good(variant)) ==> layer.links.Good(variant)
  {
    hide *;
    objs' := objs;
    var w, slid, k := W3(3 * nv, 0, 0), false, 0;
    var lists := Inter([], [], []);
    WalkStarts(c.names, key3, nv, table);
    while w.b < 3 * nv
      invariant k <= DepthCount(nv) && w == DepthAt(nv, k) && slid == (k % 2 == 1)
      invariant layer.Valid() && layer.Within(objs') && fresh(objs' - objs)
      invariant nv > 0 ==> layer.HasNode(Pt(c.names, key3, nv, k, 0))
      invariant layer.NodeKeys() == old(layer.NodeKeys()) + Rows(c.names, key3, nv, k)
      invariant layer.links.faceLog == old(layer.links.faceLog) + WalkFaces(c.names, key3, nv, table, k)
      invariant layer.links.edgeLog == old(layer.links.edgeLog) + WalkEdges(c.names, key3, nv, table, k)
      invariant lists == Collected(c.names, key3, nv, table, k)
      invariant old(layer.nodesNear.Keys) <= layer.nodesNear.Keys && old(layer.nodesFar.Keys) <= layer.nodesFar.Keys
      invariant old(layer.links.Logged()) ==> layer.links.Logged()
      decreases DepthCount(nv) - k
      invariant old(layer.links.Good(variant)) ==> layer.links.Good(variant)
    {
      DepthLoopRuns(nv, k);
      DepthSlideStep(nv, k);
      w := DepthSlide(w, slid);
      k := k + 1;
      var step;
      step, objs' := DepthRound(layer, c, key3, nv, k, w, slid, radius, table, lists, objs',
                                old(layer.NodeKeys()), old(layer.links.faceLog), old(layer.links.edgeLog), m, variant);
      if step.Failure? {
        r := Failure(step.error);
        return;
      }
      lists := step.value;
      slid := !slid;
    }
    DepthLoopRuns(nv, k);
    r := Success(Stitched(table, c.names, lists));
  }

  /** the table interFaceConnections after the walks over the faces, one
      after another; a face with fewer than three names, on which the walk
      fails, adds nothing here or in the two functions below */
  function LayerTable(faces: seq<Face>, key3: NodeKeyFn, nv: nat): map<string, seq<string>>
  {
    if |faces| == 0 then map[]
    else
      var table := LayerTable(faces[..|faces| - 1], key3, nv);
      var f := faces[|faces| - 1];
      if |f.nodes| < 3 then table
      else Stitched(table, NamesOf(f), Collected(NamesOf(f), key3, nv, table, DepthCount(nv)))
  }

  /** the face keys of the walks over the faces, one face after another,
      each walk reading the table the walks before it left */
  function LayerFaces(faces: seq<Face>, key3: NodeKeyFn, nv: nat): seq<string>
  {
    if |faces| == 0 then []
    else
      var init, f := faces[..|faces| - 1], faces[|faces| - 1];
      if |f.nodes| < 3 then LayerFaces(init, key3, nv)
      else LayerFaces(init, key3, nv) + WalkFaces(NamesOf(f), key3, nv, LayerTable(init, key3, nv), DepthCount(nv))
  }

  /** the edge log of the walks over the faces, from a layer with no
      edges */
  function LayerEdges(faces: seq<Face>, key3: NodeKeyFn, nv: nat): seq<string>
  {
    if |faces| == 0 then []
    else
      var init, f := faces[..|faces| - 1], faces[|faces| - 1];
      if |f.nodes| < 3 then LayerEdges(init, key3, nv)
      else LayerEdges(init, key3, nv) + WalkEdges(NamesOf(f), key3, nv, LayerTable(init, key3, nv), DepthCount(nv))
  }

  /** the lattice points of the walks over the faces */
  ghost function LayerPoints(faces: seq<Face>, key3: NodeKeyFn, nv: nat): set<string>
  {
    if |faces| == 0 then {}
    else
      var init, f := faces[..|faces| - 1], faces[|faces| - 1];
      if |f.nodes| < 3 then LayerPoints(init, key3, nv)
      else LayerPoints(init, key3, nv) + Rows(NamesOf(f), key3, nv, DepthCount(nv))
  }

  /** A seam edge starts at p. */
  lemma SeamEdgesTouch(table: map<string, seq<string>>, edgeKey: string, i: int, p: string, pts: set<string>)
    requires p in pts
    ensures AllTouch(SeamEdges(table, edgeKey, i, p), pts)
  {
    if edgeKey in table && 0 <= i < |table[edgeKey]| {
      TouchesHas(p, table[edgeKey][i], pts);
    }
  }

  /** Every edge of depth step k starts at its depth point or the one
      before it. */
  lemma DepthEdgesTouch(t: Tri, key3: NodeKeyFn, nv: nat, table: map<string, seq<string>>, k: nat, pts: set<string>)
    requires k >= 1 && Pt(t, key3, nv, k - 1, 0) in pts && Pt(t, key3, nv, k, 0) in pts
    ensures AllTouch(DepthEdges(t, key3, nv, table, k), pts)
  {
    var d := DepthAt(nv, k);
    var p, q := Pt(t, key3, nv, k - 1, 0), Pt(t, key3, nv, k, 0);
    TouchesHas(p, q, pts);
    SeamEdgesTouch(table, EdgeKey(t.a, t.b), HalfIndex(d.b / 3), p, pts);
    TouchesHas(q, KeyOf(t, key3, W3(d.a + 2, d.b - 4, d.c + 2)), pts);
  }

  /** Every edge of width step s of row k starts at its point or the one
      before it. */
  lemma WidthEdgesTouch(t: Tri, key3: NodeKeyFn, nv: nat, table: map<string, seq<string>>, k: nat, s: nat, pts: set<string>)
    requires s >= 1 && Pt(t, key3, nv, k, s - 1) in pts && Pt(t, key3, nv, k, s) in pts
    ensures AllTouch(WidthEdges(t, key3, nv, table, k, s), pts)
  {
    var w := WidthAt(nv, k, s);
    var p, q := Pt(t, key3, nv, k, s - 1), Pt(t, key3, nv, k, s);
    TouchesHas(p, q, pts);
    SeamEdgesTouch(table, EdgeKey(t.a, t.c), HalfIndex(RoundThirds(w.c)), p, pts);
    SeamEdgesTouch(table, EdgeKey(t.b, t.c), HalfIndex(RoundThirds(w.c)), p, pts);
    TouchesHas(q, KeyOf(t, key3, W3(w.a + 4, w.b - 2, w.c - 2)), pts);
    TouchesHas(q, KeyOf(t, key3, W3(w.a + 2, w.b - 4, w.c + 2)), pts);
  }

  /** Every edge of depth step k and its first s width steps starts at a
      point of row k or at the depth point before it. */
  lemma {:induction false} RowEdgesTouch(t: Tri, key3: NodeKeyFn, nv: nat, table: map<string, seq<string>>, k: nat, s: nat,
                                         pts: set<string>)
    requires k >= 1 && Pt(t, key3, nv, k - 1, 0) in pts && Row(t, key3, nv, k, s) <= pts
    ensures AllTouch(RowEdges(t, key3, nv, table, k, s), pts)
  {
    if s == 0 {
      RowHasFirst(t, key3, nv, k, 0);
      DepthEdgesTouch(t, key3, nv, table, k, pts);
    } else {
      RowEdgesTouch(t, key3, nv, table, k, s - 1, pts);
      RowHasLast(t, key3, nv, k, s - 1);
      RowHasLast(t, key3, nv, k, s);
      WidthEdgesTouch(t, key3, nv, table, k, s, pts);
    }
  }

  /** Every edge of the first k rows of a walk starts at one of its points,
      the corner a included. */
  lemma {:induction false} WalkEdgesTouch(t: Tri, key3: NodeKeyFn, nv: nat, table: map<string, seq<string>>, k: nat,
                                          pts: set<string>)
    requires Pt(t, key3, nv, 0, 0) in pts && Rows(t, key3, nv, k) <= pts
    ensures AllTouch(WalkEdges(t, key3, nv, table, k), pts)
  {
    if k > 0 {
      assert Rows(t, key3, nv, k - 1) <= pts && Row(t, key3, nv, k, WidthCount(nv, k)) <= pts;
      assert Pt(t, key3, nv, k - 1, 0) in pts by {
        if k > 1 {
          RowHasFirst(t, key3, nv, k - 1, WidthCount(nv, k - 1));
        }
      }
      hide Rows, Row, Pt, RowEdges, Touches, WidthCount;
      WalkEdgesTouch(t, key3, nv, table, k - 1, pts);
      RowEdgesTouch(t, key3, nv, table, k, WidthCount(nv, k), pts);
    }
  }

  /** Every edge a Class II layer connects starts at a lattice point of
      one of its walks or at the corner a of a face. */
  lemma {:induction false} LayerEdgesTouch(faces: seq<Face>, key3: NodeKeyFn, nv: nat, pts: set<string>)
    requires NamesCorners(key3) && LayerPoints(faces, key3, nv) <= pts
    requires forall i :: 0 <= i < |faces| && |faces[i].nodes| >= 3 ==> NamesOf(faces[i]).a in pts
    ensures AllTouch(LayerEdges(faces, key3, nv), pts)
  {
    if |faces| > 0 {
      var init, f := faces[..|faces| - 1], faces[|faces| - 1];
      assert forall i :: 0 <= i < |init| ==> init[i] == faces[i];
      LayerEdgesTouch(init, key3, nv, pts);
      if |f.nodes| >= 3 && nv > 0 {
        WalkStarts(NamesOf(f), key3, nv, LayerTable(init, key3, nv));
        WalkEdgesTouch(NamesOf(f), key3, nv, LayerTable(init, key3, nv), DepthCount(nv), pts);
      }
    }
  }

  /** A layer that carries prev's nodes and the walks' points, with the
      walks' edges logged, stores only edges with an end among its nodes. */
  lemma LayerTouches(prev: Layer, layer: Layer, faces: seq<Face>, key3: NodeKeyFn, nv: nat)
    requires NamesCorners(key3) && AllReady(prev, faces) && layer.links.Logged()
    requires layer.NodeKeys() == prev.NodeKeys() + LayerPoints(faces, key3, nv)
    requires layer.links.edgeLog == LayerEdges(faces, key3, nv)
    ensures forall e :: e in layer.links.EdgeKeys() ==> Touches(e, layer.NodeKeys())
  {
    forall i | 0 <= i < |faces| && |faces[i].nodes| >= 3
      ensures NamesOf(faces[i]).a in layer.NodeKeys()
    {
      assert Ready(prev, faces[i]);
    }
    LayerEdgesTouch(faces, key3, nv, layer.NodeKeys());
  }

  /** A walk over face i extends the points, faces and table of the walks
      before it by its own. */
  lemma LayerGrows(faces: seq<Face>, i: nat, key3: NodeKeyFn, nv: nat, keys: set<string>)
    requires i < |faces| && |faces[i].nodes| >= 3
    ensures var t, table := NamesOf(faces[i]), LayerTable(faces[..i], key3, nv);
            && keys + LayerPoints(faces[..i], key3, nv) + Rows(t, key3, nv, DepthCount(nv))
               == keys + LayerPoints(faces[..i + 1], key3, nv)
            && LayerFaces(faces[..i], key3, nv) + WalkFaces(t, key3, nv, table, DepthCount(nv))
               == LayerFaces(faces[..i + 1], key3, nv)
            && LayerEdges(faces[..i], key3, nv) + WalkEdges(t, key3, nv, table, DepthCount(nv))
               == LayerEdges(faces[..i + 1], key3, nv)
            && Stitched(table, t, Collected(t, key3, nv, table, DepthCount(nv))) == LayerTable(faces[..i + 1], key3, nv)
  {
    assert faces[..i + 1][..i] == faces[..i];
  }

  /** The walk over face i of the list, given its corners and the table
      the faces before it left. */
  method LayerWalk(layer: Layer, faces: seq<Face>, i: nat, c: Corners, key3: NodeKeyFn, nv: nat, radius: real,
                   table: map<string, seq<string>>, ghost objs: set<Node>, ghost keys: set<string>,
                   m: Measures, variant: Variant)
    returns (r: Result<map<string, seq<string>>>, ghost objs': set<Node>)
    requires layer.Valid() && layer.Within(objs) && NamesCorners(key3)
    requires i < |faces| && |faces[i].nodes| >= 3 && c.names == NamesOf(faces[i])
    requires layer.HasNode(c.names.a) && table == LayerTable(faces[..i], key3, nv)
    requires layer.NodeKeys() == keys + LayerPoints(faces[..i], key3, nv)
    requires layer.links.faceLog == LayerFaces(faces[..i], key3, nv)
    requires layer.links.edgeLog == LayerEdges(faces[..i], key3, nv) && layer.links.Logged()
    modifies layer, objs
    ensures layer.Valid() && layer.Within(objs') && fresh(objs' - objs)
    ensures old(layer.nodesNear.Keys) <= layer.nodesNear.Keys && old(layer.nodesFar.Keys) <= layer.nodesFar.Keys
    ensures r.Success? ==>
              layer.NodeKeys() == keys + LayerPoints(faces[..i + 1], key3, nv)
              && layer.links.faceLog == LayerFaces(faces[..i + 1], key3, nv)
              && layer.links.edgeLog == LayerEdges(faces[..i + 1], key3, nv) && layer.links.Logged()
              && r.value == LayerTable(faces[..i + 1], key3, nv)
    ensures old(layer.links.Good(variant)) ==> layer.links.Good(variant)
  {
    r, objs' := ClassIIFace(layer, c, key3, nv, radius, table, objs, m, variant);
    if r.Success? {
      LayerGrows(faces, i, key3, nv, keys);
    }
  }

  /** One face of the previous layer: its corners are looked up, and the
      walk over it runs when all three exist. */
  method LayerRound(prev: Layer, layer: Layer, faces: seq<Face>, i: nat, key3: NodeKeyFn, nv: nat, radius: real,
                    table: map<string, seq<string>>, ghost objs: set<Node>, ghost keys: set<string>,
                    m: Measures, variant: Variant)
    returns (r: Result<map<string, seq<string>>>, ghost objs': set<Node>)
    requires prev.Valid() && layer.Valid() && layer.Within(objs) && NamesCorners(key3) && prev != layer
    requires i < |faces| && AllReady(prev, faces[..i]) && prev.NodeKeys() <= keys && Carried(prev, layer)
    requires table == LayerTable(faces[..i], key3, nv)
    requires layer.NodeKeys() == keys + LayerPoints(faces[..i], key3, nv)
    requires layer.links.faceLog == LayerFaces(faces[..i], key3, nv)
    requires layer.links.edgeLog == LayerEdges(faces[..i], key3, nv) && layer.links.Logged()
    modifies layer, objs
    ensures !Ready(prev, faces[i]) ==> r.Failure?
    ensures r.Success? ==>
              AllReady(prev, faces[..i + 1]) && layer.Valid() && layer.Within(objs') && fresh(objs' - objs)
              && layer.NodeKeys() == keys + LayerPoints(faces[..i + 1], key3, nv) && Carried(prev, layer)
              && layer.links.faceLog == LayerFaces(faces[..i + 1], key3, nv)
              && layer.links.edgeLog == LayerEdges(faces[..i + 1], key3, nv) && layer.links.Logged()
              && r.value == LayerTable(faces[..i + 1], key3, nv)
    ensures old(layer.links.Good(variant)) ==> layer.links.Good(variant)
  {
    hide LayerTable, LayerPoints, LayerFaces, LayerEdges, Layer.Within, AllReady, Links.Logged;
    objs' := objs;
    var corners := FaceCorners(prev, faces[i]);
    if corners.Failure? {
      return Failure(corners.error), objs';
    }
    ReadyGrows(prev, faces, i);
    KeyNamesNode(layer, corners.value.names.a);
    r, objs' := LayerWalk(layer, faces, i, corners.value, key3, nv, radius, table, objs, keys, m, variant);
  }

  /** Before the loop over the faces: no face walked, nothing logged. */
  lemma LayerStarts(prev: Layer, faces: seq<Face>, key3: NodeKeyFn, nv: nat)
    ensures AllReady(prev, faces[..0]) && LayerTable(faces[..0], key3, nv) == map[]
    ensures LayerPoints(faces[..0], key3, nv) == {}
    ensures LayerFaces(faces[..0], key3, nv) == [] && LayerEdges(faces[..0], key3, nv) == []
  {
  }

  /** The loop over the faces of the previous layer, in the order their
      maps list them, carrying the table from one face to the next; it
      stops at the first face that cannot be walked or stitched. */
  method LayerLoop(prev: Layer, layer: Layer, faces: seq<Face>, key3: NodeKeyFn, nv: nat, radius: real,
                   ghost objs: set<Node>, m: Measures, variant: Variant)
    returns (r: Result<Layer>)
    requires prev.Valid() && layer.Valid() && layer.Within(objs) && NamesCorners(key3) && prev != layer
    requires layer.NodeKeys() == prev.NodeKeys() && Carried(prev, layer)
    requires layer.links.faceLog == [] && layer.links.edgeLog == [] && layer.links.Logged()
    modifies layer, objs
    ensures r.Success? ==>
              AllReady(prev, faces) && r.value == layer && layer.Valid() && Carried(prev, layer)
              && layer.NodeKeys() == prev.NodeKeys() + LayerPoints(faces, key3, nv)
              && layer.links.faceLog == LayerFaces(faces, key3, nv)
              && layer.links.edgeLog == LayerEdges(faces, key3, nv) && layer.links.Logged()
    ensures old(layer.links.Good(variant)) ==> layer.links.Good(variant)
  {
    hide *;
    ghost var objs' := objs;
    var i := 0;
    var table := map[];
    LayerStarts(prev, faces, key3, nv);
    while i < |faces|
      invariant i <= |faces| && prev.Valid() && layer.Valid() && layer.Within(objs') && fresh(objs' - objs)
      invariant AllReady(prev, faces[..i]) && table == LayerTable(faces[..i], key3, nv)
      invariant layer.NodeKeys() == prev.NodeKeys() + LayerPoints(faces[..i], key3, nv)
      invariant layer.links.faceLog == LayerFaces(faces[..i], key3, nv)
      invariant layer.links.edgeLog == LayerEdges(faces[..i], key3, nv) && layer.links.Logged() && Carried(prev, layer)
      invariant old(layer.links.Good(variant)) ==> layer.links.Good(variant)
    {
      var next;
      next, objs' := LayerRound(prev, layer, faces, i, key3, nv, radius, table, objs', prev.NodeKeys(), m, variant);
      if next.Failure? {
        return Failure(next.error);
      }
      table := next.value;
      i := i + 1;
    }
    assert faces[..i] == faces;
    r := Success(layer);
  }

  /** classIILayer: a fresh layer carrying the nodes of `prev`, then the
      walk over every face of `prev` in the order its face maps list them,
      with one table of boundary lists for the whole layer. The walk fails
      at the first face whose corners are not all nodes of `prev`, or whose
      stitching reads a missing entry or node. The Modular copy returns the
      edge map's 'maxEdgeLength' entry; the Monolithic copy returns no
      maximum. */
  method ClassIILayer(prev: Layer, options: BuildOptions, frequency: (nat, nat), key3: NodeKeyFn,
                      m: Measures, variant: Variant)
    returns (r: Result<Layer>, maxEdgeLength: Option<ExtReal>)
    requires prev.Valid() && NamesCorners(key3)
    ensures !AllReady(prev, OrderedFaces(prev.links)) ==> r.Failure?
    ensures r.Success? ==>
              var faces, nv := OrderedFaces(prev.links), frequency.0 + frequency.1;
              fresh(r.value) && r.value.Valid() && Carried(prev, r.value)
              && r.value.NodeKeys() == prev.NodeKeys() + LayerPoints(faces, key3, nv)
              && r.value.links.faceLog == LayerFaces(faces, key3, nv)
              && r.value.links.edgeLog == LayerEdges(faces, key3, nv) && r.value.links.Logged()
    ensures r.Success? ==> forall e :: e in r.value.links.EdgeKeys() ==> Touches(e, r.value.NodeKeys())
    ensures maxEdgeLength == (if r.Success? && variant == Modular then r.value.links.maxEntry else None)
    ensures r.Success? ==> r.value.links.Good(variant)
    ensures r.Success? && variant == Modular ==>
              maxEdgeLength.Some? && Covered(r.value.links.edgesNear, maxEdgeLength.value)
              && Covered(r.value.links.edgesFar, maxEdgeLength.value)
  {
    var layer := new Layer.CarryOver(prev, variant);
    hide *;
    ghost var objs := layer.NodeObjects();
    r := LayerLoop(prev, layer, OrderedFaces(prev.links), key3, frequency.0 + frequency.1, Radius(options), objs, m, variant);
    maxEdgeLength := if r.Success? && variant == Modular then layer.links.maxEntry else None;
    if r.Success? {
      LayerTouches(prev, layer, OrderedFaces(prev.links), key3, frequency.0 + frequency.1);
    }
  }
}
