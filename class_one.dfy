/** Class I subdivision, classILayer (scripts/subdivisions.js:13-164 and
    its copy at scripts/geodesic.js:250-398): every face a, b, c of the
    previous layer is cut into nv * nv triangles by walking the lattice of
    weights (aw, bw, cw) with aw + bw + cw = nv, one row further from a at
    each depth step and one point further towards c at each width step. */
module ClassOne {
  import opened Wrappers
  import opened Keys
  import opened Geometry
  import opened Structures
  import opened Colours
  import opened Layers
  import opened Connections
  import opened Walks

  /** The lattice point d rows from a and i points across towards c: the
      key of the weights (nv - d, d - i, i). */
  function Lat(t: Tri, key: NodeKeyFn, nv: nat, d: nat, i: nat): string
  {
    KeyAt(t, key, nv - d, d - i, i)
  }

  /** the first j + 1 points of row d */
  ghost function Row(t: Tri, key: NodeKeyFn, nv: nat, d: nat, j: nat): set<string>
  {
    if j == 0 then {Lat(t, key, nv, d, 0)} else Row(t, key, nv, d, j - 1) + {Lat(t, key, nv, d, j)}
  }

  /** the points of rows 0..bw-1 and the first j + 1 points of row bw */
  ghost function Rows(t: Tri, key: NodeKeyFn, nv: nat, bw: nat, j: nat): set<string>
  {
    (if bw == 0 then {} else Rows(t, key, nv, bw - 1, bw - 1)) + Row(t, key, nv, bw, j)
  }

  lemma {:induction false} RowHas(t: Tri, key: NodeKeyFn, nv: nat, d: nat, j: nat, i: nat)
    requires i <= j
    ensures Lat(t, key, nv, d, i) in Row(t, key, nv, d, j)
  {
    if i < j {
      RowHas(t, key, nv, d, j - 1, i);
    }
  }

  lemma RowsStart(t: Tri, key: NodeKeyFn, nv: nat)
    requires nv > 0 && NamesCorners(key)
    ensures Rows(t, key, nv, 0, 0) == {t.a}
  {
    assert Lat(t, key, nv, 0, 0) == t.a;
  }

  /** the up triangle of width step j in row bw: connectFace(prevWidthNode,
      widthNode, topNode) */
  function UpFace(t: Tri, key: NodeKeyFn, nv: nat, bw: nat, j: nat): string
    requires bw >= 1
  {
    FaceKey(Lat(t, key, nv, bw, j), Lat(t, key, nv, bw, j + 1), Lat(t, key, nv, bw - 1, j))
  }

  /** the down triangle of width step j in row bw: connectFace(leftNode,
      rightNode, widthNode) */
  function DownFace(t: Tri, key: NodeKeyFn, nv: nat, bw: nat, j: nat): string
    requires bw >= 1
  {
    FaceKey(Lat(t, key, nv, bw - 1, j), Lat(t, key, nv, bw - 1, j + 1), Lat(t, key, nv, bw, j + 1))
  }

  /** the faces of width step j: the up triangle, and the down one unless
      the step reaches the edge a-c */
  function StepFaces(t: Tri, key: NodeKeyFn, nv: nat, bw: nat, j: nat): seq<string>
    requires bw >= 1
  {
    [UpFace(t, key, nv, bw, j)] + (if j + 1 < bw then [DownFace(t, key, nv, bw, j)] else [])
  }

  /** the faces of the first n width steps of row bw */
  function RowFaces(t: Tri, key: NodeKeyFn, nv: nat, bw: nat, n: nat): seq<string>
    requires bw >= 1
  {
    if n == 0 then [] else RowFaces(t, key, nv, bw, n - 1) + StepFaces(t, key, nv, bw, n - 1)
  }

  /** the faces of the first n depth steps */
  function WalkFaces(t: Tri, key: NodeKeyFn, nv: nat, n: nat): seq<string>
  {
    if n == 0 then [] else WalkFaces(t, key, nv, n - 1) + RowFaces(t, key, nv, n, n)
  }

  /** The edge log after the triangles of width step j of row bw: the edge
      widthNode-topNode, unless an edge is stored under ObjectEdgeKey, and,
      off the edge a-c, the edges from leftNode (the same point as topNode)
      and from rightNode. */
  function TriangleEdges(log: seq<string>, t: Tri, key: NodeKeyFn, nv: nat, bw: nat, j: nat): seq<string>
    requires bw >= 1
  {
    var width, top := Lat(t, key, nv, bw, j + 1), Lat(t, key, nv, bw - 1, j);
    var log1 := Once(log, ObjectEdgeKey, EdgeKey(width, top));
    if j + 1 < bw then log1 + [EdgeKey(top, width), EdgeKey(Lat(t, key, nv, bw - 1, j + 1), width)] else log1
  }

  /** the edge log after width step j of row bw: the edge from the point
      before, unless stored, then the edges of its triangles */
  function StepEdges(log: seq<string>, t: Tri, key: NodeKeyFn, nv: nat, bw: nat, j: nat): seq<string>
    requires bw >= 1
  {
    var k := EdgeKey(Lat(t, key, nv, bw, j), Lat(t, key, nv, bw, j + 1));
    TriangleEdges(Once(log, k, k), t, key, nv, bw, j)
  }

  /** the edge log after the first n width steps of row bw */
  function RowEdges(log: seq<string>, t: Tri, key: NodeKeyFn, nv: nat, bw: nat, n: nat): seq<string>
    requires bw >= 1
  {
    if n == 0 then log else StepEdges(RowEdges(log, t, key, nv, bw, n - 1), t, key, nv, bw, n - 1)
  }

  /** the edge log after the depth step into row d: the edge from the
      first point of row d - 1, unless stored */
  function DepthEdge(log: seq<string>, t: Tri, key: NodeKeyFn, nv: nat, d: nat): seq<string>
    requires d >= 1
  {
    var k := EdgeKey(Lat(t, key, nv, d - 1, 0), Lat(t, key, nv, d, 0));
    Once(log, k, k)
  }

  /** the edge log after the first n depth steps, each with its row */
  function WalkEdges(log: seq<string>, t: Tri, key: NodeKeyFn, nv: nat, n: nat): seq<string>
  {
    if n == 0 then log
    else RowEdges(DepthEdge(WalkEdges(log, t, key, nv, n - 1), t, key, nv, n), t, key, nv, n, n)
  }

  /** Row bw has bw up and bw - 1 down triangles. */
  lemma {:induction false} RowFacesCount(t: Tri, key: NodeKeyFn, nv: nat, bw: nat, n: nat)
    requires 1 <= bw && n <= bw
    ensures |RowFaces(t, key, nv, bw, n)| == 2 * n - (if n == bw then 1 else 0)
  {
    if n > 0 {
      RowFacesCount(t, key, nv, bw, n - 1);
    }
  }

  /** A walk of nv depth steps connects nv * nv faces. */
  lemma {:induction false} WalkFacesCount(t: Tri, key: NodeKeyFn, nv: nat, n: nat)
    ensures |WalkFaces(t, key, nv, n)| == n * n
  {
    if n > 0 {
      WalkFacesCount(t, key, nv, n - 1);
      RowFacesCount(t, key, nv, n, n);
      assert n * n == (n - 1) * (n - 1) + 2 * n - 1;
    }
  }

  /** `util.generateEdgeKey(widthNode, topNode)` at
      scripts/subdivisions.js:135 is given the two Node objects, which
      sort and join as the string "[object Object]". */
  const ObjectEdgeKey: string := EdgeKey("[object Object]", "[object Object]")

  /** The down triangle of width step j in row bw: connectEdge(leftNode,
      widthNode), connectEdge(rightNode, widthNode), connectFace(leftNode,
      rightNode, widthNode). */
  method DownTriangle(layer: Layer, t: Tri, key: NodeKeyFn, nv: nat, bw: nat, j: nat, widthNode: Node,
                      ghost objs: set<Node>, m: Measures, variant: Variant)
    requires layer.Valid() && j + 1 < bw && layer.Within(objs)
    requires layer.HasNode(Lat(t, key, nv, bw - 1, j)) && layer.HasNode(Lat(t, key, nv, bw - 1, j + 1))
    requires widthNode in objs && widthNode.name == Lat(t, key, nv, bw, j + 1)
    modifies layer, objs
    ensures layer.nodesNear == old(layer.nodesNear) && layer.nodesFar == old(layer.nodesFar)
    ensures layer.links.faceLog == old(layer.links.faceLog) + [DownFace(t, key, nv, bw, j)]
    ensures layer.links.edgeLog == old(layer.links.edgeLog) + [EdgeKey(Lat(t, key, nv, bw - 1, j), widthNode.name),
                                                               EdgeKey(Lat(t, key, nv, bw - 1, j + 1), widthNode.name)]
    ensures old(layer.links.Logged()) ==> layer.links.Logged()
    ensures old(layer.links.Good(variant)) ==> layer.links.Good(variant)
  {
    var leftNode := layer.GetNode(Lat(t, key, nv, bw - 1, j)).value;
    var rightNode := layer.GetNode(Lat(t, key, nv, bw - 1, j + 1)).value;
    WalkEdge(layer, leftNode, widthNode, m, variant);
    WalkEdge(layer, rightNode, widthNode, m, variant);
    WalkFace(layer, leftNode, rightNode, widthNode, m, variant);
  }

  /** The up triangle of width step j: connectFace(prevWidthNode,
      widthNode, topNode), then connectEdge(widthNode, topNode) unless the
      edge filed under ObjectEdgeKey exists. */
  method UpTriangle(layer: Layer, prevWidthNode: Node, widthNode: Node, topNode: Node, m: Measures, variant: Variant)
    requires layer.links.Logged()
    modifies layer, prevWidthNode, widthNode, topNode
    ensures layer.nodesNear == old(layer.nodesNear) && layer.nodesFar == old(layer.nodesFar)
    ensures layer.links.faceLog == old(layer.links.faceLog) + [FaceKey(prevWidthNode.name, widthNode.name, topNode.name)]
    ensures layer.links.edgeLog == Once(old(layer.links.edgeLog), ObjectEdgeKey, EdgeKey(widthNode.name, topNode.name))
    ensures layer.links.Logged()
    ensures old(layer.links.Good(variant)) ==> layer.links.Good(variant)
  {
    WalkFace(layer, prevWidthNode, widthNode, topNode, m, variant);
    LoggedHasEdge(layer.links, ObjectEdgeKey);
    if !layer.links.HasEdge(ObjectEdgeKey) {
      WalkEdge(layer, widthNode, topNode, m, variant);
    }
  }

  /** The triangles of width step j of row bw once its point widthNode is
      in place: the up triangle, then the down one unless widthNode is on
      the edge a-c. */
  method Triangles(layer: Layer, t: Tri, key: NodeKeyFn, nv: nat, bw: nat, j: nat, widthNode: Node,
                   ghost objs: set<Node>, m: Measures, variant: Variant)
    requires layer.Valid() && j < bw && layer.Within(objs) && layer.links.Logged()
    requires layer.HasNode(Lat(t, key, nv, bw, j)) && layer.HasNode(Lat(t, key, nv, bw - 1, j))
    requires j + 1 < bw ==> layer.HasNode(Lat(t, key, nv, bw - 1, j + 1))
    requires widthNode in objs && widthNode.name == Lat(t, key, nv, bw, j + 1)
    modifies layer, objs
    ensures layer.nodesNear == old(layer.nodesNear) && layer.nodesFar == old(layer.nodesFar)
    ensures layer.links.faceLog == old(layer.links.faceLog) + StepFaces(t, key, nv, bw, j)
    ensures layer.links.edgeLog == TriangleEdges(old(layer.links.edgeLog), t, key, nv, bw, j)
    ensures layer.links.Logged()
    ensures old(layer.links.Good(variant)) ==> layer.links.Good(variant)
  {
    hide FaceKey, EdgeKey, Lat, Once;
    var prevWidthNode := layer.GetNode(Lat(t, key, nv, bw, j)).value;
    var topNode := layer.GetNode(Lat(t, key, nv, bw - 1, j)).value;
    UpTriangle(layer, prevWidthNode, widthNode, topNode, m, variant);
    if j + 1 < bw {
      DownTriangle(layer, t, key, nv, bw, j, widthNode, objs, m, variant);
    }
  }

  /** One round of the width loop in row bw, from point j to point j + 1:
      the point is created if absent and joined to the previous one, the
      up triangle is connected, then the down triangle unless the new point
      is on the edge a-c (bww = 0). */
  method WidthStep(layer: Layer, c: Corners, key: NodeKeyFn, nv: nat, bw: nat, j: nat, radius: real,
                   ghost objs: set<Node>, m: Measures, variant: Variant)
    returns (ghost objs': set<Node>)
    requires layer.Valid() && j < bw <= nv && layer.Within(objs)
    requires layer.HasNode(Lat(c.names, key, nv, bw, j)) && layer.HasNode(Lat(c.names, key, nv, bw - 1, j))
    requires j + 1 < bw ==> layer.HasNode(Lat(c.names, key, nv, bw - 1, j + 1))
    requires layer.links.Logged()
    modifies layer, objs
    ensures layer.Valid() && layer.Within(objs') && fresh(objs' - objs)
    ensures layer.NodeKeys() == old(layer.NodeKeys()) + {Lat(c.names, key, nv, bw, j + 1)}
    ensures old(layer.nodesNear.Keys) <= layer.nodesNear.Keys && old(layer.nodesFar.Keys) <= layer.nodesFar.Keys
    ensures layer.links.faceLog == old(layer.links.faceLog) + StepFaces(c.names, key, nv, bw, j)
    ensures layer.links.edgeLog == StepEdges(old(layer.links.edgeLog), c.names, key, nv, bw, j)
    ensures layer.links.Logged()
    ensures old(layer.links.Good(variant)) ==> layer.links.Good(variant)
  {
    hide FaceKey, EdgeKey, PlaceAt, StepFaces, TriangleEdges;
    var t := c.names;
    var widthNode;
    widthNode, objs' := Extend(layer, Lat(t, key, nv, bw, j), Lat(t, key, nv, bw, j + 1),
                               PlaceAt(c, m, (nv - bw) as real, (bw - j - 1) as real, (j + 1) as real, radius), true, objs, m, variant);
    Triangles(layer, t, key, nv, bw, j, widthNode, objs', m, variant);
  }

  /** A width step extends the row's points and faces by its own. */
  lemma WidthGrows(t: Tri, key: NodeKeyFn, nv: nat, d: nat, j: nat,
                   keys: set<string>, keys0: set<string>, keys1: set<string>,
                   log: seq<string>, log0: seq<string>, log1: seq<string>,
                   elog: seq<string>, elog0: seq<string>, elog1: seq<string>)
    requires d >= 1
    requires keys0 == keys + Row(t, key, nv, d, j) && keys1 == keys0 + {Lat(t, key, nv, d, j + 1)}
    requires log0 == log + RowFaces(t, key, nv, d, j) && log1 == log0 + StepFaces(t, key, nv, d, j)
    requires elog0 == RowEdges(elog, t, key, nv, d, j) && elog1 == StepEdges(elog0, t, key, nv, d, j)
    ensures keys1 == keys + Row(t, key, nv, d, j + 1)
    ensures log1 == log + RowFaces(t, key, nv, d, j + 1)
    ensures elog1 == RowEdges(elog, t, key, nv, d, j + 1)
  {
    hide StepEdges;
    assert log1 == log + (RowFaces(t, key, nv, d, j) + StepFaces(t, key, nv, d, j));
  }

  /** A depth step extends the walk's points and faces by its row's. */
  lemma DepthGrows(t: Tri, key: NodeKeyFn, nv: nat, bw: nat,
                   keys: set<string>, keys0: set<string>, keys1: set<string>,
                   log: seq<string>, log0: seq<string>, log1: seq<string>)
    requires keys0 == keys + Rows(t, key, nv, bw, bw) && keys1 == keys0 + Row(t, key, nv, bw + 1, bw + 1)
    requires log0 == log + WalkFaces(t, key, nv, bw) && log1 == log0 + RowFaces(t, key, nv, bw + 1, bw + 1)
    ensures keys1 == keys + Rows(t, key, nv, bw + 1, bw + 1)
    ensures log1 == log + WalkFaces(t, key, nv, bw + 1)
  {
    assert log1 == log + (WalkFaces(t, key, nv, bw) + RowFaces(t, key, nv, bw + 1, bw + 1));
  }

  /** Width step j of row p + 1 finds the points it joins: its previous
      point, and the points above it in row p. */
  lemma RoundNodes(layer: Layer, t: Tri, key: NodeKeyFn, nv: nat, p: nat, j: nat, keys: set<string>)
    requires j <= p && Row(t, key, nv, p, p) <= keys && layer.NodeKeys() == keys + Row(t, key, nv, p + 1, j)
    ensures layer.HasNode(Lat(t, key, nv, p + 1, j)) && layer.HasNode(Lat(t, key, nv, p, j))
    ensures j < p ==> layer.HasNode(Lat(t, key, nv, p, j + 1))
  {
    RowHas(t, key, nv, p + 1, j, j);
    RowHas(t, key, nv, p, p, j);
    KeyNamesNode(layer, Lat(t, key, nv, p + 1, j));
    KeyNamesNode(layer, Lat(t, key, nv, p, j));
    if j < p {
      RowHas(t, key, nv, p, p, j + 1);
      KeyNamesNode(layer, Lat(t, key, nv, p, j + 1));
    }
  }

  /** WidthStep on the loop's terms: the row so far grows by one point and
      the row's faces by the step's. */
  method WidthRound(layer: Layer, c: Corners, key: NodeKeyFn, nv: nat, p: nat, j: nat, radius: real,
                    ghost objs: set<Node>, ghost keys: set<string>, ghost log: seq<string>, ghost elog: seq<string>,
                    m: Measures, variant: Variant)
    returns (ghost objs': set<Node>)
    requires layer.Valid() && j <= p < nv && layer.Within(objs)
    requires Row(c.names, key, nv, p, p) <= keys
    requires layer.NodeKeys() == keys + Row(c.names, key, nv, p + 1, j)
    requires layer.links.faceLog == log + RowFaces(c.names, key, nv, p + 1, j)
    requires layer.links.edgeLog == RowEdges(elog, c.names, key, nv, p + 1, j) && layer.links.Logged()
    modifies layer, objs
    ensures layer.Valid() && layer.Within(objs') && fresh(objs' - objs)
    ensures layer.NodeKeys() == keys + Row(c.names, key, nv, p + 1, j + 1)
    ensures old(layer.nodesNear.Keys) <= layer.nodesNear.Keys && old(layer.nodesFar.Keys) <= layer.nodesFar.Keys
    ensures layer.links.faceLog == log + RowFaces(c.names, key, nv, p + 1, j + 1)
    ensures layer.links.edgeLog == RowEdges(elog, c.names, key, nv, p + 1, j + 1) && layer.links.Logged()
    ensures old(layer.links.Good(variant)) ==> layer.links.Good(variant)
  {
    hide *;
    var t := c.names;
    RoundNodes(layer, t, key, nv, p, j, keys);
    ghost var keys0, log0, elog0 := layer.NodeKeys(), layer.links.faceLog, layer.links.edgeLog;
    objs' := WidthStep(layer, c, key, nv, p + 1, j, radius, objs, m, variant);
    WidthGrows(t, key, nv, p + 1, j, keys, keys0, layer.NodeKeys(), log, log0, layer.links.faceLog,
               elog, elog0, layer.links.edgeLog);
  }

  /** The width loop of row bw + 1, after its first point: the row's
      points and faces are added one step at a time. */
  method WidthLoop(layer: Layer, c: Corners, key: NodeKeyFn, nv: nat, bw: nat, radius: real,
                   ghost objs: set<Node>, ghost keys: set<string>, ghost log: seq<string>, ghost elog: seq<string>,
                   m: Measures, variant: Variant)
    returns (ghost objs': set<Node>)
    requires layer.Valid() && bw < nv && layer.Within(objs)
    requires Row(c.names, key, nv, bw, bw) <= keys
    requires layer.NodeKeys() == keys + Row(c.names, key, nv, bw + 1, 0)
    requires layer.links.faceLog == log + RowFaces(c.names, key, nv, bw + 1, 0)
    requires layer.links.edgeLog == RowEdges(elog, c.names, key, nv, bw + 1, 0) && layer.links.Logged()
    modifies layer, objs
    ensures layer.Valid() && layer.Within(objs') && fresh(objs' - objs)
    ensures layer.NodeKeys() == keys + Row(c.names, key, nv, bw + 1, bw + 1)
    ensures old(layer.nodesNear.Keys) <= layer.nodesNear.Keys && old(layer.nodesFar.Keys) <= layer.nodesFar.Keys
    ensures layer.links.faceLog == log + RowFaces(c.names, key, nv, bw + 1, bw + 1)
    ensures layer.links.edgeLog == RowEdges(elog, c.names, key, nv, bw + 1, bw + 1) && layer.links.Logged()
    ensures old(layer.links.Good(variant)) ==> layer.links.Good(variant)
  {
    hide *;
    objs' := objs;
    var bww, cww := bw + 1, 0;
    while bww != 0
      invariant 0 <= bww <= bw + 1 && cww == bw + 1 - bww && layer.Valid()
      invariant layer.Within(objs') && fresh(objs' - objs)
      invariant layer.NodeKeys() == keys + Row(c.names, key, nv, bw + 1, cww)
      invariant layer.links.faceLog == log + RowFaces(c.names, key, nv, bw + 1, cww)
      invariant layer.links.edgeLog == RowEdges(elog, c.names, key, nv, bw + 1, cww) && layer.links.Logged()
      invariant old(layer.nodesNear.Keys) <= layer.nodesNear.Keys && old(layer.nodesFar.Keys) <= layer.nodesFar.Keys
      invariant old(layer.links.Good(variant)) ==> layer.links.Good(variant)
    {
      objs' := WidthRound(layer, c, key, nv, bw, cww, radius, objs', keys, log, elog, m, variant);
      bww, cww := bww - 1, cww + 1;
    }
    assert cww == bw + 1;
  }

  /** One round of the depth loop, from row bw to row bw + 1: the first
      point of the new row is created if absent and joined to the first
      point of the row before, then the width loop runs until bww is 0. */
  method DepthStep(layer: Layer, c: Corners, key: NodeKeyFn, nv: nat, bw: nat, radius: real,
                   ghost objs: set<Node>, m: Measures, variant: Variant)
    returns (ghost objs': set<Node>)
    requires layer.Valid() && bw < nv && layer.Within(objs)
    requires Row(c.names, key, nv, bw, bw) <= layer.NodeKeys() && layer.links.Logged()
    modifies layer, objs
    ensures layer.Valid() && layer.Within(objs') && fresh(objs' - objs)
    ensures layer.NodeKeys() == old(layer.NodeKeys()) + Row(c.names, key, nv, bw + 1, bw + 1)
    ensures old(layer.nodesNear.Keys) <= layer.nodesNear.Keys && old(layer.nodesFar.Keys) <= layer.nodesFar.Keys
    ensures layer.links.faceLog == old(layer.links.faceLog) + RowFaces(c.names, key, nv, bw + 1, bw + 1)
    ensures layer.links.edgeLog
         == RowEdges(DepthEdge(old(layer.links.edgeLog), c.names, key, nv, bw + 1), c.names, key, nv, bw + 1, bw + 1)
    ensures layer.links.Logged()
    ensures old(layer.links.Good(variant)) ==> layer.links.Good(variant)
  {
    hide FaceKey, EdgeKey, PlaceAt, Once, StepEdges, StepFaces;
    var t := c.names;
    RowHas(t, key, nv, bw, bw, 0);
    var depthNode, objs1 := Extend(layer, Lat(t, key, nv, bw, 0), Lat(t, key, nv, bw + 1, 0),
                                   PlaceAt(c, m, (nv - bw - 1) as real, (bw + 1) as real, 0.0, radius), false, objs, m, variant);
    assert layer.links.faceLog == old(layer.links.faceLog) + RowFaces(t, key, nv, bw + 1, 0);
    ghost var elog := DepthEdge(old(layer.links.edgeLog), t, key, nv, bw + 1);
    assert layer.links.edgeLog == RowEdges(elog, t, key, nv, bw + 1, 0);
    objs' := WidthLoop(layer, c, key, nv, bw, radius, objs1, old(layer.NodeKeys()), old(layer.links.faceLog), elog, m, variant);
  }

  /** DepthStep on the loop's terms: the rows so far grow by row bw + 1
      and the walk's faces by that row's. */
  method DepthRound(layer: Layer, c: Corners, key: NodeKeyFn, nv: nat, bw: nat, radius: real,
                    ghost objs: set<Node>, ghost keys: set<string>, ghost log: seq<string>, ghost elog: seq<string>,
                    m: Measures, variant: Variant)
    returns (ghost objs': set<Node>)
    requires layer.Valid() && bw < nv && layer.Within(objs)
    requires layer.NodeKeys() == keys + Rows(c.names, key, nv, bw, bw)
    requires layer.links.faceLog == log + WalkFaces(c.names, key, nv, bw)
    requires layer.links.edgeLog == WalkEdges(elog, c.names, key, nv, bw) && layer.links.Logged()
    modifies layer, objs
    ensures layer.Valid() && layer.Within(objs') && fresh(objs' - objs)
    ensures layer.NodeKeys() == keys + Rows(c.names, key, nv, bw + 1, bw + 1)
    ensures old(layer.nodesNear.Keys) <= layer.nodesNear.Keys && old(layer.nodesFar.Keys) <= layer.nodesFar.Keys
    ensures layer.links.faceLog == log + WalkFaces(c.names, key, nv, bw + 1)
    ensures layer.links.edgeLog == WalkEdges(elog, c.names, key, nv, bw + 1) && layer.links.Logged()
    ensures old(layer.links.Good(variant)) ==> layer.links.Good(variant)
  {
    var t := c.names;
    ghost var keys0, log0 := layer.NodeKeys(), layer.links.faceLog;
    objs' := DepthStep(layer, c, key, nv, bw, radius, objs, m, variant);
    DepthGrows(t, key, nv, bw, keys, keys0, layer.NodeKeys(), log, log0, layer.links.faceLog);
  }

  /** The depth loop `while (bw < nv)` over one face, from row 0, the
      corner a, to row nv: one row per round. */
  method DepthLoop(layer: Layer, c: Corners, key: NodeKeyFn, nv: nat, radius: real,
                   ghost objs: set<Node>, ghost keys: set<string>, ghost log: seq<string>, ghost elog: seq<string>,
                   m: Measures, variant: Variant)
    returns (ghost objs': set<Node>)
    requires layer.Valid() && layer.Within(objs)
    requires layer.NodeKeys() == keys + Rows(c.names, key, nv, 0, 0)
    requires layer.links.faceLog == log + WalkFaces(c.names, key, nv, 0)
    requires layer.links.edgeLog == WalkEdges(elog, c.names, key, nv, 0) && layer.links.Logged()
    modifies layer, objs
    ensures layer.Valid() && layer.Within(objs') && fresh(objs' - objs)
    ensures layer.NodeKeys() == keys + Rows(c.names, key, nv, nv, nv)
    ensures old(layer.nodesNear.Keys) <= layer.nodesNear.Keys && old(layer.nodesFar.Keys) <= layer.nodesFar.Keys
    ensures layer.links.faceLog == log + WalkFaces(c.names, key, nv, nv)
    ensures layer.links.edgeLog == WalkEdges(elog, c.names, key, nv, nv) && layer.links.Logged()
    ensures old(layer.links.Good(variant)) ==> layer.links.Good(variant)
  {
    hide *;
    objs' := objs;
    var aw, bw, cw := nv, 0, 0;
    while bw < nv
      invariant bw <= nv && aw == nv - bw && cw == 0
      invariant layer.Valid() && layer.Within(objs') && fresh(objs' - objs)
      invariant layer.NodeKeys() == keys + Rows(c.names, key, nv, bw, bw)
      invariant layer.links.faceLog == log + WalkFaces(c.names, key, nv, bw)
      invariant layer.links.edgeLog == WalkEdges(elog, c.names, key, nv, bw) && layer.links.Logged()
      invariant old(layer.nodesNear.Keys) <= layer.nodesNear.Keys && old(layer.nodesFar.Keys) <= layer.nodesFar.Keys
      invariant old(layer.links.Good(variant)) ==> layer.links.Good(variant)
    {
      objs' := DepthRound(layer, c, key, nv, bw, radius, objs', keys, log, elog, m, variant);
      aw, bw := aw - 1, bw + 1;
    }
    assert bw == nv;
  }

  /** The walk over one face of the previous layer, starting from the
      corner a = generateNodeKey(a, b, c, nv, 0, 0). */
  method ClassIFace(layer: Layer, c: Corners, key: NodeKeyFn, nv: nat, radius: real,
                    ghost objs: set<Node>, m: Measures, variant: Variant)
    returns (ghost objs': set<Node>)
    requires layer.Valid() && NamesCorners(key) && layer.HasNode(c.names.a) && layer.Within(objs)
    requires layer.links.Logged()
    modifies layer, objs
    ensures layer.Valid() && layer.Within(objs') && fresh(objs' - objs)
    ensures layer.NodeKeys() == old(layer.NodeKeys()) + (if nv == 0 then {} else Rows(c.names, key, nv, nv, nv))
    ensures old(layer.nodesNear.Keys) <= layer.nodesNear.Keys && old(layer.nodesFar.Keys) <= layer.nodesFar.Keys
    ensures layer.links.faceLog == old(layer.links.faceLog) + WalkFaces(c.names, key, nv, nv)
    ensures layer.links.edgeLog == WalkEdges(old(layer.links.edgeLog), c.names, key, nv, nv) && layer.links.Logged()
    ensures old(layer.links.Good(variant)) ==> layer.links.Good(variant)
  {
    objs' := objs;
    if nv == 0 {
      return;
    }
    RowsStart(c.names, key, nv);
    objs' := DepthLoop(layer, c, key, nv, radius, objs, old(layer.NodeKeys()), old(layer.links.faceLog),
                       old(layer.links.edgeLog), m, variant);
  }

  /** the face keys of the walks over the faces, one face after another */
  function LayerFaces(faces: seq<Face>, key: NodeKeyFn, nv: nat): seq<string>
    requires forall i :: 0 <= i < |faces| ==> |faces[i].nodes| >= 3
  {
    if |faces| == 0 then []
    else LayerFaces(faces[..|faces| - 1], key, nv) + WalkFaces(NamesOf(faces[|faces| - 1]), key, nv, nv)
  }

  /** the edge log of the walks over the faces, one face after another,
      from a layer with no edges */
  function LayerEdges(faces: seq<Face>, key: NodeKeyFn, nv: nat): seq<string>
    requires forall i :: 0 <= i < |faces| ==> |faces[i].nodes| >= 3
  {
    if |faces| == 0 then []
    else WalkEdges(LayerEdges(faces[..|faces| - 1], key, nv), NamesOf(faces[|faces| - 1]), key, nv, nv)
  }

  /** the lattice points of the walks over the faces */
  ghost function LayerPoints(faces: seq<Face>, key: NodeKeyFn, nv: nat): set<string>
    requires forall i :: 0 <= i < |faces| ==> |faces[i].nodes| >= 3
  {
    if |faces| == 0 || nv == 0 then {}
    else LayerPoints(faces[..|faces| - 1], key, nv) + Rows(NamesOf(faces[|faces| - 1]), key, nv, nv, nv)
  }

  lemma MulSucc(n: nat, q: nat)
    ensures (n + 1) * q == n * q + q
  {
  }

  /** A Class I layer of frequency nv connects nv * nv faces per face of
      the previous layer. */
  lemma {:induction false} LayerFacesCount(faces: seq<Face>, key: NodeKeyFn, nv: nat)
    requires forall i :: 0 <= i < |faces| ==> |faces[i].nodes| >= 3
    ensures |LayerFaces(faces, key, nv)| == |faces| * (nv * nv)
  {
    if |faces| > 0 {
      LayerFacesCount(faces[..|faces| - 1], key, nv);
      WalkFacesCount(NamesOf(faces[|faces| - 1]), key, nv, nv);
      MulSucc(|faces| - 1, nv * nv);
    }
  }

  /** The edges of the triangles of width step j of row bw join points
      of the rows so far. */
  lemma TriangleEdgesJoin(log: seq<string>, t: Tri, key: NodeKeyFn, nv: nat, bw: nat, j: nat, pts: set<string>)
    requires j < bw && Lat(t, key, nv, bw, j + 1) in pts
    requires Lat(t, key, nv, bw - 1, j) in pts && (j + 1 < bw ==> Lat(t, key, nv, bw - 1, j + 1) in pts)
    ensures Elements(TriangleEdges(log, t, key, nv, bw, j)) <= Elements(log) + Joining(pts)
  {
    var width, top := Lat(t, key, nv, bw, j + 1), Lat(t, key, nv, bw - 1, j);
    var log1 := Once(log, ObjectEdgeKey, EdgeKey(width, top));
    OnceElements(log, ObjectEdgeKey, EdgeKey(width, top));
    JoiningHas(width, top, pts);
    assert Elements(log1) <= Elements(log) + Joining(pts);
    if j + 1 < bw {
      var right := Lat(t, key, nv, bw - 1, j + 1);
      var log2 := log1 + [EdgeKey(top, width)];
      assert TriangleEdges(log, t, key, nv, bw, j) == log2 + [EdgeKey(right, width)];
      hide *;
      JoiningHas(top, width, pts);
      JoiningHas(right, width, pts);
      ElementsAppend(log1, EdgeKey(top, width));
      ElementsAppend(log2, EdgeKey(right, width));
    }
  }

  /** The edges of width step j of row bw join points of the rows so far. */
  lemma StepEdgesJoin(log: seq<string>, t: Tri, key: NodeKeyFn, nv: nat, bw: nat, j: nat, pts: set<string>)
    requires j < bw && Lat(t, key, nv, bw, j) in pts && Lat(t, key, nv, bw, j + 1) in pts
    requires Lat(t, key, nv, bw - 1, j) in pts && (j + 1 < bw ==> Lat(t, key, nv, bw - 1, j + 1) in pts)
    ensures Elements(StepEdges(log, t, key, nv, bw, j)) <= Elements(log) + Joining(pts)
  {
    var k := EdgeKey(Lat(t, key, nv, bw, j), Lat(t, key, nv, bw, j + 1));
    assert StepEdges(log, t, key, nv, bw, j) == TriangleEdges(Once(log, k, k), t, key, nv, bw, j);
    hide *;
    OnceElements(log, k, k);
    JoiningHas(Lat(t, key, nv, bw, j), Lat(t, key, nv, bw, j + 1), pts);
    TriangleEdgesJoin(Once(log, k, k), t, key, nv, bw, j, pts);
  }

  /** The first n width steps of row bw connect only edges between points
      of the rows so far. */
  lemma {:induction false} RowEdgesJoin(log: seq<string>, t: Tri, key: NodeKeyFn, nv: nat, bw: nat, n: nat, pts: set<string>)
    requires 1 <= bw && n <= bw && Rows(t, key, nv, bw, n) <= pts
    ensures Elements(RowEdges(log, t, key, nv, bw, n)) <= Elements(log) + Joining(pts)
  {
    if n > 0 {
      var j := n - 1;
      assert Rows(t, key, nv, bw, j) <= pts by {
        assert Rows(t, key, nv, bw, j) <= Rows(t, key, nv, bw, n);
      }
      assert Lat(t, key, nv, bw, j) in pts && Lat(t, key, nv, bw, n) in pts && Lat(t, key, nv, bw - 1, j) in pts
             && (j + 1 < bw ==> Lat(t, key, nv, bw - 1, j + 1) in pts) by {
        assert Row(t, key, nv, bw - 1, bw - 1) <= Rows(t, key, nv, bw, n);
        assert Row(t, key, nv, bw, n) <= Rows(t, key, nv, bw, n);
        RowHas(t, key, nv, bw, n, j);
        RowHas(t, key, nv, bw, n, n);
        RowHas(t, key, nv, bw - 1, bw - 1, j);
        if j + 1 < bw {
          RowHas(t, key, nv, bw - 1, bw - 1, j + 1);
        }
      }
      hide Rows, Row, Lat, StepEdges, Joining, Elements, EdgeKey;
      RowEdgesJoin(log, t, key, nv, bw, j, pts);
      StepEdgesJoin(RowEdges(log, t, key, nv, bw, j), t, key, nv, bw, j, pts);
    }
  }

  /** The rows of depth step n hold the rows before it and the first
      points of rows n - 1 and n. */
  lemma DepthRowsIn(t: Tri, key: NodeKeyFn, nv: nat, n: nat, pts: set<string>)
    requires n > 0 && Rows(t, key, nv, n, n) <= pts
    ensures Rows(t, key, nv, n - 1, n - 1) <= pts
    ensures Lat(t, key, nv, n - 1, 0) in pts && Lat(t, key, nv, n, 0) in pts
  {
    assert Row(t, key, nv, n - 1, n - 1) <= Rows(t, key, nv, n - 1, n - 1);
    RowHas(t, key, nv, n - 1, n - 1, 0);
    RowHas(t, key, nv, n, n, 0);
  }

  /** Depth step n and its row connect only edges between points of the
      rows so far. */
  lemma DepthEdgesJoin(log: seq<string>, t: Tri, key: NodeKeyFn, nv: nat, n: nat, pts: set<string>)
    requires n > 0 && Rows(t, key, nv, n, n) <= pts
    ensures Elements(WalkEdges(log, t, key, nv, n)) <= Elements(WalkEdges(log, t, key, nv, n - 1)) + Joining(pts)
  {
    var before := WalkEdges(log, t, key, nv, n - 1);
    var from, to := Lat(t, key, nv, n - 1, 0), Lat(t, key, nv, n, 0);
    var mid := Once(before, EdgeKey(from, to), EdgeKey(from, to));
    assert WalkEdges(log, t, key, nv, n) == RowEdges(mid, t, key, nv, n, n);
    DepthRowsIn(t, key, nv, n, pts);
    hide *;
    JoiningHas(from, to, pts);
    OnceElements(before, EdgeKey(from, to), EdgeKey(from, to));
    RowEdgesJoin(mid, t, key, nv, n, n, pts);
  }

  /** The first n depth steps of a walk connect only edges between its
      lattice points. */
  lemma {:induction false} WalkEdgesJoin(log: seq<string>, t: Tri, key: NodeKeyFn, nv: nat, n: nat, pts: set<string>)
    requires Rows(t, key, nv, n, n) <= pts
    ensures Elements(WalkEdges(log, t, key, nv, n)) <= Elements(log) + Joining(pts)
  {
    if n > 0 {
      DepthRowsIn(t, key, nv, n, pts);
      WalkEdgesJoin(log, t, key, nv, n - 1, pts);
      DepthEdgesJoin(log, t, key, nv, n, pts);
    }
  }

  /** Every edge a Class I layer connects joins two of the lattice points
      of its walks. */
  lemma {:induction false} LayerEdgesJoin(faces: seq<Face>, key: NodeKeyFn, nv: nat)
    requires forall i :: 0 <= i < |faces| ==> |faces[i].nodes| >= 3
    ensures Elements(LayerEdges(faces, key, nv)) <= Joining(LayerPoints(faces, key, nv))
  {
    if |faces| > 0 {
      var init := faces[..|faces| - 1];
      LayerEdgesJoin(init, key, nv);
      if nv > 0 {
        JoiningGrows(LayerPoints(init, key, nv), LayerPoints(faces, key, nv));
        WalkEdgesJoin(LayerEdges(init, key, nv), NamesOf(faces[|faces| - 1]), key, nv, nv, LayerPoints(faces, key, nv));
      }
    }
  }

  /** A walk over face i extends the points and faces of the walks before
      it by its own. */
  lemma LayerGrows(faces: seq<Face>, i: nat, key: NodeKeyFn, nv: nat,
                   keys: set<string>, keys0: set<string>, keys1: set<string>,
                   log: seq<string>, log0: seq<string>, log1: seq<string>, elog0: seq<string>, elog1: seq<string>)
    requires i < |faces| && forall j :: 0 <= j <= i ==> |faces[j].nodes| >= 3
    requires keys0 == keys + LayerPoints(faces[..i], key, nv)
    requires keys1 == keys0 + (if nv == 0 then {} else Rows(NamesOf(faces[i]), key, nv, nv, nv))
    requires log0 == log + LayerFaces(faces[..i], key, nv) && log1 == log0 + WalkFaces(NamesOf(faces[i]), key, nv, nv)
    requires elog0 == LayerEdges(faces[..i], key, nv) && elog1 == WalkEdges(elog0, NamesOf(faces[i]), key, nv, nv)
    ensures keys1 == keys + LayerPoints(faces[..i + 1], key, nv)
    ensures log1 == log + LayerFaces(faces[..i + 1], key, nv)
    ensures elog1 == LayerEdges(faces[..i + 1], key, nv)
  {
    hide WalkEdges;
    assert faces[..i + 1][..i] == faces[..i];
    LogGrows(log, LayerFaces(faces[..i], key, nv), WalkFaces(NamesOf(faces[i]), key, nv, nv));
  }

  /** The walk over face i of the list, given its corners. */
  method LayerWalk(layer: Layer, faces: seq<Face>, i: nat, c: Corners, key: NodeKeyFn, nv: nat, radius: real,
                   ghost objs: set<Node>, ghost keys: set<string>, ghost log: seq<string>, m: Measures, variant: Variant)
    returns (ghost objs': set<Node>)
    requires layer.Valid() && layer.Within(objs) && NamesCorners(key)
    requires i < |faces| && (forall j :: 0 <= j <= i ==> |faces[j].nodes| >= 3) && c.names == NamesOf(faces[i])
    requires layer.HasNode(c.names.a)
    requires layer.NodeKeys() == keys + LayerPoints(faces[..i], key, nv)
    requires layer.links.faceLog == log + LayerFaces(faces[..i], key, nv)
    requires layer.links.edgeLog == LayerEdges(faces[..i], key, nv) && layer.links.Logged()
    modifies layer, objs
    ensures layer.Valid() && layer.Within(objs') && fresh(objs' - objs)
    ensures layer.NodeKeys() == keys + LayerPoints(faces[..i + 1], key, nv)
    ensures old(layer.nodesNear.Keys) <= layer.nodesNear.Keys && old(layer.nodesFar.Keys) <= layer.nodesFar.Keys
    ensures layer.links.faceLog == log + LayerFaces(faces[..i + 1], key, nv)
    ensures layer.links.edgeLog == LayerEdges(faces[..i + 1], key, nv) && layer.links.Logged()
    ensures old(layer.links.Good(variant)) ==> layer.links.Good(variant)
  {
    ghost var keys0, log0, elog0 := layer.NodeKeys(), layer.links.faceLog, layer.links.edgeLog;
    objs' := ClassIFace(layer, c, key, nv, radius, objs, m, variant);
    LayerGrows(faces, i, key, nv, keys, keys0, layer.NodeKeys(), log, log0, layer.links.faceLog,
               elog0, layer.links.edgeLog);
  }

  /** One face of the previous layer: its corners are looked up, and the
      walk over it runs when all three exist. */
  method LayerRound(prev: Layer, layer: Layer, faces: seq<Face>, i: nat, key: NodeKeyFn, nv: nat, radius: real,
                    ghost objs: set<Node>, ghost keys: set<string>, ghost log: seq<string>, m: Measures, variant: Variant)
    returns (corners: Result<Corners>, ghost objs': set<Node>)
    requires prev.Valid() && layer.Valid() && layer.Within(objs) && NamesCorners(key) && prev != layer
    requires i < |faces| && AllReady(prev, faces[..i]) && prev.NodeKeys() <= keys && Carried(prev, layer)
    requires layer.NodeKeys() == keys + LayerPoints(faces[..i], key, nv)
    requires layer.links.faceLog == log + LayerFaces(faces[..i], key, nv)
    requires layer.links.edgeLog == LayerEdges(faces[..i], key, nv) && layer.links.Logged()
    modifies layer, objs
    ensures corners.Success? <==> Ready(prev, faces[i])
    ensures corners.Success? ==>
              AllReady(prev, faces[..i + 1]) && layer.Valid() && layer.Within(objs') && fresh(objs' - objs)
              && layer.NodeKeys() == keys + LayerPoints(faces[..i + 1], key, nv) && Carried(prev, layer)
              && layer.links.faceLog == log + LayerFaces(faces[..i + 1], key, nv)
              && layer.links.edgeLog == LayerEdges(faces[..i + 1], key, nv) && layer.links.Logged()
    ensures old(layer.links.Good(variant)) ==> layer.links.Good(variant)
  {
    hide LayerPoints, LayerFaces, LayerEdges, WalkEdges, WalkFaces, Rows, Layer.Valid, Layer.Within;
    objs' := objs;
    corners := FaceCorners(prev, faces[i]);
    if corners.Failure? {
      return;
    }
    ReadyGrows(prev, faces, i);
    objs' := LayerWalk(layer, faces, i, corners.value, key, nv, radius, objs, keys, log, m, variant);
  }

  /** The state of the face loop after the walks over the first i faces:
      they were all ready, and the layer holds prev's nodes, each in its
      map, and the walks' points, with the walks' faces and edges logged. */
  ghost predicate Walked(prev: Layer, layer: Layer, faces: seq<Face>, i: nat, key: NodeKeyFn, nv: nat)
    reads prev, layer
    requires i <= |faces|
  {
    && AllReady(prev, faces[..i]) && layer.Valid() && Carried(prev, layer)
    && layer.NodeKeys() == prev.NodeKeys() + LayerPoints(faces[..i], key, nv)
    && layer.links.faceLog == LayerFaces(faces[..i], key, nv)
    && layer.links.edgeLog == LayerEdges(faces[..i], key, nv) && layer.links.Logged()
  }

  /** LayerRound on the loop's terms. */
  method LayerStep(prev: Layer, layer: Layer, faces: seq<Face>, i: nat, key: NodeKeyFn, nv: nat, radius: real,
                   ghost objs: set<Node>, m: Measures, variant: Variant)
    returns (corners: Result<Corners>, ghost objs': set<Node>)
    requires prev.Valid() && layer.Within(objs) && NamesCorners(key) && prev != layer
    requires i < |faces| && Walked(prev, layer, faces, i, key, nv)
    modifies layer, objs
    ensures corners.Success? <==> Ready(prev, faces[i])
    ensures corners.Success? ==> Walked(prev, layer, faces, i + 1, key, nv) && layer.Within(objs') && fresh(objs' - objs)
    ensures old(layer.links.Good(variant)) ==> layer.links.Good(variant)
  {
    hide LayerPoints, LayerFaces, LayerEdges, WalkEdges, WalkFaces, Rows, NamesOf, SortNames,
         Layer.Valid, Layer.Within, Carried, Links.Logged, Links.Good, AllReady, Ready;
    corners, objs' := LayerRound(prev, layer, faces, i, key, nv, radius, objs, prev.NodeKeys(), [], m, variant);
  }

  /** The loop state after every face gives the layer's contents. */
  lemma WalkedAll(prev: Layer, layer: Layer, faces: seq<Face>, key: NodeKeyFn, nv: nat)
    requires Walked(prev, layer, faces, |faces|, key, nv)
    ensures AllReady(prev, faces) && layer.Valid() && Carried(prev, layer)
    ensures layer.NodeKeys() == prev.NodeKeys() + LayerPoints(faces, key, nv)
    ensures layer.links.faceLog == LayerFaces(faces, key, nv)
    ensures layer.links.edgeLog == LayerEdges(faces, key, nv) && layer.links.Logged()
  {
    assert faces[..|faces|] == faces;
  }

  /** The loop over the faces of the previous layer: the walk over each
      face in turn, until a face whose corners are not all nodes of `prev`. */
  method LayerLoop(prev: Layer, layer: Layer, faces: seq<Face>, key: NodeKeyFn, nv: nat, radius: real,
                   ghost objs: set<Node>, m: Measures, variant: Variant)
    returns (r: Result<Layer>)
    requires prev.Valid() && layer.Valid() && layer.Within(objs) && NamesCorners(key) && prev != layer
    requires layer.NodeKeys() == prev.NodeKeys() && Carried(prev, layer)
    requires layer.links.faceLog == [] && layer.links.edgeLog == [] && layer.links.Logged()
    modifies layer, objs
    ensures r.Success? <==> AllReady(prev, faces)
    ensures r.Success? ==>
              r.value == layer && layer.Valid() && Carried(prev, layer)
              && layer.NodeKeys() == prev.NodeKeys() + LayerPoints(faces, key, nv)
              && layer.links.faceLog == LayerFaces(faces, key, nv)
              && layer.links.edgeLog == LayerEdges(faces, key, nv) && layer.links.Logged()
    ensures old(layer.links.Good(variant)) ==> layer.links.Good(variant)
  {
    ghost var objs' := objs;
    var i := 0;
    assert LayerPoints(faces[..0], key, nv) == {} && LayerFaces(faces[..0], key, nv) == [];
    assert LayerEdges(faces[..0], key, nv) == [];
    assert Walked(prev, layer, faces, 0, key, nv);
    hide Walked, Links.Good;
    while i < |faces|
      invariant i <= |faces| && Walked(prev, layer, faces, i, key, nv) && layer.Within(objs') && fresh(objs' - objs)
      invariant old(layer.links.Good(variant)) ==> layer.links.Good(variant)
    {
      var corners;
      corners, objs' := LayerStep(prev, layer, faces, i, key, nv, radius, objs', m, variant);
      if corners.Failure? {
        NotAllReady(prev, faces, i);
        return Failure(corners.error);
      }
      i := i + 1;
    }
    WalkedAll(prev, layer, faces, key, nv);
    r := Success(layer);
  }

  /** A layer that carries prev's nodes and the walks' points, with the
      walks' edges logged, stores only edges between two of its nodes. */
  lemma LayerJoins(prev: Layer, layer: Layer, faces: seq<Face>, key: NodeKeyFn, nv: nat)
    requires AllReady(prev, faces) && layer.links.Logged()
    requires layer.NodeKeys() == prev.NodeKeys() + LayerPoints(faces, key, nv)
    requires layer.links.edgeLog == LayerEdges(faces, key, nv)
    ensures layer.links.EdgeKeys() <= Joining(layer.NodeKeys())
  {
    LayerEdgesJoin(faces, key, nv);
    JoiningGrows(LayerPoints(faces, key, nv), layer.NodeKeys());
  }

  /** classILayer: a fresh layer carrying the nodes of `prev`, then the
      walk over every face of `prev` in the order its face maps list them.
      The walk fails at the first face whose corners are not all nodes of
      `prev`, where reading a corner's name would throw. The Modular copy
      returns the edge map's 'maxEdgeLength' entry; the Monolithic copy
      returns no maximum. */
  method ClassILayer(prev: Layer, options: BuildOptions, frequency: (nat, nat), key: NodeKeyFn,
                     m: Measures, variant: Variant)
    returns (r: Result<Layer>, maxEdgeLength: Option<ExtReal>)
    requires prev.Valid() && NamesCorners(key)
    ensures r.Success? <==> AllReady(prev, OrderedFaces(prev.links))
    ensures r.Success? ==>
              var faces, nv := OrderedFaces(prev.links), frequency.0 + frequency.1;
              fresh(r.value) && r.value.Valid() && Carried(prev, r.value)
              && r.value.NodeKeys() == prev.NodeKeys() + LayerPoints(faces, key, nv)
              && r.value.links.faceLog == LayerFaces(faces, key, nv)
              && r.value.links.edgeLog == LayerEdges(faces, key, nv) && r.value.links.Logged()
    ensures r.Success? ==> r.value.links.EdgeKeys() <= Joining(r.value.NodeKeys())
    ensures maxEdgeLength == (if r.Success? && variant == Modular then r.value.links.maxEntry else None)
    ensures r.Success? ==> r.value.links.Good(variant)
    ensures r.Success? && variant == Modular ==>
              maxEdgeLength.Some? && Covered(r.value.links.edgesNear, maxEdgeLength.value)
              && Covered(r.value.links.edgesFar, maxEdgeLength.value)
  {
    var layer := new Layer.CarryOver(prev, variant);
    ghost var objs := layer.NodeObjects();
    r := LayerLoop(prev, layer, OrderedFaces(prev.links), key, frequency.0 + frequency.1, Radius(options), objs, m, variant);
    maxEdgeLength := if r.Success? && variant == Modular then layer.links.maxEntry else None;
    if r.Success? {
      LayerJoins(prev, layer, OrderedFaces(prev.links), key, frequency.0 + frequency.1);
    }
  }
}
