/** The base solids of scripts/baseShapes.js (Modular) and of
    scripts/geodesic.js:23-240 (Monolithic): nodes named "a", "b", ... are
    created one by one, joined to the nodes already inserted with
    connectEdge/connectFace, and then inserted into the near or far map. */
module BaseShapes {
  import opened Wrappers
  import opened Keys
  import opened Geometry
  import opened Structures
  import opened Colours
  import opened Layers
  import opened Connections

  /** the i-th lower-case letter, the one character of numToChar(i) */
  function Letter(i: nat): char
    requires i < 26
  {
    (97 + i) as char
  }

  /** the key "x-y-z" of three letters given in increasing order */
  function Spell3(a: nat, b: nat, c: nat): string
    requires a < b < c < 26
  {
    [Letter(a), '-', Letter(b), '-', Letter(c)]
  }

  /** The key of the edge between the i-th and the j-th node, spelled out:
      the smaller letter first. */
  function LetterEdge(i: nat, j: nat): string
    requires i < 26 && j < 26 && i != j
  {
    if i < j then [Letter(i), '-', Letter(j)] else [Letter(j), '-', Letter(i)]
  }

  /** The spelled key is generateEdgeKey(numToChar(i), numToChar(j)). */
  lemma LetterEdgeIsKey(i: nat, j: nat)
    requires i < 26 && j < 26 && i != j
    ensures LetterEdge(i, j) == EdgeKey(NumToChar(i), NumToChar(j))
  {
    if i < j {
      EdgeKeyOfLetters(Letter(i), Letter(j));
    } else {
      EdgeKeyOfLetters(Letter(j), Letter(i));
    }
  }

  /** Letters a < b < c given highest first, the order in which the
      tetrahedron's loops name a face, spell the key generateFaceKey builds. */
  lemma Spell3Descending(a: nat, b: nat, c: nat)
    requires a < b < c < 26
    ensures FaceKey(NumToChar(c), NumToChar(b), NumToChar(a)) == Spell3(a, b, c)
  {
    FaceKeyOfLetters(Letter(a), Letter(b), Letter(c), NumToChar(c), NumToChar(b), NumToChar(a));
  }

  /** The same for the highest letter first and the others in increasing
      order, the order of the octahedron's and icosahedron's faces. */
  lemma Spell3HighFirst(a: nat, b: nat, c: nat)
    requires a < b < c < 26
    ensures FaceKey(NumToChar(c), NumToChar(a), NumToChar(b)) == Spell3(a, b, c)
  {
    FaceKeyOfLetters(Letter(a), Letter(b), Letter(c), NumToChar(c), NumToChar(a), NumToChar(b));
  }

  /** the names of the first n nodes */
  ghost function Letters(n: nat): set<string>
    requires n <= 26
  {
    set t: nat | t < n :: NumToChar(t)
  }

  lemma LettersNext(n: nat)
    requires n < 26
    ensures Letters(n + 1) == Letters(n) + {NumToChar(n)}
    ensures NumToChar(n) !in Letters(n)
  {
    forall t: nat | t < n ensures NumToChar(t) != NumToChar(n) {
      NumToCharInjective(t, n);
    }
  }

  lemma InLetters(t: nat, n: nat)
    requires t < n <= 26
    ensures NumToChar(t) in Letters(n)
  {
  }

  /** The node maps of a base solid while it is built: nodes[t] is named by
      the t-th letter and filed under it in the near map when its corner
      ps[t] is near and in the far map otherwise, and the maps hold nothing
      else. */
  ghost predicate Filed(near: map<string, Node>, far: map<string, Node>, nodes: seq<Node>, ps: seq<Point>)
    requires |nodes| <= |ps| <= 26
  {
    near.Keys !! far.Keys && near.Keys + far.Keys == Letters(|nodes|)
    && forall t :: 0 <= t < |nodes| ==>
         nodes[t].name == NumToChar(t)
         && if IsNear([ps[t].z]) then NumToChar(t) in near && near[NumToChar(t)] == nodes[t]
            else NumToChar(t) in far && far[NumToChar(t)] == nodes[t]
  }

  /** getNode(nodes, numToChar(t)) finds the t-th node. */
  lemma FiledLookup(layer: Layer, nodes: seq<Node>, ps: seq<Point>, t: nat)
    requires |nodes| <= |ps| <= 26 && Filed(layer.nodesNear, layer.nodesFar, nodes, ps) && t < |nodes|
    ensures layer.GetNode(NumToChar(t)) == Some(nodes[t])
  {
  }

  /** Filing node i, named by the i-th letter, under its name in the near
      map when its corner ps[i] is near and in the far map otherwise keeps
      the maps filed. */
  lemma FiledGrows(near: map<string, Node>, far: map<string, Node>, nodes: seq<Node>, ps: seq<Point>, node: Node)
    requires |nodes| < |ps| <= 26 && Filed(near, far, nodes, ps) && node.name == NumToChar(|nodes|)
    ensures IsNear([ps[|nodes|].z]) ==> Filed(near[node.name := node], far, nodes + [node], ps)
    ensures !IsNear([ps[|nodes|].z]) ==> Filed(near, far[node.name := node], nodes + [node], ps)
  {
    var i := |nodes|;
    LettersNext(i);
    var nodes' := nodes + [node];
    var near', far' := if IsNear([ps[i].z]) then near[node.name := node] else near,
                       if IsNear([ps[i].z]) then far else far[node.name := node];
    forall t | 0 <= t < i
      ensures if IsNear([ps[t].z]) then NumToChar(t) in near' && near'[NumToChar(t)] == nodes'[t]
              else NumToChar(t) in far' && far'[NumToChar(t)] == nodes'[t]
    {
      NumToCharInjective(t, i);
    }
    assert Filed(near', far', nodes', ps);
  }

  /** `nodes[isNear([node.z]) ? 'near' : 'far'].set(node.name, node)` at the
      end of each round of a base generator, for node i at ps[i]. */
  method InsertLetter(layer: Layer, node: Node, ghost nodes: seq<Node>, ps: seq<Point>)
    returns (ghost nodes': seq<Node>)
    requires |nodes| < |ps| <= 26 && Filed(layer.nodesNear, layer.nodesFar, nodes, ps)
    requires node.name == NumToChar(|nodes|) && node.z == ps[|nodes|].z
    modifies layer
    ensures nodes' == nodes + [node] && Filed(layer.nodesNear, layer.nodesFar, nodes', ps)
    ensures layer.links == old(layer.links)
  {
    FiledGrows(layer.nodesNear, layer.nodesFar, nodes, ps, node);
    layer.InsertNode(node);
    nodes' := nodes + [node];
  }

  /** What every base generator promises about its nodes: the layer is
      valid, its keys are the first n letters, and the t-th node is in the
      near map exactly when its corner ps[t] is near. */
  ghost predicate Solid(layer: Layer, ps: seq<Point>, n: nat)
    requires n <= |ps| <= 26
    reads layer
  {
    layer.Valid() && layer.NodeKeys() == Letters(n)
    && forall t :: 0 <= t < n ==> (NumToChar(t) in layer.nodesNear <==> IsNear([ps[t].z]))
  }

  /** The filed maps make a solid layer in which getNode finds every node. */
  lemma FiledSolid(layer: Layer, nodes: seq<Node>, ps: seq<Point>)
    requires |nodes| <= |ps| <= 26 && Filed(layer.nodesNear, layer.nodesFar, nodes, ps)
    ensures Solid(layer, ps, |nodes|)
    ensures forall t :: 0 <= t < |nodes| ==> layer.GetNode(NumToChar(t)) == Some(nodes[t])
  {
    forall k | k in layer.nodesNear ensures layer.nodesNear[k].name == k {
      var t: nat :| t < |nodes| && NumToChar(t) == k;
    }
    forall k | k in layer.nodesFar ensures layer.nodesFar[k].name == k {
      var t: nat :| t < |nodes| && NumToChar(t) == k;
    }
  }

  // ---------------------------------------------------------------------
  // Tetrahedron (scripts/baseShapes.js:111-170, scripts/geodesic.js:120-176)

  /** [d,d,d], [-d,d,-d], [d,-d,-d], [-d,-d,d] */
  function TetraCorners(d: real): (ps: seq<Point>)
    ensures |ps| == 4
  {
    [Point(d, d, d), Point(-d, d, -d), Point(d, -d, -d), Point(-d, -d, d)]
  }

  /** d = sqrt(r^2 / 3) */
  function TetraHalfSide(options: BuildOptions, m: Measures): real
  {
    var r := Radius(options);
    m.sqrt(r * r / 3.0)
  }

  /** the faces (i, j, k) of the innermost loop, k = j-1 down to lo */
  function TetraPairFaces(i: nat, j: nat, lo: nat): seq<string>
    requires lo <= j < i < 26
    decreases j - lo
  {
    if lo == j then [] else TetraPairFaces(i, j, lo + 1) + [Spell3(lo, j, i)]
  }

  /** the edges (i, j) of the middle loop, j = i-1 down to lo */
  function TetraNodeEdges(i: nat, lo: nat): seq<string>
    requires lo <= i < 26
    decreases i - lo
  {
    if lo == i then [] else TetraNodeEdges(i, lo + 1) + [LetterEdge(i, lo)]
  }

  /** the faces of the middle loop, j = i-1 down to lo */
  function TetraNodeFaces(i: nat, lo: nat): seq<string>
    requires lo <= i < 26
    decreases i - lo
  {
    if lo == i then [] else TetraNodeFaces(i, lo + 1) + TetraPairFaces(i, lo, 0)
  }

  /** the edges of the first n nodes of generateBaseTetrahedron, in call order */
  function TetraEdges(n: nat): seq<string>
    requires n <= 26
  {
    if n == 0 then [] else TetraEdges(n - 1) + TetraNodeEdges(n - 1, 0)
  }

  /** the faces of the first n nodes, in call order */
  function TetraFaces(n: nat): seq<string>
    requires n <= 26
  {
    if n == 0 then [] else TetraFaces(n - 1) + TetraNodeFaces(n - 1, 0)
  }

  /** The tetrahedron's connectEdge calls: an edge for every pair j < i of
      the four nodes, in the order a-b, b-c, a-c, c-d, b-d, a-d. */
  lemma TetraEdgeKeys()
    ensures TetraEdges(4) == ["a-b", "b-c", "a-c", "c-d", "b-d", "a-d"]
  {
  }

  /** The tetrahedron's connectFace calls: a face for every triple
      k < j < i of the four nodes, in the order a-b-c, b-c-d, a-c-d, a-b-d. */
  lemma TetraFaceKeys()
    ensures TetraFaces(4) == ["a-b-c", "b-c-d", "a-c-d", "a-b-d"]
  {
  }

  /** No pair of the four nodes gets two edges and no triple two faces:
      the layer holds six edges and four faces. */
  lemma TetraCounts(links: Links)
    requires links.Logged() && links.edgeLog == TetraEdges(4) && links.faceLog == TetraFaces(4)
    ensures links.edgeLog == ["a-b", "b-c", "a-c", "c-d", "b-d", "a-d"]
    ensures links.faceLog == ["a-b-c", "b-c-d", "a-c-d", "a-b-d"]
    ensures |links.EdgeKeys()| == 6 && |links.FaceKeys()| == 4
  {
    TetraEdgeKeys();
    TetraFaceKeys();
    DistinctEdges();
    DistinctFaces();
    NoRepeatsCount(links.edgeLog);
    NoRepeatsCount(links.faceLog);
  }

  lemma DistinctEdges()
    ensures NoRepeats(["a-b", "b-c", "a-c", "c-d", "b-d", "a-d"])
  {
  }

  lemma DistinctFaces()
    ensures NoRepeats(["a-b-c", "b-c-d", "a-c-d", "a-b-d"])
  {
  }

  /** One round of the innermost loop: connectFace(node, partner, k-th
      node). */
  method TetraFace(layer: Layer, node: Node, partner: Node, ghost nodes: seq<Node>, ps: seq<Point>,
                   j: nat, k: nat, m: Measures, variant: Variant)
    requires k < j < |nodes| < |ps| <= 26 && Filed(layer.nodesNear, layer.nodesFar, nodes, ps) && partner == nodes[j]
    requires node.name == NumToChar(|nodes|) && layer.links.Logged()
    modifies layer, nodes, node
    ensures layer.nodesNear == old(layer.nodesNear) && layer.nodesFar == old(layer.nodesFar)
    ensures layer.links.Logged()
    ensures layer.links.edgeLog == old(layer.links.edgeLog) && layer.links.edgesNear == old(layer.links.edgesNear)
    ensures layer.links.faceLog == old(layer.links.faceLog) + [Spell3(k, j, |nodes|)]
    ensures node.z == old(node.z)
  {
    FiledLookup(layer, nodes, ps, k);
    var third := layer.GetNode(NumToChar(k)).value;
    Spell3Descending(k, j, |nodes|);
    ConnectFace(layer, node, partner, third, m, variant);
  }

  /** The innermost loop for node i and partner j:
      connectFace(node, partner, k-th node) for k = j-1 down to 0. */
  method TetraPair(layer: Layer, node: Node, partner: Node, ghost nodes: seq<Node>, ps: seq<Point>,
                   j: nat, m: Measures, variant: Variant)
    requires j < |nodes| < |ps| <= 26 && Filed(layer.nodesNear, layer.nodesFar, nodes, ps) && partner == nodes[j]
    requires node.name == NumToChar(|nodes|) && layer.links.Logged()
    modifies layer, nodes, node
    ensures layer.nodesNear == old(layer.nodesNear) && layer.nodesFar == old(layer.nodesFar)
    ensures layer.links.Logged()
    ensures layer.links.edgeLog == old(layer.links.edgeLog) && layer.links.edgesNear == old(layer.links.edgesNear)
    ensures layer.links.faceLog == old(layer.links.faceLog) + TetraPairFaces(|nodes|, j, 0)
    ensures node.z == old(node.z)
  {
    var k: nat := j;
    while k > 0
      invariant k <= j && layer.links.Logged()
      invariant layer.nodesNear == old(layer.nodesNear) && layer.nodesFar == old(layer.nodesFar)
      invariant layer.links.edgeLog == old(layer.links.edgeLog) && layer.links.edgesNear == old(layer.links.edgesNear)
      invariant layer.links.faceLog == old(layer.links.faceLog) + TetraPairFaces(|nodes|, j, k)
      invariant node.z == old(node.z)
    {
      k := k - 1;
      LogGrows(old(layer.links.faceLog), TetraPairFaces(|nodes|, j, k + 1), [Spell3(k, j, |nodes|)]);
      TetraFace(layer, node, partner, nodes, ps, j, k, m, variant);
    }
    assert k == 0;
  }

  /** One round of the middle loop: connectEdge(node, j-th node), then the
      innermost loop. */
  method TetraArm(layer: Layer, node: Node, ghost nodes: seq<Node>, ps: seq<Point>, i: nat, j: nat,
                  m: Measures, variant: Variant)
    requires j < i == |nodes| < |ps| <= 26 && Filed(layer.nodesNear, layer.nodesFar, nodes, ps)
    requires node.name == NumToChar(i) && layer.links.Logged()
    modifies layer, nodes, node
    ensures layer.nodesNear == old(layer.nodesNear) && layer.nodesFar == old(layer.nodesFar)
    ensures layer.links.Logged()
    ensures layer.links.edgeLog == old(layer.links.edgeLog) + [LetterEdge(i, j)]
    ensures layer.links.faceLog == old(layer.links.faceLog) + TetraPairFaces(i, j, 0)
    ensures node.z == old(node.z)
  {
    FiledLookup(layer, nodes, ps, j);
    var partner := layer.GetNode(NumToChar(j)).value;
    LetterEdgeIsKey(i, j);
    ConnectEdge(layer, node, partner, m, variant);
    TetraPair(layer, node, partner, nodes, ps, j, m, variant);
  }

  /** The middle loop for node i: connectEdge(node, j-th node) for
      j = i-1 down to 0, each followed by its faces. */
  method TetraNode(layer: Layer, node: Node, ghost nodes: seq<Node>, ps: seq<Point>, i: nat,
                   m: Measures, variant: Variant)
    requires i == |nodes| < |ps| <= 26 && Filed(layer.nodesNear, layer.nodesFar, nodes, ps)
    requires node.name == NumToChar(|nodes|) && layer.links.Logged()
    modifies layer, nodes, node
    ensures layer.nodesNear == old(layer.nodesNear) && layer.nodesFar == old(layer.nodesFar)
    ensures layer.links.Logged()
    ensures layer.links.edgeLog == old(layer.links.edgeLog) + TetraNodeEdges(|nodes|, 0)
    ensures layer.links.faceLog == old(layer.links.faceLog) + TetraNodeFaces(|nodes|, 0)
    ensures node.z == old(node.z)
  {
    var j: nat := i;
    while j > 0
      invariant j <= i && layer.links.Logged()
      invariant layer.nodesNear == old(layer.nodesNear) && layer.nodesFar == old(layer.nodesFar)
      invariant layer.links.edgeLog == old(layer.links.edgeLog) + TetraNodeEdges(i, j)
      invariant layer.links.faceLog == old(layer.links.faceLog) + TetraNodeFaces(i, j)
      invariant node.z == old(node.z)
    {
      j := j - 1;
      LogGrows(old(layer.links.edgeLog), TetraNodeEdges(i, j + 1), [LetterEdge(i, j)]);
      LogGrows(old(layer.links.faceLog), TetraNodeFaces(i, j + 1), TetraPairFaces(i, j, 0));
      TetraArm(layer, node, nodes, ps, i, j, m, variant);
    }
    assert j == 0;
  }

  /** One round of the outer loop of generateBaseTetrahedron: node i is
      created at ps[i], joined to the nodes before it and filed. */
  method TetraRound(layer: Layer, node: Node, ghost nodes: seq<Node>, ps: seq<Point>, i: nat,
                    m: Measures, variant: Variant)
    returns (ghost nodes': seq<Node>)
    requires i == |nodes| < |ps| == 4 && Filed(layer.nodesNear, layer.nodesFar, nodes, ps)
    requires layer.links.Logged() && layer.links.edgeLog == TetraEdges(i) && layer.links.faceLog == TetraFaces(i)
    requires node.name == NumToChar(i) && node.z == ps[i].z
    modifies layer, nodes, node
    ensures nodes' == nodes + [node] && Filed(layer.nodesNear, layer.nodesFar, nodes', ps)
    ensures layer.links.Logged()
    ensures layer.links.edgeLog == TetraEdges(i + 1) && layer.links.faceLog == TetraFaces(i + 1)
  {
    TetraNode(layer, node, nodes, ps, i, m, variant);
    nodes' := InsertLetter(layer, node, nodes, ps);
  }

  /** The three loops of generateBaseTetrahedron over the corners ps:
      node i is joined to every earlier node j by an edge and, for every k
      below j, by the face (i, j, k); then it is filed near or far by its
      own z. */
  method TetraLayer(ps: seq<Point>, m: Measures, variant: Variant) returns (layer: Layer, ghost nodes: seq<Node>)
    requires |ps| == 4
    ensures fresh(layer) && |nodes| == 4 && Filed(layer.nodesNear, layer.nodesFar, nodes, ps)
    ensures layer.links.Logged()
    ensures layer.links.edgeLog == TetraEdges(4) && layer.links.faceLog == TetraFaces(4)
  {
    layer := new Layer(variant);
    nodes := [];
    var i := 0;
    while i < 4
      invariant 0 <= i <= 4 && |nodes| == i && Filed(layer.nodesNear, layer.nodesFar, nodes, ps)
      invariant layer.links.Logged()
      invariant fresh(layer) && fresh(nodes)
      invariant layer.links.edgeLog == TetraEdges(i) && layer.links.faceLog == TetraFaces(i)
    {
      var node := new Node(ps[i].x, ps[i].y, ps[i].z, NumToChar(i));
      ghost var grown := nodes + [node];
      assert fresh(grown);
      nodes := TetraRound(layer, node, nodes, ps, i, m, variant);
      assert nodes == grown;
      i := i + 1;
    }
    assert i == 4;
  }

  /** generateBaseTetrahedron at the corners of a cube of half side
      sqrt(r^2 / 3). The Modular copy returns the running maximum as
      `maxEdgeLength`, the Monolithic one the length of the near edge a-b. */
  method Tetrahedron(options: BuildOptions, m: Measures, variant: Variant)
    returns (layer: Layer, maxEdgeLength: Option<ExtReal>)
    ensures fresh(layer) && Solid(layer, TetraCorners(TetraHalfSide(options, m)), 4)
    ensures layer.links.Logged()
    ensures layer.links.edgeLog == ["a-b", "b-c", "a-c", "c-d", "b-d", "a-d"]
    ensures layer.links.faceLog == ["a-b-c", "b-c-d", "a-c-d", "a-b-d"]
    ensures |layer.links.EdgeKeys()| == 6 && |layer.links.FaceKeys()| == 4
    ensures maxEdgeLength == if variant == Modular then layer.links.maxEntry else NearLength(layer.links, "a-b")
  {
    var ps := TetraCorners(TetraHalfSide(options, m));
    ghost var nodes;
    layer, nodes := TetraLayer(ps, m, variant);
    TetraCounts(layer.links);
    FiledSolid(layer, nodes, ps);
    if variant == Modular {
      maxEdgeLength := layer.links.maxEntry;
    } else {
      maxEdgeLength := NearLength(layer.links, "a-b");
    }
  }

  // ---------------------------------------------------------------------
  // Octahedron (scripts/baseShapes.js:177-238, scripts/geodesic.js:183-241)

  /** [r,0,0], [-r,0,0], [0,r,0], [0,-r,0], [0,0,r], [0,0,-r] */
  function OctaCorners(r: real): (ps: seq<Point>)
    ensures |ps| == 6
  {
    [Point(r, 0.0, 0.0), Point(-r, 0.0, 0.0), Point(0.0, r, 0.0), Point(0.0, -r, 0.0),
     Point(0.0, 0.0, r), Point(0.0, 0.0, -r)]
  }

  /** the edges (i, k) of the inner loop, k = 2 up to hi-1; the loop skips
      every round for the nodes before e */
  function OctaMidEdges(i: nat, hi: nat): seq<string>
    requires i < 6 && 2 <= hi <= 4
  {
    if i < 4 || hi == 2 then [] else OctaMidEdges(i, hi - 1) + [LetterEdge(i, hi - 1)]
  }

  /** the faces (i, j, k) of the inner loop, k = 2 up to hi-1 */
  function OctaMidFaces(i: nat, j: nat, hi: nat): seq<string>
    requires i < 6 && j < 2 && 2 <= hi <= 4
  {
    if i < 4 || hi == 2 then [] else OctaMidFaces(i, j, hi - 1) + [Spell3(j, hi - 1, i)]
  }

  /** the edges of the middle loop for node i, j = 0 up to hi-1: the edge
      (i, j), then the inner loop's edges; the loop skips every round for
      a and b */
  function OctaNodeEdges(i: nat, hi: nat): seq<string>
    requires i < 6 && hi <= 2
  {
    if i < 2 || hi == 0 then []
    else OctaNodeEdges(i, hi - 1) + ([LetterEdge(i, hi - 1)] + OctaMidEdges(i, 4))
  }

  /** the faces of the middle loop for node i, j = 0 up to hi-1 */
  function OctaNodeFaces(i: nat, hi: nat): seq<string>
    requires i < 6 && hi <= 2
  {
    if i < 2 || hi == 0 then [] else OctaNodeFaces(i, hi - 1) + OctaMidFaces(i, hi - 1, 4)
  }

  /** the edges of the first n nodes of generateBaseOctahedron, in call order */
  function OctaEdges(n: nat): seq<string>
    requires n <= 6
  {
    if n == 0 then [] else OctaEdges(n - 1) + OctaNodeEdges(n - 1, 2)
  }

  /** the faces of the first n nodes, in call order */
  function OctaFaces(n: nat): seq<string>
    requires n <= 6
  {
    if n == 0 then [] else OctaFaces(n - 1) + OctaNodeFaces(n - 1, 2)
  }

  /** The octahedron's sixteen connectEdge calls: c and d are joined to a
      and b; e and f to a and b and, once for each of a and b, to c and d. */
  lemma OctaEdgeCalls()
    ensures OctaEdges(6) == ["a-c", "b-c", "a-d", "b-d",
                             "a-e", "c-e", "d-e", "b-e", "c-e", "d-e",
                             "a-f", "c-f", "d-f", "b-f", "c-f", "d-f"]
  {
    OctaEdgesOfMiddle();
    OctaEdgesOfPoles();
  }

  lemma OctaEdgesOfMiddle()
    ensures OctaEdges(4) == ["a-c", "b-c", "a-d", "b-d"]
  {
  }

  /** e and f are each joined to a, c, d, then to b, c, d */
  lemma OctaEdgesOfPoles()
    ensures OctaNodeEdges(4, 2) == ["a-e", "c-e", "d-e", "b-e", "c-e", "d-e"]
    ensures OctaNodeEdges(5, 2) == ["a-f", "c-f", "d-f", "b-f", "c-f", "d-f"]
  {
  }

  /** The octahedron's eight connectFace calls: e and f with one of a, b
      and one of c, d. */
  lemma OctaFaceCalls()
    ensures OctaFaces(6) == ["a-c-e", "a-d-e", "b-c-e", "b-d-e", "a-c-f", "a-d-f", "b-c-f", "b-d-f"]
  {
  }

  /** the keys of a log grown by a run of calls */
  /** The second edges from e to c and d repeat keys already logged. */
  lemma OctaRepeatsE()
    ensures Elements(["a-c", "b-c", "a-d", "b-d", "a-e", "c-e", "d-e", "b-e", "c-e", "d-e"])
            == Elements(["a-c", "b-c", "a-d", "b-d", "a-e", "c-e", "d-e", "b-e"])
  {
  }

  /** The same for f. */
  lemma OctaRepeatsF()
    ensures Elements(["a-f", "c-f", "d-f", "b-f", "c-f", "d-f"]) == Elements(["a-f", "c-f", "d-f", "b-f"])
  {
  }

  lemma DistinctOctaEdges()
    ensures NoRepeats(["a-c", "b-c", "a-d", "b-d", "a-e", "c-e", "d-e", "b-e", "a-f", "c-f", "d-f", "b-f"])
  {
  }

  /** The sixteen connectEdge calls file the twelve distinct keys. */
  lemma OctaEdgeSet()
    ensures Elements(["a-c", "b-c", "a-d", "b-d", "a-e", "c-e", "d-e", "b-e", "c-e", "d-e",
                      "a-f", "c-f", "d-f", "b-f", "c-f", "d-f"])
            == Elements(["a-c", "b-c", "a-d", "b-d", "a-e", "c-e", "d-e", "b-e", "a-f", "c-f", "d-f", "b-f"])
  {
    var e := ["a-c", "b-c", "a-d", "b-d", "a-e", "c-e", "d-e", "b-e", "c-e", "d-e"];
    var f := ["a-f", "c-f", "d-f", "b-f", "c-f", "d-f"];
    assert e + f == ["a-c", "b-c", "a-d", "b-d", "a-e", "c-e", "d-e", "b-e", "c-e", "d-e",
                     "a-f", "c-f", "d-f", "b-f", "c-f", "d-f"];
    ElementsConcat(e, f);
    OctaRepeatsE();
    OctaRepeatsF();
    var e' := ["a-c", "b-c", "a-d", "b-d", "a-e", "c-e", "d-e", "b-e"];
    var f' := ["a-f", "c-f", "d-f", "b-f"];
    assert e' + f' == ["a-c", "b-c", "a-d", "b-d", "a-e", "c-e", "d-e", "b-e", "a-f", "c-f", "d-f", "b-f"];
    ElementsConcat(e', f');
  }

  lemma DistinctOctaFaces()
    ensures NoRepeats(["a-c-e", "a-d-e", "b-c-e", "b-d-e", "a-c-f", "a-d-f", "b-c-f", "b-d-f"])
  {
  }

  /** Sixteen connectEdge calls file twelve edges, because the edges from e
      and f to c and d are connected twice; the eight faces are distinct. */
  lemma OctaCounts(links: Links)
    requires links.Logged() && links.edgeLog == OctaEdges(6) && links.faceLog == OctaFaces(6)
    ensures |links.edgeLog| == 16 && |links.EdgeKeys()| == 12
    ensures links.faceLog == ["a-c-e", "a-d-e", "b-c-e", "b-d-e", "a-c-f", "a-d-f", "b-c-f", "b-d-f"]
    ensures |links.FaceKeys()| == 8
  {
    OctaEdgeCalls();
    OctaEdgeSet();
    DistinctOctaEdges();
    NoRepeatsCount(["a-c", "b-c", "a-d", "b-d", "a-e", "c-e", "d-e", "b-e", "a-f", "c-f", "d-f", "b-f"]);
    OctaFaceCalls();
    DistinctOctaFaces();
    NoRepeatsCount(links.faceLog);
  }

  /** The inner loop for node i and partner j: for k = c, d (from node e
      on), connectEdge(node, k-th node) and connectFace(node, partner,
      k-th node). */
  method OctaPair(layer: Layer, node: Node, partner: Node, ghost nodes: seq<Node>,
                  ps: seq<Point>, i: nat, j: nat, m: Measures, variant: Variant)
    requires 2 <= i == |nodes| < |ps| == 6 && j < 2 && Filed(layer.nodesNear, layer.nodesFar, nodes, ps)
    requires partner == nodes[j] && node.name == NumToChar(i) && layer.links.Logged()
    modifies layer, nodes, node
    ensures layer.nodesNear == old(layer.nodesNear) && layer.nodesFar == old(layer.nodesFar)
    ensures layer.links.Logged()
    ensures layer.links.edgeLog == old(layer.links.edgeLog) + OctaMidEdges(i, 4)
    ensures layer.links.faceLog == old(layer.links.faceLog) + OctaMidFaces(i, j, 4)
    ensures node.z == old(node.z)
  {
    ghost var edges0, faces0 := layer.links.edgeLog, layer.links.faceLog;
    assert OctaMidEdges(i, 2) == [] && OctaMidFaces(i, j, 2) == [];
    assert OctaMidEdges(i, 3) == if i < 4 then [] else OctaMidEdges(i, 2) + [LetterEdge(i, 2)];
    assert OctaMidEdges(i, 4) == if i < 4 then [] else OctaMidEdges(i, 3) + [LetterEdge(i, 3)];
    assert OctaMidFaces(i, j, 3) == if i < 4 then [] else OctaMidFaces(i, j, 2) + [Spell3(j, 2, i)];
    assert OctaMidFaces(i, j, 4) == if i < 4 then [] else OctaMidFaces(i, j, 3) + [Spell3(j, 3, i)];
    hide *;
    var k: nat := 2;
    while k < 4
      invariant 2 <= k <= 4 && layer.links.Logged()
      invariant layer.nodesNear == old(layer.nodesNear) && layer.nodesFar == old(layer.nodesFar)
      invariant layer.links.edgeLog == edges0 + OctaMidEdges(i, k)
      invariant layer.links.faceLog == faces0 + OctaMidFaces(i, j, k)
      invariant node.z == old(node.z)
    {
      if i >= 4 {
        LogGrows(edges0, OctaMidEdges(i, k), [LetterEdge(i, k)]);
        LogGrows(faces0, OctaMidFaces(i, j, k), [Spell3(j, k, i)]);
        OctaMid(layer, node, partner, nodes, ps, i, j, k, m, variant);
      }
      k := k + 1;
    }
    assert k == 4;
  }

  /** One round of the inner loop for the pole i, j = a or b and k = c or d:
      connectEdge(node, k-th node), then connectFace(node, j-th node,
      k-th node). */
  method OctaMid(layer: Layer, node: Node, partner: Node, ghost nodes: seq<Node>,
                 ps: seq<Point>, i: nat, j: nat, k: nat, m: Measures, variant: Variant)
    requires 4 <= i == |nodes| < |ps| == 6 && j < 2 <= k < 4 && Filed(layer.nodesNear, layer.nodesFar, nodes, ps)
    requires partner == nodes[j] && node.name == NumToChar(i) && layer.links.Logged()
    modifies layer, nodes, node
    ensures layer.nodesNear == old(layer.nodesNear) && layer.nodesFar == old(layer.nodesFar)
    ensures layer.links.Logged()
    ensures layer.links.edgeLog == old(layer.links.edgeLog) + [LetterEdge(i, k)]
    ensures layer.links.faceLog == old(layer.links.faceLog) + [Spell3(j, k, i)]
    ensures node.z == old(node.z)
  {
    FiledLookup(layer, nodes, ps, k);
    var mid := layer.GetNode(NumToChar(k)).value;
    LetterEdgeIsKey(i, k);
    ConnectEdge(layer, node, mid, m, variant);
    Spell3HighFirst(j, k, i);
    ConnectFace(layer, node, partner, mid, m, variant);
  }

  /** One round of the middle loop for node i and j = a or b:
      connectEdge(node, j-th node), then the inner loop. */
  method OctaArm(layer: Layer, node: Node, ghost nodes: seq<Node>, ps: seq<Point>,
                 i: nat, j: nat, m: Measures, variant: Variant)
    requires 2 <= i == |nodes| < |ps| == 6 && j < 2 && Filed(layer.nodesNear, layer.nodesFar, nodes, ps)
    requires node.name == NumToChar(i) && layer.links.Logged()
    modifies layer, nodes, node
    ensures layer.nodesNear == old(layer.nodesNear) && layer.nodesFar == old(layer.nodesFar)
    ensures layer.links.Logged()
    ensures layer.links.edgeLog == old(layer.links.edgeLog) + ([LetterEdge(i, j)] + OctaMidEdges(i, 4))
    ensures layer.links.faceLog == old(layer.links.faceLog) + OctaMidFaces(i, j, 4)
    ensures node.z == old(node.z)
  {
    FiledLookup(layer, nodes, ps, j);
    var partner := layer.GetNode(NumToChar(j)).value;
    LetterEdgeIsKey(i, j);
    LogGrows(old(layer.links.edgeLog), [LetterEdge(i, j)], OctaMidEdges(i, 4));
    ConnectEdge(layer, node, partner, m, variant);
    OctaPair(layer, node, partner, nodes, ps, i, j, m, variant);
  }

  /** The middle loop for node i from c on: for j = a, b,
      connectEdge(node, j-th node), then the inner loop. */
  method OctaNode(layer: Layer, node: Node, ghost nodes: seq<Node>, ps: seq<Point>, i: nat,
                  m: Measures, variant: Variant)
    requires 2 <= i == |nodes| < |ps| == 6 && Filed(layer.nodesNear, layer.nodesFar, nodes, ps)
    requires node.name == NumToChar(i) && layer.links.Logged()
    modifies layer, nodes, node
    ensures layer.nodesNear == old(layer.nodesNear) && layer.nodesFar == old(layer.nodesFar)
    ensures layer.links.Logged()
    ensures layer.links.edgeLog == old(layer.links.edgeLog) + OctaNodeEdges(i, 2)
    ensures layer.links.faceLog == old(layer.links.faceLog) + OctaNodeFaces(i, 2)
    ensures node.z == old(node.z)
  {
    var j: nat := 0;
    while j < 2
      invariant j <= 2 && layer.links.Logged()
      invariant layer.nodesNear == old(layer.nodesNear) && layer.nodesFar == old(layer.nodesFar)
      invariant layer.links.edgeLog == old(layer.links.edgeLog) + OctaNodeEdges(i, j)
      invariant layer.links.faceLog == old(layer.links.faceLog) + OctaNodeFaces(i, j)
      invariant node.z == old(node.z)
    {
      LogGrows(old(layer.links.edgeLog), OctaNodeEdges(i, j), [LetterEdge(i, j)] + OctaMidEdges(i, 4));
      LogGrows(old(layer.links.faceLog), OctaNodeFaces(i, j), OctaMidFaces(i, j, 4));
      OctaArm(layer, node, nodes, ps, i, j, m, variant);
      j := j + 1;
    }
    assert j == 2;
  }

  /** One round of the outer loop of generateBaseOctahedron: node i is
      created at ps[i], joined to the nodes before it and filed. The
      middle loop skips every round for a and b. */
  method OctaRound(layer: Layer, node: Node, ghost nodes: seq<Node>, ps: seq<Point>, i: nat,
                   m: Measures, variant: Variant)
    returns (ghost nodes': seq<Node>)
    requires i == |nodes| < |ps| == 6 && Filed(layer.nodesNear, layer.nodesFar, nodes, ps)
    requires layer.links.Logged() && layer.links.edgeLog == OctaEdges(i) && layer.links.faceLog == OctaFaces(i)
    requires node.name == NumToChar(i) && node.z == ps[i].z
    modifies layer, nodes, node
    ensures nodes' == nodes + [node] && Filed(layer.nodesNear, layer.nodesFar, nodes', ps)
    ensures layer.links.Logged()
    ensures layer.links.edgeLog == OctaEdges(i + 1) && layer.links.faceLog == OctaFaces(i + 1)
  {
    if i >= 2 {
      OctaNode(layer, node, nodes, ps, i, m, variant);
    }
    nodes' := InsertLetter(layer, node, nodes, ps);
  }

  /** The loops of generateBaseOctahedron over the corners ps. */
  method OctaLayer(ps: seq<Point>, m: Measures, variant: Variant) returns (layer: Layer, ghost nodes: seq<Node>)
    requires |ps| == 6
    ensures fresh(layer) && |nodes| == 6 && Filed(layer.nodesNear, layer.nodesFar, nodes, ps)
    ensures layer.links.Logged()
    ensures layer.links.edgeLog == OctaEdges(6) && layer.links.faceLog == OctaFaces(6)
  {
    layer := new Layer(variant);
    nodes := [];
    var i := 0;
    while i < 6
      invariant 0 <= i <= 6 && |nodes| == i && Filed(layer.nodesNear, layer.nodesFar, nodes, ps)
      invariant layer.links.Logged()
      invariant fresh(layer) && fresh(nodes)
      invariant layer.links.edgeLog == OctaEdges(i) && layer.links.faceLog == OctaFaces(i)
    {
      var node := new Node(ps[i].x, ps[i].y, ps[i].z, NumToChar(i));
      ghost var grown := nodes + [node];
      assert fresh(grown);
      nodes := OctaRound(layer, node, nodes, ps, i, m, variant);
      assert nodes == grown;
      i := i + 1;
    }
    assert i == 6;
  }

  /** generateBaseOctahedron: the six corners at distance r on the axes.
      The Modular copy returns the running maximum as `maxEdgeLength`, the
      Monolithic one the length of the near edge a-c. */
  method Octahedron(options: BuildOptions, m: Measures, variant: Variant)
    returns (layer: Layer, maxEdgeLength: Option<ExtReal>)
    ensures fresh(layer) && Solid(layer, OctaCorners(Radius(options)), 6)
    ensures layer.links.Logged()
    ensures layer.links.edgeLog == ["a-c", "b-c", "a-d", "b-d",
                                    "a-e", "c-e", "d-e", "b-e", "c-e", "d-e",
                                    "a-f", "c-f", "d-f", "b-f", "c-f", "d-f"]
    ensures |layer.links.EdgeKeys()| == 12
    ensures layer.links.faceLog == ["a-c-e", "a-d-e", "b-c-e", "b-d-e", "a-c-f", "a-d-f", "b-c-f", "b-d-f"]
    ensures |layer.links.FaceKeys()| == 8
    ensures maxEdgeLength == if variant == Modular then layer.links.maxEntry else NearLength(layer.links, "a-c")
  {
    var ps := OctaCorners(Radius(options));
    ghost var nodes;
    layer, nodes := OctaLayer(ps, m, variant);
    OctaCounts(layer.links);
    OctaEdgeCalls();
    FiledSolid(layer, nodes, ps);
    if variant == Modular {
      maxEdgeLength := layer.links.maxEntry;
    } else {
      maxEdgeLength := NearLength(layer.links, "a-c");
    }
  }

  // ---------------------------------------------------------------------
  // Icosahedron (scripts/baseShapes.js:11-104, scripts/geodesic.js:23-113)

  /** The corners [0,-g,-1], [0,-g,1], [0,g,-1], [0,g,1], [-g,-1,0],
      [-g,1,0], [g,-1,0], [g,1,0], [-1,0,-g], [1,0,-g], [-1,0,g], [1,0,g],
      each scaled by s. */
  function IcosaCorners(g: real, s: real): (ps: seq<Point>)
    ensures |ps| == 12
  {
    [Point(0.0, -g * s, -s), Point(0.0, -g * s, s), Point(0.0, g * s, -s), Point(0.0, g * s, s),
     Point(-g * s, -s, 0.0), Point(-g * s, s, 0.0), Point(g * s, -s, 0.0), Point(g * s, s, 0.0),
     Point(-s, 0.0, -g * s), Point(s, 0.0, -g * s), Point(-s, 0.0, g * s), Point(s, 0.0, g * s)]
  }

  /** the golden ratio (1 + sqrt 5) / 2 */
  function Golden(m: Measures): real
  {
    (1.0 + m.sqrt(5.0)) / 2.0
  }

  /** scale = radius / sqrt(g^2 + 1), the factor that puts the corners on
      the sphere. `m.sqrt` is uninterpreted, so nothing here knows the root
      is positive; the zero branch only keeps the division defined. */
  function IcosaScale(options: BuildOptions, m: Measures): real
  {
    var g := Golden(m);
    var root := m.sqrt(g * g + 1.0);
    if root == 0.0 then 0.0 else Radius(options) / root
  }

  /** One row of getBaseIcosahedronConnections: five corners, listed in the
      order in which they surround the corner of the row. */
  predicate IcosaRowOk(row: seq<nat>)
  {
    |row| == 5 && forall c :: 0 <= c < 5 ==> row[c] < 12
  }

  /** getBaseIcosahedronConnections(i) for i = 0..11. Its body belongs to
      scripts/util.js, which is not part of this model, so the table is a
      parameter of the generator. */
  predicate IcosaTable(table: seq<seq<nat>>)
  {
    |table| == 12 && forall i :: 0 <= i < 12 ==> IcosaRowOk(table[i])
  }

  /** the keys of the connect calls of the icosahedron so far */
  datatype Logs = Logs(edges: seq<string>, faces: seq<string>)

  function LogsOf(links: Links): Logs
  {
    Logs(links.edgeLog, links.faceLog)
  }

  /** The edge step of round con for node i: the edge to the con-th
      neighbour p is connected when p is already inserted (p < i) and no
      edge has the key yet. */
  function IcosaEdgeCall(edges: seq<string>, row: seq<nat>, i: nat, con: nat): seq<string>
    requires i < 12 && con < 5 && IcosaRowOk(row)
  {
    var p := row[con];
    var key := EdgeKey(NumToChar(i), NumToChar(p));
    if p < i && key !in edges then edges + [key] else edges
  }

  /** The face step of round con for node i: the face with the con-th
      neighbour p and the next one round the ring, q, is connected when
      both are already inserted and no face has the key yet. */
  function IcosaFaceCall(faces: seq<string>, row: seq<nat>, i: nat, con: nat): seq<string>
    requires i < 12 && con < 5 && IcosaRowOk(row)
  {
    var p, q := row[con], row[(con + 1) % 5];
    var key := FaceKey(NumToChar(i), NumToChar(p), NumToChar(q));
    if p < i && q < i && key !in faces then faces + [key] else faces
  }

  /** the calls of rounds 0..n-1 of the inner loop for node i */
  function IcosaRowCalls(logs: Logs, row: seq<nat>, i: nat, n: nat): Logs
    requires i < 12 && n <= 5 && IcosaRowOk(row)
  {
    if n == 0 then logs
    else
      var before := IcosaRowCalls(logs, row, i, n - 1);
      Logs(IcosaEdgeCall(before.edges, row, i, n - 1), IcosaFaceCall(before.faces, row, i, n - 1))
  }

  /** the calls for nodes 0..n-1 */
  function IcosaLogs(table: seq<seq<nat>>, n: nat): Logs
    requires n <= 12 && IcosaTable(table)
  {
    if n == 0 then Logs([], []) else IcosaRowCalls(IcosaLogs(table, n - 1), table[n - 1], n - 1, 5)
  }

  /** the keys of edges from a node to an earlier one, among the first n */
  ghost function BackEdges(n: nat): set<string>
    requires n <= 12
  {
    set i: nat, p: nat | p < i < n :: EdgeKey(NumToChar(i), NumToChar(p))
  }

  /** the keys of faces from a node to two earlier ones, among the first n */
  ghost function BackFaces(n: nat): set<string>
    requires n <= 12
  {
    set i: nat, p: nat, q: nat | p < i < n && q < i :: FaceKey(NumToChar(i), NumToChar(p), NumToChar(q))
  }

  /** No key is logged twice, and every logged key joins a node to earlier
      ones among the first n. */
  ghost predicate Backward(logs: Logs, n: nat)
    requires n <= 12
  {
    NoRepeats(logs.edges) && NoRepeats(logs.faces)
    && Elements(logs.edges) <= BackEdges(n) && Elements(logs.faces) <= BackFaces(n)
  }

  lemma NoRepeatsAppend(log: seq<string>, key: string)
    requires NoRepeats(log) && key !in log
    ensures NoRepeats(log + [key])
  {
  }

  /** The guards of one round keep the logs free of repeats and
      backward. */
  lemma IcosaCallBackward(logs: Logs, row: seq<nat>, i: nat, con: nat)
    requires i < 12 && con < 5 && IcosaRowOk(row) && Backward(logs, i + 1)
    ensures Backward(Logs(IcosaEdgeCall(logs.edges, row, i, con), IcosaFaceCall(logs.faces, row, i, con)), i + 1)
  {
    var p, q := row[con], row[(con + 1) % 5];
    var edge := EdgeKey(NumToChar(i), NumToChar(p));
    var face := FaceKey(NumToChar(i), NumToChar(p), NumToChar(q));
    if p < i && edge !in logs.edges {
      NoRepeatsAppend(logs.edges, edge);
      ElementsAppend(logs.edges, edge);
      assert edge in BackEdges(i + 1);
    }
    if p < i && q < i && face !in logs.faces {
      NoRepeatsAppend(logs.faces, face);
      ElementsAppend(logs.faces, face);
      assert face in BackFaces(i + 1);
    }
  }

  lemma {:induction false} IcosaRowBackward(logs: Logs, row: seq<nat>, i: nat, n: nat)
    requires i < 12 && n <= 5 && IcosaRowOk(row) && Backward(logs, i + 1)
    ensures Backward(IcosaRowCalls(logs, row, i, n), i + 1)
  {
    if n > 0 {
      IcosaRowBackward(logs, row, i, n - 1);
      IcosaCallBackward(IcosaRowCalls(logs, row, i, n - 1), row, i, n - 1);
    }
  }

  lemma BackGrows(n: nat)
    requires n < 12
    ensures BackEdges(n) <= BackEdges(n + 1) && BackFaces(n) <= BackFaces(n + 1)
  {
  }

  /** The icosahedron never connects a key twice, and every key joins a node
      to nodes inserted before it. */
  lemma {:induction false} IcosaLogsBackward(table: seq<seq<nat>>, n: nat)
    requires n <= 12 && IcosaTable(table)
    ensures Backward(IcosaLogs(table, n), n)
  {
    if n > 0 {
      IcosaLogsBackward(table, n - 1);
      BackGrows(n - 1);
      IcosaRowBackward(IcosaLogs(table, n - 1), table[n - 1], n - 1, 5);
    }
  }

  /** getNode(nodes, numToChar(p)) finds the p-th node when it was inserted
      and nothing otherwise. */
  lemma FiledFind(layer: Layer, nodes: seq<Node>, ps: seq<Point>, p: nat)
    requires |nodes| <= |ps| <= 26 && Filed(layer.nodesNear, layer.nodesFar, nodes, ps) && p < 26
    ensures layer.GetNode(NumToChar(p)) == if p < |nodes| then Some(nodes[p]) else None
  {
    if p < |nodes| {
      FiledLookup(layer, nodes, ps, p);
    } else {
      forall t: nat | t < |nodes| ensures NumToChar(t) != NumToChar(p) {
        NumToCharInjective(t, p);
      }
    }
  }

  /** In a logged layer getEdge/getFace find exactly the logged keys. */
  lemma LoggedHas(links: Links, key: string)
    requires links.Logged()
    ensures links.HasEdge(key) <==> key in links.edgeLog
    ensures links.HasFace(key) <==> key in links.faceLog
  {
    assert links.HasEdge(key) <==> key in links.EdgeKeys();
    assert links.HasFace(key) <==> key in links.FaceKeys();
  }

  /** The edge half of one round of the inner loop:
      `if (getNode(conName) && !getEdge(edgeName)) connectEdge(...)`. */
  method IcosaEdge(layer: Layer, node: Node, ghost nodes: seq<Node>, ps: seq<Point>, row: seq<nat>,
                   i: nat, con: nat, m: Measures, variant: Variant)
    requires i == |nodes| < |ps| == 12 && con < 5 && IcosaRowOk(row)
    requires Filed(layer.nodesNear, layer.nodesFar, nodes, ps)
    requires node.name == NumToChar(i) && layer.links.Logged()
    modifies layer, nodes, node
    ensures layer.nodesNear == old(layer.nodesNear) && layer.nodesFar == old(layer.nodesFar)
    ensures layer.links.Logged()
    ensures layer.links.edgeLog == IcosaEdgeCall(old(layer.links.edgeLog), row, i, con)
    ensures layer.links.faceLog == old(layer.links.faceLog)
    ensures node.z == old(node.z)
  {
    var conName := NumToChar(row[con]);
    var edgeName := EdgeKey(node.name, conName);
    FiledFind(layer, nodes, ps, row[con]);
    var conNode := layer.GetNode(conName);
    LoggedHas(layer.links, edgeName);
    if conNode.Some? && !layer.links.HasEdge(edgeName) {
      ConnectEdge(layer, node, conNode.value, m, variant);
    }
  }

  /** The face half of one round of the inner loop: `if (getNode(conName)
      && getNode(con2Name) && !getFace(faceName)) connectFace(...)`. */
  method IcosaFace(layer: Layer, node: Node, ghost nodes: seq<Node>, ps: seq<Point>, row: seq<nat>,
                   i: nat, con: nat, m: Measures, variant: Variant)
    requires i == |nodes| < |ps| == 12 && con < 5 && IcosaRowOk(row)
    requires Filed(layer.nodesNear, layer.nodesFar, nodes, ps)
    requires node.name == NumToChar(i) && layer.links.Logged()
    modifies layer, nodes, node
    ensures layer.nodesNear == old(layer.nodesNear) && layer.nodesFar == old(layer.nodesFar)
    ensures layer.links.Logged()
    ensures layer.links.faceLog == IcosaFaceCall(old(layer.links.faceLog), row, i, con)
    ensures layer.links.edgeLog == old(layer.links.edgeLog)
    ensures node.z == old(node.z)
  {
    var conName := NumToChar(row[con]);
    var con2Name := NumToChar(row[(con + 1) % 5]);
    var faceName := FaceKey(node.name, conName, con2Name);
    FiledFind(layer, nodes, ps, row[con]);
    FiledFind(layer, nodes, ps, row[(con + 1) % 5]);
    var conNode := layer.GetNode(conName);
    var con2Node := layer.GetNode(con2Name);
    LoggedHas(layer.links, faceName);
    if conNode.Some? && con2Node.Some? && !layer.links.HasFace(faceName) {
      ConnectFace(layer, node, conNode.value, con2Node.value, m, variant);
    }
  }

  /** The inner loop for node i over its five neighbours. */
  method IcosaNode(layer: Layer, node: Node, ghost nodes: seq<Node>, ps: seq<Point>, row: seq<nat>,
                   i: nat, m: Measures, variant: Variant)
    requires i == |nodes| < |ps| == 12 && IcosaRowOk(row)
    requires Filed(layer.nodesNear, layer.nodesFar, nodes, ps)
    requires node.name == NumToChar(i) && layer.links.Logged()
    modifies layer, nodes, node
    ensures layer.nodesNear == old(layer.nodesNear) && layer.nodesFar == old(layer.nodesFar)
    ensures layer.links.Logged()
    ensures LogsOf(layer.links) == IcosaRowCalls(LogsOf(old(layer.links)), row, i, 5)
    ensures node.z == old(node.z)
  {
    var con := 0;
    while con < 5
      invariant con <= 5 && layer.links.Logged()
      invariant layer.nodesNear == old(layer.nodesNear) && layer.nodesFar == old(layer.nodesFar)
      invariant LogsOf(layer.links) == IcosaRowCalls(LogsOf(old(layer.links)), row, i, con)
      invariant node.z == old(node.z)
    {
      IcosaEdge(layer, node, nodes, ps, row, i, con, m, variant);
      IcosaFace(layer, node, nodes, ps, row, i, con, m, variant);
      con := con + 1;
    }
    assert con == 5;
  }

  /** One round of the outer loop of generateBaseIcosahedron: node i is
      joined to the nodes before it and filed. */
  method IcosaRound(layer: Layer, node: Node, ghost nodes: seq<Node>, ps: seq<Point>, table: seq<seq<nat>>,
                    i: nat, m: Measures, variant: Variant)
    returns (ghost nodes': seq<Node>)
    requires i == |nodes| < |ps| == 12 && IcosaTable(table) && Filed(layer.nodesNear, layer.nodesFar, nodes, ps)
    requires layer.links.Logged() && LogsOf(layer.links) == IcosaLogs(table, i)
    requires node.name == NumToChar(i) && node.z == ps[i].z
    modifies layer, nodes, node
    ensures nodes' == nodes + [node] && Filed(layer.nodesNear, layer.nodesFar, nodes', ps)
    ensures layer.links.Logged() && LogsOf(layer.links) == IcosaLogs(table, i + 1)
  {
    IcosaNode(layer, node, nodes, ps, table[i], i, m, variant);
    nodes' := InsertLetter(layer, node, nodes, ps);
  }

  /** The loops of generateBaseIcosahedron over the corners ps. */
  method IcosaLayer(ps: seq<Point>, table: seq<seq<nat>>, m: Measures, variant: Variant)
    returns (layer: Layer, ghost nodes: seq<Node>)
    requires |ps| == 12 && IcosaTable(table)
    ensures fresh(layer) && |nodes| == 12 && Filed(layer.nodesNear, layer.nodesFar, nodes, ps)
    ensures layer.links.Logged() && LogsOf(layer.links) == IcosaLogs(table, 12)
  {
    hide IcosaTable;
    layer := new Layer(variant);
    nodes := [];
    var i := 0;
    while i < 12
      invariant 0 <= i <= 12 && |nodes| == i && Filed(layer.nodesNear, layer.nodesFar, nodes, ps)
      invariant layer.links.Logged()
      invariant fresh(layer) && fresh(nodes)
      invariant LogsOf(layer.links) == IcosaLogs(table, i)
    {
      var node := new Node(ps[i].x, ps[i].y, ps[i].z, NumToChar(i));
      ghost var grown := nodes + [node];
      assert fresh(grown);
      nodes := IcosaRound(layer, node, nodes, ps, table, i, m, variant);
      assert nodes == grown;
      i := i + 1;
    }
    assert i == 12;
  }

  /** generateBaseIcosahedron with the neighbour table of
      getBaseIcosahedronConnections: twelve corners, each edge and face
      connected once, from a node to nodes inserted before it. The Modular
      copy returns the running maximum as `maxEdgeLength`, the Monolithic
      one the length of the near edge a-b. */
  method Icosahedron(options: BuildOptions, table: seq<seq<nat>>, m: Measures, variant: Variant)
    returns (layer: Layer, maxEdgeLength: Option<ExtReal>)
    requires IcosaTable(table)
    ensures fresh(layer) && Solid(layer, IcosaCorners(Golden(m), IcosaScale(options, m)), 12)
    ensures layer.links.Logged() && LogsOf(layer.links) == IcosaLogs(table, 12)
    ensures NoRepeats(layer.links.edgeLog) && |layer.links.EdgeKeys()| == |layer.links.edgeLog|
    ensures NoRepeats(layer.links.faceLog) && |layer.links.FaceKeys()| == |layer.links.faceLog|
    ensures layer.links.EdgeKeys() <= BackEdges(12) && layer.links.FaceKeys() <= BackFaces(12)
    ensures maxEdgeLength == if variant == Modular then layer.links.maxEntry else NearLength(layer.links, "a-b")
  {
    var ps := IcosaCorners(Golden(m), IcosaScale(options, m));
    ghost var nodes;
    layer, nodes := IcosaLayer(ps, table, m, variant);
    IcosaLogsBackward(table, 12);
    NoRepeatsCount(layer.links.edgeLog);
    NoRepeatsCount(layer.links.faceLog);
    FiledSolid(layer, nodes, ps);
    if variant == Modular {
      maxEdgeLength := layer.links.maxEntry;
    } else {
      maxEdgeLength := NearLength(layer.links, "a-b");
    }
  }
}
