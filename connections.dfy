/** connectEdge and connectFace of scripts/connections.js (Modular) and of
    scripts/geodesic.js (Monolithic), the insertion primitives every
    generator calls. What they do to the edge and face maps is stated on
    values by EdgeStep and FaceStep; the methods add the node-list updates. */
module Connections {
  import opened Wrappers
  import opened Keys
  import opened Geometry
  import opened Structures
  import opened Colours
  import opened Layers

  /** `k` copies of one key */
  function Copies(key: string, k: nat): (s: seq<string>)
    ensures |s| == k && forall i :: 0 <= i < k ==> s[i] == key
  {
    if k == 0 then [] else [key] + Copies(key, k - 1)
  }

  /** how often `n` is among the three corners */
  function Count(n: Node, n1: Node, n2: Node, n3: Node): nat
  {
    (if n == n1 then 1 else 0) + (if n == n2 then 1 else 0) + (if n == n3 then 1 else 0)
  }

  /** The bucket of an edge, in both copies: parseFloat(length.toPrecision(10)). */
  function EdgeBucket(length: real, m: Measures): real
  {
    m.precision(length, 10)
  }

  /** The bucket of a face in scripts/connections.js:66-84: the three edge
      lengths between the corners ordered by their normal, rounded to eight
      digits; the clockwise edge after the longest; and the key spliced
      from the area and that edge. scripts/geodesic.js:986 uses
      parseFloat(area.toPrecision(10)) instead. */
  function FaceBucket(p1: Point, p2: Point, p3: Point, area: real, m: Measures, variant: Variant): real
  {
    match variant
    case Monolithic => m.precision(area, 10)
    case Modular =>
      var (o1, o2, o3) := m.orderByNormal(p1, p2, p3);
      var es := [m.precision(m.distance(o1, o2), 8), m.precision(m.distance(o3, o2), 8),
                 m.precision(m.distance(o1, o3), 8)];
      m.spliceColorKey(area, es[ClockwiseEdge(es)])
  }

  /** The code an unseen edge bucket gets: `edgeColorMap.size - 1` beside
      the 'maxEdgeLength' entry (scripts/connections.js:28), plain
      `edgeColorMap.size` in scripts/geodesic.js:954. */
  function NextEdgeCode(s: Links, variant: Variant): int
  {
    if variant == Modular then s.EdgeColorMapSize() - 1 else s.EdgeColorMapSize()
  }

  /** The maps after connectEdge files the edge `names` of the given
      length under `key`: the bucket's code, a new bucket numbered
      NextEdgeCode; the maximum raised in the Modular copy; the edge in the
      near map iff `near`, replacing an edge already filed under the key. */
  function EdgeStep(s: Links, key: string, names: seq<string>, length: real, bucket: real,
                    variant: Variant, near: bool): (r: Links)
    ensures r.edgeColors == WithBucket(s.edgeColors, bucket, NextEdgeCode(s, variant))
    ensures var edge := Edge(names, length, CodeOf(s.edgeColors, bucket, NextEdgeCode(s, variant)));
            if near then r.edgesNear == s.edgesNear[key := edge] && r.edgesFar == s.edgesFar
            else r.edgesFar == s.edgesFar[key := edge] && r.edgesNear == s.edgesNear
    ensures r.EdgeKeys() == s.EdgeKeys() + {key} && r.edgeLog == s.edgeLog + [key]
    ensures r.maxEntry == (if variant == Modular then RaiseMax(s.maxEntry, length) else s.maxEntry)
    ensures r.facesNear == s.facesNear && r.facesFar == s.facesFar
    ensures r.faceColors == s.faceColors && r.faceLog == s.faceLog
  {
    var edge := Edge(names, length, CodeOf(s.edgeColors, bucket, NextEdgeCode(s, variant)));
    KeysAfterStore(s.edgesNear, s.edgesFar, key, edge);
    var s' := s.(edgeColors := WithBucket(s.edgeColors, bucket, NextEdgeCode(s, variant)), edgeLog := s.edgeLog + [key],
                 maxEntry := if variant == Modular then RaiseMax(s.maxEntry, length) else s.maxEntry);
    if near then s'.(edgesNear := s.edgesNear[key := edge]) else s'.(edgesFar := s.edgesFar[key := edge])
  }

  /** The maps after connectFace files the face `names` under `key`: the
      bucket's code, a new bucket numbered `faceColorMap.size`; the face in
      the near map iff `near`, replacing a face already filed there. */
  function FaceStep(s: Links, key: string, names: seq<string>, area: real, bucket: real, near: bool): (r: Links)
    ensures r.faceColors == WithBucket(s.faceColors, bucket, |s.faceColors|)
    ensures var face := Face(names, area, Some(CodeOf(s.faceColors, bucket, |s.faceColors|)));
            if near then r.facesNear == s.facesNear[key := face] && r.facesFar == s.facesFar
            else r.facesFar == s.facesFar[key := face] && r.facesNear == s.facesNear
    ensures r.FaceKeys() == s.FaceKeys() + {key} && r.faceLog == s.faceLog + [key]
    ensures r.edgesNear == s.edgesNear && r.edgesFar == s.edgesFar
    ensures r.edgeColors == s.edgeColors && r.maxEntry == s.maxEntry && r.edgeLog == s.edgeLog
  {
    var face := Face(names, area, Some(CodeOf(s.faceColors, bucket, |s.faceColors|)));
    KeysAfterStore(s.facesNear, s.facesFar, key, face);
    var s' := s.(faceColors := WithBucket(s.faceColors, bucket, |s.faceColors|), faceLog := s.faceLog + [key]);
    if near then s'.(facesNear := s.facesNear[key := face]) else s'.(facesFar := s.facesFar[key := face])
  }

  /** connectEdge of two nodes named n1, n2 at p1, p2, on values: the edge
      is as long as calc3dDistance says and lies in the near map iff
      isNear of the two z values holds. */
  function EdgeAt(s: Links, n1: string, n2: string, p1: Point, p2: Point, m: Measures, variant: Variant): Links
  {
    var length := m.distance(p1, p2);
    EdgeStep(s, EdgeKey(n1, n2), [n1, n2], length, EdgeBucket(length, m), variant, IsNear([p1.z, p2.z]))
  }

  /** connectFace of three nodes on values. */
  function FaceAt(s: Links, n1: string, n2: string, n3: string, p1: Point, p2: Point, p3: Point,
                  m: Measures, variant: Variant): Links
  {
    var area := m.triangleArea(p1, p2, p3);
    FaceStep(s, FaceKey(n1, n2, n3), [n1, n2, n3], area, FaceBucket(p1, p2, p3, area, m, variant),
             IsNear([p1.z, p2.z, p3.z]))
  }

  /** Edge codes stay dense 0..k-1 in both copies: `size - 1` counts the
      buckets exactly when the 'maxEdgeLength' entry is there, `size`
      exactly when it is not. The new edge's code is one of them. */
  lemma {:induction false} EdgeStepKeepsDense(s: Links, key: string, names: seq<string>, length: real,
                                              bucket: real, variant: Variant, near: bool)
    requires s.Fits(variant) && Dense(s.edgeColors)
    ensures var r := EdgeStep(s, key, names, length, bucket, variant, near);
            Dense(r.edgeColors) && 0 <= CodeOf(s.edgeColors, bucket, NextEdgeCode(s, variant)) < |r.edgeColors|
            && r.Fits(variant)
  {
    assert NextEdgeCode(s, variant) == |s.edgeColors|;
    WithBucketKeepsDense(s.edgeColors, bucket);
  }

  /** Face codes stay dense 0..k-1. */
  lemma {:induction false} FaceStepKeepsDense(s: Links, key: string, names: seq<string>, area: real,
                                              bucket: real, near: bool)
    requires Dense(s.faceColors)
    ensures var r := FaceStep(s, key, names, area, bucket, near);
            Dense(r.faceColors) && 0 <= CodeOf(s.faceColors, bucket, |s.faceColors|) < |r.faceColors|
  {
    WithBucketKeepsDense(s.faceColors, bucket);
  }

  /** The 'maxEdgeLength' entry never decreases, covers the new edge and so
      keeps covering every stored edge. */
  lemma EdgeStepKeepsMax(s: Links, key: string, names: seq<string>, length: real,
                         bucket: real, variant: Variant, near: bool)
    requires s.Fits(variant) && s.MaxCovers()
    ensures var r := EdgeStep(s, key, names, length, bucket, variant, near);
            r.MaxCovers()
            && (variant == Modular ==>
                  AtMost(length, r.maxEntry.value)
                  && forall l :: AtMost(l, s.maxEntry.value) ==> AtMost(l, r.maxEntry.value))
  {
    var r := EdgeStep(s, key, names, length, bucket, variant, near);
    if variant == Modular {
      var edge := Edge(names, length, CodeOf(s.edgeColors, bucket, NextEdgeCode(s, variant)));
      CoveredAfterRaise(s.edgesNear, key, edge, s.maxEntry.value, r.maxEntry.value);
      CoveredAfterRaise(s.edgesFar, key, edge, s.maxEntry.value, r.maxEntry.value);
    }
  }

  /** Both steps add their key to the stored keys and to the log alike. */
  lemma StepsKeepLogged(s: Links, key: string, names: seq<string>, x: real, bucket: real,
                        variant: Variant, near: bool)
    requires s.Logged()
    ensures EdgeStep(s, key, names, x, bucket, variant, near).Logged()
    ensures FaceStep(s, key, names, x, bucket, near).Logged()
  {
    ElementsAppend(s.edgeLog, key);
    ElementsAppend(s.faceLog, key);
  }

  /** EdgeStep keeps what every connect call keeps. */
  lemma EdgeStepKeepsGood(s: Links, key: string, names: seq<string>, length: real, bucket: real,
                          variant: Variant, near: bool)
    requires s.Good(variant)
    ensures EdgeStep(s, key, names, length, bucket, variant, near).Good(variant)
  {
    EdgeStepKeepsDense(s, key, names, length, bucket, variant, near);
    EdgeStepKeepsMax(s, key, names, length, bucket, variant, near);
    StepsKeepLogged(s, key, names, length, bucket, variant, near);
  }

  /** FaceStep keeps what every connect call keeps. */
  lemma FaceStepKeepsGood(s: Links, key: string, names: seq<string>, area: real, bucket: real,
                          variant: Variant, near: bool)
    requires s.Good(variant)
    ensures FaceStep(s, key, names, area, bucket, near).Good(variant)
  {
    FaceStepKeepsDense(s, key, names, area, bucket, near);
    StepsKeepLogged(s, key, names, area, bucket, variant, near);
  }

  lemma EdgeAtKeepsGood(s: Links, n1: string, n2: string, p1: Point, p2: Point, m: Measures, variant: Variant)
    requires s.Good(variant)
    ensures EdgeAt(s, n1, n2, p1, p2, m, variant).Good(variant)
  {
    var length := m.distance(p1, p2);
    EdgeStepKeepsGood(s, EdgeKey(n1, n2), [n1, n2], length, EdgeBucket(length, m), variant, IsNear([p1.z, p2.z]));
  }

  lemma FaceAtKeepsGood(s: Links, n1: string, n2: string, n3: string, p1: Point, p2: Point, p3: Point,
                        m: Measures, variant: Variant)
    requires s.Good(variant)
    ensures FaceAt(s, n1, n2, n3, p1, p2, p3, m, variant).Good(variant)
  {
    var area := m.triangleArea(p1, p2, p3);
    FaceStepKeepsGood(s, FaceKey(n1, n2, n3), [n1, n2, n3], area, FaceBucket(p1, p2, p3, area, m, variant),
                      variant, IsNear([p1.z, p2.z, p3.z]));
  }

  /** node1.addEdge(key); node2.addEdge(key) */
  method AddEdgeToEnds(n1: Node, n2: Node, key: string)
    modifies n1, n2
    ensures n1 != n2 ==> n1.edges == old(n1.edges) + [key] && n2.edges == old(n2.edges) + [key]
    ensures n1 == n2 ==> n1.edges == old(n1.edges) + [key, key]
    ensures n1.faces == old(n1.faces) && n2.faces == old(n2.faces)
    ensures n1.Position() == old(n1.Position()) && n2.Position() == old(n2.Position())
  {
    n1.AddEdge(key);
    n2.AddEdge(key);
  }

  /** connectEdge: appends the edge key to both nodes' edge lists (twice to
      one node connected to itself) and files the edge as EdgeStep says.
      The key is logged whether or not it was filed before, and what every
      connect call keeps is kept. */
  method ConnectEdge(layer: Layer, n1: Node, n2: Node, m: Measures, variant: Variant)
    modifies layer, n1, n2
    ensures var key := EdgeKey(n1.name, n2.name);
            (n1 != n2 ==> n1.edges == old(n1.edges) + [key] && n2.edges == old(n2.edges) + [key])
            && (n1 == n2 ==> n1.edges == old(n1.edges) + [key, key])
    ensures n1.faces == old(n1.faces) && n2.faces == old(n2.faces)
    ensures n1.Position() == old(n1.Position()) && n2.Position() == old(n2.Position())
    ensures layer.links == EdgeAt(old(layer.links), n1.name, n2.name, n1.Position(), n2.Position(), m, variant)
    ensures layer.links.edgeLog == old(layer.links.edgeLog) + [EdgeKey(n1.name, n2.name)]
    ensures layer.links.faceLog == old(layer.links.faceLog)
    ensures old(layer.links.edgesNear.Keys) <= layer.links.edgesNear.Keys
    ensures old(layer.links.Good(variant)) ==> layer.links.Good(variant)
    ensures old(layer.links.Logged()) ==> layer.links.Logged()
    ensures layer.nodesNear == old(layer.nodesNear) && layer.nodesFar == old(layer.nodesFar)
  {
    var key := EdgeKey(n1.name, n2.name);
    var edge := NewEdge(n1, n2, m);
    ghost var s := layer.links;
    if s.Good(variant) {
      EdgeAtKeepsGood(s, n1.name, n2.name, n1.Position(), n2.Position(), m, variant);
    }
    layer.links := EdgeStep(layer.links, key, edge.nodes, edge.length, EdgeBucket(edge.length, m), variant, IsNear([n1.z, n2.z]));
    assert layer.links == EdgeAt(s, n1.name, n2.name, n1.Position(), n2.Position(), m, variant);
    ghost var p1, p2 := n1.Position(), n2.Position();
    AddEdgeToEnds(n1, n2, key);
    assert n1.Position() == p1 && n2.Position() == p2;
  }

  /** node1.addFace(key); node2.addFace(key); node3.addFace(key) */
  method AddFaceToCorners(n1: Node, n2: Node, n3: Node, key: string)
    modifies n1, n2, n3
    ensures forall n :: n in {n1, n2, n3} ==> n.faces == old(n.faces) + Copies(key, Count(n, n1, n2, n3))
    ensures forall n :: n in {n1, n2, n3} ==> n.edges == old(n.edges) && n.Position() == old(n.Position())
  {
    n1.AddFace(key);
    n2.AddFace(key);
    n3.AddFace(key);
  }

  /** connectFace: appends the face key to the three nodes' face lists (once
      per argument position) and files the face as FaceStep says. */
  method ConnectFace(layer: Layer, n1: Node, n2: Node, n3: Node, m: Measures, variant: Variant)
    modifies layer, n1, n2, n3
    ensures var key := FaceKey(n1.name, n2.name, n3.name);
            forall n :: n in {n1, n2, n3} ==> n.faces == old(n.faces) + Copies(key, Count(n, n1, n2, n3))
    ensures forall n :: n in {n1, n2, n3} ==> n.edges == old(n.edges) && n.Position() == old(n.Position())
    ensures layer.links == FaceAt(old(layer.links), n1.name, n2.name, n3.name,
                                  n1.Position(), n2.Position(), n3.Position(), m, variant)
    ensures layer.links.faceLog == old(layer.links.faceLog) + [FaceKey(n1.name, n2.name, n3.name)]
    ensures layer.links.edgeLog == old(layer.links.edgeLog)
    ensures layer.links.edgesNear == old(layer.links.edgesNear) && layer.links.edgesFar == old(layer.links.edgesFar)
    ensures old(layer.links.Good(variant)) ==> layer.links.Good(variant)
    ensures old(layer.links.Logged()) ==> layer.links.Logged()
    ensures layer.nodesNear == old(layer.nodesNear) && layer.nodesFar == old(layer.nodesFar)
  {
    var key := FaceKey(n1.name, n2.name, n3.name);
    var face := NewFace(n1, n2, n3, m);
    var bucket := FaceBucket(n1.Position(), n2.Position(), n3.Position(), face.area, m, variant);
    ghost var s := layer.links;
    if s.Good(variant) {
      FaceAtKeepsGood(s, n1.name, n2.name, n3.name, n1.Position(), n2.Position(), n3.Position(), m, variant);
    }
    layer.links := FaceStep(layer.links, key, face.nodes, face.area, bucket, IsNear([n1.z, n2.z, n3.z]));
    assert layer.links == FaceAt(s, n1.name, n2.name, n3.name, n1.Position(), n2.Position(), n3.Position(), m, variant);
    ghost var p1, p2, p3 := n1.Position(), n2.Position(), n3.Position();
    AddFaceToCorners(n1, n2, n3, key);
    assert n1.Position() == p1 && n2.Position() == p2 && n3.Position() == p3;
  }
}
