/** One structure layer while it is built: the near/far maps of nodes,
    edges and faces (types.js: Nodes, Edges, Faces) and the colour maps the
    connect functions fill. The `maxEdgeLength` a generator returns beside
    them is an out-parameter of the generator. */
module Layers {
  import opened Wrappers
  import opened Keys
  import opened Geometry
  import opened Structures
  import opened Colours

  /** Which copy of the generators builds the layer: scripts/baseShapes.js,
      scripts/subdivisions.js and scripts/connections.js (Modular), or the
      older all-in-one scripts/geodesic.js (Monolithic), the copy that
      scripts/blueprintHandler.js imports. */
  datatype Variant = Modular | Monolithic

  /** The part of a layer connectEdge and connectFace change: the near/far
      edge and face maps, the edge colour map (its numeric buckets apart from
      its 'maxEdgeLength' entry, None when there is no such entry), the face
      colour map, and the keys of all connect calls in call order. */
  datatype Links = Links(
    edgesNear: map<string, Edge>, edgesFar: map<string, Edge>,
    facesNear: map<string, Face>, facesFar: map<string, Face>,
    edgeColors: map<real, int>, maxEntry: Option<ExtReal>, faceColors: map<real, int>,
    edgeLog: seq<string>, faceLog: seq<string>)
  {
    function EdgeKeys(): set<string>
    {
      edgesNear.Keys + edgesFar.Keys
    }

    function FaceKeys(): set<string>
    {
      facesNear.Keys + facesFar.Keys
    }

    /** getEdge(edges, key).edge is an edge */
    predicate HasEdge(key: string)
    {
      key in edgesNear || key in edgesFar
    }

    /** getFace(faces, key).face is a face */
    predicate HasFace(key: string)
    {
      key in facesNear || key in facesFar
    }

    /** edgeColorMap.size */
    function EdgeColorMapSize(): nat
    {
      |edgeColors| + (if maxEntry.Some? then 1 else 0)
    }

    /** The 'maxEdgeLength' entry exists exactly in the Modular copy. */
    predicate Fits(variant: Variant)
    {
      maxEntry.Some? <==> variant == Modular
    }

    /** Bucket codes of both colour maps are 0..k-1 for k buckets. */
    ghost predicate CodesDense()
    {
      Dense(edgeColors) && Dense(faceColors)
    }

    /** Every stored edge is at most the recorded maximum. */
    ghost predicate MaxCovers()
    {
      maxEntry.Some? ==> Covered(edgesNear, maxEntry.value) && Covered(edgesFar, maxEntry.value)
    }

    /** The stored keys are exactly the keys of the connect calls. */
    ghost predicate Logged()
    {
      EdgeKeys() == Elements(edgeLog) && FaceKeys() == Elements(faceLog)
    }

    /** what every connect call keeps */
    ghost predicate Good(variant: Variant)
    {
      Fits(variant) && CodesDense() && MaxCovers() && Logged()
    }
  }

  /** `edges.near.get(key).length`, the Monolithic generators' maximum edge
      length; None where the lookup finds nothing and reading `.length`
      would throw. */
  function NearLength(links: Links, key: string): Option<ExtReal>
  {
    if key in links.edgesNear then Some(Fin(links.edgesNear[key].length)) else None
  }

  /** The empty maps a generator starts from; the Modular copy seeds the
      edge colour map with 'maxEdgeLength' = -Infinity. */
  function NoLinks(variant: Variant): (s: Links)
    ensures s.Good(variant)
    ensures s.EdgeKeys() == {} && s.FaceKeys() == {} && s.edgeLog == [] && s.faceLog == []
    ensures s.maxEntry == (if variant == Modular then Some(NegInf) else None)
  {
    Links(map[], map[], map[], map[], map[], if variant == Modular then Some(NegInf) else None, map[], [], [])
  }

  class Layer {
    var nodesNear: map<string, Node>
    var nodesFar: map<string, Node>
    var links: Links

    /** A layer with no nodes and the starting maps of the variant. */
    constructor(variant: Variant)
      ensures nodesNear == map[] && nodesFar == map[]
      ensures links == NoLinks(variant)
      ensures Valid()
    {
      nodesNear, nodesFar := map[], map[];
      links := NoLinks(variant);
    }

    /** A fresh layer holding a copy of every node of `prev` under the same
        key, in the same near/far map, at the same position and with empty
        edge and face lists (the carry-over loop of every subdivider). The
        near map is copied first, as Object.keys(layer.nodes) lists it
        first. */
    constructor CarryOver(prev: Layer, variant: Variant)
      requires prev.Valid()
      ensures nodesNear.Keys == prev.nodesNear.Keys && nodesFar.Keys == prev.nodesFar.Keys
      ensures forall k :: k in nodesNear ==> Copy(nodesNear[k], prev.nodesNear[k])
      ensures forall k :: k in nodesFar ==> Copy(nodesFar[k], prev.nodesFar[k])
      ensures fresh(NodeObjects())
      ensures links == NoLinks(variant)
      ensures Valid() && Within(NodeObjects()) && links.Logged()
      ensures Carried(prev, this) && NodeKeys() == prev.NodeKeys()
    {
      var near := CopyNodes(prev.nodesNear);
      var far := CopyNodes(prev.nodesFar);
      nodesNear, nodesFar := near, far;
      links := NoLinks(variant);
    }

    ghost predicate Valid()
      reads this
    {
      nodesNear.Keys !! nodesFar.Keys
      && NamedByKeys(nodesNear) && NamedByKeys(nodesFar)
    }

    function NodeKeys(): set<string>
      reads this
    {
      nodesNear.Keys + nodesFar.Keys
    }

    /** every node of the layer is one of objs */
    ghost predicate Within(objs: set<Node>)
      reads this
    {
      (forall k :: k in nodesNear ==> nodesNear[k] in objs)
      && (forall k :: k in nodesFar ==> nodesFar[k] in objs)
    }

    function NodeObjects(): set<Node>
      reads this
    {
      nodesNear.Values + nodesFar.Values
    }

    predicate HasNode(key: string)
      reads this
    {
      key in nodesNear || key in nodesFar
    }

    /** getNode(nodes, key).node: the near map is asked first. */
    function GetNode(key: string): (r: Option<Node>)
      reads this
      ensures r.Some? <==> HasNode(key)
      ensures r.Some? ==> r.value in NodeObjects()
      ensures r.Some? && Valid() ==> r.value.name == key
    {
      if key in nodesNear then Some(nodesNear[key])
      else if key in nodesFar then Some(nodesFar[key])
      else None
    }

    /** `far.get(key) || near.get(key)`, the lookup of a face's corners in
        the previous layer; the same node as GetNode in a valid layer. */
    function GetNodeFarFirst(key: string): (r: Option<Node>)
      reads this
      ensures Valid() ==> r == GetNode(key)
    {
      if key in nodesFar then Some(nodesFar[key])
      else if key in nodesNear then Some(nodesNear[key])
      else None
    }

    function NodeCount(): nat
      reads this
    {
      |nodesNear| + |nodesFar|
    }

    /** `nodes[isNear([node.z]) ? 'near' : 'far'].set(node.name, node)`, the
        last step for each node of a base solid. */
    method InsertNode(node: Node)
      modifies this
      ensures if IsNear([node.z])
              then nodesNear == old(nodesNear)[node.name := node] && nodesFar == old(nodesFar)
              else nodesFar == old(nodesFar)[node.name := node] && nodesNear == old(nodesNear)
      ensures links == old(links)
      ensures old(Valid()) && !old(HasNode(node.name)) ==> Valid()
      ensures NodeKeys() == old(NodeKeys()) + {node.name}
      ensures NodeObjects() <= old(NodeObjects()) + {node}
    {
      if IsNear([node.z]) {
        nodesNear := nodesNear[node.name := node];
      } else {
        nodesFar := nodesFar[node.name := node];
      }
    }

    /** The step every walk takes before using a lattice point: if no node
        has the key yet, create one at the given position and put it into
        the near map when isNear([z]) holds, the far map otherwise. A node
        that exists is never replaced. */
    method EnsureNode(key: string, p: Point, ghost objs: set<Node>) returns (node: Node)
      requires Valid() && Within(objs)
      modifies this
      ensures Valid() && links == old(links)
      ensures node.name == key && GetNode(key) == Some(node)
      ensures old(HasNode(key)) ==>
                node == old(GetNode(key)).value && nodesNear == old(nodesNear) && nodesFar == old(nodesFar)
      ensures !old(HasNode(key)) ==>
                fresh(node) && node.Position() == p && node.edges == [] && node.faces == []
                && (if IsNear([p.z])
                    then nodesNear == old(nodesNear)[key := node] && nodesFar == old(nodesFar)
                    else nodesFar == old(nodesFar)[key := node] && nodesNear == old(nodesNear))
      ensures Within(objs + {node}) && (old(HasNode(key)) ==> node in objs)
      ensures NodeKeys() == old(NodeKeys()) + {key}
    {
      var found := GetNode(key);
      if found.Some? {
        node := found.value;
      } else {
        node := new Node(p.x, p.y, p.z, key);
        if IsNear([node.z]) {
          nodesNear := nodesNear[key := node];
        } else {
          nodesFar := nodesFar[key := node];
        }
      }
    }
  }

  /** every node is filed under its own name */
  ghost predicate NamedByKeys(nodes: map<string, Node>)
  {
    forall k :: k in nodes ==> nodes[k].name == k
  }

  /** a key of the node maps names a node of the layer */
  lemma KeyNamesNode(layer: Layer, key: string)
    requires key in layer.NodeKeys()
    ensures layer.HasNode(key)
  {
  }

  /** While the stored keys are those of the log, an edge is stored
      exactly when its key was logged. */
  lemma LoggedHasEdge(links: Links, k: string)
    requires links.Logged()
    ensures links.HasEdge(k) <==> k in links.edgeLog
  {
    assert k in links.EdgeKeys() <==> k in Elements(links.edgeLog);
  }

  /** the keys a log mentions */
  ghost function Elements(log: seq<string>): set<string>
  {
    set e | e in log
  }

  /** the keys of the edges that join two of the names pts */
  ghost function Joining(pts: set<string>): set<string>
  {
    set x, y | x in pts && y in pts :: EdgeKey(x, y)
  }

  lemma JoiningHas(x: string, y: string, pts: set<string>)
    requires x in pts && y in pts
    ensures EdgeKey(x, y) in Joining(pts)
  {
  }

  lemma JoiningGrows(pts: set<string>, more: set<string>)
    requires pts <= more
    ensures Joining(pts) <= Joining(more)
  {
    forall e | e in Joining(pts) ensures e in Joining(more) {
      var x, y :| x in pts && y in pts && e == EdgeKey(x, y);
      JoiningHas(x, y, more);
    }
  }

  /** the key joins one of the names pts to some name */
  ghost predicate Touches(e: string, pts: set<string>)
  {
    exists x, y :: x in pts && e == EdgeKey(x, y)
  }

  lemma TouchesHas(x: string, y: string, pts: set<string>)
    requires x in pts
    ensures Touches(EdgeKey(x, y), pts)
  {
  }

  /** every key of the log touches pts */
  ghost predicate AllTouch(log: seq<string>, pts: set<string>)
  {
    forall e :: e in log ==> Touches(e, pts)
  }

  lemma ElementsConcat(log: seq<string>, more: seq<string>)
    ensures Elements(log + more) == Elements(log) + Elements(more)
  {
  }

  lemma ElementsAppend(log: seq<string>, key: string)
    ensures Elements(log + [key]) == Elements(log) + {key}
  {
  }

  /** a log grown by two runs of calls is the log grown by both at once */
  lemma LogGrows(log: seq<string>, first: seq<string>, next: seq<string>)
    ensures log + first + next == log + (first + next)
  {
  }

  /** no key occurs twice */
  predicate NoRepeats(log: seq<string>)
  {
    forall p, q :: 0 <= p < q < |log| ==> log[p] != log[q]
  }

  lemma {:induction false} NoRepeatsCount(log: seq<string>)
    requires NoRepeats(log)
    ensures |Elements(log)| == |log|
  {
    if |log| > 0 {
      var init := log[..|log| - 1];
      assert NoRepeats(init);
      NoRepeatsCount(init);
      assert log == init + [log[|log| - 1]];
      ElementsAppend(init, log[|log| - 1]);
      assert log[|log| - 1] !in Elements(init);
    }
  }

  /** every edge of the map is at most m long */
  ghost predicate Covered(edges: map<string, Edge>, m: ExtReal)
  {
    forall k :: k in edges ==> AtMost(edges[k].length, m)
  }

  /** A raised maximum that covers a new edge covers the map with the edge
      filed in it, and the map without it. */
  lemma CoveredAfterRaise(edges: map<string, Edge>, key: string, edge: Edge, m: ExtReal, m': ExtReal)
    requires Covered(edges, m) && AtMost(edge.length, m')
    requires forall l :: AtMost(l, m) ==> AtMost(l, m')
    ensures Covered(edges, m') && Covered(edges[key := edge], m')
  {
  }

  /** filing a value under a key in either map adds exactly that key */
  lemma KeysAfterStore<T>(near: map<string, T>, far: map<string, T>, key: string, v: T)
    ensures near[key := v].Keys + far.Keys == near.Keys + far.Keys + {key}
    ensures near.Keys + far[key := v].Keys == near.Keys + far.Keys + {key}
  {
  }

  /** `copy` is `orig`'s node rebuilt: same name and position, no links. */
  ghost predicate Copy(copy: Node, orig: Node)
    reads copy, orig
  {
    copy.name == orig.name && copy.Position() == orig.Position() && copy.edges == [] && copy.faces == []
  }

  /** `nodes[distType].set(nodeKey, new Node(node.x, node.y, node.z, nodeKey))`
      for every node of one map. */
  method CopyNodes(from: map<string, Node>) returns (copy: map<string, Node>)
    requires forall k :: k in from ==> from[k].name == k
    ensures copy.Keys == from.Keys
    ensures forall k :: k in copy ==> Copy(copy[k], from[k]) && fresh(copy[k])
  {
    copy := map[];
    var remaining := from.Keys;
    while remaining != {}
      invariant remaining <= from.Keys
      invariant copy.Keys == from.Keys - remaining
      invariant forall k :: k in copy ==> Copy(copy[k], from[k]) && fresh(copy[k])
      decreases remaining
    {
      var k :| k in remaining;
      var orig := from[k];
      var n := new Node(orig.x, orig.y, orig.z, k);
      copy := copy[k := n];
      remaining := remaining - {k};
    }
  }

  /** Every node key of `prev` is a node key of `next`, in the same map. */
  predicate Carried(prev: Layer, next: Layer)
    reads prev, next
  {
    prev.nodesNear.Keys <= next.nodesNear.Keys && prev.nodesFar.Keys <= next.nodesFar.Keys
  }
}
