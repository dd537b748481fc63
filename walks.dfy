/** What the subdividers of scripts/subdivisions.js and their copies in
    scripts/geodesic.js share: the order in which they visit the faces of
    the previous layer, the lookup of a face's corners, and the table of
    boundary nodes (`interFaceConnections`) that stitches neighbouring
    faces together. */
module Walks {
  import opened Wrappers
  import opened Keys
  import opened Geometry
  import opened Structures
  import opened Layers
  import opened Connections

  /** the names a, b, c of a face's corners, in sorted order */
  datatype Tri = Tri(a: string, b: string, c: string)

  /** the corners of a face: their names and positions */
  datatype Corners = Corners(names: Tri, pa: Point, pb: Point, pc: Point)

  /** generateNodeKey(a.name, b.name, c.name, aw, bw, cw) */
  function KeyAt(t: Tri, key: NodeKeyFn, aw: int, bw: int, cw: int): string
  {
    key(t.a, t.b, t.c, aw, bw, cw)
  }

  /** normalizeNode(...calcMidNodeCoords(a, b, c, aw, bw, cw), radius) */
  function PlaceAt(c: Corners, m: Measures, aw: real, bw: real, cw: real, radius: real): Point
  {
    m.place(c.pa, c.pb, c.pc, aw, bw, cw, radius)
  }

  /** the index of the first occurrence of k in log */
  function First(log: seq<string>, k: string): (r: nat)
    requires k in log
    ensures r < |log| && log[r] == k && k !in log[..r]
  {
    if log[0] == k then 0
    else
      var r := 1 + First(log[1..], k);
      assert log[..r] == [log[0]] + log[1..][..r - 1];
      r
  }

  /** An occurrence with none before it is the first. */
  lemma FirstAt(log: seq<string>, k: string, p: nat)
    requires p < |log| && log[p] == k && k !in log[..p]
    ensures First(log, k) == p
  {
  }

  /** every key of ks occurs in log, and each occurs there first before
      the keys after it in ks do */
  ghost predicate InsertionOrder(log: seq<string>, ks: seq<string>)
  {
    && (forall k :: k in ks ==> k in log)
    && forall i, j :: 0 <= i < j < |ks| ==> First(log, ks[i]) < First(log, ks[j])
  }

  /** Appending to a log keeps the first occurrences of the keys it had,
      and a key it lacked first occurs at the end. */
  lemma InsertionOrderAppend(log: seq<string>, ks: seq<string>, k: string)
    requires InsertionOrder(log, ks)
    ensures InsertionOrder(log + [k], ks)
    ensures k !in log ==> InsertionOrder(log + [k], ks + [k])
  {
    var log' := log + [k];
    forall e | e in log ensures First(log', e) == First(log, e) {
      var p := First(log, e);
      assert log'[..p] == log[..p];
      FirstAt(log', e, p);
    }
    if k !in log {
      assert log'[..|log|] == log;
      FirstAt(log', k, |log|);
      var ks' := ks + [k];
      forall i, j | 0 <= i < j < |ks'| ensures First(log', ks'[i]) < First(log', ks'[j]) {
        if j < |ks| {
          assert ks'[i] == ks[i] && ks'[j] == ks[j];
        } else {
          assert ks'[i] == ks[i] && ks[i] in log;
        }
      }
    }
  }

  /** Order by position in keys, keys in order in log: order in log. */
  lemma InsertionOrderThrough(log: seq<string>, keys: seq<string>, ks: seq<string>)
    requires InsertionOrder(log, keys) && InsertionOrder(keys, ks)
    ensures InsertionOrder(log, ks)
  {
    forall i, j | 0 <= i < j < |ks| ensures First(log, ks[i]) < First(log, ks[j]) {
      var p, q := First(keys, ks[i]), First(keys, ks[j]);
      assert keys[p] == ks[i] && keys[q] == ks[j];
    }
  }

  /** The keys of a log, each once, in the order of their first
      occurrence: the order in which a Map lists keys set in that order. */
  function FirstSeen(log: seq<string>): (r: seq<string>)
    ensures NoRepeats(r) && Elements(r) == Elements(log)
    ensures InsertionOrder(log, r)
  {
    if |log| == 0 then []
    else
      var init := FirstSeen(log[..|log| - 1]);
      var k := log[|log| - 1];
      assert log == log[..|log| - 1] + [k];
      ElementsAppend(log[..|log| - 1], k);
      ElementsAppend(init, k);
      assert k in init <==> k in log[..|log| - 1] by {
        assert k in init <==> k in Elements(init);
      }
      InsertionOrderAppend(log[..|log| - 1], init, k);
      if k in init then init else init + [k]
  }

  /** the keys of keys that the map holds, in the order of keys */
  function Kept<V>(keys: seq<string>, m: map<string, V>): (r: seq<string>)
    ensures forall k :: k in r <==> k in keys && k in m
    ensures NoRepeats(keys) ==> InsertionOrder(keys, r)
  {
    if |keys| == 0 then []
    else
      var tail := Kept(keys[1..], m);
      var head := if keys[0] in m then [keys[0]] else [];
      KeptStep(keys, head, tail);
      head + tail
  }

  /** Putting the first key, or nothing, before keys in the order of the
      rest keeps them in the order of keys. */
  lemma KeptStep(keys: seq<string>, head: seq<string>, tail: seq<string>)
    requires |keys| > 0 && (head == [] || head == [keys[0]])
    requires forall e :: e in tail ==> e in keys[1..]
    requires NoRepeats(keys[1..]) ==> InsertionOrder(keys[1..], tail)
    ensures NoRepeats(keys) ==> InsertionOrder(keys, head + tail)
  {
    if NoRepeats(keys) {
      var rest := keys[1..];
      assert NoRepeats(rest) && keys[0] !in rest by {
        forall p, q | 0 <= p < q < |rest| ensures rest[p] != rest[q] {
          assert rest[p] == keys[p + 1] && rest[q] == keys[q + 1];
        }
      }
      var r := head + tail;
      forall i, j | 0 <= i < j < |r| ensures r[i] in keys && r[j] in keys && First(keys, r[i]) < First(keys, r[j]) {
        var b := tail[j - |head|];
        assert r[j] == b && b in rest && b != keys[0];
        if |head| == 1 && i == 0 {
          assert r[i] == keys[0];
        } else {
          var a := tail[i - |head|];
          assert r[i] == a && a in rest && a != keys[0];
          assert First(rest, a) < First(rest, b);
        }
      }
    }
  }

  /** the values the map holds at the keys, in key order */
  function Look<V>(ks: seq<string>, m: map<string, V>): (r: seq<V>)
    requires forall k :: k in ks ==> k in m
    ensures |r| == |ks| && forall i :: 0 <= i < |ks| ==> r[i] == m[ks[i]]
  {
    if |ks| == 0 then [] else [m[ks[0]]] + Look(ks[1..], m)
  }

  /** faces lists the near faces, then the far ones, each by the first
      occurrence of its key in the face log */
  ghost predicate NearThenFar(links: Links, faces: seq<Face>)
  {
    var keys := FirstSeen(links.faceLog);
    var near, far := Kept(keys, links.facesNear), Kept(keys, links.facesFar);
    && InsertionOrder(links.faceLog, near) && InsertionOrder(links.faceLog, far)
    && faces == Look(near, links.facesNear) + Look(far, links.facesFar)
  }

  /** `for (const distType of Object.keys(layer.faces))
      layer.faces[distType].forEach(...)`: the near faces, then the far ones,
      each map in the order in which its keys were first set. This takes
      the order of first occurrence in the shared face log to be each map's
      insertion order: it holds when a face key is always filed in the same
      map, which the corners' fixed z values within a layer give, but the
      model does not prove it. */
  function OrderedFaces(links: Links): (r: seq<Face>)
    ensures NearThenFar(links, r)
    ensures links.Logged() ==> forall k :: k in links.facesNear ==> links.facesNear[k] in r
    ensures links.Logged() ==> forall k :: k in links.facesFar ==> links.facesFar[k] in r
    ensures forall f :: f in r ==> f in links.facesNear.Values || f in links.facesFar.Values
  {
    var keys := FirstSeen(links.faceLog);
    var near, far := Kept(keys, links.facesNear), Kept(keys, links.facesFar);
    InsertionOrderThrough(links.faceLog, keys, near);
    InsertionOrderThrough(links.faceLog, keys, far);
    LookValues(near, links.facesNear);
    LookValues(far, links.facesFar);
    LoggedFirstSeen(links, keys);
    LookHas(near, links.facesNear);
    LookHas(far, links.facesFar);
    Look(near, links.facesNear) + Look(far, links.facesFar)
  }

  /** Under Logged, every stored face key is one of the log's keys. */
  lemma LoggedFirstSeen(links: Links, keys: seq<string>)
    requires Elements(keys) == Elements(links.faceLog)
    ensures links.Logged() ==> forall k :: k in links.facesNear ==> k in keys
    ensures links.Logged() ==> forall k :: k in links.facesFar ==> k in keys
  {
    forall k | links.Logged() && (k in links.facesNear || k in links.facesFar) ensures k in keys {
      assert k in links.FaceKeys();
      assert k in Elements(keys);
    }
  }

  lemma LookHas<V>(ks: seq<string>, m: map<string, V>)
    requires forall k :: k in ks ==> k in m
    ensures forall k :: k in ks ==> m[k] in Look(ks, m)
  {
    forall k | k in ks ensures m[k] in Look(ks, m) {
      var i :| 0 <= i < |ks| && ks[i] == k;
      assert Look(ks, m)[i] == m[k];
    }
  }

  lemma LookValues<V>(ks: seq<string>, m: map<string, V>)
    requires forall k :: k in ks ==> k in m
    ensures forall v :: v in Look(ks, m) ==> v in m.Values
  {
    forall v | v in Look(ks, m) ensures v in m.Values {
      var i :| 0 <= i < |ks| && Look(ks, m)[i] == v;
      assert m[ks[i]] == v;
    }
  }

  /** what a face needs for the walk over it: at least three names, and
      the first three in sorted order name nodes of the previous layer */
  ghost predicate Ready(prev: Layer, f: Face)
    reads prev
  {
    |f.nodes| >= 3
    && var s := SortNames(f.nodes);
       prev.HasNode(s[0]) && prev.HasNode(s[1]) && prev.HasNode(s[2])
  }

  /** every face of the list can be walked: it names three nodes of the
      previous layer */
  ghost predicate AllReady(prev: Layer, faces: seq<Face>)
    reads prev
  {
    forall i :: 0 <= i < |faces| ==> Ready(prev, faces[i])
  }

  /** A ready face extends a ready prefix. */
  lemma ReadyGrows(prev: Layer, faces: seq<Face>, i: nat)
    requires i < |faces| && AllReady(prev, faces[..i]) && Ready(prev, faces[i])
    ensures AllReady(prev, faces[..i + 1])
    ensures forall j :: 0 <= j <= i ==> |faces[j].nodes| >= 3
    ensures prev.HasNode(NamesOf(faces[i]).a)
  {
    assert forall j :: 0 <= j <= i ==> faces[..i + 1][j] == faces[j];
  }

  /** A face that is not ready keeps the whole list from being ready. */
  lemma NotAllReady(prev: Layer, faces: seq<Face>, i: nat)
    requires i < |faces| && !Ready(prev, faces[i])
    ensures !AllReady(prev, faces)
  {
  }

  /** the first three of the sorted names */
  function NamesOf(f: Face): Tri
    requires |f.nodes| >= 3
  {
    var s := SortNames(f.nodes);
    Tri(s[0], s[1], s[2])
  }

  /** `for (const nodeKey of face.nodes.sort()) faceNodes.push(far.get(nodeKey)
      || near.get(nodeKey))` and `const [a, b, c] = faceNodes`: the walk
      throws on its first `a.name` when a corner is missing. */
  method FaceCorners(prev: Layer, f: Face) returns (r: Result<Corners>)
    requires prev.Valid()
    ensures r.Success? <==> Ready(prev, f)
    ensures r.Failure? ==> (r.error.MalformedFace? <==> |f.nodes| < 3)
    ensures r.Success? ==>
              r.value.names == NamesOf(f)
              && r.value.pa == prev.GetNode(r.value.names.a).value.Position()
              && r.value.pb == prev.GetNode(r.value.names.b).value.Position()
              && r.value.pc == prev.GetNode(r.value.names.c).value.Position()
  {
    if |f.nodes| < 3 {
      return Failure(MalformedFace(Join(f.nodes)));
    }
    var s := SortNames(f.nodes);
    var a := prev.GetNodeFarFirst(s[0]);
    var b := prev.GetNodeFarFirst(s[1]);
    var c := prev.GetNodeFarFirst(s[2]);
    if a.None? {
      return Failure(NodeNotFound(s[0]));
    }
    if b.None? {
      return Failure(NodeNotFound(s[1]));
    }
    if c.None? {
      return Failure(NodeNotFound(s[2]));
    }
    r := Success(Corners(Tri(s[0], s[1], s[2]), a.value.Position(), b.value.Position(), c.value.Position()));
  }

  /** connectEdge as the walks use it: the edge key is logged, the node
      maps and the face log stay as they are and the stored keys stay
      those of the log. */
  method WalkEdge(layer: Layer, n1: Node, n2: Node, m: Measures, variant: Variant)
    modifies layer, n1, n2
    ensures layer.links.edgeLog == old(layer.links.edgeLog) + [EdgeKey(n1.name, n2.name)]
    ensures layer.links.faceLog == old(layer.links.faceLog)
    ensures old(layer.links.Logged()) ==> layer.links.Logged()
    ensures layer.nodesNear == old(layer.nodesNear) && layer.nodesFar == old(layer.nodesFar)
    ensures old(layer.links.Good(variant)) ==> layer.links.Good(variant)
  {
    ConnectEdge(layer, n1, n2, m, variant);
  }

  /** connectFace as the walks use it: the face key is logged, and the
      edge log and the node maps stay as they are. */
  method WalkFace(layer: Layer, n1: Node, n2: Node, n3: Node, m: Measures, variant: Variant)
    modifies layer, n1, n2, n3
    ensures layer.links.faceLog == old(layer.links.faceLog) + [FaceKey(n1.name, n2.name, n3.name)]
    ensures layer.links.edgeLog == old(layer.links.edgeLog)
    ensures old(layer.links.Logged()) ==> layer.links.Logged()
    ensures layer.nodesNear == old(layer.nodesNear) && layer.nodesFar == old(layer.nodesFar)
    ensures old(layer.links.Good(variant)) ==> layer.links.Good(variant)
  {
    ConnectFace(layer, n1, n2, n3, m, variant);
  }

  /** The edge log after `if (!getEdge(edges, guard).edge) connectEdge(...)`
      for an edge filed under k, in a layer whose stored keys are those of
      its log: the call is made, and k logged, unless `guard` was logged. */
  function Once(log: seq<string>, guard: string, k: string): seq<string>
  {
    if guard in log then log else log + [k]
  }

  lemma OnceElements(log: seq<string>, guard: string, k: string)
    ensures Elements(log) <= Elements(Once(log, guard, k)) <= Elements(log) + {k}
  {
    ElementsAppend(log, k);
  }

  /** The step every walk repeats: the point `name` is created at p unless
      the layer has it, filed in the near map when isNear of p's z holds
      and in the far map otherwise, and joined to the point `from` unless
      that edge is stored; `fromFirst` says which end connectEdge is given
      first. */
  method Extend(layer: Layer, from: string, name: string, p: Point, fromFirst: bool,
                ghost objs: set<Node>, m: Measures, variant: Variant)
    returns (node: Node, ghost objs': set<Node>)
    requires layer.Valid() && layer.Within(objs) && layer.HasNode(from) && layer.links.Logged()
    modifies layer, objs
    ensures layer.Valid() && layer.Within(objs') && fresh(objs' - objs) && node in objs'
    ensures node.name == name && layer.NodeKeys() == old(layer.NodeKeys()) + {name}
    ensures old(layer.HasNode(name)) ==> layer.nodesNear == old(layer.nodesNear) && layer.nodesFar == old(layer.nodesFar)
    ensures !old(layer.HasNode(name)) ==>
              if IsNear([p.z]) then layer.nodesNear == old(layer.nodesNear)[name := node] && layer.nodesFar == old(layer.nodesFar)
              else layer.nodesFar == old(layer.nodesFar)[name := node] && layer.nodesNear == old(layer.nodesNear)
    ensures old(layer.nodesNear.Keys) <= layer.nodesNear.Keys && old(layer.nodesFar.Keys) <= layer.nodesFar.Keys
    ensures layer.links.Logged() && layer.links.faceLog == old(layer.links.faceLog)
    ensures layer.links.edgeLog == Once(old(layer.links.edgeLog), EdgeKey(from, name), EdgeKey(from, name))
    ensures old(layer.links.Good(variant)) ==> layer.links.Good(variant)
  {
    var fromNode := layer.GetNode(from).value;
    node := layer.EnsureNode(name, p, objs);
    objs' := objs + {node};
    LoggedHasEdge(layer.links, EdgeKey(from, name));
    if !layer.links.HasEdge(EdgeKey(from, name)) {
      if fromFirst {
        WalkEdge(layer, fromNode, node, m, variant);
      } else {
        EdgeKeySymmetric(name, from);
        WalkEdge(layer, node, fromNode, m, variant);
      }
    }
  }

  /** `if (!interFaceConnections.has(k)) interFaceConnections.set(k, names)`
      at the end of each face */
  function Remember(table: map<string, seq<string>>, k: string, names: seq<string>): (r: map<string, seq<string>>)
    ensures r.Keys == table.Keys + {k}
    ensures forall e :: e in table ==> r[e] == table[e]
    ensures k !in table ==> r[k] == names
  {
    if k in table then table else table[k := names]
  }

  /** the table after a run of such writes, one per base edge */
  function RememberAll(table: map<string, seq<string>>, writes: seq<(string, seq<string>)>): map<string, seq<string>>
  {
    if |writes| == 0 then table
    else Remember(RememberAll(table, writes[..|writes| - 1]), writes[|writes| - 1].0, writes[|writes| - 1].1)
  }

  /** The first face to write a base edge's boundary list fixes it: later
      writes for the same edge change nothing. */
  lemma {:induction false} FirstWriterWins(table: map<string, seq<string>>, writes: seq<(string, seq<string>)>, i: nat)
    requires i < |writes| && writes[i].0 !in table
    requires forall j :: 0 <= j < i ==> writes[j].0 != writes[i].0
    ensures writes[i].0 in RememberAll(table, writes)
    ensures RememberAll(table, writes)[writes[i].0] == writes[i].1
  {
    var n := |writes|;
    if i == n - 1 {
      KeyNotYetWritten(table, writes[..n - 1], writes[i].0);
      assert writes[..n - 1] == writes[..i];
    } else {
      assert writes[..n - 1][i] == writes[i];
      FirstWriterWins(table, writes[..n - 1], i);
    }
  }

  /** a key no write names is absent after the writes when it was before */
  lemma {:induction false} KeyNotYetWritten(table: map<string, seq<string>>, writes: seq<(string, seq<string>)>, k: string)
    requires k !in table && forall j :: 0 <= j < |writes| ==> writes[j].0 != k
    ensures k !in RememberAll(table, writes)
  {
    if |writes| > 0 {
      var init := writes[..|writes| - 1];
      assert forall j :: 0 <= j < |init| ==> init[j] == writes[j];
      KeyNotYetWritten(table, init, k);
    }
  }
}
