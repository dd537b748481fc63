/** scripts/blueprintHandler.js: the blueprint a user edits (a base shape
    and a list of subdivision layers) and the build that turns it into a
    structure, one layer after another. The handler builds with the
    generators of scripts/geodesic.js, the Monolithic copy. */
module Blueprints {
  import opened Wrappers
  import opened Keys
  import opened Geometry
  import opened Colours
  import opened Layers
  import opened Walks
  import BaseShapes
  import ClassOne
  import ClassTwo

  /** one entry of `blueprint.layers`: the name of a subdivider and its
      frequency pair [m, n] */
  datatype LayerSpec = LayerSpec(subClass: string, frequency: (nat, nat))

  datatype Blueprint = Blueprint(baseShape: string, layers: seq<LayerSpec>)

  /** one entry of `structure.layers`: a layer and the maxEdgeLength its
      generator returned with it */
  datatype Built = Built(layer: Layer, maxEdgeLength: Option<ExtReal>)

  /** the keys of `blueprintMap` that name base generators */
  const BaseNames: set<string> := {"tetrahedron", "octahedron", "icosahedron"}

  /** the keys of `blueprintMap` that name subdividers; "classIII" is not
      one of them */
  const SubdivisionNames: set<string> := {"classI", "classII"}

  /** the corners of each base shape */
  function CornerCount(baseShape: string): nat
  {
    if baseShape == "tetrahedron" then 4 else if baseShape == "octahedron" then 6 else 12
  }

  /** addLayer: one `{class, frequency}` pushed onto the end of the list */
  function AddLayer(layers: seq<LayerSpec>, subClass: string, frequency: (nat, nat)): (r: seq<LayerSpec>)
    ensures |r| == |layers| + 1 && r[..|layers|] == layers
    ensures r[|layers|].subClass == subClass && r[|layers|].frequency == frequency
  {
    layers + [LayerSpec(subClass, frequency)]
  }

  /** getDefaultBlueprint: the icosahedron, subdivided by class II at
      frequency 2, then class I at 3, then class I at 2 */
  function DefaultBlueprint(): (b: Blueprint)
    ensures b.baseShape == "icosahedron" && b.baseShape in BaseNames
    ensures b.layers == [LayerSpec("classII", (2, 0)), LayerSpec("classI", (3, 0)), LayerSpec("classI", (2, 0))]
    ensures forall i :: 0 <= i < |b.layers| ==> b.layers[i].subClass in SubdivisionNames
  {
    var layers := AddLayer(AddLayer(AddLayer([], "classII", (2, 0)), "classI", (3, 0)), "classI", (2, 0));
    Blueprint("icosahedron", layers)
  }

  /** A frequency as a subdivider receives it: the pair [m, n] it indexes,
      or the bare number that addLayer is documented to take. */
  datatype FrequencyArg = Pair(m: nat, n: nat) | Scalar(f: nat)

  /** `nv = frequency[0] + frequency[1]`: a bare number has no entries 0
      and 1, both reads give undefined and the sum is NaN (None). */
  function FrequencySum(f: FrequencyArg): (r: Option<nat>)
    ensures r.Some? <==> f.Pair?
    ensures f.Pair? ==> r == Some(f.m + f.n)
  {
    match f
    case Pair(m, n) => Some(m + n)
    case Scalar(_) => None
  }

  /** The rounds of classILayer's depth loop `while (bw < nv)`, bw counting
      0, 1, ...: nv of them, and none when nv is NaN, since every comparison
      with NaN is false. */
  function ClassIRounds(nv: Option<nat>): (r: nat)
    ensures nv.Some? ==> r == nv.value
    ensures nv.None? ==> r == 0
  {
    if nv.Some? then nv.value else 0
  }

  /** The rounds of classIILayer's depth loop `while (bw + .1 < nv)`:
      DepthCount(nv) of them, and none when nv is NaN. */
  function ClassIIRounds(nv: Option<nat>): (r: nat)
    ensures nv.Some? ==> r == ClassTwo.DepthCount(nv.value) && r >= nv.value
    ensures nv.None? ==> r == 0
  {
    if nv.Some? then ClassTwo.DepthCount(nv.value) else 0
  }

  /** the frequencies getDefaultBlueprint passes to addLayer as written:
      the bare numbers 2, 3 and 2 */
  function DefaultArgsAsWritten(): (r: seq<FrequencyArg>)
    ensures |r| == 3 && forall i :: 0 <= i < |r| ==> r[i].Scalar?
  {
    [Scalar(2), Scalar(3), Scalar(2)]
  }

  /** As written, every layer of the default blueprint gets nv = NaN: the
      depth loop of each walk runs no round, so the Class I layers connect
      no edge and no face, and neither does the Class II layer, whose loop
      `while (bw + .1 < nv)` fails on NaN just the same. */
  lemma DefaultAsWrittenWalksNothing(t: Tri, key: NodeKeyFn, key3: NodeKeyFn)
    ensures forall i :: 0 <= i < |DefaultArgsAsWritten()| ==>
              FrequencySum(DefaultArgsAsWritten()[i]).None?
              && ClassIRounds(FrequencySum(DefaultArgsAsWritten()[i])) == 0
              && ClassIIRounds(FrequencySum(DefaultArgsAsWritten()[i])) == 0
    ensures forall nv: nat :: ClassOne.WalkFaces(t, key, nv, ClassIRounds(None)) == []
    ensures forall nv: nat, log :: ClassOne.WalkEdges(log, t, key, nv, ClassIRounds(None)) == log
    ensures forall nv: nat, table :: ClassTwo.WalkFaces(t, key3, nv, table, ClassIIRounds(None)) == []
    ensures forall nv: nat, table :: ClassTwo.WalkEdges(t, key3, nv, table, ClassIIRounds(None)) == []
  {
  }

  /** With the frequencies as the pairs the subdividers index, the default
      layers get nv = 2, 3, 2: the Class II layer's depth loop runs nv times,
      and each Class I walk over a face runs nv rounds and connects nv * nv
      faces. */
  lemma DefaultBlueprintWalks(t: Tri, key: NodeKeyFn, i: nat)
    requires i < |DefaultBlueprint().layers|
    ensures var s := DefaultBlueprint().layers[i];
            var nv := FrequencySum(Pair(s.frequency.0, s.frequency.1));
            && nv == Some(if i == 1 then 3 else 2)
            && (s.subClass == "classII" ==> ClassTwo.DepthCount(nv.value) == nv.value)
            && (s.subClass == "classI" ==>
                  ClassIRounds(nv) == nv.value && |ClassOne.WalkFaces(t, key, nv.value, nv.value)| == nv.value * nv.value)
  {
    hide *;
    var s := DefaultBlueprint().layers[i];
    var nv := s.frequency.0 + s.frequency.1;
    ClassTwo.DepthLoopRuns(nv, 0);
    ClassOne.WalkFacesCount(t, key, nv, nv);
  }

  /** the base layer as `blueprintMap[baseShape](options)` builds it: its
      corners, and the edge and face keys in the order the generator
      connected them (for the icosahedron, as its connection table dictates) */
  ghost predicate Based(base: Built, baseShape: string, table: seq<seq<nat>>)
    reads base.layer
  {
    var links := base.layer.links;
    && base.layer.Valid() && links.Logged()
    && base.layer.NodeKeys() == BaseShapes.Letters(CornerCount(baseShape))
    && (baseShape == "tetrahedron" ==>
          && links.edgeLog == ["a-b", "b-c", "a-c", "c-d", "b-d", "a-d"]
          && links.faceLog == ["a-b-c", "b-c-d", "a-c-d", "a-b-d"])
    && (baseShape == "octahedron" ==>
          && links.edgeLog == ["a-c", "b-c", "a-d", "b-d",
                               "a-e", "c-e", "d-e", "b-e", "c-e", "d-e",
                               "a-f", "c-f", "d-f", "b-f", "c-f", "d-f"]
          && links.faceLog == ["a-c-e", "a-d-e", "b-c-e", "b-d-e", "a-c-f", "a-d-f", "b-c-f", "b-d-f"])
    && (baseShape == "icosahedron" ==>
          BaseShapes.IcosaTable(table) && BaseShapes.LogsOf(links) == BaseShapes.IcosaLogs(table, 12))
    && base.maxEdgeLength == NearLength(links, if baseShape == "octahedron" then "a-c" else "a-b")
  }

  /** `next` is what the function `spec` names made of `prev`. For a
      subdivider: every face of `prev` named three of its nodes, and `next`
      holds the nodes of `prev`, each in the same near/far map, and the
      points of the walks over those faces, in the order the faces are
      listed, with the edges and faces of those walks logged in call order.
      For "octahedron", the one base generator that survives being handed
      a layer as its options: a new octahedron, which ignores `prev`. */
  ghost predicate Subdivided(prev: Layer, next: Built, spec: LayerSpec, key: NodeKeyFn, key3: NodeKeyFn)
    reads prev, next.layer
  {
    && (spec.subClass in SubdivisionNames || spec.subClass == "octahedron")
    && (spec.subClass == "octahedron" ==> Based(next, "octahedron", []))
    && (spec.subClass in SubdivisionNames ==> Subdivision(prev, next, spec, key, key3))
  }

  /** the subdivider case of Subdivided */
  ghost predicate Subdivision(prev: Layer, next: Built, spec: LayerSpec, key: NodeKeyFn, key3: NodeKeyFn)
    reads prev, next.layer
  {
    var faces, nv := OrderedFaces(prev.links), spec.frequency.0 + spec.frequency.1;
    && AllReady(prev, faces)
    && next.layer.Valid() && next.maxEdgeLength == None
    && Carried(prev, next.layer) && next.layer.links.Logged()
    && (spec.subClass == "classI" ==>
          && next.layer.NodeKeys() == prev.NodeKeys() + ClassOne.LayerPoints(faces, key, nv)
          && next.layer.links.faceLog == ClassOne.LayerFaces(faces, key, nv)
          && next.layer.links.edgeLog == ClassOne.LayerEdges(faces, key, nv))
    && (spec.subClass == "classII" ==>
          && next.layer.NodeKeys() == prev.NodeKeys() + ClassTwo.LayerPoints(faces, key3, nv)
          && next.layer.links.faceLog == ClassTwo.LayerFaces(faces, key3, nv)
          && next.layer.links.edgeLog == ClassTwo.LayerEdges(faces, key3, nv))
  }

  /** `blueprintMap[baseShape](options)`. A name with no entry gives
      undefined, and calling it throws; a subdivider's name calls the
      subdivider with no layer and no frequency, and it throws reading
      `frequency[0]`. Names the map inherits from Object.prototype, such as
      "toString", find a method that returns without throwing; they are
      treated here like names with no entry. */
  method BuildBase(baseShape: string, options: BuildOptions, table: seq<seq<nat>>, m: Measures)
    returns (r: Result<Built>)
    requires BaseShapes.IcosaTable(table)
    ensures r.Success? <==> baseShape in BaseNames
    ensures r.Failure? ==> r.error == UnknownBaseShape(baseShape)
    ensures r.Success? ==> fresh(r.value.layer) && Based(r.value, baseShape, table)
  {
    var layer, maxEdgeLength;
    if baseShape == "tetrahedron" {
      layer, maxEdgeLength := BaseShapes.Tetrahedron(options, m, Monolithic);
    } else if baseShape == "octahedron" {
      layer, maxEdgeLength := BaseShapes.Octahedron(options, m, Monolithic);
    } else if baseShape == "icosahedron" {
      layer, maxEdgeLength := BaseShapes.Icosahedron(options, table, m, Monolithic);
    } else {
      return Failure(UnknownBaseShape(baseShape));
    }
    r := Success(Built(layer, maxEdgeLength));
  }

  /** `blueprintMap["octahedron"](previousLayer, options, frequency)`: a
      new octahedron. */
  method OctahedronLayer(options: BuildOptions, m: Measures) returns (r: Built)
    ensures fresh(r.layer) && r.layer.Valid() && Based(r, "octahedron", [])
  {
    var solid, solidMax := BaseShapes.Octahedron(options, m, Monolithic);
    r := Built(solid, solidMax);
  }

  /** `classILayer` or `classIILayer` of the previous layer, at the layer's
      frequency, in the Monolithic copy. */
  method Subdivider(prev: Layer, spec: LayerSpec, options: BuildOptions, key: NodeKeyFn, key3: NodeKeyFn, m: Measures)
    returns (r: Result<Built>)
    requires prev.Valid() && NamesCorners(key) && NamesCorners(key3) && spec.subClass in SubdivisionNames
    ensures spec.subClass == "classI" ==> (r.Success? <==> AllReady(prev, OrderedFaces(prev.links)))
    ensures spec.subClass == "classII" && !AllReady(prev, OrderedFaces(prev.links)) ==> r.Failure?
    ensures r.Success? ==> fresh(r.value.layer) && r.value.layer.Valid() && Subdivision(prev, r.value, spec, key, key3)
  {
    hide OrderedFaces, NearThenFar, AllReady, Layer.Valid, ClassOne.LayerPoints, ClassOne.LayerFaces, ClassTwo.LayerPoints, ClassTwo.LayerFaces,
         ClassOne.LayerEdges, ClassTwo.LayerEdges, Carried, Links.Logged, Links.Good;
    var next, maxEdgeLength;
    if spec.subClass == "classI" {
      next, maxEdgeLength := ClassOne.ClassILayer(prev, options, spec.frequency, key, m, Monolithic);
    } else {
      next, maxEdgeLength := ClassTwo.ClassIILayer(prev, options, spec.frequency, key3, m, Monolithic);
    }
    if next.Failure? {
      return Failure(next.error);
    }
    r := Success(Built(next.value, maxEdgeLength));
  }

  /** `blueprintMap[layer.class](previousLayer, options, layer.frequency)`.
      A class with no entry gives undefined, and calling it throws. A base
      generator's name calls that generator with the previous layer as its
      options: the layer has no sizeConstraint, so the radius is NaN. Every
      corner of the tetrahedron and of the icosahedron then has a NaN z,
      isNear files nothing near, and reading `edges.near.get('a-b').length`
      throws. The octahedron's corners a to d keep z = 0, so 'a-c' is near
      and the generator returns an octahedron. */
  method Subdivide(prev: Layer, spec: LayerSpec, options: BuildOptions, key: NodeKeyFn, key3: NodeKeyFn, m: Measures)
    returns (r: Result<Built>)
    requires prev.Valid() && NamesCorners(key) && NamesCorners(key3)
    ensures spec.subClass !in SubdivisionNames + BaseNames ==> r == Failure(UnknownSubdivisionClass(spec.subClass))
    ensures spec.subClass in {"tetrahedron", "icosahedron"} ==> r == Failure(EdgeNotFound("a-b"))
    ensures spec.subClass == "octahedron" ==> r.Success?
    ensures spec.subClass == "classI" ==> (r.Success? <==> AllReady(prev, OrderedFaces(prev.links)))
    ensures spec.subClass == "classII" && !AllReady(prev, OrderedFaces(prev.links)) ==> r.Failure?
    ensures r.Success? ==> fresh(r.value.layer) && r.value.layer.Valid() && Subdivided(prev, r.value, spec, key, key3)
  {
    hide OrderedFaces, AllReady, Layer.Valid, Based, Subdivision;
    if spec.subClass == "octahedron" {
      var solid := OctahedronLayer(options, m);
      r := Success(solid);
    } else if spec.subClass in {"tetrahedron", "icosahedron"} {
      r := Failure(EdgeNotFound("a-b"));
    } else if spec.subClass in SubdivisionNames {
      r := Subdivider(prev, spec, options, key, key3, m);
    } else {
      r := Failure(UnknownSubdivisionClass(spec.subClass));
    }
  }

  /** the handler: its blueprint is the only state it changes */
  class BlueprintHandler {
    var blueprint: Blueprint

    /** a handler starts with the default blueprint */
    constructor()
      ensures blueprint == DefaultBlueprint()
    {
      blueprint := DefaultBlueprint();
    }

    /** updateBaseShape: only the base shape changes */
    method UpdateBaseShape(newBaseShape: string)
      modifies this
      ensures blueprint.baseShape == newBaseShape && blueprint.layers == old(blueprint.layers)
    {
      blueprint := blueprint.(baseShape := newBaseShape);
    }

    /** updateClassOfLayer: only the class of entry `layerIndex` changes.
        An index outside the list reads undefined, and setting its `class`
        throws. */
    method UpdateClassOfLayer(layerIndex: int, newSubClass: string) returns (r: Result<()>)
      modifies this
      ensures r.Success? <==> 0 <= layerIndex < |old(blueprint.layers)|
      ensures r.Failure? ==> r.error == IndexOutOfRange(layerIndex) && blueprint == old(blueprint)
      ensures r.Success? ==>
                && blueprint.baseShape == old(blueprint.baseShape)
                && |blueprint.layers| == |old(blueprint.layers)|
                && blueprint.layers[layerIndex] == old(blueprint.layers[layerIndex]).(subClass := newSubClass)
                && forall j :: 0 <= j < |blueprint.layers| && j != layerIndex ==> blueprint.layers[j] == old(blueprint.layers[j])
    {
      if !(0 <= layerIndex < |blueprint.layers|) {
        return Failure(IndexOutOfRange(layerIndex));
      }
      var layers := blueprint.layers;
      blueprint := blueprint.(layers := layers[layerIndex := layers[layerIndex].(subClass := newSubClass)]);
      r := Success(());
    }

    /** updateFrequencyOfLayer: only the frequency of entry `layerIndex`
        changes; an index outside the list throws as above. */
    method UpdateFrequencyOfLayer(layerIndex: int, newFrequency: (nat, nat)) returns (r: Result<()>)
      modifies this
      ensures r.Success? <==> 0 <= layerIndex < |old(blueprint.layers)|
      ensures r.Failure? ==> r.error == IndexOutOfRange(layerIndex) && blueprint == old(blueprint)
      ensures r.Success? ==>
                && blueprint.baseShape == old(blueprint.baseShape)
                && |blueprint.layers| == |old(blueprint.layers)|
                && blueprint.layers[layerIndex] == old(blueprint.layers[layerIndex]).(frequency := newFrequency)
                && forall j :: 0 <= j < |blueprint.layers| && j != layerIndex ==> blueprint.layers[j] == old(blueprint.layers[j])
    {
      if !(0 <= layerIndex < |blueprint.layers|) {
        return Failure(IndexOutOfRange(layerIndex));
      }
      var layers := blueprint.layers;
      blueprint := blueprint.(layers := layers[layerIndex := layers[layerIndex].(frequency := newFrequency)]);
      r := Success(());
    }

    /** buildStructure: the base layer, then one layer per blueprint entry,
        each subdividing the one before it; the build stops at the first
        name `blueprintMap` does not hold and at the first subdivider that
        fails. Names inherited from Object.prototype count as names the map
        does not hold. The blueprint is not changed. */
    method BuildStructure(options: BuildOptions, key: NodeKeyFn, key3: NodeKeyFn, table: seq<seq<nat>>, m: Measures)
      returns (r: Result<seq<Built>>)
      requires NamesCorners(key) && NamesCorners(key3) && BaseShapes.IcosaTable(table)
      ensures blueprint.baseShape !in BaseNames ==> r == Failure(UnknownBaseShape(blueprint.baseShape))
      ensures blueprint.baseShape in BaseNames && blueprint.layers == [] ==> r.Success? && |r.value| == 1
      ensures r.Success? ==>
                && |r.value| == |blueprint.layers| + 1
                && Based(r.value[0], blueprint.baseShape, table)
                && forall i :: 0 <= i < |blueprint.layers| ==>
                     Subdivided(r.value[i].layer, r.value[i + 1], blueprint.layers[i], key, key3)
    {
      var base := BuildBase(blueprint.baseShape, options, table, m);
      if base.Failure? {
        return Failure(base.error);
      }
      r := SubdivideLayers(base.value, options, key, key3, m);
    }

    /** The loop of buildStructure: each blueprint entry subdivides the
        layer built last, starting from `first`. */
    method SubdivideLayers(first: Built, options: BuildOptions, key: NodeKeyFn, key3: NodeKeyFn, m: Measures)
      returns (r: Result<seq<Built>>)
      requires first.layer.Valid() && NamesCorners(key) && NamesCorners(key3)
      ensures blueprint.layers == [] ==> r == Success([first])
      ensures r.Success? ==>
                && |r.value| == |blueprint.layers| + 1 && r.value[0] == first
                && forall i :: 0 <= i < |blueprint.layers| ==>
                     Subdivided(r.value[i].layer, r.value[i + 1], blueprint.layers[i], key, key3)
    {
      hide OrderedFaces, ClassOne.LayerPoints, ClassOne.LayerFaces, ClassOne.LayerEdges, ClassTwo.LayerPoints,
           ClassTwo.LayerFaces, ClassTwo.LayerEdges, Links.Logged, BaseShapes.Letters, NearLength;
      var layers := [first];
      var i := 0;
      while i < |blueprint.layers|
        invariant i <= |blueprint.layers| && |layers| == i + 1 && layers[0] == first && layers[i].layer.Valid()
        invariant forall j :: 0 <= j < i ==> Subdivided(layers[j].layer, layers[j + 1], blueprint.layers[j], key, key3)
      {
        var next := Subdivide(layers[i].layer, blueprint.layers[i], options, key, key3, m);
        if next.Failure? {
          return Failure(next.error);
        }
        layers := layers + [next.value];
        i := i + 1;
      }
      assert blueprint.layers == [] ==> layers == [first];
      r := Success(layers);
    }
  }
}
