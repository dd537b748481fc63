/** Node, Edge and Face (scripts/structures.js). A Node is an object whose
    coordinates and adjacency lists are updated in place; an Edge or a Face
    is created once, given its colour code and stored, so it is a value. */
module Structures {
  import opened Wrappers
  import opened Keys
  import opened Geometry

  class Node {
    var x: real
    var y: real
    var z: real
    /** keys of the edges connected to this node, in connection order */
    var edges: seq<string>
    /** keys of the faces connected to this node, in connection order */
    var faces: seq<string>
    const name: string

    constructor(x: real, y: real, z: real, name: string)
      ensures this.x == x && this.y == y && this.z == z && this.name == name
      ensures edges == [] && faces == []
    {
      this.x := x;
      this.y := y;
      this.z := z;
      this.edges := [];
      this.faces := [];
      this.name := name;
    }

    function Position(): Point
      reads this
    {
      Point(x, y, z)
    }

    /** updateCoord: moves the node and reports whether it crossed the
        z = 0 plane and whether either z value lies within the threshold. */
    method UpdateCoord(x': real, y': real, z': real, threshold: real := 0.0)
      returns (switched: bool, underThreshold: bool)
      modifies this
      ensures switched <==> Switched(old(z), z')
      ensures underThreshold <==> UnderThreshold(old(z), z', threshold)
      ensures x == x' && y == y' && z == z'
      ensures edges == old(edges) && faces == old(faces)
    {
      switched := (z' > 0.0) != (z > 0.0);
      underThreshold := Abs(z) < threshold || Abs(z') < threshold;
      x, y, z := x', y', z';
    }

    method AddEdge(edge: string)
      modifies this
      ensures edges == old(edges) + [edge]
      ensures faces == old(faces) && Position() == old(Position())
    {
      edges := edges + [edge];
    }

    method AddFace(face: string)
      modifies this
      ensures faces == old(faces) + [face]
      ensures edges == old(edges) && Position() == old(Position())
    {
      faces := faces + [face];
    }
  }

  /** The result `switched` of updateCoord. */
  predicate Switched(oldZ: real, newZ: real)
  {
    (newZ > 0.0) != (oldZ > 0.0)
  }

  /** The result `underThreshold` of updateCoord. */
  predicate UnderThreshold(oldZ: real, newZ: real, threshold: real)
  {
    Abs(oldZ) < threshold || Abs(newZ) < threshold
  }

  /** A node switches exactly when it moves between the near and the far
      hemisphere, as isNear classifies a single z value. */
  lemma SwitchedIsHemisphereChange(oldZ: real, newZ: real)
    ensures Switched(oldZ, newZ) <==> IsNear([oldZ]) != IsNear([newZ])
  {
    SumOne(oldZ);
    SumOne(newZ);
  }

  /** With the default threshold 0 no node is ever under the threshold. */
  lemma DefaultThresholdNeverTriggers(oldZ: real, newZ: real)
    ensures !UnderThreshold(oldZ, newZ, 0.0)
  {
  }

  /** A larger threshold flags at least the nodes a smaller one flags. */
  lemma UnderThresholdMonotone(oldZ: real, newZ: real, t1: real, t2: real)
    requires t1 <= t2 && UnderThreshold(oldZ, newZ, t1)
    ensures UnderThreshold(oldZ, newZ, t2)
  {
  }

  datatype Edge = Edge(nodes: seq<string>, length: real, colorCode: int)

  /** Face has no colour code until connectFace gives it one. */
  datatype Face = Face(nodes: seq<string>, area: real, colorCode: Option<int>)

  /** new Edge(node1, node2) */
  function NewEdge(n1: Node, n2: Node, m: Measures): (e: Edge)
    reads n1, n2
    ensures e.nodes == [n1.name, n2.name] && e.colorCode == 0
    ensures e.length == m.distance(n1.Position(), n2.Position())
  {
    Edge([n1.name, n2.name], m.distance(n1.Position(), n2.Position()), 0)
  }

  /** new Face(node1, node2, node3) */
  function NewFace(n1: Node, n2: Node, n3: Node, m: Measures): (f: Face)
    reads n1, n2, n3
    ensures f.nodes == [n1.name, n2.name, n3.name] && f.colorCode == None
    ensures f.area == m.triangleArea(n1.Position(), n2.Position(), n3.Position())
  {
    Face([n1.name, n2.name, n3.name], m.triangleArea(n1.Position(), n2.Position(), n3.Position()), None)
  }

  /** The key connectEdge files an edge under is the key of the names the
      edge stores, whichever way round they were given. */
  lemma NewEdgeKeyOfItsNames(n1: Node, n2: Node, m: Measures)
    ensures EdgeKey(NewEdge(n1, n2, m).nodes[0], NewEdge(n1, n2, m).nodes[1]) == EdgeKey(n1.name, n2.name)
    ensures EdgeKey(NewEdge(n2, n1, m).nodes[0], NewEdge(n2, n1, m).nodes[1]) == EdgeKey(n1.name, n2.name)
  {
    EdgeKeySymmetric(n1.name, n2.name);
  }
}
