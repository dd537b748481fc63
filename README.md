# geo-js mesh builder, modelled in Dafny

geo-js builds geodesic polyhedra for display in a browser. A structure is a
list of layers. The first layer is a base solid: a tetrahedron, an octahedron
or an icosahedron, whose corners are named "a", "b", "c", ... and lie on a
sphere. Every later layer subdivides each triangular face of the layer before
it. Class I walks a lattice of whole barycentric weights. Class II walks a
lattice rotated by slides of 2/3. Class III takes a frequency pair (m, n).
A layer keeps its nodes, edges and faces in two maps each, "near" and "far",
according to the sign of their z values. Edges are grouped into colour
buckets by rounded length, and faces by a rounded area key. Neighbouring
faces are stitched together through the table `interFaceConnections`, which
stores the nodes met along each base edge.

This project models the combinatorial core of that builder. It covers:

- the node, edge and face records (`scripts/structures.js`);
- the two connect primitives in both copies: `scripts/connections.js` (the
  Modular copy, with a 'maxEdgeLength' entry in the edge colour map) and the
  end of `scripts/geodesic.js` (the Monolithic copy, without one);
- the three base generators (`scripts/baseShapes.js` and
  `scripts/geodesic.js`);
- the Class I and Class II subdividers (`scripts/subdivisions.js` and
  `scripts/geodesic.js`);
- the integer bookkeeping of Class III;
- the blueprint handler (`scripts/blueprintHandler.js`).

Nodes are Dafny objects, because the source updates their coordinates and
adjacency lists in place. A layer is a class whose node maps the walks
change. Edges and faces are values. Each connect call is specified twice:
once on values, through `EdgeStep`/`FaceStep`, and once as a method that also
appends to the nodes' lists.

Each loop of the generators and subdividers is a method with invariants. Its
contract ties the new state to a specification function of the inputs:

- the exact sequence of edge keys and of face keys connected, in call order;
- the set of node keys the layer holds: the lattice points created, and for
  a subdivided layer every key of the previous layer, kept in its own near
  or far map;
- the boundary lists written to the stitching table.

Every connect call also keeps the stored edge and face keys equal to the
keys logged so far, so the logs describe the layer's maps. Lemmas prove
what the specification functions mean:

- how many faces a walk makes;
- that every edge of a Class I layer joins two of its nodes, and that every
  edge of a Class II layer has an end among its nodes;
- that the icosahedron never connects a key twice, and that the octahedron's
  sixteen edge calls store twelve keys;
- that the first face to record a base edge's list fixes it;
- that a swapped Class III face files its b-c nodes in reverse.

Floating-point geometry is a parameter, `Geometry.Measures`: distances,
areas, placement on the sphere and `toPrecision` rounding. Every property
proved here holds whatever those functions return. `generateNodeKey` is a
parameter `NodeKeyFn` in the same way. The model requires only that a corner
with the whole weight is named by that corner.

Both copies of the generators are modelled, selected by `Layers.Variant`.
The handler builds with the Monolithic copy, as `scripts/blueprintHandler.js`
imports `scripts/geodesic.js`.

## Model

| member | source | states |
|---|---|---|
| Structures.Node.constructor | scripts/structures.js:17-24 | a node starts at the given coordinates and name, with empty edge and face lists |
| Structures.Node.UpdateCoord | scripts/structures.js:34-41 | `switched` holds iff the sign test `z > 0` differs between the old and new z; `underThreshold` holds iff the old or new \|z\| is below the threshold; the coordinates are replaced and the edge and face lists are unchanged |
| Structures.Node.AddEdge | scripts/structures.js:47-49 | the edge key is appended to the node's edge list; the faces and position are unchanged |
| Structures.Node.AddFace | scripts/structures.js:55-57 | the face key is appended to the node's face list; the edges and position are unchanged |
| Structures.SwitchedIsHemisphereChange | scripts/structures.js:35 | `switched` holds exactly when the node moves between the near and far halves that isNear defines |
| Structures.DefaultThresholdNeverTriggers | scripts/structures.js:34-36 | with the default threshold 0, no node is ever under the threshold |
| Structures.UnderThresholdMonotone | scripts/structures.js:36 | a larger threshold flags every node a smaller one flags |
| Structures.NewEdge | scripts/structures.js:71-83 | a new edge stores its two node names in order, the distance between them, and colour code 0 |
| Structures.NewFace | scripts/structures.js:99-113 | a new face stores its three names in order and the triangle area; it has no colour code yet |
| Structures.NewEdgeKeyOfItsNames | scripts/structures.js:71-73 | an edge's stored names give back the key it is filed under, whichever end came first |
| Keys.NumToChar | scripts/baseShapes.js:59 | the name of node i is a single lower-case letter |
| Keys.NumToCharInjective | scripts/baseShapes.js:59 | distinct node indices get distinct names |
| Keys.SortNamesSorts | scripts/geodesic.js:293 | `face.nodes.sort()` returns a sorted arrangement of the same names |
| Keys.SortedUnique | scripts/geodesic.js:293 | two sorted arrangements of the same names are equal, so the sorted order is unique |
| Keys.SortNamesPermutation | scripts/baseShapes.js:72-73 | sorting depends only on the multiset of names, not on their order |
| Keys.EdgeKeySymmetric | scripts/connections.js:14 | generateEdgeKey gives the same key for either order of the ends |
| Keys.FaceKeyPermutation | scripts/connections.js:56 | generateFaceKey gives the same key for every order of the three corners |
| Keys.EdgeKeyOfLetters | scripts/baseShapes.js:72 | the key of two letters is "x-y" with the smaller letter first |
| Keys.FaceKeyOfLetters | scripts/baseShapes.js:73 | the key of three letters is "x-y-z" in increasing order, whatever their order |
| Keys.IsNearIsMeanSign | scripts/connections.js:39 | isNear of a list of z values holds exactly when their mean is at most 0 |
| Colours.WithBucket | scripts/connections.js:25-31 | a known bucket keeps its code, an unseen bucket gets the next code, and every other bucket is unchanged |
| Colours.WithBucketKeepsDense | scripts/geodesic.js:951-957 | numbering new buckets by the map's size keeps the codes exactly 0..k-1, and the edge's code is one of them |
| Colours.SizeMinusOneWithoutSentinel | scripts/connections.js:28 | without the 'maxEdgeLength' entry, `size - 1` would give the first bucket code -1, breaking the numbering |
| Colours.RaiseMax | scripts/connections.js:34-36 | the recorded maximum covers the new length, never decreases, and is either the new length or unchanged |
| Colours.MaxOfCoversAll | scripts/connections.js:34-36 | after any run of edges, the recorded maximum covers every length and is either the start value or one of the lengths |
| Colours.MaxFromNegInf | scripts/connections.js:34-36 | starting from -Infinity, the maximum after at least one edge is one of the edge lengths and covers all of them |
| Colours.MaxOfNeverDecreases | scripts/connections.js:34-36 | a length covered before a run of edges is still covered after it |
| Colours.LargestEdge | scripts/connections.js:75-77 | `bgst` is the index of a longest of the three edges |
| Colours.ClockwiseEdgeOfScalene | scripts/connections.js:75-81 | with a strictly longest edge i, the chosen edge is i + 1 mod 3 |
| Colours.ClockwiseEdgeOfIsosceles | scripts/connections.js:79-81 | when edge i ties with the next edge as longest, the chosen edge is i + 2 mod 3 |
| Colours.ClockwiseEdgeOfEquilateral | scripts/connections.js:75-81 | for three equal sides, the third edge is chosen |
| Connections.EdgeStep | scripts/connections.js:23-42 | connectEdge on the maps: the edge gets its bucket's code and is filed under its key in exactly one of near or far, replacing what was there; the key is added; the maximum is raised in the Modular copy only; faces are untouched |
| Connections.FaceStep | scripts/connections.js:84-97 | connectFace on the maps: the face gets its bucket's code, numbered by `faceColorMap.size`, and is filed under its key in exactly one of near or far; edges and the maximum are untouched |
| Connections.EdgeStepKeepsDense | scripts/connections.js:25-31 | in both copies, edge colour codes stay exactly 0..k-1 for k buckets: `size - 1` with the 'maxEdgeLength' entry, `size` without it |
| Connections.FaceStepKeepsDense | scripts/connections.js:85-91 | face colour codes stay exactly 0..k-1 |
| Connections.EdgeStepKeepsMax | scripts/connections.js:34-36 | the 'maxEdgeLength' entry keeps covering every stored edge, and covers the new one |
| Connections.StepsKeepLogged | scripts/connections.js:42 | after both steps, the stored keys are exactly the keys connected so far |
| Connections.EdgeStepKeepsGood | scripts/connections.js:12-43 | connectEdge keeps dense codes, the covering maximum, the variant's map shape and the key log |
| Connections.FaceStepKeepsGood | scripts/connections.js:54-98 | connectFace keeps the same invariants |
| Connections.EdgeAtKeepsGood | scripts/connections.js:12-43 | the same as EdgeStepKeepsGood, for an edge between two positioned nodes |
| Connections.FaceAtKeepsGood | scripts/connections.js:54-98 | the same as FaceStepKeepsGood, for a face on three positioned nodes |
| Connections.AddEdgeToEnds | scripts/connections.js:17-18 | both ends gain the edge key; a node joined to itself gains it twice |
| Connections.ConnectEdge | scripts/connections.js:12-43 | the ends' edge lists grow by the key and the maps change as EdgeStep says; the face log and node maps are unchanged; the invariants are kept |
| Connections.AddFaceToCorners | scripts/connections.js:59-61 | each corner gains the face key once per argument position it fills |
| Connections.ConnectFace | scripts/connections.js:54-98 | the corners' face lists grow by the key and the maps change as FaceStep says; the edges and node maps are unchanged; the invariants are kept |
| Layers.NoLinks | scripts/baseShapes.js:37-53 | a generator starts with empty maps and logs; only the Modular copy seeds the maximum with -Infinity; the invariants hold |
| Layers.Layer.constructor | scripts/baseShapes.js:31-53 | a new layer has no nodes and the starting maps of its copy |
| Layers.Layer.CarryOver | scripts/geodesic.js:254-287 | a new layer holds a fresh copy of every node of the previous layer, under the same key, in the same near or far map, at the same position, with empty lists; it carries every near and far key over (Carried), and starts with no edges or faces and empty logs |
| Layers.Layer.GetNode | scripts/geodesic.js:496 | `getNode(nodes, key).node` finds a node exactly when one of the maps holds the key, and in a valid layer that node bears the key as its name |
| Layers.Layer.GetNodeFarFirst | scripts/geodesic.js:293-298 | looking in the far map first finds the same node as getNode in a valid layer |
| Layers.Layer.InsertNode | scripts/baseShapes.js:97-101 | the node goes into the near map iff isNear of its z, the other map is unchanged, and its name is added to the node keys |
| Layers.Layer.EnsureNode | scripts/geodesic.js:316-326 | an existing node is returned unchanged; otherwise a fresh node at the given position, with empty lists, is filed near or far by its z; either way the layer then has the key |
| Layers.CopyNodes | scripts/geodesic.js:261-268 | every node of a map is copied, fresh, under the same key |
| Walks.FirstSeen | scripts/geodesic.js:448-449 | the keys of a log, each once and every one of them, each first occurring in the log before the keys after it: the order a Map lists keys first set in that order |
| Walks.OrderedFaces | scripts/geodesic.js:448-449 | the faces a subdivider visits: the near faces, then the far ones, each map's faces by the first occurrence of their key in the face log; they are stored faces, and every stored face is visited |
| Walks.FaceCorners | scripts/geodesic.js:451-458 | the corner lookup succeeds iff the face has three names that are nodes of the previous layer; it yields the first three names in sorted order and their positions |
| Walks.WalkEdge | scripts/geodesic.js:939-962 | connectEdge as the walks call it: the edge log gains exactly the key of the two names; the face log and the node maps are unchanged; the stored keys stay exactly the logged ones |
| Walks.WalkFace | scripts/geodesic.js:974-999 | connectFace as the walks call it: the face log gains exactly the key of the three names; the edge log and node maps are unchanged; the stored keys stay exactly the logged ones |
| Walks.OnceElements | scripts/geodesic.js:327-334 | a connectEdge behind a `getEdge` guard adds at most its own key to the connected keys and loses none |
| Walks.Extend | scripts/geodesic.js:314-334 | a Class I depth or width step: the point is created unless present, and a new point is filed near iff isNear of its z, the other map unchanged; its key is added; the edge from the previous point is connected only if its key was not yet connected (`getEdge` guard); no face is connected and the stored keys stay exactly the logged ones |
| Walks.Remember | scripts/geodesic.js:599-601 | `interFaceConnections` gains a base edge's list only when it lacks the edge; recorded lists never change |
| Walks.FirstWriterWins | scripts/geodesic.js:599-601 | after any run of writes, a base edge's list is the one written by the first face that recorded it |
| BaseShapes.LetterEdgeIsKey | scripts/baseShapes.js:72 | the spelled key of nodes i and j is generateEdgeKey of their names |
| BaseShapes.Spell3Descending | scripts/baseShapes.js:161 | the tetrahedron's faces, named from the highest letter down, get the key of their letters in increasing order |
| BaseShapes.Spell3HighFirst | scripts/baseShapes.js:229 | the same holds for the octahedron's and icosahedron's corner orders |
| BaseShapes.InsertLetter | scripts/baseShapes.js:165-166 | node i is filed under its letter, in the near map iff its corner is near |
| BaseShapes.TetraEdgeKeys | scripts/baseShapes.js:151-163 | the tetrahedron's connectEdge calls are a-b, b-c, a-c, c-d, b-d, a-d, in that order |
| BaseShapes.TetraFaceKeys | scripts/baseShapes.js:151-163 | its connectFace calls are a-b-c, b-c-d, a-c-d, a-b-d, in that order |
| BaseShapes.TetraCounts | scripts/baseShapes.js:151-167 | the tetrahedron holds six edges and four faces, none connected twice |
| BaseShapes.TetraFace | scripts/baseShapes.js:161 | one innermost round connects the face (k, j, i) and nothing else |
| BaseShapes.TetraPair | scripts/baseShapes.js:160-162 | the innermost loop connects the faces (k, j, i) for k from j-1 down to 0 |
| BaseShapes.TetraArm | scripts/baseShapes.js:157-162 | one middle round connects the edge (j, i), then the innermost loop's faces |
| BaseShapes.TetraNode | scripts/baseShapes.js:156-163 | the middle loop connects node i to every earlier node, from j = i-1 down, each edge followed by its faces |
| BaseShapes.TetraRound | scripts/baseShapes.js:152-166 | one outer round extends the logs by node i's calls and files node i |
| BaseShapes.TetraLayer | scripts/baseShapes.js:151-167 | the loops file all four nodes and make exactly the calls of TetraEdges(4) and TetraFaces(4) |
| BaseShapes.Tetrahedron | scripts/baseShapes.js:111-170 | generateBaseTetrahedron: four corners a..d filed near or far by their z; the six edges and four faces in call order; `maxEdgeLength` is the running maximum (Modular) or the length of the near edge a-b (Monolithic) |
| BaseShapes.OctaEdgeCalls | scripts/baseShapes.js:217-235 | the octahedron's sixteen connectEdge calls, in order |
| BaseShapes.OctaEdgesOfMiddle | scripts/baseShapes.js:221-224 | c and d are each joined to a and b |
| BaseShapes.OctaEdgesOfPoles | scripts/baseShapes.js:221-231 | e and f are each joined to a, c, d and then to b, c, d |
| BaseShapes.OctaFaceCalls | scripts/baseShapes.js:225-229 | the octahedron's eight connectFace calls, in order |
| BaseShapes.OctaEdgeSet | scripts/baseShapes.js:224-228 | the sixteen calls file only twelve distinct keys |
| BaseShapes.OctaCounts | scripts/baseShapes.js:217-235 | the octahedron holds twelve edges, from sixteen calls, and eight distinct faces |
| BaseShapes.OctaPair | scripts/baseShapes.js:225-230 | the inner loop for a pole connects, for k = c, d, the edge to k and the face with the partner and k |
| BaseShapes.OctaMid | scripts/baseShapes.js:227-229 | one inner round connects one edge and one face |
| BaseShapes.OctaArm | scripts/baseShapes.js:223-230 | one middle round connects the edge to a or b, then the inner loop's calls |
| BaseShapes.OctaNode | scripts/baseShapes.js:221-231 | the middle loop connects node i to a and to b, each followed by the inner loop |
| BaseShapes.OctaRound | scripts/baseShapes.js:218-234 | one outer round extends the logs by node i's calls and files node i; a and b make no call |
| BaseShapes.OctaLayer | scripts/baseShapes.js:217-235 | the loops file all six nodes and make exactly the calls of OctaEdges(6) and OctaFaces(6) |
| BaseShapes.Octahedron | scripts/baseShapes.js:177-238 | generateBaseOctahedron: six corners on the axes, filed near or far by their z; the sixteen connectEdge keys in call order, of which twelve are distinct; the eight faces in call order; the stored keys are exactly the logged ones; `maxEdgeLength` is the running maximum (Modular) or the length of the near edge a-c (Monolithic) |
| BaseShapes.IcosaCallBackward | scripts/baseShapes.js:69-94 | the guards of one round never connect a key twice, and every key joins node i to nodes already inserted |
| BaseShapes.IcosaRowBackward | scripts/baseShapes.js:69-94 | the same for the five rounds of one node |
| BaseShapes.IcosaLogsBackward | scripts/baseShapes.js:58-102 | the icosahedron never connects a key twice, and every key joins a node to earlier ones |
| BaseShapes.LoggedHas | scripts/baseShapes.js:80 | while a layer is built, getEdge and getFace find exactly the keys connected so far |
| BaseShapes.IcosaEdge | scripts/baseShapes.js:75-83 | the edge half of a round connects the edge to the neighbour iff the neighbour is inserted and the edge is absent |
| BaseShapes.IcosaFace | scripts/baseShapes.js:86-93 | the face half of a round connects the face with two consecutive neighbours iff both are inserted and the face is absent |
| BaseShapes.IcosaNode | scripts/baseShapes.js:69-94 | the inner loop makes exactly the calls of IcosaRowCalls over the five neighbours |
| BaseShapes.IcosaRound | scripts/baseShapes.js:58-101 | one outer round extends the logs by node i's calls and files node i |
| BaseShapes.IcosaLayer | scripts/baseShapes.js:58-102 | the loops file all twelve nodes and make exactly the calls of IcosaLogs |
| BaseShapes.Icosahedron | scripts/baseShapes.js:11-104 | generateBaseIcosahedron: twelve corners filed near or far; no edge or face key connected twice, so the stored counts equal the call counts; every key joins a node to earlier ones; `maxEdgeLength` as for the tetrahedron |
| ClassOne.RowsStart | scripts/geodesic.js:303-307 | the walk starts at the corner a itself: generateNodeKey with the weights (nv, 0, 0) names a |
| ClassOne.RowFacesCount | scripts/geodesic.js:339-389 | row bw of the width loop connects bw up and bw - 1 down triangles |
| ClassOne.WalkFacesCount | scripts/geodesic.js:308-391 | a walk of nv depth steps connects nv * nv faces |
| ClassOne.DownTriangle | scripts/geodesic.js:375-385 | the down triangle connects exactly the two edges left-width and right-width and the face (left, right, width); it creates no node and keeps the stored keys equal to the logged ones |
| ClassOne.UpTriangle | scripts/geodesic.js:364-372 | the up triangle connects the face (previous, width, top); the b-c edge width-top is connected exactly when the guard's key, which is never stored, is absent; no node is created |
| ClassOne.Triangles | scripts/geodesic.js:364-386 | the up triangle, then the down one unless the point is on a-c: the faces of StepFaces and the edges of TriangleEdges, in call order |
| ClassOne.WidthStep | scripts/geodesic.js:340-388 | one width round adds the point (nv - bw, bw - j - 1, j + 1), connects the guarded edge from the previous point, the up triangle, and the down triangle unless the point is on a-c, with the face and edge keys in call order; the layer stays valid and logged |
| ClassOne.WidthGrows | scripts/geodesic.js:339-389 | a width step extends the row's points, faces and edges by its own |
| ClassOne.DepthGrows | scripts/geodesic.js:308-391 | a depth step extends the walk's points and faces by its row's |
| ClassOne.RoundNodes | scripts/geodesic.js:341-381 | before width step j of row p + 1, the previous point, the point below it and, off a-c, the one below right are already nodes |
| ClassOne.WidthRound | scripts/geodesic.js:340-388 | WidthStep in the width loop's terms: points, faces and edges of the row up to step j + 1 |
| ClassOne.WidthLoop | scripts/geodesic.js:339-389 | `while (bww)` adds exactly the points of the row and connects the row's faces and edges in call order; existing nodes stay filed |
| ClassOne.DepthStep | scripts/geodesic.js:309-390 | one depth round adds row bw + 1, its guarded depth edge, then its faces and edges |
| ClassOne.DepthRound | scripts/geodesic.js:309-390 | DepthStep in the depth loop's terms: rows, faces and edges of the walk up to bw + 1 |
| ClassOne.DepthLoop | scripts/geodesic.js:308-391 | `while (bw < nv)` adds rows 1..nv and connects WalkFaces and WalkEdges in call order |
| ClassOne.ClassIFace | scripts/geodesic.js:300-391 | the walk over one face adds exactly its lattice points and connects its nv * nv faces and its edges in call order; the stored keys stay exactly the logged ones |
| ClassOne.LayerFacesCount | scripts/geodesic.js:289-393 | a Class I layer connects nv * nv faces per face of the previous layer |
| ClassOne.TriangleEdgesJoin | scripts/geodesic.js:370-381 | the triangle edges of a width step join two lattice points of the walk |
| ClassOne.StepEdgesJoin | scripts/geodesic.js:356-381 | every edge of a width step joins two lattice points |
| ClassOne.RowEdgesJoin | scripts/geodesic.js:339-389 | every edge of a row joins two lattice points of the rows up to it |
| ClassOne.DepthRowsIn | scripts/geodesic.js:308-334 | row n - 1 and the depth points n - 1 and n lie within any set holding the rows up to n |
| ClassOne.DepthEdgesJoin | scripts/geodesic.js:327-389 | a depth round adds only edges joining two lattice points |
| ClassOne.WalkEdgesJoin | scripts/geodesic.js:308-391 | every edge of a walk joins two of its lattice points |
| ClassOne.LayerEdgesJoin | scripts/geodesic.js:289-393 | every edge of a Class I layer joins two of the lattice points of the layer's walks |
| ClassOne.LayerJoins | scripts/geodesic.js:289-393 | the stored edge keys of a finished Class I layer each join two nodes of the layer |
| ClassOne.LayerGrows | scripts/geodesic.js:289-393 | the walk over face i extends the points, faces and edges of the walks before it |
| ClassOne.LayerWalk | scripts/geodesic.js:290-392 | the walk over face i of the list extends the points, faces and edges of the walks before it |
| ClassOne.LayerRound | scripts/geodesic.js:291-392 | the corner lookup succeeds iff the face is ready, and then the walk runs; the old nodes stay carried |
| ClassOne.LayerStep | scripts/geodesic.js:291-392 | one round of the face loop on the loop's state: it succeeds iff the face is ready, and then the state covers one more face |
| ClassOne.LayerLoop | scripts/geodesic.js:289-393 | the face loop succeeds iff every face is ready, and then yields the carried nodes plus all lattice points, with the faces and edges of every walk in call order |
| ClassOne.ClassILayer | scripts/geodesic.js:250-398 | classILayer: success iff every face of the previous layer names three of its nodes; the new layer carries every old node key in its own near or far map and adds the lattice points of every face, visited in map order; its face and edge logs are the walks' calls in order, the stored keys are exactly those logged, and every edge joins two nodes of the layer; the colour codes stay dense; `maxEdgeLength` only in the Modular copy, where it covers every stored edge |
| ClassTwo.DepthSlide | scripts/geodesic.js:481-491 | a depth slide keeps the weight sum, counted in thirds |
| ClassTwo.WidthSlide | scripts/geodesic.js:533-536 | a width slide keeps the weight sum |
| ClassTwo.DepthWalkClosed | scripts/geodesic.js:477-494 | the alternating depth slides reach a closed-form point: cw is 0 after an even number of steps and 2/3 after an odd number; the weight sum stays nv |
| ClassTwo.DepthLoopRuns | scripts/geodesic.js:480 | `while (bw + .1 < nv)` runs exactly DepthCount(nv) times; for even nv that is nv times, ending at the corner b |
| ClassTwo.WidthLoopRuns | scripts/geodesic.js:532 | `while (aww > .1 && bww > .1)` runs exactly WidthCount(nv, k) times in row k, from the depth point, by width slides |
| ClassTwo.WalkStarts | scripts/geodesic.js:473-479 | before the depth loop: the point is the corner a, with no rows, no faces and empty boundary lists |
| ClassTwo.DepthSlideStep | scripts/geodesic.js:481-494 | the flag previouslySlidDown alternates, so each depth slide leads to the next closed-form point |
| ClassTwo.RowLists | scripts/geodesic.js:509-575 | a depth step extends abInter; a whole row leaves the three lists as Collected says |
| ClassTwo.DepthGrows | scripts/geodesic.js:480-596 | a row extends the walk's points and faces by its own |
| ClassTwo.WidthGrows | scripts/geodesic.js:532-592 | a width step extends the row's points, its faces, acInter at the end and bcInter at the front |
| ClassTwo.DepthLogGrows | scripts/geodesic.js:509-526 | a depth step's faces are its seam faces, then its down triangle |
| ClassTwo.WidthLogGrows | scripts/geodesic.js:552-588 | a width step's faces are its a-c and b-c seam faces, then its tiles |
| ClassTwo.Reach | scripts/geodesic.js:493-506 | the point is created unless present, and a new point is filed near iff isNear of its z; it is joined to the previous point by one unguarded connectEdge, its key is added, and no face is connected |
| ClassTwo.Seam | scripts/geodesic.js:510-515 | stitching to a recorded list connects the two seam faces; it fails when the entry or a node is missing |
| ClassTwo.SeamOrPush | scripts/geodesic.js:509-519 | with the edge recorded, the seam runs; otherwise the point is pushed onto the list, at the end or, for bcInter, at the front |
| ClassTwo.Corner | scripts/geodesic.js:523-525 | a triangle to an existing node connects one face; it fails if the node is missing |
| ClassTwo.Tiles | scripts/geodesic.js:578-588 | the up triangle, then the triangle to its right once bww > 1 |
| ClassTwo.DepthLinks | scripts/geodesic.js:508-526 | a depth step connects DepthFaces and extends abInter as Gate says |
| ClassTwo.DepthStep | scripts/geodesic.js:481-526 | one depth step adds its point, connects its faces and edges in call order and extends abInter |
| ClassTwo.DepthSeam | scripts/geodesic.js:509-519 | at a-b, with the face's point on that edge: the seam runs iff the entry and node exist, or the point is pushed onto abInter; the faces and edges it connects |
| ClassTwo.WidthSeams | scripts/geodesic.js:551-575 | at a-c and b-c, the seam or the push, with the faces and lists each produces |
| ClassTwo.WidthLinks | scripts/geodesic.js:551-588 | a width step connects WidthFaces and extends acInter and bcInter |
| ClassTwo.WidthStep | scripts/geodesic.js:533-591 | one width step adds its point, connects its faces and edges in call order and extends acInter and bcInter |
| ClassTwo.WidthRound | scripts/geodesic.js:533-591 | WidthStep in the width loop's terms: points, faces, edges and lists of the row up to step s + 1 |
| ClassTwo.WidthLoop | scripts/geodesic.js:529-592 | the width loop adds the row's points, faces and edges and leaves the lists as Partial says |
| ClassTwo.RowStep | scripts/geodesic.js:481-595 | a depth round adds row k, its faces and edges, and the lists of k rows |
| ClassTwo.DepthRound | scripts/geodesic.js:481-595 | RowStep in the depth loop's terms: points, faces and edges of rows 1..k |
| ClassTwo.ClassIIFace | scripts/geodesic.js:460-601 | the walk over one face adds its points, connects its faces and edges reading the current table, and records its three lists where the table lacks their base edge |
| ClassTwo.LayerGrows | scripts/geodesic.js:448-602 | the walk over face i extends the points, faces, edges and table of the walks before it |
| ClassTwo.LayerWalk | scripts/geodesic.js:449-602 | the walk over face i of the list, with the table the faces before it left: points, faces, edges and table of faces 0..i |
| ClassTwo.LayerRound | scripts/geodesic.js:449-602 | one face: an unready face fails; on success, the points, faces, edges and table of the faces so far, with the old nodes still carried |
| ClassTwo.LayerLoop | scripts/geodesic.js:448-603 | the face loop: on success every face is ready, and the layer holds the carried nodes plus all lattice points, with all walks' faces and edges in call order |
| ClassTwo.ClassIILayer | scripts/geodesic.js:407-608 | classIILayer: fails if a face of the previous layer does not name three of its nodes; on success, every old node key carried in its own near or far map plus every face's lattice points, one stitching table for the layer, the faces and edges of every walk in call order with the stored keys exactly those logged, and every edge has an end among the layer's nodes; the colour codes stay dense; `maxEdgeLength` only in the Modular copy, where it covers every stored edge |
| ClassTwo.SeamEdgesTouch | scripts/geodesic.js:510-515 | every seam edge has the current point as an end |
| ClassTwo.DepthEdgesTouch | scripts/geodesic.js:506-526 | every edge of a depth step has an end among the walk's points |
| ClassTwo.WidthEdgesTouch | scripts/geodesic.js:549-588 | every edge of a width step has an end among the walk's points |
| ClassTwo.RowEdgesTouch | scripts/geodesic.js:529-592 | every edge of a row has an end among the walk's points |
| ClassTwo.WalkEdgesTouch | scripts/geodesic.js:480-596 | every edge of a walk has an end among its points |
| ClassTwo.LayerEdgesTouch | scripts/geodesic.js:448-603 | every edge of a Class II layer has an end among the points of the layer's walks |
| ClassTwo.LayerTouches | scripts/geodesic.js:448-603 | every stored edge key of a finished Class II layer has an end among the layer's nodes |
| ClassThree.Normalise | scripts/geodesic.js:618-620 | the frequency pair is ordered so that m >= n, with the sum kept; reverseOrder holds iff the pair came in the other order |
| ClassThree.NormaliseEitherOrder | scripts/geodesic.js:619-620 | both orders of a pair give the same m and n; reverseOrder tells unequal orders apart |
| ClassThree.Orient | scripts/geodesic.js:695-701 | swapped is `flipped ^ reverseOrder`; b and c are exchanged exactly when swapped |
| ClassThree.OrientKeepsKeys | scripts/geodesic.js:697-710 | ordering a face changes none of its keys: the b-c edge keeps its key, and the other two edges only trade places |
| ClassThree.OrientTwice | scripts/geodesic.js:697-701 | ordering twice with the same flags gives back the corners first given |
| ClassThree.BcSlot | scripts/geodesic.js:884 | the width step's bcInter slot is in range and mirrored between the two orientations |
| ClassThree.DepthSlot | scripts/geodesic.js:797 | the depth step's slot is that of the first node along b-c |
| ClassThree.NeighbourSlots | scripts/geodesic.js:887-888 | the neighbours read at `ind ± 1` are the slots of the next and previous nodes along the edge |
| ClassThree.NewSeam | scripts/geodesic.js:705 | `new Array(v - 1)` has v - 1 empty slots, and throws for v = 0 |
| ClassThree.WrittenInOrder | scripts/geodesic.js:884-912 | unswapped, the c-th node met is in slot c - 1, and later slots are empty |
| ClassThree.SwappedIsReversed | scripts/geodesic.js:883-884 | a swapped face fills bcInter in the reverse of the unswapped order |
| ClassThree.SeamRunsFromFirstCorner | scripts/geodesic.js:796-923 | once every node of the edge is filed, bcInter has no gap; it lists the nodes from bInitial to cInitial whichever way the face was oriented |
| Blueprints.AddLayer | scripts/blueprintHandler.js:38-43 | addLayer appends one entry with the given class and frequency and keeps the entries before it |
| Blueprints.DefaultBlueprint | scripts/blueprintHandler.js:19-30 | the default is the icosahedron with layers class II at 2, class I at 3 and class I at 2, every class a subdivider |
| Blueprints.FrequencySum | scripts/geodesic.js:251 | `frequency[0] + frequency[1]` is a number for a pair and NaN for a bare number |
| Blueprints.DefaultAsWrittenWalksNothing | scripts/blueprintHandler.js:25-27 | as written, every default layer gets nv = NaN; the Class I and the Class II depth loops then run no round, so neither subdivider connects any edge or face |
| Blueprints.ClassIRounds | scripts/geodesic.js:308 | `while (bw < nv)` runs nv rounds for a number and none for NaN |
| Blueprints.ClassIIRounds | scripts/geodesic.js:480 | `while (bw + .1 < nv)` runs DepthCount(nv) rounds, at least nv, for a number and none for NaN |
| Blueprints.DefaultBlueprintWalks | scripts/blueprintHandler.js:25-27 | with pair frequencies, the default layers get nv = 2, 3, 2; the Class II loop runs twice, and each Class I walk connects nv * nv faces |
| Blueprints.BuildBase | scripts/blueprintHandler.js:82 | `blueprintMap[baseShape](options)` succeeds iff the name is one of the three solids, leaving aside names inherited from Object.prototype, and otherwise fails with UnknownBaseShape; on success, the layer holds the solid's corners and its edge and face logs in call order, with the stored keys exactly those logged |
| Blueprints.OctahedronLayer | scripts/geodesic.js:183-240 | the octahedron generator as a layer class: the layer holds the octahedron's corners and its edge and face logs, as the base does |
| Blueprints.Subdivider | scripts/blueprintHandler.js:87-88 | classI or classII: classI succeeds iff every face of the previous layer names three of its nodes, classII fails when one does not; on success, the subdivision of the previous layer |
| Blueprints.Subdivide | scripts/blueprintHandler.js:87-88 | a class with no entry fails with UnknownSubdivisionClass; "tetrahedron" and "icosahedron" fail reading the missing near edge 'a-b'; "octahedron" always succeeds with an octahedron; classI succeeds iff every face of the previous layer names three of its nodes, and classII fails when one does not; on success, the new layer carries the previous one's nodes and holds exactly the points, face log and edge log that classI or classII makes of it |
| Blueprints.BlueprintHandler.constructor | scripts/blueprintHandler.js:5-17 | a handler starts with the default blueprint |
| Blueprints.BlueprintHandler.UpdateBaseShape | scripts/blueprintHandler.js:49-51 | only the base shape changes |
| Blueprints.BlueprintHandler.UpdateClassOfLayer | scripts/blueprintHandler.js:58-60 | within range, only that entry's class changes; out of range, it fails and nothing changes |
| Blueprints.BlueprintHandler.UpdateFrequencyOfLayer | scripts/blueprintHandler.js:67-69 | within range, only that entry's frequency changes; out of range, it fails and nothing changes |
| Blueprints.BlueprintHandler.BuildStructure | scripts/blueprintHandler.js:76-93 | a base shape that is not one of the three solids fails, leaving aside names inherited from Object.prototype; a known one with no layer entries always succeeds with one layer; on success, one layer per blueprint entry plus the base; the base holds its solid's corners and call logs, and each layer is the subdivision of the one before it by its entry, nodes, faces and edges |
| Blueprints.BlueprintHandler.SubdivideLayers | scripts/blueprintHandler.js:84-90 | the subdivision loop: with no entries it succeeds with the first layer alone; on success, one layer per entry after the first, each the subdivision of the one before it by its entry |

## Left out

- I/O: the `console.log` summaries at the end of every generator, and the
  DOM code of `scripts/index.js` and `scripts/render.js`.
- Floating-point geometry is uninterpreted (`Geometry.Measures`):
  - `calc3dDistance`, `calcTriangleArea` and `Math.sqrt`;
  - `calcMidNodeCoords` and `normalizeNode`;
  - `toPrecision`, `parseFloat` and the face colour key spliced from the
    area and an edge length.

  So no property here depends on the numbers they return.
- The bodies of `numToChar`, `generateEdgeKey`, `generateFaceKey`, `isNear`,
  `getNode`, `getEdge`, `getFace`, `generateNodeKey`,
  `getBaseIcosahedronConnections`, `faceNormal` and `orderFaceNodesByNormal`
  are not in `scripts/util.js`. The model fixes the key and hemisphere helpers
  as the generators use them. `generateNodeKey` and the icosahedron's
  neighbour table are parameters, and the table is only required to list five corner indices
  below 12 per node.
- ClassThree: the Class III walk steps by irrational amounts in a rotated
  frame, so only its integer bookkeeping is modelled. That covers the
  normalisation of the frequency pair, the swap of b and c, and the slots of
  `bcInter`. The walk, its nodes and faces, and `orderFaceNodesByNormal`
  are not modelled; `flipped` is an input. Class III is not in
  `blueprintMap` either.
- ClassTwo: weights are counted in thirds, so every Class II point is exact.
  The source compares floats with `.1` tolerances, and these agree with the
  exact comparisons only while rounding error stays below 0.1. The seam
  indices taken with `Math.floor` and `Math.round` (HalfIndex, RoundThirds)
  likewise rely on the thirds being exact. `key3` is
  `generateNodeKey` applied to those thirds.
- ClassTwo.ClassIILayer: failure is stated in one direction only. A face
  whose corners are missing fails, but a missing boundary entry or seam node
  also fails, and the model does not prove when that cannot happen.
- ClassTwo.LayerLoop: the same one-way failure statement. Only Seam,
  SeamOrPush, Corner, Tiles, DepthSeam, DepthLinks, WidthSeams and
  WidthLinks state their failure both ways; DepthStep, WidthStep,
  WidthRound, WidthLoop, RowStep, DepthRound, ClassIIFace and LayerWalk
  state the success case only.
- ClassTwo.ClassIILayer: edges are proved only to have one end among the
  layer's nodes. The other end is read from the stitching table or found by
  `generateNodeKey`, and the model does not prove that those names are
  lattice points of the layer.
- Blueprints.Subdivide: inherits that one-way failure statement for class II.
- Blueprints.Subdivider: the same one-way failure statement for class II.
- Walks.FaceCorners: `face.nodes.sort()` sorts the stored face's own array
  in place, so the previous layer's face records end up with sorted names.
  Faces are values here: the model reads the sorted names but does not
  write them back into the previous layer.
- ClassOne.ClassILayer: the same in-place sort is not written back. The
  near or far map of each new point is stated per point, by Walks.Extend,
  and not in the layer's contract.
- ClassTwo.ClassIILayer: the same in-place sort is not written back. The
  near or far map of each new point is stated per point, by ClassTwo.Reach,
  and not in the layer's contract.
- ClassOne.UpTriangle: follows the code as written. The guard looks up the
  edge key of two Node objects, `"[object Object]-[object Object]"`, which is
  never stored. So the edge widthNode-topNode is connected every time, and
  the same edge key may appear several times in a node's list. The stored
  edge maps are the same either way, because `Map.set` overwrites.
- BaseShapes.Tetrahedron: does not carry dense colour codes or the covering
  maximum to its result. Those invariants are proved per connect call in
  Connections, but are not threaded through the generator loops.
- BaseShapes.Octahedron: the same as BaseShapes.Tetrahedron.
- BaseShapes.Icosahedron: the same as BaseShapes.Tetrahedron.
- Blueprints.BuildBase: the Monolithic `maxEdgeLength` is the near-map
  lookup of 'a-b' or 'a-c'. When that edge lies in the far map, the source
  throws reading `.length`, but the model returns None as `maxEdgeLength`
  instead of failing. The model does not prove that those edges are near.
- Blueprints.Subdivide: a layer whose class is "octahedron" calls the
  generator with the previous layer as its options, so the source's radius
  and coordinates are NaN, and its corners e and f and their edges and faces
  are filed far. The model builds the octahedron at the build options'
  radius instead: the node keys and logs agree, but positions, lengths,
  `maxEdgeLength` and the near or far filing of e and f do not.
- Blueprints.Subdivide: names that `blueprintMap` inherits from
  `Object.prototype`, such as "toString", are not modelled: they would call
  a prototype method.
- Blueprints.BlueprintHandler.BuildStructure: success is promised for the
  base layer alone. Past the base, success depends on every face of each
  built layer naming three of its nodes, and the model does not prove that
  of the faces the walks connect.
- Blueprints.BuildBase: a base-shape name that `blueprintMap` inherits from
  Object.prototype ("toString", "valueOf", "constructor", "hasOwnProperty")
  finds a method that returns without throwing, so the source's base layer
  is that method's result. The model fails with UnknownBaseShape instead.
- Blueprints.BlueprintHandler.BuildStructure: the same inherited names as a
  base shape; with no layer entries the source returns a one-layer
  structure, and the model fails with UnknownBaseShape.
- Blueprints.AddLayer: modelled on values. The source pushes onto the array
  it is given, so the aliasing of that array is not captured.
- Frequencies are pairs of whole, non-negative numbers throughout; the
  source also accepts negative or fractional pairs, for which
  `while (bw < nv)` runs no round or ceil(nv) rounds. See Findings for the
  bare numbers the default blueprint passes.
- The option values of `scripts/defaultOptions.js` are not part of this
  model. Only the radius, `sizeConstraint * fillPercentage / 2`, enters
  through `Geometry.Radius`.

## Findings

| source | as written | input that shows it | evidently intended | confidence | as-written member | corrected member |
|---|---|---|---|---|---|---|
| scripts/blueprintHandler.js:25-27 | `getDefaultBlueprint` passes the bare numbers 2, 3 and 2 as frequencies. Every subdivider reads `frequency[0] + frequency[1]`, which is NaN for a number, so `while (bw < nv)` never runs and the default layers connect no faces. | `buildStructure` on the default blueprint | the pairs [2, 0], [3, 0] and [2, 0], as `scripts/types.js` declares `frequency: number[]` | high; not executed | Blueprints.DefaultAsWrittenWalksNothing | Blueprints.DefaultBlueprintWalks |
