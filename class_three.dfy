/** The integer bookkeeping of classIIILayer (scripts/subdivisions.js and
    scripts/geodesic.js): how the frequency pair is normalised, how a face's
    corners b and c are exchanged, and where the nodes on the b-c edge are
    filed in the list `bcInter` that the table keeps for neighbouring faces.
    The walk itself steps by irrational amounts and is not modelled. */
module ClassThree {
  import opened Wrappers
  import opened Keys

  /** the frequency pair after normalisation: m >= n, and whether the pair
      given was in the other order */
  datatype Split = Split(m: nat, n: nat, reverseOrder: bool)

  /** `reverseOrder = mInitial < nInitial` and `[m, n] = reverseOrder ?
      [nInitial, mInitial] : [mInitial, nInitial]` */
  function Normalise(mInitial: nat, nInitial: nat): (r: Split)
    ensures r.reverseOrder <==> mInitial < nInitial
    ensures r.m >= r.n && r.m + r.n == mInitial + nInitial
    ensures r.reverseOrder ==> r.m == nInitial && r.n == mInitial
    ensures !r.reverseOrder ==> r.m == mInitial && r.n == nInitial
  {
    if mInitial < nInitial then Split(nInitial, mInitial, true) else Split(mInitial, nInitial, false)
  }

  /** The pair given in either order normalises to the same m and n; only
      `reverseOrder` tells them apart, and it is set for at most one of the
      two orders. */
  lemma NormaliseEitherOrder(p: nat, q: nat)
    ensures Normalise(p, q).m == Normalise(q, p).m && Normalise(p, q).n == Normalise(q, p).n
    ensures !(Normalise(p, q).reverseOrder && Normalise(q, p).reverseOrder)
    ensures p != q ==> Normalise(p, q).reverseOrder != Normalise(q, p).reverseOrder
  {
    var r, s := Normalise(p, q), Normalise(q, p);
    if p < q {
      assert r.m == q && s.m == q;
    } else if q < p {
      assert r.m == p && s.m == p;
    }
  }

  /** a face's corners after ordering, and whether b and c were exchanged */
  datatype Oriented = Oriented(a: string, b: string, c: string, swapped: bool)

  /** `swapped = flipped ^ reverseOrder` and `[b, c] = swapped ? [cInitial,
      bInitial] : [bInitial, cInitial]`, where `flipped` says the face's
      normal points towards the origin */
  function Orient(a: string, bInitial: string, cInitial: string, flipped: bool, reverseOrder: bool): (r: Oriented)
    ensures r.swapped <==> flipped != reverseOrder
    ensures r.a == a && multiset{r.b, r.c} == multiset{bInitial, cInitial}
    ensures r.b == bInitial <== !r.swapped
    ensures r.b == cInitial && r.c == bInitial <== r.swapped
  {
    var swapped := flipped != reverseOrder;
    if swapped then Oriented(a, cInitial, bInitial, true) else Oriented(a, bInitial, cInitial, false)
  }

  /** Ordering a face changes none of its keys: the b-c edge keeps its key,
      so the list filed under it is found from either orientation, the other
      two edges only trade places, and the face key stays the same. */
  lemma OrientKeepsKeys(a: string, bInitial: string, cInitial: string, flipped: bool, reverseOrder: bool)
    ensures var r := Orient(a, bInitial, cInitial, flipped, reverseOrder);
            && EdgeKey(r.b, r.c) == EdgeKey(bInitial, cInitial)
            && {EdgeKey(r.a, r.b), EdgeKey(r.a, r.c)} == {EdgeKey(a, bInitial), EdgeKey(a, cInitial)}
            && FaceKey(r.a, r.b, r.c) == FaceKey(a, bInitial, cInitial)
  {
    var r := Orient(a, bInitial, cInitial, flipped, reverseOrder);
    EdgeKeySymmetric(bInitial, cInitial);
    FaceKeyPermutation(r.a, r.b, r.c, a, bInitial, cInitial);
  }

  /** Ordering twice with the same flags gives back the corners first given. */
  lemma OrientTwice(a: string, bInitial: string, cInitial: string, flipped: bool, reverseOrder: bool)
    ensures var r := Orient(a, bInitial, cInitial, flipped, reverseOrder);
            var s := Orient(r.a, r.b, r.c, flipped, reverseOrder);
            s.a == a && s.b == bInitial && s.c == cInitial && s.swapped == r.swapped
  {
  }

  /** The slot of `bcInter` for the node c steps from b along the b-c edge:
      `swapped ? v - c - 1 : c - 1`, where the width step takes c as
      `Math.ceil(cww + zero)`. The two orientations file the same node at
      mirrored slots. */
  function BcSlot(v: nat, c: int, swapped: bool): (r: int)
    ensures 1 <= c < v ==> 0 <= r < v - 1
    ensures swapped ==> r == v - 2 - BcSlot(v, c, false)
  {
    if swapped then v - c - 1 else c - 1
  }

  /** The depth step's slot `swapped ? v - 2 : 0` is that of the first node
      along the edge. */
  function DepthSlot(v: nat, swapped: bool): (r: int)
    ensures v >= 2 ==> 0 <= r < v - 1
    ensures r == BcSlot(v, 1, swapped)
  {
    if swapped then v - 2 else 0
  }

  /** The neighbours a width step reads, at `ind + (swapped ? -1 : 1)` and
      `ind + (swapped ? 1 : -1)`, are the slots of the nodes one step
      further along the edge and one step back. */
  lemma NeighbourSlots(v: nat, c: int, swapped: bool)
    ensures BcSlot(v, c, swapped) + (if swapped then -1 else 1) == BcSlot(v, c + 1, swapped)
    ensures BcSlot(v, c, swapped) + (if swapped then 1 else -1) == BcSlot(v, c - 1, swapped)
  {
  }

  /** `new Array(v - 1)`: v - 1 empty slots; for v = 0 the length is -1 and
      the constructor throws */
  function NewSeam(v: nat): (r: Result<seq<Option<string>>>)
    ensures r.Success? <==> v >= 1
    ensures r.Success? ==> |r.value| == v - 1 && forall i :: 0 <= i < |r.value| ==> r.value[i] == None
  {
    if v == 0 then Failure(InvalidLength(-1)) else Success(seq(v - 1, _ => None))
  }

  /** bcInter after the nodes `names`, in the order the walk meets them
      going from b, have been filed: names[c - 1] at the slot of step c */
  function Written(v: nat, swapped: bool, names: seq<string>): (r: seq<Option<string>>)
    requires |names| < v
    ensures |r| == v - 1
  {
    if |names| == 0 then seq(v - 1, _ => None)
    else
      var k := |names|;
      Written(v, swapped, names[..k - 1])[BcSlot(v, k, swapped) := Some(names[k - 1])]
  }

  /** the list read front to back */
  function Reversed<T>(s: seq<T>): (r: seq<T>)
    ensures |r| == |s| && forall i :: 0 <= i < |s| ==> r[i] == s[|s| - 1 - i]
  {
    seq(|s|, i requires 0 <= i < |s| => s[|s| - 1 - i])
  }

  /** every name, filled in */
  function Filled(names: seq<string>): (r: seq<Option<string>>)
    ensures |r| == |names| && forall i :: 0 <= i < |names| ==> r[i] == Some(names[i])
  {
    seq(|names|, i requires 0 <= i < |names| => Some(names[i]))
  }

  lemma ReversedUpdate<T>(s: seq<T>, i: nat, x: T)
    requires i < |s|
    ensures Reversed(s[i := x]) == Reversed(s)[|s| - 1 - i := x]
  {
  }

  /** Unswapped, the c-th node met is in slot c - 1 and the slots past the
      nodes met so far are empty. */
  lemma {:induction false} WrittenInOrder(v: nat, names: seq<string>)
    requires |names| < v
    ensures forall i :: 0 <= i < v - 1 ==> Written(v, false, names)[i] == if i < |names| then Some(names[i]) else None
  {
    if |names| > 0 {
      var k := |names|;
      WrittenInOrder(v, names[..k - 1]);
    }
  }

  /** "if nodes B and C were swapped on this face, reverse bcInter order":
      a swapped face files its nodes in the reverse of the unswapped order. */
  lemma {:induction false} SwappedIsReversed(v: nat, names: seq<string>)
    requires |names| < v
    ensures Written(v, true, names) == Reversed(Written(v, false, names))
  {
    if |names| == 0 {
      assert Written(v, true, names) == Reversed(Written(v, false, names));
    } else {
      var k := |names|;
      SwappedIsReversed(v, names[..k - 1]);
      ReversedUpdate(Written(v, false, names[..k - 1]), k - 1, Some(names[k - 1]));
    }
  }

  /** Once every step of the edge has filed its node, bcInter has no gap,
      and it lists the nodes from bInitial to cInitial whichever way the
      face was oriented: in the order met when b is bInitial, reversed when
      the walk started from cInitial. */
  lemma SeamRunsFromFirstCorner(v: nat, swapped: bool, names: seq<string>)
    requires |names| == v - 1 && v >= 1
    ensures Written(v, swapped, names) == Filled(if swapped then Reversed(names) else names)
  {
    WrittenInOrder(v, names);
    if swapped {
      SwappedIsReversed(v, names);
    }
  }
}
