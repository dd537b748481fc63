/** Colour buckets and the running maximum edge length.

    connectEdge and connectFace group edges by rounded length and faces by a
    rounded area key, and give every bucket a small integer code. The edge
    map of scripts/connections.js also holds the string key 'maxEdgeLength'
    next to the numeric buckets; the model keeps that entry apart, as an
    `Option<ExtReal>` (None: no such key), so `Map.size` is the number of
    buckets plus one when the entry is present. */
module Colours {
  import opened Wrappers

  /** A number that may be -Infinity, the starting value of the maximum. */
  datatype ExtReal = NegInf | Fin(r: real)

  /** len fits under the recorded maximum m */
  predicate AtMost(len: real, m: ExtReal)
  {
    m.Fin? && len <= m.r
  }

  /** Bucket codes lie in 0..|colors|-1 and no two buckets share one, so
      the codes are exactly 0..|colors|-1. */
  ghost predicate Dense(colors: map<real, int>)
  {
    (forall k :: k in colors ==> 0 <= colors[k] < |colors|)
    && (forall k1, k2 {:trigger colors[k1], colors[k2]} :: k1 in colors && k2 in colors && colors[k1] == colors[k2] ==> k1 == k2)
  }

  /** The code an element of the bucket gets:
      `has(bucket) ? get(bucket) : next`. */
  function CodeOf(colors: map<real, int>, bucket: real, next: int): int
  {
    if bucket in colors then colors[bucket] else next
  }

  /** The map after `if (!has(bucket)) set(bucket, next)`: the bucket is
      added with the code its element gets and no other code changes. */
  function WithBucket(colors: map<real, int>, bucket: real, next: int): (r: map<real, int>)
    ensures r.Keys == colors.Keys + {bucket} && r[bucket] == CodeOf(colors, bucket, next)
    ensures forall k :: k in colors ==> r[k] == colors[k]
  {
    if bucket in colors then colors else colors[bucket := next]
  }

  /** A new bucket numbered with the count of buckets so far keeps codes
      dense; this is what `size - 1` achieves beside the 'maxEdgeLength'
      entry and what `size` achieves without it. */
  lemma WithBucketKeepsDense(colors: map<real, int>, bucket: real)
    requires Dense(colors)
    ensures Dense(WithBucket(colors, bucket, |colors|))
    ensures 0 <= CodeOf(colors, bucket, |colors|) < |WithBucket(colors, bucket, |colors|)|
  {
    if bucket !in colors {
      var r := colors[bucket := |colors|];
      assert r.Keys == colors.Keys + {bucket};
      assert |r| == |colors| + 1;
    }
  }

  /** A bucket's code is off by one when `size - 1` is used without the
      'maxEdgeLength' entry: the first bucket gets -1. */
  lemma SizeMinusOneWithoutSentinel(bucket: real)
    ensures CodeOf(map[], bucket, 0 - 1) == -1
    ensures !Dense(WithBucket(map[], bucket, 0 - 1))
  {
  }

  /** `if (length > get('maxEdgeLength')) set('maxEdgeLength', length)`;
      a comparison with a missing entry (undefined) is false. */
  function RaiseMax(current: Option<ExtReal>, length: real): (r: Option<ExtReal>)
    ensures current.None? ==> r.None?
    ensures current.Some? ==> r.Some? && AtMost(length, r.value)
    ensures current.Some? ==> forall l :: AtMost(l, current.value) ==> AtMost(l, r.value)
    ensures r.Some? && r.value.Fin? ==> r.value.r == length || r == current
  {
    match current
    case None => None
    case Some(NegInf) => Some(Fin(length))
    case Some(Fin(m)) => if length > m then Some(Fin(length)) else current
  }

  /** The maximum after a sequence of edges is the largest of them. */
  function MaxOf(lengths: seq<real>, start: Option<ExtReal>): Option<ExtReal>
  {
    if |lengths| == 0 then start else MaxOf(lengths[1..], RaiseMax(start, lengths[0]))
  }

  lemma {:induction false} MaxOfCoversAll(lengths: seq<real>, start: ExtReal)
    ensures MaxOf(lengths, Some(start)).Some?
    ensures forall i :: 0 <= i < |lengths| ==> AtMost(lengths[i], MaxOf(lengths, Some(start)).value)
    ensures MaxOf(lengths, Some(start)) == Some(start)
         || exists i :: 0 <= i < |lengths| && MaxOf(lengths, Some(start)) == Some(Fin(lengths[i]))
  {
    if |lengths| > 0 {
      var next := RaiseMax(Some(start), lengths[0]);
      MaxOfCoversAll(lengths[1..], next.value);
      var r := MaxOf(lengths, Some(start));
      assert r == MaxOf(lengths[1..], next);
      MaxOfNeverDecreases(lengths[1..], next.value, lengths[0]);
      forall i | 0 <= i < |lengths| ensures AtMost(lengths[i], r.value) {
        if i > 0 {
          assert lengths[i] == lengths[1..][i - 1];
        }
      }
      if r == next {
        assert next == Some(start) || next == Some(Fin(lengths[0]));
      } else {
        var j :| 0 <= j < |lengths[1..]| && r == Some(Fin(lengths[1..][j]));
        assert r == Some(Fin(lengths[j + 1]));
      }
    }
  }

  /** Starting from -Infinity, the maximum of a non-empty run of edges is
      one of their lengths and covers all of them. */
  lemma MaxFromNegInf(lengths: seq<real>)
    requires lengths != []
    ensures exists i :: 0 <= i < |lengths| && MaxOf(lengths, Some(NegInf)) == Some(Fin(lengths[i]))
    ensures forall i :: 0 <= i < |lengths| ==> AtMost(lengths[i], MaxOf(lengths, Some(NegInf)).value)
  {
    MaxOfCoversAll(lengths, NegInf);
    assert AtMost(lengths[0], MaxOf(lengths, Some(NegInf)).value);
  }

  lemma {:induction false} MaxOfNeverDecreases(lengths: seq<real>, start: ExtReal, l: real)
    requires AtMost(l, start)
    ensures MaxOf(lengths, Some(start)).Some? && AtMost(l, MaxOf(lengths, Some(start)).value)
  {
    if |lengths| > 0 {
      MaxOfNeverDecreases(lengths[1..], RaiseMax(Some(start), lengths[0]).value, l);
    }
  }

  /** The `bgst` of connectFace: an index of a largest of the three rounded
      edge lengths, moved one place on when it ties with the next edge. */
  function LargestEdge(es: seq<real>): (bgst: nat)
    requires |es| == 3
    ensures bgst < 3
    ensures forall i :: 0 <= i < 3 ==> es[i] <= es[bgst]
  {
    var b0 := if es[1] > es[0] then 1 else 0;
    var b1 := if es[2] > es[b0] then 2 else b0;
    if es[b1] == es[(b1 + 1) % 3] then (b1 + 1) % 3 else b1
  }

  /** `cwe`: the edge clockwise after the largest one. */
  function ClockwiseEdge(es: seq<real>): (cwe: nat)
    requires |es| == 3
    ensures cwe < 3
  {
    (LargestEdge(es) + 1) % 3
  }

  /** A strictly longest edge is followed clockwise by the chosen edge. */
  lemma ClockwiseEdgeOfScalene(es: seq<real>, i: nat)
    requires |es| == 3 && i < 3
    requires es[i] > es[(i + 1) % 3] && es[i] > es[(i + 2) % 3]
    ensures ClockwiseEdge(es) == (i + 1) % 3
  {
  }

  /** In a triangle with two equal longest sides the chosen edge is the
      third, shorter side, however the sides are rotated. */
  lemma ClockwiseEdgeOfIsosceles(es: seq<real>, i: nat)
    requires |es| == 3 && i < 3
    requires es[i] == es[(i + 1) % 3] && es[i] > es[(i + 2) % 3]
    ensures ClockwiseEdge(es) == (i + 2) % 3
  {
  }

  /** For three equal sides the third edge is chosen. */
  lemma ClockwiseEdgeOfEquilateral(e: real)
    ensures ClockwiseEdge([e, e, e]) == 2
  {
  }
}
