/** The key and hemisphere helpers that every generator imports from
    scripts/util.js: numToChar, generateEdgeKey, generateFaceKey, isNear and
    the shape of generateNodeKey.

    Their bodies are not in scripts/util.js, which holds only the distance
    and area helpers, and are not part of this model. The model fixes them
    as follows: numToChar(i) is the i-th lower-case letter (the generators look up
    the keys 'a-b' and 'a-c', so 0 is "a", 1 is "b", 2 is "c"); an edge or face
    key is its node names sorted and joined with '-', the way
    scripts/baseShapes.js:72-73 builds them; isNear holds when the mean of the
    z values is at most 0; generateNodeKey stays a parameter, NodeKeyFn. */
module Keys {

  /** numToChar: 0 is "a", 1 is "b", ... */
  function NumToChar(i: nat): (s: string)
    requires i < 26
    ensures |s| == 1 && 'a' <= s[0] <= 'z'
  {
    [(97 + i) as char]
  }

  lemma NumToCharInjective(i: nat, j: nat)
    requires i < 26 && j < 26
    ensures NumToChar(i) == NumToChar(j) <==> i == j
  {
    if NumToChar(i) == NumToChar(j) {
      assert NumToChar(i)[0] == NumToChar(j)[0];
    }
  }

  /** The order of Array.prototype.sort without a comparator: lexicographic
      on characters, a proper prefix first. */
  predicate StrLess(s: string, t: string)
  {
    if |s| == 0 then |t| > 0
    else if |t| == 0 then false
    else if s[0] != t[0] then s[0] < t[0]
    else StrLess(s[1..], t[1..])
  }

  lemma {:induction false} StrLessIrreflexive(s: string)
    ensures !StrLess(s, s)
  {
    if |s| > 0 {
      StrLessIrreflexive(s[1..]);
    }
  }

  /** Exactly one of s < t, s == t, t < s. */
  lemma {:induction false} StrLessTrichotomy(s: string, t: string)
    ensures s == t || StrLess(s, t) || StrLess(t, s)
    ensures !(StrLess(s, t) && StrLess(t, s))
  {
    if |s| > 0 && |t| > 0 && s[0] == t[0] {
      StrLessTrichotomy(s[1..], t[1..]);
      if s[1..] == t[1..] {
        assert s == [s[0]] + s[1..] && t == [t[0]] + t[1..];
      }
    }
  }

  lemma {:induction false} StrLessTransitive(r: string, s: string, t: string)
    requires StrLess(r, s) && StrLess(s, t)
    ensures StrLess(r, t)
  {
    if |r| > 0 && r[0] == s[0] && s[0] == t[0] {
      StrLessTransitive(r[1..], s[1..], t[1..]);
    }
  }

  /** "s is not after t" */
  predicate StrLessEq(s: string, t: string)
  {
    !StrLess(t, s)
  }

  lemma StrLessEqTransitive(r: string, s: string, t: string)
    requires StrLessEq(r, s) && StrLessEq(s, t)
    ensures StrLessEq(r, t)
  {
    if StrLess(t, r) {
      StrLessTrichotomy(r, s);
      StrLessTrichotomy(s, t);
      if StrLess(r, s) {
        StrLessTransitive(t, r, s);
      } else if StrLess(s, t) {
        StrLessTransitive(s, t, r);
      }
    }
  }

  ghost predicate Sorted(s: seq<string>)
  {
    forall i, j :: 0 <= i < j < |s| ==> StrLessEq(s[i], s[j])
  }

  /** One step of the sort: x placed in front of the first element it is
      smaller than. */
  function Insert(x: string, s: seq<string>): (r: seq<string>)
    ensures |r| == |s| + 1
  {
    if |s| == 0 then [x]
    else if StrLess(x, s[0]) then [x] + s
    else [s[0]] + Insert(x, s[1..])
  }

  /** Insert adds exactly x. */
  lemma {:induction false} InsertAdds(x: string, s: seq<string>)
    ensures multiset(Insert(x, s)) == multiset(s) + multiset{x}
  {
    if |s| > 0 && !StrLess(x, s[0]) {
      InsertAdds(x, s[1..]);
      assert s == [s[0]] + s[1..];
    }
  }

  /** Insert keeps a sorted list sorted. */
  lemma {:induction false} InsertSorts(x: string, s: seq<string>)
    requires Sorted(s)
    ensures Sorted(Insert(x, s))
  {
    if s == [] {
    } else if StrLess(x, s[0]) {
      forall j | 0 <= j < |s| ensures StrLessEq(x, s[j]) {
        StrLessTrichotomy(x, s[0]);
        StrLessIrreflexive(s[0]);
        StrLessEqTransitive(x, s[0], s[j]);
      }
    } else {
      var rest := Insert(x, s[1..]);
      SortedHeadFirst(s, 0);
      InsertSorts(x, s[1..]);
      InsertAdds(x, s[1..]);
      forall j | 0 <= j < |rest| ensures StrLessEq(s[0], rest[j]) {
        assert rest[j] in multiset(rest);
        if rest[j] == x {
          StrLessTrichotomy(x, s[0]);
        } else {
          assert rest[j] in multiset(s[1..]);
          var k :| 0 <= k < |s[1..]| && s[1..][k] == rest[j];
          SortedHeadFirst(s, k + 1);
        }
      }
      SortedCons(s[0], rest);
    }
  }

  /** A head not after any element of a sorted tail gives a sorted list. */
  lemma SortedCons(x: string, s: seq<string>)
    requires Sorted(s) && forall j :: 0 <= j < |s| ==> StrLessEq(x, s[j])
    ensures Sorted([x] + s)
  {
    var r := [x] + s;
    forall a, b | 0 <= a < b < |r| ensures StrLessEq(r[a], r[b]) {
      if a > 0 {
        assert r[a] == s[a - 1] && r[b] == s[b - 1];
      }
    }
  }

  /** Array.prototype.sort on a list of names. */
  function SortNames(s: seq<string>): (r: seq<string>)
    ensures |r| == |s|
  {
    if |s| == 0 then [] else Insert(s[0], SortNames(s[1..]))
  }

  /** SortNames returns a sorted arrangement of its argument. */
  lemma {:induction false} SortNamesSorts(s: seq<string>)
    ensures multiset(SortNames(s)) == multiset(s) && Sorted(SortNames(s))
  {
    if |s| > 0 {
      var rest := SortNames(s[1..]);
      assert SortNames(s) == Insert(s[0], rest);
      SortNamesSorts(s[1..]);
      assert multiset(SortNames(s)) == multiset(s) by {
        InsertAdds(s[0], rest);
        assert s == [s[0]] + s[1..];
      }
      InsertSorts(s[0], rest);
    }
  }

  lemma SortedHeadFirst(s: seq<string>, j: nat)
    requires Sorted(s) && j < |s|
    ensures StrLessEq(s[0], s[j]) && Sorted(s[1..])
  {
    StrLessIrreflexive(s[0]);
    assert forall a, b :: 0 <= a < b < |s[1..]| ==> s[1..][a] == s[a + 1] && s[1..][b] == s[b + 1];
  }

  /** Two sorted arrangements of the same names start with the same name. */
  lemma SortedSameHead(s: seq<string>, t: seq<string>)
    requires Sorted(s) && Sorted(t) && multiset(s) == multiset(t) && |s| > 0
    ensures |t| == |s| && s[0] == t[0]
  {
    assert |t| == |s| by { assert |multiset(t)| == |multiset(s)|; }
    assert s[0] in multiset(t) && t[0] in multiset(s);
    var i :| 0 <= i < |t| && t[i] == s[0];
    var j :| 0 <= j < |s| && s[j] == t[0];
    SortedHeadFirst(s, j);
    SortedHeadFirst(t, i);
    StrLessTrichotomy(s[0], t[0]);
  }

  /** Removing the same first name from equal multisets leaves equal ones. */
  lemma TailsAlike(s: seq<string>, t: seq<string>)
    requires |s| > 0 && |t| > 0 && s[0] == t[0] && multiset(s) == multiset(t)
    ensures multiset(s[1..]) == multiset(t[1..])
  {
    var sr, tr := s[1..], t[1..];
    assert s == [s[0]] + sr && t == [t[0]] + tr;
    assert multiset(s) == multiset{s[0]} + multiset(sr);
    assert multiset(t) == multiset{s[0]} + multiset(tr);
    forall x ensures multiset(sr)[x] == multiset(tr)[x] {
      assert multiset(s)[x] == multiset{s[0]}[x] + multiset(sr)[x];
      assert multiset(t)[x] == multiset{s[0]}[x] + multiset(tr)[x];
    }
  }

  /** A sorted arrangement of given names is unique. */
  lemma {:induction false} SortedUnique(s: seq<string>, t: seq<string>)
    requires Sorted(s) && Sorted(t) && multiset(s) == multiset(t)
    ensures s == t
  {
    if |s| > 0 {
      SortedSameHead(s, t);
      TailsAlike(s, t);
      SortedHeadFirst(s, 0);
      SortedHeadFirst(t, 0);
      SortedUnique(s[1..], t[1..]);
      assert s == [s[0]] + s[1..] && t == [t[0]] + t[1..];
    } else {
      assert |multiset(t)| == 0;
    }
  }

  /** Names joined with '-', as Array.prototype.join('-') does. */
  function Join(parts: seq<string>): string
  {
    if |parts| == 0 then ""
    else if |parts| == 1 then parts[0]
    else parts[0] + "-" + Join(parts[1..])
  }

  /** generateEdgeKey(n1, n2) = [n1, n2].sort().join('-') */
  function EdgeKey(n1: string, n2: string): string
  {
    Join(SortNames([n1, n2]))
  }

  /** generateFaceKey(n1, n2, n3) = [n1, n2, n3].sort().join('-') */
  function FaceKey(n1: string, n2: string, n3: string): string
  {
    Join(SortNames([n1, n2, n3]))
  }

  /** The key of a list of names depends only on the names, not on their order. */
  lemma SortNamesPermutation(s: seq<string>, t: seq<string>)
    requires multiset(s) == multiset(t)
    ensures SortNames(s) == SortNames(t)
  {
    SortNamesSorts(s);
    SortNamesSorts(t);
    SortedUnique(SortNames(s), SortNames(t));
  }

  lemma EdgeKeySymmetric(n1: string, n2: string)
    ensures EdgeKey(n1, n2) == EdgeKey(n2, n1)
  {
    assert multiset([n1, n2]) == multiset([n2, n1]);
    SortNamesPermutation([n1, n2], [n2, n1]);
  }

  /** Any reordering of a face's three names gives the same face key. */
  lemma FaceKeyPermutation(n1: string, n2: string, n3: string, m1: string, m2: string, m3: string)
    requires multiset{n1, n2, n3} == multiset{m1, m2, m3}
    ensures FaceKey(n1, n2, n3) == FaceKey(m1, m2, m3)
  {
    var s, t := [n1, n2, n3], [m1, m2, m3];
    assert multiset(s) == multiset{n1, n2, n3};
    assert multiset(t) == multiset{m1, m2, m3};
    SortNamesPermutation(s, t);
  }

  /** On single letters the edge key is "x-y" with x the smaller letter. */
  lemma EdgeKeyOfLetters(x: char, y: char)
    requires x < y
    ensures EdgeKey([x], [y]) == [x, '-', y] && EdgeKey([y], [x]) == [x, '-', y]
  {
    assert StrLess([x], [y]);
    assert SortNames([[y]]) == [[y]];
    assert SortNames([[x], [y]]) == [[x], [y]];
    assert Join([[x], [y]]) == [x] + "-" + [y];
    EdgeKeySymmetric([x], [y]);
  }

  /** On single letters the face key is "x-y-z" with the letters in
      increasing order, whatever order the corners are given in. */
  lemma FaceKeyOfLetters(x: char, y: char, z: char, n1: string, n2: string, n3: string)
    requires x < y < z
    requires multiset{n1, n2, n3} == multiset{[x], [y], [z]}
    ensures FaceKey(n1, n2, n3) == [x, '-', y, '-', z]
  {
    assert StrLess([x], [y]) && StrLess([y], [z]);
    assert SortNames([[z]]) == [[z]];
    assert SortNames([[y], [z]]) == [[y], [z]];
    assert SortNames([[x], [y], [z]]) == [[x], [y], [z]];
    assert [[x], [y], [z]][1..] == [[y], [z]];
    assert Join([[y], [z]]) == [y] + "-" + [z];
    assert Join([[x], [y], [z]]) == [x] + "-" + ([y] + "-" + [z]);
    FaceKeyPermutation(n1, n2, n3, [x], [y], [z]);
  }

  function Sum(zs: seq<real>): real
  {
    if |zs| == 0 then 0.0 else zs[0] + Sum(zs[1..])
  }

  lemma SumOne(x: real)
    ensures Sum([x]) == x
  {
    assert [x][1..] == [];
  }

  lemma SumPair(x: real, y: real)
    ensures Sum([x, y]) == x + y
  {
    assert [x, y][1..] == [y];
    SumOne(y);
  }

  /** the mean of the z values */
  function Mean(zs: seq<real>): real
    requires |zs| > 0
  {
    Sum(zs) / (|zs| as real)
  }

  /** isNear: the element sits in the near hemisphere when the mean of its
      z values is at most 0, that is when their sum is at most 0. */
  predicate IsNear(zs: seq<real>)
    requires |zs| > 0
  {
    Sum(zs) <= 0.0
  }

  lemma IsNearIsMeanSign(zs: seq<real>)
    requires |zs| > 0
    ensures IsNear(zs) <==> Mean(zs) <= 0.0
  {
    var n := |zs| as real;
    if Sum(zs) <= 0.0 {
      assert Sum(zs) / n <= 0.0;
    } else {
      assert Sum(zs) / n > 0.0;
    }
  }

  /** generateNodeKey(aName, bName, cName, aw, bw, cw): the canonical name of
      the point with barycentric weights (aw, bw, cw) over the corners named
      aName, bName, cName. Its body is not part of this model, so it is a
      parameter. The Class I walks pass whole-number weights; the Class II
      walks slide by 2/3 (scripts/geodesic.js:470-491), so their weights are
      counted in thirds and the key function they are given is applied to
      those thirds. */
  type NodeKeyFn = (string, string, string, int, int, int) -> string

  /** What the walks rely on: a corner holding the whole weight is named by
      that corner alone. */
  ghost predicate NamesCorners(key: NodeKeyFn)
  {
    forall a, b, c, t :: t > 0 ==> key(a, b, c, t, 0, 0) == a
  }
}
