/** First-occurrence de-duplication, the specification shared by the search
    parser's `_dedupe` (keyed by slug) and the HTTP layer's
    `_normalize_feature_ids` (keyed by the id itself): walk the input in
    order, keep an element when no earlier element has its key. */
module Dedup {

  /** The keys of the elements of `s`. */
  function KeysOf<T, K>(s: seq<T>, key: T -> K): set<K> {
    set i | 0 <= i < |s| :: key(s[i])
  }

  /** The elements of `s` whose key no earlier element has, in order. */
  function UniqueBy<T, K(==)>(s: seq<T>, key: T -> K): seq<T>
    decreases |s|
  {
    if s == [] then []
    else
      var p := s[..|s| - 1];
      UniqueBy(p, key) + (if key(s[|s| - 1]) in KeysOf(p, key) then [] else [s[|s| - 1]])
  }

  /** `s[j]` is the first element of `s` with its key. */
  predicate IsFirst<T, K(==)>(s: seq<T>, j: int, key: T -> K)
    requires 0 <= j < |s|
  {
    forall k :: 0 <= k < j ==> key(s[k]) != key(s[j])
  }

  /** The positions of the first occurrences of each key of `s`, in order:
      the positions `UniqueBy` keeps. */
  function FirstIndices<T, K(==)>(s: seq<T>, key: T -> K): seq<int>
    decreases |s|
  {
    if s == [] then []
    else
      var p := s[..|s| - 1];
      FirstIndices(p, key) + (if key(s[|s| - 1]) in KeysOf(p, key) then [] else [|s| - 1])
  }

  /** `r` lists, in increasing order of position `idx`, exactly the first
      occurrences of the keys of `s`. */
  predicate PicksFirsts<T(==), K(==)>(r: seq<T>, s: seq<T>, idx: seq<int>, key: T -> K) {
    && |idx| == |r|
    && (forall i :: 0 <= i < |idx| ==> 0 <= idx[i] < |s| && r[i] == s[idx[i]] && IsFirst(s, idx[i], key))
    && Increasing(idx)
    && (forall j :: 0 <= j < |s| && IsFirst(s, j, key) ==> j in idx)
  }

  /** `r` is `s` with some elements left out, the rest in their order. */
  predicate IsSubseq<T(==)>(r: seq<T>, s: seq<T>)
    decreases |s|
  {
    if r == [] then true
    else if s == [] then false
    else if r[|r| - 1] == s[|s| - 1] then IsSubseq(r[..|r| - 1], s[..|s| - 1])
    else IsSubseq(r, s[..|s| - 1])
  }

  /** Appending one element adds exactly its key. */
  lemma KeysOfSnoc<T, K>(p: seq<T>, x: T, key: T -> K)
    ensures KeysOf(p + [x], key) == KeysOf(p, key) + {key(x)}
  {
    var s := p + [x];
    forall k | k in KeysOf(s, key) ensures k in KeysOf(p, key) + {key(x)} {
      var i :| 0 <= i < |s| && key(s[i]) == k;
      if i < |p| { assert s[i] == p[i]; }
    }
    forall k | k in KeysOf(p, key) + {key(x)} ensures k in KeysOf(s, key) {
      if k == key(x) {
        assert s[|p|] == x;
      } else {
        var i :| 0 <= i < |p| && key(p[i]) == k;
        assert s[i] == p[i];
      }
    }
  }

  /** The definition read on an explicit last element. */
  lemma UniqueBySnoc<T, K>(p: seq<T>, x: T, key: T -> K)
    ensures UniqueBy(p + [x], key) == UniqueBy(p, key) + (if key(x) in KeysOf(p, key) then [] else [x])
  {
    assert (p + [x])[..|p|] == p;
  }

  /** De-duplication loses no key and invents none. */
  lemma {:induction false} UniqueByKeys<T, K>(s: seq<T>, key: T -> K)
    ensures KeysOf(UniqueBy(s, key), key) == KeysOf(s, key)
    decreases |s|
  {
    if s != [] {
      var p := s[..|s| - 1];
      var x := s[|s| - 1];
      assert s == p + [x];
      UniqueByKeys(p, key);
      KeysOfSnoc(p, x, key);
      UniqueBySnoc(p, x, key);
      if key(x) !in KeysOf(p, key) {
        KeysOfSnoc(UniqueBy(p, key), x, key);
      } else {
        assert UniqueBy(s, key) == UniqueBy(p, key);
      }
    }
  }

  /** No two kept elements share a key. */
  lemma {:induction false} UniqueByDistinct<T, K>(s: seq<T>, key: T -> K)
    ensures var r := UniqueBy(s, key);
      forall i, j :: 0 <= i < j < |r| ==> key(r[i]) != key(r[j])
    decreases |s|
  {
    if s != [] {
      var p := s[..|s| - 1];
      var x := s[|s| - 1];
      assert s == p + [x];
      UniqueBySnoc(p, x, key);
      UniqueByDistinct(p, key);
      var q := UniqueBy(p, key);
      if key(x) !in KeysOf(p, key) {
        UniqueByKeys(p, key);
        var r := q + [x];
        forall i, j | 0 <= i < j < |r| ensures key(r[i]) != key(r[j]) {
          if j == |q| {
            assert r[i] == q[i];
            assert key(q[i]) in KeysOf(q, key);
          } else {
            assert r[i] == q[i] && r[j] == q[j];
          }
        }
      }
    }
  }

  /** Every first occurrence is kept. */
  lemma {:induction false} UniqueByKeepsFirsts<T, K>(s: seq<T>, key: T -> K)
    ensures forall j :: 0 <= j < |s| && IsFirst(s, j, key) ==> s[j] in UniqueBy(s, key)
    decreases |s|
  {
    forall j | 0 <= j < |s| && IsFirst(s, j, key) ensures s[j] in UniqueBy(s, key) {
      KeepsFirst(s, j, key);
    }
  }

  /** One first occurrence is kept. */
  lemma {:induction false} KeepsFirst<T, K>(s: seq<T>, j: int, key: T -> K)
    requires 0 <= j < |s| && IsFirst(s, j, key)
    ensures s[j] in UniqueBy(s, key)
    decreases |s|
  {
    var p := s[..|s| - 1];
    var last := s[|s| - 1];
    assert s == p + [last];
    UniqueBySnoc(p, last, key);
    var q := UniqueBy(p, key);
    if j < |p| {
      assert s[j] == p[j];
      assert IsFirst(p, j, key) by {
        forall k | 0 <= k < j ensures key(p[k]) != key(p[j]) { assert p[k] == s[k]; }
      }
      KeepsFirst(p, j, key);
      assert UniqueBy(s, key)[..|q|] == q;
    } else {
      assert key(last) !in KeysOf(p, key) by {
        forall i | 0 <= i < |p| ensures key(p[i]) != key(last) { assert p[i] == s[i]; }
      }
      assert UniqueBy(s, key) == q + [last];
    }
  }

  /** Everything kept is a first occurrence. */
  lemma {:induction false} UniqueByOnlyFirsts<T, K>(s: seq<T>, key: T -> K)
    ensures forall x :: x in UniqueBy(s, key) ==> exists j :: 0 <= j < |s| && s[j] == x && IsFirst(s, j, key)
    decreases |s|
  {
    if s != [] {
      var p := s[..|s| - 1];
      var last := s[|s| - 1];
      UniqueByOnlyFirsts(p, key);
      var q := UniqueBy(p, key);
      assert UniqueBy(s, key) == q + (if key(last) in KeysOf(p, key) then [] else [last]);
      forall x | x in UniqueBy(s, key) ensures exists j :: 0 <= j < |s| && s[j] == x && IsFirst(s, j, key) {
        if x in q {
          var j :| 0 <= j < |p| && p[j] == x && IsFirst(p, j, key);
          FirstInLonger(p, s, j, key);
        } else {
          assert x == last && key(last) !in KeysOf(p, key);
          assert IsFirst(s, |s| - 1, key) by {
            forall k | 0 <= k < |s| - 1 ensures key(s[k]) != key(last) {
              assert s[k] == p[k];
              assert key(p[k]) in KeysOf(p, key);
            }
          }
        }
      }
    }
  }

  /** A first occurrence in a prefix is one in the whole sequence. */
  lemma FirstInLonger<T, K>(p: seq<T>, s: seq<T>, j: int, key: T -> K)
    requires 0 <= j < |p| <= |s| && p == s[..|p|] && IsFirst(p, j, key)
    ensures s[j] == p[j] && IsFirst(s, j, key)
  {
    forall k | 0 <= k < j ensures key(s[k]) != key(s[j]) { assert p[k] == s[k] && p[j] == s[j]; }
  }

  /** A subsequence of `s` is also one of `s` with an element appended. */
  lemma {:induction false} SubseqSnoc<T>(r: seq<T>, s: seq<T>, x: T)
    requires IsSubseq(r, s)
    ensures IsSubseq(r, s + [x])
    decreases |s|, 1
  {
    var t := s + [x];
    assert t[..|t| - 1] == s;
    if r != [] && r[|r| - 1] == x {
      SubseqDropLast(r, s);
    }
  }

  /** Leaving out the last element of a subsequence keeps it a subsequence. */
  lemma {:induction false} SubseqDropLast<T>(r: seq<T>, s: seq<T>)
    requires r != [] && IsSubseq(r, s)
    ensures IsSubseq(r[..|r| - 1], s)
    decreases |s|, 0
  {
    var r' := r[..|r| - 1];
    if r' != [] {
      var s' := s[..|s| - 1];
      if r[|r| - 1] == s[|s| - 1] {
        SubseqSnoc(r', s', s[|s| - 1]);
        assert s' + [s[|s| - 1]] == s;
      } else {
        SubseqDropLast(r, s');
        SubseqSnoc(r', s', s[|s| - 1]);
        assert s' + [s[|s| - 1]] == s;
      }
    }
  }

  /** The kept elements appear in the input, in the input's order. */
  lemma {:induction false} UniqueBySubseq<T, K>(s: seq<T>, key: T -> K)
    ensures IsSubseq(UniqueBy(s, key), s)
    decreases |s|
  {
    if s != [] {
      var p := s[..|s| - 1];
      var x := s[|s| - 1];
      UniqueBySubseq(p, key);
      var q := UniqueBy(p, key);
      assert s == p + [x];
      UniqueBySnoc(p, x, key);
      if key(x) in KeysOf(p, key) {
        assert UniqueBy(s, key) == q;
        SubseqSnoc(q, p, x);
        assert IsSubseq(q, p + [x]);
      } else {
        var r := q + [x];
        assert UniqueBy(s, key) == r;
        assert r[..|r| - 1] == q && s[..|s| - 1] == p;
        assert IsSubseq(r, s);
      }
    }
  }

  /** De-duplicating a concatenation keeps the de-duplicated first part as a
      prefix; nothing after it has a key the first part has. So an element of
      the first part wins every key collision with the second. */
  lemma {:induction false} UniqueByAppend<T, K>(a: seq<T>, b: seq<T>, key: T -> K)
    ensures var r := UniqueBy(a + b, key); var ra := UniqueBy(a, key);
      |ra| <= |r| && r[..|ra|] == ra
      && forall i :: |ra| <= i < |r| ==> key(r[i]) !in KeysOf(a, key)
    decreases |b|
  {
    if b == [] {
      assert a + b == a;
    } else {
      var b' := b[..|b| - 1];
      var x := b[|b| - 1];
      UniqueByAppend(a, b', key);
      assert a + b == (a + b') + [x];
      UniqueBySnoc(a + b', x, key);
      var q := UniqueBy(a + b', key);
      if key(x) !in KeysOf(a + b', key) {
        assert key(x) !in KeysOf(a, key) by {
          forall i | 0 <= i < |a| ensures key(a[i]) != key(x) {
            assert (a + b')[i] == a[i];
          }
        }
      }
    }
  }

  /** The kept elements are the first occurrences, in the order they occur:
      `UniqueBy(s, key)[i]` is `s[FirstIndices(s, key)[i]]`, those positions
      increase, and every first occurrence's position is among them. */
  lemma {:induction false} UniqueByOrder<T, K>(s: seq<T>, key: T -> K)
    ensures PicksFirsts(UniqueBy(s, key), s, FirstIndices(s, key), key)
    decreases |s|
  {
    if s != [] {
      var p := s[..|s| - 1];
      var x := s[|s| - 1];
      assert s == p + [x];
      UniqueByOrder(p, key);
      UniqueBySnoc(p, x, key);
      if key(x) in KeysOf(p, key) {
        OrderStepSeen(s, p, x, UniqueBy(p, key), FirstIndices(p, key), key);
      } else {
        OrderStepNew(s, p, x, UniqueBy(p, key), FirstIndices(p, key), key);
      }
    }
  }

  /** What `PicksFirsts` says about a prefix `p` of `s` still holds of `s`
      for the positions inside `p`. */
  lemma OrderCarry<T, K>(s: seq<T>, p: seq<T>, x: T, q: seq<T>, ip: seq<int>, key: T -> K)
    requires s == p + [x] && PicksFirsts(q, p, ip, key)
    ensures forall i :: 0 <= i < |ip| ==> 0 <= ip[i] < |s| && q[i] == s[ip[i]] && IsFirst(s, ip[i], key)
    ensures forall j :: 0 <= j < |p| && IsFirst(s, j, key) ==> j in ip
  {
    forall i | 0 <= i < |ip| ensures 0 <= ip[i] < |s| && q[i] == s[ip[i]] && IsFirst(s, ip[i], key) {
      FirstInLonger(p, s, ip[i], key);
    }
    forall j | 0 <= j < |p| && IsFirst(s, j, key) ensures j in ip {
      assert IsFirst(p, j, key) by {
        forall k | 0 <= k < j ensures key(p[k]) != key(p[j]) { assert p[k] == s[k] && p[j] == s[j]; }
      }
    }
  }

  /** A last element whose key came before adds no first occurrence. */
  lemma OrderStepSeen<T, K>(s: seq<T>, p: seq<T>, x: T, q: seq<T>, ip: seq<int>, key: T -> K)
    requires s == p + [x] && PicksFirsts(q, p, ip, key) && key(x) in KeysOf(p, key)
    ensures PicksFirsts(q, s, ip, key)
  {
    OrderCarry(s, p, x, q, ip, key);
    var k :| 0 <= k < |p| && key(p[k]) == key(x);
    assert s[k] == p[k] && s[|p|] == x;
    assert !IsFirst(s, |p|, key);
  }

  /** A last element with a new key is one more first occurrence, after all
      the others. */
  lemma OrderStepNew<T, K>(s: seq<T>, p: seq<T>, x: T, q: seq<T>, ip: seq<int>, key: T -> K)
    requires s == p + [x] && PicksFirsts(q, p, ip, key) && key(x) !in KeysOf(p, key)
    ensures PicksFirsts(q + [x], s, ip + [|p|], key)
  {
    OrderCarry(s, p, x, q, ip, key);
    assert IsFirst(s, |p|, key) by {
      forall k | 0 <= k < |p| ensures key(s[k]) != key(s[|p|]) {
        assert s[k] == p[k] && s[|p|] == x;
        assert key(p[k]) in KeysOf(p, key);
      }
    }
    var r := q + [x];
    var idx := ip + [|p|];
    forall i | 0 <= i < |idx| ensures 0 <= idx[i] < |s| && r[i] == s[idx[i]] && IsFirst(s, idx[i], key) {
      if i < |ip| { assert idx[i] == ip[i] && r[i] == q[i]; }
    }
    assert Increasing(idx) by {
      forall i, j | 0 <= i < j < |idx| ensures idx[i] < idx[j] {
        if j < |ip| { assert idx[i] == ip[i] && idx[j] == ip[j]; } else { assert idx[i] == ip[i]; }
      }
    }
    forall j | 0 <= j < |s| && IsFirst(s, j, key) ensures j in idx {
      if j < |p| { assert j in ip; } else { assert idx[|ip|] == j; }
    }
  }

  /** `a` is strictly increasing. */
  predicate Increasing(a: seq<int>) {
    forall i, j :: 0 <= i < j < |a| ==> a[i] < a[j]
  }

  /** Without its last element, a strictly increasing list holds exactly the
      elements below that last one. */
  lemma IncreasingInit(a: seq<int>)
    requires a != [] && Increasing(a)
    ensures forall v :: v in a[..|a| - 1] <==> v in a && v < a[|a| - 1]
    ensures forall v :: v in a ==> v <= a[|a| - 1]
    ensures Increasing(a[..|a| - 1])
  {
    var a' := a[..|a| - 1];
    forall i, j | 0 <= i < j < |a'| ensures a'[i] < a'[j] { assert a'[i] == a[i] && a'[j] == a[j]; }
    forall v | v in a ensures v <= a[|a| - 1] && (v < a[|a| - 1] ==> v in a') {
      var i :| 0 <= i < |a| && a[i] == v;
      if i < |a| - 1 { assert a'[i] == v; }
    }
    forall v | v in a' ensures v in a && v < a[|a| - 1] {
      var i :| 0 <= i < |a'| && a'[i] == v;
      assert a[i] == v;
    }
  }

  /** A strictly increasing list is determined by its elements. */
  lemma {:induction false} IncreasingUnique(a: seq<int>, b: seq<int>)
    requires Increasing(a) && Increasing(b)
    requires forall v :: v in a <==> v in b
    ensures a == b
    decreases |a|
  {
    if a != [] { assert a[0] in a; }
    if b != [] { assert b[0] in b; }
    if a != [] && b != [] {
      var x := a[|a| - 1];
      var y := b[|b| - 1];
      IncreasingInit(a);
      IncreasingInit(b);
      assert x in b && y in a;
      assert x == y;
      var a' := a[..|a| - 1];
      var b' := b[..|b| - 1];
      forall v ensures v in a' <==> v in b' {
        assert v in a' <==> v in a && v < x;
        assert v in b' <==> v in b && v < y;
      }
      IncreasingUnique(a', b');
      assert a == a' + [x] && b == b' + [y];
    }
  }

  /** First-occurrence de-duplication is the only result that keeps the first
      occurrences in their order: any `r` that picks them, by any positions,
      is `UniqueBy(s, key)`. */
  lemma UniqueByUnique<T, K>(r: seq<T>, s: seq<T>, idx: seq<int>, key: T -> K)
    requires PicksFirsts(r, s, idx, key)
    ensures r == UniqueBy(s, key)
  {
    UniqueByOrder(s, key);
    var fi := FirstIndices(s, key);
    forall v ensures v in idx <==> v in fi {
      if v in idx {
        var i :| 0 <= i < |idx| && idx[i] == v;
      }
      if v in fi {
        var i :| 0 <= i < |fi| && fi[i] == v;
      }
    }
    IncreasingUnique(idx, fi);
    assert |r| == |UniqueBy(s, key)|;
    forall i | 0 <= i < |r| ensures r[i] == UniqueBy(s, key)[i] { }
  }

  /** Input whose keys are already pairwise distinct is left as it is. */
  lemma {:induction false} UniqueByDistinctKeys<T, K>(s: seq<T>, key: T -> K)
    requires forall i, j :: 0 <= i < j < |s| ==> key(s[i]) != key(s[j])
    ensures UniqueBy(s, key) == s
    decreases |s|
  {
    if s != [] {
      var p := s[..|s| - 1];
      var x := s[|s| - 1];
      UniqueByDistinctKeys(p, key);
      assert key(x) !in KeysOf(p, key);
      assert s == p + [x];
    }
  }
}
