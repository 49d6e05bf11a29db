/** Collecting what each element of a list contributes, in order: the loops
    of the parsers that append a record for some elements and skip the others.

    The lemmas are stated for any element type and any extractor, so that a
    proof about the list never looks inside one element. */
module Lists {
  import opened Wrappers
  import opened Dedup

  /** The contributions `f(x)` of the elements that have one, in order. */
  function FilterMap<T, U>(s: seq<T>, f: T -> Option<U>): seq<U>
    decreases |s|
  {
    if s == [] then []
    else
      var y := f(s[|s| - 1]);
      FilterMap(s[..|s| - 1], f) + (if y.Some? then [y.value] else [])
  }

  /** One more element adds its contribution at the end. */
  lemma FilterMapPrefix<T, U>(s: seq<T>, f: T -> Option<U>, i: int)
    requires 0 <= i < |s|
    ensures var y := f(s[i]);
      FilterMap(s[..i + 1], f) == FilterMap(s[..i], f) + (if y.Some? then [y.value] else [])
  {
    assert s[..i + 1][..i] == s[..i];
  }

  /** The output holds exactly the contributions of the elements. */
  lemma {:induction false} FilterMapExact<T, U>(s: seq<T>, f: T -> Option<U>)
    ensures forall y :: y in FilterMap(s, f) <==> exists i :: 0 <= i < |s| && f(s[i]) == Some(y)
    decreases |s|
  {
    if s != [] {
      var n := |s| - 1;
      var p := s[..n];
      FilterMapExact(p, f);
      forall y ensures y in FilterMap(s, f) <==> exists i :: 0 <= i < |s| && f(s[i]) == Some(y) {
        if exists i :: 0 <= i < |p| && f(p[i]) == Some(y) {
          var i :| 0 <= i < |p| && f(p[i]) == Some(y);
          assert s[i] == p[i];
        }
        if exists i :: 0 <= i < |s| && f(s[i]) == Some(y) {
          var i :| 0 <= i < |s| && f(s[i]) == Some(y);
          if i < n { assert s[i] == p[i]; }
        }
      }
    }
  }

  /** The index of an input element that contributed `y`. */
  lemma FilterMapSource<T, U>(s: seq<T>, f: T -> Option<U>, y: U) returns (i: int)
    requires y in FilterMap(s, f)
    ensures 0 <= i < |s| && f(s[i]) == Some(y)
  {
    FilterMapExact(s, f);
    i :| 0 <= i < |s| && f(s[i]) == Some(y);
  }

  /** One output element per contributing input element. */
  lemma {:induction false} FilterMapCount<T, U>(s: seq<T>, f: T -> Option<U>)
    ensures |FilterMap(s, f)| == |set i | 0 <= i < |s| && f(s[i]).Some?|
    decreases |s|
  {
    if s != [] {
      var n := |s| - 1;
      var p := s[..n];
      FilterMapCount(p, f);
      var sp := set i | 0 <= i < |p| && f(p[i]).Some?;
      var ss := set i | 0 <= i < |s| && f(s[i]).Some?;
      assert sp == set i | 0 <= i < n && f(s[i]).Some? by {
        forall i | 0 <= i < n ensures p[i] == s[i] { }
      }
      if f(s[n]).Some? {
        assert ss == sp + {n};
      } else {
        assert ss == sp;
      }
    }
  }

  /** The elements of `s` that `keep` accepts, in order. */
  function Filter<T>(s: seq<T>, keep: T -> bool): seq<T>
    decreases |s|
  {
    if s == [] then []
    else
      var x := s[|s| - 1];
      Filter(s[..|s| - 1], keep) + (if keep(x) then [x] else [])
  }

  lemma FilterPrefix<T>(s: seq<T>, keep: T -> bool, i: int)
    requires 0 <= i < |s|
    ensures Filter(s[..i + 1], keep) == Filter(s[..i], keep) + (if keep(s[i]) then [s[i]] else [])
  {
    assert s[..i + 1][..i] == s[..i];
  }

  /** The kept elements keep their order. */
  lemma {:induction false} FilterSubseq<T>(s: seq<T>, keep: T -> bool)
    ensures IsSubseq(Filter(s, keep), s)
    decreases |s|
  {
    if s != [] {
      var p := s[..|s| - 1];
      var x := s[|s| - 1];
      FilterSubseq(p, keep);
      var r := Filter(s, keep);
      if keep(x) {
        assert r == Filter(p, keep) + [x];
        assert r[..|r| - 1] == Filter(p, keep);
      } else {
        assert r == Filter(p, keep);
        SubseqSnoc(Filter(p, keep), p, x);
        assert p + [x] == s;
      }
    }
  }

  /** The kept elements are the accepted ones, all of them, in their order. */
  lemma {:induction false} FilterExact<T>(s: seq<T>, keep: T -> bool)
    ensures IsSubseq(Filter(s, keep), s)
    ensures forall x :: x in Filter(s, keep) <==> x in s && keep(x)
    decreases |s|
  {
    FilterSubseq(s, keep);
    if s != [] {
      var p := s[..|s| - 1];
      var x := s[|s| - 1];
      FilterExact(p, keep);
      assert s == p + [x];
    }
  }

  /** `[f(x) for x in s]`. */
  function Map<T, U>(s: seq<T>, f: T -> U): (r: seq<U>)
    ensures |r| == |s|
    ensures forall i :: 0 <= i < |s| ==> r[i] == f(s[i])
    decreases |s|
  {
    if s == [] then [] else Map(s[..|s| - 1], f) + [f(s[|s| - 1])]
  }

  /** One more element adds its image at the end. */
  lemma MapPrefix<T, U>(s: seq<T>, f: T -> U, i: int)
    requires 0 <= i < |s|
    ensures Map(s[..i + 1], f) == Map(s[..i], f) + [f(s[i])]
  {
    assert s[..i + 1][..i] == s[..i];
  }

  /** Mapping works element by element: it distributes over concatenation. */
  lemma MapAppend<T, U>(a: seq<T>, b: seq<T>, f: T -> U)
    ensures Map(a + b, f) == Map(a, f) + Map(b, f)
  {
    var l, r := Map(a + b, f), Map(a, f) + Map(b, f);
    assert |l| == |r|;
    forall i | 0 <= i < |l| ensures l[i] == r[i] {
      if i < |a| { assert (a + b)[i] == a[i]; } else { assert (a + b)[i] == b[i - |a|]; }
    }
  }

  /** Concatenation regroups. */
  lemma Regroup<T>(x: seq<T>, a: seq<T>, b: seq<T>)
    ensures x + (a + b) == x + a + b
  {
  }

  /** A non-empty sequence is its front and its last element. */
  lemma Snoc<T>(s: seq<T>)
    requires s != []
    ensures s[..|s| - 1] + [s[|s| - 1]] == s
  {
  }

  /** `[a] + m + [b]` holds `m` between its ends. */
  lemma Between<T>(a: T, m: seq<T>, b: T)
    ensures |[a] + m + [b]| == |m| + 2
    ensures ([a] + m + [b])[0] == a && ([a] + m + [b])[|m| + 1] == b
    ensures ([a] + m + [b])[1..|m| + 1] == m
    ensures forall i :: 0 <= i < |m| ==> ([a] + m + [b])[i + 1] == m[i]
  {
  }

  /** `lines` holds, from index `at` on, `h`, then the image of each
      element of `s` in order, then `tail`. */
  predicate Framed<T, U(==)>(lines: seq<U>, at: nat, h: U, s: seq<T>, f: T -> U, tail: seq<U>) {
    at + 1 + |s| + |tail| <= |lines|
    && lines[at] == h
    && (forall j :: 0 <= j < |s| ==> lines[at + 1 + j] == f(s[j]))
    && (forall k :: 0 <= k < |tail| ==> lines[at + 1 + |s| + k] == tail[k])
  }

  lemma FramedOwn<T, U>(h: U, s: seq<T>, f: T -> U, tail: seq<U>)
    ensures Framed([h] + Map(s, f) + tail, 0, h, s, f, tail)
  {
    var m := Map(s, f);
    var lines := [h] + m + tail;
    forall j | 0 <= j < |s| ensures lines[1 + j] == f(s[j]) {
      assert lines[1 + j] == m[j];
    }
    forall k | 0 <= k < |tail| ensures lines[1 + |s| + k] == tail[k] {
    }
  }

  /** What `body` holds from `at` on, `lines = head + body + rest` holds
      from `|head| + at` on. */
  lemma FramedShift<T, U>(lines: seq<U>, head: seq<U>, body: seq<U>, rest: seq<U>, at: nat, pos: nat,
                          h: U, s: seq<T>, f: T -> U, tail: seq<U>)
    requires Framed(body, at, h, s, f, tail)
    requires lines == head + body + rest && pos == |head| + at
    ensures Framed(lines, pos, h, s, f, tail)
  {
    forall j | 0 <= j < |s| ensures lines[pos + 1 + j] == f(s[j]) {
      assert lines[pos + 1 + j] == body[at + 1 + j];
    }
    forall k | 0 <= k < |tail| ensures lines[pos + 1 + |s| + k] == tail[k] {
      assert lines[pos + 1 + |s| + k] == body[at + 1 + |s| + k];
    }
    assert lines[pos] == body[at];
  }

  /** The images `f(x)` of the elements, concatenated in order. */
  function FlatMap<T, U>(s: seq<T>, f: T -> seq<U>): seq<U>
    decreases |s|
  {
    if s == [] then [] else FlatMap(s[..|s| - 1], f) + f(s[|s| - 1])
  }

  /** One more element adds its image at the end. */
  lemma FlatMapPrefix<T, U>(s: seq<T>, f: T -> seq<U>, i: int)
    requires 0 <= i < |s|
    ensures FlatMap(s[..i + 1], f) == FlatMap(s[..i], f) + f(s[i])
  {
    assert s[..i + 1][..i] == s[..i];
  }

  /** Flattening distributes over concatenation. */
  lemma {:induction false} FlatMapAppend<T, U>(a: seq<T>, b: seq<T>, f: T -> seq<U>)
    ensures FlatMap(a + b, f) == FlatMap(a, f) + FlatMap(b, f)
    decreases |b|
  {
    if b == [] {
      assert a + b == a;
    } else {
      var n := |b| - 1;
      assert (a + b)[..|a + b| - 1] == a + b[..n];
      assert (a + b)[|a + b| - 1] == b[n];
      FlatMapAppend(a, b[..n], f);
    }
  }

  /** The image of element `i` sits between the images of the elements
      before it and those of the elements after it. */
  lemma FlatMapSplit<T, U>(s: seq<T>, f: T -> seq<U>, i: int)
    requires 0 <= i < |s|
    ensures FlatMap(s, f) == FlatMap(s[..i], f) + f(s[i]) + FlatMap(s[i + 1..], f)
  {
    assert s == s[..i + 1] + s[i + 1..];
    FlatMapAppend(s[..i + 1], s[i + 1..], f);
    FlatMapPrefix(s, f, i);
  }

  /** An image shaped `[h] + Map(r, f) + tail` is held, in the flattening
      `lines`, right after the images of the elements before it. */
  lemma FlatMapFramed<T, V, U>(lines: seq<U>, s: seq<T>, g: T -> seq<U>, i: int, at: nat,
                               h: U, r: seq<V>, f: V -> U, tail: seq<U>)
    requires 0 <= i < |s| && g(s[i]) == [h] + Map(r, f) + tail
    requires lines == FlatMap(s, g) && at == |FlatMap(s[..i], g)|
    ensures Framed(lines, at, h, r, f, tail)
  {
    var before, own, after := FlatMap(s[..i], g), g(s[i]), FlatMap(s[i + 1..], g);
    FlatMapSplit(s, g, i);
    FramedOwn(h, r, f, tail);
    FramedShift(lines, before, own, after, 0, at, h, r, f, tail);
  }

  /** The same in `lines = head + FlatMap(s, g) + rest`, shifted by `head`. */
  lemma FlatMapFramedBetween<T, V, U>(lines: seq<U>, head: seq<U>, s: seq<T>, g: T -> seq<U>, rest: seq<U>,
                                      i: int, at: nat, h: U, r: seq<V>, f: V -> U, tail: seq<U>)
    requires 0 <= i < |s| && g(s[i]) == [h] + Map(r, f) + tail
    requires lines == head + FlatMap(s, g) + rest && at == |head| + |FlatMap(s[..i], g)|
    ensures Framed(lines, at, h, r, f, tail)
  {
    var body, inner := FlatMap(s, g), |FlatMap(s[..i], g)|;
    FlatMapFramed(body, s, g, i, inner, h, r, f, tail);
    FramedShift(lines, head, body, rest, inner, at, h, r, f, tail);
  }
}
