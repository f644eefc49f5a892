/** `Array.prototype.filter` and the order-preserving subsequence relation it establishes. */
module Seqs {

  /** `a` is obtained from `b` by deleting elements, keeping the order of the rest. */
  ghost predicate IsSubseq<T>(a: seq<T>, b: seq<T>)
    decreases |b|
  {
    if a == [] then true
    else if b == [] then false
    else (a[0] == b[0] && IsSubseq(a[1..], b[1..])) || IsSubseq(a, b[1..])
  }

  /** `s.filter(f)`. */
  function Filter<T>(s: seq<T>, f: T -> bool): (r: seq<T>)
    ensures |r| <= |s|
    ensures forall i :: 0 <= i < |r| ==> r[i] in s && f(r[i])
    ensures forall i :: 0 <= i < |s| && f(s[i]) ==> s[i] in r
    ensures IsSubseq(r, s)
  {
    if s == [] then []
    else if f(s[0]) then
      var rest := Filter(s[1..], f);
      assert ([s[0]] + rest)[1..] == rest;
      [s[0]] + rest
    else
      Filter(s[1..], f)
  }

  /** A head that passes is kept in front of the filtered rest. */
  lemma FilterKeep<T>(h: T, t: seq<T>, f: T -> bool)
    requires f(h)
    ensures Filter([h] + t, f) == [h] + Filter(t, f)
  {
    assert ([h] + t)[1..] == t;
  }

  /** A head that fails is dropped. */
  lemma FilterDrop<T>(h: T, t: seq<T>, f: T -> bool)
    requires !f(h)
    ensures Filter([h] + t, f) == Filter(t, f)
  {
    assert ([h] + t)[1..] == t;
  }

  lemma AppendAssoc<T>(x: seq<T>, y: seq<T>, z: seq<T>)
    ensures x + (y + z) == (x + y) + z
  {
  }

  /** The inductive step of `FilterAppend`: the head of `a` is kept or dropped on both sides alike. */
  lemma FilterAppendStep<T>(h: T, t: seq<T>, b: seq<T>, f: T -> bool)
    requires Filter(t + b, f) == Filter(t, f) + Filter(b, f)
    ensures Filter(([h] + t) + b, f) == Filter([h] + t, f) + Filter(b, f)
  {
    AppendAssoc([h], t, b);
    if f(h) {
      FilterKeep(h, t + b, f);
      FilterKeep(h, t, f);
      AppendAssoc([h], Filter(t, f), Filter(b, f));
    } else {
      FilterDrop(h, t + b, f);
      FilterDrop(h, t, f);
    }
  }

  /** Filtering distributes over concatenation, so it keeps relative order across a split. */
  lemma {:induction false} FilterAppend<T>(a: seq<T>, b: seq<T>, f: T -> bool)
    ensures Filter(a + b, f) == Filter(a, f) + Filter(b, f)
  {
    if a == [] {
      assert a + b == b;
    } else {
      FilterAppend(a[1..], b, f);
      FilterAppendStep(a[0], a[1..], b, f);
      assert [a[0]] + a[1..] == a;
    }
  }

  /** A filter whose predicate holds everywhere keeps everything. */
  lemma {:induction false} FilterAll<T>(s: seq<T>, f: T -> bool)
    requires forall i :: 0 <= i < |s| ==> f(s[i])
    ensures Filter(s, f) == s
  {
    if s != [] {
      FilterAll(s[1..], f);
      assert [s[0]] + s[1..] == s;
    }
  }

  /** A filter whose predicate holds nowhere keeps nothing. */
  lemma {:induction false} FilterNone<T>(s: seq<T>, f: T -> bool)
    requires forall i :: 0 <= i < |s| ==> !f(s[i])
    ensures Filter(s, f) == []
  {
    if s != [] {
      FilterNone(s[1..], f);
    }
  }

  /** Filters whose predicates agree on the elements give the same result. */
  lemma {:induction false} FilterExt<T>(s: seq<T>, f: T -> bool, g: T -> bool)
    requires forall i :: 0 <= i < |s| ==> f(s[i]) == g(s[i])
    ensures Filter(s, f) == Filter(s, g)
  {
    if s != [] {
      FilterExt(s[1..], f, g);
    }
  }
}
