/** Generic sequence helpers shared by the backend, the microservice and the
    front end: an Option type, first-occurrence de-duplication (the
    `[...new Set(xs)]` idiom of JavaScript and the key order of a Python dict
    comprehension), filtering and subsequences. */
module Lists {

  datatype Option<+T> = None | Some(value: T) {
    /** The wrapped value, or `default` when there is none. */
    function GetOr(default: T): T {
      match this
      case Some(v) => v
      case None => default
    }
  }

  /** No element occurs twice. */
  predicate NoDuplicates<T(==)>(s: seq<T>) {
    forall i, j :: 0 <= i < j < |s| ==> s[i] != s[j]
  }

  /** The position of the first occurrence of `x` in `xs`. */
  function IndexOf<T(==)>(xs: seq<T>, x: T): (k: nat)
    requires x in xs
    ensures k < |xs| && xs[k] == x && x !in xs[..k]
  {
    if xs[0] == x then 0 else 1 + IndexOf(xs[1..], x)
  }

  /** `idx` lists, in increasing order, positions of `b` holding the elements of `a`. */
  predicate Embeds<T(==)>(idx: seq<nat>, a: seq<T>, b: seq<T>) {
    && |idx| == |a|
    && (forall k :: 0 <= k < |idx| ==> idx[k] < |b| && a[k] == b[idx[k]])
    && (forall k, l :: 0 <= k < l < |idx| ==> idx[k] < idx[l])
  }

  /** `a` can be obtained from `b` by deleting elements (order is kept). */
  ghost predicate IsSubsequence<T>(a: seq<T>, b: seq<T>) {
    exists idx :: Embeds(idx, a, b)
  }

  /** Keeps the first occurrence of every element, in input order: what
      spreading a JavaScript `Set` built from `xs` back into an array yields. */
  function Dedup<T(==)>(xs: seq<T>): (r: seq<T>)
    ensures NoDuplicates(r)
    ensures forall i :: 0 <= i < |r| ==> r[i] in xs
    ensures forall i :: 0 <= i < |xs| ==> xs[i] in r
    ensures |r| <= |xs|
    decreases |xs|
  {
    if xs == [] then []
    else
      var d := Dedup(xs[..|xs| - 1]);
      var x := xs[|xs| - 1];
      if x in d then d else d + [x]
  }

  /** The elements of `xs` that satisfy `p`, in order. */
  function Filter<T>(p: T -> bool, xs: seq<T>): (r: seq<T>)
    ensures |r| <= |xs|
    ensures forall i :: 0 <= i < |r| ==> r[i] in xs && p(r[i])
    ensures forall i :: 0 <= i < |xs| && p(xs[i]) ==> xs[i] in r
    decreases |xs|
  {
    if xs == [] then []
    else
      var rest := Filter(p, xs[..|xs| - 1]);
      if p(xs[|xs| - 1]) then rest + [xs[|xs| - 1]] else rest
  }

  /** Filtering keeps order: the result is a subsequence of the input. */
  lemma FilterIsSubsequence<T>(p: T -> bool, xs: seq<T>)
    ensures IsSubsequence(Filter(p, xs), xs)
  {
    FilterAtPositions(p, xs);
    assert Embeds(Positions(p, xs), Filter(p, xs), xs);
  }

  /** The positions of the elements of `xs` that satisfy `p`, in increasing order. */
  function Positions<T>(p: T -> bool, xs: seq<T>): (idx: seq<nat>)
    ensures forall k :: 0 <= k < |idx| ==> idx[k] < |xs| && p(xs[idx[k]])
    ensures forall k, l :: 0 <= k < l < |idx| ==> idx[k] < idx[l]
    ensures forall i :: 0 <= i < |xs| && p(xs[i]) ==> i in idx
    decreases |xs|
  {
    if xs == [] then []
    else
      var last := |xs| - 1;
      var prev := Positions(p, xs[..last]);
      assert forall i :: 0 <= i < last ==> xs[..last][i] == xs[i];
      if p(xs[last]) then prev + [last] else prev
  }

  /** The filtered sequence holds exactly the elements at those positions. */
  lemma {:induction false} FilterAtPositions<T>(p: T -> bool, xs: seq<T>)
    ensures |Filter(p, xs)| == |Positions(p, xs)|
    ensures forall k :: 0 <= k < |Filter(p, xs)| ==> Filter(p, xs)[k] == xs[Positions(p, xs)[k]]
    decreases |xs|
  {
    if xs != [] {
      var last := |xs| - 1;
      FilterAtPositions(p, xs[..last]);
    }
  }

  /** When every element satisfies `p`, filtering changes nothing. */
  lemma {:induction false} FilterAll<T>(p: T -> bool, xs: seq<T>)
    requires forall i :: 0 <= i < |xs| ==> p(xs[i])
    ensures Filter(p, xs) == xs
    decreases |xs|
  {
    if xs != [] {
      FilterAll(p, xs[..|xs| - 1]);
      assert xs[..|xs| - 1] + [xs[|xs| - 1]] == xs;
    }
  }

  /** De-duplication keeps first occurrences, in the order in which they
      first occur: of two kept elements, the earlier one first occurs earlier. */
  lemma {:induction false} DedupFirstOccurrenceOrder<T>(xs: seq<T>, i: nat, j: nat)
    requires i < j < |Dedup(xs)|
    ensures Dedup(xs)[i] in xs && Dedup(xs)[j] in xs
    ensures IndexOf(xs, Dedup(xs)[i]) < IndexOf(xs, Dedup(xs)[j])
    decreases |xs|
  {
    var init := xs[..|xs| - 1];
    var d := Dedup(init);
    var x := xs[|xs| - 1];
    var r := Dedup(xs);
    PrefixIndexOf(xs, r[i]);
    if j < |d| {
      assert r[i] == d[i] && r[j] == d[j];
      DedupFirstOccurrenceOrder(init, i, j);
      PrefixIndexOf(xs, r[j]);
    } else {
      assert x !in d && r[j] == x && x !in init;
      assert xs[..|xs| - 1] == init;
      assert IndexOf(xs, x) == |xs| - 1;
    }
  }

  /** An element of a prefix keeps its first index in the whole sequence. */
  lemma PrefixIndexOf<T>(xs: seq<T>, x: T)
    requires xs != [] && x in xs[..|xs| - 1]
    ensures IndexOf(xs, x) == IndexOf(xs[..|xs| - 1], x)
  {
    var init := xs[..|xs| - 1];
    var k := IndexOf(init, x);
    assert xs[..k] == init[..k];
    var m := IndexOf(xs, x);
    assert xs[m] == x && x !in xs[..m];
  }

  /** A sequence without duplicates is its own de-duplication. */
  lemma {:induction false} DedupOfDistinct<T>(xs: seq<T>)
    requires NoDuplicates(xs)
    ensures Dedup(xs) == xs
    decreases |xs|
  {
    if xs != [] {
      var init := xs[..|xs| - 1];
      DedupOfDistinct(init);
      assert xs[|xs| - 1] !in init;
      assert init + [xs[|xs| - 1]] == xs;
    }
  }

  /** Splitting off the last element of the right operand of a concatenation. */
  lemma AppendSnoc<T>(a: seq<T>, b: seq<T>)
    requires b != []
    ensures b == b[..|b| - 1] + [b[|b| - 1]]
    ensures a + b == (a + b[..|b| - 1]) + [b[|b| - 1]]
  {
  }
}
