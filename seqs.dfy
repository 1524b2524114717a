/**
 * The array primitives the board code uses: `find`/`findIndex`, `indexOf`,
 * the "match, else the first element" fallback, `filter` by inequality,
 * `splice` insertion and dnd-kit's `arrayMove`.
 */
module Seqs {
  import opened Wrappers

  /** `Array.prototype.findIndex`: the first index whose element satisfies `p`. */
  function FindIndex<T>(s: seq<T>, p: T -> bool): (r: Option<nat>)
    ensures r.Some? ==> r.value < |s| && p(s[r.value])
    ensures r.Some? ==> forall j :: 0 <= j < r.value ==> !p(s[j])
    ensures r.None? <==> forall j :: 0 <= j < |s| ==> !p(s[j])
  {
    if |s| == 0 then None
    else if p(s[0]) then Some(0)
    else match FindIndex(s[1..], p)
      case None => None
      case Some(i) => Some(i + 1)
  }

  /** `Array.prototype.find`: the first element satisfying `p`. */
  function Find<T>(s: seq<T>, p: T -> bool): (r: Option<T>)
    ensures r.Some? <==> exists j :: 0 <= j < |s| && p(s[j])
    ensures r.Some? ==> r.value in s && p(r.value)
    ensures FindIndex(s, p).Some? ==> r == Some(s[FindIndex(s, p).value])
  {
    match FindIndex(s, p)
    case None => None
    case Some(i) => Some(s[i])
  }

  /** `s.find(p) ?? s[0]`: the first element satisfying `p`, else the first
      element, and nothing only when `s` is empty. */
  function FindOrFirst<T>(s: seq<T>, p: T -> bool): (r: Option<T>)
    ensures r.Some? <==> |s| > 0
    ensures (exists j :: 0 <= j < |s| && p(s[j])) ==> r == Find(s, p)
    ensures (forall j :: 0 <= j < |s| ==> !p(s[j])) && |s| > 0 ==> r == Some(s[0])
  {
    match Find(s, p)
    case Some(x) => Some(x)
    case None => if |s| > 0 then Some(s[0]) else None
  }

  /** `Array.prototype.indexOf`, with `None` for -1. */
  function IndexOf<T(==)>(s: seq<T>, x: T): (r: Option<nat>)
    ensures r.Some? ==> r.value < |s| && s[r.value] == x && x !in s[..r.value]
    ensures r.None? <==> x !in s
  {
    if |s| == 0 then None
    else if s[0] == x then Some(0)
    else match IndexOf(s[1..], x)
      case None => None
      case Some(i) => assert s[..i + 1] == [s[0]] + s[1..][..i]; Some(i + 1)
  }

  /** `s.filter((y) => y !== x)`: every occurrence of `x` goes, every other
      element keeps its count and its relative order. */
  function RemoveAll<T(==)>(s: seq<T>, x: T): (r: seq<T>)
    ensures x !in r
    ensures multiset(r) == multiset(s)[x := 0]
    ensures x !in s ==> r == s
    ensures |r| <= |s|
  {
    if |s| == 0 then []
    else if s[0] == x then
      assert s == [s[0]] + s[1..];
      RemoveAll(s[1..], x)
    else
      assert s == [s[0]] + s[1..];
      [s[0]] + RemoveAll(s[1..], x)
  }

  /** Removing `x` keeps the order of what remains: it distributes over
      concatenation. */
  lemma {:induction false} RemoveAllConcat<T>(a: seq<T>, b: seq<T>, x: T)
    ensures RemoveAll(a + b, x) == RemoveAll(a, x) + RemoveAll(b, x)
    decreases |a|
  {
    if |a| > 0 {
      assert (a + b)[1..] == a[1..] + b;
      RemoveAllConcat(a[1..], b, x);
    } else {
      assert a + b == b;
    }
  }

  /** `t.splice(i, 0, x)`: `x` placed at index `i`, everything else shifted. */
  function InsertAt<T>(s: seq<T>, i: nat, x: T): (r: seq<T>)
    requires i <= |s|
    ensures |r| == |s| + 1 && r[i] == x
    ensures r[..i] == s[..i] && r[i + 1..] == s[i..]
    ensures multiset(r) == multiset(s) + multiset{x}
  {
    assert s == s[..i] + s[i..];
    s[..i] + [x] + s[i..]
  }

  /** dnd-kit's `arrayMove(s, from, to)`: take the element at `from` out and
      put it back so that it ends up at index `to`. */
  function ArrayMove<T>(s: seq<T>, from: nat, to: nat): (r: seq<T>)
    requires from < |s| && to < |s|
    ensures |r| == |s|
    ensures r[to] == s[from]
    ensures multiset(r) == multiset(s)
  {
    var rest := s[..from] + s[from + 1..];
    assert s == s[..from] + [s[from]] + s[from + 1..];
    InsertAt(rest, to, s[from])
  }

  /** Away from the two positions involved, `ArrayMove` shifts the elements
      between them by one place towards `from` and leaves all others where
      they were. */
  lemma ArrayMoveAt<T>(s: seq<T>, from: nat, to: nat, k: nat)
    requires from < |s| && to < |s| && k < |s| && k != to
    ensures from <= to ==> ArrayMove(s, from, to)[k] == (if from <= k < to then s[k + 1] else s[k])
    ensures to < from ==> ArrayMove(s, from, to)[k] == (if to < k <= from then s[k - 1] else s[k])
  {
  }

  /** The concatenation of a sequence of sequences, in order. */
  function Flatten<T>(ss: seq<seq<T>>): (r: seq<T>)
    ensures |ss| == 1 ==> r == ss[0]
  {
    if |ss| == 0 then [] else Flatten(ss[..|ss| - 1]) + ss[|ss| - 1]
  }

  /** Flattening distributes over concatenation. */
  lemma {:induction false} FlattenConcat<T>(a: seq<seq<T>>, b: seq<seq<T>>)
    ensures Flatten(a + b) == Flatten(a) + Flatten(b)
    decreases |b|
  {
    if |b| == 0 {
      assert a + b == a;
    } else {
      var b' := b[..|b| - 1];
      assert (a + b)[..|a + b| - 1] == a + b';
      FlattenConcat(a, b');
    }
  }

  /** The last index whose element satisfies `p`. */
  function FindLastIndex<T>(s: seq<T>, p: T -> bool): (r: Option<nat>)
    ensures r.Some? ==> r.value < |s| && p(s[r.value])
    ensures r.Some? ==> forall j :: r.value < j < |s| ==> !p(s[j])
    ensures r.None? <==> forall j :: 0 <= j < |s| ==> !p(s[j])
  {
    if |s| == 0 then None
    else if p(s[|s| - 1]) then Some(|s| - 1)
    else FindLastIndex(s[..|s| - 1], p)
  }

  /** `Array.prototype.filter`: the elements satisfying `p`, in order; its
      last element is the last element of `s` that satisfies `p`. */
  function Filter<T>(s: seq<T>, p: T -> bool): (r: seq<T>)
    ensures |r| <= |s|
    ensures forall x :: x in r ==> x in s && p(x)
    ensures forall k :: 0 <= k < |s| && p(s[k]) ==> s[k] in r
    ensures |r| > 0 <==> FindLastIndex(s, p).Some?
    ensures |r| > 0 ==> r[|r| - 1] == s[FindLastIndex(s, p).value]
  {
    if |s| == 0 then []
    else
      var init := s[..|s| - 1];
      var rest := Filter(init, p);
      assert forall x :: x in init ==> x in s;
      assert forall k :: 0 <= k < |init| ==> init[k] == s[k];
      if p(s[|s| - 1]) then rest + [s[|s| - 1]] else rest
  }

  /** Filtering by a predicate every element satisfies keeps everything. */
  lemma {:induction false} FilterAll<T>(s: seq<T>, p: T -> bool)
    requires forall k :: 0 <= k < |s| ==> p(s[k])
    ensures Filter(s, p) == s
    decreases |s|
  {
    if |s| > 0 {
      FilterAll(s[..|s| - 1], p);
      assert s[..|s| - 1] + [s[|s| - 1]] == s;
    }
  }

  /** Filtering one more element appends it when it matches. */
  lemma FilterSnoc<T>(s: seq<T>, x: T, p: T -> bool)
    ensures Filter(s + [x], p) == Filter(s, p) + (if p(x) then [x] else [])
  {
    assert (s + [x])[..|s|] == s;
  }

  /** One step of `FilterConcat`: appending an element to the second part. */
  lemma FilterConcatStep<T>(a: seq<T>, b: seq<T>, last: T, p: T -> bool)
    requires Filter(a + b, p) == Filter(a, p) + Filter(b, p)
    ensures Filter((a + b) + [last], p) == Filter(a, p) + Filter(b + [last], p)
  {
    FilterSnoc(a + b, last, p);
    FilterSnoc(b, last, p);
    ConcatAssoc(Filter(a, p), Filter(b, p), if p(last) then [last] else []);
  }

  lemma ConcatAssoc<T>(a: seq<T>, b: seq<T>, c: seq<T>)
    ensures (a + b) + c == a + (b + c)
  {
  }

  /** Filtering a concatenation filters each part, so the kept elements
      keep their order and their multiplicity. */
  lemma {:induction false} FilterConcat<T>(a: seq<T>, b: seq<T>, p: T -> bool)
    ensures Filter(a + b, p) == Filter(a, p) + Filter(b, p)
    decreases |b|
  {
    if |b| == 0 {
      assert a + b == a;
    } else {
      var b', last := b[..|b| - 1], b[|b| - 1];
      FilterConcat(a, b', p);
      FilterConcatStep(a, b', last, p);
      SnocSplit(a, b);
    }
  }

  /** A non-empty sequence, alone or after another, is its front plus its
      last element. */
  lemma SnocSplit<T>(a: seq<T>, b: seq<T>)
    requires |b| > 0
    ensures b == b[..|b| - 1] + [b[|b| - 1]]
    ensures a + b == (a + b[..|b| - 1]) + [b[|b| - 1]]
  {
  }
}
