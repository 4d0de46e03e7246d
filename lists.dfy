/** The array methods the pages build their lists with (`filter`, `find`, `map` with
    a conditional replacement, `filter(...).length`, `sort`) and the ordering an SQL
    `ORDER BY` produces, as functions on sequences. */
module Lists {
  import opened Wrappers

  /** `s.filter(p)`: the elements of `s` that satisfy `p`, in their order. */
  function Filter<T>(s: seq<T>, p: T -> bool): (r: seq<T>)
    ensures |r| <= |s|
    ensures forall k :: 0 <= k < |r| ==> r[k] in s && p(r[k])
    ensures forall k :: 0 <= k < |s| && p(s[k]) ==> s[k] in r
  {
    if s == [] then [] else (if p(s[0]) then [s[0]] else []) + Filter(s[1..], p)
  }

  /** Filtering distributes over concatenation; with the one-element case this
      pins `Filter` down as the order-preserving selection. */
  lemma {:induction false} FilterAppend<T>(a: seq<T>, b: seq<T>, p: T -> bool)
    ensures Filter(a + b, p) == Filter(a, p) + Filter(b, p)
    decreases |a|
  {
    if a == [] {
      assert a + b == b;
    } else {
      assert (a + b)[1..] == a[1..] + b;
      FilterAppend(a[1..], b, p);
    }
  }

  lemma FilterSingleton<T>(x: T, p: T -> bool)
    ensures Filter([x], p) == if p(x) then [x] else []
  {
    assert [x][1..] == [];
  }

  /** A filter every element passes keeps the whole list. */
  lemma {:induction false} FilterKeepsAll<T>(s: seq<T>, p: T -> bool)
    requires forall k :: 0 <= k < |s| ==> p(s[k])
    ensures Filter(s, p) == s
    decreases |s|
  {
    if s != [] {
      FilterKeepsAll(s[1..], p);
      assert [s[0]] + s[1..] == s;
    }
  }

  /** A filter no element passes keeps nothing. */
  lemma {:induction false} FilterKeepsNone<T>(s: seq<T>, p: T -> bool)
    requires forall k :: 0 <= k < |s| ==> !p(s[k])
    ensures Filter(s, p) == []
    decreases |s|
  {
    if s != [] {
      FilterKeepsNone(s[1..], p);
    }
  }

  /** `r` is `s` with some elements dropped and the rest in their order. */
  predicate Subsequence<T(==)>(r: seq<T>, s: seq<T>)
    decreases |s|
  {
    r == [] || (s != [] && if r[0] == s[0] then Subsequence(r[1..], s[1..]) else Subsequence(r, s[1..]))
  }

  /** A filter only drops elements: what it keeps stays in the original order. */
  lemma {:induction false} FilterIsSubsequence<T>(s: seq<T>, p: T -> bool)
    ensures Subsequence(Filter(s, p), s)
    decreases |s|
  {
    if s != [] {
      FilterIsSubsequence(s[1..], p);
      if p(s[0]) {
        assert Filter(s, p)[1..] == Filter(s[1..], p);
      } else {
        assert Filter(s, p) == Filter(s[1..], p);
        SubsequenceSkip(Filter(s[1..], p), s);
      }
    }
  }

  /** Dropping the head of `s` is harmless when `r` is a subsequence of the rest. */
  lemma {:induction false} SubsequenceSkip<T>(r: seq<T>, s: seq<T>)
    requires s != [] && Subsequence(r, s[1..])
    ensures Subsequence(r, s)
    decreases |s|, 0
  {
    if r != [] && r[0] == s[0] {
      // the greedy match takes `s[0]`; `r[1..]` then still fits in what follows
      SubsequenceTail(r, s[1..]);
    }
  }

  /** What remains of a subsequence after its head is a subsequence too. */
  lemma {:induction false} SubsequenceTail<T>(r: seq<T>, s: seq<T>)
    requires r != [] && Subsequence(r, s)
    ensures Subsequence(r[1..], s)
    decreases |s|, 1
  {
    if r[0] == s[0] {
      if r[1..] != [] {
        SubsequenceSkip(r[1..], s);
      }
    } else {
      SubsequenceTail(r, s[1..]);
      SubsequenceSkip(r[1..], s);
    }
  }

  /** Filters that agree on every element select the same list. */
  lemma {:induction false} FilterExtensional<T>(s: seq<T>, p: T -> bool, q: T -> bool)
    requires forall x :: p(x) == q(x)
    ensures Filter(s, p) == Filter(s, q)
    decreases |s|
  {
    if s != [] {
      FilterExtensional(s[1..], p, q);
    }
  }

  /** Filtering by `p` and then by `q` is filtering by both at once. */
  lemma {:induction false} FilterConjunction<T>(s: seq<T>, p: T -> bool, q: T -> bool, pq: T -> bool)
    requires forall x :: pq(x) == (p(x) && q(x))
    ensures Filter(s, pq) == Filter(Filter(s, p), q)
    decreases |s|
  {
    if s != [] {
      FilterConjunction(s[1..], p, q, pq);
      if p(s[0]) {
        assert Filter(s, p) == [s[0]] + Filter(s[1..], p);
        FilterAppend([s[0]], Filter(s[1..], p), q);
        FilterSingleton(s[0], q);
      } else {
        assert Filter(s, p) == Filter(s[1..], p);
      }
    }
  }

  /** The positions of `s` whose element satisfies `p`. */
  function Positions<T>(s: seq<T>, p: T -> bool): set<int> {
    set k | 0 <= k < |s| && p(s[k])
  }

  /** `s.filter(p).length` is the number of positions whose element satisfies `p`. */
  lemma {:induction false} FilterLengthCountsPositions<T>(s: seq<T>, p: T -> bool)
    ensures |Filter(s, p)| == |Positions(s, p)|
    decreases |s|
  {
    if s != [] {
      var init, x := s[..|s| - 1], s[|s| - 1];
      assert s == init + [x];
      FilterLengthCountsPositions(init, p);
      FilterAppend(init, [x], p);
      FilterSingleton(x, p);
      PositionsSnoc(init, x, p);
      assert |s| - 1 !in Positions(init, p);
    }
  }

  lemma PositionsSnoc<T>(init: seq<T>, x: T, p: T -> bool)
    ensures Positions(init + [x], p) == Positions(init, p) + (if p(x) then {|init|} else {})
  {
    var s := init + [x];
    forall k | k in Positions(s, p) ensures k in Positions(init, p) + (if p(x) then {|init|} else {}) {
      if k < |init| {
        assert s[k] == init[k];
      }
    }
    forall k | k in Positions(init, p) ensures k in Positions(s, p) {
      assert s[k] == init[k];
    }
  }

  /** Two predicates no element satisfies together select at most `|s|` elements between them. */
  lemma {:induction false} DisjointFiltersBounded<T>(s: seq<T>, p: T -> bool, q: T -> bool)
    requires forall k :: 0 <= k < |s| ==> !(p(s[k]) && q(s[k]))
    ensures |Filter(s, p)| + |Filter(s, q)| <= |s|
    decreases |s|
  {
    if s != [] {
      DisjointFiltersBounded(s[1..], p, q);
    }
  }

  /** A predicate and its negation split the list between them. */
  lemma {:induction false} ComplementaryFilters<T>(s: seq<T>, p: T -> bool, q: T -> bool)
    requires forall x :: q(x) == !p(x)
    ensures |Filter(s, p)| + |Filter(s, q)| == |s|
    decreases |s|
  {
    if s != [] {
      ComplementaryFilters(s[1..], p, q);
    }
  }

  /** `s.map(x => p(x) ? x' : x)`: every element satisfying `p` is replaced by `y`,
      the others stay where they are. */
  function ReplaceWhere<T>(s: seq<T>, p: T -> bool, y: T): (r: seq<T>)
    ensures |r| == |s|
    ensures forall k :: 0 <= k < |s| ==> r[k] == if p(s[k]) then y else s[k]
  {
    seq(|s|, k requires 0 <= k < |s| => if p(s[k]) then y else s[k])
  }

  /** `s.findIndex(p)`: the first position whose element satisfies `p`, if any. */
  function FindFirst<T>(s: seq<T>, p: T -> bool): (r: Option<nat>)
    ensures r.Some? ==> r.value < |s| && p(s[r.value]) && forall j :: 0 <= j < r.value ==> !p(s[j])
    ensures r.None? ==> forall j :: 0 <= j < |s| ==> !p(s[j])
    decreases |s|
  {
    if s == [] then None
    else if p(s[0]) then Some(0)
    else
      match FindFirst(s[1..], p)
      case None => None
      case Some(i) => Some(i + 1)
  }

  /** `s.some(p)` */
  predicate Any<T>(s: seq<T>, p: T -> bool)
    decreases |s|
  {
    s != [] && (p(s[0]) || Any(s[1..], p))
  }

  /** `some` finds exactly the lists with an element satisfying `p`. */
  lemma {:induction false} AnyIffExists<T>(s: seq<T>, p: T -> bool)
    ensures Any(s, p) <==> exists k :: 0 <= k < |s| && p(s[k])
    decreases |s|
  {
    if s != [] {
      AnyIffExists(s[1..], p);
      if Any(s[1..], p) {
        var k :| 0 <= k < |s[1..]| && p(s[1..][k]);
        assert p(s[k + 1]);
      }
      if exists k :: 0 <= k < |s| && p(s[k]) {
        var k :| 0 <= k < |s| && p(s[k]);
        if k > 0 {
          assert p(s[1..][k - 1]);
        }
      }
    }
  }

  /** `le` orders any two elements one way or the other. */
  ghost predicate Total<T(!new)>(le: (T, T) -> bool) {
    forall a, b :: le(a, b) || le(b, a)
  }

  /** Each element is `le`-before the next one. */
  predicate SortedBy<T>(s: seq<T>, le: (T, T) -> bool) {
    forall k :: 0 <= k < |s| - 1 ==> le(s[k], s[k + 1])
  }

  /** Places `x` before the first element it is `le`-before. */
  function InsertBy<T>(x: T, s: seq<T>, le: (T, T) -> bool): (r: seq<T>)
    ensures multiset(r) == multiset(s) + multiset{x}
    ensures |r| == |s| + 1
    ensures r[0] == x || (s != [] && r[0] == s[0])
  {
    if s == [] then [x]
    else if le(x, s[0]) then [x] + s
    else
      assert s == [s[0]] + s[1..];
      [s[0]] + InsertBy(x, s[1..], le)
  }

  /** The rows of `s` in `le` order (insertion sort). */
  function SortBy<T>(s: seq<T>, le: (T, T) -> bool): (r: seq<T>)
    ensures multiset(r) == multiset(s)
    ensures |r| == |s|
  {
    if s == [] then []
    else
      assert s == [s[0]] + s[1..];
      InsertBy(s[0], SortBy(s[1..], le), le)
  }

  lemma {:induction false} InsertBySorted<T(!new)>(x: T, s: seq<T>, le: (T, T) -> bool)
    requires Total(le) && SortedBy(s, le)
    ensures SortedBy(InsertBy(x, s, le), le)
    decreases |s|
  {
    if s != [] && !le(x, s[0]) {
      InsertBySorted(x, s[1..], le);
      var tail := InsertBy(x, s[1..], le);
      assert le(s[0], x);
      assert le(s[0], tail[0]);
    }
  }

  /** For a total `le`, `SortBy` really sorts. */
  lemma {:induction false} SortBySorted<T(!new)>(s: seq<T>, le: (T, T) -> bool)
    requires Total(le)
    ensures SortedBy(SortBy(s, le), le)
    decreases |s|
  {
    if s != [] {
      SortBySorted(s[1..], le);
      InsertBySorted(s[0], SortBy(s[1..], le), le);
    }
  }

  /** The elements of `s` whose key is `k`, in their order. */
  function Ties<T>(s: seq<T>, key: T -> int, k: int): (r: seq<T>)
    ensures |r| <= |s|
    ensures forall i :: 0 <= i < |r| ==> key(r[i]) == k
  {
    if s == [] then [] else (if key(s[0]) == k then [s[0]] else []) + Ties(s[1..], key, k)
  }

  /** `t` has, for every key, the same elements with that key in the same order as
      `s`: a reordering of `s` that moved no element past one with an equal key,
      which is what a stable sort produces. */
  ghost predicate SameTies<T>(s: seq<T>, t: seq<T>, key: T -> int) {
    forall k :: Ties(s, key, k) == Ties(t, key, k)
  }

  lemma {:induction false} TiesAppend<T>(a: seq<T>, b: seq<T>, key: T -> int, k: int)
    ensures Ties(a + b, key, k) == Ties(a, key, k) + Ties(b, key, k)
    decreases |a|
  {
    if a == [] {
      assert a + b == b;
    } else {
      assert (a + b)[1..] == a[1..] + b;
      TiesAppend(a[1..], b, key, k);
    }
  }

  /** Exchanging two neighbours with different keys changes no class of ties. */
  lemma TiesSwapPair<T>(pre: seq<T>, x: T, y: T, post: seq<T>, key: T -> int, k: int)
    requires key(x) != key(y)
    ensures Ties(pre + ([x, y] + post), key, k) == Ties(pre + ([y, x] + post), key, k)
  {
    TiesAppend(pre, [x, y] + post, key, k);
    TiesAppend(pre, [y, x] + post, key, k);
    TiesAppend([x, y], post, key, k);
    TiesAppend([y, x], post, key, k);
    TiesPair(x, y, key, k);
  }

  /** The pair on its own: at most one of two different keys is `k`. */
  lemma TiesPair<T>(x: T, y: T, key: T -> int, k: int)
    requires key(x) != key(y)
    ensures Ties([x, y], key, k) == Ties([y, x], key, k)
  {
    TiesAppend([x], [y], key, k);
    TiesAppend([y], [x], key, k);
    assert [x] + [y] == [x, y] && [y] + [x] == [y, x];
    assert [x][1..] == [] && [y][1..] == [];
  }

  /** Exchanging two neighbours with different keys moves no element past one with
      an equal key. */
  lemma SwapKeepsTies<T>(s: seq<T>, j: nat, key: T -> int)
    requires 0 < j < |s| && key(s[j - 1]) != key(s[j])
    ensures SameTies(s[j - 1 := s[j]][j := s[j - 1]], s, key)
  {
    var x, y := s[j - 1], s[j];
    var pre, post := s[..j - 1], s[j + 1..];
    assert s == pre + ([x, y] + post);
    assert s[j - 1 := y][j := x] == pre + ([y, x] + post);
    forall k ensures Ties(pre + ([y, x] + post), key, k) == Ties(pre + ([x, y] + post), key, k) {
      TiesSwapPair(pre, x, y, post, key, k);
    }
  }

  lemma SameTiesTrans<T>(r: seq<T>, s: seq<T>, t: seq<T>, key: T -> int)
    requires SameTies(r, s, key) && SameTies(s, t, key)
    ensures SameTies(r, t, key)
  {
  }
}
