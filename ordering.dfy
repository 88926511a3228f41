/**
 * What the database engine does with the ORDER BY, WHERE and LIMIT parts of
 * a query: sort by a comparator, keep the rows a predicate accepts, and cut
 * the result to a prefix.
 */
module Ordering {
  import opened Wrappers

  /** `le` is a total preorder: every two rows compare, and comparison chains. */
  ghost predicate TotalPreorder<T(!new)>(le: (T, T) -> bool) {
    && (forall a, b :: le(a, b) || le(b, a))
    && (forall a, b, c :: le(a, b) && le(b, c) ==> le(a, c))
  }

  predicate Sorted<T>(s: seq<T>, le: (T, T) -> bool) {
    forall i, j :: 0 <= i < j < |s| ==> le(s[i], s[j])
  }

  /** Inserts `x` before the first element it may precede. */
  function Insert<T>(x: T, s: seq<T>, le: (T, T) -> bool): (r: seq<T>)
    ensures multiset(r) == multiset(s) + multiset{x}
    ensures |r| == |s| + 1
  {
    if s == [] then [x]
    else if le(x, s[0]) then [x] + s
    else
      assert s == [s[0]] + s[1..];
      [s[0]] + Insert(x, s[1..], le)
  }

  /** Insertion sort; it stands for the engine's ORDER BY. */
  function SortBy<T>(s: seq<T>, le: (T, T) -> bool): (r: seq<T>)
    ensures multiset(r) == multiset(s)
    ensures |r| == |s|
  {
    if s == [] then []
    else
      assert s == [s[0]] + s[1..];
      Insert(s[0], SortBy(s[1..], le), le)
  }

  lemma {:induction false} InsertSorted<T(!new)>(x: T, s: seq<T>, le: (T, T) -> bool)
    requires TotalPreorder(le)
    requires Sorted(s, le)
    ensures Sorted(Insert(x, s, le), le)
  {
    if s != [] && !le(x, s[0]) {
      assert le(s[0], x);
      var rest := Insert(x, s[1..], le);
      InsertSorted(x, s[1..], le);
      forall j | 0 <= j < |rest| ensures le(s[0], rest[j]) {
        assert rest[j] in multiset(rest);
        assert rest[j] in multiset(s[1..]) || rest[j] == x;
        if rest[j] != x {
          var k :| 0 <= k < |s[1..]| && s[1..][k] == rest[j];
          assert s[k + 1] == rest[j];
        }
      }
      var r := [s[0]] + rest;
      forall i, j | 0 <= i < j < |r| ensures le(r[i], r[j]) {
        if i == 0 { assert r[j] == rest[j - 1]; } else { assert r[i] == rest[i - 1] && r[j] == rest[j - 1]; }
      }
    }
  }

  /** Under a total preorder, SortBy really sorts. */
  lemma {:induction false} SortBySorted<T(!new)>(s: seq<T>, le: (T, T) -> bool)
    requires TotalPreorder(le)
    ensures Sorted(SortBy(s, le), le)
  {
    if s != [] {
      SortBySorted(s[1..], le);
      InsertSorted(s[0], SortBy(s[1..], le), le);
    }
  }

  /** The elements of `s` that `keep` accepts, in their original order. */
  function Filter<T>(s: seq<T>, keep: T -> bool): (r: seq<T>)
    ensures |r| <= |s|
    ensures forall i :: 0 <= i < |r| ==> r[i] in s && keep(r[i])
    ensures forall i :: 0 <= i < |s| && keep(s[i]) ==> s[i] in r
    ensures multiset(r) <= multiset(s)
    ensures (forall i :: 0 <= i < |s| ==> keep(s[i])) ==> r == s
  {
    if s == [] then []
    else
      assert s == [s[0]] + s[1..];
      (if keep(s[0]) then [s[0]] else []) + Filter(s[1..], keep)
  }

  /** Each accepted value occurs in the result as often as in `s`; a rejected one not at all. */
  lemma {:induction false} FilterCount<T>(s: seq<T>, keep: T -> bool)
    ensures forall x :: multiset(Filter(s, keep))[x] == if keep(x) then multiset(s)[x] else 0
  {
    if s != [] {
      FilterCount(s[1..], keep);
      assert s == [s[0]] + s[1..];
      assert multiset(s) == multiset([s[0]]) + multiset(s[1..]);
    }
  }

  /** Filtering keeps the order: it distributes over concatenation. */
  lemma {:induction false} FilterAppend<T>(a: seq<T>, b: seq<T>, keep: T -> bool)
    ensures Filter(a + b, keep) == Filter(a, keep) + Filter(b, keep)
  {
    if a == [] {
      assert a + b == b;
    } else {
      assert (a + b)[0] == a[0] && (a + b)[1..] == a[1..] + b;
      FilterAppend(a[1..], b, keep);
    }
  }

  /** Filtering twice by the same predicate is filtering once. */
  lemma {:induction false} FilterIdempotent<T>(s: seq<T>, keep: T -> bool)
    ensures Filter(Filter(s, keep), keep) == Filter(s, keep)
  {
    var r := Filter(s, keep);
    assert forall i :: 0 <= i < |r| ==> keep(r[i]) by {
      forall i | 0 <= i < |r| ensures keep(r[i]) { }
    }
  }

  /** Two predicates that agree on every element filter alike. */
  lemma {:induction false} FilterExtensional<T>(s: seq<T>, p: T -> bool, q: T -> bool)
    requires forall i :: 0 <= i < |s| ==> p(s[i]) == q(s[i])
    ensures Filter(s, p) == Filter(s, q)
  {
    if s != [] {
      FilterExtensional(s[1..], p, q);
    }
  }

  /** A prefix of a sorted sequence is sorted. */
  lemma SortedPrefix<T>(s: seq<T>, n: nat, le: (T, T) -> bool)
    requires Sorted(s, le) && n <= |s|
    ensures Sorted(s[..n], le)
  {
  }

  /** LIMIT: the first `limit` rows, or all of them when there is no limit. */
  function Limited<T>(s: seq<T>, limit: Option<nat>): (r: seq<T>)
    ensures |r| <= |s| && r == s[..|r|]
    ensures limit.None? ==> r == s
    ensures limit.Some? ==> |r| == if limit.value < |s| then limit.value else |s|
  {
    if limit.Some? && limit.value < |s| then s[..limit.value] else s
  }

  /** LIMIT with OFFSET: rows `offset` .. `offset + limit` (exclusive), clipped to `s`. */
  function Page<T>(s: seq<T>, offset: nat, limit: nat): (r: seq<T>)
    ensures |r| <= limit
    ensures offset >= |s| ==> r == []
    ensures offset < |s| ==> offset + |r| <= |s| && r == s[offset..offset + |r|]
    ensures offset + limit <= |s| ==> |r| == limit
    ensures offset < |s| < offset + limit ==> |r| == |s| - offset
  {
    Limited(if offset <= |s| then s[offset..] else [], Some(limit))
  }

  /** A page of a sorted sequence is its slice from `offset`, so it is sorted too. */
  lemma PageOfSorted<T>(s: seq<T>, offset: nat, limit: nat, le: (T, T) -> bool)
    requires Sorted(s, le)
    ensures forall k :: 0 <= k < |Page(s, offset, limit)| ==> Page(s, offset, limit)[k] == s[offset + k]
    ensures Sorted(Page(s, offset, limit), le)
  {
    var r := Page(s, offset, limit);
    forall i, j | 0 <= i < j < |r| ensures le(r[i], r[j]) {
      assert r[i] == s[offset + i] && r[j] == s[offset + j];
    }
  }

  function Clip(i: nat, n: nat): nat { if i < n then i else n }

  lemma SliceConcat<T>(s: seq<T>, x: nat, y: nat, z: nat)
    requires x <= y <= z <= |s|
    ensures s[x..y] + s[y..z] == s[x..z]
  {
    assert s[x..y] + s[y..z] == s[x..z];
  }

  /** A page is the slice between its two ends, each clipped to the sequence. */
  lemma PageClip<T>(s: seq<T>, offset: nat, limit: nat)
    ensures Page(s, offset, limit) == s[Clip(offset, |s|)..Clip(offset + limit, |s|)]
  {
  }

  /** A page followed by the page right after it is one page of both sizes. */
  lemma PageSplit<T>(s: seq<T>, offset: nat, a: nat, b: nat)
    ensures Page(s, offset, a) + Page(s, offset + a, b) == Page(s, offset, a + b)
  {
    PageClip(s, offset, a);
    PageClip(s, offset + a, b);
    PageClip(s, offset, a + b);
    SliceConcat(s, Clip(offset, |s|), Clip(offset + a, |s|), Clip(offset + a + b, |s|));
  }

  /** Lexicographic order on code points: the `C` collation of ORDER BY on text. */
  predicate StringLe(a: string, b: string)
    decreases |a|
  {
    if a == [] then true
    else if b == [] then false
    else if a[0] != b[0] then a[0] < b[0]
    else StringLe(a[1..], b[1..])
  }

  lemma {:induction false} StringLeTotal(a: string, b: string)
    ensures StringLe(a, b) || StringLe(b, a)
    decreases |a|
  {
    if a != [] && b != [] && a[0] == b[0] {
      StringLeTotal(a[1..], b[1..]);
    }
  }

  lemma {:induction false} StringLeTransitive(a: string, b: string, c: string)
    requires StringLe(a, b) && StringLe(b, c)
    ensures StringLe(a, c)
    decreases |a|
  {
    if a != [] && b != [] && c != [] && a[0] == b[0] && b[0] == c[0] {
      StringLeTransitive(a[1..], b[1..], c[1..]);
    }
  }
}
