/** `ORDER BY ... DESC`, `OFFSET` and `LIMIT` over a row set, as the SQLite store evaluates them.
    SQL leaves the order of rows with equal keys open; nothing here depends on it. */
module Ranking {

  /** Keys never increase along `s`. */
  predicate NonIncreasing<T>(s: seq<T>, key: T -> int)
  {
    forall i, j :: 0 <= i < j < |s| ==> key(s[i]) >= key(s[j])
  }

  /** A row whose key bounds every key of a descending sequence may go in front of it. */
  lemma PrependNonIncreasing<T>(h: T, s: seq<T>, key: T -> int)
    requires NonIncreasing(s, key)
    requires forall y :: y in s ==> key(h) >= key(y)
    ensures NonIncreasing([h] + s, key)
  {
    var r := [h] + s;
    forall i, j | 0 <= i < j < |r| ensures key(r[i]) >= key(r[j]) {
      assert r[j] == s[j - 1];
      if i > 0 {
        assert r[i] == s[i - 1];
      }
    }
  }

  /** Puts `x` into a sequence already in descending key order. */
  function Insert<T>(x: T, s: seq<T>, key: T -> int): (r: seq<T>)
    requires NonIncreasing(s, key)
    ensures multiset(r) == multiset(s) + multiset{x}
    ensures NonIncreasing(r, key)
  {
    if s == [] || key(x) >= key(s[0]) then
      PrependNonIncreasing(x, s, key);
      [x] + s
    else
      var rest := Insert(x, s[1..], key);
      assert s == [s[0]] + s[1..];
      forall y | y in rest ensures key(s[0]) >= key(y) {
        assert y in multiset(rest);
        if y != x {
          assert y in multiset(s[1..]);
          var i :| 0 <= i < |s[1..]| && s[1..][i] == y;
          assert s[i + 1] == y;
        }
      }
      PrependNonIncreasing(s[0], rest, key);
      [s[0]] + rest
  }

  /** The rows of `s` in descending key order (`ORDER BY key DESC`). */
  function SortDesc<T>(s: seq<T>, key: T -> int): (r: seq<T>)
    ensures multiset(r) == multiset(s)
    ensures NonIncreasing(r, key)
  {
    if s == [] then []
    else
      assert s == [s[0]] + s[1..];
      Insert(s[0], SortDesc(s[1..], key), key)
  }

  lemma SortKeepsLength<T>(s: seq<T>, key: T -> int)
    ensures |SortDesc(s, key)| == |s|
  {
    assert |multiset(SortDesc(s, key))| == |multiset(s)|;
  }

  /** `LIMIT n`: at most `n` rows; a negative limit means no limit in SQLite. */
  function Limit<T>(s: seq<T>, n: int): (r: seq<T>)
    ensures |r| == (if n < 0 || n >= |s| then |s| else n)
    ensures r <= s
  {
    if n < 0 || n >= |s| then s else s[..n]
  }

  /** `OFFSET k`: skip the first `k` rows; a negative offset skips nothing in SQLite. */
  function Offset<T>(s: seq<T>, k: int): (r: seq<T>)
    ensures |r| == (if k <= 0 then |s| else if k >= |s| then 0 else |s| - k)
    ensures r == s[|s| - |r|..]
  {
    if k <= 0 then s else if k >= |s| then [] else s[k..]
  }

  /** In a descending sequence, every row of a prefix has a key at least that of every row
      outside it. */
  lemma PrefixDominatesRest<T>(s: seq<T>, k: nat, key: T -> int)
    requires NonIncreasing(s, key) && k <= |s|
    ensures forall x, y :: x in multiset(s) - multiset(s[..k]) && y in s[..k] ==> key(y) >= key(x)
  {
    assert s == s[..k] + s[k..];
    assert multiset(s) - multiset(s[..k]) == multiset(s[k..]);
    forall x, y | x in multiset(s[k..]) && y in s[..k] ensures key(y) >= key(x) {
      assert x in s[k..];
      var j :| k <= j < |s| && s[j] == x;
      var i :| 0 <= i < k && s[i] == y;
    }
  }

  /** A contiguous window of a descending sequence is descending and draws only on it. */
  lemma WindowOfDescending<T>(s: seq<T>, a: nat, b: nat, key: T -> int)
    requires NonIncreasing(s, key) && a <= b <= |s|
    ensures NonIncreasing(s[a..b], key)
    ensures multiset(s[a..b]) <= multiset(s)
  {
    assert s == s[..a] + s[a..b] + s[b..];
    assert multiset(s) == multiset(s[..a]) + multiset(s[a..b]) + multiset(s[b..]);
  }

  /** Taking the first `n` rows of a sort keeps the `n` largest keys: the result has the
      expected length, stays in descending order, draws only on `s`, and every row left out
      has a key no larger than any row kept. */
  lemma {:induction false} LimitOfSortKeepsLargest<T>(s: seq<T>, key: T -> int, n: int)
    ensures |Limit(SortDesc(s, key), n)| == (if n < 0 || n >= |s| then |s| else n)
    ensures NonIncreasing(Limit(SortDesc(s, key), n), key)
    ensures multiset(Limit(SortDesc(s, key), n)) <= multiset(s)
    ensures forall x, y :: x in multiset(s) - multiset(Limit(SortDesc(s, key), n)) && y in Limit(SortDesc(s, key), n)
              ==> key(y) >= key(x)
  {
    var sorted := SortDesc(s, key);
    SortKeepsLength(s, key);
    var k := if n < 0 || n >= |s| then |s| else n;
    assert Limit(sorted, n) == sorted[..k];
    PrefixDominatesRest(sorted, k, key);
    WindowOfDescending(sorted, 0, k, key);
  }

  /** `OFFSET skip LIMIT limit` cuts the window `s[PageStart(..)..PageEnd(..)]`. */
  function PageStart(n: nat, skip: int): (a: nat)
    ensures a <= n
  {
    if skip <= 0 then 0 else if skip >= n then n else skip
  }

  function PageEnd(n: nat, skip: int, limit: int): (b: nat)
    ensures PageStart(n, skip) <= b <= n
  {
    var a := PageStart(n, skip);
    if limit < 0 || limit >= n - a then n else a + limit
  }

  lemma PageIsWindow<T>(s: seq<T>, skip: int, limit: int)
    ensures Limit(Offset(s, skip), limit) == s[PageStart(|s|, skip)..PageEnd(|s|, skip, limit)]
  {
    var a := PageStart(|s|, skip);
    var rest := Offset(s, skip);
    assert rest == s[a..];
    if !(limit < 0 || limit >= |rest|) {
      assert rest[..limit] == s[a..a + limit];
    }
  }

  /** A page (`OFFSET skip LIMIT limit`) of a descending sort is descending, draws only on the
      input, holds at most `limit` rows when a limit is set, and is the whole sort when nothing
      is skipped and nothing is cut. */
  lemma {:induction false} PageOfSort<T>(s: seq<T>, key: T -> int, skip: int, limit: int)
    ensures NonIncreasing(Limit(Offset(SortDesc(s, key), skip), limit), key)
    ensures multiset(Limit(Offset(SortDesc(s, key), skip), limit)) <= multiset(s)
    ensures limit >= 0 ==> |Limit(Offset(SortDesc(s, key), skip), limit)| <= limit
    ensures skip <= 0 && (limit < 0 || limit >= |s|) ==> Limit(Offset(SortDesc(s, key), skip), limit) == SortDesc(s, key)
  {
    var sorted := SortDesc(s, key);
    SortKeepsLength(s, key);
    PageIsWindow(sorted, skip, limit);
    WindowOfDescending(sorted, PageStart(|s|, skip), PageEnd(|s|, skip, limit), key);
  }

  /** A page of a descending sort holds exactly the rows between its two cuts: as many as the
      window is wide, none ranked above a row skipped before it, none ranked below a row cut
      after it. */
  lemma {:induction false} PageBetweenCuts<T>(s: seq<T>, key: T -> int, skip: int, limit: int)
    ensures var sorted := SortDesc(s, key);
      var r := Limit(Offset(sorted, skip), limit);
      && |sorted| == |s|
      && |r| == PageEnd(|s|, skip, limit) - PageStart(|s|, skip)
      && (forall i, y :: 0 <= i < PageStart(|s|, skip) && y in r ==> key(y) <= key(sorted[i]))
      && (forall i, y :: PageEnd(|s|, skip, limit) <= i < |sorted| && y in r ==> key(sorted[i]) <= key(y))
  {
    var sorted := SortDesc(s, key);
    SortKeepsLength(s, key);
    PageIsWindow(sorted, skip, limit);
    WindowBetweenCuts(sorted, PageStart(|s|, skip), PageEnd(|s|, skip, limit), key);
  }

  /** In a descending sequence, a window ranks below everything before it and above
      everything after it. */
  lemma WindowBetweenCuts<T>(s: seq<T>, a: nat, b: nat, key: T -> int)
    requires NonIncreasing(s, key) && a <= b <= |s|
    ensures forall i, y :: 0 <= i < a && y in s[a..b] ==> key(y) <= key(s[i])
    ensures forall i, y :: b <= i < |s| && y in s[a..b] ==> key(s[i]) <= key(y)
  {
    forall i, y | 0 <= i < a && y in s[a..b] ensures key(y) <= key(s[i]) {
      var j :| a <= j < b && s[j] == y;
    }
    forall i, y | b <= i < |s| && y in s[a..b] ensures key(s[i]) <= key(y) {
      var j :| a <= j < b && s[j] == y;
    }
  }
}
