/**
 * `reposWithScore.sort((a, b) => b.score - a.score)`: the controllers sort
 * their scored repositories in place, highest score first. The engine's sort
 * is stable, so repositories with equal scores keep their upstream order.
 *
 * The order the sort produces is specified by a stable insertion sort on
 * sequences; `SortInPlace` writes that order into the array.
 */
module Sorting {
  import opened Models

  /** Non-increasing by score. */
  predicate SortedDesc(s: seq<Repository>)
  {
    forall i, j :: 0 <= i < j < |s| ==> s[i].score >= s[j].score
  }

  /**
   * Inserts `x` in front of the first element whose score does not exceed
   * its own, so that `x` stays ahead of the equal elements that followed it.
   */
  function InsertByScore(x: Repository, t: seq<Repository>): (r: seq<Repository>)
    ensures |r| == |t| + 1 && multiset(r) == multiset(t) + multiset{x}
  {
    if t == [] || t[0].score <= x.score then [x] + t
    else
      assert t == [t[0]] + t[1..];
      [t[0]] + InsertByScore(x, t[1..])
  }

  /** The order `Array.prototype.sort` gives for the comparator `b.score - a.score`. */
  function SortByScoreDesc(s: seq<Repository>): (r: seq<Repository>)
    ensures |r| == |s| && multiset(r) == multiset(s)
  {
    if s == [] then []
    else
      assert s == [s[0]] + s[1..];
      InsertByScore(s[0], SortByScoreDesc(s[1..]))
  }

  /** The elements with score `v`, in their order. */
  function WithScore(s: seq<Repository>, v: real): seq<Repository>
  {
    if s == [] then [] else (if s[0].score == v then [s[0]] else []) + WithScore(s[1..], v)
  }

  lemma WithScoreCons(x: Repository, t: seq<Repository>, v: real)
    ensures WithScore([x] + t, v) == (if x.score == v then [x] else []) + WithScore(t, v)
  {
    assert ([x] + t)[1..] == t;
  }

  lemma {:induction false} InsertSorted(x: Repository, t: seq<Repository>)
    requires SortedDesc(t)
    ensures SortedDesc(InsertByScore(x, t))
  {
    if t != [] && t[0].score > x.score {
      var rest := InsertByScore(x, t[1..]);
      InsertSorted(x, t[1..]);
      assert rest[0] == x || rest[0] == t[1];
      assert InsertByScore(x, t) == [t[0]] + rest;
    }
  }

  /** The result is ordered by non-increasing score. */
  lemma {:induction false} SortSorted(s: seq<Repository>)
    ensures SortedDesc(SortByScoreDesc(s))
  {
    if s != [] {
      SortSorted(s[1..]);
      InsertSorted(s[0], SortByScoreDesc(s[1..]));
    }
  }

  lemma {:induction false} InsertStable(x: Repository, t: seq<Repository>, v: real)
    ensures WithScore(InsertByScore(x, t), v) == WithScore([x] + t, v)
  {
    if t != [] && t[0].score > x.score {
      var rest := t[1..];
      var inserted := InsertByScore(x, rest);
      assert InsertByScore(x, t) == [t[0]] + inserted;
      assert t == [t[0]] + rest;
      var ax := if x.score == v then [x] else [];
      var a0 := if t[0].score == v then [t[0]] else [];
      assert ax == [] || a0 == [];
      InsertStable(x, rest, v);
      calc {
        WithScore([t[0]] + inserted, v);
        { WithScoreCons(t[0], inserted, v); }
        a0 + WithScore(inserted, v);
        a0 + WithScore([x] + rest, v);
        { WithScoreCons(x, rest, v); }
        a0 + (ax + WithScore(rest, v));
        ax + (a0 + WithScore(rest, v));
        { WithScoreCons(t[0], rest, v); }
        ax + WithScore(t, v);
        { WithScoreCons(x, t, v); }
        WithScore([x] + t, v);
      }
    }
  }

  /** Stability: for every score, the repositories with that score keep their relative order. */
  lemma {:induction false} SortStable(s: seq<Repository>, v: real)
    ensures WithScore(SortByScoreDesc(s), v) == WithScore(s, v)
  {
    if s != [] {
      SortStable(s[1..], v);
      InsertStable(s[0], SortByScoreDesc(s[1..]), v);
      WithScoreCons(s[0], SortByScoreDesc(s[1..]), v);
      WithScoreCons(s[0], s[1..], v);
      assert s == [s[0]] + s[1..];
    }
  }

  /** An input that is already ordered comes back unchanged. */
  lemma {:induction false} SortIdentityOnSorted(s: seq<Repository>)
    requires SortedDesc(s)
    ensures SortByScoreDesc(s) == s
  {
    if s != [] {
      SortIdentityOnSorted(s[1..]);
      assert SortByScoreDesc(s[1..]) == s[1..];
      assert s == [s[0]] + s[1..];
    }
  }

  /** `array.sort(comparator)`: the array ends up in the order `SortByScoreDesc` gives. */
  method SortInPlace(a: array<Repository>)
    modifies a
    ensures a[..] == SortByScoreDesc(old(a[..]))
  {
    var sorted := SortByScoreDesc(a[..]);
    forall i | 0 <= i < a.Length {
      a[i] := sorted[i];
    }
  }
}
