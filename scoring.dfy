/**
 * The score of a repository (stars and forks damped by the days since its last
 * update) and the min-max rescaling of a list of scores into an interval.
 */
module Scoring {
  import opened Wrappers
  import opened JsBuiltins
  import opened Models

  const STAR_WEIGHT: real := 2.0
  const FORK_WEIGHT: real := 0.5
  /** Added to the age in days so that the divisor is never near zero for fresh repositories. */
  const EXTRA_DAYS: real := 5.0
  /** 24 * 1000 * 60 * 60 */
  const MS_PER_DAY: real := 86400000.0

  // ---------------------------------------------------------------------------
  // Score calculator
  // ---------------------------------------------------------------------------

  /** The age of an update in (fractional) days at time `now`; negative for a future date. */
  function DaysSinceLastUpdate(updatedAt: real, now: real): (days: real)
    ensures updatedAt + days * MS_PER_DAY == now
  {
    (now - updatedAt) / MS_PER_DAY
  }

  /** The divisor of the formula is not zero (else IEEE arithmetic yields Infinity or NaN). */
  predicate Scorable(repo: GithubRepository, now: real)
  {
    DaysSinceLastUpdate(repo.updatedAt, now) + EXTRA_DAYS != 0.0
  }

  /** The score before rounding. */
  function RawScore(stars: int, forks: int, days: real): real
    requires days + EXTRA_DAYS != 0.0
  {
    (stars as real * STAR_WEIGHT + forks as real * FORK_WEIGHT) / (days + EXTRA_DAYS)
  }

  /**
   * `calculateScore(repo)` (which is `calculateScoreWithFocusOnStars`), with the
   * clock reading passed in as `now`: missing counts are 0, the result has two decimals.
   */
  function CalculateScore(repo: GithubRepository, now: real): (score: real)
    requires Scorable(repo, now)
    ensures var raw := RawScore(repo.stargazersCount.GetOr(0), repo.forksCount.GetOr(0),
                                DaysSinceLastUpdate(repo.updatedAt, now));
      -0.005 <= score - raw <= 0.005
  {
    var stars := repo.stargazersCount.GetOr(0);
    var forks := repo.forksCount.GetOr(0);
    var raw := RawScore(stars, forks, DaysSinceLastUpdate(repo.updatedAt, now));
    ToFixedError(raw, TWO_DECIMALS);
    ToFixed(raw, TWO_DECIMALS)
  }

  /** A missing star or fork count scores exactly as a count of zero. */
  lemma MissingCountsAreZero(repo: GithubRepository, now: real)
    requires Scorable(repo, now)
    ensures CalculateScore(repo, now)
         == CalculateScore(repo.(stargazersCount := Some(repo.stargazersCount.GetOr(0)),
                                 forksCount := Some(repo.forksCount.GetOr(0))), now)
  {
  }

  /** No stars and no forks give a score of zero, whatever the age. */
  lemma ZeroCountsScoreZero(repo: GithubRepository, now: real)
    requires Scorable(repo, now)
    requires repo.stargazersCount.GetOr(0) == 0 && repo.forksCount.GetOr(0) == 0
    ensures CalculateScore(repo, now) == 0.0
  {
    var days := DaysSinceLastUpdate(repo.updatedAt, now);
    assert RawScore(0, 0, days) == 0.0 / (days + EXTRA_DAYS) == 0.0;
    ToFixedInteger(0, 100);
    assert ToFixed(0.0, TWO_DECIMALS) == 0.0;
  }

  /** 100 stars and 50 forks score 15 ten days after the update and 37.5 one day after. */
  lemma WorkedExamples(updatedAt: real)
    ensures CalculateScore(GithubRepository("r", Some(100), Some(50), updatedAt),
                           updatedAt + 10.0 * MS_PER_DAY) == 15.0
    ensures CalculateScore(GithubRepository("r", Some(100), Some(50), updatedAt),
                           updatedAt + 1.0 * MS_PER_DAY) == 37.5
  {
    assert DaysSinceLastUpdate(updatedAt, updatedAt + 10.0 * MS_PER_DAY) == 10.0;
    assert DaysSinceLastUpdate(updatedAt, updatedAt + 1.0 * MS_PER_DAY) == 1.0;
    assert RawScore(100, 50, 10.0) == 15.0;
    assert RawScore(100, 50, 1.0) == 37.5;
    RoundedValue(15.0, TWO_DECIMALS, 1500);
    RoundedValue(37.5, TWO_DECIMALS, 3750);
  }

  lemma DivideByLarger(n: real, a: real, b: real)
    requires n > 0.0 && 0.0 < a < b
    ensures n / a > n / b
  {
    assert n / a - n / b == n * (b - a) / (a * b);
  }

  /** With a positive numerator, a more recent update gives a strictly higher unrounded score. */
  lemma RawScoreFavoursRecent(stars: int, forks: int, d1: real, d2: real)
    requires stars as real * STAR_WEIGHT + forks as real * FORK_WEIGHT > 0.0
    requires -EXTRA_DAYS < d1 < d2
    ensures RawScore(stars, forks, d1) > RawScore(stars, forks, d2)
  {
    DivideByLarger(stars as real * STAR_WEIGHT + forks as real * FORK_WEIGHT, d1 + EXTRA_DAYS, d2 + EXTRA_DAYS);
  }

  /** After rounding to two decimals a more recent update still never scores lower. */
  lemma ScoreFavoursRecent(repo: GithubRepository, now: real, earlier: real)
    requires repo.stargazersCount.GetOr(0) >= 0 && repo.forksCount.GetOr(0) >= 0
    requires earlier < repo.updatedAt < now + EXTRA_DAYS * MS_PER_DAY
    requires Scorable(repo, now) && Scorable(repo.(updatedAt := earlier), now)
    ensures CalculateScore(repo, now) >= CalculateScore(repo.(updatedAt := earlier), now)
  {
    var stars, forks := repo.stargazersCount.GetOr(0), repo.forksCount.GetOr(0);
    var d1 := DaysSinceLastUpdate(repo.updatedAt, now);
    var d2 := DaysSinceLastUpdate(earlier, now);
    assert -EXTRA_DAYS < d1 < d2;
    var n := stars as real * STAR_WEIGHT + forks as real * FORK_WEIGHT;
    if n > 0.0 {
      RawScoreFavoursRecent(stars, forks, d1, d2);
    } else {
      assert n == 0.0;
    }
    ToFixedMonotone(RawScore(stars, forks, d2), RawScore(stars, forks, d1), TWO_DECIMALS);
  }

  /** Non-negative counts and an update less than five days in the future give a non-negative score. */
  lemma ScoreNonNegative(repo: GithubRepository, now: real)
    requires repo.stargazersCount.GetOr(0) >= 0 && repo.forksCount.GetOr(0) >= 0
    requires DaysSinceLastUpdate(repo.updatedAt, now) + EXTRA_DAYS > 0.0
    ensures CalculateScore(repo, now) >= 0.0
  {
    var raw := RawScore(repo.stargazersCount.GetOr(0), repo.forksCount.GetOr(0),
                        DaysSinceLastUpdate(repo.updatedAt, now));
    assert raw >= 0.0;
    ToFixedInteger(0, 100);
    ToFixedMonotone(0.0, raw, TWO_DECIMALS);
  }

  // ---------------------------------------------------------------------------
  // Interval scaler
  // ---------------------------------------------------------------------------

  function Scores(repos: seq<Repository>): (r: seq<real>)
    ensures |r| == |repos| && forall i :: 0 <= i < |r| ==> r[i] == repos[i].score
  {
    seq(|repos|, i requires 0 <= i < |repos| => repos[i].score)
  }

  function Names(repos: seq<Repository>): (r: seq<string>)
    ensures |r| == |repos| && forall i :: 0 <= i < |r| ==> r[i] == repos[i].name
  {
    seq(|repos|, i requires 0 <= i < |repos| => repos[i].name)
  }

  /** `Math.min(...s)` of a non-empty list. */
  function MinOf(s: seq<real>): (m: real)
    requires |s| > 0
    ensures m in s && forall i :: 0 <= i < |s| ==> m <= s[i]
  {
    if |s| == 1 then s[0]
    else var rest := MinOf(s[1..]); if s[0] <= rest then s[0] else rest
  }

  /** `Math.max(...s)` of a non-empty list. */
  function MaxOf(s: seq<real>): (m: real)
    requires |s| > 0
    ensures m in s && forall i :: 0 <= i < |s| ==> s[i] <= m
  {
    if |s| == 1 then s[0]
    else var rest := MaxOf(s[1..]); if s[0] >= rest then s[0] else rest
  }

  /** The linear map taking `oldMin` to `newMin` and `oldMax` to `newMax`, before rounding. */
  function ScaleValue(x: real, oldMin: real, oldMax: real, newMin: real, newMax: real): real
    requires oldMax != oldMin
  {
    (x - oldMin) / (oldMax - oldMin) * (newMax - newMin) + newMin
  }

  /**
   * The new score of an entry scoring `x` in a list whose scores range over
   * [oldMin, oldMax]: `newMin` when that range is empty, else the rescaled
   * value with four decimals.
   */
  function RescaledScore(x: real, oldMin: real, oldMax: real, newMin: real, newMax: real): (r: real)
    ensures oldMax - oldMin == 0.0 ==> r == newMin
    ensures oldMax - oldMin != 0.0 ==> -0.00005 <= r - ScaleValue(x, oldMin, oldMax, newMin, newMax) <= 0.00005
  {
    if oldMax - oldMin == 0.0 then newMin
    else
      var v := ScaleValue(x, oldMin, oldMax, newMin, newMax);
      ToFixedError(v, FOUR_DECIMALS);
      ToFixed(v, FOUR_DECIMALS)
  }

  /**
   * What `scaleToInterval(repos, newMin, newMax)` leaves in the list: the same
   * entries in the same order, each with its score rescaled.
   */
  function ScaleRepositories(repos: seq<Repository>, newMin: real, newMax: real): (r: seq<Repository>)
    ensures |r| == |repos| && Names(r) == Names(repos)
  {
    if |repos| == 0 then []
    else
      var oldMin, oldMax := MinOf(Scores(repos)), MaxOf(Scores(repos));
      seq(|repos|, i requires 0 <= i < |repos| =>
        repos[i].(score := RescaledScore(repos[i].score, oldMin, oldMax, newMin, newMax)))
  }

  /**
   * The degenerate branch: every entry's score becomes `newMin`, and the list
   * `map` builds receives the updated entries.
   */
  method SetScores(repositories: array<Repository>, mapped: array<Repository>, newMin: real)
    requires mapped.Length == repositories.Length && mapped != repositories
    modifies repositories, mapped
    ensures forall k :: 0 <= k < repositories.Length ==>
      repositories[k] == old(repositories[k]).(score := newMin)
    ensures mapped[..] == repositories[..]
  {
    for i := 0 to repositories.Length
      invariant forall k :: 0 <= k < i ==> repositories[k] == old(repositories[k]).(score := newMin)
      invariant forall k :: i <= k < repositories.Length ==> repositories[k] == old(repositories[k])
      invariant forall k :: 0 <= k < i ==> mapped[k] == repositories[k]
    {
      repositories[i] := repositories[i].(score := newMin);
      mapped[i] := repositories[i];
    }
  }

  /**
   * The general branch: every entry's score is mapped linearly and kept to
   * four decimals, and the list `map` builds receives the updated entries.
   */
  method RescaleScores(repositories: array<Repository>, mapped: array<Repository>,
                       oldMin: real, oldMax: real, newMin: real, newMax: real)
    requires oldMax - oldMin != 0.0
    requires mapped.Length == repositories.Length && mapped != repositories
    modifies repositories, mapped
    ensures forall k :: 0 <= k < repositories.Length ==>
      repositories[k] == old(repositories[k]).(score := RescaledScore(old(repositories[k]).score, oldMin, oldMax, newMin, newMax))
    ensures mapped[..] == repositories[..]
  {
    var oldRange := oldMax - oldMin;
    var newRange := newMax - newMin;
    for i := 0 to repositories.Length
      invariant forall k :: 0 <= k < i ==>
        repositories[k] == old(repositories[k]).(score := RescaledScore(old(repositories[k]).score, oldMin, oldMax, newMin, newMax))
      invariant forall k :: i <= k < repositories.Length ==> repositories[k] == old(repositories[k])
      invariant forall k :: 0 <= k < i ==> mapped[k] == repositories[k]
    {
      var normalizedValue := (repositories[i].score - oldMin) / oldRange;
      var scaledValue := normalizedValue * newRange + newMin;
      assert scaledValue == ScaleValue(repositories[i].score, oldMin, oldMax, newMin, newMax);
      repositories[i] := repositories[i].(score := ToFixed(scaledValue, FOUR_DECIMALS));
      mapped[i] := repositories[i];
    }
  }

  /**
   * `scaleToInterval`: overwrites the score of every entry of the caller's
   * list in place and returns the new list that `map` builds from the updated
   * entries.
   */
  method ScaleToInterval(repositories: array<Repository>, newMin: real, newMax: real)
    returns (scaled: array<Repository>)
    modifies repositories
    ensures fresh(scaled)
    ensures repositories[..] == ScaleRepositories(old(repositories[..]), newMin, newMax)
    ensures scaled[..] == repositories[..]
  {
    ghost var before := repositories[..];
    scaled := new Repository[repositories.Length](i requires 0 <= i < repositories.Length reads repositories
                                                    => repositories[i]);
    var data := Scores(repositories[..]);
    if |data| == 0 {
      // Math.min() and Math.max() of nothing are +/-Infinity, whose difference is
      // not 0, so the source maps over the (empty) list
      return;
    }
    var oldMin := MinOf(data);
    var oldMax := MaxOf(data);
    var oldRange := oldMax - oldMin;
    if oldRange == 0.0 {
      SetScores(repositories, scaled, newMin);
    } else {
      RescaleScores(repositories, scaled, oldMin, oldMax, newMin, newMax);
    }
    assert forall k :: 0 <= k < repositories.Length ==>
      repositories[k] == before[k].(score := RescaledScore(before[k].score, oldMin, oldMax, newMin, newMax));
  }

  // ---------------------------------------------------------------------------
  // Properties of the scaler
  // ---------------------------------------------------------------------------

  /** The least score goes to `newMin` and the greatest to `newMax`, before rounding. */
  lemma ScaleValueEndpoints(oldMin: real, oldMax: real, newMin: real, newMax: real)
    requires oldMin != oldMax
    ensures ScaleValue(oldMin, oldMin, oldMax, newMin, newMax) == newMin
    ensures ScaleValue(oldMax, oldMin, oldMax, newMin, newMax) == newMax
  {
  }

  lemma MultiplyNonNegative(a: real, b: real, c: real)
    requires a <= b && c >= 0.0
    ensures a * c <= b * c
  {
  }

  /** Before rounding the map is order-preserving onto an upright interval. */
  lemma ScaleValueMonotone(x: real, y: real, oldMin: real, oldMax: real, newMin: real, newMax: real)
    requires x <= y && oldMin < oldMax && newMin <= newMax
    ensures ScaleValue(x, oldMin, oldMax, newMin, newMax) <= ScaleValue(y, oldMin, oldMax, newMin, newMax)
  {
    DivideMonotone(x - oldMin, y - oldMin, oldMax - oldMin);
    MultiplyNonNegative((x - oldMin) / (oldMax - oldMin), (y - oldMin) / (oldMax - oldMin), newMax - newMin);
  }

  /** ... and order-reversing onto an inverted one (`newMin > newMax`). */
  lemma ScaleValueAntitone(x: real, y: real, oldMin: real, oldMax: real, newMin: real, newMax: real)
    requires x <= y && oldMin < oldMax && newMin >= newMax
    ensures ScaleValue(x, oldMin, oldMax, newMin, newMax) >= ScaleValue(y, oldMin, oldMax, newMin, newMax)
  {
    DivideMonotone(x - oldMin, y - oldMin, oldMax - oldMin);
    MultiplyNonNegative((x - oldMin) / (oldMax - oldMin), (y - oldMin) / (oldMax - oldMin), newMin - newMax);
  }

  /** Within [oldMin, oldMax] the map stays within [newMin, newMax]. */
  lemma ScaleValueBounds(x: real, oldMin: real, oldMax: real, newMin: real, newMax: real)
    requires oldMin <= x <= oldMax && oldMin < oldMax && newMin <= newMax
    ensures newMin <= ScaleValue(x, oldMin, oldMax, newMin, newMax) <= newMax
  {
    ScaleValueEndpoints(oldMin, oldMax, newMin, newMax);
    ScaleValueMonotone(oldMin, x, oldMin, oldMax, newMin, newMax);
    ScaleValueMonotone(x, oldMax, oldMin, oldMax, newMin, newMax);
  }

  /** When all scores are equal (a single entry included) every new score is exactly `newMin`. */
  lemma {:induction false} ScaleEqualScores(repos: seq<Repository>, newMin: real, newMax: real)
    requires forall i, j :: 0 <= i < |repos| && 0 <= j < |repos| ==> repos[i].score == repos[j].score
    ensures forall i :: 0 <= i < |repos| ==> ScaleRepositories(repos, newMin, newMax)[i].score == newMin
  {
    if |repos| > 0 {
      var data := Scores(repos);
      var lo, hi := MinOf(data), MaxOf(data);
      var i :| 0 <= i < |data| && data[i] == lo;
      var j :| 0 <= j < |data| && data[j] == hi;
      assert repos[i].score == repos[j].score;
    }
  }

  /** On an upright interval an entry that scored no higher than another still does not. */
  lemma {:induction false} ScalePreservesOrder(repos: seq<Repository>, newMin: real, newMax: real, i: nat, j: nat)
    requires newMin <= newMax && i < |repos| && j < |repos|
    requires repos[i].score <= repos[j].score
    ensures ScaleRepositories(repos, newMin, newMax)[i].score <= ScaleRepositories(repos, newMin, newMax)[j].score
  {
    var lo, hi := MinOf(Scores(repos)), MaxOf(Scores(repos));
    if hi - lo != 0.0 {
      assert lo <= repos[i].score && repos[j].score <= hi;
      ScaleValueMonotone(repos[i].score, repos[j].score, lo, hi, newMin, newMax);
      ToFixedMonotone(ScaleValue(repos[i].score, lo, hi, newMin, newMax),
                      ScaleValue(repos[j].score, lo, hi, newMin, newMax), FOUR_DECIMALS);
    }
  }

  /** On an inverted interval the order of the scores is reversed (ties aside). */
  lemma {:induction false} ScaleReversesOrder(repos: seq<Repository>, newMin: real, newMax: real, i: nat, j: nat)
    requires newMin >= newMax && i < |repos| && j < |repos|
    requires repos[i].score <= repos[j].score
    ensures ScaleRepositories(repos, newMin, newMax)[i].score >= ScaleRepositories(repos, newMin, newMax)[j].score
  {
    var lo, hi := MinOf(Scores(repos)), MaxOf(Scores(repos));
    if hi - lo != 0.0 {
      assert lo <= repos[i].score && repos[j].score <= hi;
      ScaleValueAntitone(repos[i].score, repos[j].score, lo, hi, newMin, newMax);
      ToFixedMonotone(ScaleValue(repos[j].score, lo, hi, newMin, newMax),
                      ScaleValue(repos[i].score, lo, hi, newMin, newMax), FOUR_DECIMALS);
    }
  }

  /** Onto an interval with whole-number ends every new score lies in the interval, rounding included. */
  lemma {:induction false} ScaleWithinInterval(repos: seq<Repository>, newMin: int, newMax: int, i: nat)
    requires newMin <= newMax && i < |repos|
    ensures newMin as real <= ScaleRepositories(repos, newMin as real, newMax as real)[i].score <= newMax as real
  {
    var lo, hi := MinOf(Scores(repos)), MaxOf(Scores(repos));
    if hi - lo != 0.0 {
      var v := ScaleValue(repos[i].score, lo, hi, newMin as real, newMax as real);
      assert lo <= repos[i].score <= hi;
      ScaleValueBounds(repos[i].score, lo, hi, newMin as real, newMax as real);
      ToFixedMonotone(newMin as real, v, FOUR_DECIMALS);
      ToFixedMonotone(v, newMax as real, FOUR_DECIMALS);
      ToFixedInteger(newMin, 10000);
      ToFixedInteger(newMax, 10000);
    }
  }

  /**
   * When the scores are not all equal, an entry with the least score gets
   * `newMin` and one with the greatest gets `newMax` (each to four decimals).
   */
  lemma {:induction false} ScaleMapsExtremes(repos: seq<Repository>, newMin: real, newMax: real, i: nat, j: nat)
    requires i < |repos| && j < |repos|
    requires repos[i].score < repos[j].score
    requires forall k :: 0 <= k < |repos| ==> repos[i].score <= repos[k].score <= repos[j].score
    ensures ScaleRepositories(repos, newMin, newMax)[i].score == ToFixed(newMin, FOUR_DECIMALS)
    ensures ScaleRepositories(repos, newMin, newMax)[j].score == ToFixed(newMax, FOUR_DECIMALS)
  {
    var data := Scores(repos);
    var lo, hi := MinOf(data), MaxOf(data);
    assert lo == repos[i].score by { assert lo <= data[i]; }
    assert hi == repos[j].score by { assert data[j] <= hi; }
    ScaleValueEndpoints(lo, hi, newMin, newMax);
  }

  lemma TenToFiftyRange(data: seq<real>)
    requires data == [10.0, 20.0, 30.0, 40.0, 50.0]
    ensures MinOf(data) == 10.0 && MaxOf(data) == 50.0
  {
    assert MinOf(data) <= data[0] && data[4] <= MaxOf(data);
  }

  /** The new score of each entry of a list scoring 10, 20, 30, 40, 50. */
  lemma ScaleTenToFiftyAt(repos: seq<Repository>, newMin: real, newMax: real, k: nat)
    requires Scores(repos) == [10.0, 20.0, 30.0, 40.0, 50.0] && k < 5
    ensures ScaleRepositories(repos, newMin, newMax)[k].score
         == RescaledScore(Scores(repos)[k], 10.0, 50.0, newMin, newMax)
  {
    TenToFiftyRange(Scores(repos));
  }

  /** A rescaled value that already has at most four decimals is kept exactly. */
  lemma RescaledExactly(x: real, oldMin: real, oldMax: real, newMin: real, newMax: real, want: real, units: int)
    requires oldMax - oldMin != 0.0 && want * FOUR_DECIMALS == units as real
    requires ScaleValue(x, oldMin, oldMax, newMin, newMax) == want
    ensures RescaledScore(x, oldMin, oldMax, newMin, newMax) == want
  {
    RoundedValue(want, FOUR_DECIMALS, units);
  }

  /** The new score of entry `k` of a list scoring 10, 20, 30, 40, 50, when the linear map gives it four decimals. */
  lemma ScaleTenToFiftyExactly(repos: seq<Repository>, newMin: real, newMax: real, k: nat, x: real,
                                want: real, units: int)
    requires Scores(repos) == [10.0, 20.0, 30.0, 40.0, 50.0] && k < 5 && Scores(repos)[k] == x
    requires want * FOUR_DECIMALS == units as real
    requires ScaleValue(x, 10.0, 50.0, newMin, newMax) == want
    ensures ScaleRepositories(repos, newMin, newMax)[k].score == want
  {
    ScaleTenToFiftyAt(repos, newMin, newMax, k);
    RescaledExactly(x, 10.0, 50.0, newMin, newMax, want, units);
  }

  lemma FiveScores(r: seq<Repository>, a: real, b: real, c: real, d: real, e: real)
    requires |r| == 5 && r[0].score == a && r[1].score == b && r[2].score == c
    requires r[3].score == d && r[4].score == e
    ensures Scores(r) == [a, b, c, d, e]
  {
  }

  /** Scores 10, 20, 30, 40, 50 go to 0, .25, .5, .75, 1 on [0, 1]. */
  lemma ScaleExampleUnit(repos: seq<Repository>)
    requires Scores(repos) == [10.0, 20.0, 30.0, 40.0, 50.0]
    ensures Scores(ScaleRepositories(repos, 0.0, 1.0)) == [0.0, 0.25, 0.5, 0.75, 1.0]
  {
    ScaleTenToFiftyExactly(repos, 0.0, 1.0, 0, 10.0, 0.0, 0);
    ScaleTenToFiftyExactly(repos, 0.0, 1.0, 1, 20.0, 0.25, 2500);
    ScaleTenToFiftyExactly(repos, 0.0, 1.0, 2, 30.0, 0.5, 5000);
    ScaleTenToFiftyExactly(repos, 0.0, 1.0, 3, 40.0, 0.75, 7500);
    ScaleTenToFiftyExactly(repos, 0.0, 1.0, 4, 50.0, 1.0, 10000);
    FiveScores(ScaleRepositories(repos, 0.0, 1.0), 0.0, 0.25, 0.5, 0.75, 1.0);
  }

  /** ... and to 1, 3.25, 5.5, 7.75, 10 on [1, 10]. */
  lemma ScaleExampleOneToTen(repos: seq<Repository>)
    requires Scores(repos) == [10.0, 20.0, 30.0, 40.0, 50.0]
    ensures Scores(ScaleRepositories(repos, 1.0, 10.0)) == [1.0, 3.25, 5.5, 7.75, 10.0]
  {
    ScaleTenToFiftyExactly(repos, 1.0, 10.0, 0, 10.0, 1.0, 10000);
    ScaleTenToFiftyExactly(repos, 1.0, 10.0, 1, 20.0, 3.25, 32500);
    ScaleTenToFiftyExactly(repos, 1.0, 10.0, 2, 30.0, 5.5, 55000);
    ScaleTenToFiftyExactly(repos, 1.0, 10.0, 3, 40.0, 7.75, 77500);
    ScaleTenToFiftyExactly(repos, 1.0, 10.0, 4, 50.0, 10.0, 100000);
    FiveScores(ScaleRepositories(repos, 1.0, 10.0), 1.0, 3.25, 5.5, 7.75, 10.0);
  }

  /** Equal scores, a single score and no score at all, scaled onto [0, 10]. */
  lemma ScaleDegenerateExamples(three: seq<Repository>, one: seq<Repository>)
    requires Scores(three) == [20.0, 20.0, 20.0] && Scores(one) == [20.0]
    ensures Scores(ScaleRepositories(three, 0.0, 10.0)) == [0.0, 0.0, 0.0]
    ensures Scores(ScaleRepositories(one, 0.0, 10.0)) == [0.0]
    ensures ScaleRepositories([], 0.0, 10.0) == []
  {
    ScaleEqualScores(three, 0.0, 10.0);
    ScaleEqualScores(one, 0.0, 10.0);
  }
}
