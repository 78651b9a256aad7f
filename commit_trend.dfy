/**
 * The frontend's derived views of a successful analysis: the cumulative commit
 * series plotted as the commit trend, and the top-contributors slice.
 */
module CommitTrend {
  import opened Wrappers
  import opened JsonValue
  import opened JsValues
  import opened Decimal

  /** How many of the newest commits the trend shows. */
  const SeriesLimit: nat := 30
  /** How many contributors the "Top Contributors" cards show. */
  const TopLimit: nat := 10

  /** A TypeError thrown while the component renders. */
  datatype TypeError = TypeError

  /** `xs.slice(0, n)`. */
  function Slice<T>(xs: seq<T>, n: nat): (r: seq<T>)
    ensures r <= xs
    ensures |r| == Min(|xs|, n)
  {
    xs[..Min(|xs|, n)]
  }

  /** `xs.reverse()`. */
  function Reverse<T>(xs: seq<T>): seq<T>
    decreases |xs|
  {
    if xs == [] then [] else Reverse(xs[1..]) + [xs[0]]
  }

  lemma {:induction false} ReverseAt<T>(xs: seq<T>, k: nat)
    requires k < |xs|
    ensures |Reverse(xs)| == |xs| && Reverse(xs)[k] == xs[|xs| - 1 - k]
    decreases |xs|
  {
    if |xs| > 1 {
      ReverseAt(xs[1..], if k < |xs| - 1 then k else 0);
    }
    if k < |xs| - 1 {
      assert Reverse(xs)[k] == Reverse(xs[1..])[k];
    }
  }

  lemma {:induction false} ReverseLength<T>(xs: seq<T>)
    ensures |Reverse(xs)| == |xs|
    decreases |xs|
  {
    if xs != [] {
      ReverseLength(xs[1..]);
    }
  }

  /** The commits the trend is drawn from: the first 30 records, oldest first. */
  function Window(items: seq<Json>): seq<Json>
  {
    Reverse(Slice(items, SeriesLimit))
  }

  /** The `i`-th commit of the window is record `min(n, 30) - 1 - i` of the received list. */
  lemma WindowAt(items: seq<Json>, i: nat)
    requires i < Min(|items|, SeriesLimit)
    ensures |Window(items)| == Min(|items|, SeriesLimit)
    ensures Window(items)[i] == items[Min(|items|, SeriesLimit) - 1 - i]
  {
    ReverseAt(Slice(items, SeriesLimit), i);
  }

  /** One point of the commit trend chart. */
  datatype Point = Point(name: string, totalCommits: nat, author: Json, date: Option<Json>, message: Option<Json>)

  /** The object the `map` callback returns for `commit` at `idx` after `total += 1`. */
  function PointOf(commit: Json, idx: nat, total: nat): (r: Result<Point, TypeError>)
    ensures r.Failure? <==> commit.JNull?
    ensures r.Success? ==> r.value.name == "#" + NatToString(idx + 1) && r.value.totalCommits == total
    ensures r.Success? ==> JsTruthy(Some(r.value.author))
  {
    if commit.JNull? then Failure(TypeError)
    else
      Success(Point("#" + NatToString(idx + 1), total,
                    OrUnknown(Prop(commit, "author")), Prop(commit, "date"), Prop(commit, "message")))
  }

  /**
   * The `map` over `commits` whose callback sees positions from `idx` on and
   * increments the running `total` before building each point.
   */
  function Accumulate(commits: seq<Json>, idx: nat, total: nat): (r: Result<seq<Point>, TypeError>)
    ensures r.Success? ==> |r.value| == |commits|
    decreases |commits|
  {
    if commits == [] then Success([])
    else
      var point :- PointOf(commits[0], idx, total + 1);
      var rest :- Accumulate(commits[1..], idx + 1, total + 1);
      Success([point] + rest)
  }

  /** The `k`-th point has position `idx + k` and running total `total + k + 1`. */
  lemma {:induction false} AccumulateAt(commits: seq<Json>, idx: nat, total: nat)
    ensures Accumulate(commits, idx, total).Success?
            <==> forall k :: 0 <= k < |commits| ==> commits[k] != JNull
    ensures Accumulate(commits, idx, total).Success? ==>
      var points := Accumulate(commits, idx, total).value;
      |points| == |commits|
      && forall k :: 0 <= k < |commits| ==> points[k] == PointOf(commits[k], idx + k, total + k + 1).value
    decreases |commits|
  {
    if commits != [] {
      AccumulateAt(commits[1..], idx + 1, total + 1);
      assert forall k :: 1 <= k < |commits| ==> commits[1..][k - 1] == commits[k];
    }
  }

  /**
   * `cumulativeCommits` as the component computes it while rendering: empty without
   * analysis data or without a truthy `commit_activity`; a TypeError when that member
   * is not an array or a record in the window is null.
   */
  function CumulativeCommits(repoData: Option<Json>): (r: Result<seq<Point>, TypeError>)
    ensures r.Success? ==> |r.value| <= SeriesLimit
    ensures !JsTruthy(repoData) ==> r == Success([])
  {
    if !JsTruthy(repoData) then Success([])
    else
      var activity := Prop(repoData.value, "commit_activity");
      if !JsTruthy(activity) then Success([])
      else
        match activity.value
        case JArr(items) =>
          ReverseLength(Slice(items, SeriesLimit));
          Accumulate(Window(items), 0, 0)
        case _ => Failure(TypeError)
  }

  /** The analysis data carries `commit_activity` as the array `items`. */
  predicate HasActivity(repoData: Option<Json>, items: seq<Json>)
  {
    repoData.Some? && repoData.value.JObj?
    && "commit_activity" in repoData.value.fields
    && repoData.value.fields["commit_activity"] == JArr(items)
  }

  /**
   * For `n` received records the series has `min(n, 30)` points; point `i` is labelled
   * `#(i+1)`, has running total `i + 1`, and takes its author (or "Unknown"), date and
   * message from record `min(n, 30) - 1 - i`. It is built exactly when none of those
   * records is null.
   */
  lemma SeriesPoints(repoData: Option<Json>, items: seq<Json>)
    requires HasActivity(repoData, items)
    ensures var m := Min(|items|, SeriesLimit);
      CumulativeCommits(repoData).Success? <==> forall k :: 0 <= k < m ==> items[k] != JNull
    ensures var m := Min(|items|, SeriesLimit);
      var r := CumulativeCommits(repoData);
      r.Success? ==>
        |r.value| == m
        && forall i :: 0 <= i < m ==>
             var record := items[m - 1 - i];
             r.value[i].totalCommits == i + 1
             && r.value[i].name == "#" + NatToString(i + 1)
             && r.value[i].author == OrUnknown(Prop(record, "author"))
             && r.value[i].date == Prop(record, "date")
             && r.value[i].message == Prop(record, "message")
  {
    var m := Min(|items|, SeriesLimit);
    var w := Window(items);
    ReverseLength(Slice(items, SeriesLimit));
    forall i | 0 <= i < m ensures w[i] == items[m - 1 - i] {
      WindowAt(items, i);
    }
    forall k | 0 <= k < m ensures items[k] == w[m - 1 - k] {
      WindowAt(items, m - 1 - k);
    }
    AccumulateAt(w, 0, 0);
  }

  /** The series is empty without analysis data or without a truthy `commit_activity`. */
  lemma SeriesEmptyWithoutActivity(repoData: Option<Json>)
    requires !JsTruthy(repoData) || !JsTruthy(Prop(repoData.value, "commit_activity"))
    ensures CumulativeCommits(repoData) == Success([])
  {
  }

  /** A truthy `commit_activity` that is not an array makes rendering throw. */
  lemma SeriesNeedsArray(repoData: Option<Json>)
    requires JsTruthy(repoData)
    requires JsTruthy(Prop(repoData.value, "commit_activity"))
    requires !Prop(repoData.value, "commit_activity").value.JArr?
    ensures CumulativeCommits(repoData).Failure?
  {
  }

  /** Running totals strictly increase, by exactly one, and no two labels coincide. */
  lemma SeriesIncreasing(repoData: Option<Json>, items: seq<Json>, i: nat, j: nat)
    requires HasActivity(repoData, items)
    requires CumulativeCommits(repoData).Success?
    requires i < j < |CumulativeCommits(repoData).value|
    ensures var points := CumulativeCommits(repoData).value;
      points[j].totalCommits - points[i].totalCommits == j - i
      && points[i].name != points[j].name
  {
    SeriesPoints(repoData, items);
    NatToStringInjective(i + 1, j + 1);
    var points := CumulativeCommits(repoData).value;
    assert points[i].name == "#" + NatToString(i + 1);
    assert points[j].name == "#" + NatToString(j + 1);
    assert points[i].name[1..] == NatToString(i + 1);
    assert points[j].name[1..] == NatToString(j + 1);
  }

  /** The first point is the oldest of the first 30 records and the last point is record 0. */
  lemma SeriesEnds(repoData: Option<Json>, items: seq<Json>)
    requires HasActivity(repoData, items)
    requires CumulativeCommits(repoData).Success?
    requires items != []
    ensures var points := CumulativeCommits(repoData).value;
      var m := Min(|items|, SeriesLimit);
      |points| == m
      && points[0].date == Prop(items[m - 1], "date")
      && points[m - 1].date == Prop(items[0], "date")
      && points[m - 1].totalCommits == m
  {
    SeriesPoints(repoData, items);
  }

  /** `cumulativeCommits` computed as the component does: a `map` whose callback bumps `total`. */
  method DeriveCumulativeCommits(repoData: Option<Json>) returns (series: Result<seq<Point>, TypeError>)
    ensures series == CumulativeCommits(repoData)
  {
    if !JsTruthy(repoData) {
      return Success([]);
    }
    var activity := Prop(repoData.value, "commit_activity");
    if !JsTruthy(activity) {
      return Success([]);
    }
    if !activity.value.JArr? {
      return Failure(TypeError);
    }
    var commits := Reverse(Slice(activity.value.items, SeriesLimit));
    var total := 0;
    var points: seq<Point> := [];
    var idx := 0;
    assert commits[0..] == commits;
    PrependToEmpty(Accumulate(commits, 0, 0));
    while idx < |commits|
      invariant 0 <= idx <= |commits|
      invariant total == idx
      invariant Accumulate(commits, 0, 0) == PrependTo(points, Accumulate(commits[idx..], idx, total))
    {
      assert commits[idx..][1..] == commits[idx + 1..];
      total := total + 1;
      var point := PointOf(commits[idx], idx, total);
      if point.Failure? {
        return Failure(TypeError);
      }
      PrependToAssoc(points, point.value, Accumulate(commits[idx + 1..], idx + 1, total));
      points := points + [point.value];
      idx := idx + 1;
    }
    assert points + [] == points;
    return Success(points);
  }

  /** `repoData.contributors.slice(0, 10)`: the first ten contributors, in the order received. */
  function TopContributors<T>(contributors: seq<T>): (top: seq<T>)
    ensures top <= contributors
    ensures |top| == Min(|contributors|, TopLimit)
  {
    Slice(contributors, TopLimit)
  }

  /** Ten or fewer contributors are all shown; otherwise exactly the first ten. */
  lemma TopContributorsCases<T>(contributors: seq<T>)
    ensures |contributors| <= TopLimit ==> TopContributors(contributors) == contributors
    ensures |contributors| > TopLimit ==> TopContributors(contributors) == contributors[..TopLimit]
  {
  }
}
