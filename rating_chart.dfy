/** The rating-history chart (src/components/RatingChart.jsx): the series
    drawn from a user's rating changes, its summary figures, the change shown
    in a point's tooltip, and what a fetch does to the chart's state. */
module RatingChart {
  import opened Wrappers
  import JsString
  import JsNumber
  import CodeforcesService

  type RatingChange = CodeforcesService.RatingChange

  /** One point of the series; its locale-formatted date is not modelled. */
  datatype ChartPoint = ChartPoint(
    contestName: string,
    rating: int,
    oldRating: int,
    rank: int,
    contestId: int,
    index: int)

  /** `data.map((contest, index) => ...)`: one point per rating change, in
      order, numbered from 1. */
  function ChartData(history: seq<RatingChange>): (points: seq<ChartPoint>)
    ensures |points| == |history|
    ensures forall i :: 0 <= i < |history| ==>
              points[i] == ChartPoint(history[i].contestName, history[i].newRating, history[i].oldRating,
                                      history[i].rank, history[i].contestId, i + 1)
  {
    seq(|history|, i requires 0 <= i < |history| =>
      ChartPoint(history[i].contestName, history[i].newRating, history[i].oldRating,
                 history[i].rank, history[i].contestId, i + 1))
  }

  // ---------------------------------------------------------------------------
  // getStats

  /** `Math.max(...points.map(d => d.rating))` */
  function MaxRating(points: seq<ChartPoint>): (m: int)
    requires points != []
    ensures exists i :: 0 <= i < |points| && points[i].rating == m
    ensures forall i :: 0 <= i < |points| ==> points[i].rating <= m
  {
    if |points| == 1 then points[0].rating
    else
      var rest := MaxRating(points[1..]);
      assert forall i :: 1 <= i < |points| ==> points[i] == points[1..][i - 1];
      if points[0].rating >= rest then points[0].rating else rest
  }

  /** `Math.min(...points.map(d => d.rating))` */
  function MinRating(points: seq<ChartPoint>): (m: int)
    requires points != []
    ensures exists i :: 0 <= i < |points| && points[i].rating == m
    ensures forall i :: 0 <= i < |points| ==> m <= points[i].rating
  {
    if |points| == 1 then points[0].rating
    else
      var rest := MinRating(points[1..]);
      assert forall i :: 1 <= i < |points| ==> points[i] == points[1..][i - 1];
      if points[0].rating <= rest then points[0].rating else rest
  }

  datatype Stats = Stats(currentRating: int, maxRating: int, minRating: int, totalChange: int, contests: nat)

  /** `getStats`: nothing for an empty series; otherwise the latest rating,
      the highest and lowest ratings reached, the change since before the
      first contest, and the number of contests. */
  function GetStats(points: seq<ChartPoint>): (stats: Option<Stats>)
    ensures stats.None? <==> points == []
    ensures stats.Some? ==>
              stats.value.currentRating == points[|points| - 1].rating &&
              stats.value.contests == |points| &&
              stats.value.totalChange == stats.value.currentRating - points[0].oldRating &&
              stats.value.minRating <= stats.value.currentRating <= stats.value.maxRating &&
              (exists i :: 0 <= i < |points| && points[i].rating == stats.value.maxRating) &&
              (exists i :: 0 <= i < |points| && points[i].rating == stats.value.minRating) &&
              (forall i :: 0 <= i < |points| ==> stats.value.minRating <= points[i].rating <= stats.value.maxRating)
  {
    if |points| == 0 then None
    else
      var current := points[|points| - 1].rating;
      Some(Stats(current, MaxRating(points), MinRating(points), current - points[0].oldRating, |points|))
  }

  /** The sum of the per-contest changes of a series. */
  function ChangeSum(points: seq<ChartPoint>): int {
    if points == [] then 0 else points[0].rating - points[0].oldRating + ChangeSum(points[1..])
  }

  /** Each contest starts from the rating the previous one ended with. */
  ghost predicate Chained(points: seq<ChartPoint>) {
    forall i :: 0 < i < |points| ==> points[i].oldRating == points[i - 1].rating
  }

  /** On a chained series the total change is the sum of the per-contest changes. */
  lemma {:induction false} TotalChangeIsSumOfChanges(points: seq<ChartPoint>)
    requires points != [] && Chained(points)
    ensures GetStats(points).value.totalChange == ChangeSum(points)
  {
    if |points| > 1 {
      var rest := points[1..];
      assert Chained(rest) by {
        forall i | 0 < i < |rest| ensures rest[i].oldRating == rest[i - 1].rating {
          assert rest[i] == points[i + 1] && rest[i - 1] == points[i];
        }
      }
      TotalChangeIsSumOfChanges(rest);
      assert rest[0].oldRating == points[0].rating;
    }
  }

  /** The figures of a history's series, in terms of the history itself. */
  lemma StatsOfHistory(history: seq<RatingChange>)
    requires history != []
    ensures GetStats(ChartData(history)).value.currentRating == history[|history| - 1].newRating
    ensures GetStats(ChartData(history)).value.totalChange == history[|history| - 1].newRating - history[0].oldRating
    ensures GetStats(ChartData(history)).value.contests == |history|
  {
  }

  // ---------------------------------------------------------------------------
  // The tooltip

  /** A change as the tooltip writes it: with "+" in front when not negative. */
  function SignedText(change: int): string {
    (if change >= 0 then "+" else "") + JsNumber.IntToString(change)
  }

  /** The change a point's tooltip shows: it reads back as the change with
      `parseInt`, and is signed for every change. */
  function ChangeText(p: ChartPoint): (text: string)
    ensures JsNumber.ParseInt(text) == Some(p.rating - p.oldRating)
    ensures text[0] == if p.rating >= p.oldRating then '+' else '-'
  {
    var change := p.rating - p.oldRating;
    SignedTextReadsBack(change);
    SignedText(change)
  }

  /** The colour of that change. */
  function ChangeClass(p: ChartPoint): (cls: string)
    ensures cls == "text-green-500" <==> p.rating >= p.oldRating
  {
    if p.rating - p.oldRating >= 0 then "text-green-500" else "text-red-500"
  }

  /** Every change is written with a sign and reads back. */
  lemma SignedTextReadsBack(change: int)
    ensures JsNumber.ParseInt(SignedText(change)) == Some(change)
    ensures SignedText(change)[0] == if change >= 0 then '+' else '-'
  {
    if change >= 0 { GainReadsBack(change); } else { LossReadsBack(change); }
  }

  lemma GainReadsBack(change: int)
    requires change >= 0
    ensures JsNumber.ParseInt(SignedText(change)) == Some(change)
    ensures SignedText(change)[0] == '+'
  {
    JsNumber.NonNegativeToString(change);
    JsNumber.ParseIntPlus(change, "");
    assert SignedText(change) == "+" + JsNumber.NatToString(change) + "";
  }

  lemma LossReadsBack(change: int)
    requires change < 0
    ensures JsNumber.ParseInt(SignedText(change)) == Some(change)
    ensures SignedText(change)[0] == '-'
  {
    JsNumber.ParseIntToString(change, "");
    assert SignedText(change) == JsNumber.IntToString(change) + "";
  }

  // ---------------------------------------------------------------------------
  // handleFetchRating

  const InvalidHandle := "Please enter a valid handle"
  const NoHistory := "No rating history found for this user"

  /** The chart's state: the series on display and the error line. */
  datatype ChartView = ChartView(ratingData: seq<ChartPoint>, error: string)

  /** The handle that is asked for: the trimmed input, or nothing when the
      input is blank. */
  function RequestedHandle(handle: string): (r: Option<string>)
    ensures r.None? <==> JsString.AllWhitespace(handle)
    ensures r.Some? ==> r.value == JsString.Trim(handle) && r.value != []
  {
    var trimmed := JsString.Trim(handle);
    if trimmed == [] then None else Some(trimmed)
  }

  /** `handleFetchRating`, with `env` the answer to the request for
      `RequestedHandle(handle)`. A blank handle only sets the error; a history
      that is empty, or a failed request, clears the chart and says no history
      was found; otherwise the chart shows the series and no error. The
      'Failed to fetch rating history' branch cannot be reached, since
      `getUserRating` never raises. */
  function HandleFetchRating(handle: string, view: ChartView, env: CodeforcesService.Envelope<seq<RatingChange>>): (next: ChartView)
    ensures RequestedHandle(handle).None? ==> next == view.(error := InvalidHandle)
    ensures RequestedHandle(handle).Some? && CodeforcesService.GetUserRating(env) == [] ==>
              next == ChartView([], NoHistory)
    ensures RequestedHandle(handle).Some? && CodeforcesService.GetUserRating(env) != [] ==>
              next == ChartView(ChartData(CodeforcesService.GetUserRating(env)), []) &&
              GetStats(next.ratingData).Some?
  {
    if RequestedHandle(handle).None? then view.(error := InvalidHandle)
    else
      var data := CodeforcesService.GetUserRating(env);
      if |data| == 0 then ChartView([], NoHistory)
      else ChartView(ChartData(data), [])
  }

  /** A fetch for a real handle whose request fails shows the no-history
      message, not a failure. */
  lemma FailedFetchLooksEmpty(handle: string, view: ChartView, env: CodeforcesService.Envelope<seq<RatingChange>>)
    requires !JsString.AllWhitespace(handle) && !env.Ok?
    ensures HandleFetchRating(handle, view, env) == ChartView([], NoHistory)
  {
  }
}
