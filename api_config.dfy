/** The API configuration of the dashboard: the base URL, the five endpoint
    URL builders and the rating ladder that gives a rating its colour and rank
    label (src/config/api.js). */
module ApiConfig {
  import opened Wrappers
  import JsNumber

  /** Used when the environment does not set a base URL, or sets it empty. */
  const DefaultBaseUrl := "https://codeforces.com/api"

  /** `import.meta.env.VITE_CODEFORCES_API_BASE_URL || DefaultBaseUrl` */
  function BaseUrl(env: Option<string>): (url: string)
    ensures url != []
    ensures env.Some? && env.value != [] ==> url == env.value
    ensures env.None? || env.value == [] ==> url == DefaultBaseUrl
  {
    if env.Some? && env.value != [] then env.value else DefaultBaseUrl
  }

  const UserInfoPath := "/user.info?handles="
  const UserRatingPath := "/user.rating?handle="
  const UserStatusPath := "/user.status?handle="
  const ContestListPath := "/contest.list"
  const ProblemsetPath := "/problemset.problems"

  /** `USER_INFO(handle)`: the handle is appended as it is, without encoding. */
  function UserInfoUrl(base: string, handle: string): (url: string)
    ensures |base| <= |url| && url[..|base|] == base
    ensures url[|base|..] == UserInfoPath + handle
  {
    base + UserInfoPath + handle
  }

  /** `USER_RATING(handle)` */
  function UserRatingUrl(base: string, handle: string): (url: string)
    ensures |base| <= |url| && url[..|base|] == base
    ensures url[|base|..] == UserRatingPath + handle
  {
    base + UserRatingPath + handle
  }

  /** The query parameters after the handle in a `user.status` URL; an absent
      argument takes its default, `from = 1` and `count = 100`. */
  function PagingQuery(from: Option<int>, count: Option<int>): (q: string)
    ensures q != [] && q[0] == '&'
    ensures |q| > 6 && q[..6] == "&from="
  {
    "&from=" + JsNumber.IntToString(FromOrDefault(from))
      + "&count=" + JsNumber.IntToString(CountOrDefault(count))
  }

  /** The value given for `from`, or its default 1. */
  function FromOrDefault(from: Option<int>): int {
    if from.Some? then from.value else 1
  }

  /** The value given for `count`, or its default 100. */
  function CountOrDefault(count: Option<int>): int {
    if count.Some? then count.value else 100
  }

  /** `parseInt` reads the `from` value back from after `&from=`, and the
      `count` value from after the `&count=` that follows it. */
  lemma PagingQueryReadsBack(from: Option<int>, count: Option<int>)
    ensures var q := PagingQuery(from, count);
            var k := 6 + |JsNumber.IntToString(FromOrDefault(from))|;
            JsNumber.ParseInt(q[6..]) == Some(FromOrDefault(from))
            && k + 7 <= |q| && q[k..k + 7] == "&count="
            && JsNumber.ParseInt(q[k + 7..]) == Some(CountOrDefault(count))
  {
    var q := PagingQuery(from, count);
    var fs := JsNumber.IntToString(FromOrDefault(from));
    var cs := JsNumber.IntToString(CountOrDefault(count));
    var k := 6 + |fs|;
    assert q == "&from=" + fs + "&count=" + cs;
    assert q[6..] == fs + ("&count=" + cs);
    JsNumber.ParseIntToString(FromOrDefault(from), "&count=" + cs);
    assert q[k..k + 7] == "&count=";
    assert q[k + 7..] == cs + [];
    JsNumber.ParseIntToString(CountOrDefault(count), []);
  }

  /** `USER_STATUS(handle, from = 1, count = 100)` */
  function UserStatusUrl(base: string, handle: string, from: Option<int>, count: Option<int>): (url: string)
    ensures |base| <= |url| && url[..|base|] == base
    ensures url[|base|..] == UserStatusPath + handle + PagingQuery(from, count)
  {
    base + UserStatusPath + handle + PagingQuery(from, count)
  }

  /** `CONTEST_LIST()` */
  function ContestListUrl(base: string): (url: string)
    ensures |base| <= |url| && url[..|base|] == base && url[|base|..] == ContestListPath
  {
    base + ContestListPath
  }

  /** `PROBLEMSET_PROBLEMS()` */
  function ProblemsetProblemsUrl(base: string): (url: string)
    ensures |base| <= |url| && url[..|base|] == base && url[|base|..] == ProblemsetPath
  {
    base + ProblemsetPath
  }

  /** The text before the first `&`, or all of it. */
  function UpToAmpersand(s: string): (r: string)
    ensures |r| <= |s| && r == s[..|r|] && '&' !in r
    ensures |r| < |s| ==> s[|r|] == '&'
  {
    if s == [] || s[0] == '&' then [] else [s[0]] + UpToAmpersand(s[1..])
  }

  /** The handle a `user.status` URL asks for: what follows `handle=` up to the next `&`. */
  function StatusHandle(base: string, url: string): Option<string> {
    var prefix := base + UserStatusPath;
    if |prefix| <= |url| && url[..|prefix|] == prefix then Some(UpToAmpersand(url[|prefix|..]))
    else None
  }

  /** A handle without `&` is read back from the `user.status` URL built for it,
      whatever `from` and `count` are. */
  lemma StatusHandleRoundTrip(base: string, handle: string, from: Option<int>, count: Option<int>)
    requires '&' !in handle
    ensures StatusHandle(base, UserStatusUrl(base, handle, from, count)) == Some(handle)
  {
    var url := UserStatusUrl(base, handle, from, count);
    var prefix := base + UserStatusPath;
    var tail := handle + PagingQuery(from, count);
    assert url == prefix + tail;
    assert url[..|prefix|] == prefix && url[|prefix|..] == tail;
    UpToAmpersandStops(handle, tail[|handle|..]);
    assert tail == handle + tail[|handle|..];
  }

  lemma {:induction false} UpToAmpersandStops(h: string, rest: string)
    requires '&' !in h && rest != [] && rest[0] == '&'
    ensures UpToAmpersand(h + rest) == h
  {
    if h != [] {
      assert (h + rest)[1..] == h[1..] + rest;
      UpToAmpersandStops(h[1..], rest);
      assert h == [h[0]] + h[1..];
    }
  }

  /** Omitted `from` and `count` mean 1 and 100. */
  lemma StatusDefaults(base: string, handle: string)
    ensures UserStatusUrl(base, handle, None, None) == UserStatusUrl(base, handle, Some(1), Some(100))
  {
  }

  /** The five endpoints never build the same URL. */
  lemma EndpointsDistinct(base: string, h1: string, h2: string, h3: string, f: Option<int>, c: Option<int>)
    ensures UserInfoUrl(base, h1) != UserRatingUrl(base, h2)
    ensures UserInfoUrl(base, h1) != UserStatusUrl(base, h3, f, c)
    ensures UserRatingUrl(base, h2) != UserStatusUrl(base, h3, f, c)
    ensures ContestListUrl(base) != ProblemsetProblemsUrl(base)
    ensures ContestListUrl(base) !in {UserInfoUrl(base, h1), UserRatingUrl(base, h2), UserStatusUrl(base, h3, f, c)}
    ensures ProblemsetProblemsUrl(base) !in {UserInfoUrl(base, h1), UserRatingUrl(base, h2), UserStatusUrl(base, h3, f, c)}
  {
    var k := |base| + 6;
    assert UserInfoUrl(base, h1)[k] == 'i';
    assert UserRatingUrl(base, h2)[k] == 'r';
    assert UserStatusUrl(base, h3, f, c)[k] == 's';
    assert ContestListUrl(base)[|base| + 1] == 'c';
    assert ProblemsetProblemsUrl(base)[|base| + 1] == 'p';
    assert UserInfoUrl(base, h1)[|base| + 1] == 'u';
    assert UserRatingUrl(base, h2)[|base| + 1] == 'u';
    assert UserStatusUrl(base, h3, f, c)[|base| + 1] == 'u';
  }

  // ---------------------------------------------------------------------------
  // Rating ladder

  /** `RATING_COLORS.getColor(rating)` */
  function GetColor(rating: int): (color: string)
    ensures color in {"#FF0000", "#FF8C00", "#AA00AA", "#0000FF", "#03A89E", "#008000", "#808080"}
  {
    if rating >= 3000 then "#FF0000"
    else if rating >= 2600 then "#FF0000"
    else if rating >= 2400 then "#FF8C00"
    else if rating >= 2300 then "#FF8C00"
    else if rating >= 2100 then "#AA00AA"
    else if rating >= 1900 then "#AA00AA"
    else if rating >= 1600 then "#0000FF"
    else if rating >= 1400 then "#03A89E"
    else if rating >= 1200 then "#008000"
    else "#808080"
  }

  /** `RATING_COLORS.getRank(rating)` */
  function GetRank(rating: int): (rank: string)
    ensures rank in Ranks
  {
    if rating >= 3000 then "Legendary Grandmaster"
    else if rating >= 2600 then "International Grandmaster"
    else if rating >= 2400 then "Grandmaster"
    else if rating >= 2300 then "International Master"
    else if rating >= 2100 then "Master"
    else if rating >= 1900 then "Candidate Master"
    else if rating >= 1600 then "Expert"
    else if rating >= 1400 then "Specialist"
    else if rating >= 1200 then "Pupil"
    else "Newbie"
  }

  /** One rung of the ladder: the least rating it takes, its label and its colour. */
  datatype Band = Band(floor: int, rank: string, color: string)

  /** The ladder as a table, lowest rung first; "Newbie" has no floor. */
  const Ladder: seq<Band> := [
    Band(1200, "Pupil", "#008000"),
    Band(1400, "Specialist", "#03A89E"),
    Band(1600, "Expert", "#0000FF"),
    Band(1900, "Candidate Master", "#AA00AA"),
    Band(2100, "Master", "#AA00AA"),
    Band(2300, "International Master", "#FF8C00"),
    Band(2400, "Grandmaster", "#FF8C00"),
    Band(2600, "International Grandmaster", "#FF0000"),
    Band(3000, "Legendary Grandmaster", "#FF0000")
  ]

  /** All labels, lowest tier first. */
  const Ranks: seq<string> := ["Newbie", "Pupil", "Specialist", "Expert", "Candidate Master", "Master",
    "International Master", "Grandmaster", "International Grandmaster", "Legendary Grandmaster"]

  /** The number of rungs whose floor the rating reaches: 0 is Newbie, 9 Legendary Grandmaster. */
  function Tier(rating: int): (t: nat)
    ensures t <= |Ladder|
    ensures forall i :: 0 <= i < |Ladder| ==> (i < t <==> Ladder[i].floor <= rating)
  {
    CountReached(rating, |Ladder|)
  }

  function CountReached(rating: int, n: nat): (t: nat)
    requires n <= |Ladder|
    ensures t <= n
    ensures forall i :: 0 <= i < n ==> (i < t <==> Ladder[i].floor <= rating)
  {
    if n == 0 then 0
    else if Ladder[n - 1].floor <= rating then
      assert forall i :: 0 <= i < n - 1 ==> Ladder[i].floor <= Ladder[n - 1].floor;
      n
    else CountReached(rating, n - 1)
  }

  /** The label of a tier. */
  function TierRank(t: nat): string
    requires t <= |Ladder|
  {
    if t == 0 then "Newbie" else Ladder[t - 1].rank
  }

  /** The colour of a tier. */
  function TierColor(t: nat): string
    requires t <= |Ladder|
  {
    if t == 0 then "#808080" else Ladder[t - 1].color
  }

  /** The position of a label in `Ranks`; the inverse of `TierRank`. */
  function RankTier(rank: string): (t: nat)
    requires rank in Ranks
    ensures t <= |Ladder| && TierRank(t) == rank
  {
    if rank == "Newbie" then 0
    else if rank == "Pupil" then 1
    else if rank == "Specialist" then 2
    else if rank == "Expert" then 3
    else if rank == "Candidate Master" then 4
    else if rank == "Master" then 5
    else if rank == "International Master" then 6
    else if rank == "Grandmaster" then 7
    else if rank == "International Grandmaster" then 8
    else 9
  }

  /** The tier of a rating that lies between the floors of rung `k - 1` and rung `k`. */
  lemma TierIs(rating: int, k: nat)
    requires k <= |Ladder|
    requires k == 0 || Ladder[k - 1].floor <= rating
    requires k == |Ladder| || rating < Ladder[k].floor
    ensures Tier(rating) == k
  {
  }

  /** Both ladders of the source agree with the table: the rank and the colour
      are those of the highest rung whose floor the rating reaches. */
  lemma LadderAgrees(rating: int)
    ensures GetRank(rating) == TierRank(Tier(rating))
    ensures GetColor(rating) == TierColor(Tier(rating))
  {
    if rating >= 3000 { TierIs(rating, 9); }
    else if rating >= 2600 { TierIs(rating, 8); }
    else if rating >= 2400 { TierIs(rating, 7); }
    else if rating >= 2300 { TierIs(rating, 6); }
    else if rating >= 2100 { TierIs(rating, 5); }
    else if rating >= 1900 { TierIs(rating, 4); }
    else if rating >= 1600 { TierIs(rating, 3); }
    else if rating >= 1400 { TierIs(rating, 2); }
    else if rating >= 1200 { TierIs(rating, 1); }
    else { TierIs(rating, 0); }
  }

  /** The colour is a function of the rank: equal ranks, equal colours. */
  lemma ColorFollowsRank(rating: int)
    ensures GetColor(rating) == TierColor(RankTier(GetRank(rating)))
  {
  }

  /** Everything below 1200, zero and negative ratings included, is a grey Newbie. */
  lemma BelowPupil(rating: int)
    requires rating < 1200
    ensures GetColor(rating) == "#808080" && GetRank(rating) == "Newbie"
  {
  }

  /** Each rung includes its floor, and one point less falls to the rung below. */
  lemma BandsIncludeFloor(i: nat)
    requires i < |Ladder|
    ensures GetRank(Ladder[i].floor) == Ladder[i].rank
    ensures GetColor(Ladder[i].floor) == Ladder[i].color
    ensures GetRank(Ladder[i].floor - 1) == TierRank(i)
    ensures GetColor(Ladder[i].floor - 1) == TierColor(i)
  {
  }

  /** A higher rating never gives a lower rank. */
  lemma RankMonotone(r1: int, r2: int)
    requires r1 <= r2
    ensures RankTier(GetRank(r1)) <= RankTier(GetRank(r2))
  {
  }
}
