/** The side-by-side comparison of two users (src/components/UserComparison.jsx):
    which card of each metric is highlighted, what a card shows, who is
    declared the winner, and what a comparison request does to the view. */
module UserComparison {
  import opened Wrappers
  import JsString
  import JsNumber
  import ApiConfig
  import CodeforcesService

  type UserProfile = CodeforcesService.UserProfile

  const Highlight := "ring-2 ring-green-500"
  const Tie := "It's a tie!"
  const MissingHandles := "Please enter both handles"
  const CompareFailure := "Failed to fetch user data. Please check the handles."

  // ---------------------------------------------------------------------------
  // Highlighting

  /** `getBetterStyle(v1, v2, higherIsBetter)`: the highlight when `v1` is the
      better value, nothing otherwise. */
  function BetterStyle(v1: int, v2: int, higherIsBetter: bool): (style: string)
    ensures style == Highlight || style == []
    ensures v1 == v2 ==> style == []
    ensures higherIsBetter ==> (style == Highlight <==> v1 > v2)
    ensures !higherIsBetter ==> (style == Highlight <==> v1 < v2)
  {
    if v1 == v2 then ""
    else
      var isBetter := if higherIsBetter then v1 > v2 else v1 < v2;
      if isBetter then Highlight else ""
  }

  /** Of the two cards of a metric at most one is highlighted, and swapping
      the users moves the highlight to the other card; equal values highlight
      neither. */
  lemma HighlightOneCard(v1: int, v2: int, higherIsBetter: bool)
    ensures !(BetterStyle(v1, v2, higherIsBetter) == Highlight && BetterStyle(v2, v1, higherIsBetter) == Highlight)
    ensures v1 != v2 ==> (BetterStyle(v1, v2, higherIsBetter) == Highlight <==> BetterStyle(v2, v1, higherIsBetter) == [])
  {
  }

  // ---------------------------------------------------------------------------
  // The compared users

  /** A user's profile with the solved count added (`{ ...info, problemsSolved }`). */
  datatype UserCard = UserCard(profile: UserProfile, problemsSolved: nat)

  /** `x || 0` on an optional number: absent and 0 both give 0. */
  function OrZero(x: Option<int>): (v: int)
    ensures x.Some? ==> v == x.value
    ensures x.None? ==> v == 0
  {
    if x.Some? then x.value else 0
  }

  /** Three of the four metrics of a card default to 0; the fourth, the
      solved count, is shown as it is. */
  function CurrentRating(u: UserCard): int { OrZero(u.profile.rating) }
  function MaxRatingOf(u: UserCard): int { OrZero(u.profile.maxRating) }
  function ContributionOf(u: UserCard): int { OrZero(u.profile.contribution) }

  /** The colour of the max-rating card: the ladder colour of the defaulted
      max rating. */
  function MaxRatingColor(u: UserCard): (color: string)
    ensures u.profile.maxRating.None? ==> color == "#808080"
    ensures u.profile.maxRating.Some? ==> color == ApiConfig.GetColor(u.profile.maxRating.value)
    ensures color == ApiConfig.TierColor(ApiConfig.Tier(MaxRatingOf(u)))
  {
    ApiConfig.BelowPupil(0);
    ApiConfig.LadderAgrees(MaxRatingOf(u));
    ApiConfig.GetColor(MaxRatingOf(u))
  }

  /** A metric the profile lacks counts as 0: against a user whose value is
      not negative it is never highlighted, and against a negative value it is. */
  lemma MissingMetricCountsAsZero(u1: UserCard, u2: UserCard)
    ensures u1.profile.maxRating.None? ==>
              (BetterStyle(MaxRatingOf(u1), MaxRatingOf(u2), true) == Highlight <==> MaxRatingOf(u2) < 0)
    ensures u1.profile.contribution.None? ==>
              (BetterStyle(ContributionOf(u1), ContributionOf(u2), true) == Highlight <==> ContributionOf(u2) < 0)
  {
  }

  /** The colour of a rating card: the ladder colour of the defaulted rating. */
  function RatingColor(u: UserCard): (color: string)
    ensures u.profile.rating.None? ==> color == "#808080"
    ensures u.profile.rating.Some? ==> color == ApiConfig.GetColor(u.profile.rating.value)
    ensures color == ApiConfig.TierColor(ApiConfig.Tier(CurrentRating(u)))
  {
    ApiConfig.BelowPupil(0);
    ApiConfig.LadderAgrees(CurrentRating(u));
    ApiConfig.GetColor(CurrentRating(u))
  }

  /** `value || 'N/A'`: a value of 0 is shown as "N/A". */
  function StatText(value: int): (text: string)
    ensures text == "N/A" <==> value == 0
    ensures value != 0 ==> JsNumber.ParseInt(text) == Some(value)
  {
    if value == 0 then "N/A"
    else
      JsNumber.ParseIntToString(value, "");
      assert JsNumber.IntToString(value) + "" == JsNumber.IntToString(value);
      JsNumber.IntToString(value)
  }

  /** The heading of a card: "first last" when both names are non-empty, the
      handle otherwise. */
  function DisplayName(p: UserProfile): (name: string)
    ensures p.firstName.Some? && p.firstName.value != [] && p.lastName.Some? && p.lastName.value != [] ==>
              name == p.firstName.value + " " + p.lastName.value
    ensures !(p.firstName.Some? && p.firstName.value != [] && p.lastName.Some? && p.lastName.value != []) ==>
              name == p.handle
  {
    if p.firstName.Some? && p.firstName.value != [] && p.lastName.Some? && p.lastName.value != [] then
      p.firstName.value + " " + p.lastName.value
    else p.handle
  }

  // ---------------------------------------------------------------------------
  // The winner

  datatype Verdict = FirstWins | SecondWins | Tied

  /** The winner is decided by current rating alone. */
  function WinnerOf(u1: UserCard, u2: UserCard): (v: Verdict)
    ensures v == FirstWins <==> CurrentRating(u1) > CurrentRating(u2)
    ensures v == SecondWins <==> CurrentRating(u2) > CurrentRating(u1)
    ensures v == Tied <==> CurrentRating(u1) == CurrentRating(u2)
  {
    if CurrentRating(u1) > CurrentRating(u2) then FirstWins
    else if CurrentRating(u2) > CurrentRating(u1) then SecondWins
    else Tied
  }

  /** The winner line: the winner's handle, or the tie message. */
  function WinnerText(u1: UserCard, u2: UserCard): (text: string)
    ensures BetterStyle(CurrentRating(u1), CurrentRating(u2), true) == Highlight ==> text == u1.profile.handle
    ensures BetterStyle(CurrentRating(u2), CurrentRating(u1), true) == Highlight ==> text == u2.profile.handle
    ensures CurrentRating(u1) == CurrentRating(u2) ==> text == Tie
  {
    match WinnerOf(u1, u2)
    case FirstWins => u1.profile.handle
    case SecondWins => u2.profile.handle
    case Tied => Tie
  }

  /** Swapping the users swaps the verdict and keeps the announced handle. */
  lemma WinnerSymmetric(u1: UserCard, u2: UserCard)
    ensures WinnerOf(u2, u1) == match WinnerOf(u1, u2)
                                case FirstWins => SecondWins
                                case SecondWins => FirstWins
                                case Tied => Tied
    ensures WinnerText(u2, u1) == WinnerText(u1, u2)
  {
  }

  /** The winner is the user whose current-rating card is highlighted, and a
      tie highlights neither card. */
  lemma WinnerHasHighlightedRating(u1: UserCard, u2: UserCard)
    ensures WinnerOf(u1, u2) == FirstWins <==> BetterStyle(CurrentRating(u1), CurrentRating(u2), true) == Highlight
    ensures WinnerOf(u1, u2) == SecondWins <==> BetterStyle(CurrentRating(u2), CurrentRating(u1), true) == Highlight
  {
  }

  // ---------------------------------------------------------------------------
  // handleCompare

  /** The comparison view: the two cards, once loaded, and the error line. */
  datatype ComparisonView = ComparisonView(user1: Option<UserCard>, user2: Option<UserCard>, error: string)

  /** `{ ...info, problemsSolved }`: spreading a missing profile leaves no
      fields, so the handle shows as empty. */
  function CardOf(info: Option<UserProfile>, solved: nat): (card: UserCard)
    ensures card.problemsSolved == solved
    ensures info.Some? ==> card.profile == info.value
    ensures info.None? ==> card.profile.handle == [] && CurrentRating(card) == 0
  {
    var profile := if info.Some? then info.value
                   else CodeforcesService.UserProfile("", None, None, None, None, None, None);
    UserCard(profile, solved)
  }

  /** `handleCompare`, with the answers to the four requests for the trimmed
      handles as parameters. Either handle blank: only the error is set.
      Otherwise both cards are cleared; if a profile request raised, its
      message is the error and no card is shown, else both cards are shown. */
  function HandleCompare(
    handle1: string, handle2: string, view: ComparisonView,
    info1: CodeforcesService.Envelope<seq<UserProfile>>, info2: CodeforcesService.Envelope<seq<UserProfile>>,
    subs1: CodeforcesService.Envelope<seq<CodeforcesService.Submission>>,
    subs2: CodeforcesService.Envelope<seq<CodeforcesService.Submission>>): (next: ComparisonView)
    ensures JsString.AllWhitespace(handle1) || JsString.AllWhitespace(handle2) ==>
              next == view.(error := MissingHandles)
    ensures !JsString.AllWhitespace(handle1) && !JsString.AllWhitespace(handle2) ==>
              (next.error == [] <==> next.user1.Some? && next.user2.Some?) &&
              (next.user1.Some? <==> next.user2.Some?) &&
              (next.user1.Some? <==>
                 CodeforcesService.GetUserInfo(info1).Returned? && CodeforcesService.GetUserInfo(info2).Returned?)
    ensures var r1 := CodeforcesService.GetUserInfo(info1);
            var r2 := CodeforcesService.GetUserInfo(info2);
            !JsString.AllWhitespace(handle1) && !JsString.AllWhitespace(handle2) && r1.Returned? && r2.Returned? ==>
              next.user1 == Some(CardOf(r1.value, CodeforcesService.GetUserSubmissions(subs1)))
              && next.user2 == Some(CardOf(r2.value, CodeforcesService.GetUserSubmissions(subs2)))
  {
    if JsString.Trim(handle1) == [] || JsString.Trim(handle2) == [] then view.(error := MissingHandles)
    else Loaded(CodeforcesService.GetUserInfo(info1), CodeforcesService.GetUserInfo(info2),
                CodeforcesService.GetUserSubmissions(subs1), CodeforcesService.GetUserSubmissions(subs2))
  }

  /** The view once both handles are given: the first failed profile request
      decides the error, else both cards are shown. */
  function Loaded(r1: Outcome<Option<UserProfile>>, r2: Outcome<Option<UserProfile>>,
                  solved1: nat, solved2: nat): (next: ComparisonView)
    ensures r1.Raised? ==> next == ComparisonView(None, None, ErrorText(r1.message))
    ensures r1.Returned? && r2.Raised? ==> next == ComparisonView(None, None, ErrorText(r2.message))
    ensures r1.Returned? && r2.Returned? ==>
              next == ComparisonView(Some(CardOf(r1.value, solved1)), Some(CardOf(r2.value, solved2)), "")
  {
    if r1.Raised? then ComparisonView(None, None, ErrorText(r1.message))
    else if r2.Raised? then ComparisonView(None, None, ErrorText(r2.message))
    else ComparisonView(Some(CardOf(r1.value, solved1)), Some(CardOf(r2.value, solved2)), "")
  }

  /** `err.message || 'Failed to fetch user data. ...'` */
  function ErrorText(message: string): (text: string)
    ensures text != []
    ensures message != [] ==> text == message
    ensures message == [] ==> text == CompareFailure
  {
    if message != [] then message else CompareFailure
  }

  /** A failed profile request shows that request's own message, the first
      one's when both fail: the generic failure text is never chosen, because
      the service always raises with a non-empty message. */
  lemma CompareShowsServiceMessage(
    handle1: string, handle2: string, view: ComparisonView,
    info1: CodeforcesService.Envelope<seq<UserProfile>>, info2: CodeforcesService.Envelope<seq<UserProfile>>,
    subs1: CodeforcesService.Envelope<seq<CodeforcesService.Submission>>,
    subs2: CodeforcesService.Envelope<seq<CodeforcesService.Submission>>)
    requires !JsString.AllWhitespace(handle1) && !JsString.AllWhitespace(handle2)
    requires CodeforcesService.GetUserInfo(info1).Raised? || CodeforcesService.GetUserInfo(info2).Raised?
    ensures var r1 := CodeforcesService.GetUserInfo(info1);
            var r2 := CodeforcesService.GetUserInfo(info2);
            HandleCompare(handle1, handle2, view, info1, info2, subs1, subs2).error
              == if r1.Raised? then r1.message else r2.message
  {
  }
}
