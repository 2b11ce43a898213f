/** The service layer between the dashboard and the Codeforces API
    (src/services/codeforcesService.js): what each call makes of the API's
    envelope, the solved-problem count and the upcoming/past contest split. */
module CodeforcesService {
  import opened Wrappers
  import JsNumber
  import JsArray
  import ApiConfig

  /** What a request comes back with: a body whose `status` is "OK", a body
      with any other status, or an HTTP or network failure whose response body
      may carry a `comment`. */
  datatype Envelope<+T> = Ok(result: T) | NotOk | Transport(comment: Option<string>)

  /** An entry of `user.info`. */
  datatype UserProfile = UserProfile(
    handle: string,
    firstName: Option<string>,
    lastName: Option<string>,
    rating: Option<int>,
    maxRating: Option<int>,
    contribution: Option<int>,
    rank: Option<string>)

  /** An entry of `user.rating`. */
  datatype RatingChange = RatingChange(
    contestId: int,
    contestName: string,
    rank: int,
    oldRating: int,
    newRating: int,
    ratingUpdateTimeSeconds: int)

  /** An entry of `user.status`, reduced to its verdict and its problem's identity. */
  datatype Submission = Submission(verdict: Option<string>, contestId: int, index: string)

  /** An entry of `contest.list`; `phase` is the text the API sends, such as
      "BEFORE", "CODING" or "FINISHED". */
  datatype Contest = Contest(id: int, name: string, phase: string, startTimeSeconds: int, durationSeconds: int)

  /** An entry of `problemset.problems`; an absent `tags` field is the empty list. */
  datatype Problem = Problem(contestId: int, index: string, name: string, rating: Option<int>, tags: seq<string>)

  // ---------------------------------------------------------------------------
  // getUserInfo, getUserRating, getProblems

  const UserInfoFailure := "Failed to fetch user info"
  const ContestsFailure := "Failed to fetch contests"
  const ProblemsFailure := "Failed to fetch problems"

  /** `getUserInfo`: on "OK" the first entry of the result, which is `undefined`
      (here `None`) when the result is empty. The 'User not found' error raised
      for any other status is caught by the same `try`, and having no response
      it turns into the fixed message; a failed request raises the response's
      `comment` when there is a non-empty one. */
  function GetUserInfo(env: Envelope<seq<UserProfile>>): (r: Outcome<Option<UserProfile>>)
    ensures env.Ok? <==> r.Returned?
    ensures env.Ok? ==> (r.value.Some? <==> env.result != []) && (r.value.Some? ==> r.value.value == env.result[0])
    ensures env.NotOk? ==> r == Raised(UserInfoFailure)
    ensures env.Transport? && env.comment.Some? && env.comment.value != [] ==> r == Raised(env.comment.value)
    ensures env.Transport? && (env.comment.None? || env.comment.value == []) ==> r == Raised(UserInfoFailure)
    ensures r.Raised? ==> r.message != []
  {
    match env
    case Ok(result) => Returned(if |result| > 0 then Some(result[0]) else None)
    case NotOk => Raised(UserInfoFailure)
    case Transport(comment) =>
      Raised(if comment.Some? && comment.value != [] then comment.value else UserInfoFailure)
  }

  /** `getUserRating`: never raises; anything but an "OK" body is an empty history. */
  function GetUserRating(env: Envelope<seq<RatingChange>>): (history: seq<RatingChange>)
    ensures env.Ok? ==> history == env.result
    ensures !env.Ok? ==> history == []
  {
    if env.Ok? then env.result else []
  }

  /** `getProblems`: the problem list, or the fixed message on any failure. */
  function GetProblems(env: Envelope<seq<Problem>>): (r: Outcome<seq<Problem>>)
    ensures env.Ok? <==> r.Returned?
    ensures env.Ok? ==> r.value == env.result
    ensures !env.Ok? ==> r == Raised(ProblemsFailure)
  {
    if env.Ok? then Returned(env.result) else Raised(ProblemsFailure)
  }

  // ---------------------------------------------------------------------------
  // getUserSubmissions

  /** `getUserSubmissions` asks for the first 10000 submissions of the handle. */
  function SubmissionsUrl(base: string, handle: string): (url: string)
    ensures '&' !in handle ==> ApiConfig.StatusHandle(base, url) == Some(handle)
    ensures |base| <= |url| && url[..|base|] == base
    ensures url[|base|..] == "/user.status?handle=" + handle + "&from=1&count=10000"
  {
    var url := ApiConfig.UserStatusUrl(base, handle, Some(1), Some(10000));
    SubmissionsQuery();
    if '&' in handle then url
    else
      ApiConfig.StatusHandleRoundTrip(base, handle, Some(1), Some(10000));
      url
  }

  /** The paging query of `getUserSubmissions`, written out. */
  lemma SubmissionsQuery()
    ensures ApiConfig.PagingQuery(Some(1), Some(10000)) == "&from=1&count=10000"
  {
    var zero := JsNumber.DigitChar(0);
    assert zero == '0';
    assert JsNumber.NatToString(1) == "1";
    assert JsNumber.NatToString(10) == "1" + [zero];
    assert JsNumber.NatToString(100) == "10" + [zero];
    assert JsNumber.NatToString(1000) == "100" + [zero];
    assert JsNumber.NatToString(10000) == "1000" + [zero];
  }

  predicate Accepted(s: Submission) {
    s.verdict == Some("OK")
  }

  /** The template string `${contestId}-${index}`. */
  function ProblemKey(contestId: int, index: string): string {
    JsNumber.IntToString(contestId) + "-" + index
  }

  function SubmissionKey(s: Submission): string {
    ProblemKey(s.contestId, s.index)
  }

  /** The keys of the accepted submissions: the `Set` built by `getUserSubmissions`. */
  function SolvedKeys(subs: seq<Submission>): set<string> {
    set s | s in JsArray.Filter(subs, Accepted) :: SubmissionKey(s)
  }

  /** `getUserSubmissions` on an "OK" body: the size of that set. */
  function SolvedCount(subs: seq<Submission>): (n: nat)
    ensures n == |SolvedPairs(subs)|
  {
    KeysCountProblems(subs);
    |SolvedKeys(subs)|
  }

  /** `getUserSubmissions`: never raises; anything but an "OK" body counts 0. */
  function GetUserSubmissions(env: Envelope<seq<Submission>>): (solved: nat)
    ensures env.Ok? ==> solved == |SolvedPairs(env.result)|
    ensures !env.Ok? ==> solved == 0
  {
    if env.Ok? then SolvedCount(env.result) else 0
  }

  /** The distinct problems with at least one accepted submission. */
  function SolvedPairs(subs: seq<Submission>): set<(int, string)> {
    set s | s in subs && Accepted(s) :: (s.contestId, s.index)
  }

  /** The key text tells the contest and the problem index apart: the first
      `-` after the first character ends the number. */
  lemma ProblemKeyInjective(c1: int, i1: string, c2: int, i2: string)
    requires ProblemKey(c1, i1) == ProblemKey(c2, i2)
    ensures c1 == c2 && i1 == i2
  {
    var a1, a2 := JsNumber.IntToString(c1), JsNumber.IntToString(c2);
    NoDashInside(c1);
    NoDashInside(c2);
    SeparatorAt(a1, i1, a2, i2);
    SeparatorAt(a2, i2, a1, i1);
    var k := ProblemKey(c1, i1);
    assert k[..|a1|] == a1 && k[..|a2|] == a2;
    assert k[|a1| + 1..] == i1 && k[|a2| + 1..] == i2;
    JsNumber.IntToStringInjective(c1, c2);
  }

  /** The separator of one key cannot fall inside the other key's number. */
  lemma SeparatorAt(a1: string, i1: string, a2: string, i2: string)
    requires a1 + "-" + i1 == a2 + "-" + i2
    requires 1 <= |a1|
    requires forall j :: 1 <= j < |a2| ==> a2[j] != '-'
    ensures |a2| <= |a1|
  {
    if |a1| < |a2| {
      DashAfter(a1, i1);
      assert false;
    }
  }

  lemma DashAfter(a: string, i: string)
    ensures |a| < |a + "-" + i| && (a + "-" + i)[|a|] == '-'
  {
  }

  lemma NoDashInside(c: int)
    ensures forall j :: 1 <= j < |JsNumber.IntToString(c)| ==> JsNumber.IntToString(c)[j] != '-'
  {
  }

  /** There are as many distinct keys as distinct (contest, index) problems
      with an accepted submission. */
  lemma KeysCountProblems(subs: seq<Submission>)
    ensures |SolvedKeys(subs)| == |SolvedPairs(subs)|
  {
    KeysArePairKeys(subs);
    PairKeysCount(SolvedPairs(subs));
  }

  function PairKey(p: (int, string)): string {
    ProblemKey(p.0, p.1)
  }

  lemma KeysArePairKeys(subs: seq<Submission>)
    ensures SolvedKeys(subs) == set p | p in SolvedPairs(subs) :: PairKey(p)
  {
    var keys, pairs := SolvedKeys(subs), SolvedPairs(subs);
    var image := set p | p in pairs :: PairKey(p);
    forall k | k in keys ensures k in image {
      var s :| s in JsArray.Filter(subs, Accepted) && SubmissionKey(s) == k;
      assert (s.contestId, s.index) in pairs;
    }
    forall k | k in image ensures k in keys {
      var p :| p in pairs && PairKey(p) == k;
      var s :| s in subs && Accepted(s) && (s.contestId, s.index) == p;
      assert s in JsArray.Filter(subs, Accepted);
    }
  }

  /** Distinct problems have distinct keys, so there are as many keys as problems. */
  lemma {:induction false} PairKeysCount(pairs: set<(int, string)>)
    ensures |set p | p in pairs :: PairKey(p)| == |pairs|
  {
    if pairs != {} {
      var x :| x in pairs;
      var rest := pairs - {x};
      PairKeysCount(rest);
      assert (set p | p in pairs :: PairKey(p)) == (set p | p in rest :: PairKey(p)) + {PairKey(x)};
      if PairKey(x) in (set p | p in rest :: PairKey(p)) {
        var y :| y in rest && PairKey(y) == PairKey(x);
        ProblemKeyInjective(x.0, x.1, y.0, y.1);
        assert false;
      }
    }
  }

  /** The keys depend only on which submissions occur, not on their order or number. */
  lemma SolvedKeysMembers(subs: seq<Submission>, k: string)
    ensures k in SolvedKeys(subs) <==> exists s :: s in subs && Accepted(s) && SubmissionKey(s) == k
  {
  }

  /** No submission: nothing solved. */
  lemma SolvedNone()
    ensures SolvedCount([]) == 0
  {
  }

  /** A submission that is not accepted leaves the count as it was. */
  lemma SolvedIgnoresRejected(subs: seq<Submission>, s: Submission)
    requires !Accepted(s)
    ensures SolvedCount(subs + [s]) == SolvedCount(subs)
  {
    forall k ensures k in SolvedKeys(subs + [s]) <==> k in SolvedKeys(subs) {
      SolvedKeysMembers(subs + [s], k);
      SolvedKeysMembers(subs, k);
    }
    assert SolvedKeys(subs + [s]) == SolvedKeys(subs);
  }

  /** An accepted submission adds one exactly when its problem had no accepted
      submission before: repeated acceptances count once. */
  lemma SolvedAddsNewProblem(subs: seq<Submission>, s: Submission)
    requires Accepted(s)
    ensures SolvedCount(subs + [s]) ==
      if exists t :: t in subs && Accepted(t) && t.contestId == s.contestId && t.index == s.index
      then SolvedCount(subs) else SolvedCount(subs) + 1
  {
    var key := ProblemKey(s.contestId, s.index);
    forall k ensures k in SolvedKeys(subs + [s]) <==> k in SolvedKeys(subs) + {key} {
      SolvedKeysMembers(subs + [s], k);
      SolvedKeysMembers(subs, k);
    }
    assert SolvedKeys(subs + [s]) == SolvedKeys(subs) + {key};
    if exists t :: t in subs && Accepted(t) && t.contestId == s.contestId && t.index == s.index {
      SolvedKeysMembers(subs, key);
      assert key in SolvedKeys(subs);
    } else {
      SolvedKeysMembers(subs, key);
      if key in SolvedKeys(subs) {
        var t :| t in subs && Accepted(t) && SubmissionKey(t) == key;
        ProblemKeyInjective(t.contestId, t.index, s.contestId, s.index);
        assert false;
      }
    }
  }

  /** At most one problem per accepted submission. */
  lemma SolvedAtMostAccepted(subs: seq<Submission>)
    ensures SolvedCount(subs) <= |JsArray.Filter(subs, Accepted)|
  {
    KeysAtMostLength(JsArray.Filter(subs, Accepted));
  }

  lemma {:induction false} KeysAtMostLength(s: seq<Submission>)
    ensures |set x | x in s :: SubmissionKey(x)| <= |s|
  {
    if s != [] {
      KeysAtMostLength(s[1..]);
      assert (set x | x in s :: SubmissionKey(x)) == (set x | x in s[1..] :: SubmissionKey(x)) + {SubmissionKey(s[0])} by {
        assert s == [s[0]] + s[1..];
      }
    }
  }

  /** Reordering the submissions does not change the count. */
  lemma SolvedIgnoresOrder(a: seq<Submission>, b: seq<Submission>)
    requires multiset(a) == multiset(b)
    ensures SolvedCount(a) == SolvedCount(b)
  {
    forall k ensures k in SolvedKeys(a) <==> k in SolvedKeys(b) {
      SolvedKeysMembers(a, k);
      SolvedKeysMembers(b, k);
      forall s ensures s in a <==> s in b {
        assert s in a <==> s in multiset(a);
        assert s in b <==> s in multiset(b);
      }
    }
    assert SolvedKeys(a) == SolvedKeys(b);
  }

  // ---------------------------------------------------------------------------
  // getContests

  /** How many finished contests the dashboard keeps. */
  const PastLimit := 20

  predicate IsBefore(c: Contest) { c.phase == "BEFORE" }
  predicate IsFinished(c: Contest) { c.phase == "FINISHED" }

  function StartKey(c: Contest): int { c.startTimeSeconds }
  function LatestFirstKey(c: Contest): int { -c.startTimeSeconds }

  /** `upcoming`: exactly the contests in phase BEFORE, as many times as they
      occur, earliest start first. */
  function Upcoming(contests: seq<Contest>): (r: seq<Contest>)
    ensures multiset(r) == multiset(JsArray.Filter(contests, IsBefore))
    ensures forall c :: c in r <==> c in contests && c.phase == "BEFORE"
    ensures forall i, j :: 0 <= i < j < |r| ==> r[i].startTimeSeconds <= r[j].startTimeSeconds
  {
    var before := JsArray.Filter(contests, IsBefore);
    var r := JsArray.SortBy(before, StartKey);
    JsArray.SortBySorted(before, StartKey);
    JsArray.SubMultisetMembers(r, before);
    JsArray.SubMultisetMembers(before, r);
    r
  }

  /** Finished contests, latest first, in full. */
  function FinishedLatestFirst(contests: seq<Contest>): seq<Contest> {
    JsArray.SortBy(JsArray.Filter(contests, IsFinished), LatestFirstKey)
  }

  /** `past`: finished contests only, each at most as often as it occurs,
      latest start first, as many as there are up to 20. */
  function Past(contests: seq<Contest>): (r: seq<Contest>)
    ensures multiset(r) <= multiset(JsArray.Filter(contests, IsFinished))
    ensures forall c :: c in r ==> c in contests && c.phase == "FINISHED"
    ensures |r| == if |JsArray.Filter(contests, IsFinished)| < PastLimit
                   then |JsArray.Filter(contests, IsFinished)| else PastLimit
    ensures forall i, j :: 0 <= i < j < |r| ==> r[i].startTimeSeconds >= r[j].startTimeSeconds
  {
    var finished := JsArray.Filter(contests, IsFinished);
    var all := FinishedLatestFirst(contests);
    JsArray.SortBySorted(finished, LatestFirstKey);
    assert |all| == |finished| by {
      assert |multiset(all)| == |multiset(finished)|;
    }
    var n := if |all| < PastLimit then |all| else PastLimit;
    var r := JsArray.Slice(all, 0, PastLimit);
    assert r == all[..n];
    LatestFirstPrefix(all, n);
    JsArray.SubMultisetMembers(r, finished);
    r
  }

  /** A prefix of a list sorted latest first is a sub-multiset of it, and is
      itself latest first. */
  lemma LatestFirstPrefix(all: seq<Contest>, n: nat)
    requires JsArray.SortedBy(all, LatestFirstKey) && n <= |all|
    ensures multiset(all[..n]) <= multiset(all)
    ensures forall i, j :: 0 <= i < j < n ==> all[..n][i].startTimeSeconds >= all[..n][j].startTimeSeconds
  {
    assert all == all[..n] + all[n..];
    assert multiset(all) == multiset(all[..n]) + multiset(all[n..]);
    forall i, j | 0 <= i < j < n ensures all[..n][i].startTimeSeconds >= all[..n][j].startTimeSeconds {
      assert LatestFirstKey(all[i]) <= LatestFirstKey(all[j]);
    }
  }

  datatype ContestLists = ContestLists(upcoming: seq<Contest>, past: seq<Contest>)

  /** `getContests`: the two lists, or the fixed message on any failure. */
  function GetContests(env: Envelope<seq<Contest>>): (r: Outcome<ContestLists>)
    ensures env.Ok? <==> r.Returned?
    ensures env.Ok? ==> r.value == ContestLists(Upcoming(env.result), Past(env.result))
    ensures !env.Ok? ==> r == Raised(ContestsFailure)
  {
    if env.Ok? then Returned(ContestLists(Upcoming(env.result), Past(env.result)))
    else Raised(ContestsFailure)
  }

  /** A finished contest that did not make the cut started no later than any kept one. */
  lemma PastKeepsLatest(contests: seq<Contest>, c: Contest, d: Contest)
    requires c in multiset(JsArray.Filter(contests, IsFinished)) - multiset(Past(contests))
    requires d in Past(contests)
    ensures c.startTimeSeconds <= d.startTimeSeconds
  {
    var all := FinishedLatestFirst(contests);
    JsArray.SortBySorted(JsArray.Filter(contests, IsFinished), LatestFirstKey);
    var n := if |all| < PastLimit then |all| else PastLimit;
    assert Past(contests) == all[..n];
    CutKeepsSmallestKeys(all, n, c, d);
  }

  /** Cutting a list sorted by key after `n` elements keeps the `n` smallest keys. */
  lemma CutKeepsSmallestKeys(all: seq<Contest>, n: nat, c: Contest, d: Contest)
    requires JsArray.SortedBy(all, LatestFirstKey)
    requires n <= |all|
    requires c in multiset(all) - multiset(all[..n])
    requires d in all[..n]
    ensures LatestFirstKey(d) <= LatestFirstKey(c)
  {
    assert all == all[..n] + all[n..];
    assert multiset(all) == multiset(all[..n]) + multiset(all[n..]);
    assert c in multiset(all[n..]);
    var i :| n <= i < |all| && all[i] == c by { assert c in all[n..]; }
    var j :| 0 <= j < n && all[j] == d;
  }

  /** No contest is in both lists, and contests in any other phase are in neither. */
  lemma ListsDisjoint(contests: seq<Contest>, c: Contest)
    ensures !(c in Upcoming(contests) && c in Past(contests))
    ensures c.phase != "BEFORE" && c.phase != "FINISHED" ==> c !in Upcoming(contests) && c !in Past(contests)
  {
  }
}
