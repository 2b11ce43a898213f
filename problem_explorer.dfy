/** The problem browser (src/components/ProblemExplorer.jsx): the loaded
    problem set, its tag vocabulary, the three filters, and the page of
    filtered problems on display. */
module ProblemExplorer {
  import opened Wrappers
  import JsString
  import JsNumber
  import JsArray
  import CodeforcesService

  type Problem = CodeforcesService.Problem

  /** Problems shown per page. */
  const PerPage := 20

  const LoadFailure := "Failed to load problems. Please try again later."

  // ---------------------------------------------------------------------------
  // The filters

  /** The search stage: the lower-cased name contains the lower-cased term;
      an empty term lets everything through. */
  predicate NameMatches(p: Problem, searchTerm: string) {
    searchTerm == [] || JsString.Includes(JsString.ToLower(p.name), JsString.ToLower(searchTerm))
  }

  /** The tag stage: the problem lists the tag; an empty tag lets everything through. */
  predicate TagMatches(p: Problem, selectedTag: string) {
    selectedTag == [] || selectedTag in p.tags
  }

  /** The rating stage: the problem's rating is `parseInt` of the selection.
      An unrated problem, or a selection that does not parse, never matches. */
  predicate RatingMatches(p: Problem, selectedRating: string) {
    selectedRating == [] || (p.rating.Some? && JsNumber.ParseInt(selectedRating) == Some(p.rating.value))
  }

  /** A problem is listed when it passes all three stages. */
  predicate Matches(p: Problem, searchTerm: string, selectedTag: string, selectedRating: string) {
    NameMatches(p, searchTerm) && TagMatches(p, selectedTag) && RatingMatches(p, selectedRating)
  }

  /** The filtered list, in one pass. */
  function Filtered(ps: seq<Problem>, searchTerm: string, selectedTag: string, selectedRating: string): (r: seq<Problem>)
    ensures |r| <= |ps|
    ensures forall p :: p in r <==> p in ps && Matches(p, searchTerm, selectedTag, selectedRating)
  {
    JsArray.Filter(ps, p => Matches(p, searchTerm, selectedTag, selectedRating))
  }

  /** The filtered list keeps the problems' order: it is a subsequence of the problem set. */
  lemma FilteredIsSubsequence(ps: seq<Problem>, searchTerm: string, selectedTag: string, selectedRating: string)
    ensures JsArray.IsSubsequence(Filtered(ps, searchTerm, selectedTag, selectedRating), ps)
  {
    JsArray.FilterIsSubsequence(ps, p => Matches(p, searchTerm, selectedTag, selectedRating));
  }

  /** With no filter set, every problem is listed. */
  lemma NoFilterKeepsAll(ps: seq<Problem>)
    ensures Filtered(ps, "", "", "") == ps
  {
    JsArray.FilterAll(ps, p => Matches(p, "", "", ""));
  }

  /** Filtering the filtered list again with the same filters changes nothing. */
  lemma FilteredIdempotent(ps: seq<Problem>, searchTerm: string, selectedTag: string, selectedRating: string)
    ensures Filtered(Filtered(ps, searchTerm, selectedTag, selectedRating), searchTerm, selectedTag, selectedRating)
         == Filtered(ps, searchTerm, selectedTag, selectedRating)
  {
    var m := p => Matches(p, searchTerm, selectedTag, selectedRating);
    JsArray.FilterConjunction(ps, m, m, m);
  }

  /** The staged filtering of `applyFilters`, where a stage whose filter is
      empty is skipped, lists the same problems as the single pass. */
  lemma StagesComposeToFiltered(ps: seq<Problem>, searchTerm: string, selectedTag: string, selectedRating: string)
    ensures JsArray.Filter(JsArray.Filter(JsArray.Filter(ps, p => NameMatches(p, searchTerm)),
                           p => TagMatches(p, selectedTag)), p => RatingMatches(p, selectedRating))
         == Filtered(ps, searchTerm, selectedTag, selectedRating)
  {
    var a := p => NameMatches(p, searchTerm);
    var b := p => TagMatches(p, selectedTag);
    var c := p => RatingMatches(p, selectedRating);
    var ab := p => NameMatches(p, searchTerm) && TagMatches(p, selectedTag);
    JsArray.FilterConjunction(ps, a, b, ab);
    JsArray.FilterConjunction(ps, ab, c, p => Matches(p, searchTerm, selectedTag, selectedRating));
  }

  // ---------------------------------------------------------------------------
  // Pagination

  /** `Math.ceil(n / 20)` */
  function PageCount(n: nat): (pages: nat)
    ensures pages * PerPage >= n
    ensures pages > 0 ==> (pages - 1) * PerPage < n
  {
    (n + PerPage - 1) / PerPage
  }

  /** `items.slice((page - 1) * 20, page * 20)` */
  function PageOf<T>(items: seq<T>, page: int): (r: seq<T>)
    ensures |r| <= PerPage
    ensures 1 <= page && page * PerPage <= |items| ==> r == items[(page - 1) * PerPage..page * PerPage]
  {
    JsArray.Slice(items, (page - 1) * PerPage, page * PerPage)
  }

  /** Every item is on exactly one page, and that page exists. */
  lemma ItemOnItsPage<T>(items: seq<T>, k: int)
    requires 0 <= k < |items|
    ensures 1 <= k / PerPage + 1 <= PageCount(|items|)
    ensures |PageOf(items, k / PerPage + 1)| > k % PerPage
    ensures PageOf(items, k / PerPage + 1)[k % PerPage] == items[k]
  {
  }

  /** The last page holds what is left over, and the pages before it are full. */
  lemma PageSizes<T>(items: seq<T>, page: int)
    requires 1 <= page <= PageCount(|items|)
    ensures |PageOf(items, page)| == if page < PageCount(|items|) then PerPage else |items| - (page - 1) * PerPage
  {
  }

  // ---------------------------------------------------------------------------
  // getRatingColor

  /** `getRatingColor`: the text colour for a problem's difficulty. These bands
      are not those of the rating ladder: an absent rating or 0 is grey, and
      any other rating below 1200, negative ones included, is green. */
  function RatingColorClass(rating: Option<int>): (cls: string)
    ensures cls in DifficultyClasses
    ensures cls == "text-gray-400" <==> rating.None? || rating.value == 0
    ensures cls == "text-green-500" <==> rating.Some? && rating.value != 0 && rating.value < 1200
  {
    if rating.None? || rating.value == 0 then "text-gray-400"
    else if rating.value >= 2400 then "text-red-500"
    else if rating.value >= 2000 then "text-orange-500"
    else if rating.value >= 1600 then "text-purple-500"
    else if rating.value >= 1200 then "text-blue-500"
    else "text-green-500"
  }

  /** The colours from easiest to hardest, grey first. */
  const DifficultyClasses := ["text-gray-400", "text-green-500", "text-blue-500", "text-purple-500", "text-orange-500", "text-red-500"]

  /** Where a colour sits in `DifficultyClasses`. */
  function DifficultyLevel(cls: string): (level: nat)
    requires cls in DifficultyClasses
    ensures level < |DifficultyClasses| && DifficultyClasses[level] == cls
  {
    if cls == "text-gray-400" then 0
    else if cls == "text-green-500" then 1
    else if cls == "text-blue-500" then 2
    else if cls == "text-purple-500" then 3
    else if cls == "text-orange-500" then 4
    else 5
  }

  /** Among rated problems, a harder one never gets an easier colour. */
  lemma RatingColorMonotone(r1: int, r2: int)
    requires 0 < r1 <= r2
    ensures DifficultyLevel(RatingColorClass(Some(r1))) <= DifficultyLevel(RatingColorClass(Some(r2)))
  {
  }

  /** The thresholds are inclusive: 1200, 1600, 2000 and 2400 open a new colour. */
  lemma RatingColorThresholds(t: int)
    requires t in {1200, 1600, 2000, 2400}
    ensures DifficultyLevel(RatingColorClass(Some(t))) == DifficultyLevel(RatingColorClass(Some(t - 1))) + 1
  {
  }

  // ---------------------------------------------------------------------------
  // The component's state

  /** The set of tags occurring in some problem. */
  ghost predicate HasTag(ps: seq<Problem>, tag: string) {
    exists k :: 0 <= k < |ps| && tag in ps[k].tags
  }

  class ProblemExplorer {
    var problems: seq<Problem>
    var filteredProblems: seq<Problem>
    var error: string
    var searchTerm: string
    var selectedTag: string
    var selectedRating: string
    var allTags: seq<string>
    var currentPage: int

    /** The listed problems are always the filtered problem set (the effect
        reruns the filters whenever the problems or a filter change), and the
        page is at least 1 and never beyond the last page. */
    ghost predicate Valid()
      reads this
    {
      && filteredProblems == Filtered(problems, searchTerm, selectedTag, selectedRating)
      && 1 <= currentPage
      && (currentPage == 1 || currentPage <= TotalPages())
    }

    function TotalPages(): nat
      reads this
    {
      PageCount(|filteredProblems|)
    }

    /** The problems on display. */
    function CurrentProblems(): (page: seq<Problem>)
      reads this
      ensures |page| <= PerPage
    {
      PageOf(filteredProblems, currentPage)
    }

    /** The initial state of the component, before anything is fetched. */
    constructor ()
      ensures Valid()
      ensures problems == [] && filteredProblems == [] && allTags == [] && error == []
      ensures searchTerm == [] && selectedTag == [] && selectedRating == [] && currentPage == 1
    {
      problems := [];
      filteredProblems := [];
      error := [];
      searchTerm := [];
      selectedTag := [];
      selectedRating := [];
      allTags := [];
      currentPage := 1;
    }

    /** `fetchProblems`: on success the problem set and its sorted, duplicate-free
        tag vocabulary are stored and the filters rerun; on failure only the
        error message is set. */
    method FetchProblems(env: CodeforcesService.Envelope<seq<Problem>>)
      requires Valid()
      modifies this
      ensures Valid()
      ensures searchTerm == old(searchTerm) && selectedTag == old(selectedTag) && selectedRating == old(selectedRating)
      ensures env.Ok? ==> problems == env.result && error == [] && currentPage == 1
      ensures env.Ok? ==> JsString.StrictlySorted(allTags)
      ensures env.Ok? ==> forall tag :: tag in allTags <==> HasTag(problems, tag)
      ensures !env.Ok? ==> problems == old(problems) && allTags == old(allTags) && error == LoadFailure
      ensures !env.Ok? ==> filteredProblems == old(filteredProblems) && currentPage == old(currentPage)
    {
      error := [];
      var outcome := CodeforcesService.GetProblems(env);
      match outcome {
        case Returned(data) =>
          problems := data;
          var tags := CollectTags(data);
          JsString.SortDistinctIsStrict(tags);
          allTags := JsString.SortStrings(tags);
          forall tag ensures tag in allTags <==> tag in tags {
            assert tag in allTags <==> tag in multiset(allTags);
          }
          ApplyFilters();
        case Raised(_) =>
          error := LoadFailure;
      }
    }

    /** `applyFilters`: each non-empty filter narrows the list in turn; the
        page goes back to 1. */
    method ApplyFilters()
      modifies this
      ensures filteredProblems == Filtered(problems, searchTerm, selectedTag, selectedRating)
      ensures currentPage == 1
      ensures problems == old(problems) && allTags == old(allTags) && error == old(error)
      ensures searchTerm == old(searchTerm) && selectedTag == old(selectedTag) && selectedRating == old(selectedRating)
      ensures Valid()
    {
      var filtered := problems;
      var term, tag, rating := searchTerm, selectedTag, selectedRating;
      var byName := p => NameMatches(p, term);
      var byTag := p => TagMatches(p, tag);
      var byRating := p => RatingMatches(p, rating);
      if term != [] {
        filtered := JsArray.Filter(filtered, byName);
      } else {
        JsArray.FilterAll(filtered, byName);
      }
      if tag != [] {
        filtered := JsArray.Filter(filtered, byTag);
      } else {
        JsArray.FilterAll(filtered, byTag);
      }
      if rating != [] {
        filtered := JsArray.Filter(filtered, byRating);
      } else {
        JsArray.FilterAll(filtered, byRating);
      }
      StagesComposeToFiltered(problems, searchTerm, selectedTag, selectedRating);
      filteredProblems := filtered;
      currentPage := 1;
    }

    /** Typing in the search box; the filters rerun only when the term changes. */
    method SetSearchTerm(term: string)
      requires Valid()
      modifies this
      ensures Valid()
      ensures searchTerm == term && selectedTag == old(selectedTag) && selectedRating == old(selectedRating)
      ensures problems == old(problems) && allTags == old(allTags) && error == old(error)
      ensures currentPage == if term == old(searchTerm) then old(currentPage) else 1
    {
      if term != searchTerm {
        searchTerm := term;
        ApplyFilters();
      }
    }

    /** Choosing a tag; the filters rerun only when the tag changes. */
    method SetSelectedTag(tag: string)
      requires Valid()
      modifies this
      ensures Valid()
      ensures selectedTag == tag && searchTerm == old(searchTerm) && selectedRating == old(selectedRating)
      ensures problems == old(problems) && allTags == old(allTags) && error == old(error)
      ensures currentPage == if tag == old(selectedTag) then old(currentPage) else 1
    {
      if tag != selectedTag {
        selectedTag := tag;
        ApplyFilters();
      }
    }

    /** Choosing a rating; the filters rerun only when the rating changes. */
    method SetSelectedRating(rating: string)
      requires Valid()
      modifies this
      ensures Valid()
      ensures selectedRating == rating && searchTerm == old(searchTerm) && selectedTag == old(selectedTag)
      ensures problems == old(problems) && allTags == old(allTags) && error == old(error)
      ensures currentPage == if rating == old(selectedRating) then old(currentPage) else 1
    {
      if rating != selectedRating {
        selectedRating := rating;
        ApplyFilters();
      }
    }

    /** `clearFilters`: all three filters emptied; the list is then the whole
        problem set, back on page 1 unless no filter was set. */
    method ClearFilters()
      requires Valid()
      modifies this
      ensures Valid()
      ensures searchTerm == [] && selectedTag == [] && selectedRating == []
      ensures filteredProblems == problems
      ensures problems == old(problems) && allTags == old(allTags) && error == old(error)
      ensures currentPage == if old(searchTerm) == [] && old(selectedTag) == [] && old(selectedRating) == []
                             then old(currentPage) else 1
    {
      NoFilterKeepsAll(problems);
      if searchTerm != [] || selectedTag != [] || selectedRating != [] {
        searchTerm, selectedTag, selectedRating := [], [], [];
        ApplyFilters();
      }
    }

    /** The Previous button, shown only when there is more than one page. */
    method PreviousPage()
      requires Valid() && TotalPages() > 1
      modifies this
      ensures Valid()
      ensures currentPage == if old(currentPage) - 1 < 1 then 1 else old(currentPage) - 1
      ensures problems == old(problems) && filteredProblems == old(filteredProblems) && allTags == old(allTags)
      ensures searchTerm == old(searchTerm) && selectedTag == old(selectedTag) && selectedRating == old(selectedRating)
      ensures error == old(error)
    {
      currentPage := if currentPage - 1 < 1 then 1 else currentPage - 1;
    }

    /** The Next button, shown only when there is more than one page. */
    method NextPage()
      requires Valid() && TotalPages() > 1
      modifies this
      ensures Valid()
      ensures currentPage == if TotalPages() < old(currentPage) + 1 then TotalPages() else old(currentPage) + 1
      ensures problems == old(problems) && filteredProblems == old(filteredProblems) && allTags == old(allTags)
      ensures searchTerm == old(searchTerm) && selectedTag == old(selectedTag) && selectedRating == old(selectedRating)
      ensures error == old(error)
    {
      currentPage := if TotalPages() < currentPage + 1 then TotalPages() else currentPage + 1;
    }
  }

  /** The tags of all problems, each once, in order of first occurrence: the
      `Set` that `fetchProblems` fills. */
  method CollectTags(data: seq<Problem>) returns (tags: seq<string>)
    ensures JsString.Distinct(tags)
    ensures forall tag :: tag in tags <==> HasTag(data, tag)
  {
    tags := [];
    var i := 0;
    while i < |data|
      invariant 0 <= i <= |data|
      invariant JsString.Distinct(tags)
      invariant forall tag :: tag in tags <==> HasTag(data[..i], tag)
    {
      var j := 0;
      while j < |data[i].tags|
        invariant 0 <= j <= |data[i].tags|
        invariant JsString.Distinct(tags)
        invariant forall tag :: tag in tags <==> HasTag(data[..i], tag) || tag in data[i].tags[..j]
      {
        var tag := data[i].tags[j];
        if tag !in tags {
          tags := tags + [tag];
        }
        j := j + 1;
      }
      assert data[i].tags[..j] == data[i].tags;
      forall tag ensures HasTag(data[..i + 1], tag) <==> HasTag(data[..i], tag) || tag in data[i].tags {
        if HasTag(data[..i + 1], tag) {
          var k :| 0 <= k < i + 1 && tag in data[..i + 1][k].tags;
          if k < i { assert data[..i][k] == data[k]; }
        }
        if HasTag(data[..i], tag) {
          var k :| 0 <= k < i && tag in data[..i][k].tags;
          assert data[..i + 1][k] == data[k];
        }
        if tag in data[i].tags {
          assert data[..i + 1][i] == data[i];
        }
      }
      i := i + 1;
    }
    assert data[..i] == data;
  }
}
