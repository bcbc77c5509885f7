/** The public startups service (src/modules/startups/startups.service.ts):
    submission, the public listing and its variants (search, trending, by
    sector, by stage), the approved-only read of one startup, and the
    listing with counts refreshed from the table. */
module StartupsService {
  import opened Wrappers
  import Text
  import opened StartupTypes
  import opened Shared
  import opened Repository
  import opened Analytics
  import opened Trending

  const Submitted := "Startup submitted successfully and is pending review"
  const NotAvailable := "Startup not available"
  const StartupRetrieved := "Startup retrieved successfully"
  const WithMetricsRetrieved := "Startups with metrics retrieved successfully"
  const TrendingRetrieved := "Trending startups retrieved successfully"

  const DefaultTrendingLimit := 10
  const DefaultListLimit := 20

  /** submitStartup: the id of the created row, or the repository's error */
  function SubmitStartup(t: Table, s: Submission, now: string, newId: Option<string>): (w: Written<Result<JsonResponse<string>, string>>)
    ensures w.table == CreateStartup(t, s, now, newId).table
    ensures newId.None? ==> w.result == Failure(CreateFailed)
    ensures newId.Some? ==> w.result == Success(Ok(Submitted, newId.value))
  {
    var c := CreateStartup(t, s, now, newId);
    match c.result
    case Failure(e) => Written(Failure(e), c.table)
    case Success(id) => Written(Success(Ok(Submitted, id)), c.table)
  }

  /** getPublicStartups: the public listing under a success message */
  function GetPublicStartups(t: Table, list: Lister, q: StartupQuery): (r: Result<JsonResponse<StartupList>, string>)
    ensures r.Success? <==> ListPublic(t, list, q).Success?
    ensures r.Success? ==> r.value == Ok(StartupsRetrieved, ListPublic(t, list, q).value)
  {
    var result :- ListPublic(t, list, q);
    Success(Ok(StartupsRetrieved, result))
  }

  /** getStartupById: only an approved startup is returned */
  function GetStartupById(t: Table, id: string): (r: JsonResponse<Startup>)
    ensures id !in t ==> r == Err(NotFound)
    ensures r.successful <==> id in t && t[id].fields.status == ApprovedText
    ensures id in t && !r.successful ==> r == Err(NotAvailable)
    ensures r.successful ==> r == Ok(StartupRetrieved, MapToStartup(t[id]))
  {
    match GetStartup(t, id)
    case None => Err(NotFound)
    case Some(startup) =>
      if startup.status != ApprovedText then Err(NotAvailable)
      else Ok(StartupRetrieved, startup)
  }

  /** One listed startup with its counts refreshed from the table; when the
      lookup fails the startup is kept as listed */
  function WithMetrics(t: Table, s: Startup): (r: Startup)
    ensures s.id !in t ==> r == s
    ensures s.id in t ==>
      r == s.(viewCount := t[s.id].fields.viewCount.GetOr(0), upvoteCount := t[s.id].fields.upvoteCount.GetOr(0))
  {
    match GetStartupAnalytics(t, s.id)
    case Failure(_) => s
    case Success(c) => s.(viewCount := c.viewCount, upvoteCount := c.upvoteCount)
  }

  /** getStartupsWithMetrics: the public listing with every startup's counts
      refreshed; the length and the total are kept */
  function GetStartupsWithMetrics(t: Table, list: Lister, q: StartupQuery): (r: Result<JsonResponse<StartupList>, string>)
    ensures r.Success? <==> ListPublic(t, list, q).Success?
    ensures r.Success? ==>
      var listed := ListPublic(t, list, q).value;
      && r.value.successful && r.value.message == WithMetricsRetrieved && r.value.data.Some?
      && |r.value.data.value.startups| == |listed.startups|
      && r.value.data.value.total == listed.total
      && forall i :: 0 <= i < |listed.startups| ==>
           r.value.data.value.startups[i] == WithMetrics(t, listed.startups[i])
  {
    var result :- ListPublic(t, list, q);
    var enhanced := seq(|result.startups|, i requires 0 <= i < |result.startups| => WithMetrics(t, result.startups[i]));
    Success(Ok(WithMetricsRetrieved, StartupList(enhanced, result.total)))
  }

  /** The query of searchStartups: the search term, overlaid by the given
      filters, which win where both set a property */
  function SearchQuery(searchQuery: string, filters: Option<StartupQuery>): (q: StartupQuery)
    ensures filters.None? ==> q == NoQuery.(searchQuery := Some(searchQuery))
    ensures filters.Some? ==>
      q == filters.value.(searchQuery := if filters.value.searchQuery.Some? then filters.value.searchQuery else Some(searchQuery))
  {
    match filters
    case None => NoQuery.(searchQuery := Some(searchQuery))
    case Some(f) => f.(searchQuery := if f.searchQuery.Some? then f.searchQuery else Some(searchQuery))
  }

  function SearchStartups(t: Table, list: Lister, searchQuery: string, filters: Option<StartupQuery>): (r: Result<JsonResponse<StartupList>, string>)
    ensures r == GetPublicStartups(t, list, SearchQuery(searchQuery, filters))
  {
    GetPublicStartups(t, list, SearchQuery(searchQuery, filters))
  }

  /** The query of getTrendingStartups: the limit and offset 0 */
  function TrendingQuery(limit: int): (q: StartupQuery)
    ensures q == NoQuery.(limit := Some(limit), offset := Some(0))
  {
    NoQuery.(limit := Some(limit), offset := Some(0))
  }

  /** The query of getStartupsBySector */
  function SectorQuery(sector: string, limit: Option<int>): (q: StartupQuery)
    ensures q == NoQuery.(sector := Some(sector), limit := Some(limit.GetOr(DefaultListLimit)), offset := Some(0))
  {
    NoQuery.(sector := Some(sector), limit := Some(limit.GetOr(DefaultListLimit)), offset := Some(0))
  }

  /** The query of getStartupsByStage */
  function StageQuery(stage: string, limit: Option<int>): (q: StartupQuery)
    ensures q == NoQuery.(stage := Some(stage), limit := Some(limit.GetOr(DefaultListLimit)), offset := Some(0))
  {
    NoQuery.(stage := Some(stage), limit := Some(limit.GetOr(DefaultListLimit)), offset := Some(0))
  }

  function GetStartupsBySector(t: Table, list: Lister, sector: string, limit: Option<int>): (r: Result<JsonResponse<StartupList>, string>)
    ensures r == GetPublicStartups(t, list, SectorQuery(sector, limit))
  {
    GetPublicStartups(t, list, SectorQuery(sector, limit))
  }

  function GetStartupsByStage(t: Table, list: Lister, stage: string, limit: Option<int>): (r: Result<JsonResponse<StartupList>, string>)
    ensures r == GetPublicStartups(t, list, StageQuery(stage, limit))
  {
    GetPublicStartups(t, list, StageQuery(stage, limit))
  }

  /** getTrendingStartups: the listing for the limit, sorted by score, cut
      to the limit; the total counts the listing before the cut */
  function GetTrendingStartups(t: Table, list: Lister, limit: Option<int>): (r: Result<JsonResponse<StartupList>, string>)
    ensures r.Success? <==> ListPublic(t, list, TrendingQuery(limit.GetOr(DefaultTrendingLimit))).Success?
    ensures r.Success? ==> r.value.successful && r.value.message == TrendingRetrieved && r.value.data.Some?
    ensures r.Success? && r.value.data.Some? ==>
      var listed := ListPublic(t, list, TrendingQuery(limit.GetOr(DefaultTrendingLimit))).value.startups;
      var out := r.value.data.value;
      && SortedByScore(out.startups)
      && out.total == |listed|
      && |out.startups| == SliceEnd(|listed|, limit.GetOr(DefaultTrendingLimit))
      && multiset(out.startups) <= multiset(listed)
      && out.startups == SortByScore(listed)[..|out.startups|]
  {
    var lim := limit.GetOr(DefaultTrendingLimit);
    var result :- GetPublicStartups(t, list, TrendingQuery(lim));
    var sorted := SortByScore(result.data.value.startups);
    var kept := sorted[..SliceEnd(|sorted|, lim)];
    SortedPrefix(sorted, |kept|);
    PrefixSubMultiset(sorted, |kept|);
    Success(Ok(TrendingRetrieved, StartupList(kept, |sorted|)))
  }

  // ---------------------------------------------------------------------
  // Lemmas

  /** The sector, stage and plain search listings filter on approval and on
      their one criterion, which an empty text drops; the search term is
      lower-cased and matched against the lower-cased name and description */
  lemma SingleCriterionFilters(term: string, sector: string, stage: string, limit: Option<int>)
    ensures PublicClauses(SectorQuery(sector, limit)) ==
      [ApprovedClause] + (if sector != "" then ["{Sector} = \"" + sector + "\""] else [])
    ensures PublicClauses(StageQuery(stage, limit)) ==
      [ApprovedClause] + (if stage != "" then ["{Stage} = \"" + stage + "\""] else [])
    ensures PublicClauses(SearchQuery(term, None)) ==
      [ApprovedClause] + (if term != "" then
        ["OR(FIND(\"" + Text.Lower(term) + "\", LOWER({Name})) > 0, FIND(\"" + Text.Lower(term) + "\", LOWER({Description})) > 0)"]
      else [])
  {
  }

  lemma PrefixSubMultiset<T>(s: seq<T>, n: nat)
    requires n <= |s|
    ensures multiset(s[..n]) <= multiset(s)
  {
    assert s == s[..n] + s[n..];
  }

  /** The public read never shows a startup that is not approved, and shows
      every approved one */
  lemma OnlyApprovedVisible(t: Table, id: string)
    requires id in t
    ensures GetStartupById(t, id).successful <==> t[id].fields.status == "approved"
  {
  }

  /** A fresh submission is pending, so it is not visible until approved */
  lemma SubmissionNotVisibleUntilApproved(t: Table, s: Submission, now: string, id: string)
    ensures var w := SubmitStartup(t, s, now, Some(id));
      GetStartupById(w.table, id) == Err(NotAvailable)
  {
  }

  /** Metrics are read from the table where it has the startup, and every
      other field is kept */
  lemma MetricsFromTable(t: Table, list: Lister, q: StartupQuery, i: int)
    requires GetStartupsWithMetrics(t, list, q).Success?
    requires 0 <= i < |ListPublic(t, list, q).value.startups|
    ensures var before := ListPublic(t, list, q).value.startups[i];
      var after := GetStartupsWithMetrics(t, list, q).value.data.value.startups[i];
      && after.(viewCount := before.viewCount, upvoteCount := before.upvoteCount) == before
      && (before.id in t ==> GetStartupAnalytics(t, before.id) == Success(Counts(after.viewCount, after.upvoteCount)))
      && (before.id !in t ==> after == before)
  {
  }

  /** In the search query the filters win, and a filter-free search asks for
      the term alone */
  lemma SearchFiltersWin(term: string, other: string, sector: string)
    ensures SearchQuery(term, Some(NoQuery.(searchQuery := Some(other)))).searchQuery == Some(other)
    ensures SearchQuery(term, Some(NoQuery.(sector := Some(sector)))) ==
      NoQuery.(searchQuery := Some(term), sector := Some(sector))
    ensures SearchQuery(term, None).searchQuery == Some(term)
  {
  }

  /** Every trending startup comes from the listing, none twice more often
      than listed, and the first one has the highest score */
  lemma TrendingTopIsBest(t: Table, list: Lister, limit: Option<int>)
    requires GetTrendingStartups(t, list, limit).Success?
    requires |GetTrendingStartups(t, list, limit).value.data.value.startups| > 0
    ensures var listed := ListPublic(t, list, TrendingQuery(limit.GetOr(DefaultTrendingLimit))).value.startups;
      var top := GetTrendingStartups(t, list, limit).value.data.value.startups[0];
      && top in listed
      && forall k :: 0 <= k < |listed| ==> Score(listed[k]) <= Score(top)
  {
    var listed := ListPublic(t, list, TrendingQuery(limit.GetOr(DefaultTrendingLimit))).value.startups;
    var sorted := SortByScore(listed);
    var top := sorted[0];
    assert top in multiset(listed);
    forall k | 0 <= k < |listed| ensures Score(listed[k]) <= Score(top) {
      assert listed[k] in multiset(sorted);
      var j :| 0 <= j < |sorted| && sorted[j] == listed[k];
    }
  }

  /** Negative limits count from the end, as slice does: a limit of -1 drops
      the lowest-scored startup */
  lemma NegativeLimitDropsFromEnd(len: nat)
    requires len > 0
    ensures SliceEnd(len, -1) == len - 1
    ensures SliceEnd(len, 0) == 0
  {
  }
}
