/** View and contact tracking (src/modules/startups/startup.analytics.service.ts).
    Both are gated on the startup existing and being approved; only a
    tracked view writes to the table. The request metadata (user agent,
    address, referrer, requester details) is only logged, so it is not part
    of the model. */
module Analytics {
  import opened Wrappers
  import opened StartupTypes
  import opened Shared
  import opened Repository

  datatype Tracked = Tracked(response: JsonResponse<bool>, table: Table)

  const NotAvailableForViewing := "Startup not available for viewing"
  const NotAvailableForContact := "Startup not available for contact"
  const ViewTracked := "View tracked successfully"
  const ContactRecorded := "Contact request recorded successfully"

  /** The counts getStartupAnalytics reports */
  datatype Counts = Counts(viewCount: int, upvoteCount: int)

  /** trackView: a missing or non-approved startup is reported and nothing is
      written; otherwise the view count is incremented once */
  function TrackView(t: Table, startupId: string): (r: Tracked)
    ensures GetStartup(t, startupId).None? ==> r == Tracked(Err(NotFound), t)
    ensures GetStartup(t, startupId).Some? && GetStartup(t, startupId).value.status != ApprovedText ==>
      r == Tracked(Err(NotAvailableForViewing), t)
    ensures GetStartup(t, startupId).Some? && GetStartup(t, startupId).value.status == ApprovedText ==>
      r == Tracked(Ok(ViewTracked, true), IncrementViewCount(t, startupId).table)
  {
    match GetStartup(t, startupId)
    case None => Tracked(Err(NotFound), t)
    case Some(startup) =>
      if startup.status != ApprovedText then Tracked(Err(NotAvailableForViewing), t)
      else Tracked(Ok(ViewTracked, true), IncrementViewCount(t, startupId).table)
  }

  /** trackContactRequest: reads the admin view and writes nothing */
  function TrackContactRequest(t: Table, startupId: string): (r: JsonResponse<bool>)
    ensures GetAdminStartup(t, startupId).None? ==> r == Err(NotFound)
    ensures GetAdminStartup(t, startupId).Some? ==>
      r == (if GetAdminStartup(t, startupId).value.startup.status == ApprovedText
            then Ok(ContactRecorded, true) else Err(NotAvailableForContact))
  {
    match GetAdminStartup(t, startupId)
    case None => Err(NotFound)
    case Some(startup) =>
      if startup.startup.status != ApprovedText then Err(NotAvailableForContact)
      else Ok(ContactRecorded, true)
  }

  /** getStartupAnalytics: the counts of the public view, whatever the status;
      a missing startup throws "Startup not found" */
  function GetStartupAnalytics(t: Table, startupId: string): (r: Result<Counts, string>)
    ensures r.Failure? <==> startupId !in t
    ensures r.Failure? ==> r.error == NotFound
    ensures r.Success? ==>
      r.value == Counts(t[startupId].fields.viewCount.GetOr(0), t[startupId].fields.upvoteCount.GetOr(0))
  {
    match GetStartup(t, startupId)
    case None => Failure(NotFound)
    case Some(s) => Success(Counts(s.viewCount, s.upvoteCount))
  }

  // ---------------------------------------------------------------------
  // Lemmas

  /** A tracked view raises the reported view count by exactly one and
      leaves the upvote count alone; a refused one changes no count */
  lemma TrackViewCounts(t: Table, startupId: string)
    requires startupId in t
    ensures var after := TrackView(t, startupId);
      var before := GetStartupAnalytics(t, startupId).value;
      && GetStartupAnalytics(after.table, startupId).Success?
      && (after.response.successful ==>
            GetStartupAnalytics(after.table, startupId).value ==
              before.(viewCount := before.viewCount + 1))
      && (!after.response.successful ==> after.table == t)
  {
  }

  /** Views of other startups are never touched */
  lemma TrackViewIsLocal(t: Table, startupId: string, other: string)
    requires other != startupId
    ensures var after := TrackView(t, startupId).table;
      (other in after <==> other in t) && (other in t ==> after[other] == t[other])
  {
  }

  /** Contact tracking and view tracking agree on which startups they accept */
  lemma ContactAndViewGatedAlike(t: Table, startupId: string)
    ensures TrackContactRequest(t, startupId).successful == TrackView(t, startupId).response.successful
  {
  }
}
