/** Upvotes (src/modules/startups/startup.engagement.service.ts): an
    in-memory map from startup id to the set of users who upvoted it, kept
    alongside the stored upvote count of the startups table. Only approved
    startups can be upvoted. */
module Engagement {
  import opened Wrappers
  import opened StartupTypes
  import opened Shared
  import opened Repository

  /** The upvote store: startup id to the ids of the users who upvoted */
  type Upvotes = map<string, set<string>>

  /** The store a service starts with; initializeUpvoteStore loads nothing */
  const EmptyUpvotes: Upvotes := map[]

  datatype UpvoteData = UpvoteData(upvoted: bool, upvoteCount: int)

  /** The response together with the upvote store and the table afterwards */
  datatype Toggled = Toggled(response: JsonResponse<UpvoteData>, upvotes: Upvotes, table: Table)

  const NotAvailableForUpvoting := "Startup not available for upvoting"
  const UpvoteRemoved := "Upvote removed successfully"
  const UpvoteAdded := "Upvote added successfully"

  /** hasUserUpvoted */
  predicate HasUpvoted(u: Upvotes, startupId: string, userId: string) {
    startupId in u && userId in u[startupId]
  }

  function Max(a: int, b: int): int {
    if a >= b then a else b
  }

  /** toggleUpvote: the two gating errors change nothing; otherwise the user's
      upvote is flipped and the new count written to the table */
  function ToggleUpvote(t: Table, u: Upvotes, startupId: string, userId: string): (e: Toggled)
    ensures GetStartup(t, startupId).None? ==> e == Toggled(Err(NotFound), u, t)
    ensures GetStartup(t, startupId).Some? && GetStartup(t, startupId).value.status != ApprovedText ==>
      e == Toggled(Err(NotAvailableForUpvoting), u, t)
    ensures GetStartup(t, startupId).Some? && GetStartup(t, startupId).value.status == ApprovedText ==>
      var was := HasUpvoted(u, startupId, userId);
      var stored := GetStartup(t, startupId).value.upvoteCount;
      var written := if was then Max(0, stored - 1) else stored + 1;
      && e.response == Ok(if was then UpvoteRemoved else UpvoteAdded, UpvoteData(!was, written))
      && e.table == UpdateUpvoteCount(t, startupId, written)
      && (HasUpvoted(e.upvotes, startupId, userId) <==> !was)
      && (forall s, v :: s != startupId || v != userId ==>
            (HasUpvoted(e.upvotes, s, v) <==> HasUpvoted(u, s, v)))
  {
    match GetStartup(t, startupId)
    case None => Toggled(Err(NotFound), u, t)
    case Some(startup) =>
      if startup.status != ApprovedText then Toggled(Err(NotAvailableForUpvoting), u, t)
      else
        var voters := if startupId in u then u[startupId] else {};
        var was := userId in voters;
        var count := if was then Max(0, startup.upvoteCount - 1) else startup.upvoteCount + 1;
        var voters' := if was then voters - {userId} else voters + {userId};
        Toggled(
          Ok(if was then UpvoteRemoved else UpvoteAdded, UpvoteData(!was, count)),
          u[startupId := voters'],
          UpdateUpvoteCount(t, startupId, count))
  }

  /** getUpvoteCount: the stored count, or 0 for a missing startup or an
      absent count */
  function GetUpvoteCount(t: Table, startupId: string): (n: int)
    ensures startupId !in t ==> n == 0
    ensures startupId in t ==> n == t[startupId].fields.upvoteCount.GetOr(0)
  {
    match GetStartup(t, startupId)
    case None => 0
    case Some(s) => s.upvoteCount
  }

  // ---------------------------------------------------------------------
  // Lemmas

  /** A startup never toggled has no upvotes, whoever asks */
  lemma NeverToggledNotUpvoted(u: Upvotes, startupId: string, userId: string)
    requires startupId !in u
    ensures !HasUpvoted(u, startupId, userId)
    ensures !HasUpvoted(EmptyUpvotes, startupId, userId)
  {
  }

  /** After a toggle the count read back is the count reported */
  lemma ToggleCountReadsBack(t: Table, u: Upvotes, startupId: string, userId: string)
    requires ToggleUpvote(t, u, startupId, userId).response.successful
    ensures var e := ToggleUpvote(t, u, startupId, userId);
      GetUpvoteCount(e.table, startupId) == e.response.data.value.upvoteCount
  {
  }

  /** The written count is never negative when the stored one is not, and a
      removal never writes a negative count */
  lemma WrittenCountNonNegative(t: Table, u: Upvotes, startupId: string, userId: string)
    requires ToggleUpvote(t, u, startupId, userId).response.successful
    ensures var e := ToggleUpvote(t, u, startupId, userId);
      (GetUpvoteCount(t, startupId) >= 0 || !e.response.data.value.upvoted) ==> e.response.data.value.upvoteCount >= 0
  {
  }

  /** Toggling keeps the startup approved, so a second toggle is accepted */
  lemma ToggleKeepsApproval(t: Table, u: Upvotes, startupId: string, userId: string)
    requires ToggleUpvote(t, u, startupId, userId).response.successful
    ensures var e := ToggleUpvote(t, u, startupId, userId);
      GetStartup(e.table, startupId).Some? && GetStartup(e.table, startupId).value.status == ApprovedText
  {
  }

  /** Two consecutive toggles by the same user restore every user's upvote
      state, and restore the stored count when it agrees with the store (at
      least 1 when the user had upvoted, at least 0 otherwise). A count of 0
      with the user's upvote recorded comes back as 1. */
  lemma DoubleToggleRestores(t: Table, u: Upvotes, startupId: string, userId: string)
    requires ToggleUpvote(t, u, startupId, userId).response.successful
    ensures var e1 := ToggleUpvote(t, u, startupId, userId);
      var e2 := ToggleUpvote(e1.table, e1.upvotes, startupId, userId);
      && e2.response.successful
      && e2.response.data.value.upvoted != e1.response.data.value.upvoted
      && (forall s, v :: HasUpvoted(e2.upvotes, s, v) <==> HasUpvoted(u, s, v))
      && (GetUpvoteCount(t, startupId) >= (if HasUpvoted(u, startupId, userId) then 1 else 0) ==>
            GetUpvoteCount(e2.table, startupId) == GetUpvoteCount(t, startupId))
      && (GetUpvoteCount(t, startupId) == 0 && HasUpvoted(u, startupId, userId) ==>
            GetUpvoteCount(e2.table, startupId) == 1)
  {
    ToggleKeepsApproval(t, u, startupId, userId);
    var e1 := ToggleUpvote(t, u, startupId, userId);
    ToggleCountReadsBack(t, u, startupId, userId);
    ToggleCountReadsBack(e1.table, e1.upvotes, startupId, userId);
  }
}
