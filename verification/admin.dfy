/** The admin side of the directory (src/modules/startups/startup.admin.service.ts):
    list every startup in its admin view, change a startup's status and
    notes, and read one startup's admin view. */
module Admin {
  import opened Wrappers
  import opened StartupTypes
  import opened Shared
  import opened Repository

  const StartupUpdated := "Startup updated successfully"

  /** getAdminStartups: the repository listing, unchanged, under a success
      message; a failure of the listing propagates */
  function GetAdminStartups(t: Table, list: Lister, q: AdminQuery): (r: Result<JsonResponse<AdminStartupList>, string>)
    ensures r.Success? <==> ListAdmin(t, list, q).Success?
    ensures r.Success? ==> r.value == Ok(StartupsRetrieved, ListAdmin(t, list, q).value)
    ensures r.Failure? ==> r.error == ListAdmin(t, list, q).error
  {
    var result :- ListAdmin(t, list, q);
    Success(Ok(StartupsRetrieved, result))
  }

  /** updateStartup: forwards the status and notes to the repository;
      "Startup not found" without data when it returns null */
  function UpdateStartup(t: Table, id: string, status: StartupStatus, adminNotes: Option<string>, now: string): (r: Written<JsonResponse<AdminStartup>>)
    ensures r.table == Repository.UpdateStartup(t, id, status, adminNotes, now).table
    ensures id !in t ==> r.result == Err(NotFound)
    ensures id in t ==> r.result == Ok(StartupUpdated, GetAdminStartup(r.table, id).value)
  {
    var w := Repository.UpdateStartup(t, id, status, adminNotes, now);
    match w.result
    case None => Written(Err(NotFound), w.table)
    case Some(a) => Written(Ok(StartupUpdated, a), w.table)
  }

  /** getAdminStartupById: always the admin view; null for a missing id */
  function GetAdminStartupById(t: Table, id: string): (r: Option<AdminStartup>)
    ensures r.Some? <==> id in t
    ensures r.Some? ==> r.value == MapToAdmin(t[id]) && r.value.contactEmail == t[id].fields.contactEmail
  {
    GetAdminStartup(t, id)
  }

  // ---------------------------------------------------------------------
  // Lemmas

  /** An update on a missing id changes nothing */
  lemma UpdateMissingChangesNothing(t: Table, id: string, status: StartupStatus, notes: Option<string>, now: string)
    requires id !in t
    ensures UpdateStartup(t, id, status, notes, now) == Written(Err(NotFound), t)
  {
  }

  /** After an update the admin view read back carries the new status, and
      the notes given when they are non-empty */
  lemma UpdateReadsBack(t: Table, id: string, status: StartupStatus, notes: string, now: string)
    requires id in t && notes != ""
    ensures var w := UpdateStartup(t, id, status, Some(notes), now);
      && GetAdminStartupById(w.table, id).Some?
      && GetAdminStartupById(w.table, id).value.startup.status == StatusText(status)
      && GetAdminStartupById(w.table, id).value.adminNotes == Some(notes)
      && GetAdminStartupById(w.table, id).value.updatedAt == now
      && w.result.data == GetAdminStartupById(w.table, id)
  {
  }

  /** Approving a startup opens it to the public read */
  lemma ApprovalPublishes(t: Table, id: string, notes: Option<string>, now: string)
    requires id in t
    ensures var w := UpdateStartup(t, id, Approved, notes, now);
      GetStartup(w.table, id).Some? && GetStartup(w.table, id).value.status == ApprovedText
  {
  }
}
