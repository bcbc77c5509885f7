/** The startups table (src/modules/startups/startup.repository.ts): the
    mapping between submissions, rows and the two views of a startup, the
    filter formulas of the two listings, and the single-row operations.

    The table is a map from record id to row. The listing endpoint, which
    evaluates filter formulas the model does not interpret, is the parameter
    `list`: given the table and the listing options, a transport failure, a
    null result or a page of rows. Timestamps are given as `now`, already
    formatted. */
module Repository {
  import opened Wrappers
  import opened Text
  import opened Airtable
  import opened AuthTypes
  import opened StartupTypes

  type Table = map<string, AirtableRecord<StartupFields>>

  type Lister = (Table, ListOptions) -> Result<Option<ListResponse<StartupFields>>, string>

  /** A result together with the table after the operation */
  datatype Written<T> = Written(result: T, table: Table)

  const NotFound := "Startup not found"
  const CreateFailed := "Failed to create startup record"

  /** Every row is stored under its own id */
  predicate WellFormed(t: Table) {
    forall k :: k in t ==> t[k].id == k
  }

  // ---------------------------------------------------------------------
  // Field mapping

  /** Stored tags: each tag trimmed and lower-cased, joined by ", ";
      absent tags give "" */
  function EncodeTags(tags: Option<seq<string>>): (r: string)
    ensures tags.None? || tags == Some([]) ==> r == ""
    ensures tags.Some? && |tags.value| == 1 ==> r == Lower(Trim(tags.value[0]))
    ensures tags.Some? && |tags.value| > 1 ==> r != ""
  {
    var ts := tags.GetOr([]);
    var stored := seq(|ts|, i requires 0 <= i < |ts| => Lower(Trim(ts[i])));
    assert |stored| > 1 ==> Join(stored, ", ") == stored[0] + ", " + Join(stored[1..], ", ");
    Join(stored, ", ")
  }

  /** Read tags: the stored text split on ',' with each piece trimmed; a
      text with no comma is one tag */
  function DecodeTags(text: string): (r: seq<string>)
    ensures |r| == |Split(text, ',')| > 0
    ensures forall i :: 0 <= i < |r| ==> r[i] == Trim(Split(text, ',')[i])
  {
    var pieces := Split(text, ',');
    seq(|pieces|, i requires 0 <= i < |pieces| => Trim(pieces[i]))
  }

  /** What the store keeps of a written text cell: an empty text is
      dropped, like an unset one */
  function KeptText(written: Option<string>): (kept: Option<string>)
    ensures kept.None? <==> written.None? || written == Some("")
    ensures kept.Some? ==> kept == written
  {
    if written == Some("") then None else written
  }

  /** The cells the store keeps of a written row. The store omits empty
      cells from the records it returns: an empty optional text and an
      unticked student-build box read back absent. The required texts are
      validated non-empty before they are written, and empty notes are never
      written. */
  function Stored(f: StartupFields): (g: StartupFields)
    ensures g.tags.None? <==> f.tags.None? || f.tags == Some("")
    ensures g.tags.Some? ==> g.tags == f.tags
    ensures g.studentBuild.None? <==> f.studentBuild != Some(true)
    ensures g.studentBuild.Some? ==> g.studentBuild == f.studentBuild
    ensures g.website == KeptText(f.website) && g.logoUrl == KeptText(f.logoUrl)
    ensures g.linkedinUrl == KeptText(f.linkedinUrl) && g.twitterUrl == KeptText(f.twitterUrl)
    ensures g.(tags := f.tags, studentBuild := f.studentBuild, website := f.website,
               logoUrl := f.logoUrl, linkedinUrl := f.linkedinUrl, twitterUrl := f.twitterUrl) == f
  {
    var build := match f.studentBuild
      case Some(true) => f.studentBuild
      case _ => None;
    f.(tags := KeptText(f.tags), studentBuild := build, website := KeptText(f.website),
       logoUrl := KeptText(f.logoUrl), linkedinUrl := KeptText(f.linkedinUrl),
       twitterUrl := KeptText(f.twitterUrl))
  }

  /** The tags of a row as the public view reads them: an absent cell is
      no tags, a present one its pieces */
  function ReadTags(cell: Option<string>): (r: seq<string>)
    ensures cell.None? ==> r == []
    ensures cell.Some? ==> r == DecodeTags(cell.value) && |r| > 0
  {
    match cell
    case None => []
    case Some(text) => DecodeTags(text)
  }

  /** The row written for a new submission: pending, with both counts zero
      and both timestamps `now` */
  function MapSubmission(s: Submission, now: string): (f: StartupFields)
    ensures f.status == StatusText(Pending) && f.viewCount == Some(0) && f.upvoteCount == Some(0)
    ensures f.tags == Some(EncodeTags(s.tags)) && f.studentBuild == Some(s.isStudentBuild)
    ensures f.adminNotes.None?
    ensures f.createdAt == now && f.updatedAt == now
    ensures f.contactEmail == s.email && f.pitchDeck == s.pitchDeck
    ensures f.website == s.website && f.logoUrl == s.logoUrl
    ensures f.linkedinUrl == s.linkedinUrl && f.twitterUrl == s.twitterUrl
    ensures f.stage == StageText(s.stage) && f.founderGender == GenderText(s.founderGender)
  {
    StartupFields(
      s.name, s.description, s.website, s.pitchDeck, s.sector, StageText(s.stage), s.country,
      GenderText(s.founderGender), Some(s.isStudentBuild), Some(EncodeTags(s.tags)), s.founderName, s.email,
      s.logoUrl, s.linkedinUrl, s.twitterUrl, StatusText(Pending), Some(0), Some(0), None, now, now)
  }

  /** The public view of a row; an absent count reads as 0 and an absent
      tags cell as no tags */
  function MapToStartup(r: AirtableRecord<StartupFields>): (d: Startup)
    ensures d.id == r.id && d.status == r.fields.status
    ensures d.viewCount == r.fields.viewCount.GetOr(0) && d.upvoteCount == r.fields.upvoteCount.GetOr(0)
    ensures d.tags == ReadTags(r.fields.tags) && (d.tags == [] <==> r.fields.tags.None?)
    ensures d.isStudentBuild == r.fields.studentBuild && d.website == r.fields.website
  {
    var f := r.fields;
    Startup(
      r.id, f.name, f.description, f.website, f.sector, f.stage, f.country, f.founderGender,
      f.studentBuild, ReadTags(f.tags), f.founderName, f.logoUrl, f.linkedinUrl, f.twitterUrl,
      f.viewCount.GetOr(0), f.upvoteCount.GetOr(0), f.createdAt, f.status)
  }

  /** The admin view: the public view plus the four private cells */
  function MapToAdmin(r: AirtableRecord<StartupFields>): (d: AdminStartup)
    ensures d.startup == MapToStartup(r)
    ensures d.contactEmail == r.fields.contactEmail && d.pitchDeck == r.fields.pitchDeck
    ensures d.adminNotes == r.fields.adminNotes && d.updatedAt == r.fields.updatedAt
  {
    AdminStartup(MapToStartup(r), r.fields.contactEmail, r.fields.pitchDeck, r.fields.adminNotes, r.fields.updatedAt)
  }

  /** The public view as mapAirtableToStartup computes it: `split` is called
      on the tags cell unguarded, so a row without tags throws (None). When
      it does not throw there is at least one piece, so the `|| []`
      fallback never applies. */
  function MapToStartupAsWritten(r: AirtableRecord<StartupFields>): (d: Option<Startup>)
    ensures d.None? <==> r.fields.tags.None?
    ensures d.Some? ==> d.value == MapToStartup(r) && |d.value.tags| > 0
  {
    if r.fields.tags.None? then None else Some(MapToStartup(r))
  }

  // ---------------------------------------------------------------------
  // Filter formulas

  const ApprovedClause := "{Status} = \"approved\""

  function BoolText(b: bool): string {
    if b then "true" else "false"
  }

  /** One clause when the filter is given (JavaScript truthiness) */
  function ClauseIf(o: Option<string>, clause: string -> string): (r: seq<string>)
    ensures |r| == (if Truthy(o) then 1 else 0)
  {
    if Truthy(o) then [clause(o.value)] else []
  }

  /** The clauses of the public filter, in their fixed order */
  function PublicClauses(q: StartupQuery): (r: seq<string>)
    ensures |r| > 0 && r[0] == ApprovedClause
    ensures |r| == 1 <==>
      (!Truthy(q.sector) && !Truthy(q.stage) && !Truthy(q.country) && !Truthy(q.founderGender)
       && q.isStudentBuild.None? && !Truthy(q.tags) && !Truthy(q.searchQuery))
  {
    [ApprovedClause]
    + ClauseIf(q.sector, v => "{Sector} = \"" + v + "\"")
    + ClauseIf(q.stage, v => "{Stage} = \"" + v + "\"")
    + ClauseIf(q.country, v => "{Country} = \"" + v + "\"")
    + ClauseIf(q.founderGender, v => "{Founder Gender} = \"" + v + "\"")
    + (if q.isStudentBuild.Some? then ["{Student Build} = " + BoolText(q.isStudentBuild.value)] else [])
    + ClauseIf(q.tags, v => "FIND(\"" + v + "\", ARRAYJOIN({Tags}, \",\")) > 0")
    + ClauseIf(q.searchQuery, v =>
        var term := Lower(v);
        "OR(FIND(\"" + term + "\", LOWER({Name})) > 0, FIND(\"" + term + "\", LOWER({Description})) > 0)")
  }

  function BuildPublicFilter(q: StartupQuery): (f: string)
    ensures StartsWith(f, "AND(" + ApprovedClause) && f[|f| - 1] == ')'
  {
    var clauses := PublicClauses(q);
    assert Join(clauses, ", ") == ApprovedClause + Join(clauses, ", ")[|ApprovedClause|..] by {
      JoinStartsWithFirst(clauses, ", ");
    }
    var f := "AND(" + Join(clauses, ", ") + ")";
    assert f[..|"AND(" + ApprovedClause|] == "AND(" + ApprovedClause;
    f
  }

  /** The admin filter: "" without a status, otherwise one status clause */
  function BuildAdminFilter(q: AdminQuery): (f: string)
    ensures f == "" <==> q.status.None?
    ensures q.status.Some? ==> StartsWith(f, "AND({Status} = \"") && f[|f| - 1] == ')'
  {
    if q.status.Some? then "AND({Status} = \"" + StatusText(q.status.value) + "\")" else ""
  }

  /** The listing options both listings send: the filter, newest first, the
      limit as the maximum and the offset as text */
  function ListingOptions(filter: string, limit: Option<int>, offset: Option<int>): (o: ListOptions)
    ensures o.filterByFormula == Some(filter) && o.maxRecords == limit
    ensures o.sort == Some([SortField("Created At", "desc")])
    ensures o.offset.Some? <==> offset.Some?
    ensures offset.Some? ==> o.offset.value == IntToString(offset.value)
  {
    ListOptions(Some(filter), limit, Some([SortField("Created At", "desc")]),
      if offset.Some? then Some(IntToString(offset.value)) else None)
  }

  // ---------------------------------------------------------------------
  // Listings and single-row operations

  /** listPublicStartups: a transport failure propagates, a null page is
      the empty list, otherwise every row in its public view and their count */
  function ListPublic(t: Table, list: Lister, q: StartupQuery): (r: Result<StartupList, string>)
    ensures var page := list(t, ListingOptions(BuildPublicFilter(q), q.limit, q.offset));
      && (r.Failure? <==> page.Failure?)
      && (page.Success? && page.value.None? ==> r == Success(StartupList([], 0)))
      && (page.Success? && page.value.Some? ==>
            var rows := page.value.value.records;
            && r.value.total == |rows| == |r.value.startups|
            && forall i :: 0 <= i < |rows| ==> r.value.startups[i] == MapToStartup(rows[i]))
  {
    var page :- list(t, ListingOptions(BuildPublicFilter(q), q.limit, q.offset));
    if page.None? then Success(StartupList([], 0))
    else
      var rows := page.value.records;
      Success(StartupList(seq(|rows|, i requires 0 <= i < |rows| => MapToStartup(rows[i])), |rows|))
  }

  /** listAdminStartups: as the public listing, with the admin filter and view */
  function ListAdmin(t: Table, list: Lister, q: AdminQuery): (r: Result<AdminStartupList, string>)
    ensures var page := list(t, ListingOptions(BuildAdminFilter(q), q.limit, q.offset));
      && (r.Failure? <==> page.Failure?)
      && (page.Success? && page.value.None? ==> r == Success(AdminStartupList([], 0)))
      && (page.Success? && page.value.Some? ==>
            var rows := page.value.value.records;
            && r.value.total == |rows| == |r.value.startups|
            && forall i :: 0 <= i < |rows| ==> r.value.startups[i] == MapToAdmin(rows[i]))
  {
    var page :- list(t, ListingOptions(BuildAdminFilter(q), q.limit, q.offset));
    if page.None? then Success(AdminStartupList([], 0))
    else
      var rows := page.value.records;
      Success(AdminStartupList(seq(|rows|, i requires 0 <= i < |rows| => MapToAdmin(rows[i])), |rows|))
  }

  /** getStartupById(id): the public view, or null for a missing id */
  function GetStartup(t: Table, id: string): (r: Option<Startup>)
    ensures r.Some? <==> id in t
    ensures r.Some? ==> r.value == MapToStartup(t[id])
  {
    if id in t then Some(MapToStartup(t[id])) else None
  }

  /** getStartupById(id, true): the admin view, or null for a missing id */
  function GetAdminStartup(t: Table, id: string): (r: Option<AdminStartup>)
    ensures r.Some? <==> id in t
    ensures r.Some? ==> r.value == MapToAdmin(t[id]) && r.value.startup == GetStartup(t, id).value
  {
    if id in t then Some(MapToAdmin(t[id])) else None
  }

  /** updateRecord on the table: a missing id is a null result and changes
      nothing; otherwise the patch is applied to that row alone */
  function Patch(t: Table, id: string, p: FieldsPatch): (w: Written<Option<AirtableRecord<StartupFields>>>)
    ensures id !in t ==> w == Written(None, t)
    ensures id in t ==> w.result == Some(t[id].(fields := ApplyPatch(t[id].fields, p)))
    ensures id in t ==> w.table == t[id := w.result.value]
  {
    if id !in t then Written(None, t)
    else
      var row := t[id].(fields := ApplyPatch(t[id].fields, p));
      Written(Some(row), t[id := row])
  }

  /** createStartup. `newId` is the id the store gives the new row, or None
      when the create call returns null. */
  function CreateStartup(t: Table, s: Submission, now: string, newId: Option<string>): (w: Written<Result<string, string>>)
    ensures newId.None? ==> w == Written(Failure(CreateFailed), t)
    ensures newId.Some? ==>
      && w.result == Success(newId.value)
      && w.table == t[newId.value := AirtableRecord(newId.value, now, Stored(MapSubmission(s, now)))]
  {
    match newId
    case None => Written(Failure(CreateFailed), t)
    case Some(id) => Written(Success(id), t[id := AirtableRecord(id, now, Stored(MapSubmission(s, now)))])
  }

  /** The patch updateStartup sends: the status, the update time and the
      notes when they are non-empty */
  function StatusPatch(status: StartupStatus, adminNotes: Option<string>, now: string): (p: FieldsPatch)
    ensures p.status == Some(StatusText(status)) && p.updatedAt == Some(now)
    ensures p.adminNotes == (if Truthy(adminNotes) then adminNotes else None)
    ensures p.viewCount.None? && p.upvoteCount.None?
  {
    FieldsPatch(Some(StatusText(status)), Some(now), if Truthy(adminNotes) then adminNotes else None, None, None)
  }

  /** updateStartup: the admin view of the updated row, or null */
  function UpdateStartup(t: Table, id: string, status: StartupStatus, adminNotes: Option<string>, now: string): (w: Written<Option<AdminStartup>>)
    ensures w.table == Patch(t, id, StatusPatch(status, adminNotes, now)).table
    ensures w.result.Some? <==> id in t
    ensures w.result.Some? ==> w.result == GetAdminStartup(w.table, id)
  {
    var p := Patch(t, id, StatusPatch(status, adminNotes, now));
    match p.result
    case None => Written(None, p.table)
    case Some(row) => Written(Some(MapToAdmin(row)), p.table)
  }

  /** incrementViewCount: "Startup not found" for a missing id; otherwise the
      view count read (absent as 0) plus one is written */
  function IncrementViewCount(t: Table, id: string): (w: Written<Result<(), string>>)
    ensures id !in t ==> w == Written(Failure(NotFound), t)
    ensures id in t ==> (w.result.Success?
      && w.table == Patch(t, id, EmptyPatch.(viewCount := Some(t[id].fields.viewCount.GetOr(0) + 1))).table)
  {
    if id !in t then Written(Failure(NotFound), t)
    else
      var count := t[id].fields.viewCount.GetOr(0);
      Written(Success(()), Patch(t, id, EmptyPatch.(viewCount := Some(count + 1))).table)
  }

  /** updateUpvoteCount: writes the count; the null result of a missing id
      is ignored */
  function UpdateUpvoteCount(t: Table, id: string, count: int): (w: Table)
    ensures w == Patch(t, id, EmptyPatch.(upvoteCount := Some(count))).table
  {
    Patch(t, id, EmptyPatch.(upvoteCount := Some(count))).table
  }

  // ---------------------------------------------------------------------
  // Lemmas

  lemma {:induction false} JoinStartsWithFirst(parts: seq<string>, sep: string)
    requires |parts| > 0
    ensures StartsWith(Join(parts, sep), parts[0])
  {
    if |parts| > 1 {
      assert Join(parts, sep) == parts[0] + (sep + Join(parts[1..], sep));
    }
  }

  /** Trimming and lower-casing introduce no comma */
  lemma TrimLowerKeepsNoComma(x: string)
    requires ',' !in x
    ensures ',' !in Lower(Trim(x))
  {
    var s := TrimStart(x);
    forall i | 0 <= i < |s| ensures s[i] != ',' {
      assert s[i] == x[|x| - |s| + i];
    }
    var t := TrimEnd(s);
    forall i | 0 <= i < |t| ensures t[i] != ',' {
      assert t[i] == s[i];
    }
    var l := Lower(t);
    forall i | 0 <= i < |l| ensures l[i] != ',' {
      assert l[i] == LowerChar(t[i]);
    }
  }

  /** Trimmed, lower-cased comma-free tags hold no comma */
  lemma NormalisedHaveNoComma(tags: seq<string>)
    requires forall i :: 0 <= i < |tags| ==> ',' !in tags[i]
    ensures var stored := seq(|tags|, i requires 0 <= i < |tags| => Lower(Trim(tags[i])));
      forall i :: 0 <= i < |stored| ==> ',' !in stored[i]
  {
    forall i | 0 <= i < |tags| ensures ',' !in Lower(Trim(tags[i])) {
      TrimLowerKeepsNoComma(tags[i]);
    }
  }

  /** A text whose pieces are the parts, each after the first with one
      leading space, reads back as the parts when a trim leaves every part
      alone with or without that space */
  lemma DecodePieces(text: string, parts: seq<string>)
    requires |parts| > 0
    requires var pieces := Split(text, ',');
      && |pieces| == |parts| && pieces[0] == parts[0]
      && forall i :: 0 < i < |parts| ==> pieces[i] == " " + parts[i]
    requires forall i :: 0 <= i < |parts| ==> Trim(parts[i]) == parts[i] && Trim(" " + parts[i]) == parts[i]
    ensures DecodeTags(text) == parts
  {
    MapPieces(Split(text, ','), parts, Trim);
  }

  /** The pieces of comma-free parts joined with ", ", one by one */
  lemma CommaSpacePieces(parts: seq<string>)
    requires |parts| > 0
    requires forall i :: 0 <= i < |parts| ==> ',' !in parts[i]
    ensures var pieces := Split(Join(parts, ", "), ',');
      && |pieces| == |parts| && pieces[0] == parts[0]
      && forall i :: 0 < i < |parts| ==> pieces[i] == " " + parts[i]
  {
    SplitJoinCommaSpace(parts);
  }

  /** A map that fixes each part, with or without one leading space, takes
      the pieces of a ", "-joined text back to the parts */
  lemma MapPieces(pieces: seq<string>, parts: seq<string>, f: string -> string)
    requires |parts| > 0 && |pieces| == |parts| && pieces[0] == parts[0]
    requires forall i :: 0 < i < |parts| ==> pieces[i] == " " + parts[i]
    requires forall i :: 0 <= i < |parts| ==> f(parts[i]) == parts[i] && f(" " + parts[i]) == parts[i]
    ensures seq(|pieces|, i requires 0 <= i < |pieces| => f(pieces[i])) == parts
  {
  }

  /** Round trip of tags: comma-free tags are read back trimmed and
      lower-cased, each one, in order */
  lemma TagsRoundTrip(tags: seq<string>)
    requires |tags| > 0
    requires forall i :: 0 <= i < |tags| ==> ',' !in tags[i]
    ensures DecodeTags(EncodeTags(Some(tags))) == Normalised(tags)
  {
    var stored := Normalised(tags);
    NormalisedHaveNoComma(tags);
    forall i | 0 <= i < |stored| ensures Trim(stored[i]) == stored[i] && Trim(" " + stored[i]) == stored[i] {
      TrimLowerTrim(tags[i]);
      TrimSpaceLowerTrim(tags[i]);
    }
    assert EncodeTags(Some(tags)) == Join(stored, ", ");
    CommaSpacePieces(stored);
    DecodePieces(Join(stored, ", "), stored);
  }

  /** A text with no comma reads back as one tag, trimmed */
  lemma DecodeOneTag(text: string)
    requires ',' !in text
    ensures DecodeTags(text) == [Trim(text)]
  {
    SplitNoSeparator(text, ',');
  }

  /** The trimmed, lower-cased tags */
  function Normalised(tags: seq<string>): (r: seq<string>)
    ensures |r| == |tags|
    ensures forall i :: 0 <= i < |tags| ==> r[i] == Lower(Trim(tags[i]))
  {
    seq(|tags|, i requires 0 <= i < |tags| => Lower(Trim(tags[i])))
  }

  /** Comma-free tags that are not stored as "" */
  predicate StorableTags(tags: Option<seq<string>>) {
    && tags.Some? && |tags.value| > 0
    && (forall i :: 0 <= i < |tags.value| ==> ',' !in tags.value[i])
    && EncodeTags(tags) != ""
  }

  /** Corrected read of a new record: a submission whose tags are stored as
      "" (absent or empty tag lists among them) reads back with no tags,
      since the store drops the empty cell; comma-free tags read back
      trimmed and lower-cased, in order */
  lemma EmptyTagsReadBack(t: Table, s: Submission, now: string, id: string)
    ensures EncodeTags(None) == "" && EncodeTags(Some([])) == ""
    ensures var d := GetStartup(CreateStartup(t, s, now, Some(id)).table, id);
      && d.Some?
      && (d.value.tags == [] <==> EncodeTags(s.tags) == "")
      && (StorableTags(s.tags) ==> d.value.tags == Normalised(s.tags.value))
  {
    if StorableTags(s.tags) {
      TagsRoundTrip(s.tags.value);
    }
  }

  /** As written, the read of a new record throws exactly when its tags were
      stored as "", which includes every submission without tags; tagged
      submissions read back with their tags normalised */
  lemma TaglessSubmissionUnreadableAsWritten(t: Table, s: Submission, now: string, id: string)
    ensures var row := CreateStartup(t, s, now, Some(id)).table[id];
      && (MapToStartupAsWritten(row).None? <==> EncodeTags(s.tags) == "")
      && (s.tags.None? || s.tags == Some([]) ==> MapToStartupAsWritten(row).None?)
      && (StorableTags(s.tags) ==>
            MapToStartupAsWritten(row) == Some(MapToStartup(row))
            && MapToStartupAsWritten(row).value.tags == Normalised(s.tags.value))
  {
    if StorableTags(s.tags) {
      TagsRoundTrip(s.tags.value);
    }
  }

  /** A new submission reads back as pending, never viewed or upvoted, with
      its tags normalised, its student-build box present only when ticked and
      its website present only when given non-empty */
  lemma NewRecordReadsBack(t: Table, s: Submission, now: string, id: string)
    ensures var w := CreateStartup(t, s, now, Some(id));
      && GetStartup(w.table, id).Some?
      && var d := GetStartup(w.table, id).value;
      && d.status == "pending" && d.viewCount == 0 && d.upvoteCount == 0 && d.id == id
      && d.tags == (if EncodeTags(s.tags) == "" then [] else DecodeTags(EncodeTags(s.tags)))
      && d.isStudentBuild == (if s.isStudentBuild then Some(true) else None)
      && (d.website.None? <==> s.website.None? || s.website == Some(""))
      && (d.website.Some? ==> d.website == s.website)
  {
  }

  /** The admin view keeps every public field */
  lemma AdminExtendsPublic(t: Table, id: string)
    ensures GetAdminStartup(t, id).Some? <==> GetStartup(t, id).Some?
    ensures GetAdminStartup(t, id).Some? ==> GetAdminStartup(t, id).value.startup == GetStartup(t, id).value
  {
  }

  /** Without filters the public formula is the approved clause alone; each
      given filter adds exactly one clause, a false student-build flag included */
  lemma PublicFilterClauses(q: StartupQuery)
    ensures BuildPublicFilter(NoQuery) == "AND({Status} = \"approved\")"
    ensures |PublicClauses(q)| == 1 + (if Truthy(q.sector) then 1 else 0) + (if Truthy(q.stage) then 1 else 0)
      + (if Truthy(q.country) then 1 else 0) + (if Truthy(q.founderGender) then 1 else 0)
      + (if q.isStudentBuild.Some? then 1 else 0) + (if Truthy(q.tags) then 1 else 0)
      + (if Truthy(q.searchQuery) then 1 else 0)
    ensures PublicClauses(q)[0] == ApprovedClause
    ensures PublicClauses(NoQuery.(isStudentBuild := Some(false))) == [ApprovedClause, "{Student Build} = false"]
  {
    assert PublicClauses(NoQuery) == [ApprovedClause];
    assert "{Student Build} = " + BoolText(false) == "{Student Build} = false";
  }

  /** The admin formula is empty exactly when no status is asked for, and
      otherwise names that status */
  lemma AdminFilterCharacterised(q: AdminQuery)
    ensures BuildAdminFilter(q) == "" <==> q.status.None?
    ensures q.status == Some(Pending) ==> BuildAdminFilter(q) == "AND({Status} = \"pending\")"
  {
  }

  /** Incrementing writes only the view count, which then reads as one more
      than before (an absent count as 0 + 1), and touches no other row */
  lemma IncrementReadsBack(t: Table, id: string, other: string)
    requires id in t && other != id
    ensures var after := IncrementViewCount(t, id).table;
      && id in after && after[id].id == t[id].id
      && after[id].fields == t[id].fields.(viewCount := Some(t[id].fields.viewCount.GetOr(0) + 1))
      && GetStartup(after, id).value.viewCount == GetStartup(t, id).value.viewCount + 1
      && GetStartup(after, id).value.(viewCount := 0) == GetStartup(t, id).value.(viewCount := 0)
      && (other in after <==> other in t) && (other in t ==> after[other] == t[other])
  {
  }

  /** An absent count is read as 1 after one increment */
  lemma IncrementFromAbsent(t: Table, id: string)
    requires id in t && t[id].fields.viewCount.None?
    ensures IncrementViewCount(t, id).table[id].fields.viewCount == Some(1)
  {
  }

  /** The status update leaves the counts and public fields other than the
      status unchanged, and empty notes do not erase stored notes */
  lemma UpdateKeepsOtherFields(t: Table, id: string, status: StartupStatus, now: string)
    requires id in t
    ensures var after := UpdateStartup(t, id, status, Some(""), now);
      && after.result.Some?
      && var a := after.result.value;
      && a.startup.status == StatusText(status) && a.updatedAt == now
      && a.adminNotes == t[id].fields.adminNotes
      && a.startup.(status := t[id].fields.status) == GetStartup(t, id).value
  {
  }

  /** Every write keeps each row under its own id */
  lemma WritesKeepWellFormed(t: Table, id: string, s: Submission, now: string, status: StartupStatus, notes: Option<string>, count: int)
    requires WellFormed(t)
    ensures WellFormed(CreateStartup(t, s, now, Some(id)).table)
    ensures WellFormed(UpdateStartup(t, id, status, notes, now).table)
    ensures WellFormed(IncrementViewCount(t, id).table)
    ensures WellFormed(UpdateUpvoteCount(t, id, count))
  {
  }
}
