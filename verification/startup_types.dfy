/** The startup data types (src/modules/startups/dto): the enums, the row
    fields stored in the startups table, the public and admin views of a
    startup, the submission and the two listing queries. */
module StartupTypes {
  import opened Wrappers

  datatype StartupStatus = Pending | Approved | Rejected

  datatype StartupStage = Idea | Prototype | Mvp | Growth | Scale

  datatype FounderGender = Male | Female | NonBinary | Mixed | PreferNotToSay

  /** The enum values as stored */
  function StatusText(s: StartupStatus): string {
    match s
    case Pending => "pending"
    case Approved => "approved"
    case Rejected => "rejected"
  }

  function StageText(s: StartupStage): string {
    match s
    case Idea => "idea"
    case Prototype => "prototype"
    case Mvp => "mvp"
    case Growth => "growth"
    case Scale => "scale"
  }

  function GenderText(g: FounderGender): string {
    match g
    case Male => "male"
    case Female => "female"
    case NonBinary => "non-binary"
    case Mixed => "mixed"
    case PreferNotToSay => "prefer-not-to-say"
  }

  /** The status text every public read, vote, view and contact requires */
  const ApprovedText := StatusText(Approved)

  /** The message of both listings */
  const StartupsRetrieved := "Startups retrieved successfully"

  /** A row of the startups table. The cells a submission may leave out
      (the website, the three profile links, the tags, the student-build box)
      and the cells the code may not have written (the counts, the notes)
      are `Option`s; None is an absent cell. The remaining texts are required
      non-empty on submission. */
  datatype StartupFields = StartupFields(
    name: string,
    description: string,
    website: Option<string>,
    pitchDeck: string,
    sector: string,
    stage: string,
    country: string,
    founderGender: string,
    studentBuild: Option<bool>,
    tags: Option<string>,
    founderName: string,
    contactEmail: string,
    logoUrl: Option<string>,
    linkedinUrl: Option<string>,
    twitterUrl: Option<string>,
    status: string,
    viewCount: Option<int>,
    upvoteCount: Option<int>,
    adminNotes: Option<string>,
    createdAt: string,
    updatedAt: string)

  /** A partial update of a row: only the present cells are written. These
      are the cells the repository ever updates. */
  datatype FieldsPatch = FieldsPatch(
    status: Option<string>,
    updatedAt: Option<string>,
    adminNotes: Option<string>,
    viewCount: Option<int>,
    upvoteCount: Option<int>)

  const EmptyPatch := FieldsPatch(None, None, None, None, None)

  /** What the store does with a patch: present cells overwrite, absent cells
      keep their value */
  function ApplyPatch(f: StartupFields, p: FieldsPatch): (r: StartupFields)
    ensures r.status == (if p.status.Some? then p.status.value else f.status)
    ensures r.updatedAt == (if p.updatedAt.Some? then p.updatedAt.value else f.updatedAt)
    ensures r.adminNotes == (if p.adminNotes.Some? then p.adminNotes else f.adminNotes)
    ensures r.viewCount == (if p.viewCount.Some? then p.viewCount else f.viewCount)
    ensures r.upvoteCount == (if p.upvoteCount.Some? then p.upvoteCount else f.upvoteCount)
    ensures r.(status := f.status, updatedAt := f.updatedAt, adminNotes := f.adminNotes,
               viewCount := f.viewCount, upvoteCount := f.upvoteCount) == f
  {
    f.(status := if p.status.Some? then p.status.value else f.status,
       updatedAt := if p.updatedAt.Some? then p.updatedAt.value else f.updatedAt,
       adminNotes := if p.adminNotes.Some? then p.adminNotes else f.adminNotes,
       viewCount := if p.viewCount.Some? then p.viewCount else f.viewCount,
       upvoteCount := if p.upvoteCount.Some? then p.upvoteCount else f.upvoteCount)
  }

  /** `StartupDto`, the public view. Stage, gender and status are the stored
      text, cast without a check. */
  datatype Startup = Startup(
    id: string,
    name: string,
    description: string,
    website: Option<string>,
    sector: string,
    stage: string,
    country: string,
    founderGender: string,
    isStudentBuild: Option<bool>,   // undefined when the cell is absent
    tags: seq<string>,
    founderName: string,
    logoUrl: Option<string>,
    linkedinUrl: Option<string>,
    twitterUrl: Option<string>,
    viewCount: int,
    upvoteCount: int,
    createdAt: string,
    status: string)

  /** `AdminStartupDto`: the public view and four private fields */
  datatype AdminStartup = AdminStartup(
    startup: Startup,
    contactEmail: string,
    pitchDeck: string,
    adminNotes: Option<string>,
    updatedAt: string)

  /** `StartupSubmissionDto`. The pitch, funding status, app URL and traction
      are accepted but never stored. */
  datatype Submission = Submission(
    name: string,
    description: string,
    website: Option<string>,
    pitch: string,
    pitchDeck: string,
    sector: string,
    stage: StartupStage,
    country: string,
    founderGender: FounderGender,
    fundingStatus: Option<string>,
    appUrl: Option<string>,
    traction: Option<string>,
    isStudentBuild: bool,
    tags: Option<seq<string>>,
    founderName: string,
    email: string,
    logoUrl: Option<string>,
    linkedinUrl: Option<string>,
    twitterUrl: Option<string>)

  /** `StartupQueryDto`; None is an absent property. Stage and gender are
      text, since callers cast arbitrary strings to them. */
  datatype StartupQuery = StartupQuery(
    sector: Option<string>,
    stage: Option<string>,
    country: Option<string>,
    founderGender: Option<string>,
    isStudentBuild: Option<bool>,
    tags: Option<string>,
    searchQuery: Option<string>,
    limit: Option<int>,
    offset: Option<int>)

  const NoQuery := StartupQuery(None, None, None, None, None, None, None, None, None)

  /** `AdminStartupQueryDto` */
  datatype AdminQuery = AdminQuery(status: Option<StartupStatus>, limit: Option<int>, offset: Option<int>)

  /** The `{ startups, total }` payload of the listings */
  datatype StartupList = StartupList(startups: seq<Startup>, total: int)

  datatype AdminStartupList = AdminStartupList(startups: seq<AdminStartup>, total: int)
}
