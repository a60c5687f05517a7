/** The InterviewRequest schema of models/InterviewRequest.js: its enumerations,
    its validators and the defaults a new document receives. */
module RequestModel {
  import opened Wrappers
  import opened Seqs

  /** Mongo ObjectIds, compared by their string form as index.js does. */
  type UserId = string
  type RequestId = string

  datatype Role =
    | SDE | Analyst | DataScientist | ProductManager | DevOpsEngineer
    | FrontendDeveloper | BackendDeveloper | FullStackDeveloper | QAEngineer
    | UIUXDesigner | OtherRole

  datatype InterviewType = Technical | HR | Aptitude | Mixed

  /** The `duration` enumeration `[15, 30, 45]`, in minutes. */
  datatype Duration = Min15 | Min30 | Min45 {
    function Minutes(): int {
      match this
      case Min15 => 15
      case Min30 => 30
      case Min45 => 45
    }
  }

  datatype Status = Pending | Accepted | Rejected | Completed | Cancelled

  /** The `role` enumeration, in schema order. */
  const RoleNames: seq<string> := ["SDE", "Analyst", "Data Scientist", "Product Manager",
    "DevOps Engineer", "Frontend Developer", "Backend Developer", "Full Stack Developer",
    "QA Engineer", "UI/UX Designer", "Other"]

  const InterviewTypeNames: seq<string> := ["Technical", "HR", "Aptitude", "Mixed"]

  function RoleName(r: Role): (s: string)
    ensures s in RoleNames
  {
    match r
    case SDE => RoleNames[0]
    case Analyst => RoleNames[1]
    case DataScientist => RoleNames[2]
    case ProductManager => RoleNames[3]
    case DevOpsEngineer => RoleNames[4]
    case FrontendDeveloper => RoleNames[5]
    case BackendDeveloper => RoleNames[6]
    case FullStackDeveloper => RoleNames[7]
    case QAEngineer => RoleNames[8]
    case UIUXDesigner => RoleNames[9]
    case OtherRole => RoleNames[10]
  }

  /** The `enum` validator of `role`: exactly the listed names are accepted,
      and each one stands for its own role. */
  function ParseRole(s: string): (r: Option<Role>)
    ensures r.Some? <==> s in RoleNames
    ensures r.Some? ==> RoleName(r.value) == s
  {
    if s == RoleNames[0] then Some(SDE)
    else if s == RoleNames[1] then Some(Analyst)
    else if s == RoleNames[2] then Some(DataScientist)
    else if s == RoleNames[3] then Some(ProductManager)
    else if s == RoleNames[4] then Some(DevOpsEngineer)
    else if s == RoleNames[5] then Some(FrontendDeveloper)
    else if s == RoleNames[6] then Some(BackendDeveloper)
    else if s == RoleNames[7] then Some(FullStackDeveloper)
    else if s == RoleNames[8] then Some(QAEngineer)
    else if s == RoleNames[9] then Some(UIUXDesigner)
    else if s == RoleNames[10] then Some(OtherRole)
    else None
  }

  function InterviewTypeName(t: InterviewType): (s: string)
    ensures s in InterviewTypeNames
  {
    match t
    case Technical => InterviewTypeNames[0]
    case HR => InterviewTypeNames[1]
    case Aptitude => InterviewTypeNames[2]
    case Mixed => InterviewTypeNames[3]
  }

  /** The `enum` validator of `interviewType`. */
  function ParseInterviewType(s: string): (t: Option<InterviewType>)
    ensures t.Some? <==> s in InterviewTypeNames
    ensures t.Some? ==> InterviewTypeName(t.value) == s
  {
    if s == InterviewTypeNames[0] then Some(Technical)
    else if s == InterviewTypeNames[1] then Some(HR)
    else if s == InterviewTypeNames[2] then Some(Aptitude)
    else if s == InterviewTypeNames[3] then Some(Mixed)
    else None
  }

  /** The `enum` validator of `duration`. */
  function ParseDuration(n: int): (d: Option<Duration>)
    ensures d.Some? <==> n in {15, 30, 45}
    ensures d.Some? ==> d.value.Minutes() == n
  {
    if n == 15 then Some(Min15)
    else if n == 30 then Some(Min30)
    else if n == 45 then Some(Min45)
    else None
  }

  /** Every enumerated value has a name the validators accept back. */
  lemma EnumNamesRoundTrip(r: Role, t: InterviewType, d: Duration)
    ensures ParseRole(RoleName(r)) == Some(r)
    ensures ParseInterviewType(InterviewTypeName(t)) == Some(t)
    ensures ParseDuration(d.Minutes()) == Some(d)
  {
  }

  /** The `min: 1, max: 5` validator of `rating`; `null` is not checked. Over
      whole numbers it admits exactly the five ratings 1 to 5. */
  function RatingInRange(rating: Option<int>): (ok: bool)
    ensures ok <==> rating.None? || rating.value in {1, 2, 3, 4, 5}
  {
    rating.None? || 1 <= rating.value <= 5
  }

  /** One interview-request document. */
  datatype InterviewRequest = InterviewRequest(
    id: RequestId,
    requester: UserId,
    interviewer: Option<UserId>,
    role: Role,
    interviewType: InterviewType,
    preferredDate: int,
    duration: Duration,
    status: Status,
    googleMeetLink: Option<string>,
    googleCalendarEventId: Option<string>,
    notes: string,
    feedback: string,
    rating: Option<int>,
    createdAt: nat,
    updatedAt: nat)

  /** The fields the create handler reads from the request body; `None` is a
      field the client left out. */
  datatype RequestBody = RequestBody(
    role: Option<string>,
    interviewType: Option<string>,
    preferredDate: Option<int>,
    duration: Option<int>,
    notes: Option<string>)

  /** The paths whose `required`/`enum` validators reject `body`, in schema order. */
  function InvalidPaths(body: RequestBody): (paths: seq<string>)
    ensures "role" in paths <==> body.role.None? || ParseRole(body.role.value).None?
    ensures "interviewType" in paths <==>
      body.interviewType.None? || ParseInterviewType(body.interviewType.value).None?
    ensures "preferredDate" in paths <==> body.preferredDate.None?
    ensures "duration" in paths <==> body.duration.None? || ParseDuration(body.duration.value).None?
    ensures forall p :: p in paths ==> p in ["role", "interviewType", "preferredDate", "duration"]
    ensures IsSubsequence(paths, ["role", "interviewType", "preferredDate", "duration"])
  {
    var role := if body.role.None? || ParseRole(body.role.value).None? then ["role"] else [];
    var kind := if body.interviewType.None? || ParseInterviewType(body.interviewType.value).None?
                then ["interviewType"] else [];
    var date := if body.preferredDate.None? then ["preferredDate"] else [];
    var duration := if body.duration.None? || ParseDuration(body.duration.value).None?
                    then ["duration"] else [];
    PickedInOrder(role, kind, date, duration, "role", "interviewType", "preferredDate", "duration");
    role + kind + date + duration
  }

  /** `new InterviewRequest({...})` followed by the validation `save()` runs:
      either the list of rejected paths, or a document holding the body's
      values and the schema defaults, stamped with `now`. */
  function Construct(id: RequestId, requester: UserId, body: RequestBody, now: nat)
    : (r: Result<InterviewRequest, seq<string>>)
    ensures r.Err? <==> InvalidPaths(body) != []
    ensures r.Err? ==> r.error == InvalidPaths(body)
    ensures r.Ok? ==>
      var q := r.value;
      && q.id == id && q.requester == requester
      && RoleName(q.role) == body.role.value
      && InterviewTypeName(q.interviewType) == body.interviewType.value
      && Some(q.preferredDate) == body.preferredDate
      && Some(q.duration.Minutes()) == body.duration
      && q.notes == body.notes.GetOr("")
      && q.status == Pending
      && q.interviewer.None? && q.googleMeetLink.None? && q.googleCalendarEventId.None?
      && q.feedback == "" && q.rating.None?
      && q.createdAt == now && q.updatedAt == now
  {
    if InvalidPaths(body) != [] then Err(InvalidPaths(body))
    else
      Ok(InterviewRequest(
        id, requester, None,
        ParseRole(body.role.value).value,
        ParseInterviewType(body.interviewType.value).value,
        body.preferredDate.value,
        ParseDuration(body.duration.value).value,
        Pending, None, None,
        body.notes.GetOr(""), "", None,
        now, now))
  }
}
