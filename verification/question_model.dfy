/** The Question schema of models/Question.js and the document
    POST /api/questions builds from a request body (index.js:304-312). */
module QuestionModel {
  import opened Wrappers
  import opened Http
  import Text
  import opened Seqs

  type QuestionId = string

  datatype Round = Technical | HR | Aptitude
  datatype Difficulty = Easy | Medium | Hard
  datatype Frequency = Rare | Sometimes | FrequentlyAsked

  const RoundNames: seq<string> := ["Technical", "HR", "Aptitude"]
  const DifficultyNames: seq<string> := ["Easy", "Medium", "Hard"]
  const FrequencyNames: seq<string> := ["Rare", "Sometimes", "Frequently Asked"]

  function RoundName(r: Round): (s: string)
    ensures s in RoundNames
  {
    match r
    case Technical => RoundNames[0]
    case HR => RoundNames[1]
    case Aptitude => RoundNames[2]
  }

  function DifficultyName(d: Difficulty): (s: string)
    ensures s in DifficultyNames
  {
    match d
    case Easy => DifficultyNames[0]
    case Medium => DifficultyNames[1]
    case Hard => DifficultyNames[2]
  }

  function FrequencyName(f: Frequency): (s: string)
    ensures s in FrequencyNames
  {
    match f
    case Rare => FrequencyNames[0]
    case Sometimes => FrequencyNames[1]
    case FrequentlyAsked => FrequencyNames[2]
  }

  /** The `enum` validator of `round`. */
  function ParseRound(s: string): (r: Option<Round>)
    ensures r.Some? <==> s in RoundNames
    ensures r.Some? ==> RoundName(r.value) == s
  {
    if s == RoundNames[0] then Some(Technical)
    else if s == RoundNames[1] then Some(HR)
    else if s == RoundNames[2] then Some(Aptitude)
    else None
  }

  /** The `enum` validator of `difficulty`. */
  function ParseDifficulty(s: string): (d: Option<Difficulty>)
    ensures d.Some? <==> s in DifficultyNames
    ensures d.Some? ==> DifficultyName(d.value) == s
  {
    if s == DifficultyNames[0] then Some(Easy)
    else if s == DifficultyNames[1] then Some(Medium)
    else if s == DifficultyNames[2] then Some(Hard)
    else None
  }

  /** The `enum` validator of `frequency`. */
  function ParseFrequency(s: string): (f: Option<Frequency>)
    ensures f.Some? <==> s in FrequencyNames
    ensures f.Some? ==> FrequencyName(f.value) == s
  {
    if s == FrequencyNames[0] then Some(Rare)
    else if s == FrequencyNames[1] then Some(Sometimes)
    else if s == FrequencyNames[2] then Some(FrequentlyAsked)
    else None
  }

  /** Each enumerated value is accepted back under its own name. */
  lemma QuestionEnumsRoundTrip(r: Round, d: Difficulty, f: Frequency)
    ensures ParseRound(RoundName(r)) == Some(r)
    ensures ParseDifficulty(DifficultyName(d)) == Some(d)
    ensures ParseFrequency(FrequencyName(f)) == Some(f)
  {
  }

  /** One question document. */
  datatype Question = Question(
    id: QuestionId,
    company: string,
    role: string,
    question: string,
    round: Round,
    difficulty: Difficulty,
    frequency: Frequency,
    frequencyCount: int,
    likes: int,
    views: int,
    postedBy: string,
    createdAt: int)

  /** The fields of a POST /api/questions body; `None` is a field left out. */
  datatype QuestionBody = QuestionBody(
    company: Option<string>,
    role: Option<string>,
    question: Option<string>,
    round: Option<string>,
    difficulty: Option<string>,
    frequency: Option<string>,
    frequencyCount: Option<int>,
    likes: Option<int>,
    views: Option<int>,
    postedBy: Option<string>,
    createdAt: Option<int>)

  /** Mongoose's `required` validator on a string path: absent and `''` fail. */
  predicate Present(s: Option<string>) {
    s.Some? && s.value != ""
  }

  /** `company` after its `trim` setter ran. */
  function TrimmedCompany(body: QuestionBody): (c: Option<string>)
    ensures c.Some? <==> body.company.Some?
    ensures c.Some? ==> exists lo :: Text.StripsTo(body.company.value, lo, c.value)
    ensures c.Some? && c.value != [] ==> !Text.IsSpace(c.value[0]) && !Text.IsSpace(c.value[|c.value| - 1])
    ensures c.Some? ==> |c.value| <= |body.company.value|
  {
    match body.company
    case Some(c) => Some(Text.Trim(c))
    case None => None
  }

  /** The validated paths, in schema order. */
  const QuestionPaths: seq<string> :=
    ["company", "role", "question", "round", "difficulty", "frequency", "postedBy"]

  /** The validators of `path` reject `body`: `required` on all seven paths,
      `enum` on the three enumerated ones. */
  predicate Rejects(body: QuestionBody, path: string) {
    if path == "company" then !Present(TrimmedCompany(body))
    else if path == "role" then !Present(body.role)
    else if path == "question" then !Present(body.question)
    else if path == "round" then !Present(body.round) || ParseRound(body.round.value).None?
    else if path == "difficulty" then
      !Present(body.difficulty) || ParseDifficulty(body.difficulty.value).None?
    else if path == "frequency" then
      !Present(body.frequency) || ParseFrequency(body.frequency.value).None?
    else if path == "postedBy" then !Present(body.postedBy)
    else false
  }

  /** The paths whose validators reject `body`, in schema order. */
  function QuestionInvalidPaths(body: QuestionBody): (paths: seq<string>)
    ensures forall p :: p in paths <==> p in QuestionPaths && Rejects(body, p)
    ensures IsSubsequence(paths, QuestionPaths)
  {
    Filter(QuestionPaths, p => Rejects(body, p))
  }

  /** A body no validator rejects has every required field and valid enums. */
  lemma AcceptedBody(body: QuestionBody)
    requires QuestionInvalidPaths(body) == []
    ensures Present(TrimmedCompany(body)) && Present(body.role) && Present(body.question)
    ensures Present(body.postedBy)
    ensures Present(body.round) && ParseRound(body.round.value).Some?
    ensures Present(body.difficulty) && ParseDifficulty(body.difficulty.value).Some?
    ensures Present(body.frequency) && ParseFrequency(body.frequency.value).Some?
  {
    forall i | 0 <= i < |QuestionPaths|
      ensures !Rejects(body, QuestionPaths[i])
    {
      assert QuestionPaths[i] in QuestionPaths;
    }
    assert !Rejects(body, QuestionPaths[0]);
    assert !Rejects(body, QuestionPaths[1]);
    assert !Rejects(body, QuestionPaths[2]);
    assert !Rejects(body, QuestionPaths[3]);
    assert !Rejects(body, QuestionPaths[4]);
    assert !Rejects(body, QuestionPaths[5]);
    assert !Rejects(body, QuestionPaths[6]);
  }

  /** `new Question(req.body).save()`: a 400 naming the rejected paths, or the
      document with the body's values, the company trimmed, and the three
      counters and `createdAt` defaulted when the body leaves them out. */
  function NewQuestion(id: QuestionId, body: QuestionBody, now: int): (r: Result<Question, Failure>)
    ensures r.Err? <==> QuestionInvalidPaths(body) != []
    ensures r.Err? ==> r.error == Invalid(400, QuestionInvalidPaths(body))
    ensures r.Ok? ==> r.value.id == id && Some(r.value.company) == TrimmedCompany(body)
    ensures r.Ok? ==> Some(r.value.role) == body.role && Some(r.value.question) == body.question
    ensures r.Ok? ==> Some(r.value.postedBy) == body.postedBy
    ensures r.Ok? ==> Some(RoundName(r.value.round)) == body.round
    ensures r.Ok? ==> Some(DifficultyName(r.value.difficulty)) == body.difficulty
    ensures r.Ok? ==> Some(FrequencyName(r.value.frequency)) == body.frequency
    ensures r.Ok? ==> r.value.likes == body.likes.GetOr(0) && r.value.views == body.views.GetOr(0)
    ensures r.Ok? ==> r.value.frequencyCount == body.frequencyCount.GetOr(0)
    ensures r.Ok? ==> r.value.createdAt == body.createdAt.GetOr(now)
  {
    if QuestionInvalidPaths(body) != [] then Err(Invalid(400, QuestionInvalidPaths(body)))
    else
      AcceptedBody(body);
      Ok(Question(
        id, TrimmedCompany(body).value, body.role.value, body.question.value,
        ParseRound(body.round.value).value,
        ParseDifficulty(body.difficulty.value).value,
        ParseFrequency(body.frequency.value).value,
        body.frequencyCount.GetOr(0), body.likes.GetOr(0), body.views.GetOr(0),
        body.postedBy.value, body.createdAt.GetOr(now)))
  }

  /** A body that leaves the counters out yields a question nobody has liked,
      viewed or counted yet. */
  lemma CountersStartAtZero(id: QuestionId, body: QuestionBody, now: int)
    requires QuestionInvalidPaths(body) == []
    requires body.likes.None? && body.views.None? && body.frequencyCount.None?
    ensures NewQuestion(id, body, now).Ok?
    ensures NewQuestion(id, body, now).value.likes == 0
    ensures NewQuestion(id, body, now).value.views == 0
    ensures NewQuestion(id, body, now).value.frequencyCount == 0
  {
  }
}
