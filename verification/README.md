# Mock-interview requests and question browsing, modelled in Dafny

This project models the request/response logic of a campus interview-preparation
web application. The core is the mock-interview request lifecycle. A user
creates a request, which starts Pending. Another user accepts it, which books a
calendar event or falls back to a generated Meet link. The interviewer then
completes it with feedback and a rating, or the requester cancels it. Around
the lifecycle sit:

- the three read views of the requests;
- the like and study-material handlers that edit a user's lists;
- the client-side question search, filter, sort and refresh of the questions page;
- the schema validators and defaults of the InterviewRequest and Question models.

Everything is pure. The document store is a map from id to record (`Lifecycle.Store`). A
handler is a function from the store, the caller's identity and the request's
inputs to either the new store or the handler's error answer
(`Http.Failure`: status code plus message, or the validation paths). Inputs
the code takes from outside are parameters:

- the caller's identity, normally taken from the JWT;
- the clock (`now`);
- the random slug of the fallback link;
- the set of existing users;
- the outcome of the calendar call (`Lifecycle.CalendarResult`, either an event id with a possibly-null
  link, or a failure of any kind).

Modules:

- `Wrappers`, `Http`: Option/Result, the handlers' failure answers and messages.
- `Seqs`, `Sorting`, `Text`: `Array.prototype.filter`, the stable descending sort
  of JavaScript's `sort` with `(a, b) => key(b) - key(a)`, `toLowerCase`,
  `includes`, `trim`.
- `RequestModel`: the InterviewRequest schema (enumerations, rating bounds, defaults).
- `Lifecycle`: create / accept / complete / cancel.
- `Invariants`: the shape every stored request keeps, and what holds over any
  sequence of handler calls.
- `MeetLink`: the fallback link format and its base-36 timestamp.
- `Views`: my-requests, available, history.
- `QuestionModel`, `QuestionBrowser`: the Question schema, and the questions page logic.
- `Profile`: liking a question, removing a study material.

Behaviour of the code that the model keeps as written:

- A request cancelled while Pending keeps no interviewer. So "no interviewer" does
  not imply Pending; only the converse holds (`Invariants.CancelWhilePending`).
- On a successful calendar call the stored link is whatever the adapter
  reported, and that may be null (services/googleCalendar.js:105). A link is only
  guaranteed on the fallback path.
- Complete with an out-of-range rating fails the schema validator inside
  `save()`. The handler's catch answers 500, not 400.
- Accept also requires both the requester and the caller to exist as users,
  otherwise it answers 404 "User not found" (index.js:507-512).

## Model

| member | source | states |
|---|---|---|
| RequestModel.ParseRole | models/InterviewRequest.js:14-18 | the role validator accepts exactly the 11 listed names, each naming its own role |
| RequestModel.ParseInterviewType | models/InterviewRequest.js:19-23 | the interviewType validator accepts exactly Technical, HR, Aptitude, Mixed |
| RequestModel.ParseDuration | models/InterviewRequest.js:28-32 | duration is accepted iff it is 15, 30 or 45, and keeps its minutes |
| RequestModel.EnumNamesRoundTrip | models/InterviewRequest.js:14-32 | every role, type and duration is accepted back under its own name |
| RequestModel.RatingInRange | models/InterviewRequest.js:55-60 | the rating validator lets null through and admits exactly the whole ratings 1, 2, 3, 4, 5 |
| RequestModel.InvalidPaths | models/InterviewRequest.js:14-32 | a path is reported iff its required/enum validator rejects the body, only the four validated paths can appear, and they come in schema order |
| RequestModel.Construct | models/InterviewRequest.js:3-69 | a valid body yields a Pending document with the body's values, notes defaulting to '', null interviewer, link, event id and rating, empty feedback, createdAt = updatedAt = now; an invalid one yields exactly the rejected paths |
| Lifecycle.Create | index.js:409-427 | creation succeeds iff the body validates and the id is new; the caller becomes requester of a Pending request with no interviewer; other requests are untouched; validation failures answer 400 with the paths |
| Lifecycle.Accept | index.js:490-554 | guards in order: 404 unknown id, 400 not Pending, 400 own request, 404 missing user; success iff all pass, whatever the calendar did; on success only this request changes, it is Accepted by the caller, the calendar's link and event id are stored on success, on failure the generated fallback link with the event id left as before; updatedAt becomes now, createdAt and the booking are kept |
| Lifecycle.Complete | index.js:556-584 | guards in order: 404, 400 not Accepted, 500 no interviewer, 403 not the interviewer, 500 rating out of [1,5]; success sets Completed, feedback and rating and refreshes updatedAt, keeping interviewer, link, event id, booking and createdAt |
| Lifecycle.Cancel | index.js:586-610 | guards in order: 404, 403 not the requester, 400 not Pending/Accepted; success changes only status (to Cancelled) and updatedAt; interviewer and link are kept |
| Invariants.StepPreserves | index.js:409-610 | from a coherent store, any successful handler call keeps every request coherent and changes each only along allowed status moves, never its booking, requester or createdAt |
| Invariants.CreatePreserves | index.js:409-427 | a successful create keeps the store coherent, leaves every existing request as it was, and adds exactly the new id, holding a Pending request of the caller |
| Invariants.AcceptPreserves | index.js:490-554 | a successful accept keeps the store coherent and changes only the accepted request, which moves from Pending to Accepted |
| Invariants.CompletePreserves | index.js:556-584 | a successful complete keeps the store coherent and changes only that request, which moves from Accepted to Completed |
| Invariants.CancelPreserves | index.js:586-610 | a successful cancel keeps the store coherent and changes only that request, which moves from Pending or Accepted to Cancelled |
| Invariants.RunPreserves | index.js:409-610 | over any sequence of handler calls: coherence holds, nothing is deleted, requester, booking and createdAt never change, statuses only move Pending to Accepted to Completed or to Cancelled, an interviewer once set is kept |
| Invariants.RejectedNeverProduced | models/InterviewRequest.js:33-38 | Rejected is a legal value, but no sequence of handler calls produces it |
| Invariants.TerminalIsFinal | index.js:494-601 | a Completed, Cancelled or Rejected request refuses accept, complete and cancel |
| Invariants.AcceptIgnoresCalendar | index.js:514-549 | whether accept succeeds is the same for every calendar outcome |
| Invariants.CancelWhilePending | index.js:595-604 | the requester can always cancel a Pending request, which then is Cancelled with no interviewer |
| MeetLink.ToBase36 | index.js:616 | `toString(36)` yields a non-empty string of base-36 digits with no leading zero |
| MeetLink.Base36RoundTrip | index.js:616 | reading the base-36 text back gives the number |
| MeetLink.GenerateMeetLink | index.js:613-617 | the fallback link is a non-empty path under https://meet.google.com/ |
| MeetLink.FallbackLinkTimestamp | index.js:613-617 | whatever the random slug, the time a fallback link was made is recoverable from it |
| Views.SelectNewestFirst | index.js:431-434 | a filtered find sorted by createdAt descending returns each matching stored request exactly once, nothing else, newest first |
| Views.MyRequests | index.js:429-439 | the caller's own requests, each once, newest first |
| Views.Available | index.js:441-454 | exactly the Pending requests of other users, each once, newest first |
| Views.History | index.js:456-472 | exactly the Completed or Cancelled requests where the caller is requester or interviewer, each once, newest first |
| QuestionModel.ParseRound | models/Question.js:11 | round is accepted iff it is Technical, HR or Aptitude |
| QuestionModel.ParseDifficulty | models/Question.js:12 | difficulty is accepted iff it is Easy, Medium or Hard |
| QuestionModel.ParseFrequency | models/Question.js:13 | frequency is accepted iff it is Rare, Sometimes or Frequently Asked |
| QuestionModel.QuestionEnumsRoundTrip | models/Question.js:11-13 | every round, difficulty and frequency is accepted back under its own name |
| QuestionModel.TrimmedCompany | models/Question.js:4-8 | the stored company is the input with only white space cut from both ends, and it neither starts nor ends with white space |
| QuestionModel.QuestionInvalidPaths | models/Question.js:4-17 | a path is reported iff its validator rejects the body, in schema order |
| QuestionModel.NewQuestion | index.js:304-312 | a body no validator rejects yields a question with its values, company trimmed, counters and createdAt defaulted; otherwise 400 with the rejected paths |
| QuestionModel.CountersStartAtZero | models/Question.js:14-16 | a body without counters yields likes = views = frequencyCount = 0 |
| Text.Lower | public/js/interview-questions.js:45-53 | `toLowerCase` keeps the length and maps every character on its own: A-Z to a-z, everything else unchanged |
| Text.Contains | public/js/interview-questions.js:51-53 | `includes` holds iff some window of the string equals the term |
| Text.ContainsEmpty | public/js/interview-questions.js:51-53 | every string includes the empty term |
| Text.Trim | models/Question.js:7 | the result is an infix with no white space at either end, and everything removed is white space |
| Seqs.Filter | public/js/interview-questions.js:50 | filter keeps exactly the accepted elements, with their multiplicities, as an order-preserving subsequence |
| Sorting.InsertDescSorted | public/js/interview-questions.js:69-79 | inserting one element at its place keeps a descending sequence descending |
| Sorting.InsertDescStable | public/js/interview-questions.js:69-79 | among elements with equal key, the inserted one comes first and the others keep their order |
| Sorting.SortDesc | public/js/interview-questions.js:69-79 | the sort is a permutation, non-increasing in the key, and stable |
| QuestionBrowser.SelectMatching | public/js/interview-questions.js:50-58 | a question is kept iff the lower-cased term occurs in its lower-cased text, company or role and the frequency filter is empty or equal; the result is an order-preserving subsequence |
| QuestionBrowser.EmptySearchKeepsAll | public/js/interview-questions.js:51-55 | an empty term with no frequency filter keeps every question in order |
| QuestionBrowser.SortQuestions | public/js/interview-questions.js:66-82 | a permutation; recent/views/likes/frequency give non-increasing createdAt/views/likes/rank; any other key leaves the order unchanged |
| QuestionBrowser.FrequencySortGroups | public/js/interview-questions.js:77-79 | sorting by frequency puts every Frequently Asked question before every Sometimes one, and those before every Rare one |
| QuestionBrowser.SortQuestionsStable | public/js/interview-questions.js:66-82 | questions with equal keys keep their relative order |
| QuestionBrowser.FilterQuestions | public/js/interview-questions.js:44-64 | the displayed list holds exactly the matching questions with their multiplicities, ordered by the chosen key, or in original order for an unknown key |
| QuestionBrowser.FindIndexById | public/js/interview-questions.js:122 | findIndex returns the first position with the id, or -1 iff there is none |
| QuestionBrowser.ReplaceById | public/js/interview-questions.js:122-125 | only the first entry with the id is replaced, every other entry is unchanged, an array without it is unchanged |
| QuestionBrowser.RefreshLiked | public/js/interview-questions.js:121-130 | in each of the two arrays, only the first entry with the id is replaced by the updated question; an array without the id is unchanged |
| Profile.AddLiked | index.js:344-349 | the list is unchanged when it already holds the id and gets the id appended otherwise, whatever else it holds; a duplicate-free list stays duplicate-free |
| Profile.Like | index.js:336-355 | a like adds exactly 1 to that question's likes and nothing else; the caller's liked list gains the id iff absent; a missing user answers 500 after the increment; an unknown question answers null |
| Profile.LikeKeepsLikedDistinct | index.js:344-349 | the liked list never holds an id twice, and holds the liked id afterwards |
| Profile.LikeTwice | index.js:338-349 | liking twice adds 2 likes but leaves the user's lists as after one like |
| Profile.RemoveStudyMaterial | index.js:290-301 | succeeds iff the user exists, and a missing user answers 500; the list keeps exactly the entries with a different id, in order and with multiplicities; other users and the liked list are untouched |
| Profile.RemoveStudyMaterialIdempotent | index.js:293-295 | removing the same material twice equals removing it once |

## Left out

- Persistence, `populate`, Express routing and JSON plumbing. The store is a map, and the views return documents without the expanded requester/interviewer names.
- JWT verification and bcrypt hashing: the caller's identity is a parameter.
- The Google Calendar client and OAuth (services/googleCalendar.js). `createInterviewEvent` is an oracle outcome.
- The double-accept race between two concurrent accepts: the model is sequential.
- `Math.random` in `generateMeetLink`: the slug is a parameter.
- Clock reads: one `now` per handler call. On create it stamps both `createdAt` and `updatedAt`, though the code reads the clock once for the `createdAt` default and again in the pre-save hook (models/InterviewRequest.js:61-75). On accept it stamps both the fallback link and `updatedAt`, which the code also reads separately.
- Lifecycle.Accept: a database failure inside the first `save()` is not modelled. In the code that case falls into the fallback branch with the event id already assigned.
- Database errors, and `CastError` for malformed ids or values. In create, accept, complete, cancel and the study-material removal each would answer 500 or 400 before any change. In the like handler the `$inc` is already stored by `findByIdAndUpdate` (index.js:338-342). A database failure in the later `User.findById` or `user.save()` (index.js:345-348) therefore answers 500 with the increment kept, as the missing-user case does.
- An explicit JSON `null` on a defaulted field is not modelled. `None` in `RequestBody` and `QuestionBody` stands for a field the client left out, and the schema default is then stored. Mongoose applies a default only to `undefined`, so `{"notes": null}` on create (index.js:411-420) or `{"likes": null}` on a new question (index.js:304-306) stores `null`. This concerns `notes`, `likes`, `views`, `frequencyCount` and `createdAt`. On required fields, `null` and absence fail alike, and that is modelled.
- Mongoose type casting (a numeric string for duration or rating) is not modelled. Neither is a body that omits `feedback`.
- Lifecycle.Complete: ratings are whole numbers here, while the Mongoose `Number` validator would also accept fractional values in [1, 5].
- Views.SelectNewestFirst: the order among requests with equal createdAt is left open, because MongoDB does not fix it.
- Text.Lower: only ASCII letters are lower-cased; JavaScript's full Unicode case mapping is not modelled.
- Characters are Unicode scalar values, while JavaScript strings are sequences of UTF-16 code units. A character outside the Basic Multilingual Plane is one character here and two code units in JavaScript. A lone surrogate cannot be represented.
- Other handlers: adding a study material, the view counter, the server-side question filter/sort of GET /api/questions, fetching one request, profile, chat and auth. They are outside this core.
- DOM rendering, `debounce` timers, date formatting, Socket.IO and the seed scripts: these are I/O and UI only.
