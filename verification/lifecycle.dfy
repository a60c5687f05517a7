/** The mock-interview request lifecycle of index.js:409-610: the create,
    accept, complete and cancel handlers as pure transitions over a store of
    requests. A transition either fails with the handler's error answer and
    leaves the store as it was, or yields the store after the handler's single
    `save()`. */
module Lifecycle {
  import opened Wrappers
  import opened Http
  import opened RequestModel
  import MeetLink

  /** Every document is stored under its own `_id`. */
  predicate Keyed(m: map<RequestId, InterviewRequest>) {
    forall k :: k in m ==> m[k].id == k
  }

  /** The `interviewrequests` collection. */
  type Store = m: map<RequestId, InterviewRequest> | Keyed(m) witness map[]

  /** What `googleCalendarService.createInterviewEvent` produced: an event id
      and the Meet link it reported (possibly `null`), or a thrown error of any
      kind (no stored grant, network, quota, malformed answer). */
  datatype CalendarResult = Created(eventId: string, meetLink: Option<string>) | Failed

  /** The fields a transition never touches. */
  predicate SameBooking(a: InterviewRequest, b: InterviewRequest) {
    && a.id == b.id && a.requester == b.requester
    && a.role == b.role && a.interviewType == b.interviewType
    && a.preferredDate == b.preferredDate && a.duration == b.duration
    && a.notes == b.notes && a.createdAt == b.createdAt
  }

  /** `after` differs from `before` at most at key `id`, which it still holds. */
  predicate OnlyAt(before: Store, after: Store, id: RequestId) {
    && after.Keys == before.Keys
    && id in after
    && forall k :: k in before && k != id ==> after[k] == before[k]
  }

  /** POST /api/interview-requests: the caller becomes the requester of a new
      Pending request built from the body. `newId` is the ObjectId Mongoose
      assigns. */
  function Create(store: Store, newId: RequestId, caller: UserId, body: RequestBody, now: nat)
    : (r: Result<Store, Failure>)
    ensures r.Ok? <==> InvalidPaths(body) == [] && newId !in store
    ensures InvalidPaths(body) != [] ==> r == Err(Invalid(400, InvalidPaths(body)))
    ensures InvalidPaths(body) == [] && newId in store ==> r == Err(Crashed(400))
    ensures r.Ok? ==>
      && r.value.Keys == store.Keys + {newId}
      && (forall k :: k in store ==> r.value[k] == store[k])
      && Construct(newId, caller, body, now) == Ok(r.value[newId])
      && r.value[newId].requester == caller
      && r.value[newId].status == Pending
      && r.value[newId].interviewer.None?
  {
    match Construct(newId, caller, body, now)
    case Err(paths) => Err(Invalid(400, paths))
    case Ok(q) => if newId in store then Err(Crashed(400)) else Ok(store[newId := q])
  }

  /** The request as it is saved by a successful accept. */
  function AcceptedBy(q: InterviewRequest, caller: UserId, calendar: CalendarResult, slug: string, now: nat)
    : InterviewRequest
  {
    match calendar
    case Created(eventId, link) =>
      q.(interviewer := Some(caller), status := Accepted, googleMeetLink := link,
         googleCalendarEventId := Some(eventId), updatedAt := now)
    case Failed =>
      q.(interviewer := Some(caller), status := Accepted,
         googleMeetLink := Some(MeetLink.GenerateMeetLink(slug, now)), updatedAt := now)
  }

  /** PUT /api/interview-requests/:id/accept. Guards in order: unknown id (404),
      not Pending (400), the caller's own request (400), requester or caller
      missing from the users collection (404). The calendar outcome never makes
      the accept fail: a failed call only swaps in the fallback link. */
  function Accept(store: Store, id: RequestId, caller: UserId, users: set<UserId>,
                  calendar: CalendarResult, slug: string, now: nat)
    : (r: Result<Store, Failure>)
    ensures id !in store ==> r == Err(Refused(404, RequestNotFound))
    ensures id in store && store[id].status != Pending ==> r == Err(Refused(400, NotAvailable))
    ensures id in store && store[id].status == Pending && store[id].requester == caller ==>
      r == Err(Refused(400, OwnRequest))
    ensures (id in store && store[id].status == Pending && store[id].requester != caller
             && (store[id].requester !in users || caller !in users)) ==>
      r == Err(Refused(404, UserNotFound))
    ensures r.Ok? <==> (id in store && store[id].status == Pending && store[id].requester != caller
                        && store[id].requester in users && caller in users)
    ensures r.Ok? ==> OnlyAt(store, r.value, id)
    ensures r.Ok? ==>
      var q, a := store[id], r.value[id];
      && SameBooking(q, a)
      && a.status == Accepted && a.interviewer == Some(caller)
      && a.feedback == q.feedback && a.rating == q.rating
      && a.updatedAt == now
      && (calendar.Created? ==>
            a.googleMeetLink == calendar.meetLink && a.googleCalendarEventId == Some(calendar.eventId))
      && (calendar.Failed? ==>
            a.googleMeetLink == Some(MeetLink.GenerateMeetLink(slug, now))
            && a.googleCalendarEventId == q.googleCalendarEventId)
  {
    if id !in store then Err(Refused(404, RequestNotFound))
    else
      var q := store[id];
      if q.status != Pending then Err(Refused(400, NotAvailable))
      else if q.requester == caller then Err(Refused(400, OwnRequest))
      else if q.requester !in users || caller !in users then Err(Refused(404, UserNotFound))
      else Ok(store[id := AcceptedBy(q, caller, calendar, slug, now)])
  }

  /** PUT /api/interview-requests/:id/complete. Guards in order: unknown id
      (404), not Accepted (400), no interviewer recorded (the handler's
      `null.toString()` throws: 500), caller is not the interviewer (403), and
      finally the `rating` validator of `save()` (500 from the handler's catch). */
  function Complete(store: Store, id: RequestId, caller: UserId, feedback: string,
                    rating: Option<int>, now: nat)
    : (r: Result<Store, Failure>)
    ensures id !in store ==> r == Err(Refused(404, RequestNotFound))
    ensures id in store && store[id].status != Accepted ==> r == Err(Refused(400, NotAccepted))
    ensures id in store && store[id].status == Accepted && store[id].interviewer.None? ==>
      r == Err(Crashed(500))
    ensures (id in store && store[id].status == Accepted && store[id].interviewer.Some?
             && store[id].interviewer.value != caller) ==>
      r == Err(Refused(403, OnlyInterviewer))
    ensures (id in store && store[id].status == Accepted && store[id].interviewer == Some(caller)
             && !RatingInRange(rating)) ==>
      r == Err(Invalid(500, ["rating"]))
    ensures r.Ok? <==> (id in store && store[id].status == Accepted
                        && store[id].interviewer == Some(caller) && RatingInRange(rating))
    ensures r.Ok? ==> OnlyAt(store, r.value, id)
    ensures r.Ok? ==>
      var q, c := store[id], r.value[id];
      && SameBooking(q, c)
      && c.status == Completed && c.feedback == feedback && c.rating == rating
      && c.interviewer == q.interviewer && c.googleMeetLink == q.googleMeetLink
      && c.googleCalendarEventId == q.googleCalendarEventId
      && c.updatedAt == now
  {
    if id !in store then Err(Refused(404, RequestNotFound))
    else
      var q := store[id];
      if q.status != Accepted then Err(Refused(400, NotAccepted))
      else if q.interviewer.None? then Err(Crashed(500))
      else if q.interviewer.value != caller then Err(Refused(403, OnlyInterviewer))
      else if !RatingInRange(rating) then Err(Invalid(500, ["rating"]))
      else Ok(store[id := q.(status := Completed, feedback := feedback, rating := rating, updatedAt := now)])
  }

  /** PUT /api/interview-requests/:id/cancel. Guards in order: unknown id (404),
      caller is not the requester (403), status neither Pending nor Accepted
      (400). Only the status changes; interviewer and link are kept. */
  function Cancel(store: Store, id: RequestId, caller: UserId, now: nat)
    : (r: Result<Store, Failure>)
    ensures id !in store ==> r == Err(Refused(404, RequestNotFound))
    ensures id in store && store[id].requester != caller ==> r == Err(Refused(403, OnlyRequester))
    ensures id in store && store[id].requester == caller && store[id].status !in {Pending, Accepted} ==>
      r == Err(Refused(400, NotCancellable))
    ensures r.Ok? <==> id in store && store[id].requester == caller && store[id].status in {Pending, Accepted}
    ensures r.Ok? ==> OnlyAt(store, r.value, id)
    ensures r.Ok? ==>
      var q, c := store[id], r.value[id];
      && SameBooking(q, c)
      && c.status == Cancelled && c.updatedAt == now
      && c.interviewer == q.interviewer && c.googleMeetLink == q.googleMeetLink
      && c.googleCalendarEventId == q.googleCalendarEventId
      && c.feedback == q.feedback && c.rating == q.rating
  {
    if id !in store then Err(Refused(404, RequestNotFound))
    else
      var q := store[id];
      if q.requester != caller then Err(Refused(403, OnlyRequester))
      else if q.status != Pending && q.status != Accepted then Err(Refused(400, NotCancellable))
      else Ok(store[id := q.(status := Cancelled, updatedAt := now)])
  }
}
