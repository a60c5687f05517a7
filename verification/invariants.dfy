/** What the four transitions keep true of every stored request, over any
    sequence of requests to the handlers. */
module Invariants {
  import opened Wrappers
  import opened Http
  import opened RequestModel
  import opened Lifecycle

  /** The shape every stored request keeps:
      - its rating passes the schema validator;
      - no handler ever writes `Rejected`;
      - a Pending request has no interviewer, link or calendar event;
      - an Accepted or Completed request has an interviewer;
      - nobody interviews their own request;
      - feedback and rating stay at their defaults until completion;
      - a calendar event id only exists once someone accepted. */
  predicate Coherent(q: InterviewRequest) {
    && RatingInRange(q.rating)
    && q.status != Rejected
    && (q.status == Pending ==>
          q.interviewer.None? && q.googleMeetLink.None? && q.googleCalendarEventId.None?)
    && (q.status == Accepted || q.status == Completed ==> q.interviewer.Some?)
    && (q.interviewer.Some? ==> q.interviewer.value != q.requester)
    && (q.status != Completed ==> q.feedback == "" && q.rating.None?)
    && (q.googleCalendarEventId.Some? ==> q.interviewer.Some?)
  }

  predicate StoreCoherent(store: Store) {
    forall k :: k in store ==> Coherent(store[k])
  }

  /** One request to a handler, with everything the handler reads from outside
      the store made explicit. */
  datatype Command =
    | CreateRequest(newId: RequestId, caller: UserId, body: RequestBody, now: nat)
    | AcceptRequest(id: RequestId, caller: UserId, users: set<UserId>,
                    calendar: CalendarResult, slug: string, now: nat)
    | CompleteRequest(id: RequestId, caller: UserId, feedback: string, rating: Option<int>, now: nat)
    | CancelRequest(id: RequestId, caller: UserId, now: nat)

  function Step(store: Store, cmd: Command): Result<Store, Failure> {
    match cmd
    case CreateRequest(newId, caller, body, now) => Create(store, newId, caller, body, now)
    case AcceptRequest(id, caller, users, calendar, slug, now) =>
      Accept(store, id, caller, users, calendar, slug, now)
    case CompleteRequest(id, caller, feedback, rating, now) =>
      Complete(store, id, caller, feedback, rating, now)
    case CancelRequest(id, caller, now) => Cancel(store, id, caller, now)
  }

  /** The store after serving `cmds` one after another; a failed request
      leaves the store as it was. */
  function Run(store: Store, cmds: seq<Command>): Store
    decreases |cmds|
  {
    if cmds == [] then store
    else
      var next := match Step(store, cmds[0]) case Ok(s) => s case Err(_) => store;
      Run(next, cmds[1..])
  }

  /** The status moves the handlers allow, closed under repetition:
      Pending -> Accepted -> Completed, and Pending/Accepted -> Cancelled. */
  predicate Reaches(a: Status, b: Status) {
    || a == b
    || (a == Pending && (b == Accepted || b == Completed || b == Cancelled))
    || (a == Accepted && (b == Completed || b == Cancelled))
  }

  predicate Terminal(s: Status) {
    s == Completed || s == Cancelled || s == Rejected
  }

  /** What a request keeps across a successful step: its booking, a status
      reachable from the old one, and an interviewer once set. */
  predicate Evolves(q: InterviewRequest, q': InterviewRequest) {
    && SameBooking(q, q')
    && Reaches(q.status, q'.status)
    && (q.interviewer.Some? ==> q'.interviewer == q.interviewer)
  }

  /** Every stored request evolves into its successor, and nothing is deleted. */
  predicate StoreEvolves(store: Store, store': Store) {
    && store.Keys <= store'.Keys
    && forall k :: k in store ==> Evolves(store[k], store'[k])
  }

  /** A request that changes only at `id`, and there evolves coherently,
      leaves a coherent, evolved store. */
  lemma OnlyAtPreserves(store: Store, s: Store, id: RequestId)
    requires StoreCoherent(store) && OnlyAt(store, s, id)
    requires Coherent(s[id]) && Evolves(store[id], s[id])
    ensures StoreCoherent(s) && StoreEvolves(store, s)
  {
  }

  lemma CreatePreserves(store: Store, newId: RequestId, caller: UserId, body: RequestBody, now: nat)
    requires StoreCoherent(store)
    ensures Create(store, newId, caller, body, now).Ok? ==>
      StoreCoherent(Create(store, newId, caller, body, now).value)
      && StoreEvolves(store, Create(store, newId, caller, body, now).value)
    ensures Create(store, newId, caller, body, now).Ok? ==>
      var s := Create(store, newId, caller, body, now).value;
      && s.Keys == store.Keys + {newId}
      && (forall k :: k in store ==> s[k] == store[k])
      && s[newId].status == Pending && s[newId].requester == caller
  {
    var r := Create(store, newId, caller, body, now);
    if r.Ok? {
      assert forall k :: k in store ==> r.value[k] == store[k];
    }
  }

  lemma AcceptPreserves(store: Store, id: RequestId, caller: UserId, users: set<UserId>,
                        calendar: CalendarResult, slug: string, now: nat)
    requires StoreCoherent(store)
    ensures Accept(store, id, caller, users, calendar, slug, now).Ok? ==>
      StoreCoherent(Accept(store, id, caller, users, calendar, slug, now).value)
      && StoreEvolves(store, Accept(store, id, caller, users, calendar, slug, now).value)
    ensures Accept(store, id, caller, users, calendar, slug, now).Ok? ==>
      var s := Accept(store, id, caller, users, calendar, slug, now).value;
      OnlyAt(store, s, id) && store[id].status == Pending && s[id].status == Accepted
  {
    var r := Accept(store, id, caller, users, calendar, slug, now);
    if r.Ok? {
      OnlyAtPreserves(store, r.value, id);
    }
  }

  lemma CompletePreserves(store: Store, id: RequestId, caller: UserId, feedback: string,
                          rating: Option<int>, now: nat)
    requires StoreCoherent(store)
    ensures Complete(store, id, caller, feedback, rating, now).Ok? ==>
      StoreCoherent(Complete(store, id, caller, feedback, rating, now).value)
      && StoreEvolves(store, Complete(store, id, caller, feedback, rating, now).value)
    ensures Complete(store, id, caller, feedback, rating, now).Ok? ==>
      var s := Complete(store, id, caller, feedback, rating, now).value;
      OnlyAt(store, s, id) && store[id].status == Accepted && s[id].status == Completed
  {
    var r := Complete(store, id, caller, feedback, rating, now);
    if r.Ok? {
      OnlyAtPreserves(store, r.value, id);
    }
  }

  lemma CancelPreserves(store: Store, id: RequestId, caller: UserId, now: nat)
    requires StoreCoherent(store)
    ensures Cancel(store, id, caller, now).Ok? ==>
      StoreCoherent(Cancel(store, id, caller, now).value)
      && StoreEvolves(store, Cancel(store, id, caller, now).value)
    ensures Cancel(store, id, caller, now).Ok? ==>
      var s := Cancel(store, id, caller, now).value;
      && OnlyAt(store, s, id)
      && (store[id].status == Pending || store[id].status == Accepted)
      && s[id].status == Cancelled
  {
    var r := Cancel(store, id, caller, now);
    if r.Ok? {
      OnlyAtPreserves(store, r.value, id);
    }
  }

  /** A successful step keeps every request coherent and lets each one evolve
      only along the allowed moves. */
  lemma StepPreserves(store: Store, cmd: Command)
    requires StoreCoherent(store)
    ensures Step(store, cmd).Ok? ==>
      StoreCoherent(Step(store, cmd).value) && StoreEvolves(store, Step(store, cmd).value)
  {
    match cmd
    case CreateRequest(newId, caller, body, now) => CreatePreserves(store, newId, caller, body, now);
    case AcceptRequest(id, caller, users, calendar, slug, now) =>
      AcceptPreserves(store, id, caller, users, calendar, slug, now);
    case CompleteRequest(id, caller, feedback, rating, now) =>
      CompletePreserves(store, id, caller, feedback, rating, now);
    case CancelRequest(id, caller, now) => CancelPreserves(store, id, caller, now);
  }

  lemma ReachesTransitive(a: Status, b: Status, c: Status)
    requires Reaches(a, b) && Reaches(b, c)
    ensures Reaches(a, c)
  {
  }

  /** Over any sequence of requests, starting from a coherent store: every
      request stays coherent, none disappears, none changes its requester,
      booking or creation time, none leaves a terminal status, and an
      interviewer once recorded is never replaced. */
  lemma {:induction false} RunPreserves(store: Store, cmds: seq<Command>)
    requires StoreCoherent(store)
    ensures StoreCoherent(Run(store, cmds))
    ensures StoreEvolves(store, Run(store, cmds))
    decreases |cmds|
  {
    if cmds != [] {
      StepPreserves(store, cmds[0]);
      var next := match Step(store, cmds[0]) case Ok(s) => s case Err(_) => store;
      RunPreserves(next, cmds[1..]);
      var final := Run(next, cmds[1..]);
      assert Run(store, cmds) == final;
      forall k | k in store
        ensures Evolves(store[k], final[k])
      {
        ReachesTransitive(store[k].status, next[k].status, final[k].status);
      }
    }
  }

  /** Starting from an empty collection, no request ever reaches `Rejected`. */
  lemma RejectedNeverProduced(cmds: seq<Command>, id: RequestId)
    ensures id in Run(map[], cmds) ==> Run(map[], cmds)[id].status != Rejected
  {
    RunPreserves(map[], cmds);
  }

  /** A request in a terminal status refuses every transition. */
  lemma TerminalIsFinal(store: Store, id: RequestId, caller: UserId, users: set<UserId>,
                        calendar: CalendarResult, slug: string, feedback: string,
                        rating: Option<int>, now: nat)
    requires id in store && Terminal(store[id].status)
    ensures Accept(store, id, caller, users, calendar, slug, now).Err?
    ensures Complete(store, id, caller, feedback, rating, now).Err?
    ensures Cancel(store, id, caller, now).Err?
  {
  }

  /** A Pending request cancelled by its requester ends Cancelled with no
      interviewer: absence of an interviewer does not imply Pending. */
  lemma CancelWhilePending(store: Store, id: RequestId, now: nat)
    requires StoreCoherent(store)
    requires id in store && store[id].status == Pending
    ensures Cancel(store, id, store[id].requester, now).Ok?
    ensures Cancel(store, id, store[id].requester, now).value[id].status == Cancelled
    ensures Cancel(store, id, store[id].requester, now).value[id].interviewer.None?
  {
  }

  /** Whether an accept succeeds never depends on the calendar. */
  lemma AcceptIgnoresCalendar(store: Store, id: RequestId, caller: UserId, users: set<UserId>,
                              c1: CalendarResult, c2: CalendarResult, slug: string, now: nat)
    ensures Accept(store, id, caller, users, c1, slug, now).Ok? ==
            Accept(store, id, caller, users, c2, slug, now).Ok?
  {
  }
}
