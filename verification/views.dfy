/** The three read projections of index.js:429-472. Each one selects the
    requests satisfying a filter and answers them newest first, the order of
    `.sort({ createdAt: -1 })`. They read the store and never change it. */
module Views {
  import opened Wrappers
  import opened RequestModel
  import opened Lifecycle
  import opened Seqs
  import opened Sorting

  function CreatedAt(q: InterviewRequest): int {
    q.createdAt
  }

  /** The answer to `find(filter).sort({ createdAt: -1 })`: exactly the stored
      requests that `keep` accepts, each once, newest first. MongoDB leaves the
      order of equal timestamps open; any order among them is allowed here. */
  predicate IsNewestFirstSelection(store: Store, keep: InterviewRequest -> bool, rs: seq<InterviewRequest>) {
    && NonIncreasing(rs, CreatedAt)
    && NoDuplicates(rs)
    && (forall i :: 0 <= i < |rs| ==> rs[i].id in store && store[rs[i].id] == rs[i])
    && (forall k :: k in store ==> (store[k] in rs <==> keep(store[k])))
  }

  /** Every element of `rs'` is `q` or an element of `rs`; all of them are
      stored, selected, and outside `rest`. */
  lemma KeepsStored(store: Store, keep: InterviewRequest -> bool, rest: set<RequestId>,
                    rs: seq<InterviewRequest>, q: InterviewRequest, rs': seq<InterviewRequest>)
    requires q.id in store && q.id !in rest && store[q.id] == q && keep(q)
    requires forall i :: 0 <= i < |rs| ==>
      rs[i].id in store && rs[i].id !in rest && store[rs[i].id] == rs[i] && keep(rs[i])
    requires forall x :: x in rs' <==> x in rs || x == q
    ensures forall i :: 0 <= i < |rs'| ==>
      rs'[i].id in store && rs'[i].id !in rest && store[rs'[i].id] == rs'[i] && keep(rs'[i])
  {
    forall i | 0 <= i < |rs'|
      ensures rs'[i].id in store && rs'[i].id !in rest && store[rs'[i].id] == rs'[i] && keep(rs'[i])
    {
      assert rs'[i] in rs';
      if rs'[i] != q {
        var j :| 0 <= j < |rs| && rs[j] == rs'[i];
      }
    }
  }

  /** Scans the collection once, inserting every selected request at its
      place in the newest-first answer. */
  method SelectNewestFirst(store: Store, keep: InterviewRequest -> bool) returns (rs: seq<InterviewRequest>)
    ensures IsNewestFirstSelection(store, keep, rs)
  {
    rs := [];
    var rest := store.Keys;
    while rest != {}
      invariant rest <= store.Keys
      invariant NonIncreasing(rs, CreatedAt)
      invariant forall x :: multiset(rs)[x] <= 1
      invariant forall i :: 0 <= i < |rs| ==>
        rs[i].id in store && rs[i].id !in rest && store[rs[i].id] == rs[i] && keep(rs[i])
      invariant forall k :: k in store && k !in rest ==> (store[k] in rs <==> keep(store[k]))
      decreases rest
    {
      var k :| k in rest;
      rest := rest - {k};
      var q := store[k];
      if keep(q) {
        assert q !in rs;
        var rs' := InsertDesc(q, rs, CreatedAt);
        InsertDescSorted(q, rs, CreatedAt);
        InsertDescMembers(q, rs, CreatedAt);
        KeepsStored(store, keep, rest, rs, q, rs');
        rs := rs';
      } else {
        assert q !in rs;
      }
    }
    NoDuplicatesCounts(rs);
  }

  /** GET /api/interview-requests/my-requests: every request the caller made. */
  method MyRequests(store: Store, caller: UserId) returns (rs: seq<InterviewRequest>)
    ensures NonIncreasing(rs, CreatedAt) && NoDuplicates(rs)
    ensures forall i :: 0 <= i < |rs| ==> rs[i].id in store && store[rs[i].id] == rs[i]
    ensures forall k :: k in store ==> (store[k] in rs <==> store[k].requester == caller)
  {
    rs := SelectNewestFirst(store, (q: InterviewRequest) => q.requester == caller);
  }

  /** GET /api/interview-requests/available: the Pending requests of other users. */
  method Available(store: Store, caller: UserId) returns (rs: seq<InterviewRequest>)
    ensures NonIncreasing(rs, CreatedAt) && NoDuplicates(rs)
    ensures forall i :: 0 <= i < |rs| ==> rs[i].id in store && store[rs[i].id] == rs[i]
    ensures forall k :: k in store ==>
      (store[k] in rs <==> store[k].status == Pending && store[k].requester != caller)
  {
    rs := SelectNewestFirst(store, (q: InterviewRequest) => q.status == Pending && q.requester != caller);
  }

  /** GET /api/interview-requests/history: the finished requests the caller
      took part in, as requester or as interviewer. */
  method History(store: Store, caller: UserId) returns (rs: seq<InterviewRequest>)
    ensures NonIncreasing(rs, CreatedAt) && NoDuplicates(rs)
    ensures forall i :: 0 <= i < |rs| ==> rs[i].id in store && store[rs[i].id] == rs[i]
    ensures forall k :: k in store ==>
      (store[k] in rs <==>
        (store[k].requester == caller || store[k].interviewer == Some(caller))
        && (store[k].status == Completed || store[k].status == Cancelled))
  {
    rs := SelectNewestFirst(store, (q: InterviewRequest) =>
      (q.requester == caller || q.interviewer == Some(caller))
      && (q.status == Completed || q.status == Cancelled));
  }
}
