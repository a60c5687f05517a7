/** The per-user lists index.js keeps on the User document: the liked
    questions (PUT /api/questions/:id/like, index.js:336-355) and the saved
    study materials (DELETE /api/profile/study-materials/:materialId,
    index.js:290-301). */
module Profile {
  import opened Wrappers
  import opened Http
  import opened Seqs
  import opened QuestionModel
  import RequestModel

  type UserId = RequestModel.UserId

  /** An entry of `user.studyMaterials`. */
  datatype StudyMaterial = StudyMaterial(id: string, title: string, description: string, link: string, addedAt: int)

  /** The parts of a User document these handlers touch. */
  datatype User = User(likedQuestions: seq<QuestionId>, studyMaterials: seq<StudyMaterial>)

  /** Both collections after a like, and the answer sent: the updated
      question, `null` for an unknown question id, or a 500. */
  datatype LikeOutcome = LikeOutcome(
    questions: map<QuestionId, Question>,
    users: map<UserId, User>,
    answer: Result<Option<Question>, Failure>)

  /** `user.likedQuestions` after the like: the id is appended when absent. */
  function AddLiked(liked: seq<QuestionId>, qid: QuestionId): (r: seq<QuestionId>)
    ensures qid in liked ==> r == liked
    ensures qid !in liked ==> r == liked + [qid]
    ensures qid in r
    ensures forall x :: x in r <==> x in liked || x == qid
    ensures |liked| <= |r| <= |liked| + 1 && r[..|liked|] == liked
    ensures NoDuplicates(liked) ==> NoDuplicates(r)
  {
    if qid in liked then liked else liked + [qid]
  }

  /** PUT /api/questions/:id/like. The `$inc` on `likes` happens first and
      regardless of the user; then the caller's User document gains the id if
      it does not hold it yet. When the caller has no User document the
      handler reads a property of `null` and answers 500, with the increment
      already applied. */
  function Like(questions: map<QuestionId, Question>, users: map<UserId, User>,
                caller: UserId, qid: QuestionId): (o: LikeOutcome)
    ensures o.questions.Keys == questions.Keys
    ensures forall k :: k in questions && k != qid ==> o.questions[k] == questions[k]
    ensures qid in questions ==>
      o.questions[qid].likes == questions[qid].likes + 1
      && o.questions[qid].(likes := questions[qid].likes) == questions[qid]
    ensures caller !in users ==> o.answer == Err(Crashed(500)) && o.users == users
    ensures caller in users ==>
      o.answer == Ok(if qid in questions then Some(o.questions[qid]) else None)
    ensures caller in users ==> o.users.Keys == users.Keys
    ensures forall u :: u in users && u != caller ==> o.users[u] == users[u]
    ensures caller in users ==>
      && o.users[caller].studyMaterials == users[caller].studyMaterials
      && (qid in users[caller].likedQuestions ==>
            o.users[caller].likedQuestions == users[caller].likedQuestions)
      && (qid !in users[caller].likedQuestions ==>
            o.users[caller].likedQuestions == users[caller].likedQuestions + [qid])
  {
    var questions' :=
      if qid in questions then questions[qid := questions[qid].(likes := questions[qid].likes + 1)]
      else questions;
    if caller !in users then LikeOutcome(questions', users, Err(Crashed(500)))
    else
      var u := users[caller];
      var users' := users[caller := u.(likedQuestions := AddLiked(u.likedQuestions, qid))];
      LikeOutcome(questions', users', Ok(if qid in questions then Some(questions'[qid]) else None))
  }

  /** A user's liked list never holds an id twice, however often they like. */
  lemma LikeKeepsLikedDistinct(questions: map<QuestionId, Question>, users: map<UserId, User>,
                               caller: UserId, qid: QuestionId)
    requires caller in users && NoDuplicates(users[caller].likedQuestions)
    ensures NoDuplicates(Like(questions, users, caller, qid).users[caller].likedQuestions)
    ensures qid in Like(questions, users, caller, qid).users[caller].likedQuestions
  {
  }

  /** Liking twice counts twice but lists the question once. */
  lemma LikeTwice(questions: map<QuestionId, Question>, users: map<UserId, User>,
                  caller: UserId, qid: QuestionId)
    requires caller in users && qid in questions
    ensures var once := Like(questions, users, caller, qid);
            var twice := Like(once.questions, once.users, caller, qid);
            && twice.users == once.users
            && twice.questions[qid].likes == questions[qid].likes + 2
  {
  }

  /** The predicate `material._id.toString() !== materialId`. */
  function KeepsMaterial(materialId: string): StudyMaterial -> bool {
    (m: StudyMaterial) => m.id != materialId
  }

  /** DELETE /api/profile/study-materials/:materialId. The caller's list keeps
      exactly the entries with another id, in their original order; a missing
      User document makes the handler answer 500. */
  function RemoveStudyMaterial(users: map<UserId, User>, caller: UserId, materialId: string)
    : (r: Result<map<UserId, User>, Failure>)
    ensures r.Ok? <==> caller in users
    ensures caller !in users ==> r == Err(Crashed(500))
    ensures r.Ok? ==>
      && r.value.Keys == users.Keys
      && (forall u :: u in users && u != caller ==> r.value[u] == users[u])
      && r.value[caller].likedQuestions == users[caller].likedQuestions
    ensures r.Ok? ==>
      var before, after := users[caller].studyMaterials, r.value[caller].studyMaterials;
      && IsSubsequence(after, before)
      && (forall m :: m in after <==> m in before && m.id != materialId)
      && (forall m: StudyMaterial :: m.id != materialId ==> multiset(after)[m] == multiset(before)[m])
  {
    if caller !in users then Err(Crashed(500))
    else
      var u := users[caller];
      Ok(users[caller := u.(studyMaterials := Filter(u.studyMaterials, KeepsMaterial(materialId)))])
  }

  /** Removing the same material a second time changes nothing. */
  lemma RemoveStudyMaterialIdempotent(users: map<UserId, User>, caller: UserId, materialId: string)
    requires caller in users
    ensures var once := RemoveStudyMaterial(users, caller, materialId).value;
            RemoveStudyMaterial(once, caller, materialId) == Ok(once)
  {
    var once := RemoveStudyMaterial(users, caller, materialId).value;
    var u := once[caller];
    FilterIdempotent(users[caller].studyMaterials, KeepsMaterial(materialId));
    assert u.(studyMaterials := Filter(u.studyMaterials, KeepsMaterial(materialId))) == u;
    assert once[caller := u] == once;
  }
}
