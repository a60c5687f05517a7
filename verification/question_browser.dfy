/** The client-side question list of public/js/interview-questions.js: the
    search and frequency filter, the sort selector, and the local refresh of
    a liked question. */
module QuestionBrowser {
  import opened Seqs
  import opened Sorting
  import opened Text
  import opened QuestionModel

  /** The search box: the lower-cased term occurs in the lower-cased question
      text, company or role. */
  predicate MatchesSearch(q: Question, term: string) {
    var t := Lower(term);
    Contains(Lower(q.question), t) || Contains(Lower(q.company), t) || Contains(Lower(q.role), t)
  }

  /** The frequency drop-down: the empty choice lets everything through,
      any other choice must equal the question's frequency name. */
  predicate MatchesFrequency(q: Question, filter: string) {
    filter == "" || FrequencyName(q.frequency) == filter
  }

  /** The `allQuestions.filter(...)` step of `filterQuestions`. */
  function SelectMatching(all: seq<Question>, term: string, frequencyFilter: string): (r: seq<Question>)
    ensures forall q :: q in r <==> q in all && MatchesSearch(q, term) && MatchesFrequency(q, frequencyFilter)
    ensures forall q ::
      multiset(r)[q] == (if MatchesSearch(q, term) && MatchesFrequency(q, frequencyFilter) then multiset(all)[q] else 0)
    ensures IsSubsequence(r, all)
  {
    Filter(all, (q: Question) => MatchesSearch(q, term) && MatchesFrequency(q, frequencyFilter))
  }

  /** An empty search with no frequency chosen shows every question, in order. */
  lemma EmptySearchKeepsAll(all: seq<Question>)
    ensures SelectMatching(all, "", "") == all
  {
    forall i | 0 <= i < |all|
      ensures MatchesSearch(all[i], "") && MatchesFrequency(all[i], "")
    {
      ContainsEmpty(Lower(all[i].question));
    }
    FilterKeepsAll(all, (q: Question) => MatchesSearch(q, "") && MatchesFrequency(q, ""));
  }

  /** `frequencyOrder` of `sortQuestions`. */
  function FrequencyRank(f: Frequency): (n: int)
    ensures 1 <= n <= 3
  {
    match f
    case FrequentlyAsked => 3
    case Sometimes => 2
    case Rare => 1
  }

  function ViewCount(q: Question): int { q.views }
  function LikeCount(q: Question): int { q.likes }
  function Recency(q: Question): int { q.createdAt }
  function Rank(q: Question): int { FrequencyRank(q.frequency) }

  /** The values of the sort selector `sortQuestions` acts on. */
  predicate KnownSortKey(sortBy: string) {
    sortBy == "recent" || sortBy == "views" || sortBy == "likes" || sortBy == "frequency"
  }

  /** `sortQuestions(sortBy)`: a stable descending sort by the chosen key;
      any other value of the selector leaves the list as it is. */
  function SortQuestions(qs: seq<Question>, sortBy: string): (r: seq<Question>)
    ensures multiset(r) == multiset(qs)
    ensures sortBy == "recent" ==> NonIncreasing(r, Recency)
    ensures sortBy == "views" ==> NonIncreasing(r, ViewCount)
    ensures sortBy == "likes" ==> NonIncreasing(r, LikeCount)
    ensures sortBy == "frequency" ==> NonIncreasing(r, Rank)
    ensures !KnownSortKey(sortBy) ==> r == qs
  {
    if sortBy == "recent" then SortDesc(qs, Recency)
    else if sortBy == "views" then SortDesc(qs, ViewCount)
    else if sortBy == "likes" then SortDesc(qs, LikeCount)
    else if sortBy == "frequency" then SortDesc(qs, Rank)
    else qs
  }

  /** The key `sortQuestions` compares by, if `sortBy` names one. */
  function SortKey(sortBy: string): Question -> int {
    if sortBy == "recent" then Recency
    else if sortBy == "views" then ViewCount
    else if sortBy == "likes" then LikeCount
    else Rank
  }

  /** Equal keys keep the order they had before the sort (JavaScript's sort
      is stable): for every key value, the questions carrying it appear in the
      same relative order before and after. */
  lemma SortQuestionsStable(qs: seq<Question>, sortBy: string, v: int)
    requires KnownSortKey(sortBy)
    ensures Filter(SortQuestions(qs, sortBy), KeyIs(SortKey(sortBy), v)) ==
            Filter(qs, KeyIs(SortKey(sortBy), v))
  {
  }

  /** Sorting by frequency lists every Frequently Asked question before every
      Sometimes question, and those before every Rare one. */
  lemma FrequencySortGroups(qs: seq<Question>)
    ensures var r := SortQuestions(qs, "frequency");
      forall i, j :: 0 <= i < j < |r| ==>
        (r[j].frequency == FrequentlyAsked ==> r[i].frequency == FrequentlyAsked)
        && (r[i].frequency == Rare ==> r[j].frequency == Rare)
  {
    var r := SortQuestions(qs, "frequency");
    forall i, j | 0 <= i < j < |r|
      ensures Rank(r[i]) >= Rank(r[j])
    {
    }
  }

  /** `filterQuestions()`: filter, then sort. The result holds exactly the
      matching questions, as many times as `allQuestions` holds them. */
  function FilterQuestions(all: seq<Question>, term: string, frequencyFilter: string, sortBy: string)
    : (r: seq<Question>)
    ensures forall q :: q in r <==> q in all && MatchesSearch(q, term) && MatchesFrequency(q, frequencyFilter)
    ensures multiset(r) == multiset(SelectMatching(all, term, frequencyFilter))
    ensures sortBy == "views" ==> NonIncreasing(r, ViewCount)
    ensures sortBy == "likes" ==> NonIncreasing(r, LikeCount)
    ensures sortBy == "recent" ==> NonIncreasing(r, Recency)
    ensures sortBy == "frequency" ==> NonIncreasing(r, Rank)
    ensures !KnownSortKey(sortBy) ==> IsSubsequence(r, all)
  {
    var r := SortQuestions(SelectMatching(all, term, frequencyFilter), sortBy);
    assert forall q :: q in r <==> q in multiset(r);
    r
  }

  /** `i` is the first position of `qs` holding a question with id `id`. */
  predicate FirstWithId(qs: seq<Question>, id: QuestionId, i: int) {
    && 0 <= i < |qs| && qs[i].id == id
    && forall j :: 0 <= j < i ==> qs[j].id != id
  }

  /** `array.findIndex(q => q._id === id)`: the first position holding `id`,
      or -1 when there is none. */
  method FindIndexById(qs: seq<Question>, id: QuestionId) returns (k: int)
    ensures k == -1 <==> forall j :: 0 <= j < |qs| ==> qs[j].id != id
    ensures k != -1 ==> FirstWithId(qs, id, k)
  {
    k := 0;
    while k < |qs|
      invariant 0 <= k <= |qs|
      invariant forall j :: 0 <= j < k ==> qs[j].id != id
    {
      if qs[k].id == id {
        return;
      }
      k := k + 1;
    }
    k := -1;
  }

  /** The refresh after a like (interview-questions.js:122-130), applied to one
      array: the first entry with the liked id is replaced by the server's
      copy, every other entry stays as it was. */
  method ReplaceById(qs: seq<Question>, id: QuestionId, updated: Question) returns (r: seq<Question>)
    ensures |r| == |qs|
    ensures forall i :: 0 <= i < |qs| && qs[i].id != id ==> r[i] == qs[i]
    ensures (forall j :: 0 <= j < |qs| ==> qs[j].id != id) ==> r == qs
    ensures forall i :: FirstWithId(qs, id, i) ==> r == qs[i := updated]
    ensures (exists i :: 0 <= i < |qs| && qs[i].id == id) ==> updated in r
  {
    var k := FindIndexById(qs, id);
    if k != -1 {
      r := qs[k := updated];
      assert r[k] == updated;
    } else {
      r := qs;
    }
  }

  /** Both arrays of the page, `allQuestions` and `filteredQuestions`, after a
      like came back from the server. */
  method RefreshLiked(all: seq<Question>, filtered: seq<Question>, id: QuestionId, updated: Question)
    returns (all': seq<Question>, filtered': seq<Question>)
    ensures |all'| == |all| && |filtered'| == |filtered|
    ensures forall i :: 0 <= i < |all| && all[i].id != id ==> all'[i] == all[i]
    ensures forall i :: 0 <= i < |filtered| && filtered[i].id != id ==> filtered'[i] == filtered[i]
    ensures forall i :: FirstWithId(all, id, i) ==> all' == all[i := updated]
    ensures forall i :: FirstWithId(filtered, id, i) ==> filtered' == filtered[i := updated]
    ensures (forall j :: 0 <= j < |all| ==> all[j].id != id) ==> all' == all
    ensures (forall j :: 0 <= j < |filtered| ==> filtered[j].id != id) ==> filtered' == filtered
    ensures (exists i :: 0 <= i < |all| && all[i].id == id) ==> updated in all'
    ensures (exists i :: 0 <= i < |filtered| && filtered[i].id == id) ==> updated in filtered'
  {
    all' := ReplaceById(all, id, updated);
    filtered' := ReplaceById(filtered, id, updated);
  }
}
