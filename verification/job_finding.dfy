/** The nodes of the job-finding agent. The profile table, the LLM, the
    vector index and the jobs table are parameters: a lookup, two LLM
    calls and a search, each of which may raise, and the stored rows or the
    error the database raises.
 */
module JobFinding {
  import opened Wrappers
  import opened Text
  import opened AgentTypes

  /** `MultiJobEvaluationState`. A key that is absent and a key holding
      `None` are both `None` here. */
  datatype JobState = JobState(
    userId: string,
    userProfile: Option<UserProfile>,
    similaritySearchProfile: Option<KeywordList>,
    jobIds: Option<seq<seq<string>>>,
    jobInfo: Option<seq<JobRow>>,
    jobEvaluations: seq<JobEvaluation>)

  /** The dict a node returns: `None` for a key it does not set. The
      evaluations it returns go through the channel's reducer. */
  datatype Update = Update(
    userProfile: Option<UserProfile>,
    similaritySearchProfile: Option<KeywordList>,
    jobIds: Option<seq<seq<string>>>,
    jobInfo: Option<seq<JobRow>>,
    jobEvaluations: seq<JobEvaluation>)

  const NoUpdate: Update := Update(None, None, None, None, [])

  /** An exception raised inside a node: a missing user, a state without a
      profile (`KeyError` or `AttributeError`), a failed LLM call, or an
      error of the embedding API, the vector store or the jobs database. */
  datatype AgentError =
    | UserNotFound(userId: string)
    | MissingProfile
    | LlmError(message: string)
    | ServiceError(message: string)

  /** How LangGraph merges a node's return value into the state: a set key
      replaces the old value, and `job_evaluations` is appended to. */
  function Apply(s: JobState, u: Update): (r: JobState)
    ensures r.userId == s.userId
    ensures r.jobEvaluations == s.jobEvaluations + u.jobEvaluations
    ensures u.userProfile.None? ==> r.userProfile == s.userProfile
    ensures u.similaritySearchProfile.None? ==> r.similaritySearchProfile == s.similaritySearchProfile
    ensures u.jobIds.None? ==> r.jobIds == s.jobIds
    ensures u.jobInfo.None? ==> r.jobInfo == s.jobInfo
    ensures u == NoUpdate ==> r == s
  {
    JobState(
      s.userId,
      if u.userProfile.Some? then u.userProfile else s.userProfile,
      if u.similaritySearchProfile.Some? then u.similaritySearchProfile else s.similaritySearchProfile,
      if u.jobIds.Some? then u.jobIds else s.jobIds,
      if u.jobInfo.Some? then u.jobInfo else s.jobInfo,
      AddEvaluations(s.jobEvaluations, u.jobEvaluations))
  }

  /** `retrieve_profile_from_db`: the user's stored profile, or the
      exception the lookup raises. */
  function RetrieveProfileFromDb(s: JobState, lookup: string -> Result<UserProfile, AgentError>): (r: Result<Update, AgentError>)
    ensures r.Success? <==> lookup(s.userId).Success?
    ensures r.Success? ==> r.value == NoUpdate.(userProfile := Some(lookup(s.userId).value))
  {
    var profile :- lookup(s.userId);
    Success(NoUpdate.(userProfile := Some(profile)))
  }

  /** `prepare_profile_for_similarity_search`: the keyword list the LLM
      extracts from the profile. Reading `state['user_profile']` and then
      its `name` raises before the LLM is called when the state holds no
      profile. */
  function PrepareProfileForSimilaritySearch(s: JobState, extract: UserProfile -> Result<KeywordList, AgentError>): (r: Result<Update, AgentError>)
    ensures s.userProfile.None? ==> r == Failure(MissingProfile)
    ensures s.userProfile.Some? ==> (r.Success? <==> extract(s.userProfile.value).Success?)
    ensures s.userProfile.Some? && r.Failure? ==> r.error == extract(s.userProfile.value).error
    ensures r.Success? ==> r.value == NoUpdate.(similaritySearchProfile := Some(extract(s.userProfile.value).value))
  {
    match s.userProfile
    case None => Failure(MissingProfile)
    case Some(profile) =>
      var keywords :- extract(profile);
      Success(NoUpdate.(similaritySearchProfile := Some(keywords)))
  }

  /** `results_to_retrieve`. */
  const ResultsToRetrieve: nat := 20

  /** One call of `similarity_search_with_relevance_scores`. */
  datatype SearchRequest = SearchRequest(query: string, k: nat)

  /** The query for a keyword list: the keywords joined with `", "`. */
  function SearchFor(keywords: KeywordList): SearchRequest {
    SearchRequest(Join(", ", keywords.keywords), ResultsToRetrieve)
  }

  /** `retrieve_id_similarity_search`: the update, or the error the
      embedding or the search raises, and the query it sends to the index,
      if any. A `KeywordList` object is always truthy, so only a missing
      keyword list skips the search; an empty one searches for `""`. */
  function RetrieveIdSimilaritySearch(s: JobState, index: SearchRequest -> Result<seq<string>, AgentError>): (r: (Result<Update, AgentError>, Option<SearchRequest>))
    ensures s.similaritySearchProfile.None? ==> r == (Success(NoUpdate.(jobIds := Some([]))), None)
    ensures s.similaritySearchProfile.Some? ==>
      var request := SearchFor(s.similaritySearchProfile.value);
      && r.1 == Some(request)
      && (r.0.Success? <==> index(request).Success?)
      && (r.0.Success? ==> r.0.value == NoUpdate.(jobIds := Some([index(request).value])))
      && (r.0.Failure? ==> r.0.error == index(request).error)
  {
    match s.similaritySearchProfile
    case None => (Success(NoUpdate.(jobIds := Some([]))), None)
    case Some(keywordList) =>
      var request := SearchFor(keywordList);
      match index(request)
      case Failure(e) => (Failure(e), Some(request))
      case Success(ids) => (Success(NoUpdate.(jobIds := Some([ids]))), Some(request))
  }

  /** `set(item for sublist in ids for item in sublist)`. */
  function FlattenIds(nested: seq<seq<string>>): set<string> {
    if nested == [] then {} else (set x | x in nested[0]) + FlattenIds(nested[1..])
  }

  /** An id survives flattening exactly when some sub-list holds it. */
  lemma {:induction false} FlattenIdsMembers(nested: seq<seq<string>>, x: string)
    ensures x in FlattenIds(nested) <==> exists i :: 0 <= i < |nested| && x in nested[i]
  {
    if nested != [] {
      FlattenIdsMembers(nested[1..], x);
      if x in FlattenIds(nested[1..]) {
        var i :| 0 <= i < |nested| - 1 && x in nested[1..][i];
        assert x in nested[i + 1];
      }
      if x !in nested[0] && exists i :: 0 <= i < |nested| && x in nested[i] {
        var i :| 0 <= i < |nested| && x in nested[i];
        assert x in nested[1..][i - 1];
      }
    }
  }

  /** `Job.objects.filter(id__in=ids)`: the stored rows whose id is in
      `ids`, in the store's order. */
  function FilterRows(store: seq<JobRow>, ids: set<string>): seq<JobRow> {
    if store == [] then []
    else if store[0].id in ids then [store[0]] + FilterRows(store[1..], ids)
    else FilterRows(store[1..], ids)
  }

  /** The id column is the primary key. */
  predicate UniqueIds(rows: seq<JobRow>) {
    forall i, j :: 0 <= i < j < |rows| ==> rows[i].id != rows[j].id
  }

  /** The ids `retrieve_jobs_from_ids` asks for. The graph always sets
      `job_ids` before this node runs; a state without it is read as `[]`. */
  function RequestedIds(s: JobState): set<string> {
    FlattenIds(s.jobIds.GetOr([]))
  }

  /** `retrieve_jobs_from_ids`, given the stored rows or the error the
      database raises. Django answers `filter(id__in=[])` without a query,
      so with no id the database is never reached. */
  function RetrieveJobsFromIds(s: JobState, jobs: Result<seq<JobRow>, AgentError>): (r: Result<Update, AgentError>)
    ensures r.Failure? <==> RequestedIds(s) != {} && jobs.Failure?
    ensures r.Failure? ==> r.error == jobs.error
    ensures r.Success? ==> r.value == NoUpdate.(jobInfo := r.value.jobInfo) && r.value.jobInfo.Some?
    ensures r.Success? ==> forall row :: row in r.value.jobInfo.value <==>
      jobs.Success? && row in jobs.value && row.id in RequestedIds(s)
  {
    var ids := RequestedIds(s);
    if ids == {} then
      Success(NoUpdate.(jobInfo := Some([])))
    else
      var rows :- jobs;
      FilterRowsMembers(rows, ids);
      Success(NoUpdate.(jobInfo := Some(FilterRows(rows, ids))))
  }

  /** The hydrated jobs are exactly the stored rows with a requested id. */
  lemma {:induction false} FilterRowsMembers(store: seq<JobRow>, ids: set<string>)
    ensures forall row :: row in FilterRows(store, ids) <==> row in store && row.id in ids
  {
    if store != [] {
      FilterRowsMembers(store[1..], ids);
      assert forall row :: row in store <==> row == store[0] || row in store[1..];
    }
  }

  /** No id requested, no row. */
  lemma {:induction false} FilterRowsNone(store: seq<JobRow>)
    ensures FilterRows(store, {}) == []
  {
    if store != [] {
      FilterRowsNone(store[1..]);
    }
  }

  /** The position of a row in the store. */
  function Position(store: seq<JobRow>, row: JobRow): (i: nat)
    requires row in store
    ensures i < |store| && store[i] == row
  {
    if store[0] == row then 0 else Position(store[1..], row) + 1
  }

  /** The rows keep the store's order, and no row comes twice. */
  lemma {:induction false} FilterRowsOrdered(store: seq<JobRow>, ids: set<string>)
    requires UniqueIds(store)
    ensures UniqueIds(FilterRows(store, ids))
    ensures forall k :: 0 <= k < |FilterRows(store, ids)| ==> FilterRows(store, ids)[k] in store
    ensures forall k, l :: 0 <= k < l < |FilterRows(store, ids)| ==>
      Position(store, FilterRows(store, ids)[k]) < Position(store, FilterRows(store, ids)[l])
  {
    if store != [] {
      var rest := FilterRows(store[1..], ids);
      FilterRowsOrdered(store[1..], ids);
      FilterRowsMembers(store[1..], ids);
      forall k | 0 <= k < |rest|
        ensures rest[k].id != store[0].id && Position(store, rest[k]) == Position(store[1..], rest[k]) + 1
      {
        var p := Position(store[1..], rest[k]);
        assert store[p + 1] == rest[k];
      }
      if store[0].id in ids {
        var r := [store[0]] + rest;
        assert forall k :: 1 <= k < |r| ==> r[k] == rest[k - 1];
      }
    }
  }

  /** One `Send('evaluate_fit', {...})`. */
  datatype Send = Send(node: string, job: JobRow, userProfile: Option<UserProfile>)

  /** `send_to_evaluate_fit`: one send per hydrated job, in order, each with
      the same profile. */
  function SendToEvaluateFit(s: JobState): (r: seq<Send>)
    ensures |r| == |s.jobInfo.GetOr([])|
    ensures forall k :: 0 <= k < |r| ==> r[k] == Send("evaluate_fit", s.jobInfo.GetOr([])[k], s.userProfile)
  {
    SendsFor(s.jobInfo.GetOr([]), s.userProfile)
  }

  function SendsFor(jobs: seq<JobRow>, profile: Option<UserProfile>): (r: seq<Send>)
    ensures |r| == |jobs|
    ensures forall k :: 0 <= k < |r| ==> r[k] == Send("evaluate_fit", jobs[k], profile)
  {
    if jobs == [] then [] else [Send("evaluate_fit", jobs[0], profile)] + SendsFor(jobs[1..], profile)
  }

  /** `evaluate_fit`: the LLM's evaluation of one job, with its `job_id`
      overwritten by the job's id. */
  function EvaluateFit(send: Send, judge: (JobRow, Option<UserProfile>) -> Result<JobEvaluation, AgentError>): (r: Result<Update, AgentError>)
    ensures r.Success? <==> judge(send.job, send.userProfile).Success?
    ensures r.Success? ==>
      var e := judge(send.job, send.userProfile).value;
      r.value == NoUpdate.(jobEvaluations := [JobEvaluation(send.job.id, e.fitScores, e.fitEvaluations)])
  {
    var evaluation :- judge(send.job, send.userProfile);
    Success(NoUpdate.(jobEvaluations := [evaluation.(jobId := send.job.id)]))
  }

  /** Whatever id the LLM wrote, the evaluation carries the job's own id. */
  lemma EvaluationCarriesJobId(send: Send, judge: (JobRow, Option<UserProfile>) -> Result<JobEvaluation, AgentError>)
    requires EvaluateFit(send, judge).Success?
    ensures |EvaluateFit(send, judge).value.jobEvaluations| == 1
    ensures EvaluateFit(send, judge).value.jobEvaluations[0].jobId == send.job.id
    ensures EvaluateFit(send, judge).value.jobEvaluations[0].fitScores == judge(send.job, send.userProfile).value.fitScores
  {
  }

  /** Without a keyword list no search is made and no job is hydrated,
      whatever the index and the database would have answered. */
  lemma NoKeywordsNoJobs(s: JobState, index: SearchRequest -> Result<seq<string>, AgentError>, jobs: Result<seq<JobRow>, AgentError>)
    requires s.similaritySearchProfile.None?
    ensures RetrieveIdSimilaritySearch(s, index).1.None?
    ensures RetrieveIdSimilaritySearch(s, index).0.Success?
    ensures RetrieveJobsFromIds(Apply(s, RetrieveIdSimilaritySearch(s, index).0.value), jobs) == Success(NoUpdate.(jobInfo := Some([])))
  {
    var s' := Apply(s, RetrieveIdSimilaritySearch(s, index).0.value);
    assert s'.jobIds == Some([]);
    assert FlattenIds([]) == {};
  }

  /** With a keyword list, the search fails exactly when the index raises
      on the one query; otherwise the hydrated jobs are the stored rows
      among the index's answer, and the database is reached, and may fail
      the node, only when the answer is not empty. */
  lemma SearchThenHydrate(s: JobState, index: SearchRequest -> Result<seq<string>, AgentError>, jobs: Result<seq<JobRow>, AgentError>)
    requires s.similaritySearchProfile.Some?
    ensures var (u, request) := RetrieveIdSimilaritySearch(s, index);
      && request == Some(SearchFor(s.similaritySearchProfile.value))
      && (u.Failure? <==> index(request.value).Failure?)
      && (u.Success? ==>
        var ids := index(request.value).value;
        var r := RetrieveJobsFromIds(Apply(s, u.value), jobs);
        && (r.Failure? <==> ids != [] && jobs.Failure?)
        && (r.Success? ==> forall row :: row in r.value.jobInfo.value <==>
          jobs.Success? && row in jobs.value && row.id in ids))
  {
    var (u, request) := RetrieveIdSimilaritySearch(s, index);
    if u.Success? {
      var ids := index(request.value).value;
      var s' := Apply(s, u.value);
      assert s'.jobIds == Some([ids]);
      forall x
        ensures x in RequestedIds(s') <==> x in ids
      {
        FlattenIdsMembers([ids], x);
      }
      if ids != [] {
        assert ids[0] in RequestedIds(s');
      }
    }
  }
}
