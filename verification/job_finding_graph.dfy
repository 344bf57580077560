/** The job-finding graph of `build_job_finding_graph`: four nodes in a
    fixed line, then a conditional fan-out that sends every hydrated job to
    its own `evaluate_fit` task, each of which ends the run. The graph is
    compiled without interrupts, so a run goes from start to finish or
    stops at the first exception.

    The tasks of the fan-out run in one step; their updates are merged in
    the order of the sends.
 */
module JobFindingGraph {
  import opened Wrappers
  import opened AgentTypes
  import JobFinding

  /** The registered nodes. */
  datatype Node =
    | RetrieveProfileFromDb
    | PrepareProfileForSimilaritySearch
    | RetrieveIdSimilaritySearch
    | RetrieveJobsFromIds
    | EvaluateFit

  /** The fixed edges `START -> ... -> retrieve_jobs_from_ids`. */
  const LinearOrder: seq<Node> :=
    [RetrieveProfileFromDb, PrepareProfileForSimilaritySearch, RetrieveIdSimilaritySearch, RetrieveJobsFromIds]

  /** What the nodes talk to: the profile lookup, the two LLM calls, the
      vector index and the jobs table; each of them may raise. */
  datatype Environment = Environment(
    lookup: string -> Result<UserProfile, JobFinding.AgentError>,
    extract: UserProfile -> Result<KeywordList, JobFinding.AgentError>,
    index: JobFinding.SearchRequest -> Result<seq<string>, JobFinding.AgentError>,
    jobs: Result<seq<JobRow>, JobFinding.AgentError>,
    judge: (JobRow, Option<UserProfile>) -> Result<JobEvaluation, JobFinding.AgentError>)

  /** Where a run is: about to run the `k`-th node of the line, about to run
      the pending `evaluate_fit` tasks, or at `END`. */
  datatype Phase = At(k: nat) | FanOut(pending: seq<JobFinding.Send>) | Finished

  /** How far a phase is from `END`. */
  function Rank(phase: Phase): nat {
    match phase
    case At(k) => if k < 4 then 5 - k else 0
    case FanOut(_) => 1
    case Finished => 0
  }

  /** Runs one node of the line. Each raises only when the service it
      calls does: the search only with a keyword list to search for, the
      hydration only with an id to look up. */
  function RunLinear(env: Environment, k: nat, s: JobFinding.JobState): (r: Result<JobFinding.Update, JobFinding.AgentError>)
    requires k < 4
    ensures r.Success? ==> r.value.jobEvaluations == []
    ensures k == 0 ==> (r.Failure? <==> env.lookup(s.userId).Failure?)
    ensures k == 1 ==> (r.Failure? <==> s.userProfile.None? || env.extract(s.userProfile.value).Failure?)
    ensures k == 2 ==> (r.Failure? <==>
      s.similaritySearchProfile.Some? && env.index(JobFinding.SearchFor(s.similaritySearchProfile.value)).Failure?)
    ensures k == 3 ==> (r.Failure? <==> JobFinding.RequestedIds(s) != {} && env.jobs.Failure?)
  {
    if k == 0 then JobFinding.RetrieveProfileFromDb(s, env.lookup)
    else if k == 1 then JobFinding.PrepareProfileForSimilaritySearch(s, env.extract)
    else if k == 2 then JobFinding.RetrieveIdSimilaritySearch(s, env.index).0
    else JobFinding.RetrieveJobsFromIds(s, env.jobs)
  }

  /** The `evaluate_fit` tasks, in send order; the first exception stops
      the run. */
  function EvaluateAll(env: Environment, sends: seq<JobFinding.Send>): (r: Result<seq<JobFinding.Update>, JobFinding.AgentError>)
    ensures r.Success? ==> |r.value| == |sends|
    ensures r.Success? ==> forall k :: 0 <= k < |sends| ==> JobFinding.EvaluateFit(sends[k], env.judge) == Success(r.value[k])
    ensures r.Failure? <==> exists k :: 0 <= k < |sends| && JobFinding.EvaluateFit(sends[k], env.judge).Failure?
  {
    if sends == [] then Success([])
    else
      var u :- JobFinding.EvaluateFit(sends[0], env.judge);
      var rest :- EvaluateAll(env, sends[1..]);
      assert forall k :: 1 <= k < |sends| ==> sends[k] == sends[1..][k - 1];
      Success([u] + rest)
  }

  /** The state after the updates of one step, merged in order. */
  function ApplyAll(s: JobFinding.JobState, updates: seq<JobFinding.Update>): JobFinding.JobState
    decreases |updates|
  {
    if updates == [] then s else ApplyAll(JobFinding.Apply(s, updates[0]), updates[1..])
  }

  /** The evaluations the updates carry. */
  function EvaluationsOf(updates: seq<JobFinding.Update>): (r: seq<seq<JobEvaluation>>)
    ensures |r| == |updates|
    ensures forall k :: 0 <= k < |updates| ==> r[k] == updates[k].jobEvaluations
  {
    if updates == [] then [] else [updates[0].jobEvaluations] + EvaluationsOf(updates[1..])
  }

  /** Merging updates that only add evaluations is the channel's fan-in. */
  lemma {:induction false} ApplyAllEvaluations(s: JobFinding.JobState, updates: seq<JobFinding.Update>)
    requires forall k :: 0 <= k < |updates| ==> updates[k] == JobFinding.NoUpdate.(jobEvaluations := updates[k].jobEvaluations)
    ensures ApplyAll(s, updates) == s.(jobEvaluations := FanIn(s.jobEvaluations, EvaluationsOf(updates)))
    decreases |updates|
  {
    if updates != [] {
      var s' := JobFinding.Apply(s, updates[0]);
      assert s' == s.(jobEvaluations := AddEvaluations(s.jobEvaluations, updates[0].jobEvaluations));
      ApplyAllEvaluations(s', updates[1..]);
      assert EvaluationsOf(updates)[1..] == EvaluationsOf(updates[1..]);
    }
  }

  /** One step of the run: the next phase, the new state and the nodes
      that ran. */
  function Step(env: Environment, phase: Phase, s: JobFinding.JobState): (r: Result<(Phase, JobFinding.JobState, seq<Node>), JobFinding.AgentError>)
    requires Rank(phase) > 0
    ensures r.Success? ==> Rank(r.value.0) < Rank(phase)
  {
    match phase
    case At(k) =>
      var u :- RunLinear(env, k, s);
      var s' := JobFinding.Apply(s, u);
      if k < 3 then Success((At(k + 1), s', [LinearOrder[k]]))
      else
        var sends := JobFinding.SendToEvaluateFit(s');
        Success((if sends == [] then Finished else FanOut(sends), s', [LinearOrder[k]]))
    case FanOut(sends) =>
      var updates :- EvaluateAll(env, sends);
      Success((Finished, ApplyAll(s, updates), seq(|sends|, _ => EvaluateFit)))
  }

  /** How a run ends. With no interrupts there is no suspended outcome. */
  datatype Outcome =
    | Completed(state: JobFinding.JobState, trace: seq<Node>)
    | Failed(error: JobFinding.AgentError, trace: seq<Node>)

  function RunFrom(env: Environment, phase: Phase, s: JobFinding.JobState, trace: seq<Node>): Outcome
    decreases Rank(phase)
  {
    if Rank(phase) == 0 then Completed(s, trace)
    else
      match Step(env, phase, s)
      case Failure(e) => Failed(e, trace)
      case Success((next, s', ran)) => RunFrom(env, next, s', trace + ran)
  }

  /** `graph.invoke(initial_state)`. */
  function Run(env: Environment, s0: JobFinding.JobState): Outcome {
    RunFrom(env, At(0), s0, [])
  }

  /** `len(job_info)` copies of `evaluate_fit`. */
  function EvaluateFitRuns(n: nat): (r: seq<Node>)
    ensures |r| == n && forall k :: 0 <= k < n ==> r[k] == EvaluateFit
  {
    seq(n, _ => EvaluateFit)
  }

  /** The state after nodes `k` to 3 of the line, if they all succeed. */
  function AfterLine(env: Environment, k: nat, s: JobFinding.JobState): Result<JobFinding.JobState, JobFinding.AgentError>
    requires k <= 4
    decreases 4 - k
  {
    if k == 4 then Success(s)
    else
      var u :- RunLinear(env, k, s);
      AfterLine(env, k + 1, JobFinding.Apply(s, u))
  }

  /** The state after nodes 0 to `k - 1` of the line, if they all succeed. */
  function BeforeNode(env: Environment, k: nat, s0: JobFinding.JobState): Result<JobFinding.JobState, JobFinding.AgentError>
    requires k <= 4
  {
    if k == 0 then Success(s0)
    else
      var s :- BeforeNode(env, k - 1, s0);
      var u :- RunLinear(env, k - 1, s);
      Success(JobFinding.Apply(s, u))
  }

  /** A run that got through the first `k` nodes is at node `k`, with
      those nodes in its trace. */
  lemma {:induction false} PrefixRun(env: Environment, s0: JobFinding.JobState, k: nat)
    requires k <= 3
    requires BeforeNode(env, k, s0).Success?
    ensures Run(env, s0) == RunFrom(env, At(k), BeforeNode(env, k, s0).value, LinearOrder[..k])
  {
    if k > 0 {
      var s := BeforeNode(env, k - 1, s0).value;
      PrefixRun(env, s0, k - 1);
      LineStep(env, k - 1, s, LinearOrder[..k - 1]);
      assert LinearOrder[..k - 1] + [LinearOrder[k - 1]] == LinearOrder[..k];
    }
  }

  /** A node of the line that raises ends the run with its error, after
      exactly the nodes before it. */
  lemma LineFailsAt(env: Environment, s0: JobFinding.JobState, k: nat)
    requires k <= 3
    requires BeforeNode(env, k, s0).Success?
    requires RunLinear(env, k, BeforeNode(env, k, s0).value).Failure?
    ensures Run(env, s0) == Failed(RunLinear(env, k, BeforeNode(env, k, s0).value).error, LinearOrder[..k])
  {
    PrefixRun(env, s0, k);
    LineStep(env, k, BeforeNode(env, k, s0).value, LinearOrder[..k]);
  }

  /** A profile lookup that raises ends the run at the first node, before
      any other service is called. With the models of the repository,
      `user.profile` has no relation to follow, so this is every run. */
  lemma LookupFailureFailsRun(env: Environment, s0: JobFinding.JobState)
    ensures env.lookup(s0.userId).Failure? ==> Run(env, s0) == Failed(env.lookup(s0.userId).error, [])
  {
  }

  /** Once the keywords are prepared, an index that raises on their query
      fails the run after the first two nodes. */
  lemma SearchFailureFailsRun(env: Environment, s0: JobFinding.JobState)
    requires BeforeNode(env, 2, s0).Success?
    ensures var s := BeforeNode(env, 2, s0).value;
      && s.similaritySearchProfile.Some?
      && var result := env.index(JobFinding.SearchFor(s.similaritySearchProfile.value));
        result.Failure? ==> Run(env, s0) == Failed(result.error, [RetrieveProfileFromDb, PrepareProfileForSimilaritySearch])
  {
    var s1 := BeforeNode(env, 1, s0).value;
    var s := BeforeNode(env, 2, s0).value;
    assert s == JobFinding.Apply(s1, RunLinear(env, 1, s1).value);
    var result := env.index(JobFinding.SearchFor(s.similaritySearchProfile.value));
    if result.Failure? {
      LineFailsAt(env, s0, 2);
      assert LinearOrder[..2] == [RetrieveProfileFromDb, PrepareProfileForSimilaritySearch];
    }
  }

  /** A database that raises fails the run at the hydration node when the
      search found an id, and is never reached when it found none. */
  lemma DatabaseFailureFailsRun(env: Environment, s0: JobFinding.JobState)
    requires BeforeNode(env, 3, s0).Success?
    ensures var s := BeforeNode(env, 3, s0).value;
      && (JobFinding.RequestedIds(s) != {} && env.jobs.Failure? ==>
        Run(env, s0) == Failed(env.jobs.error, LinearOrder[..3]))
      && (JobFinding.RequestedIds(s) == {} ==>
        RunLinear(env, 3, s) == Success(JobFinding.NoUpdate.(jobInfo := Some([]))))
  {
    var s := BeforeNode(env, 3, s0).value;
    if JobFinding.RequestedIds(s) != {} && env.jobs.Failure? {
      LineFailsAt(env, s0, 3);
    }
  }

  /** The phase `send_to_evaluate_fit` routes to. */
  function AfterHydration(s: JobFinding.JobState): Phase {
    var sends := JobFinding.SendToEvaluateFit(s);
    if sends == [] then Finished else FanOut(sends)
  }

  /** One node of the line: it raises, or the run continues at the next
      node, or at the fan-out after the last one. */
  lemma LineStep(env: Environment, k: nat, s: JobFinding.JobState, trace: seq<Node>)
    requires k <= 3
    ensures RunLinear(env, k, s).Failure? ==>
      RunFrom(env, At(k), s, trace) == Failed(RunLinear(env, k, s).error, trace)
    ensures RunLinear(env, k, s).Success? ==>
      var s' := JobFinding.Apply(s, RunLinear(env, k, s).value);
      RunFrom(env, At(k), s, trace) == RunFrom(env, if k < 3 then At(k + 1) else AfterHydration(s'), s', trace + [LinearOrder[k]])
  {
  }

  /** Running the line from node `k` stops at the first node that raises,
      before the end of the line. */
  lemma {:induction false} LineRunFails(env: Environment, k: nat, s: JobFinding.JobState, trace: seq<Node>)
    requires k <= 3
    requires AfterLine(env, k, s).Failure?
    ensures RunFrom(env, At(k), s, trace).Failed?
    ensures RunFrom(env, At(k), s, trace).error == AfterLine(env, k, s).error
    ensures |RunFrom(env, At(k), s, trace).trace| < |trace| + 4 - k
    decreases 3 - k
  {
    LineStep(env, k, s, trace);
    var u := RunLinear(env, k, s);
    if u.Success? {
      LineRunFails(env, k + 1, JobFinding.Apply(s, u.value), trace + [LinearOrder[k]]);
    }
  }

  /** When no node of the line raises, running it from node `k` runs the
      remaining nodes in order and reaches the fan-out. */
  lemma {:induction false} LineRun(env: Environment, k: nat, s: JobFinding.JobState, trace: seq<Node>)
    requires k <= 3
    requires AfterLine(env, k, s).Success?
    ensures var s' := AfterLine(env, k, s).value;
      RunFrom(env, At(k), s, trace) == RunFrom(env, AfterHydration(s'), s', trace + LinearOrder[k..])
    decreases 3 - k
  {
    if k < 3 {
      LineStep(env, k, s, trace);
      var s1 := JobFinding.Apply(s, RunLinear(env, k, s).value);
      assert AfterLine(env, k, s) == AfterLine(env, k + 1, s1);
      LineRun(env, k + 1, s1, trace + [LinearOrder[k]]);
      assert trace + [LinearOrder[k]] + LinearOrder[k + 1..] == trace + LinearOrder[k..];
    } else {
      LineLast(env, s, trace);
    }
  }

  /** The last node of the line leads to the fan-out. */
  lemma LineLast(env: Environment, s: JobFinding.JobState, trace: seq<Node>)
    requires AfterLine(env, 3, s).Success?
    ensures var s' := AfterLine(env, 3, s).value;
      RunFrom(env, At(3), s, trace) == RunFrom(env, AfterHydration(s'), s', trace + LinearOrder[3..])
  {
    LineStep(env, 3, s, trace);
    assert LinearOrder[3..] == [RetrieveJobsFromIds];
  }

  /** The run from the fan-out onwards. */
  lemma FanOutRun(env: Environment, s: JobFinding.JobState, trace: seq<Node>)
    ensures var sends := JobFinding.SendToEvaluateFit(s);
      var out := RunFrom(env, AfterHydration(s), s, trace);
      match EvaluateAll(env, sends)
      case Success(updates) => out == Completed(ApplyAll(s, updates), trace + EvaluateFitRuns(|sends|))
      case Failure(e) => out.Failed? && out.error == e && out.trace == trace
  {
    var sends := JobFinding.SendToEvaluateFit(s);
    if sends == [] {
      assert trace + EvaluateFitRuns(0) == trace;
    }
  }

  /** The run is the line of four nodes followed by the fan-out; the
      first exception ends it with the nodes completed so far. */
  lemma RunShape(env: Environment, s0: JobFinding.JobState)
    ensures AfterLine(env, 0, s0).Failure? ==> Run(env, s0).Failed? && |Run(env, s0).trace| < 4
    ensures AfterLine(env, 0, s0).Success? ==>
      var s := AfterLine(env, 0, s0).value;
      var sends := JobFinding.SendToEvaluateFit(s);
      match EvaluateAll(env, sends)
      case Success(updates) => Run(env, s0) == Completed(ApplyAll(s, updates), LinearOrder + EvaluateFitRuns(|sends|))
      case Failure(e) => Run(env, s0) == Failed(e, LinearOrder)
  {
    if AfterLine(env, 0, s0).Failure? {
      LineRunFails(env, 0, s0, []);
    } else {
      LineRun(env, 0, s0, []);
      var s := AfterLine(env, 0, s0).value;
      assert [] + LinearOrder[0..] == LinearOrder;
      FanOutRun(env, s, LinearOrder);
    }
  }

  /** The nodes of the line never touch the evaluations. */
  lemma {:induction false} LineKeepsEvaluations(env: Environment, k: nat, s: JobFinding.JobState)
    requires k <= 4
    requires AfterLine(env, k, s).Success?
    ensures AfterLine(env, k, s).value.jobEvaluations == s.jobEvaluations
    decreases 4 - k
  {
    if k < 4 {
      var u := RunLinear(env, k, s);
      LineKeepsEvaluations(env, k + 1, JobFinding.Apply(s, u.value));
    }
  }

  /** A successful fan-out appends one evaluation per hydrated job, in job
      order, each carrying its job's id, and changes nothing else. */
  lemma FanOutEvaluations(env: Environment, s: JobFinding.JobState)
    requires EvaluateAll(env, JobFinding.SendToEvaluateFit(s)).Success?
    ensures var jobs := s.jobInfo.GetOr([]);
      var s' := ApplyAll(s, EvaluateAll(env, JobFinding.SendToEvaluateFit(s)).value);
      && s' == s.(jobEvaluations := s'.jobEvaluations)
      && |s'.jobEvaluations| == |s.jobEvaluations| + |jobs|
      && s'.jobEvaluations[..|s.jobEvaluations|] == s.jobEvaluations
      && forall k :: 0 <= k < |jobs| ==> s'.jobEvaluations[|s.jobEvaluations| + k].jobId == jobs[k].id
  {
    var jobs := s.jobInfo.GetOr([]);
    var sends := JobFinding.SendToEvaluateFit(s);
    var updates := EvaluateAll(env, sends).value;
    forall k | 0 <= k < |updates|
      ensures updates[k] == JobFinding.NoUpdate.(jobEvaluations := updates[k].jobEvaluations)
      ensures |updates[k].jobEvaluations| == 1 && updates[k].jobEvaluations[0].jobId == jobs[k].id
    {
      assert JobFinding.EvaluateFit(sends[k], env.judge) == Success(updates[k]);
    }
    ApplyAllEvaluations(s, updates);
    FanInAppends(s.jobEvaluations, EvaluationsOf(updates));
    ConcatSingletons(EvaluationsOf(updates));
    var added := Concat(EvaluationsOf(updates));
    assert forall k :: 0 <= k < |jobs| ==> (s.jobEvaluations + added)[|s.jobEvaluations| + k] == added[k];
  }

  /** A completed run ran the four nodes of the line and then
      `evaluate_fit` once per hydrated job; it kept the initial
      evaluations and appended one per job, stamped with the job's id. With
      no hydrated job, no evaluation runs and the evaluations are as they
      were. */
  lemma CompletedRun(env: Environment, s0: JobFinding.JobState, out: Outcome)
    requires out == Run(env, s0) && out.Completed?
    ensures var jobs := out.state.jobInfo.GetOr([]);
      && out.trace == LinearOrder + EvaluateFitRuns(|jobs|)
      && |out.state.jobEvaluations| == |s0.jobEvaluations| + |jobs|
      && out.state.jobEvaluations[..|s0.jobEvaluations|] == s0.jobEvaluations
      && (forall k :: 0 <= k < |jobs| ==> out.state.jobEvaluations[|s0.jobEvaluations| + k].jobId == jobs[k].id)
      && (jobs == [] ==> out.state.jobEvaluations == s0.jobEvaluations)
  {
    CompletedRunParts(env, s0);
    var s := AfterLine(env, 0, s0).value;
    LineKeepsEvaluations(env, 0, s0);
    CompletedFanOut(env, s, out);
  }

  /** The fan-out part of `CompletedRun`, from the state the line leaves. */
  lemma CompletedFanOut(env: Environment, s: JobFinding.JobState, out: Outcome)
    requires EvaluateAll(env, JobFinding.SendToEvaluateFit(s)).Success?
    requires out == Completed(ApplyAll(s, EvaluateAll(env, JobFinding.SendToEvaluateFit(s)).value), LinearOrder + EvaluateFitRuns(|s.jobInfo.GetOr([])|))
    ensures var jobs := out.state.jobInfo.GetOr([]);
      && out.trace == LinearOrder + EvaluateFitRuns(|jobs|)
      && |out.state.jobEvaluations| == |s.jobEvaluations| + |jobs|
      && out.state.jobEvaluations[..|s.jobEvaluations|] == s.jobEvaluations
      && (forall k :: 0 <= k < |jobs| ==> out.state.jobEvaluations[|s.jobEvaluations| + k].jobId == jobs[k].id)
      && (jobs == [] ==> out.state.jobEvaluations == s.jobEvaluations)
  {
    FanOutEvaluations(env, s);
    var final := out.state;
    if s.jobInfo.GetOr([]) == [] {
      assert final.jobEvaluations == final.jobEvaluations[..|s.jobEvaluations|];
    }
  }

  /** A completed run got through the line and through every task of the
      fan-out. */
  lemma CompletedRunParts(env: Environment, s0: JobFinding.JobState)
    requires Run(env, s0).Completed?
    ensures AfterLine(env, 0, s0).Success?
    ensures var s := AfterLine(env, 0, s0).value;
      var sends := JobFinding.SendToEvaluateFit(s);
      && EvaluateAll(env, sends).Success?
      && Run(env, s0) == Completed(ApplyAll(s, EvaluateAll(env, sends).value), LinearOrder + EvaluateFitRuns(|s.jobInfo.GetOr([])|))
  {
    RunShape(env, s0);
  }

  /** A failing LLM call for any hydrated job fails the whole run after the
      line has completed. */
  lemma JudgeFailureFailsRun(env: Environment, s0: JobFinding.JobState, k: nat)
    requires AfterLine(env, 0, s0).Success?
    requires k < |JobFinding.SendToEvaluateFit(AfterLine(env, 0, s0).value)|
    requires env.judge(AfterLine(env, 0, s0).value.jobInfo.GetOr([])[k], AfterLine(env, 0, s0).value.userProfile).Failure?
    ensures Run(env, s0).Failed? && Run(env, s0).trace == LinearOrder
  {
    RunShape(env, s0);
    var s := AfterLine(env, 0, s0).value;
    var sends := JobFinding.SendToEvaluateFit(s);
    assert JobFinding.EvaluateFit(sends[k], env.judge).Failure?;
  }
}
