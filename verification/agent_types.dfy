/** The records the job-finding agent passes around, and the reducer of its
    `job_evaluations` channel: `Annotated[List[JobEvaluation], operator.add]`,
    so every update is appended to what the channel holds.
 */
module AgentTypes {
  import opened Wrappers

  /** `UserProfile`: exactly six string fields. */
  datatype UserProfile = UserProfile(
    name: string,
    workExperience: string,
    skills: string,
    education: string,
    certifications: string,
    otherInfo: string)

  /** `JobEvaluation`. The score is a plain integer: nothing at this layer
      keeps it within 1..100. */
  datatype JobEvaluation = JobEvaluation(jobId: string, fitScores: int, fitEvaluations: string)

  /** `KeywordList`: the keywords the LLM extracted from a profile. */
  datatype KeywordList = KeywordList(keywords: seq<string>)

  /** One row of `Job.objects.filter(...).values_list(...)`: the primary key
      and eight nullable columns, in the order the query lists them. */
  datatype JobRow = JobRow(
    id: string,
    companyName: Option<string>,
    templateTitle: Option<string>,
    templateLead: Option<string>,
    industry: Option<int>,
    regionId: Option<int>,
    employmentGrades: Option<string>,
    employmentPositionIds: Option<int>,
    employmentTypeIds: Option<int>)

  /** `operator.add` on the `job_evaluations` channel. */
  function AddEvaluations(current: seq<JobEvaluation>, update: seq<JobEvaluation>): (r: seq<JobEvaluation>)
    ensures |r| == |current| + |update|
    ensures r[..|current|] == current
    ensures r[|current|..] == update
  {
    current + update
  }

  /** The updates of several tasks, one after the other. */
  function Concat(updates: seq<seq<JobEvaluation>>): seq<JobEvaluation> {
    if updates == [] then [] else updates[0] + Concat(updates[1..])
  }

  function TotalLength(updates: seq<seq<JobEvaluation>>): nat {
    if updates == [] then 0 else |updates[0]| + TotalLength(updates[1..])
  }

  /** The channel after the reducer has folded in the updates in order. */
  function FanIn(current: seq<JobEvaluation>, updates: seq<seq<JobEvaluation>>): seq<JobEvaluation>
    decreases |updates|
  {
    if updates == [] then current else FanIn(AddEvaluations(current, updates[0]), updates[1..])
  }

  /** Folding the updates in appends them all, in order. */
  lemma {:induction false} FanInAppends(current: seq<JobEvaluation>, updates: seq<seq<JobEvaluation>>)
    ensures FanIn(current, updates) == current + Concat(updates)
    decreases |updates|
  {
    if updates != [] {
      FanInAppends(current + updates[0], updates[1..]);
      assert current + updates[0] + Concat(updates[1..]) == current + (updates[0] + Concat(updates[1..]));
    }
  }

  lemma {:induction false} ConcatLength(updates: seq<seq<JobEvaluation>>)
    ensures |Concat(updates)| == TotalLength(updates)
  {
    if updates != [] {
      ConcatLength(updates[1..]);
    }
  }

  /** Earlier evaluations are never removed or replaced, and the channel
      grows by exactly the sizes of the updates. */
  lemma FanInKeepsEarlier(current: seq<JobEvaluation>, updates: seq<seq<JobEvaluation>>)
    ensures |FanIn(current, updates)| == |current| + TotalLength(updates)
    ensures FanIn(current, updates)[..|current|] == current
  {
    FanInAppends(current, updates);
    ConcatLength(updates);
  }

  /** Updates of one evaluation each concatenate to one evaluation per
      update, in order. */
  lemma {:induction false} ConcatSingletons(updates: seq<seq<JobEvaluation>>)
    requires forall k :: 0 <= k < |updates| ==> |updates[k]| == 1
    ensures |Concat(updates)| == |updates|
    ensures forall k :: 0 <= k < |updates| ==> Concat(updates)[k] == updates[k][0]
  {
    if updates != [] {
      ConcatSingletons(updates[1..]);
      assert forall k :: 1 <= k < |updates| ==> Concat(updates)[k] == Concat(updates[1..])[k - 1];
    }
  }

  /** Taking out the `j`-th update takes its evaluations out of the
      concatenation. */
  lemma {:induction false} ConcatRemove(updates: seq<seq<JobEvaluation>>, j: nat)
    requires j < |updates|
    ensures multiset(Concat(updates)) == multiset(updates[j]) + multiset(Concat(updates[..j] + updates[j + 1..]))
  {
    if j > 0 {
      var rest := updates[1..];
      ConcatRemove(rest, j - 1);
      assert rest[j - 1] == updates[j];
      assert updates[..j] + updates[j + 1..] == [updates[0]] + (rest[..j - 1] + rest[j..]);
    } else {
      assert updates[..j] + updates[j + 1..] == updates[1..];
    }
  }

  /** Removing the element at `j` removes one copy of it from the
      multiset. */
  lemma WithoutOne<T>(xs: seq<T>, j: nat)
    requires j < |xs|
    ensures multiset(xs[..j] + xs[j + 1..]) == multiset(xs) - multiset{xs[j]}
  {
    assert xs == xs[..j] + [xs[j]] + xs[j + 1..];
  }

  /** The concatenation, as a multiset, does not depend on the order of the
      updates. */
  lemma {:induction false} ConcatOrderIndependent(us: seq<seq<JobEvaluation>>, vs: seq<seq<JobEvaluation>>)
    requires multiset(us) == multiset(vs)
    ensures multiset(Concat(us)) == multiset(Concat(vs))
    decreases |us|
  {
    if us != [] {
      var j := MatchFirst(us, vs);
      var vs' := vs[..j] + vs[j + 1..];
      ConcatOrderIndependent(us[1..], vs');
      ConcatRemove(vs, j);
      assert multiset(Concat(us)) == multiset(us[0]) + multiset(Concat(us[1..]));
    } else {
      assert vs == [];
    }
  }

  /** Where the first of `us` sits in a permutation `vs` of it. */
  lemma MatchFirst<T>(us: seq<T>, vs: seq<T>) returns (j: nat)
    requires us != [] && multiset(us) == multiset(vs)
    ensures j < |vs| && vs[j] == us[0]
    ensures multiset(us[1..]) == multiset(vs[..j] + vs[j + 1..])
  {
    var x := us[0];
    assert x in vs by {
      assert x in multiset(us);
    }
    j :| 0 <= j < |vs| && vs[j] == x;
    assert us == [x] + us[1..];
    var rest := multiset(us[1..]);
    assert rest == multiset(us) - multiset{x};
    WithoutOne(vs, j);
  }

  /** Whatever order the tasks finish in, the channel ends up holding the
      same evaluations. */
  lemma FanInOrderIndependent(current: seq<JobEvaluation>, us: seq<seq<JobEvaluation>>, vs: seq<seq<JobEvaluation>>)
    requires multiset(us) == multiset(vs)
    ensures multiset(FanIn(current, us)) == multiset(FanIn(current, vs))
  {
    FanInAppends(current, us);
    FanInAppends(current, vs);
    ConcatOrderIndependent(us, vs);
  }
}
