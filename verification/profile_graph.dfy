/** The profile graph of `build_profile_graph` and the feedback loop a
    caller drives it with: `invoke` runs `create_profile` and stops before
    `human_feedback`; the caller then either sets `user_feedback` as if
    `human_feedback` had returned it, or simply resumes, and
    `should_continue` routes on the feedback.

    The graph registers two nodes, and the path map of its conditional
    edge lists `create_profile` and `END` only. `should_continue` answers
    `"write_profile"` for empty feedback, a label outside that map, so that
    branch raises. `Corrected` is the graph with `write_profile`
    registered, mapped and followed by `END`, and with the write itself
    corrected to let the database number the row.
 */
module ProfileGraph {
  import opened Wrappers
  import opened AgentTypes
  import ProfileAgent
  import Uuid

  datatype Node = CreateProfile | HumanFeedback | WriteProfile

  /** Where a path-map label leads. */
  datatype Target = ToNode(node: Node) | ToEnd

  /** LangGraph's name for `END`. */
  const EndLabel: string := "__end__"

  /** Which body `write_profile` has: `update_or_create` under a uuid as
      written, or `create` with the database's id. */
  datatype Writer = UpdateOrCreateByUuid | CreateWithAutoId

  /** A compiled graph: the registered nodes, the path map of the
      conditional edge out of `human_feedback`, and the profile write. */
  datatype Graph = Graph(nodes: set<Node>, pathMap: map<string, Target>, writer: Writer)

  /** Every label of the path map leads to a registered node or to `END`. */
  predicate WellFormed(g: Graph) {
    forall l :: l in g.pathMap && g.pathMap[l].ToNode? ==> g.pathMap[l].node in g.nodes
  }

  /** The graph as the source builds it. */
  const AsWritten: Graph :=
    Graph({CreateProfile, HumanFeedback}, map["create_profile" := ToNode(CreateProfile), EndLabel := ToEnd], UpdateOrCreateByUuid)

  /** The graph with `write_profile` registered and reachable. */
  const Corrected: Graph :=
    Graph(
      {CreateProfile, HumanFeedback, WriteProfile},
      map["create_profile" := ToNode(CreateProfile), "write_profile" := ToNode(WriteProfile), EndLabel := ToEnd],
      CreateWithAutoId)

  datatype GraphError =
    | UnknownDestination(route: string)              // a router label outside the path map
    | NodeRaised(error: ProfileAgent.ProfileError)   // an exception inside a node

  /** The LLM, the uuid `uuid4()` returns, and whether the database call
      raises. */
  datatype Environment = Environment(
    llm: ProfileAgent.ProfileRequest -> Result<UserProfile, ProfileAgent.ProfileError>,
    uuid: Uuid.Uuid4,
    databaseRaises: bool)

  /** How an `invoke` returns. */
  datatype Status = Suspended | Ended | Crashed(error: GraphError)

  /** The thread after an `invoke`: its status, the state, the profile
      table, and the nodes run so far. */
  datatype Thread = Thread(status: Status, state: ProfileAgent.ProfileState, store: ProfileAgent.ProfileStore, trace: seq<Node>)

  /** Runs `create_profile`; its edge leads to `human_feedback`, which the
      graph interrupts before. */
  function EnterCreateProfile(env: Environment, s: ProfileAgent.ProfileState, store: ProfileAgent.ProfileStore, trace: seq<Node>): (t: Thread)
    ensures t.store == store
    ensures t.status != Ended
  {
    match ProfileAgent.CreateProfile(s, env.llm)
    case Failure(e) => Thread(Crashed(NodeRaised(e)), s, store, trace)
    case Success(u) => Thread(Suspended, ProfileAgent.ApplyProfileUpdate(s, u), store, trace + [CreateProfile])
  }

  /** The first `invoke`: `START -> create_profile`, then the interrupt. */
  function Start(env: Environment, s0: ProfileAgent.ProfileState, store: ProfileAgent.ProfileStore): Thread {
    EnterCreateProfile(env, s0, store, [])
  }

  /** Following the conditional edge out of `human_feedback`. */
  function Route(g: Graph, env: Environment, s: ProfileAgent.ProfileState, store: ProfileAgent.ProfileStore, trace: seq<Node>): Thread {
    var route := ProfileAgent.ShouldContinue(s);
    if route !in g.pathMap then Thread(Crashed(UnknownDestination(route)), s, store, trace)
    else
      match g.pathMap[route]
      case ToEnd => Thread(Ended, s, store, trace)
      case ToNode(CreateProfile) => EnterCreateProfile(env, s, store, trace)
      case ToNode(HumanFeedback) => Thread(Suspended, s, store, trace)
      case ToNode(WriteProfile) =>
        var (u, store') :=
          if g.writer == UpdateOrCreateByUuid then ProfileAgent.WriteProfile(s, store, env.uuid, env.databaseRaises)
          else ProfileAgent.WriteProfileCorrected(s, store, env.databaseRaises);
        Thread(Ended, ProfileAgent.ApplyProfileUpdate(s, u), store', trace + [WriteProfile])
  }

  /** What the caller does with a suspended thread. */
  datatype Resumption =
    | Continue                              // invoke(None): human_feedback runs
    | GiveFeedback(f: ProfileAgent.Feedback) // update_state({"user_feedback": f}, as_node="human_feedback"), then invoke(None)

  function Resume(g: Graph, env: Environment, t: Thread, input: Resumption): Thread
    requires t.status == Suspended
  {
    match input
    case Continue =>
      var s := ProfileAgent.ApplyProfileUpdate(t.state, ProfileAgent.HumanFeedback(t.state));
      Route(g, env, s, t.store, t.trace + [HumanFeedback])
    case GiveFeedback(f) =>
      Route(g, env, t.state.(userFeedback := f), t.store, t.trace)
  }

  /** A conversation: the first `invoke`, then one resumption per input
      while the thread is suspended. */
  function Session(g: Graph, env: Environment, s0: ProfileAgent.ProfileState, store: ProfileAgent.ProfileStore, inputs: seq<Resumption>): Thread {
    Continuing(g, env, Start(env, s0, store), inputs)
  }

  function Continuing(g: Graph, env: Environment, t: Thread, inputs: seq<Resumption>): Thread
    decreases |inputs|
  {
    if inputs == [] || t.status != Suspended then t
    else Continuing(g, env, Resume(g, env, t, inputs[0]), inputs[1..])
  }

  /** Both graphs only name registered nodes; `write_profile` is not a
      node of the graph as written, nor a label of its path map. */
  lemma Shapes()
    ensures WellFormed(AsWritten) && WellFormed(Corrected)
    ensures AsWritten.nodes == {CreateProfile, HumanFeedback}
    ensures "write_profile" !in AsWritten.pathMap && WriteProfile !in AsWritten.nodes
  {
  }

  /** The first `invoke` runs `create_profile` on the two documents and
      stops before `human_feedback`. */
  lemma StartSuspends(env: Environment, s0: ProfileAgent.ProfileState, store: ProfileAgent.ProfileStore)
    requires |s0.userDocs| >= 2
    requires env.llm(ProfileAgent.ProfileRequest(s0.userDocs[0], s0.userDocs[1], ProfileAgent.FeedbackText(s0.userFeedback))).Success?
    ensures var t := Start(env, s0, store);
      && t.status == Suspended && t.trace == [CreateProfile] && t.store == store
      && t.state.userProfile == Some(env.llm(ProfileAgent.ProfileRequest(s0.userDocs[0], s0.userDocs[1], ProfileAgent.FeedbackText(s0.userFeedback))).value)
  {
  }

  /** Non-empty feedback sends the thread back to `create_profile`, which
      rebuilds the profile from the same documents and that feedback, and
      suspends again; both graphs agree on this. */
  lemma FeedbackLoopsBack(g: Graph, env: Environment, t: Thread, f: ProfileAgent.Feedback)
    requires g == AsWritten || g == Corrected
    requires t.status == Suspended && |t.state.userDocs| >= 2
    requires ProfileAgent.Truthy(f)
    ensures var request := ProfileAgent.ProfileRequest(t.state.userDocs[0], t.state.userDocs[1], f.s);
      var t' := Resume(g, env, t, GiveFeedback(f));
      && t'.store == t.store
      && (env.llm(request).Success? ==>
        && t'.status == Suspended
        && t'.trace == t.trace + [CreateProfile]
        && t'.state == t.state.(userFeedback := f, userProfile := Some(env.llm(request).value)))
      && (env.llm(request).Failure? ==> t'.status == Crashed(NodeRaised(env.llm(request).error)))
  {
  }

  /** As written, empty feedback raises: `"write_profile"` is not in the
      path map, and nothing is stored. */
  lemma EmptyFeedbackCrashes(env: Environment, t: Thread, input: Resumption)
    requires t.status == Suspended
    requires input.GiveFeedback? ==> !ProfileAgent.Truthy(input.f)
    requires input.Continue? ==> !ProfileAgent.Truthy(t.state.userFeedback)
    ensures Resume(AsWritten, env, t, input).status == Crashed(UnknownDestination("write_profile"))
    ensures Resume(AsWritten, env, t, input).store == t.store
  {
  }

  /** As written, no conversation ever reaches `END` or writes a profile:
      every thread is suspended in the loop or has crashed. */
  lemma {:induction false} AsWrittenNeverEnds(env: Environment, t: Thread, inputs: seq<Resumption>)
    requires t.status != Ended
    ensures Continuing(AsWritten, env, t, inputs).status != Ended
    ensures Continuing(AsWritten, env, t, inputs).store == t.store
    ensures |t.trace| <= |Continuing(AsWritten, env, t, inputs).trace|
    ensures Continuing(AsWritten, env, t, inputs).trace[..|t.trace|] == t.trace
    ensures WriteProfile !in Continuing(AsWritten, env, t, inputs).trace[|t.trace|..]
    decreases |inputs|
  {
    if inputs != [] && t.status == Suspended {
      var t' := Resume(AsWritten, env, t, inputs[0]);
      AsWrittenStep(env, t, inputs[0]);
      AsWrittenNeverEnds(env, t', inputs[1..]);
      var final := Continuing(AsWritten, env, t', inputs[1..]);
      assert final.trace[|t.trace|..] == t'.trace[|t.trace|..] + final.trace[|t'.trace|..];
    }
  }

  /** One resumption of the graph as written never ends the run, never
      writes, and only runs `human_feedback` and `create_profile`. */
  lemma AsWrittenStep(env: Environment, t: Thread, input: Resumption)
    requires t.status == Suspended
    ensures var t' := Resume(AsWritten, env, t, input);
      && t'.status != Ended && t'.store == t.store
      && |t.trace| <= |t'.trace| && t'.trace[..|t.trace|] == t.trace
      && WriteProfile !in t'.trace[|t.trace|..]
  {
    var t' := Resume(AsWritten, env, t, input);
    assert t'.trace == t.trace || t'.trace == t.trace + [CreateProfile] || t'.trace == t.trace + [HumanFeedback]
      || t'.trace == t.trace + [HumanFeedback, CreateProfile];
  }

  /** Hence a whole conversation with the graph as written leaves the
      profile table as it was. */
  lemma SessionNeverWrites(env: Environment, s0: ProfileAgent.ProfileState, store: ProfileAgent.ProfileStore, inputs: seq<Resumption>)
    ensures Session(AsWritten, env, s0, store, inputs).status != Ended
    ensures Session(AsWritten, env, s0, store, inputs).store == store
    ensures WriteProfile !in Session(AsWritten, env, s0, store, inputs).trace
  {
    AsWrittenNeverEnds(env, Start(env, s0, store), inputs);
  }

  /** In the corrected graph, empty feedback runs `write_profile` and ends
      the run: the profile is stored under the next id of the table's
      sequence unless the database call raises, and the graph state is
      unchanged. */
  lemma CorrectedEmptyFeedbackWrites(env: Environment, t: Thread, f: ProfileAgent.Feedback)
    requires t.status == Suspended
    requires !ProfileAgent.Truthy(f)
    ensures var t' := Resume(Corrected, env, t, GiveFeedback(f));
      && t'.status == Ended
      && t'.trace == t.trace + [WriteProfile]
      && t'.state == t.state.(userFeedback := f)
      && (t.state.userProfile.Some? && !env.databaseRaises ==>
        t'.store.rows == t.store.rows[t.store.nextId := t.state.userProfile.value] && t'.store.nextId > t.store.nextId)
      && (t.state.userProfile.None? || env.databaseRaises ==> t'.store == t.store)
  {
  }

  /** Routing empty feedback to `write_profile` is not enough on its own:
      with the write as written the run ends but the table is unchanged. */
  lemma RoutedWriteStillStoresNothing(env: Environment, t: Thread, f: ProfileAgent.Feedback)
    requires t.status == Suspended
    requires !ProfileAgent.Truthy(f)
    ensures var t' := Resume(Corrected.(writer := UpdateOrCreateByUuid), env, t, GiveFeedback(f));
      t'.status == Ended && t'.trace == t.trace + [WriteProfile] && t'.store == t.store
  {
    ProfileAgent.WriteProfileNeverAddsRow(t.state.(userFeedback := f), t.store, env.uuid, env.databaseRaises);
  }

  /** The corrected graph differs from the original only on empty
      feedback. */
  lemma CorrectedAgreesOnFeedback(env: Environment, t: Thread, input: Resumption)
    requires t.status == Suspended
    requires input.GiveFeedback? ==> ProfileAgent.Truthy(input.f)
    requires input.Continue? ==> ProfileAgent.Truthy(t.state.userFeedback)
    ensures Resume(AsWritten, env, t, input) == Resume(Corrected, env, t, input)
  {
  }

  /** In the corrected graph, rounds of non-empty feedback closed by an
      empty answer end the run, unless a node raised on the way; the last
      profile is then stored under the next id of the table's sequence,
      unless the database call raises or there is no profile, and any
      round of feedback leaves a profile. */
  lemma {:induction false} CorrectedSessionEnds(env: Environment, t: Thread, inputs: seq<Resumption>)
    requires t.status == Suspended
    requires inputs != [] && inputs[|inputs| - 1].GiveFeedback? && !ProfileAgent.Truthy(inputs[|inputs| - 1].f)
    requires forall k :: 0 <= k < |inputs| - 1 ==> inputs[k].GiveFeedback? && ProfileAgent.Truthy(inputs[k].f)
    ensures var final := Continuing(Corrected, env, t, inputs);
      final.status.Crashed? || (
        && final.status == Ended
        && (t.state.userProfile.Some? || |inputs| > 1 ==> final.state.userProfile.Some?)
        && (final.state.userProfile.Some? && !env.databaseRaises ==>
          final.store.rows == t.store.rows[t.store.nextId := final.state.userProfile.value])
        && (final.state.userProfile.None? || env.databaseRaises ==> final.store == t.store))
    decreases |inputs|
  {
    if |inputs| == 1 {
      CorrectedEmptyFeedbackWrites(env, t, inputs[0].f);
    } else {
      var t' := Resume(Corrected, env, t, inputs[0]);
      if t'.status == Suspended {
        assert t'.state.userProfile.Some? && t'.store == t.store;
        CorrectedSessionEnds(env, t', inputs[1..]);
      }
    }
  }
}
