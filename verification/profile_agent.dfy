/** The nodes of the profile agent and the router of its feedback loop.
    The LLM is a parameter; the profile table is a map from id to profile.
    `WriteProfile` is `write_profile` as written and `WriteProfileCorrected`
    the write it evidently intends.
 */
module ProfileAgent {
  import opened Wrappers
  import opened AgentTypes
  import Text
  import Uuid

  /** What `state.get('user_feedback')` finds: no key, `None`, or a string. */
  datatype Feedback = Absent | NoneValue | Text(s: string)

  /** `ProfileState`. */
  datatype ProfileState = ProfileState(userDocs: seq<string>, userProfile: Option<UserProfile>, userFeedback: Feedback)

  /** The dict a node returns: `None` when it does not set `user_profile`. */
  datatype ProfileUpdate = ProfileUpdate(userProfile: Option<UserProfile>)

  const NoProfileUpdate := ProfileUpdate(None)

  /** An exception raised inside a node. */
  datatype ProfileError = MissingDocument | LlmError(message: string)

  function ApplyProfileUpdate(s: ProfileState, u: ProfileUpdate): (r: ProfileState)
    ensures r.userDocs == s.userDocs && r.userFeedback == s.userFeedback
    ensures r.userProfile == (if u.userProfile.Some? then u.userProfile else s.userProfile)
  {
    s.(userProfile := if u.userProfile.Some? then u.userProfile else s.userProfile)
  }

  /** The text `.format(user_feedback=state.get('user_feedback', ''))`
      puts into the prompt: `''` for no key and `'None'` for `None`. */
  function FeedbackText(f: Feedback): string {
    match f
    case Absent => ""
    case NoneValue => "None"
    case Text(s) => s
  }

  /** The three things the prompt of `create_profile` is built from. */
  datatype ProfileRequest = ProfileRequest(cv: string, coverLetter: string, feedback: string)

  /** `create_profile`: the CV is `user_docs[0]` and the cover letter
      `user_docs[1]`; fewer than two documents raise `IndexError`. */
  function CreateProfile(s: ProfileState, llm: ProfileRequest -> Result<UserProfile, ProfileError>): (r: Result<ProfileUpdate, ProfileError>)
    ensures |s.userDocs| < 2 ==> r == Failure(MissingDocument)
    ensures |s.userDocs| >= 2 ==>
      var request := ProfileRequest(s.userDocs[0], s.userDocs[1], FeedbackText(s.userFeedback));
      r.Success? <==> llm(request).Success?
    ensures r.Success? ==> r.value.userProfile.Some?
  {
    if |s.userDocs| < 2 then Failure(MissingDocument)
    else
      var profile :- llm(ProfileRequest(s.userDocs[0], s.userDocs[1], FeedbackText(s.userFeedback)));
      Success(ProfileUpdate(Some(profile)))
  }

  /** `create_profile` sets the profile and nothing else, and depends on
      nothing but the two documents and the feedback. */
  lemma CreateProfileOnlySetsProfile(s: ProfileState, t: ProfileState, llm: ProfileRequest -> Result<UserProfile, ProfileError>)
    requires |s.userDocs| >= 2 && |t.userDocs| >= 2
    requires s.userDocs[..2] == t.userDocs[..2] && FeedbackText(s.userFeedback) == FeedbackText(t.userFeedback)
    ensures CreateProfile(s, llm) == CreateProfile(t, llm)
    ensures CreateProfile(s, llm).Success? ==>
      var s' := ApplyProfileUpdate(s, CreateProfile(s, llm).value);
      s'.userDocs == s.userDocs && s'.userFeedback == s.userFeedback && s'.userProfile.Some?
  {
    assert s.userDocs[0] == s.userDocs[..2][0] && s.userDocs[1] == s.userDocs[..2][1];
    assert t.userDocs[0] == t.userDocs[..2][0] && t.userDocs[1] == t.userDocs[..2][1];
  }

  /** `human_feedback`: returns `None`, so the state is left as it is. */
  function HumanFeedback(s: ProfileState): (r: ProfileUpdate)
    ensures ApplyProfileUpdate(s, r) == s
  {
    NoProfileUpdate
  }

  /** Python truthiness of the feedback. */
  predicate Truthy(f: Feedback) {
    f.Text? && f.s != ""
  }

  /** `should_continue`. */
  function ShouldContinue(s: ProfileState): (route: string)
    ensures route == "create_profile" <==> Truthy(s.userFeedback)
    ensures route == "write_profile" <==> !Truthy(s.userFeedback)
  {
    if Truthy(s.userFeedback) then "create_profile" else "write_profile"
  }

  /** The feedback values that route to `write_profile`. */
  lemma EmptyFeedbackRoutesToWrite(s: ProfileState)
    requires s.userFeedback == Absent || s.userFeedback == NoneValue || s.userFeedback == Text("")
    ensures ShouldContinue(s) == "write_profile"
  {
  }

  /** The profile table: `DBUserProfile` rows by `id`, and the next value
      of the sequence that numbers new rows. The model declares no primary
      key, so `id` is the integer `AutoField` Django adds. */
  datatype ProfileStore = ProfileStore(rows: map<int, UserProfile>, nextId: int)

  /** The sequence is ahead of every id in use. */
  predicate SequenceAhead(store: ProfileStore) {
    forall i :: i in store.rows ==> i < store.nextId
  }

  /** `write_profile` as written: `update_or_create(id=str(uuid.uuid4()),
      defaults=...)`. Django converts a lookup value for an integer field
      with `int()`, so the query is only built when the uuid's text is an
      integer; the `ValueError` otherwise raised is printed and swallowed,
      as is an error the database call raises. Its return value `{}`
      changes no state. */
  function WriteProfile(s: ProfileState, store: ProfileStore, uuid: Uuid.Uuid4, databaseRaises: bool): (r: (ProfileUpdate, ProfileStore))
    ensures r.0 == NoProfileUpdate
    ensures var id := Text.PythonInt(Uuid.UuidText(uuid));
      && (s.userProfile.None? || id.None? || databaseRaises ==> r.1 == store)
      && (s.userProfile.Some? && id.Some? && !databaseRaises ==>
        r.1 == store.(rows := store.rows[id.value := s.userProfile.value]))
  {
    var id := Text.PythonInt(Uuid.UuidText(uuid));
    if s.userProfile.Some? && id.Some? && !databaseRaises then
      (NoProfileUpdate, store.(rows := store.rows[id.value := s.userProfile.value]))
    else (NoProfileUpdate, store)
  }

  /** No uuid's text is an integer, so `write_profile` as written never
      stores a profile, whatever the database does. */
  lemma WriteProfileNeverAddsRow(s: ProfileState, store: ProfileStore, uuid: Uuid.Uuid4, databaseRaises: bool)
    ensures WriteProfile(s, store, uuid, databaseRaises) == (NoProfileUpdate, store)
  {
    Uuid.UuidIsNotAnInteger(uuid);
  }

  /** `write_profile` as intended: `DBUserProfile.objects.create(...)`
      lets the database number the row from its sequence. */
  function WriteProfileCorrected(s: ProfileState, store: ProfileStore, databaseRaises: bool): (r: (ProfileUpdate, ProfileStore))
    ensures r.0 == NoProfileUpdate
    ensures s.userProfile.None? || databaseRaises ==> r.1 == store
    ensures s.userProfile.Some? && !databaseRaises ==>
      r.1.rows == store.rows[store.nextId := s.userProfile.value] && r.1.nextId > store.nextId
  {
    if s.userProfile.Some? && !databaseRaises then
      (NoProfileUpdate, ProfileStore(store.rows[store.nextId := s.userProfile.value], store.nextId + 1))
    else (NoProfileUpdate, store)
  }

  /** The corrected write adds exactly one row, under an id not in use,
      keeps every other row and keeps the sequence ahead; without a
      profile, or when the database raises, the table is left as it was. */
  lemma CorrectedWriteAddsRow(s: ProfileState, store: ProfileStore, databaseRaises: bool)
    requires SequenceAhead(store)
    ensures var store' := WriteProfileCorrected(s, store, databaseRaises).1;
      && SequenceAhead(store')
      && (s.userProfile.Some? && !databaseRaises ==>
        && store.nextId !in store.rows
        && store'.rows.Keys == store.rows.Keys + {store.nextId}
        && |store'.rows| == |store.rows| + 1
        && (forall id :: id in store.rows ==> store'.rows[id] == store.rows[id])
        && store'.rows[store.nextId] == s.userProfile.value)
      && (s.userProfile.None? || databaseRaises ==> store' == store)
  {
  }
}
