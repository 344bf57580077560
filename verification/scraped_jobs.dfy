/** The scraper's JSON normaliser, `clean_json`: it turns the page's
    `__REACT_QUERY_STATE__` object into flat job records ready for storage.

    The raw JSON is typed: every dictionary key the normaliser reads is an
    `Option` field (`None` = key absent), lists are sequences, and leaf values
    are JSON scalars.
 */
module ScrapedJobs {
  import opened Wrappers
  import opened Text

  /** A JSON scalar after `json.loads`. */
  datatype Scalar = Str(s: string) | Int(i: int) | Bool(b: bool)

  /** Python truthiness of a scalar. */
  predicate Truthy(v: Scalar) {
    match v
    case Str(s) => s != ""
    case Int(i) => i != 0
    case Bool(b) => b
  }

  /** `str(v)`, as used by `map(str, ...)` and by f-string interpolation. */
  function Render(v: Scalar): string {
    match v
    case Str(s) => s
    case Int(i) => IntToString(i)
    case Bool(b) => if b then "True" else "False"
  }

  datatype Contact = Contact(firstName: Option<Scalar>, lastName: Option<Scalar>)

  datatype Location = Location(
    postalCode: Option<Scalar>,
    city: Option<Scalar>,
    cantonCode: Option<Scalar>,
    countryCode: Option<Scalar>)

  datatype LanguageSkill = LanguageSkill(language: Option<Scalar>, level: Option<Scalar>)

  datatype Company = Company(id: Option<Scalar>, name: Option<Scalar>)

  datatype Template = Template(lead: Option<Scalar>, text: Option<Scalar>)

  datatype ApplicationOptions = ApplicationOptions(externalUrl: Option<Scalar>)

  /** The `state.data` object of one query: one job posting. */
  datatype JobData = JobData(
    id: Option<Scalar>,
    applicationOptions: Option<ApplicationOptions>,
    logo: Option<Scalar>,
    company: Option<Company>,
    contacts: Option<seq<Contact>>,
    headhunterApplicationAllowed: Option<Scalar>,
    initialPublicationDate: Option<Scalar>,
    isActive: Option<Scalar>,
    isPaid: Option<Scalar>,
    languageSkills: Option<seq<LanguageSkill>>,
    locations: Option<seq<Location>>,
    publicationDate: Option<Scalar>,
    publicationEndDate: Option<Scalar>,
    skills: Option<seq<string>>,
    synonym: Option<Scalar>,
    template: Option<Template>,
    title: Option<Scalar>,
    industry: Option<Scalar>,
    regionId: Option<Scalar>,
    employmentGrades: Option<seq<Scalar>>,
    employmentPositionIds: Option<seq<string>>,
    employmentTypeIds: Option<seq<string>>)

  /** The empty dictionary `{}`. */
  const EmptyData: JobData := JobData(
    None, None, None, None, None, None, None, None, None, None, None,
    None, None, None, None, None, None, None, None, None, None, None)

  datatype QueryState = QueryState(data: Option<JobData>)

  datatype Query = Query(state: Option<QueryState>)

  /** The whole `__REACT_QUERY_STATE__` object. */
  datatype RawJson = RawJson(queries: Option<seq<Query>>)

  /** One flat job record, keyed like the dictionary the source builds. */
  datatype CleanedJob = CleanedJob(
    id: Option<Scalar>,
    externalUrl: Scalar,
    logo: Scalar,
    companyId: Scalar,
    companyName: Scalar,
    contactFirstName: Scalar,
    contactLastName: Scalar,
    headhunterApplicationAllowed: Scalar,
    initialPublicationDate: Scalar,
    isActive: Scalar,
    isPaid: Scalar,
    languageSkills: string,
    locationsPostalCode: Scalar,
    locationsCity: Scalar,
    locationsCantonCode: Scalar,
    locationsCountryCode: Scalar,
    publicationDate: Scalar,
    publicationEndDate: Scalar,
    skills: string,
    synonym: Scalar,
    templateLead: Scalar,
    templateTitle: Scalar,
    templateText: Scalar,
    industry: Scalar,
    regionId: Scalar,
    employmentGrades: string,
    employmentPositionIds: string,
    employmentTypeIds: string)

  const Blank: Scalar := Str("")

  /** Python's `if not cleaned_entry['id']` test, negated. */
  predicate HasTruthyId(e: CleanedJob) {
    e.id.Some? && Truthy(e.id.value)
  }

  /** `f"{language} (Level {level})"` for one language skill. */
  function RenderSkill(skill: LanguageSkill): string {
    Render(skill.language.GetOr(Blank)) + " (Level " + Render(skill.level.GetOr(Blank)) + ")"
  }

  function RenderSkills(skills: seq<LanguageSkill>): (r: seq<string>)
    ensures |r| == |skills|
    ensures forall k :: 0 <= k < |skills| ==> r[k] == RenderSkill(skills[k])
  {
    if skills == [] then [] else [RenderSkill(skills[0])] + RenderSkills(skills[1..])
  }

  function RenderAll(values: seq<Scalar>): (r: seq<string>)
    ensures |r| == |values|
    ensures forall k :: 0 <= k < |values| ==> r[k] == Render(values[k])
  {
    if values == [] then [] else [Render(values[0])] + RenderAll(values[1..])
  }

  /** The record built for one non-empty `data` object, before the id check. */
  function CleanData(d: JobData): CleanedJob {
    var contacts := d.contacts.GetOr([Contact(None, None)]);
    var locations := d.locations.GetOr([Location(None, None, None, None)]);
    var company := d.company.GetOr(Company(None, None));
    var template := d.template.GetOr(Template(None, None));
    CleanedJob(
      id := d.id,
      externalUrl := d.applicationOptions.GetOr(ApplicationOptions(None)).externalUrl.GetOr(Blank),
      logo := d.logo.GetOr(Blank),
      companyId := company.id.GetOr(Blank),
      companyName := company.name.GetOr(Blank),
      contactFirstName := if contacts != [] then contacts[0].firstName.GetOr(Blank) else Blank,
      contactLastName := if contacts != [] then contacts[0].lastName.GetOr(Blank) else Blank,
      headhunterApplicationAllowed := d.headhunterApplicationAllowed.GetOr(Bool(false)),
      initialPublicationDate := d.initialPublicationDate.GetOr(Blank),
      isActive := d.isActive.GetOr(Bool(false)),
      isPaid := d.isPaid.GetOr(Bool(false)),
      languageSkills := Join(", ", RenderSkills(d.languageSkills.GetOr([]))),
      locationsPostalCode := if locations != [] then locations[0].postalCode.GetOr(Blank) else Blank,
      locationsCity := if locations != [] then locations[0].city.GetOr(Blank) else Blank,
      locationsCantonCode := if locations != [] then locations[0].cantonCode.GetOr(Blank) else Blank,
      locationsCountryCode := if locations != [] then locations[0].countryCode.GetOr(Blank) else Blank,
      publicationDate := d.publicationDate.GetOr(Blank),
      publicationEndDate := d.publicationEndDate.GetOr(Blank),
      skills := Join(", ", d.skills.GetOr([])),
      synonym := d.synonym.GetOr(Blank),
      templateLead := template.lead.GetOr(Blank),
      templateTitle := d.title.GetOr(Blank),
      templateText := template.text.GetOr(Blank),
      industry := d.industry.GetOr(Blank),
      regionId := d.regionId.GetOr(Blank),
      employmentGrades := Join(", ", RenderAll(d.employmentGrades.GetOr([]))),
      employmentPositionIds := Join(", ", d.employmentPositionIds.GetOr([])),
      employmentTypeIds := Join(", ", d.employmentTypeIds.GetOr([])))
  }

  /** `query.get('state', {}).get('data', {})`, with `{}` as `None`. */
  function DataOf(q: Query): Option<JobData> {
    match q.state
    case None => None
    case Some(st) => st.data
  }

  /** Python truthiness of the `data` dictionary. */
  predicate HasData(q: Query) {
    DataOf(q).Some? && DataOf(q).value != EmptyData
  }

  /** What one query contributes: nothing, or one record with a truthy id. */
  function CleanQuery(q: Query): (r: Option<CleanedJob>)
    ensures r.Some? <==> HasData(q) && HasTruthyId(CleanData(DataOf(q).value))
    ensures r.Some? ==> r.value == CleanData(DataOf(q).value)
  {
    if !HasData(q) then None
    else
      var entry := CleanData(DataOf(q).value);
      if !HasTruthyId(entry) then None else Some(entry)
  }

  /** The records of a list of queries, in query order. */
  function CleanAll(qs: seq<Query>): (r: seq<CleanedJob>)
    ensures |r| <= |qs|
    ensures forall k :: 0 <= k < |r| ==> HasTruthyId(r[k])
  {
    if qs == [] then []
    else
      var front := CleanAll(qs[..|qs| - 1]);
      match CleanQuery(qs[|qs| - 1])
      case Some(e) => front + [e]
      case None => front
  }

  /** `clean_json(raw_json, link)`; the link only feeds the log. */
  function CleanJson(raw: RawJson): (r: seq<CleanedJob>)
    ensures raw.queries.None? ==> r == []
    ensures |r| <= |raw.queries.GetOr([])|
    ensures forall k :: 0 <= k < |r| ==> HasTruthyId(r[k])
  {
    CleanAll(raw.queries.GetOr([]))
  }

  /** The source's loop, with its `continue` on a missing id. */
  method CleanJsonLoop(raw: RawJson) returns (cleaned: seq<CleanedJob>)
    ensures cleaned == CleanJson(raw)
  {
    var queries := raw.queries.GetOr([]);
    cleaned := [];
    var i := 0;
    while i < |queries|
      invariant 0 <= i <= |queries|
      invariant cleaned == CleanAll(queries[..i])
    {
      var query := queries[i];
      assert queries[..i + 1][..i] == queries[..i];
      var data := DataOf(query);
      if data.Some? && data.value != EmptyData {
        var entry := CleanData(data.value);
        if !HasTruthyId(entry) {
          i := i + 1;
          continue;
        }
        cleaned := cleaned + [entry];
      }
      i := i + 1;
    }
    assert queries[..i] == queries;
  }

  /** What each query contributes, position by position. */
  function Contributions(qs: seq<Query>): (cs: seq<Option<CleanedJob>>)
    ensures |cs| == |qs|
    ensures forall k :: 0 <= k < |qs| ==> cs[k] == CleanQuery(qs[k])
  {
    if qs == [] then [] else Contributions(qs[..|qs| - 1]) + [CleanQuery(qs[|qs| - 1])]
  }

  /** The positions of the contributions that are present. */
  function Sources<T>(cs: seq<Option<T>>): seq<nat> {
    if cs == [] then []
    else Sources(cs[..|cs| - 1]) + (if cs[|cs| - 1].Some? then [|cs| - 1] else [])
  }

  /** `src` names, for each element of `r`, the position in `cs` it comes
      from: one element per present contribution, in increasing position,
      and every present contribution is named. */
  predicate Traced<T(==)>(cs: seq<Option<T>>, r: seq<T>, src: seq<nat>) {
    && |src| == |r|
    && (forall k :: 0 <= k < |src| ==> src[k] < |cs| && cs[src[k]] == Some(r[k]))
    && (forall k, l :: 0 <= k < l < |src| ==> src[k] < src[l])
    && (forall i :: 0 <= i < |cs| && cs[i].Some? ==> i in src)
  }

  /** An absent contribution leaves the trace as it is. */
  lemma TracedSkip<T>(cs: seq<Option<T>>, r: seq<T>, src: seq<nat>)
    requires Traced(cs, r, src)
    ensures Traced(cs + [None], r, src)
  {
    var cs2 := cs + [None];
    assert forall i :: 0 <= i < |cs| ==> cs2[i] == cs[i];
  }

  /** A present contribution adds its element and its own position. */
  lemma TracedAppend<T>(cs: seq<Option<T>>, r: seq<T>, src: seq<nat>, e: T)
    requires Traced(cs, r, src)
    ensures Traced(cs + [Some(e)], r + [e], src + [|cs|])
  {
    var cs2 := cs + [Some(e)];
    var src2 := src + [|cs|];
    assert forall i :: 0 <= i < |cs| ==> cs2[i] == cs[i];
    assert forall k :: 0 <= k < |src| ==> src2[k] == src[k];
    forall i | 0 <= i < |cs2| && cs2[i].Some?
      ensures i in src2
    {
      if i < |cs| {
        assert i in src;
      } else {
        assert src2[|src|] == i;
      }
    }
  }

  /** Output order follows query order: the records are exactly the
      contributions of the contributing queries, one each, in increasing
      query position, and every other query contributes nothing. */
  lemma {:induction false} CleanAllFollowsQueries(qs: seq<Query>)
    ensures Traced(Contributions(qs), CleanAll(qs), Sources(Contributions(qs)))
  {
    if qs != [] {
      var front := qs[..|qs| - 1];
      var cs := Contributions(front);
      var cs2 := Contributions(qs);
      CleanAllFollowsQueries(front);
      assert cs2 == cs + [CleanQuery(qs[|qs| - 1])];
      assert cs2[..|cs2| - 1] == cs;
      match CleanQuery(qs[|qs| - 1])
      case None => TracedSkip(cs, CleanAll(front), Sources(cs));
      case Some(e) => TracedAppend(cs, CleanAll(front), Sources(cs), e);
    }
  }

  /** A query without data, or whose data has no truthy id, contributes nothing. */
  lemma SkippedQueries(q: Query)
    ensures !HasData(q) ==> CleanAll([q]) == []
    ensures HasData(q) && !HasTruthyId(CleanData(DataOf(q).value)) ==> CleanAll([q]) == []
  {
    assert [q][..0] == [];
  }

  /** Only the first contact and the first location are read: what follows
      them never changes the record. */
  lemma FirstContactAndLocationOnly(d: JobData, c: Contact, cs: seq<Contact>, cs': seq<Contact>,
                                    l: Location, ls: seq<Location>, ls': seq<Location>)
    ensures CleanData(d.(contacts := Some([c] + cs), locations := Some([l] + ls)))
         == CleanData(d.(contacts := Some([c] + cs'), locations := Some([l] + ls')))
    ensures var e := CleanData(d.(contacts := Some([c] + cs), locations := Some([l] + ls)));
      && e.contactFirstName == c.firstName.GetOr(Blank)
      && e.contactLastName == c.lastName.GetOr(Blank)
      && e.locationsPostalCode == l.postalCode.GetOr(Blank)
      && e.locationsCity == l.city.GetOr(Blank)
      && e.locationsCantonCode == l.cantonCode.GetOr(Blank)
      && e.locationsCountryCode == l.countryCode.GetOr(Blank)
  {
  }

  /** A missing or empty contacts or locations list yields empty strings. */
  lemma NoContactOrLocation(d: JobData)
    requires d.contacts.None? || d.contacts == Some([])
    requires d.locations.None? || d.locations == Some([])
    ensures var e := CleanData(d);
      && e.contactFirstName == Blank && e.contactLastName == Blank
      && e.locationsPostalCode == Blank && e.locationsCity == Blank
      && e.locationsCantonCode == Blank && e.locationsCountryCode == Blank
  {
  }

  /** Absent lists join to `""`, absent nested objects and scalars default
      to `''`, and absent booleans default to `False`. */
  lemma AbsentFieldDefaults(d: JobData)
    requires d == EmptyData.(id := d.id)
    ensures var e := CleanData(d);
      && e.skills == "" && e.languageSkills == "" && e.employmentGrades == ""
      && e.employmentPositionIds == "" && e.employmentTypeIds == ""
      && e.externalUrl == Blank && e.logo == Blank
      && e.companyId == Blank && e.companyName == Blank
      && e.templateLead == Blank && e.templateText == Blank && e.templateTitle == Blank
      && e.headhunterApplicationAllowed == Bool(false)
      && e.isActive == Bool(false) && e.isPaid == Bool(false)
  {
  }

  /** Every rendered language skill is non-empty, so the joined field is
      empty exactly when there are no skills; a single skill renders as
      `"<language> (Level <level>)"`. */
  lemma LanguageSkillsField(d: JobData)
    ensures CleanData(d).languageSkills == "" <==> d.languageSkills.None? || d.languageSkills == Some([])
    ensures d.languageSkills.Some? && |d.languageSkills.value| == 1 ==>
      var s := d.languageSkills.value[0];
      CleanData(d).languageSkills
        == Render(s.language.GetOr(Blank)) + " (Level " + Render(s.level.GetOr(Blank)) + ")"
  {
    var rendered := RenderSkills(d.languageSkills.GetOr([]));
    JoinNonEmpty(", ", rendered);
    if rendered != [] {
      assert |rendered[0]| > 0;
    }
  }
}
