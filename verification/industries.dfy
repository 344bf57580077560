/** The industry table of the job scraper and `fetch_industries`, which
    lists it as `(id, name)` pairs in one language, sorted by id.
 */
module Industries {

  /** One entry of `INDUSTRIES`: its key and its `'FR'` and `'EN'` names,
      the only two language codes the table's entries have. */
  datatype Industry = Industry(id: nat, fr: string, en: string) {
    /** The entry's dict of names by language code. */
    function Names(): map<string, string> {
      map["FR" := fr, "EN" := en]
    }
  }

  /** `INDUSTRIES`, in the dict's insertion order. */
  const INDUSTRIES: seq<Industry> := [
    Industry(1, fr := "Construction d'installations / de machines et construction m\U{E9}tallique", en := "Plant / Machine / Metal construction"),
    Industry(2, fr := "A\U{E9}ronautique / Logistique / Transport / Mobilit\U{E9}", en := "Aviation / Logistics / Transport / Traffic"),
    Industry(3, fr := "Banques", en := "Banking"),
    Industry(4, fr := "B\U{E2}timent / Immobilier", en := "Construction industry / Real estate"),
    Industry(5, fr := "V\U{EA}tements / Textile", en := "Clothing / Textiles"),
    Industry(6, fr := "Enseignement", en := "Education system"),
    Industry(7, fr := "Biotechnologie / Chimie / Pharmaceutique", en := "Biotechnology / Chemistry / Pharmaceutical"),
    Industry(8, fr := "Commerce de d\U{E9}tail", en := "Retail business"),
    Industry(9, fr := "Services", en := "Services"),
    Industry(10, fr := "E-business / Internet", en := "E-business / Internet"),
    Industry(11, fr := "Electronique / Electrotechnique", en := "Electronics / Electrotechnical"),
    Industry(12, fr := "Alimentation en \U{E9}nergie / en eau", en := "Power / Water supply"),
    Industry(13, fr := "Traitement des d\U{E9}chets / Environnement / Techniques antipollution", en := "Waste management / Recycling / Environmental technology"),
    Industry(14, fr := "March\U{E9} automobile", en := "Automotive market"),
    Industry(15, fr := "Horlogerie / Optique / M\U{E9}canique de pr\U{E9}cision", en := "Precision mechanics / Optics / Watch and clock industry"),
    Industry(16, fr := "Finance / Comptabilit\U{E9}", en := "Finance / Accounting"),
    Industry(17, fr := "Recherche et sciences", en := "Science and research"),
    Industry(18, fr := "Sylviculture / agriculture", en := "Forestry / Agriculture"),
    Industry(19, fr := "Loisirs / Culture / Sport", en := "Leisure / Culture / Sports"),
    Industry(20, fr := "H\U{F4}tellerie / Restauration / Tourisme", en := "Catering / Hotel business / Tourism"),
    Industry(21, fr := "Agroalimentaire", en := "Agri-food industry"),
    Industry(22, fr := "Sant\U{E9}", en := "Healthcare"),
    Industry(23, fr := "Petites et moyennes industries", en := "Small and medium-sized industries"),
    Industry(24, fr := "Industrie du verre / du plastique / du papier", en := "Glass / Plastic / Paper industry"),
    Industry(25, fr := "Industrie graphique / M\U{E9}dias / Edition", en := "Graphic industry / Media / Publishing"),
    Industry(26, fr := "Commerce de gros", en := "Wholesale"),
    Industry(27, fr := "Ressources humaines / Service du personnel", en := "Human resources / Personnel services"),
    Industry(28, fr := "Industries (autres industries)", en := "Industry (other industries)"),
    Industry(29, fr := "Informatique", en := "IT"),
    Industry(30, fr := "Communication / Marketing / RP / Publicit\U{E9}", en := "Communications / Marketing / PR / Advertising"),
    Industry(31, fr := "Technique m\U{E9}dicale", en := "Medical technology"),
    Industry(32, fr := "Administration publique", en := "Public administration"),
    Industry(33, fr := "Droit", en := "Law"),
    Industry(34, fr := "Affaires sociales", en := "Welfare system"),
    Industry(35, fr := "T\U{E9}l\U{E9}communications", en := "Telecommunications"),
    Industry(36, fr := "Conseil aux entreprises", en := "Consultancy"),
    Industry(37, fr := "Associations / Organisations", en := "Associations / Organisations"),
    Industry(38, fr := "Assurances", en := "Insurance"),
    Industry(39, fr := "M\U{E9}tiers divers", en := "Miscellaneous")
  ]

  /** `details.get(lang, "")`. */
  function NameIn(industry: Industry, lang: string): string {
    if lang in industry.Names() then industry.Names()[lang] else ""
  }

  /** The loop of `fetch_industries`: one `(id, name)` pair per entry, in
      table order. */
  function Project(table: seq<Industry>, lang: string): (r: seq<(nat, string)>)
    ensures |r| == |table|
    ensures forall k :: 0 <= k < |table| ==> r[k] == (table[k].id, NameIn(table[k], lang))
  {
    if table == [] then [] else [(table[0].id, NameIn(table[0], lang))] + Project(table[1..], lang)
  }

  predicate SortedById(s: seq<(nat, string)>) {
    forall i, j :: 0 <= i < j < |s| ==> s[i].0 <= s[j].0
  }

  /** Puts `x` after every pair whose id is not larger, so equal ids keep
      their order (Python's sort is stable). */
  function Insert(x: (nat, string), s: seq<(nat, string)>): seq<(nat, string)> {
    if s == [] || x.0 < s[0].0 then [x] + s else [s[0]] + Insert(x, s[1..])
  }

  /** `list.sort(key=lambda x: x[0])`, as an insertion sort. */
  function SortById(s: seq<(nat, string)>): seq<(nat, string)> {
    if s == [] then [] else Insert(s[|s| - 1], SortById(s[..|s| - 1]))
  }

  /** `fetch_industries(lang='EN')`. */
  function FetchIndustries(lang: string := "EN"): seq<(nat, string)> {
    SortById(Project(INDUSTRIES, lang))
  }

  lemma {:induction false} InsertMultiset(x: (nat, string), s: seq<(nat, string)>)
    ensures multiset(Insert(x, s)) == multiset(s) + multiset{x}
  {
    if s != [] && x.0 >= s[0].0 {
      InsertMultiset(x, s[1..]);
      assert s == [s[0]] + s[1..];
    }
  }

  lemma {:induction false} InsertSorted(x: (nat, string), s: seq<(nat, string)>)
    requires SortedById(s)
    ensures SortedById(Insert(x, s))
  {
    if s != [] && x.0 >= s[0].0 {
      var rest := Insert(x, s[1..]);
      InsertSorted(x, s[1..]);
      InsertMultiset(x, s[1..]);
      forall k | 0 <= k < |rest|
        ensures s[0].0 <= rest[k].0
      {
        assert rest[k] in multiset(s[1..]) + multiset{x};
      }
    }
  }

  /** Sorting orders the pairs and keeps every one of them. */
  lemma {:induction false} SortByIdSorts(s: seq<(nat, string)>)
    ensures SortedById(SortById(s))
    ensures multiset(SortById(s)) == multiset(s)
  {
    if s != [] {
      var front := s[..|s| - 1];
      SortByIdSorts(front);
      InsertSorted(s[|s| - 1], SortById(front));
      InsertMultiset(s[|s| - 1], SortById(front));
      assert s == front + [s[|s| - 1]];
    }
  }

  /** Inserting a pair whose id is not below any other appends it. */
  lemma {:induction false} InsertLast(x: (nat, string), s: seq<(nat, string)>)
    requires forall k :: 0 <= k < |s| ==> s[k].0 <= x.0
    ensures Insert(x, s) == s + [x]
  {
    if s != [] {
      InsertLast(x, s[1..]);
      assert s == [s[0]] + s[1..];
    }
  }

  /** A list already in id order is left as it is. */
  lemma {:induction false} SortByIdOfSorted(s: seq<(nat, string)>)
    requires SortedById(s)
    ensures SortById(s) == s
  {
    if s != [] {
      var front := s[..|s| - 1];
      SortByIdOfSorted(front);
      InsertLast(s[|s| - 1], front);
      assert front + [s[|s| - 1]] == s;
    }
  }

  /** The table has 39 entries, keyed 1 to 39 in order. */
  lemma TableShape()
    ensures |INDUSTRIES| == 39
    ensures forall k :: 0 <= k < 39 ==> INDUSTRIES[k].id == k + 1
  {
  }

  /** The `k`-th pair is industry `k + 1` with its name in `lang`, or `""`
      when the table has no name in that language. */
  lemma FetchIndustriesTable(lang: string)
    ensures |FetchIndustries(lang)| == 39
    ensures forall k :: 0 <= k < 39 ==> FetchIndustries(lang)[k] == (k + 1, NameIn(INDUSTRIES[k], lang))
  {
    TableShape();
    var p := Project(INDUSTRIES, lang);
    assert SortedById(p);
    SortByIdOfSorted(p);
  }

  /** The ids of a list of pairs. */
  function Ids(r: seq<(nat, string)>): set<nat> {
    set k | 0 <= k < |r| :: r[k].0
  }

  /** One pair per key of the table, in strictly ascending id order. */
  lemma FetchIndustriesIds(lang: string)
    ensures forall i, j :: 0 <= i < j < |FetchIndustries(lang)| ==> FetchIndustries(lang)[i].0 < FetchIndustries(lang)[j].0
    ensures forall id :: id in Ids(FetchIndustries(lang)) <==> 1 <= id <= 39
  {
    FetchIndustriesTable(lang);
    var r := FetchIndustries(lang);
    forall id: nat | 1 <= id <= 39
      ensures id in Ids(r)
    {
      assert r[id - 1].0 == id;
    }
  }

  /** `details.get(lang, "")` is the French name for `FR`, the English
      name for `EN`, and `""` for any other code. */
  lemma NameInLanguage(industry: Industry, lang: string)
    ensures lang == "FR" ==> NameIn(industry, lang) == industry.fr
    ensures lang == "EN" ==> NameIn(industry, lang) == industry.en
    ensures lang != "FR" && lang != "EN" ==> NameIn(industry, lang) == ""
  {
  }

  /** Any other code gives `""` for every name and still lists every
      industry. */
  lemma FetchIndustriesUnknownLanguage(lang: string)
    requires lang != "FR" && lang != "EN"
    ensures |FetchIndustries(lang)| == 39
    ensures forall k :: 0 <= k < 39 ==> FetchIndustries(lang)[k] == (k + 1, "")
  {
    FetchIndustriesTable(lang);
  }

  /** Called without a language, `fetch_industries` lists the English names. */
  lemma FetchIndustriesDefault()
    ensures FetchIndustries() == FetchIndustries("EN")
  {
  }
}
