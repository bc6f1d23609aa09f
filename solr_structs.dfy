/** The records of the search index pipeline (processors/solr/structs.py):
    the slice of an OpenAlex work the search documents need, and the
    document written for each work. Optional fields are `Option`s; the
    encodings follow the declaration order and `omit_defaults`. */
module SolrStructs {
  import opened Wrappers
  import opened Json

  /** An inverted abstract: both parts are required. */
  datatype InvertedAbstract = InvertedAbstract(indexLength: int, invertedIndex: seq<(string, seq<int>)>)

  datatype WorkIds = WorkIds(mag: Option<int>, pmid: Option<string>, pmcid: Option<string>)

  datatype Biblio = Biblio(volume: Option<string>, issue: Option<string>, firstPage: Option<string>,
                           lastPage: Option<string>)

  datatype DehydratedInstitution = DehydratedInstitution(
    countryCode: Option<string>, displayName: Option<string>, id: Option<string>, ror: Option<string>,
    kind: Option<string>)

  datatype DehydratedAuthor = DehydratedAuthor(displayName: Option<string>, id: Option<string>, orcid: Option<string>)

  /** An authorship: in this struct even the author is optional. */
  datatype Authorship = Authorship(
    author: Option<DehydratedAuthor>, authorPosition: Option<string>,
    institutions: Option<seq<DehydratedInstitution>>, isCorresponding: Option<bool>,
    rawAffiliationString: Option<string>)

  datatype DehydratedSource = DehydratedSource(
    displayName: Option<string>, hostOrganization: Option<string>, hostOrganizationName: Option<string>,
    id: Option<string>, issn: Option<seq<string>>, issnL: Option<string>, kind: Option<string>)

  datatype Location = Location(
    isOa: Option<bool>, landingPageUrl: Option<string>, license: Option<string>,
    source: Option<DehydratedSource>, pdfUrl: Option<string>, version: Option<string>)

  /** A work as the search pipeline decodes it. The abstract index arrives
      as a string holding JSON. `primaryLocation` is the field the
      transformation reads; the declared struct lacks it (see
      `SolrTransform.LocationsAsWritten`). */
  datatype Work = Work(
    abstractInvertedIndex: Option<string>, authorships: Option<seq<Authorship>>, biblio: Option<Biblio>,
    citedByCount: Option<int>, createdDate: Option<string>, displayName: Option<string>, doi: Option<string>,
    id: Option<string>, ids: Option<WorkIds>, isOa: Option<bool>, isParatext: Option<bool>,
    isRetracted: Option<bool>, language: Option<string>, locations: Option<seq<Location>>,
    primaryLocation: Option<Location>,
    publicationDate: Option<string>, publicationYear: Option<int>, title: Option<string>, kind: Option<string>,
    updatedDate: Option<string>)

  /** A location as the search document lists it: the location's own fields
      and whether it is the work's primary location. */
  datatype LocationOut = LocationOut(
    isOa: Option<bool>, isPrimary: bool, landingPageUrl: Option<string>, license: Option<string>,
    source: Option<DehydratedSource>, pdfUrl: Option<string>, version: Option<string>)

  /** The search document of a work. `id` is declared as a string; the
      transformation passes `strip_id(work.id)`, which may be `None`, and the
      struct constructor does not check it. Authorships, biblio and locations
      hold serialized JSON. */
  datatype WorkOut = WorkOut(
    id: Option<string>, displayName: Option<string>, title: Option<string>, summary: Option<string>,
    titleAbstract: Option<string>, authorships: Option<string>, biblio: Option<string>,
    citedByCount: Option<int>, createdDate: Option<string>, doi: Option<string>, mag: Option<string>,
    pmid: Option<string>, pmcid: Option<string>, isOa: Option<bool>, isParatext: Option<bool>,
    isRetracted: Option<bool>, language: Option<string>, locations: Option<string>,
    publicationDate: Option<string>, publicationYear: Option<int>, kind: Option<string>,
    updatedDate: Option<string>)

  // ------------------------------------------------------------------ encodings

  function OptStrs(o: Option<seq<string>>): Json {
    if o.Some? then JArr(seq(|o.value|, i requires 0 <= i < |o.value| => JStr(o.value[i]))) else JNull
  }

  function BiblioJson(b: Biblio): Json {
    JObj(Omits([("volume", OptStr(b.volume)), ("issue", OptStr(b.issue)),
                ("first_page", OptStr(b.firstPage)), ("last_page", OptStr(b.lastPage))]))
  }

  function InstitutionJson(i: DehydratedInstitution): Json {
    JObj(Omits([("country_code", OptStr(i.countryCode)), ("display_name", OptStr(i.displayName)),
                ("id", OptStr(i.id)), ("ror", OptStr(i.ror)), ("type", OptStr(i.kind))]))
  }

  function AuthorJson(a: DehydratedAuthor): Json {
    JObj(Omits([("display_name", OptStr(a.displayName)), ("id", OptStr(a.id)), ("orcid", OptStr(a.orcid))]))
  }

  /** An authorship is declared without `omit_defaults`: all five members are
      always present, `null` when absent. */
  function AuthorshipJson(a: Authorship): (r: Json)
    ensures r.JObj? && |r.members| == 5
  {
    var institutions := if a.institutions.Some?
                        then JArr(seq(|a.institutions.value|, k requires 0 <= k < |a.institutions.value| =>
                                        InstitutionJson(a.institutions.value[k])))
                        else JNull;
    var ms := [("author", if a.author.Some? then AuthorJson(a.author.value) else JNull),
               ("author_position", OptStr(a.authorPosition)),
               ("institutions", institutions),
               ("is_corresponding", OptBool(a.isCorresponding)),
               ("raw_affiliation_string", OptStr(a.rawAffiliationString))];
    JObj(ms)
  }

  function SourceJson(s: DehydratedSource): Json {
    JObj(Omits([("display_name", OptStr(s.displayName)), ("host_organization", OptStr(s.hostOrganization)),
                ("host_organization_name", OptStr(s.hostOrganizationName)), ("id", OptStr(s.id)),
                ("issn", OptStrs(s.issn)), ("issn_l", OptStr(s.issnL)), ("type", OptStr(s.kind))]))
  }

  /** A listed location: `is_primary` is a boolean, so it is always encoded;
      the other members are omitted when absent. */
  function LocationOutJson(l: LocationOut): (r: Json)
    ensures r.JObj? && ("is_primary", JBool(l.isPrimary)) in r.members
  {
    var fields := [("is_oa", OptBool(l.isOa)), ("is_primary", JBool(l.isPrimary)),
                   ("landing_page_url", OptStr(l.landingPageUrl)), ("license", OptStr(l.license)),
                   ("source", if l.source.Some? then SourceJson(l.source.value) else JNull),
                   ("pdf_url", OptStr(l.pdfUrl)), ("version", OptStr(l.version))];
    OmitsMembers(fields);
    assert fields[1] in fields;
    JObj(Omits(fields))
  }

  /** A search document: `id` is always encoded first (it has no default);
      the other members follow in declaration order. */
  function WorkOutJson(w: WorkOut): (r: Json)
    ensures r.JObj? && |r.members| > 0 && r.members[0] == ("id", OptStr(w.id))
  {
    JObj([("id", OptStr(w.id))] + Omits(WorkOutFields(w)))
  }

  function WorkOutFields(w: WorkOut): seq<Member> {
    [("display_name", OptStr(w.displayName)), ("title", OptStr(w.title)), ("abstract", OptStr(w.summary)),
     ("title_abstract", OptStr(w.titleAbstract)), ("authorships", OptStr(w.authorships)),
     ("biblio", OptStr(w.biblio)), ("cited_by_count", OptInt(w.citedByCount)),
     ("created_date", OptStr(w.createdDate)), ("doi", OptStr(w.doi)), ("mag", OptStr(w.mag)),
     ("pmid", OptStr(w.pmid)), ("pmcid", OptStr(w.pmcid)), ("is_oa", OptBool(w.isOa)),
     ("is_paratext", OptBool(w.isParatext)), ("is_retracted", OptBool(w.isRetracted)),
     ("language", OptStr(w.language)), ("locations", OptStr(w.locations)),
     ("publication_date", OptStr(w.publicationDate)), ("publication_year", OptInt(w.publicationYear)),
     ("type", OptStr(w.kind)), ("updated_date", OptStr(w.updatedDate))]
  }

  /** Every member after `id` has a value: absent fields are omitted, and
      every present field is encoded. */
  lemma WorkOutOmitsDefaults(w: WorkOut)
    ensures forall i :: 1 <= i < |WorkOutJson(w).members| ==> WorkOutJson(w).members[i].1 != JNull
    ensures forall m :: m in WorkOutFields(w) && m.1 != JNull ==> m in WorkOutJson(w).members
  {
    OmitsAfter([("id", OptStr(w.id))], WorkOutFields(w));
  }

  lemma OmitsAfter(head: seq<Member>, fields: seq<Member>)
    ensures forall i :: |head| <= i < |head + Omits(fields)| ==> (head + Omits(fields))[i].1 != JNull
    ensures forall m :: m in fields && m.1 != JNull ==> m in head + Omits(fields)
  {
    var rest := Omits(fields);
    OmitsMembers(fields);
    forall i | |head| <= i < |head + rest| ensures (head + rest)[i].1 != JNull {
      assert (head + rest)[i] == rest[i - |head|];
      assert rest[i - |head|] in rest;
    }
  }
}
