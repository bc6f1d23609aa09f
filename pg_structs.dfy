/** The snapshot records as the relational flattener decodes them
    (processors/postgres/structs.py). A field declared `X | None = None` is an
    `Option`; a field without a default is required and is not. Literal types
    are datatypes with their spelling and the decoder's acceptance rule. */
module PgStructs {
  import opened Wrappers
  import opened Json

  datatype CountsByYear = CountsByYear(year: Option<int>, worksCount: Option<int>, citedByCount: Option<int>)

  /** `crossref: str | int | None`. */
  datatype StrOrInt = SIStr(s: string) | SIInt(i: int)

  datatype FunderIds = FunderIds(
    openalex: Option<string>, ror: Option<string>, wikidata: Option<string>,
    crossref: Option<StrOrInt>, doi: Option<string>)

  /** `Role.role`: `Literal['publisher', 'institution', 'funder']`. */
  datatype RoleKind = PublisherRole | InstitutionRole | FunderRole

  function RoleLiteral(k: RoleKind): string {
    match k
    case PublisherRole => "publisher"
    case InstitutionRole => "institution"
    case FunderRole => "funder"
  }

  /** The decoder accepts exactly the three role spellings. */
  function ParseRole(s: string): (r: Option<RoleKind>)
    ensures r.Some? <==> s in {"publisher", "institution", "funder"}
    ensures r.Some? ==> RoleLiteral(r.value) == s
  {
    if s == "publisher" then Some(PublisherRole)
    else if s == "institution" then Some(InstitutionRole)
    else if s == "funder" then Some(FunderRole)
    else None
  }

  /** Every RoleKind is decoded back from its spelling. */
  lemma RoleRoundTrip(k: RoleKind)
    ensures ParseRole(RoleLiteral(k)) == Some(k)
  {
  }

  datatype Role = Role(role: RoleKind, id: Option<string>, worksCount: Option<int>)

  datatype SummaryStats = SummaryStats(yrMeanCitedness: Option<Float>, hIndex: Option<int>, i10Index: Option<int>)

  datatype Funder = Funder(
    alternateTitles: Option<seq<string>>, citedByCount: Option<int>, countryCode: Option<string>,
    countsByYear: seq<CountsByYear>, createdDate: Option<string>, description: Option<string>,
    displayName: Option<string>, grantsCount: Option<int>, homepageUrl: Option<string>,
    id: Option<string>, ids: FunderIds, imageThumbnailUrl: Option<string>, imageUrl: Option<string>,
    roles: Option<seq<Role>>, summaryStats: Option<SummaryStats>, updatedDate: Option<string>,
    worksCount: Option<int>)

  datatype PublisherIds = PublisherIds(openalex: Option<string>, ror: Option<string>, wikidata: Option<string>)

  datatype ParentPublisher = ParentPublisher(id: Option<string>)

  datatype Publisher = Publisher(
    alternateTitles: Option<seq<string>>, citedByCount: Option<int>, countryCodes: Option<seq<string>>,
    countsByYear: seq<CountsByYear>, createdDate: Option<string>, displayName: Option<string>,
    hierarchyLevel: Option<int>, id: Option<string>, ids: Option<PublisherIds>,
    imageThumbnailUrl: Option<string>, imageUrl: Option<string>, lineage: Option<seq<string>>,
    parentPublisher: Option<ParentPublisher>, roles: Option<seq<Role>>, sourcesApiUrl: Option<string>,
    summaryStats: Option<SummaryStats>, updatedDate: Option<string>, worksCount: Option<int>)

  datatype DehydratedConcept = DehydratedConcept(
    displayName: Option<string>, id: Option<string>, level: Option<int>, wikidata: Option<string>)

  /** A concept with a required `score`. */
  datatype RatedDehydratedConcept = RatedDehydratedConcept(
    displayName: Option<string>, id: Option<string>, level: Option<int>, wikidata: Option<string>,
    score: Float)

  datatype ConceptIds = ConceptIds(
    mag: Option<int>, openalex: Option<string>, umlsCui: Option<seq<string>>,
    umlsAui: Option<seq<string>>, wikidata: Option<string>, wikipedia: Option<string>)

  datatype Concept = Concept(
    ancestors: Option<seq<DehydratedConcept>>, citedByCount: Option<int>,
    countsByYear: seq<CountsByYear>, createdDate: Option<string>, description: Option<string>,
    displayName: Option<string>, id: Option<string>, ids: Option<ConceptIds>,
    imageThumbnailUrl: Option<string>, imageUrl: Option<string>, level: Option<int>,
    relatedConcepts: Option<seq<RatedDehydratedConcept>>, summaryStats: Option<SummaryStats>,
    updatedDate: Option<string>, wikidata: Option<string>, worksApiUrl: Option<string>,
    worksCount: Option<int>)

  datatype DehydratedInstitution = DehydratedInstitution(
    countryCode: Option<string>, displayName: Option<string>, id: Option<string>,
    ror: Option<string>, kind: Option<string>)

  /** `relationship: Literal['parent', 'child', 'related', 'other']`. */
  datatype Relationship = ParentOf | ChildOf | RelatedTo | OtherRelation

  function RelationshipLiteral(r: Relationship): string {
    match r
    case ParentOf => "parent"
    case ChildOf => "child"
    case RelatedTo => "related"
    case OtherRelation => "other"
  }

  /** The decoder accepts exactly the four relationship spellings. */
  function ParseRelationship(s: string): (r: Option<Relationship>)
    ensures r.Some? <==> s in {"parent", "child", "related", "other"}
    ensures r.Some? ==> RelationshipLiteral(r.value) == s
  {
    if s == "parent" then Some(ParentOf)
    else if s == "child" then Some(ChildOf)
    else if s == "related" then Some(RelatedTo)
    else if s == "other" then Some(OtherRelation)
    else None
  }

  /** Every Relationship is decoded back from its spelling. */
  lemma RelationshipRoundTrip(k: Relationship)
    ensures ParseRelationship(RelationshipLiteral(k)) == Some(k)
  {
  }

  /** An associated institution: `relationship` is required. */
  datatype RelatedDehydratedInstitution = RelatedDehydratedInstitution(
    countryCode: Option<string>, displayName: Option<string>, id: Option<string>,
    ror: Option<string>, kind: Option<string>, relationship: Relationship)

  datatype Geo = Geo(
    city: Option<string>, geonamesCityId: Option<string>, region: Option<string>,
    countryCode: Option<string>, country: Option<string>, latitude: Option<Float>,
    longitude: Option<Float>)

  datatype InstitutionIds = InstitutionIds(
    openalex: Option<string>, ror: Option<string>, grid: Option<string>,
    wikipedia: Option<string>, wikidata: Option<string>, mag: Option<int>)

  /** `InstitutionType`. */
  datatype InstitutionType = Education | Healthcare | Company | Archive | Nonprofit | Government | Facility | OtherInstitution

  function InstitutionTypeLiteral(t: InstitutionType): string {
    match t
    case Education => "education"
    case Healthcare => "healthcare"
    case Company => "company"
    case Archive => "archive"
    case Nonprofit => "nonprofit"
    case Government => "government"
    case Facility => "facility"
    case OtherInstitution => "other"
  }

  /** The decoder accepts exactly the eight institution type spellings. */
  function ParseInstitutionType(s: string): (r: Option<InstitutionType>)
    ensures r.Some? <==> s in {"education", "healthcare", "company", "archive", "nonprofit", "government", "facility", "other"}
    ensures r.Some? ==> InstitutionTypeLiteral(r.value) == s
  {
    if s == "education" then Some(Education)
    else if s == "healthcare" then Some(Healthcare)
    else if s == "company" then Some(Company)
    else if s == "archive" then Some(Archive)
    else if s == "nonprofit" then Some(Nonprofit)
    else if s == "government" then Some(Government)
    else if s == "facility" then Some(Facility)
    else if s == "other" then Some(OtherInstitution)
    else None
  }

  /** Every InstitutionType is decoded back from its spelling. */
  lemma InstitutionTypeRoundTrip(t: InstitutionType)
    ensures ParseInstitutionType(InstitutionTypeLiteral(t)) == Some(t)
  {
  }

  /** An institution: `associated_institutions` and `counts_by_year` are
      required, everything else defaults to `None`. */
  datatype Institution = Institution(
    associatedInstitutions: seq<RelatedDehydratedInstitution>, citedByCount: Option<int>,
    countryCode: Option<string>, countsByYear: seq<CountsByYear>, createdDate: Option<string>,
    displayName: Option<string>, displayNameAcronyms: Option<seq<string>>,
    displayNameAlternatives: Option<seq<string>>, geo: Option<Geo>, homepageUrl: Option<string>,
    id: Option<string>, ids: Option<InstitutionIds>, imageThumbnailUrl: Option<string>,
    imageUrl: Option<string>, roles: Option<seq<Role>>, ror: Option<string>,
    summaryStats: Option<SummaryStats>, kind: Option<InstitutionType>, updatedDate: Option<string>,
    worksApiUrl: Option<string>, worksCount: Option<int>, xConcepts: Option<seq<RatedDehydratedConcept>>)

  datatype APCPrice = APCPrice(currency: Option<string>, price: Option<int>)

  datatype SourceIds = SourceIds(
    fatcat: Option<string>, issn: Option<seq<string>>, issnL: Option<string>, mag: Option<int>,
    openalex: Option<string>, wikidata: Option<string>)

  datatype Society = Society(url: Option<string>, organization: Option<string>)

  /** `SourceType`. */
  datatype SourceType = Journal | Repository | Conference | EbookPlatform | BookSeries | OtherSource

  function SourceTypeLiteral(t: SourceType): string {
    match t
    case Journal => "journal"
    case Repository => "repository"
    case Conference => "conference"
    case EbookPlatform => "ebook platform"
    case BookSeries => "book series"
    case OtherSource => "other"
  }

  /** The decoder accepts exactly the six source type spellings. */
  function ParseSourceType(s: string): (r: Option<SourceType>)
    ensures r.Some? <==> s in {"journal", "repository", "conference", "ebook platform", "book series", "other"}
    ensures r.Some? ==> SourceTypeLiteral(r.value) == s
  {
    if s == "journal" then Some(Journal)
    else if s == "repository" then Some(Repository)
    else if s == "conference" then Some(Conference)
    else if s == "ebook platform" then Some(EbookPlatform)
    else if s == "book series" then Some(BookSeries)
    else if s == "other" then Some(OtherSource)
    else None
  }

  /** Every SourceType is decoded back from its spelling. */
  lemma SourceTypeRoundTrip(t: SourceType)
    ensures ParseSourceType(SourceTypeLiteral(t)) == Some(t)
  {
  }

  datatype DehydratedSource = DehydratedSource(
    displayName: Option<string>, hostOrganization: Option<string>,
    hostOrganizationLineage: Option<seq<string>>, hostOrganizationName: Option<string>,
    id: Option<string>, isInDoaj: Option<bool>, isOa: Option<bool>, issn: Option<seq<string>>,
    issnL: Option<string>, kind: Option<SourceType>)

  datatype Source = Source(
    abbreviatedTitle: Option<string>, alternateTitles: Option<seq<string>>,
    apcPrices: Option<seq<APCPrice>>, apcUsd: Option<int>, citedByCount: Option<int>,
    countryCode: Option<string>, countsByYear: Option<seq<CountsByYear>>, createdDate: Option<string>,
    displayName: Option<string>, homepageUrl: Option<string>, hostOrganization: Option<string>,
    hostOrganizationLineage: Option<seq<string>>, hostOrganizationName: Option<string>,
    id: Option<string>, ids: Option<SourceIds>, isInDoaj: Option<bool>, isOa: Option<bool>,
    issn: Option<seq<string>>, issnL: Option<string>, societies: Option<seq<Society>>,
    summaryStats: Option<SummaryStats>, kind: Option<SourceType>, updatedDate: Option<string>,
    worksApiUrl: Option<string>, worksCount: Option<int>, xConcepts: Option<seq<RatedDehydratedConcept>>)

  datatype AuthorIds = AuthorIds(
    mag: Option<int>, openalex: Option<string>, orcid: Option<string>, scopus: Option<string>,
    twitter: Option<string>, wikipedia: Option<string>)

  datatype DehydratedAuthor = DehydratedAuthor(displayName: Option<string>, id: Option<string>, orcid: Option<string>)

  datatype Author = Author(
    citedByCount: Option<int>, countsByYear: Option<seq<CountsByYear>>, createdDate: Option<string>,
    displayName: Option<string>, displayNameAlternatives: Option<seq<string>>, id: Option<string>,
    ids: Option<AuthorIds>, lastKnownInstitution: Option<DehydratedInstitution>, orcid: Option<string>,
    summaryStats: Option<SummaryStats>, updatedDate: Option<string>, worksApiUrl: Option<string>,
    worksCount: Option<int>, xConcepts: Option<seq<RatedDehydratedConcept>>)

  datatype Location = Location(
    isOa: Option<bool>, landingPageUrl: Option<string>, license: Option<string>,
    source: Option<DehydratedSource>, pdfUrl: Option<string>, version: Option<string>)

  /** An authorship: `author` is required, the rest defaults to `None`. */
  datatype Authorship = Authorship(
    author: DehydratedAuthor, authorPosition: Option<string>,
    institutions: Option<seq<DehydratedInstitution>>, isCorresponding: Option<bool>,
    rawAffiliationString: Option<string>, rawAuthorName: Option<string>)

  datatype CitationsByYear = CitationsByYear(year: Option<int>, citedByCount: Option<int>)

  /** The word-to-positions index of an abstract. */
  type Index = map<string, seq<int>>

  /** `InvertedIndex` is required, `IndexLength` is not. */
  datatype InvertedAbstract = InvertedAbstract(indexLength: Option<int>, invertedIndex: Index)

  /** `openalex` is required, the other identifiers are optional. */
  datatype WorkIds = WorkIds(
    doi: Option<string>, mag: Option<int>, openalex: string, pmid: Option<string>, pmcid: Option<string>)

  datatype Biblio = Biblio(
    volume: Option<string>, issue: Option<string>, firstPage: Option<string>, lastPage: Option<string>)

  datatype APC = APC(value: Option<int>, currency: Option<string>, valueUsd: Option<int>, provenance: Option<string>)

  /** `apc_paid: APC | list[APC] | None`: a single charge or a list of them. */
  datatype ApcPaid = SingleApc(apc: APC) | ApcList(apcs: seq<APC>)

  datatype Grant = Grant(funder: Option<string>, funderDisplayName: Option<string>, awardId: Option<string>)

  datatype Mesh = Mesh(
    descriptorUi: Option<string>, descriptorName: Option<string>, qualifierUi: Option<string>,
    qualifierName: Option<string>, isMajorTopic: Option<bool>)

  /** `OAStatus`. */
  datatype OAStatus = Gold | Green | Hybrid | Bronze | Closed

  function OAStatusLiteral(s: OAStatus): string {
    match s
    case Gold => "gold"
    case Green => "green"
    case Hybrid => "hybrid"
    case Bronze => "bronze"
    case Closed => "closed"
  }

  /** The decoder accepts exactly five spellings, one per status. */
  function ParseOAStatus(s: string): (r: Option<OAStatus>)
    ensures r.Some? <==> s in {"gold", "green", "hybrid", "bronze", "closed"}
    ensures r.Some? ==> OAStatusLiteral(r.value) == s
  {
    if s == "gold" then Some(Gold)
    else if s == "green" then Some(Green)
    else if s == "hybrid" then Some(Hybrid)
    else if s == "bronze" then Some(Bronze)
    else if s == "closed" then Some(Closed)
    else None
  }

  /** Every OAStatus is decoded back from its spelling. */
  lemma OAStatusRoundTrip(t: OAStatus)
    ensures ParseOAStatus(OAStatusLiteral(t)) == Some(t)
  {
  }

  /** There are exactly five open-access statuses, with distinct spellings. */
  lemma OAStatusExactlyFive()
    ensures forall t: OAStatus :: t in [Gold, Green, Hybrid, Bronze, Closed]
    ensures |{OAStatusLiteral(Gold), OAStatusLiteral(Green), OAStatusLiteral(Hybrid),
              OAStatusLiteral(Bronze), OAStatusLiteral(Closed)}| == 5
  {
    forall t: OAStatus ensures t in [Gold, Green, Hybrid, Bronze, Closed] {
      match t
      case Gold =>
      case Green =>
      case Hybrid =>
      case Bronze =>
      case Closed =>
    }
    assert OAStatusLiteral(Gold)[0] == 'g' && OAStatusLiteral(Green)[0] == 'g';
    assert OAStatusLiteral(Gold)[1] == 'o' && OAStatusLiteral(Green)[1] == 'r';
  }

  datatype OpenAccess = OpenAccess(
    oaStatus: Option<OAStatus>, oaUrl: Option<string>, anyRepositoryHasFulltext: Option<bool>,
    isOa: Option<bool>)

  datatype SustainableDevelopmentGoal = SustainableDevelopmentGoal(
    id: Option<string>, displayName: Option<string>, score: Option<Float>)

  datatype Work = Work(
    abstractInvertedIndex: Option<Index>, authorships: Option<seq<Authorship>>,
    apcList: Option<APC>, apcPaid: Option<ApcPaid>, bestOaLocation: Option<Location>,
    biblio: Option<Biblio>, citedByApiUrl: Option<string>, citedByCount: Option<int>,
    concepts: Option<seq<RatedDehydratedConcept>>, correspondingAuthorIds: Option<seq<string>>,
    correspondingInstitutionIds: Option<seq<string>>, countsByYear: Option<seq<CitationsByYear>>,
    createdDate: Option<string>, displayName: Option<string>, doi: Option<string>,
    grants: Option<seq<Grant>>, id: Option<string>, ids: Option<WorkIds>, isOa: Option<bool>,
    isParatext: Option<bool>, isRetracted: Option<bool>, language: Option<string>,
    license: Option<string>, locations: Option<seq<Location>>, locationsCount: Option<int>,
    mesh: Option<seq<Mesh>>, openAccess: Option<OpenAccess>, primaryLocation: Option<Location>,
    publicationDate: Option<string>, publicationYear: Option<int>,
    referencedWorks: Option<seq<string>>, relatedWorks: Option<seq<string>>,
    sustainableDevelopmentGoals: Option<seq<SustainableDevelopmentGoal>>, title: Option<string>,
    kind: Option<string>, typeCrossref: Option<string>, updatedDate: Option<string>)

  /** `Mesh` encoded with `omit_defaults`: only the fields that are set. */
  function MeshJson(m: Mesh): (r: Json)
    ensures r.JObj?
    ensures |r.members| == (if m.descriptorUi.Some? then 1 else 0) + (if m.descriptorName.Some? then 1 else 0)
                           + (if m.qualifierUi.Some? then 1 else 0) + (if m.qualifierName.Some? then 1 else 0)
                           + (if m.isMajorTopic.Some? then 1 else 0)
  {
    JObj(Omit("descriptor_ui", OptStr(m.descriptorUi)) + Omit("descriptor_name", OptStr(m.descriptorName))
         + Omit("qualifier_ui", OptStr(m.qualifierUi)) + Omit("qualifier_name", OptStr(m.qualifierName))
         + Omit("is_major_topic", OptBool(m.isMajorTopic)))
  }

  function MeshFields(m: Mesh): seq<Member> {
    [("descriptor_ui", OptStr(m.descriptorUi)), ("descriptor_name", OptStr(m.descriptorName)),
     ("qualifier_ui", OptStr(m.qualifierUi)), ("qualifier_name", OptStr(m.qualifierName)),
     ("is_major_topic", OptBool(m.isMajorTopic))]
  }

  /** The members of an encoded `Mesh` are its fields that are set, in
      declaration order. */
  lemma MeshJsonOmits(m: Mesh)
    ensures MeshJson(m).members == Omits(MeshFields(m))
  {
    var f := MeshFields(m);
    OmitsFive(f[0], f[1], f[2], f[3], f[4]);
    assert f == [f[0], f[1], f[2], f[3], f[4]];
  }

  /** The five field names of `Mesh` are distinct. */
  lemma MeshFieldNames(m: Mesh, i: nat, j: nat)
    requires i < j < 5
    ensures MeshFields(m)[i].0 != MeshFields(m)[j].0
  {
    var f := MeshFields(m);
    assert |f[0].0| == 13 && |f[1].0| == 15 && |f[2].0| == 12 && |f[3].0| == 14 && |f[4].0| == 14;
    assert f[3].0[0] != f[4].0[0];
  }

  /** No member of an encoded `Mesh` is `null`, and each field that is set
      appears under its own name with its own value. */
  lemma MeshJsonMembers(m: Mesh)
    ensures forall e :: e in MeshJson(m).members ==> e.1 != JNull
    ensures forall x :: ("descriptor_ui", JStr(x)) in MeshJson(m).members <==> m.descriptorUi == Some(x)
    ensures forall x :: ("descriptor_name", JStr(x)) in MeshJson(m).members <==> m.descriptorName == Some(x)
    ensures forall x :: ("qualifier_ui", JStr(x)) in MeshJson(m).members <==> m.qualifierUi == Some(x)
    ensures forall x :: ("qualifier_name", JStr(x)) in MeshJson(m).members <==> m.qualifierName == Some(x)
    ensures forall b :: ("is_major_topic", JBool(b)) in MeshJson(m).members <==> m.isMajorTopic == Some(b)
  {
    var f := MeshFields(m);
    MeshJsonOmits(m);
    OmitsMembers(f);
    forall i: nat, j: nat | i < j < 5 ensures f[i].0 != f[j].0 {
      MeshFieldNames(m, i, j);
    }
    OmitsLookup(f, 0); OmitsLookup(f, 1); OmitsLookup(f, 2); OmitsLookup(f, 3); OmitsLookup(f, 4);
  }
}
