/** The seven `flatten_*_partition` functions of
    processors/postgres/flatten_partition.py: for each record type, the rows
    one decoded record produces, the writers and COPY statements of the
    partition, and the partition function itself as an instance of the shared
    loop in `Rows`. */
module FlattenPartition {
  import opened Wrappers
  import opened Errors
  import opened Json
  import opened Util
  import opened Deletion
  import opened Rows
  import Text
  import Paths
  import S = PgStructs

  /** A loop over nested records that may raise part-way: the rows written
      before it raised, and what it raised. */
  datatype Partial = Partial(writes: seq<Write>, fault: Option<Fault>)

  function Lift(l: Option<seq<string>>): (r: Option<seq<Option<string>>>)
    ensures r.Some? <==> l.Some?
    ensures r.Some? ==> r.value == Somes(l.value)
  {
    if l.Some? then Some(Somes(l.value)) else None
  }

  /** `prepare_list(lst)` without `strip`, which never raises, as a cell. */
  function ListCell(l: Option<seq<Option<string>>>): Value {
    var r := PrepareList(l, false);
    OStr(r.value)
  }

  function StatsH(s: S.SummaryStats): Value { OInt(s.hIndex) }
  function StatsI10(s: S.SummaryStats): Value { OInt(s.i10Index) }

  // ------------------------------------------------------------------ authors

  const AuthorFields: Fields := [
    "id", "cited_by_count", "works_count", "h_index", "i10_index",
    "display_name", "display_name_alternatives",
    "id_mag", "id_orcid", "id_scopus", "id_twitter", "id_wikipedia",
    "created_date", "updated_date"]

  function AuthorRow(a: S.Author, aid: string, stats: S.SummaryStats, ids: S.AuthorIds): Row {
    [
      ("id", Str(aid)),
      ("cited_by_count", OInt(a.citedByCount)),
      ("works_count", OInt(a.worksCount)),
      ("h_index", StatsH(stats)),
      ("i10_index", StatsI10(stats)),
      ("display_name", OStr(a.displayName)),
      ("display_name_alternatives", ListCell(Lift(a.displayNameAlternatives))),
      ("last_known_institution", OStr(if a.lastKnownInstitution.Some? then StripId(a.lastKnownInstitution.value.id) else None)),
      ("id_mag", OInt(ids.mag)),
      ("id_orcid", OStr(ids.orcid)),
      ("id_scopus", OStr(ids.scopus)),
      ("id_twitter", OStr(ids.twitter)),
      ("id_wikipedia", OStr(ids.wikipedia)),
      ("created_date", OStr(a.createdDate)),
      ("updated_date", OStr(a.updatedDate))]
  }

  /** The loop body of `flatten_authors_partition`. The id is sliced with
      `[21:]`, so an author without an id raises, and a short id becomes the
      empty text rather than `None`. */
  function AuthorStep(a: S.Author): (r: Step)
    ensures !r.Skip?
    ensures r.Emit? <==> a.id.Some? && a.summaryStats.Some? && a.ids.Some?
    ensures r.Crash? ==> r.partial == []
    ensures r.Emit? ==> r.id == Some(Tail21(a.id.value)) && !r.hasAbstract
    ensures r.Emit? ==> |r.writes| == 1 && r.writes[0].table == 0 && Get(r.writes[0].row, "id") == Some(Str(Tail21(a.id.value)))
  {
    if a.id.None? then Crash([], SliceOfNone("author.id"))
    else
      var aid := Tail21(a.id.value);
      if a.summaryStats.None? then Crash([], AttributeOfNone("summary_stats"))
      else if a.ids.None? then Crash([], AttributeOfNone("ids"))
      else Emit(Some(aid), [Write(0, AuthorRow(a, aid, a.summaryStats.value, a.ids.value))], false)
  }

  /** `last_known_institution` is not a field name: the author file is the
      same whatever the author's last known institution. */
  lemma LastKnownInstitutionDropped(a: S.Author, x: Option<S.DehydratedInstitution>)
    requires AuthorStep(a).Emit?
    ensures var b := a.(lastKnownInstitution := x);
            Project(AuthorFields, AuthorStep(a).writes[0].row) == Project(AuthorFields, AuthorStep(b).writes[0].row)
  {
    var b := a.(lastKnownInstitution := x);
    var aid := Tail21(a.id.value);
    var ra := AuthorRow(a, aid, a.summaryStats.value, a.ids.value);
    var rb := AuthorRow(b, aid, a.summaryStats.value, a.ids.value);
    assert ra[..7] == rb[..7];
    assert ra[8..] == rb[8..];
    AgreeExceptAt(AuthorFields, ra, rb, 7);
    OtherKeysIgnored(AuthorFields, ra, rb);
  }

  /** An author id of 21 characters or fewer is collected as the empty text,
      which the deletion script then lists, where `strip_id` would have given
      `None`. */
  lemma ShortAuthorId(a: S.Author)
    requires AuthorStep(a).Emit? && |a.id.value| <= 21
    ensures AuthorStep(a).id == Some("")
    ensures |a.id.value| <= 20 ==> StripId(a.id).None?
  {
  }

  const AuthorsLayout: Layout := Layout(Author, [AuthorFields], [Copy("authors", 0, true)])

  method FlattenAuthorsPartition(lines: seq<Result<S.Author, DecodeError>>, outAuthors: Paths.Path, cwd: Paths.Path)
    returns (out: Outcome)
    ensures out == Flattened(lines, AuthorStep, AuthorsLayout, [outAuthors], cwd)
  {
    out := FlattenPartition(lines, AuthorStep, AuthorsLayout, [outAuthors], cwd);
  }

  // ------------------------------------------------------------- institutions

  const InstitutionFields: Fields := [
    "id", "type", "homepage_url",
    "cited_by_count", "works_count", "h_index", "i10_index",
    "display_name", "display_name_alternatives", "display_name_acronyms",
    "id_ror", "id_mag", "id_wikipedia", "id_wikidata", "id_grid",
    "city", "geonames_city_id", "region", "country", "country_code",
    "latitude", "longitude",
    "created_date", "updated_date"]

  const AssociationFields: Fields := ["institution_a_id", "institution_b_id", "relationship"]

  const InstitutionConceptFields: Fields := ["institution_id", "concept_id", "score"]

  function InstitutionRow(i: S.Institution, iid: string, stats: S.SummaryStats, ids: S.InstitutionIds, geo: S.Geo): Row {
    [
      ("id", Str(iid)),
      ("type", OStr(if i.kind.Some? then Some(S.InstitutionTypeLiteral(i.kind.value)) else None)),
      ("homepage_url", OStr(i.homepageUrl)),
      ("cited_by_count", OInt(i.citedByCount)),
      ("works_count", OInt(i.worksCount)),
      ("h_index", StatsH(stats)),
      ("i10_index", StatsI10(stats)),
      ("display_name", OStr(i.displayName)),
      ("display_name_alternatives", ListCell(Lift(i.displayNameAlternatives))),
      ("display_name_acronyms", ListCell(Lift(i.displayNameAcronyms))),
      ("id_ror", OStr(i.ror)),
      ("id_mag", OInt(ids.mag)),
      ("id_wikipedia", OStr(ids.wikipedia)),
      ("id_wikidata", OStr(ids.wikidata)),
      ("id_grid", OStr(ids.grid)),
      ("city", OStr(geo.city)),
      ("geonames_city_id", OStr(geo.geonamesCityId)),
      ("region", OStr(geo.region)),
      ("country", OStr(geo.country)),
      ("country_code", OStr(geo.countryCode)),
      ("latitude", ONum(geo.latitude)),
      ("longitude", ONum(geo.longitude)),
      ("created_date", OStr(i.createdDate)),
      ("updated_date", OStr(i.updatedDate))]
  }

  /** The `associated_institutions` loop: one row per association, each
      other institution's id sliced with `[21:]`. */
  function AssociationWrites(iid: string, xs: seq<S.RelatedDehydratedInstitution>): (r: Partial)
    ensures r.fault.None? <==> forall k :: 0 <= k < |xs| ==> xs[k].id.Some?
    ensures |r.writes| <= |xs|
    ensures r.fault.None? ==> |r.writes| == |xs|
    ensures forall k :: 0 <= k < |r.writes| ==>
              r.writes[k].table == 1 && xs[k].id.Some? &&
              r.writes[k].row == [("institution_a_id", Str(iid)), ("institution_b_id", Str(Tail21(xs[k].id.value))),
                                     ("relationship", Str(S.RelationshipLiteral(xs[k].relationship)))]
    decreases |xs|
  {
    if |xs| == 0 then Partial([], None)
    else if xs[0].id.None? then Partial([], Some(SliceOfNone("ass.id")))
    else
      var rest := AssociationWrites(iid, xs[1..]);
      var row := [("institution_a_id", Str(iid)), ("institution_b_id", Str(Tail21(xs[0].id.value))),
                     ("relationship", Str(S.RelationshipLiteral(xs[0].relationship)))];
      Partial([Write(1, row)] + rest.writes, rest.fault)
  }

  /** The `x_concepts` loop: one row per concept, its id sliced with `[21:]`. */
  function InstitutionConceptWrites(iid: string, xs: seq<S.RatedDehydratedConcept>): (r: Partial)
    ensures r.fault.None? <==> forall k :: 0 <= k < |xs| ==> xs[k].id.Some?
    ensures |r.writes| <= |xs|
    ensures r.fault.None? ==> |r.writes| == |xs|
    ensures forall k :: 0 <= k < |r.writes| ==>
              r.writes[k].table == 2 && xs[k].id.Some? &&
              r.writes[k].row == [("institution_id", Str(iid)), ("concept_id", Str(Tail21(xs[k].id.value))),
                                     ("score", Num(xs[k].score))]
    decreases |xs|
  {
    if |xs| == 0 then Partial([], None)
    else if xs[0].id.None? then Partial([], Some(SliceOfNone("con.id")))
    else
      var rest := InstitutionConceptWrites(iid, xs[1..]);
      var row := [("institution_id", Str(iid)), ("concept_id", Str(Tail21(xs[0].id.value))), ("score", Num(xs[0].score))];
      Partial([Write(2, row)] + rest.writes, rest.fault)
  }

  /** The loop body of `flatten_institutions_partition`. */
  function InstitutionStep(i: S.Institution): (r: Step)
    ensures !r.Skip?
    ensures r.Emit? <==>
              && i.id.Some? && i.summaryStats.Some? && i.ids.Some? && i.geo.Some?
              && (forall k :: 0 <= k < |i.associatedInstitutions| ==> i.associatedInstitutions[k].id.Some?)
              && i.xConcepts.Some?
              && (forall k :: 0 <= k < |i.xConcepts.value| ==> i.xConcepts.value[k].id.Some?)
    ensures r.Emit? ==> r.id == Some(Tail21(i.id.value)) && !r.hasAbstract
  {
    if i.id.None? then Crash([], SliceOfNone("institution.id"))
    else
      var iid := Tail21(i.id.value);
      if i.summaryStats.None? then Crash([], AttributeOfNone("summary_stats"))
      else if i.ids.None? then Crash([], AttributeOfNone("ids"))
      else if i.geo.None? then Crash([], AttributeOfNone("geo"))
      else
        var head := [Write(0, InstitutionRow(i, iid, i.summaryStats.value, i.ids.value, i.geo.value))];
        var ass := AssociationWrites(iid, i.associatedInstitutions);
        if ass.fault.Some? then Crash(head + ass.writes, ass.fault.value)
        else if i.xConcepts.None? then Crash(head + ass.writes, IterateNone("x_concepts"))
        else
          var con := InstitutionConceptWrites(iid, i.xConcepts.value);
          if con.fault.Some? then Crash(head + ass.writes + con.writes, con.fault.value)
          else Emit(Some(iid), head + ass.writes + con.writes, false)
  }

  /** A written institution gives one institution row under its sliced id,
      one association row per associated institution and one concept row per
      concept. */
  lemma InstitutionWrites(i: S.Institution)
    requires InstitutionStep(i).Emit?
    ensures var ws := InstitutionStep(i).writes;
            && |On(ws, 0)| == 1 && Get(On(ws, 0)[0], "id") == Some(Str(Tail21(i.id.value)))
            && |On(ws, 1)| == |i.associatedInstitutions| && |On(ws, 2)| == |i.xConcepts.value|
  {
    var iid := Tail21(i.id.value);
    var row := InstitutionRow(i, iid, i.summaryStats.value, i.ids.value, i.geo.value);
    var head := [Write(0, row)];
    var ass := AssociationWrites(iid, i.associatedInstitutions).writes;
    var con := InstitutionConceptWrites(iid, i.xConcepts.value).writes;
    assert InstitutionStep(i).writes == head + ass + con;
    OnSingleTable(head, 0, 0); OnSingleTable(head, 0, 1); OnSingleTable(head, 0, 2);
    OnSingleTable(ass, 1, 0); OnSingleTable(ass, 1, 1); OnSingleTable(ass, 1, 2);
    OnSingleTable(con, 2, 0); OnSingleTable(con, 2, 1); OnSingleTable(con, 2, 2);
    OnAppend(head, ass, 0); OnAppend(head, ass, 1); OnAppend(head, ass, 2);
    OnAppend(head + ass, con, 0); OnAppend(head + ass, con, 1); OnAppend(head + ass, con, 2);
    assert Get(row, "id") == Some(Str(iid));
  }

  const InstitutionsLayout: Layout := Layout(Institution, [InstitutionFields, AssociationFields, InstitutionConceptFields], [
    Copy("institutions", 0, true), Copy("institutions_associations", 1, true), Copy("institutions_concepts", 2, true)])

  method FlattenInstitutionsPartition(lines: seq<Result<S.Institution, DecodeError>>,
                                      outInstitutions: Paths.Path, outAssociation: Paths.Path, outConcepts: Paths.Path,
                                      cwd: Paths.Path)
    returns (out: Outcome)
    ensures out == Flattened(lines, InstitutionStep, InstitutionsLayout, [outInstitutions, outAssociation, outConcepts], cwd)
  {
    out := FlattenPartition(lines, InstitutionStep, InstitutionsLayout, [outInstitutions, outAssociation, outConcepts], cwd);
  }

  // --------------------------------------------------------------- publishers

  const PublisherFields: Fields := [
    "id", "cited_by_count", "works_count", "h_index", "i10_index",
    "display_name", "alternate_titles", "country_codes",
    "id_ror", "id_wikidata", "hierarchy_level", "lineage", "parent",
    "created_date", "updated_date"]

  function PublisherRow(p: S.Publisher, pid: string, stats: S.SummaryStats, ids: S.PublisherIds, lineage: Option<string>): Row {
    [
      ("id", Str(pid)),
      ("cited_by_count", OInt(p.citedByCount)),
      ("works_count", OInt(p.worksCount)),
      ("h_index", StatsH(stats)),
      ("i10_index", StatsI10(stats)),
      ("display_name", OStr(p.displayName)),
      ("alternate_titles", ListCell(Lift(p.alternateTitles))),
      ("country_codes", ListCell(Lift(p.countryCodes))),
      ("id_ror", OStr(ids.ror)),
      ("id_wikidata", OStr(ids.wikidata)),
      ("hierarchy_level", OInt(p.hierarchyLevel)),
      ("parent", OStr(if p.parentPublisher.Some? then StripId(p.parentPublisher.value.id) else None)),
      ("lineage", OStr(lineage)),
      ("created_date", OStr(p.createdDate)),
      ("updated_date", OStr(p.updatedDate))]
  }

  /** The loop body of `flatten_publisher_partition`: a publisher whose id
      `strip_id` turns into `None` is skipped before it is counted. The
      lineage is prepared with `strip`, so a lineage entry of 20 characters or
      fewer raises. */
  function PublisherStep(p: S.Publisher): (r: Step)
    ensures r.Skip? <==> StripId(p.id).None?
    ensures r.Emit? <==>
              StripId(p.id).Some? && p.summaryStats.Some? && p.ids.Some? && PrepareList(Lift(p.lineage), true).Success?
    ensures r.Crash? ==> r.partial == []
    ensures r.Emit? ==> r.id == StripId(p.id) && !r.hasAbstract
    ensures r.Emit? ==> |r.writes| == 1 && r.writes[0].table == 0 && Get(r.writes[0].row, "id") == Some(Str(StripId(p.id).value))
  {
    var pid := StripId(p.id);
    if pid.None? then Skip
    else if p.summaryStats.None? then Crash([], AttributeOfNone("summary_stats"))
    else if p.ids.None? then Crash([], AttributeOfNone("ids"))
    else
      var lineage := PrepareList(Lift(p.lineage), true);
      if lineage.Failure? then Crash([], lineage.error)
      else Emit(pid, [Write(0, PublisherRow(p, pid.value, p.summaryStats.value, p.ids.value, lineage.value))], false)
  }

  /** A publisher without a usable id leaves the partition as it was: no row,
      no count and no deletion id. */
  lemma PublisherWithoutIdSkipped(lines: seq<Result<S.Publisher, DecodeError>>, p: S.Publisher)
    requires StripId(p.id).None?
    ensures ScanLines(lines + [Success(p)], PublisherStep) == ScanLines(lines, PublisherStep)
  {
    SkipChangesNothing(lines, p, PublisherStep);
  }

  const PublishersLayout: Layout := Layout(Publisher, [PublisherFields], [Copy("publishers", 0, true)])

  method FlattenPublisherPartition(lines: seq<Result<S.Publisher, DecodeError>>, outPublishers: Paths.Path, cwd: Paths.Path)
    returns (out: Outcome)
    ensures out == Flattened(lines, PublisherStep, PublishersLayout, [outPublishers], cwd)
  {
    out := FlattenPartition(lines, PublisherStep, PublishersLayout, [outPublishers], cwd);
  }

  // ------------------------------------------------------------------ funders

  const FunderFields: Fields := [
    "id", "cited_by_count", "works_count", "h_index", "i10_index",
    "display_name", "alternate_titles", "description", "homepage_url",
    "id_ror", "id_wikidata", "id_crossref", "id_doi",
    "created_date", "updated_date"]

  function CrossrefCell(c: Option<S.StrOrInt>): Value {
    if c.None? then Null
    else if c.value.SIStr? then Str(c.value.s)
    else Int(c.value.i)
  }

  function FunderRow(f: S.Funder, fid: Option<string>, stats: S.SummaryStats): Row {
    [
      ("id", OStr(fid)),
      ("cited_by_count", OInt(f.citedByCount)),
      ("works_count", OInt(f.worksCount)),
      ("h_index", StatsH(stats)),
      ("i10_index", StatsI10(stats)),
      ("display_name", OStr(f.displayName)),
      ("alternate_titles", ListCell(Lift(f.alternateTitles))),
      ("description", OStr(f.description)),
      ("homepage_url", OStr(f.homepageUrl)),
      ("id_ror", OStr(f.ids.ror)),
      ("id_wikidata", OStr(f.ids.wikidata)),
      ("id_crossref", CrossrefCell(f.ids.crossref)),
      ("id_doi", OStr(f.ids.doi)),
      ("created_date", OStr(f.createdDate)),
      ("updated_date", OStr(f.updatedDate))]
  }

  /** The loop body of `flatten_funder_partition`: `ids` is required, so only
      missing summary statistics raise; a funder whose id `strip_id` turns
      into `None` is still written, with an empty id. */
  function FunderStep(f: S.Funder): (r: Step)
    ensures !r.Skip?
    ensures r.Emit? <==> f.summaryStats.Some?
    ensures r.Crash? ==> r.partial == []
    ensures r.Emit? ==> r.id == StripId(f.id) && !r.hasAbstract
    ensures r.Emit? ==> |r.writes| == 1 && r.writes[0].table == 0 && Get(r.writes[0].row, "id") == Some(OStr(StripId(f.id)))
  {
    var fid := StripId(f.id);
    if f.summaryStats.None? then Crash([], AttributeOfNone("summary_stats"))
    else Emit(fid, [Write(0, FunderRow(f, fid, f.summaryStats.value))], false)
  }

  const FundersLayout: Layout := Layout(Funder, [FunderFields], [Copy("funders", 0, true)])

  method FlattenFunderPartition(lines: seq<Result<S.Funder, DecodeError>>, outFunders: Paths.Path, cwd: Paths.Path)
    returns (out: Outcome)
    ensures out == Flattened(lines, FunderStep, FundersLayout, [outFunders], cwd)
  {
    out := FlattenPartition(lines, FunderStep, FundersLayout, [outFunders], cwd);
  }

  // ----------------------------------------------------------------- concepts

  const ConceptFields: Fields := [
    "id", "cited_by_count", "works_count", "h_index", "i10_index",
    "display_name", "description", "level",
    "id_mag", "id_umls_cui", "id_umls_aui",
    "id_wikidata", "id_wikipedia",
    "created_date", "updated_date"]

  const ConceptRelatedFields: Fields := ["concept_a_id", "concept_b_id", "score"]

  const ConceptAncestorFields: Fields := ["concept_a_id", "concept_b_id"]

  /** The concept row: its `id` is the concept's id as decoded, not
      stripped. */
  function ConceptRow(c: S.Concept, stats: S.SummaryStats, ids: S.ConceptIds): Row {
    [
      ("id", OStr(c.id)),
      ("cited_by_count", OInt(c.citedByCount)),
      ("works_count", OInt(c.worksCount)),
      ("h_index", StatsH(stats)),
      ("i10_index", StatsI10(stats)),
      ("display_name", OStr(c.displayName)),
      ("description", OStr(c.description)),
      ("level", OInt(c.level)),
      ("id_mag", OInt(ids.mag)),
      ("id_umls_cui", ListCell(Lift(ids.umlsCui))),
      ("id_umls_aui", ListCell(Lift(ids.umlsAui))),
      ("id_wikidata", OStr(ids.wikidata)),
      ("id_wikipedia", OStr(ids.wikipedia)),
      ("created_date", OStr(c.createdDate)),
      ("updated_date", OStr(c.updatedDate))]
  }

  /** The first loop over `related_concepts`. */
  function RelatedConceptWrites(cid: Option<string>, rels: seq<S.RatedDehydratedConcept>): (r: seq<Write>)
    ensures |r| == |rels|
    ensures forall k :: 0 <= k < |r| ==> r[k].table == 1
    ensures forall k :: 0 <= k < |r| ==>
              r[k].row == [("concept_a_id", OStr(cid)), ("concept_b_id", OStr(StripId(rels[k].id))), ("score", Num(rels[k].score))]
  {
    seq(|rels|, k requires 0 <= k < |rels| =>
      Write(1, [("concept_a_id", OStr(cid)), ("concept_b_id", OStr(StripId(rels[k].id))), ("score", Num(rels[k].score))]))
  }

  /** The second loop, meant for the ancestors, also runs over
      `related_concepts`. */
  function AncestorWrites(cid: Option<string>, rels: seq<S.RatedDehydratedConcept>): (r: seq<Write>)
    ensures |r| == |rels|
    ensures forall k :: 0 <= k < |r| ==> r[k].table == 2
    ensures forall k :: 0 <= k < |r| ==>
              r[k].row == [("concept_a_id", OStr(cid)), ("concept_b_id", OStr(StripId(rels[k].id)))]
  {
    seq(|rels|, k requires 0 <= k < |rels| =>
      Write(2, [("concept_a_id", OStr(cid)), ("concept_b_id", OStr(StripId(rels[k].id)))]))
  }

  /** The loop body of `flatten_concept_partition`. */
  function ConceptStep(c: S.Concept): (r: Step)
    ensures !r.Skip?
    ensures r.Emit? <==> c.summaryStats.Some? && c.ids.Some? && c.relatedConcepts.Some?
    ensures r.Emit? ==> r.id == StripId(c.id) && !r.hasAbstract
    ensures r.Emit? ==> r.writes == [Write(0, ConceptRow(c, c.summaryStats.value, c.ids.value))]
                                    + RelatedConceptWrites(StripId(c.id), c.relatedConcepts.value)
                                    + AncestorWrites(StripId(c.id), c.relatedConcepts.value)
  {
    var cid := StripId(c.id);
    if c.summaryStats.None? then Crash([], AttributeOfNone("summary_stats"))
    else if c.ids.None? then Crash([], AttributeOfNone("ids"))
    else
      var head := [Write(0, ConceptRow(c, c.summaryStats.value, c.ids.value))];
      if c.relatedConcepts.None? then Crash(head, IterateNone("related_concepts"))
      else Emit(cid, head + RelatedConceptWrites(cid, c.relatedConcepts.value) + AncestorWrites(cid, c.relatedConcepts.value), false)
  }

  /** Each related concept gives one related row and one ancestor row, with
      the same pair of ids and in the same order; no row comes from
      `ancestors`. The concept row keeps the unstripped id while the collected
      id is stripped. */
  lemma AncestorsMirrorRelated(c: S.Concept)
    requires ConceptStep(c).Emit?
    ensures var ws := ConceptStep(c).writes;
            var rels := c.relatedConcepts.value;
            && |On(ws, 0)| == 1 && Get(On(ws, 0)[0], "id") == Some(OStr(c.id))
            && |On(ws, 1)| == |rels| && |On(ws, 2)| == |rels|
            && forall k :: 0 <= k < |rels| ==>
                 |On(ws, 1)[k]| == 3 && On(ws, 2)[k] == On(ws, 1)[k][..2] &&
                 On(ws, 1)[k][1] == ("concept_b_id", OStr(StripId(rels[k].id)))
  {
    var cid := StripId(c.id);
    var rels := c.relatedConcepts.value;
    var head := [Write(0, ConceptRow(c, c.summaryStats.value, c.ids.value))];
    var rel := RelatedConceptWrites(cid, rels);
    var anc := AncestorWrites(cid, rels);
    forall t | 0 <= t <= 2
      ensures On(head + rel + anc, t) == On(head, t) + On(rel, t) + On(anc, t)
    {
      OnAppend(head, rel, t);
      OnAppend(head + rel, anc, t);
    }
    OnSingleTable(head, 0, 0); OnSingleTable(head, 0, 1); OnSingleTable(head, 0, 2);
    OnSingleTable(rel, 1, 0); OnSingleTable(rel, 1, 1); OnSingleTable(rel, 1, 2);
    OnSingleTable(anc, 2, 0); OnSingleTable(anc, 2, 1); OnSingleTable(anc, 2, 2);
    forall k | 0 <= k < |rels| ensures |On(rel, 1)[k]| == 3 && On(anc, 2)[k] == On(rel, 1)[k][..2] {
      assert On(rel, 1)[k] == rel[k].row;
      assert On(anc, 2)[k] == anc[k].row;
    }
  }

  /** The concept files are created in the order concepts, related,
      ancestors; the COPY statements load concepts, ancestors, related. */
  const ConceptsLayout: Layout := Layout(Concept, [ConceptFields, ConceptRelatedFields, ConceptAncestorFields], [
    Copy("concepts", 0, true), Copy("concepts_ancestors", 2, true), Copy("concepts_related", 1, true)])

  method FlattenConceptPartition(lines: seq<Result<S.Concept, DecodeError>>,
                                 outConcepts: Paths.Path, outAncestor: Paths.Path, outRelated: Paths.Path, cwd: Paths.Path)
    returns (out: Outcome)
    ensures out == Flattened(lines, ConceptStep, ConceptsLayout, [outConcepts, outRelated, outAncestor], cwd)
  {
    out := FlattenPartition(lines, ConceptStep, ConceptsLayout, [outConcepts, outRelated, outAncestor], cwd);
  }

  // ------------------------------------------------------------------ sources

  const SourceFields: Fields := [
    "id", "cited_by_count", "works_count", "h_index", "i10_index",
    "display_name", "abbreviated_title", "alternate_titles",
    "country_code", "homepage_url", "type", "apc_usd",
    "host_organization", "host_organization_name",
    "host_organization_lineage", "societies",
    "is_in_doaj", "is_oa",
    "id_mag", "id_fatcat", "id_issn", "id_issn_l", "id_wikidata",
    "created_date", "updated_date"]

  /** The society organisations, `None` when there are no societies. */
  function Societies(s: Option<seq<S.Society>>): (r: Option<seq<Option<string>>>)
    ensures r.Some? <==> s.Some? && |s.value| > 0
    ensures r.Some? ==> |r.value| == |s.value| && forall k :: 0 <= k < |s.value| ==> r.value[k] == s.value[k].organization
  {
    if s.Some? && |s.value| > 0 then
      Some(seq(|s.value|, k requires 0 <= k < |s.value| => s.value[k].organization))
    else None
  }

  function SourceRow(s: S.Source, sid: Option<string>, stats: S.SummaryStats, lineage: Option<string>, ids: S.SourceIds): Row {
    [
      ("id", OStr(sid)),
      ("cited_by_count", OInt(s.citedByCount)),
      ("works_count", OInt(s.worksCount)),
      ("h_index", StatsH(stats)),
      ("i10_index", StatsI10(stats)),
      ("display_name", OStr(s.displayName)),
      ("abbreviated_title", OStr(s.abbreviatedTitle)),
      ("alternate_titles", ListCell(Lift(s.alternateTitles))),
      ("country_code", OStr(s.countryCode)),
      ("homepage_url", OStr(s.homepageUrl)),
      ("type", OStr(if s.kind.Some? then Some(S.SourceTypeLiteral(s.kind.value)) else None)),
      ("apc_usd", OInt(s.apcUsd)),
      ("host_organization", OStr(s.hostOrganization)),
      ("host_organization_name", OStr(s.hostOrganizationName)),
      ("host_organization_lineage", OStr(lineage)),
      ("societies", ListCell(Societies(s.societies))),
      ("is_in_doaj", OBool(s.isInDoaj)),
      ("is_oa", OBool(s.isOa)),
      ("id_mag", OInt(ids.mag)),
      ("id_fatcat", OStr(ids.fatcat)),
      ("id_issn", ListCell(Lift(ids.issn))),
      ("id_issn_l", OStr(ids.issnL)),
      ("id_wikidata", OStr(ids.wikidata)),
      ("created_date", OStr(s.createdDate)),
      ("updated_date", OStr(s.updatedDate))]
  }

  /** The loop body of `flatten_sources_partition`: the row's values are
      computed in field order, so missing statistics raise first, then a
      short host-organisation lineage entry, then missing `ids`. */
  function SourceStep(s: S.Source): (r: Step)
    ensures !r.Skip?
    ensures r.Emit? <==> s.summaryStats.Some? && PrepareList(Lift(s.hostOrganizationLineage), true).Success? && s.ids.Some?
    ensures r.Crash? ==> r.partial == []
    ensures r.Crash? && s.summaryStats.Some? && PrepareList(Lift(s.hostOrganizationLineage), true).Failure? ==>
              r.fault == PrepareList(Lift(s.hostOrganizationLineage), true).error
    ensures r.Emit? ==> r.id == StripId(s.id) && !r.hasAbstract
    ensures r.Emit? ==> |r.writes| == 1 && r.writes[0].table == 0 && Get(r.writes[0].row, "id") == Some(OStr(StripId(s.id)))
  {
    var sid := StripId(s.id);
    if s.summaryStats.None? then Crash([], AttributeOfNone("summary_stats"))
    else
      var lineage := PrepareList(Lift(s.hostOrganizationLineage), true);
      if lineage.Failure? then Crash([], lineage.error)
      else if s.ids.None? then Crash([], AttributeOfNone("ids"))
      else Emit(sid, [Write(0, SourceRow(s, sid, s.summaryStats.value, lineage.value, s.ids.value))], false)
  }

  const SourcesLayout: Layout := Layout(Source, [SourceFields], [Copy("sources", 0, true)])

  method FlattenSourcesPartition(lines: seq<Result<S.Source, DecodeError>>, outSources: Paths.Path, cwd: Paths.Path)
    returns (out: Outcome)
    ensures out == Flattened(lines, SourceStep, SourcesLayout, [outSources], cwd)
  {
    out := FlattenPartition(lines, SourceStep, SourcesLayout, [outSources], cwd);
  }

  // -------------------------------------------------------------------- works

  const WorkFields: Fields := [
    "id",
    "title", "abstract", "display_name", "language", "publication_date", "publication_year",
    "volume", "issue", "first_page", "last_page", "primary_location", "type", "type_crossref",
    "id_doi", "id_mag", "id_pmid", "id_pmcid",
    "is_oa", "oa_status", "oa_url", "oa_any_repository_has_fulltext",
    "apc_paid", "apc_list", "license", "cited_by_count",
    "is_paratext", "is_retracted", "mesh", "grants",
    "created_date", "updated_date"]

  const AuthorshipFields: Fields := [
    "work_id", "author_id", "position", "exact_position", "raw_author_name", "raw_affiliation", "is_corresponding"]

  const AuthorshipInstitutionFields: Fields := ["work_id", "author_id", "institution_id"]

  const LocationFields: Fields := ["work_id", "source_id", "is_oa", "landing_page_url", "license", "pdf_url", "version"]

  const WorkConceptFields: Fields := ["work_id", "concept_id", "score"]

  const ReferenceFields: Fields := ["work_a_id", "work_b_id"]

  const RelatedWorkFields: Fields := ["work_a_id", "work_b_id"]

  const SdgFields: Fields := ["work_id", "sdg_id", "display_name", "score"]

  /** The abstract of a work: `None` when there is no inverted index, when
      inverting it fails with a decode error, or when the text is blank after
      `strip`; otherwise the inverted text itself. */
  function Abstract(index: Option<S.Index>, invert: S.Index -> Result<string, DecodeError>): (r: Option<string>)
    ensures r.None? <==> index.None? || invert(index.value).Failure? || Text.IsBlank(invert(index.value).value)
    ensures r.Some? ==> r.value == invert(index.value).value && !Text.IsBlank(r.value)
  {
    if index.None? then None
    else
      var inverted := invert(index.value);
      if inverted.Failure? then None
      else
        Text.StripEmptyIff(inverted.value);
        if |Text.Strip(inverted.value)| > 0 then Some(inverted.value) else None
  }

  /** `apc_paid.value_usd` when `apc_paid` is a single charge; nothing when it
      is a list of charges or absent. */
  function ApcPaidUsd(p: Option<S.ApcPaid>): (r: Option<int>)
    ensures p.None? || p.value.ApcList? ==> r.None?
    ensures p.Some? && p.value.SingleApc? ==> r == p.value.apc.valueUsd
  {
    if p.Some? && p.value.SingleApc? then p.value.apc.valueUsd else None
  }

  /** The grants as a JSON list of objects with all three keys, the funder id
      stripped; nothing when there are no grants. */
  function GrantsCell(grants: Option<seq<S.Grant>>, enc: Json -> string): (r: Value)
    ensures r != Null <==> grants.Some? && |grants.value| > 0
  {
    if grants.Some? && |grants.value| > 0 then
      var gs := grants.value;
      Str(enc(JArr(seq(|gs|, k requires 0 <= k < |gs| =>
        JObj([("funder", OptStr(StripId(gs[k].funder))),
              ("funder_display_name", OptStr(gs[k].funderDisplayName)),
              ("award_id", OptStr(gs[k].awardId))])))))
    else Null
  }

  /** The MeSH terms as JSON; nothing when there are none. */
  function MeshCell(mesh: Option<seq<S.Mesh>>, enc: Json -> string): (r: Value)
    ensures r != Null <==> mesh.Some? && |mesh.value| > 0
  {
    if mesh.Some? && |mesh.value| > 0 then
      var ms := mesh.value;
      Str(enc(JArr(seq(|ms|, k requires 0 <= k < |ms| => S.MeshJson(ms[k])))))
    else Null
  }

  /** The stripped source id of the primary location, if it has a source. */
  function PrimarySource(p: Option<S.Location>): Option<string> {
    if p.Some? && p.value.source.Some? then StripId(p.value.source.value.id) else None
  }

  function WorkRow(w: S.Work, wid: Option<string>, summary: Option<string>, grants: Value, enc: Json -> string,
                   biblio: S.Biblio, ids: S.WorkIds, oa: S.OpenAccess): Row {
    [
      ("id", OStr(wid)),
      ("title", OStr(w.title)),
      ("abstract", OStr(summary)),
      ("display_name", OStr(w.displayName)),
      ("language", OStr(w.language)),
      ("publication_date", OStr(w.publicationDate)),
      ("publication_year", OInt(w.publicationYear)),
      ("volume", OStr(biblio.volume)),
      ("issue", OStr(biblio.issue)),
      ("first_page", OStr(biblio.firstPage)),
      ("last_page", OStr(biblio.lastPage)),
      ("primary_location", OStr(PrimarySource(w.primaryLocation))),
      ("type", OStr(w.kind)),
      ("type_crossref", OStr(w.typeCrossref)),
      ("cited_by_count", OInt(w.citedByCount)),
      ("id_doi", OStr(ids.doi)),
      ("id_mag", OInt(ids.mag)),
      ("id_pmid", OStr(ids.pmid)),
      ("id_pmcid", OStr(ids.pmcid)),
      ("is_oa", OBool(w.isOa)),
      ("oa_status", OStr(if oa.oaStatus.Some? then Some(S.OAStatusLiteral(oa.oaStatus.value)) else None)),
      ("oa_url", OStr(oa.oaUrl)),
      ("oa_any_repository_has_fulltext", OBool(oa.anyRepositoryHasFulltext)),
      ("apc_paid", OInt(ApcPaidUsd(w.apcPaid))),
      ("apc_list", OInt(if w.apcList.Some? then w.apcList.value.valueUsd else None)),
      ("license", OStr(w.license)),
      ("is_paratext", OBool(w.isParatext)),
      ("is_retracted", OBool(w.isRetracted)),
      ("mesh", MeshCell(w.mesh, enc)),
      ("grants", grants),
      ("created_date", OStr(w.createdDate)),
      ("updated_date", OStr(w.updatedDate))]
  }

  /** The institution rows of one authorship: one per listed institution. */
  function AffiliationWrites(wid: Option<string>, aid: Option<string>, insts: Option<seq<S.DehydratedInstitution>>): (r: seq<Write>)
    ensures |r| == InstitutionCount(insts)
    ensures forall k :: 0 <= k < |r| ==> r[k].table == 2
    ensures forall k :: 0 <= k < |r| ==>
              r[k].row == [("work_id", OStr(wid)), ("author_id", OStr(aid)), ("institution_id", OStr(StripId(insts.value[k].id)))]
  {
    if insts.Some? && |insts.value| > 0 then
      var xs := insts.value;
      seq(|xs|, k requires 0 <= k < |xs| =>
        Write(2, [("work_id", OStr(wid)), ("author_id", OStr(aid)), ("institution_id", OStr(StripId(xs[k].id)))]))
    else []
  }

  function InstitutionCount(insts: Option<seq<S.DehydratedInstitution>>): nat {
    if insts.Some? then |insts.value| else 0
  }

  /** The authorship row of the authorship at position `ai`. */
  function AuthorshipRow(wid: Option<string>, a: S.Authorship, ai: nat): Row {
    [
      ("work_id", OStr(wid)),
      ("author_id", OStr(StripId(a.author.id))),
      ("position", OStr(a.authorPosition)),
      ("exact_position", Int(ai)),
      ("raw_affiliation", OStr(a.rawAffiliationString)),
      ("raw_author_name", OStr(a.rawAuthorName)),
      ("is_corresponding", OBool(a.isCorresponding))]
  }

  /** The `enumerate(work.authorships)` loop. */
  function AuthorshipWrites(wid: Option<string>, auths: seq<S.Authorship>): seq<Write>
    decreases |auths|
  {
    if |auths| == 0 then []
    else
      var ai := |auths| - 1;
      AuthorshipWrites(wid, auths[..ai])
      + [Write(1, AuthorshipRow(wid, auths[ai], ai))]
      + AffiliationWrites(wid, StripId(auths[ai].author.id), auths[ai].institutions)
  }

  /** The number of institutions over all authorships. */
  function AffiliationCount(auths: seq<S.Authorship>): nat
    decreases |auths|
  {
    if |auths| == 0 then 0 else AffiliationCount(auths[..|auths| - 1]) + InstitutionCount(auths[|auths| - 1].institutions)
  }

  /** The writes of `AuthorshipWrites` as seen by writers 1 and 2: the new
      authorship adds its row to writer 1 and its institutions to writer 2. */
  lemma AuthorshipWritesSnoc(wid: Option<string>, auths: seq<S.Authorship>)
    requires |auths| > 0
    ensures var ai := |auths| - 1;
            && On(AuthorshipWrites(wid, auths), 1) == On(AuthorshipWrites(wid, auths[..ai]), 1) + [AuthorshipRow(wid, auths[ai], ai)]
            && |On(AuthorshipWrites(wid, auths), 2)| == |On(AuthorshipWrites(wid, auths[..ai]), 2)| + InstitutionCount(auths[ai].institutions)
  {
    var ai := |auths| - 1;
    var init := AuthorshipWrites(wid, auths[..ai]);
    var row := [Write(1, AuthorshipRow(wid, auths[ai], ai))];
    var aff := AffiliationWrites(wid, StripId(auths[ai].author.id), auths[ai].institutions);
    assert AuthorshipWrites(wid, auths) == init + row + aff;
    OnAppend(init, row, 1); OnAppend(init + row, aff, 1);
    OnAppend(init, row, 2); OnAppend(init + row, aff, 2);
    OnSingleTable(row, 1, 1); OnSingleTable(row, 1, 2);
    OnSingleTable(aff, 2, 1); OnSingleTable(aff, 2, 2);
  }

  /** The authorship rows in enumeration order. */
  function EnumeratedRows(wid: Option<string>, auths: seq<S.Authorship>): (r: seq<Row>)
    ensures |r| == |auths|
    ensures forall k :: 0 <= k < |auths| ==> r[k] == AuthorshipRow(wid, auths[k], k)
  {
    seq(|auths|, k requires 0 <= k < |auths| => AuthorshipRow(wid, auths[k], k))
  }

  lemma EnumeratedRowsSnoc(wid: Option<string>, auths: seq<S.Authorship>)
    requires |auths| > 0
    ensures EnumeratedRows(wid, auths) ==
            EnumeratedRows(wid, auths[..|auths| - 1]) + [AuthorshipRow(wid, auths[|auths| - 1], |auths| - 1)]
  {
    var ai := |auths| - 1;
    var a := EnumeratedRows(wid, auths);
    var b := EnumeratedRows(wid, auths[..ai]) + [AuthorshipRow(wid, auths[ai], ai)];
    forall k | 0 <= k < |auths| ensures a[k] == b[k] {
      if k < ai {
        assert auths[..ai][k] == auths[k];
      }
    }
  }

  /** One authorship row per authorship, in order, whose `exact_position` is
      its zero-based index and whose author id is stripped; and one
      authorship-institution row per listed institution. */
  lemma {:induction false} AuthorshipRows(wid: Option<string>, auths: seq<S.Authorship>)
    ensures On(AuthorshipWrites(wid, auths), 1) == EnumeratedRows(wid, auths)
    ensures |On(AuthorshipWrites(wid, auths), 2)| == AffiliationCount(auths)
    decreases |auths|
  {
    if |auths| > 0 {
      var ai := |auths| - 1;
      AuthorshipRows(wid, auths[..ai]);
      AuthorshipWritesSnoc(wid, auths);
      EnumeratedRowsSnoc(wid, auths);
    }
  }

  /** The authorship row carries the position it was enumerated at and the
      stripped author id. */
  lemma ExactPosition(wid: Option<string>, a: S.Authorship, ai: nat)
    ensures Get(AuthorshipRow(wid, a, ai), "exact_position") == Some(Int(ai))
    ensures Get(AuthorshipRow(wid, a, ai), "author_id") == Some(OStr(StripId(a.author.id)))
  {
    GetAt(AuthorshipRow(wid, a, ai), 1);
    GetAt(AuthorshipRow(wid, a, ai), 3);
  }

  /** A location is the primary one when the primary location and both
      sources exist and the source id, source display name, PDF URL and
      version all agree. */
  predicate IsPrimary(primary: Option<S.Location>, loc: S.Location) {
    && primary.Some?
    && primary.value.source.Some?
    && loc.source.Some?
    && primary.value.source.value.id == loc.source.value.id
    && primary.value.source.value.displayName == loc.source.value.displayName
    && primary.value.pdfUrl == loc.pdfUrl
    && primary.value.version == loc.version
  }

  /** The primary location counts as primary exactly when it has a source,
      and the test only looks at those four fields. */
  lemma IsPrimaryOfItself(l: S.Location)
    ensures IsPrimary(Some(l), l) <==> l.source.Some?
    ensures forall m: S.Location :: IsPrimary(Some(l), m) ==> IsPrimary(Some(m), l)
  {
  }

  function LocationRow(wid: Option<string>, primary: Option<S.Location>, l: S.Location): Row {
    [
      ("work_id", OStr(wid)),
      ("source_id", OStr(if l.source.Some? then StripId(l.source.value.id) else None)),
      ("is_oa", OBool(l.isOa)),
      ("landing_page_url", OStr(l.landingPageUrl)),
      ("is_primary", Bool(IsPrimary(primary, l))),
      ("license", OStr(l.license)),
      ("pdf_url", OStr(l.pdfUrl)),
      ("version", OStr(l.version))]
  }

  /** `is_primary` is not a field name: the location file is the same
      whatever the primary location is. */
  lemma IsPrimaryDropped(wid: Option<string>, p: Option<S.Location>, q: Option<S.Location>, l: S.Location)
    ensures Project(LocationFields, LocationRow(wid, p, l)) == Project(LocationFields, LocationRow(wid, q, l))
  {
    var a := LocationRow(wid, p, l);
    var b := LocationRow(wid, q, l);
    assert a[..4] == b[..4];
    assert a[5..] == b[5..];
    AgreeExceptAt(LocationFields, a, b, 4);
    OtherKeysIgnored(LocationFields, a, b);
  }

  function LocationWrites(wid: Option<string>, primary: Option<S.Location>, locs: Option<seq<S.Location>>): (r: seq<Write>)
    ensures locs.None? ==> r == []
    ensures locs.Some? ==> |r| == |locs.value|
    ensures forall k :: 0 <= k < |r| ==> r[k] == Write(3, LocationRow(wid, primary, locs.value[k]))
  {
    if locs.Some? then
      var ls := locs.value;
      seq(|ls|, k requires 0 <= k < |ls| => Write(3, LocationRow(wid, primary, ls[k])))
    else []
  }

  function WorkConceptWrites(wid: Option<string>, cs: seq<S.RatedDehydratedConcept>): (r: seq<Write>)
    ensures |r| == |cs|
    ensures forall k :: 0 <= k < |r| ==>
              r[k] == Write(4, [("work_id", OStr(wid)), ("concept_id", OStr(StripId(cs[k].id))), ("score", Num(cs[k].score))])
  {
    seq(|cs|, k requires 0 <= k < |cs| =>
      Write(4, [("work_id", OStr(wid)), ("concept_id", OStr(StripId(cs[k].id))), ("score", Num(cs[k].score))]))
  }

  /** The sustainable development goals, whose ids are written unstripped. */
  function SdgWrites(wid: Option<string>, sdgs: Option<seq<S.SustainableDevelopmentGoal>>): (r: seq<Write>)
    ensures sdgs.None? ==> r == []
    ensures sdgs.Some? ==> |r| == |sdgs.value|
    ensures forall k :: 0 <= k < |r| ==>
              r[k] == Write(7, [("work_id", OStr(wid)), ("sdg_id", OStr(sdgs.value[k].id)),
                                ("display_name", OStr(sdgs.value[k].displayName)), ("score", ONum(sdgs.value[k].score))])
  {
    if sdgs.Some? && |sdgs.value| > 0 then
      var gs := sdgs.value;
      seq(|gs|, k requires 0 <= k < |gs| =>
        Write(7, [("work_id", OStr(wid)), ("sdg_id", OStr(gs[k].id)),
                  ("display_name", OStr(gs[k].displayName)), ("score", ONum(gs[k].score))]))
    else []
  }

  /** The references (writer 5) or related works (writer 6) of a work. */
  function WorkLinkWrites(table: nat, wid: Option<string>, others: seq<string>): (r: seq<Write>)
    ensures |r| == |others|
    ensures forall k :: 0 <= k < |r| ==>
              r[k] == Write(table, [("work_a_id", OStr(wid)), ("work_b_id", OStr(StripId(Some(others[k]))))])
  {
    seq(|others|, k requires 0 <= k < |others| =>
      Write(table, [("work_a_id", OStr(wid)), ("work_b_id", OStr(StripId(Some(others[k]))))]))
  }

  /** The loop body of `flatten_works_partition`, given the inversion of an
      abstract and the JSON encoder. The work row is computed in field order
      (so a missing `biblio` raises before missing `ids`, and those before a
      missing `open_access`); then the authorships, locations, concepts,
      goals, references and related works are written in that order, and a
      missing authorship, concept, reference or related-work list raises
      after the rows before it were written. */
  function WorkStep(w: S.Work, invert: S.Index -> Result<string, DecodeError>, enc: Json -> string): (r: Step)
    ensures !r.Skip?
    ensures r.Emit? <==>
              && w.biblio.Some? && w.ids.Some? && w.openAccess.Some?
              && w.authorships.Some? && w.concepts.Some? && w.referencedWorks.Some? && w.relatedWorks.Some?
    ensures r.Emit? ==> r.id == StripId(w.id)
    ensures r.Emit? ==> (r.hasAbstract <==> Abstract(w.abstractInvertedIndex, invert).Some?)
    ensures r.Crash? && (w.biblio.None? || w.ids.None? || w.openAccess.None?) ==> r.partial == []
    ensures r.Crash? && w.biblio.Some? && w.ids.Some? && w.openAccess.Some? ==> |r.partial| > 0 && r.partial[0].table == 0
  {
    var wid := StripId(w.id);
    var summary := Abstract(w.abstractInvertedIndex, invert);
    var grants := GrantsCell(w.grants, enc);
    if w.biblio.None? then Crash([], AttributeOfNone("biblio"))
    else if w.ids.None? then Crash([], AttributeOfNone("ids"))
    else if w.openAccess.None? then Crash([], AttributeOfNone("open_access"))
    else
      var head := [Write(0, WorkRow(w, wid, summary, grants, enc, w.biblio.value, w.ids.value, w.openAccess.value))];
      if w.authorships.None? then Crash(head, IterateNone("authorships"))
      else
        var s1 := head + AuthorshipWrites(wid, w.authorships.value) + LocationWrites(wid, w.primaryLocation, w.locations);
        if w.concepts.None? then Crash(s1, IterateNone("concepts"))
        else
          var s2 := s1 + WorkConceptWrites(wid, w.concepts.value) + SdgWrites(wid, w.sustainableDevelopmentGoals);
          if w.referencedWorks.None? then Crash(s2, IterateNone("referenced_works"))
          else
            var s3 := s2 + WorkLinkWrites(5, wid, w.referencedWorks.value);
            if w.relatedWorks.None? then Crash(s3, IterateNone("related_works"))
            else Emit(wid, s3 + WorkLinkWrites(6, wid, w.relatedWorks.value), summary.Some?)
  }

  /** The authorship loop writes to writers 1 and 2 only. */
  lemma {:induction false} AuthorshipWritesElsewhere(wid: Option<string>, auths: seq<S.Authorship>, u: nat)
    requires u != 1 && u != 2
    ensures On(AuthorshipWrites(wid, auths), u) == []
    decreases |auths|
  {
    if |auths| > 0 {
      var ai := |auths| - 1;
      var init := AuthorshipWrites(wid, auths[..ai]);
      var row := [Write(1, AuthorshipRow(wid, auths[ai], ai))];
      var aff := AffiliationWrites(wid, StripId(auths[ai].author.id), auths[ai].institutions);
      assert AuthorshipWrites(wid, auths) == init + row + aff;
      AuthorshipWritesElsewhere(wid, auths[..ai], u);
      OnAppend(init, row, u); OnAppend(init + row, aff, u);
      OnSingleTable(row, 1, u); OnSingleTable(aff, 2, u);
    }
  }

  /** What one emitted work leaves in each of the eight writers: its work row
      (with the stripped id) in writer 0; its authorships in enumeration
      order in writer 1 and one row per listed institution in writer 2; one
      row per location in writer 3 (none without locations); then one row
      per concept, referenced work, related work and goal in writers 4, 5, 6
      and 7, each naming the work and the other end in list order. */
  lemma WorkWrites(w: S.Work, invert: S.Index -> Result<string, DecodeError>, enc: Json -> string)
    requires WorkStep(w, invert, enc).Emit?
    ensures var ws := WorkStep(w, invert, enc).writes;
            var wid := StripId(w.id);
            && |On(ws, 0)| == 1 && Get(On(ws, 0)[0], "id") == Some(OStr(wid))
            && On(ws, 1) == EnumeratedRows(wid, w.authorships.value)
            && |On(ws, 2)| == AffiliationCount(w.authorships.value)
            && |On(ws, 3)| == (if w.locations.Some? then |w.locations.value| else 0)
            && |On(ws, 4)| == |w.concepts.value|
            && |On(ws, 5)| == |w.referencedWorks.value|
            && |On(ws, 6)| == |w.relatedWorks.value|
            && |On(ws, 7)| == (if w.sustainableDevelopmentGoals.Some? then |w.sustainableDevelopmentGoals.value| else 0)
    ensures var ws := WorkStep(w, invert, enc).writes;
            forall k :: 0 <= k < |w.referencedWorks.value| ==>
              On(ws, 5)[k] == [("work_a_id", OStr(StripId(w.id))), ("work_b_id", OStr(StripId(Some(w.referencedWorks.value[k]))))]
    ensures var ws := WorkStep(w, invert, enc).writes;
            forall k :: 0 <= k < |w.relatedWorks.value| ==>
              On(ws, 6)[k] == [("work_a_id", OStr(StripId(w.id))), ("work_b_id", OStr(StripId(Some(w.relatedWorks.value[k]))))]
  {
    var wid := StripId(w.id);
    var summary := Abstract(w.abstractInvertedIndex, invert);
    var grants := GrantsCell(w.grants, enc);
    var row := WorkRow(w, wid, summary, grants, enc, w.biblio.value, w.ids.value, w.openAccess.value);
    var head := [Write(0, row)];
    var aw := AuthorshipWrites(wid, w.authorships.value);
    var lw := LocationWrites(wid, w.primaryLocation, w.locations);
    var wc := WorkConceptWrites(wid, w.concepts.value);
    var sd := SdgWrites(wid, w.sustainableDevelopmentGoals);
    var r5 := WorkLinkWrites(5, wid, w.referencedWorks.value);
    var r6 := WorkLinkWrites(6, wid, w.relatedWorks.value);
    assert WorkStep(w, invert, enc).writes == head + aw + lw + wc + sd + r5 + r6;
    forall u: nat | u != 1 && u != 2 ensures On(aw, u) == [] {
      AuthorshipWritesElsewhere(wid, w.authorships.value, u);
    }
    OnWorkParts(head, aw, lw, wc, sd, r5, r6);
    OnSingleTable(head, 0, 0); OnSingleTable(r5, 5, 5); OnSingleTable(r6, 6, 6);
    OnSingleTable(lw, 3, 3); OnSingleTable(wc, 4, 4); OnSingleTable(sd, 7, 7);
    AuthorshipRows(wid, w.authorships.value);
    assert row[0] == ("id", OStr(wid));
  }

  /** The rows of a finished work in the authorship-institution, location,
      concept and goal files: those of the authorship loop, and one row per
      location, concept and goal, in list order. */
  lemma WorkWriteRows(w: S.Work, invert: S.Index -> Result<string, DecodeError>, enc: Json -> string)
    requires WorkStep(w, invert, enc).Emit?
    ensures var ws := WorkStep(w, invert, enc).writes;
            On(ws, 2) == On(AuthorshipWrites(StripId(w.id), w.authorships.value), 2)
    ensures var ws := WorkStep(w, invert, enc).writes;
            && |On(ws, 3)| == (if w.locations.Some? then |w.locations.value| else 0)
            && |On(ws, 4)| == |w.concepts.value|
            && |On(ws, 7)| == (if w.sustainableDevelopmentGoals.Some? then |w.sustainableDevelopmentGoals.value| else 0)
    ensures var ws := WorkStep(w, invert, enc).writes;
            w.locations.Some? ==>
              forall k :: 0 <= k < |w.locations.value| ==>
                On(ws, 3)[k] == LocationRow(StripId(w.id), w.primaryLocation, w.locations.value[k])
    ensures var ws := WorkStep(w, invert, enc).writes;
            forall k :: 0 <= k < |w.concepts.value| ==>
              On(ws, 4)[k] == [("work_id", OStr(StripId(w.id))), ("concept_id", OStr(StripId(w.concepts.value[k].id))),
                               ("score", Num(w.concepts.value[k].score))]
    ensures var ws := WorkStep(w, invert, enc).writes;
            w.sustainableDevelopmentGoals.Some? ==>
              forall k :: 0 <= k < |w.sustainableDevelopmentGoals.value| ==>
                var g := w.sustainableDevelopmentGoals.value[k];
                On(ws, 7)[k] == [("work_id", OStr(StripId(w.id))), ("sdg_id", OStr(g.id)),
                                 ("display_name", OStr(g.displayName)), ("score", ONum(g.score))]
  {
    var wid := StripId(w.id);
    var summary := Abstract(w.abstractInvertedIndex, invert);
    var grants := GrantsCell(w.grants, enc);
    var row := WorkRow(w, wid, summary, grants, enc, w.biblio.value, w.ids.value, w.openAccess.value);
    var head := [Write(0, row)];
    var aw := AuthorshipWrites(wid, w.authorships.value);
    var lw := LocationWrites(wid, w.primaryLocation, w.locations);
    var wc := WorkConceptWrites(wid, w.concepts.value);
    var sd := SdgWrites(wid, w.sustainableDevelopmentGoals);
    var r5 := WorkLinkWrites(5, wid, w.referencedWorks.value);
    var r6 := WorkLinkWrites(6, wid, w.relatedWorks.value);
    assert WorkStep(w, invert, enc).writes == head + aw + lw + wc + sd + r5 + r6;
    forall u: nat | u != 1 && u != 2 ensures On(aw, u) == [] {
      AuthorshipWritesElsewhere(wid, w.authorships.value, u);
    }
    OnWorkParts(head, aw, lw, wc, sd, r5, r6);
    OnSingleTable(lw, 3, 3); OnSingleTable(wc, 4, 4); OnSingleTable(sd, 7, 7);
  }

  /** Each writer of the works layout sees only the part of the log that is
      meant for it. */
  lemma OnWorkParts(head: seq<Write>, aw: seq<Write>, lw: seq<Write>, wc: seq<Write>,
                    sd: seq<Write>, r5: seq<Write>, r6: seq<Write>)
    requires forall k :: 0 <= k < |head| ==> head[k].table == 0
    requires forall u: nat :: u != 1 && u != 2 ==> On(aw, u) == []
    requires forall k :: 0 <= k < |lw| ==> lw[k].table == 3
    requires forall k :: 0 <= k < |wc| ==> wc[k].table == 4
    requires forall k :: 0 <= k < |sd| ==> sd[k].table == 7
    requires forall k :: 0 <= k < |r5| ==> r5[k].table == 5
    requires forall k :: 0 <= k < |r6| ==> r6[k].table == 6
    ensures var ws := head + aw + lw + wc + sd + r5 + r6;
            && On(ws, 0) == On(head, 0) && On(ws, 1) == On(aw, 1) && On(ws, 2) == On(aw, 2)
            && On(ws, 3) == On(lw, 3) && On(ws, 4) == On(wc, 4) && On(ws, 7) == On(sd, 7)
            && On(ws, 5) == On(r5, 5) && On(ws, 6) == On(r6, 6)
  {
    OnWorkPart(head, aw, lw, wc, sd, r5, r6, 0); OnWorkPart(head, aw, lw, wc, sd, r5, r6, 1);
    OnWorkPart(head, aw, lw, wc, sd, r5, r6, 2); OnWorkPart(head, aw, lw, wc, sd, r5, r6, 3);
    OnWorkPart(head, aw, lw, wc, sd, r5, r6, 4); OnWorkPart(head, aw, lw, wc, sd, r5, r6, 5);
    OnWorkPart(head, aw, lw, wc, sd, r5, r6, 6); OnWorkPart(head, aw, lw, wc, sd, r5, r6, 7);
  }

  lemma OnWorkPart(head: seq<Write>, aw: seq<Write>, lw: seq<Write>, wc: seq<Write>,
                   sd: seq<Write>, r5: seq<Write>, r6: seq<Write>, t: nat)
    requires forall k :: 0 <= k < |head| ==> head[k].table == 0
    requires t != 1 && t != 2 ==> On(aw, t) == []
    requires forall k :: 0 <= k < |lw| ==> lw[k].table == 3
    requires forall k :: 0 <= k < |wc| ==> wc[k].table == 4
    requires forall k :: 0 <= k < |sd| ==> sd[k].table == 7
    requires forall k :: 0 <= k < |r5| ==> r5[k].table == 5
    requires forall k :: 0 <= k < |r6| ==> r6[k].table == 6
    ensures var ws := head + aw + lw + wc + sd + r5 + r6;
            On(ws, t) == if t == 0 then On(head, 0) else if t == 1 || t == 2 then On(aw, t)
                         else if t == 3 then On(lw, 3) else if t == 4 then On(wc, 4)
                         else if t == 5 then On(r5, 5) else if t == 6 then On(r6, 6)
                         else if t == 7 then On(sd, 7) else []
  {
    var p1 := head + aw;
    var p2 := p1 + lw;
    var p3 := p2 + wc;
    var p4 := p3 + sd;
    var p5 := p4 + r5;
    assert head + aw + lw + wc + sd + r5 + r6 == p5 + r6;
    OnElsewhere(head, 0, t); OnElsewhere(lw, 3, t); OnElsewhere(wc, 4, t);
    OnElsewhere(sd, 7, t); OnElsewhere(r5, 5, t); OnElsewhere(r6, 6, t);
    OnJoin(head, aw, t); OnJoin(p1, lw, t); OnJoin(p2, wc, t);
    OnJoin(p3, sd, t); OnJoin(p4, r5, t); OnJoin(p5, r6, t);
  }

  /** Writes that all go to writer `c` leave every other writer empty. */
  lemma OnElsewhere(ws: seq<Write>, c: nat, t: nat)
    requires forall k :: 0 <= k < |ws| ==> ws[k].table == c
    ensures c != t ==> On(ws, t) == []
  {
    OnSingleTable(ws, c, t);
  }

  /** A part of the log with nothing for writer `t` does not change what `t`
      sees. */
  lemma OnJoin(a: seq<Write>, b: seq<Write>, t: nat)
    ensures On(b, t) == [] ==> On(a + b, t) == On(a, t)
    ensures On(a, t) == [] ==> On(a + b, t) == On(b, t)
  {
    OnAppend(a, b, t);
    assert On(a, t) + [] == On(a, t);
    assert [] + On(b, t) == On(b, t);
  }

  /** `WorkStep` for a given inversion and encoder, as a step function. */
  function WorkSteps(invert: S.Index -> Result<string, DecodeError>, enc: Json -> string): S.Work -> Step {
    w => WorkStep(w, invert, enc)
  }

  /** A works partition counts only the non-blank abstracts, so never more
      abstracts than works. */
  lemma AbstractsAtMostWorks(lines: seq<Result<S.Work, DecodeError>>, invert: S.Index -> Result<string, DecodeError>, enc: Json -> string)
    ensures ScanLines(lines, WorkSteps(invert, enc)).abstracts <= ScanLines(lines, WorkSteps(invert, enc)).count
  {
    AbstractsAtMostCount(lines, WorkSteps(invert, enc));
  }

  /** The works writers are created in the order works, authorships,
      authorship institutions, locations, concepts, references, related,
      goals; the concepts COPY statement lists no columns. */
  const WorksLayout: Layout := Layout(Work,
    [WorkFields, AuthorshipFields, AuthorshipInstitutionFields, LocationFields,
     WorkConceptFields, ReferenceFields, RelatedWorkFields, SdgFields],
    [Copy("works", 0, true), Copy("works_locations", 3, true), Copy("works_concepts", 4, false),
     Copy("works_authorships", 1, true), Copy("works_authorship_institutions", 2, true),
     Copy("works_references", 5, true), Copy("works_related", 6, true), Copy("works_sdgs", 7, true)])

  method FlattenWorksPartition(lines: seq<Result<S.Work, DecodeError>>,
                               invert: S.Index -> Result<string, DecodeError>, enc: Json -> string,
                               outWorks: Paths.Path, outLocations: Paths.Path, outConcepts: Paths.Path,
                               outAuthorships: Paths.Path, outAuthorshipInstitutions: Paths.Path,
                               outReferences: Paths.Path, outRelated: Paths.Path, outSdgs: Paths.Path, cwd: Paths.Path)
    returns (out: Outcome)
    ensures out == Flattened(lines, WorkSteps(invert, enc), WorksLayout,
                             [outWorks, outAuthorships, outAuthorshipInstitutions, outLocations,
                              outConcepts, outReferences, outRelated, outSdgs], cwd)
  {
    out := FlattenPartition(lines, WorkSteps(invert, enc), WorksLayout,
                            [outWorks, outAuthorships, outAuthorshipInstitutions, outLocations,
                             outConcepts, outReferences, outRelated, outSdgs], cwd);
  }

  // ------------------------------------------- COPY targets and deletion tables

  function Targets(layout: Layout): (r: seq<string>)
    ensures |r| == |layout.copies|
    ensures forall i :: 0 <= i < |r| ==> r[i] == layout.copies[i].target
  {
    seq(|layout.copies|, i requires 0 <= i < |layout.copies| => layout.copies[i].target)
  }

  /** The deletion scripts do not clear every table the COPY scripts load:
      three names differ by a letter, and two works tables are missing. */
  lemma CopiedButNotDeleted()
    ensures "institutions_associations" in Targets(InstitutionsLayout) && "institutions_associations" !in Tables(Institution)
    ensures "institutions_association" in Tables(Institution)
    ensures "institutions_concepts" in Targets(InstitutionsLayout) && "institutions_concepts" !in Tables(Institution)
    ensures "institutions_concept" in Tables(Institution)
    ensures "concepts_ancestors" in Targets(ConceptsLayout) && "concepts_ancestors" !in Tables(Concept)
    ensures "concepts_ancestor" in Tables(Concept)
    ensures "works_sdgs" in Targets(WorksLayout) && "works_sdgs" !in Tables(Work)
    ensures "works_authorship_institutions" in Targets(WorksLayout) && "works_authorship_institutions" !in Tables(Work)
  {
    assert Tables(Institution)[1] == "institutions_association";
    assert Tables(Institution)[2] == "institutions_concept";
    assert Tables(Concept)[1] == "concepts_ancestor";
    assert Targets(InstitutionsLayout)[1] == "institutions_associations";
    assert Targets(InstitutionsLayout)[2] == "institutions_concepts";
    assert Targets(ConceptsLayout)[1] == "concepts_ancestors";
    assert Targets(WorksLayout)[7] == "works_sdgs";
    assert Targets(WorksLayout)[4] == "works_authorship_institutions";
  }
}
