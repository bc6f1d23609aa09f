/** `transform_partition` of processors/solr/transform_partition.py: every
    line of a works partition becomes one search document, written as one
    line of JSON. Decoding the partition lines, parsing the abstract index,
    `invert` and the JSON encoder are given as functions. */
module SolrTransform {
  import opened Wrappers
  import opened Errors
  import opened Text
  import opened Util
  import opened Json
  import opened SolrStructs
  import FP = FlattenPartition
  import S = PgStructs

  /** `invert(inverted_index, index_length)`: the abstract text, or the
      decode error it raises. */
  type Invert = (seq<(string, seq<int>)>, int) -> Result<string, DecodeError>

  /** The decoders and the encoder a transformation runs with. */
  datatype Codecs = Codecs(
    decodeIndex: string -> Result<InvertedAbstract, DecodeError>,
    invert: Invert,
    enc: Json -> string)

  // ------------------------------------------------------------------ abstract

  /** The `try` block: parse the index text, then invert it. */
  function Inverted(index: string, c: Codecs): (r: Result<string, DecodeError>)
    ensures r.Failure? <==>
              c.decodeIndex(index).Failure? ||
              c.invert(c.decodeIndex(index).value.invertedIndex, c.decodeIndex(index).value.indexLength).Failure?
  {
    var ia := c.decodeIndex(index);
    if ia.Failure? then Failure(ia.error) else c.invert(ia.value.invertedIndex, ia.value.indexLength)
  }

  /** The abstract of a work: `None` when the work has no index, when parsing
      or inverting it raises a decode error, or when the text is blank after
      `strip`; otherwise the inverted text. */
  function SearchAbstract(index: Option<string>, c: Codecs): (r: Option<string>)
    ensures r.None? <==> index.None? || Inverted(index.value, c).Failure? || IsBlank(Inverted(index.value, c).value)
    ensures r.Some? ==> r.value == Inverted(index.value, c).value
  {
    if index.None? then None
    else
      var text := Inverted(index.value, c);
      if text.Failure? then None
      else
        StripEmptyIff(text.value);
        if |Strip(text.value)| > 0 then Some(text.value) else None
  }

  /** `title_abstract`: absent only when both parts are; otherwise the title
      (or nothing), one space, and the abstract (or nothing). */
  function TitleAbstract(title: Option<string>, summary: Option<string>): (r: Option<string>)
    ensures r.None? <==> title.None? && summary.None?
    ensures r.Some? ==>
              var t := title.GetOr("");
              var a := summary.GetOr("");
              |r.value| == |t| + 1 + |a| && r.value[..|t|] == t && r.value[|t|] == ' ' && r.value[|t| + 1..] == a
  {
    if summary.Some? || title.Some? then Some(title.GetOr("") + " " + summary.GetOr("")) else None
  }

  /** With a title, the title and the abstract can be read back from
      `title_abstract`. */
  lemma TitleAbstractParts(title: string, summary: Option<string>)
    ensures var r := TitleAbstract(Some(title), summary).value;
            r[..|title|] == title && (summary.Some? ==> r[|title| + 1..] == summary.value)
            && (summary.None? ==> r == title + " ")
  {
  }

  // --------------------------------------------------------- serialized lists

  /** A list serialized only when it is present and not empty. */
  function ListText<T>(xs: Option<seq<T>>, item: T -> Json, enc: Json -> string): (r: Option<string>)
    ensures r.Some? <==> xs.Some? && |xs.value| > 0
    ensures r.Some? ==> r.value == enc(JArr(seq(|xs.value|, i requires 0 <= i < |xs.value| => item(xs.value[i]))))
  {
    if xs.Some? && |xs.value| > 0
    then Some(enc(JArr(seq(|xs.value|, i requires 0 <= i < |xs.value| => item(xs.value[i])))))
    else None
  }

  function AuthorshipsText(w: Work, enc: Json -> string): (r: Option<string>)
    ensures r.Some? <==> w.authorships.Some? && |w.authorships.value| > 0
  {
    ListText(w.authorships, AuthorshipJson, enc)
  }

  /** The primary-location test: the work has a primary location with a
      source, the location has a source, and the two agree on source id,
      source name, PDF URL and version. This is the rule of
      `FlattenPartition.IsPrimary`, restated over the solr structs;
      `SamePrimaryRule` proves that the two agree. */
  predicate IsPrimary(primary: Option<Location>, loc: Location) {
    && primary.Some?
    && primary.value.source.Some?
    && loc.source.Some?
    && primary.value.source.value.id == loc.source.value.id
    && primary.value.source.value.displayName == loc.source.value.displayName
    && primary.value.pdfUrl == loc.pdfUrl
    && primary.value.version == loc.version
  }

  /** What the test looks at: whether there is a source, and the four
      compared fields. */
  type PrimaryKey = (bool, Option<string>, Option<string>, Option<string>, Option<string>)

  function Key(l: Location): PrimaryKey {
    if l.source.Some? then (true, l.source.value.id, l.source.value.displayName, l.pdfUrl, l.version)
    else (false, None, None, l.pdfUrl, l.version)
  }

  function PgKey(l: S.Location): PrimaryKey {
    if l.source.Some? then (true, l.source.value.id, l.source.value.displayName, l.pdfUrl, l.version)
    else (false, None, None, l.pdfUrl, l.version)
  }

  /** The test depends on the key alone: a location is primary exactly when
      both keys have a source and agree. */
  lemma IsPrimaryByKey(primary: Option<Location>, loc: Location)
    ensures IsPrimary(primary, loc) <==> primary.Some? && Key(primary.value).0 && Key(loc).0 && Key(primary.value) == Key(loc)
  {
  }

  /** The search documents and the relational location rows use the same
      test: locations with equal keys get the same `is_primary`. */
  lemma SamePrimaryRule(pp: Option<S.Location>, pl: S.Location, sp: Option<Location>, sl: Location)
    requires pp.Some? == sp.Some?
    requires pp.Some? ==> PgKey(pp.value) == Key(sp.value)
    requires PgKey(pl) == Key(sl)
    ensures FP.IsPrimary(pp, pl) == IsPrimary(sp, sl)
  {
  }

  /** A listed location: its own fields and the primary-location test. */
  function LocationOutOf(primary: Option<Location>, loc: Location): (r: LocationOut)
    ensures r.isPrimary == IsPrimary(primary, loc)
    ensures r.isOa == loc.isOa && r.landingPageUrl == loc.landingPageUrl && r.license == loc.license
    ensures r.source == loc.source && r.pdfUrl == loc.pdfUrl && r.version == loc.version
  {
    LocationOut(loc.isOa, IsPrimary(primary, loc), loc.landingPageUrl, loc.license, loc.source, loc.pdfUrl, loc.version)
  }

  /** The serialized locations, each compared with the work's primary
      location. */
  function LocationsText(w: Work, enc: Json -> string): (r: Option<string>)
    ensures r.Some? <==> w.locations.Some? && |w.locations.value| > 0
  {
    ListText(w.locations, (l: Location) => LocationOutJson(LocationOutOf(w.primaryLocation, l)), enc)
  }

  /** The locations as the code runs against the declared struct, which has
      no `primary_location`: reading it raises as soon as one location is
      listed. */
  function LocationsAsWritten(w: Work, enc: Json -> string): (r: Result<Option<string>, Fault>)
    ensures r.Failure? <==> w.locations.Some? && |w.locations.value| > 0
    ensures r.Failure? ==> r.error == NoSuchAttribute("primary_location")
    ensures r.Success? ==> r.value.None?
  {
    if w.locations.Some? && |w.locations.value| > 0 then Failure(NoSuchAttribute("primary_location"))
    else Success(None)
  }

  /** Every work that lists a location raises as written, and is serialized
      once the struct declares the primary location. */
  lemma LocatedWorksRaiseAsWritten(w: Work, enc: Json -> string)
    ensures LocationsAsWritten(w, enc).Failure? <==> LocationsText(w, enc).Some?
    ensures LocationsAsWritten(w, enc).Success? ==> LocationsAsWritten(w, enc).value == LocationsText(w, enc)
  {
  }

  /** `biblio` is serialized only when present with a volume. */
  function BiblioText(b: Option<Biblio>, enc: Json -> string): (r: Option<string>)
    ensures r.Some? <==> b.Some? && b.value.volume.Some?
    ensures r.Some? ==> r.value == enc(BiblioJson(b.value))
  {
    if b.Some? && b.value.volume.Some? then Some(enc(BiblioJson(b.value))) else None
  }

  // ----------------------------------------------------------------------- ids

  /** `str(ids.mag)`: the decimal text, or `"None"` when the id is absent. */
  function MagText(mag: Option<int>): string {
    if mag.Some? then DecimalString(mag.value) else "None"
  }

  /** Reading a `mag` column back. */
  function ParseMag(s: string): Option<int> {
    if s == "None" then None else Some(ParseDecimal(s))
  }

  /** The `mag` text determines the id, and tells an absent id apart. */
  lemma MagRoundTrip(mag: Option<int>)
    ensures ParseMag(MagText(mag)) == mag
    ensures MagText(mag) == "None" <==> mag.None?
  {
    if mag.Some? {
      DecimalIsNotNone(mag.value);
      DecimalRoundTrip(mag.value);
    }
  }

  /** `mag`, `pmid` and `pmcid`: all absent without ids, otherwise taken
      from the ids, with `mag` always present as text. */
  function IdColumns(ids: Option<WorkIds>): (r: (Option<string>, Option<string>, Option<string>))
    ensures ids.None? ==> r == (None, None, None)
    ensures ids.Some? ==> r.0.Some? && ParseMag(r.0.value) == ids.value.mag && r.1 == ids.value.pmid && r.2 == ids.value.pmcid
  {
    if ids.Some? then
      MagRoundTrip(ids.value.mag);
      (Some(MagText(ids.value.mag)), ids.value.pmid, ids.value.pmcid)
    else (None, None, None)
  }

  // ------------------------------------------------------------------ document

  /** The search document of a decoded work, given its abstract. */
  function Document(w: Work, summary: Option<string>, enc: Json -> string): (wo: WorkOut)
    ensures wo.id == StripId(w.id) && wo.summary == summary
    ensures wo.titleAbstract.None? <==> w.title.None? && summary.None?
    ensures wo.authorships.Some? <==> w.authorships.Some? && |w.authorships.value| > 0
    ensures wo.locations.Some? <==> w.locations.Some? && |w.locations.value| > 0
    ensures wo.biblio.Some? <==> w.biblio.Some? && w.biblio.value.volume.Some?
    ensures wo.mag.Some? <==> w.ids.Some?
    ensures && wo.displayName == w.displayName && wo.title == w.title && wo.citedByCount == w.citedByCount
            && wo.createdDate == w.createdDate && wo.doi == w.doi && wo.isOa == w.isOa
            && wo.isParatext == w.isParatext && wo.isRetracted == w.isRetracted && wo.language == w.language
            && wo.publicationDate == w.publicationDate && wo.publicationYear == w.publicationYear
            && wo.kind == w.kind && wo.updatedDate == w.updatedDate
    ensures && wo.titleAbstract == TitleAbstract(w.title, summary) && wo.biblio == BiblioText(w.biblio, enc)
            && (wo.mag, wo.pmid, wo.pmcid) == IdColumns(w.ids)
            && wo.authorships == AuthorshipsText(w, enc) && wo.locations == LocationsText(w, enc)
  {
    var ids := IdColumns(w.ids);
    WorkOut(StripId(w.id), w.displayName, w.title, summary, TitleAbstract(w.title, summary),
            AuthorshipsText(w, enc), BiblioText(w.biblio, enc), w.citedByCount, w.createdDate, w.doi,
            ids.0, ids.1, ids.2, w.isOa, w.isParatext, w.isRetracted, w.language, LocationsText(w, enc),
            w.publicationDate, w.publicationYear, w.kind, w.updatedDate)
  }

  /** The document as written: the locations read the undeclared field. */
  function DocumentAsWritten(w: Work, summary: Option<string>, enc: Json -> string): (r: Result<WorkOut, Fault>)
    ensures r.Failure? <==> w.locations.Some? && |w.locations.value| > 0
  {
    var locations := LocationsAsWritten(w, enc);
    if locations.Failure? then Failure(locations.error)
    else Success(Document(w, summary, enc))
  }

  /** Without locations the declared struct gives the same document. */
  lemma AsWrittenAgreesWithoutLocations(w: Work, summary: Option<string>, enc: Json -> string)
    requires w.locations.None? || |w.locations.value| == 0
    ensures DocumentAsWritten(w, summary, enc) == Success(Document(w, summary, enc))
  {
  }

  /** One output line: the encoded document and a newline. */
  function OutputLine(wo: WorkOut, enc: Json -> string): (r: string)
    ensures |r| > 0 && r[|r| - 1] == '\n'
  {
    enc(WorkOutJson(wo)) + "\n"
  }

  /** The line written for a decoded work. */
  function LineOf(w: Work, c: Codecs): string {
    OutputLine(Document(w, SearchAbstract(w.abstractInvertedIndex, c), c.enc), c.enc)
  }

  predicate HasAbstract(w: Work, c: Codecs) {
    SearchAbstract(w.abstractInvertedIndex, c).Some?
  }

  // ---------------------------------------------------------------------- loop

  /** What the loop does with a decoded work: the line it writes and whether
      the work counts as one with an abstract. */
  datatype Writer = Writer(line: Work -> string, counts: Work -> bool)

  /** The writer of `transform_partition`. */
  function WriterOf(c: Codecs): (r: Writer)
    ensures forall w :: r.line(w) == LineOf(w, c)
    ensures forall w :: r.counts(w) == HasAbstract(w, c)
  {
    Writer(w => LineOf(w, c), w => HasAbstract(w, c))
  }

  /** The state of the loop: lines written, the two counters, and the
      exception that ended it. */
  datatype Progress = Progress(out: seq<string>, nWorks: nat, nAbstracts: nat, fault: Option<Fault>)

  /** One iteration: count the line, decode it (an error ends the
      partition), then write its document. */
  function Advance(p: Progress, line: Result<Work, DecodeError>, wr: Writer): Progress {
    if p.fault.Some? then p
    else match line
      case Failure(e) => p.(nWorks := p.nWorks + 1, fault := Some(Undecodable(e)))
      case Success(w) =>
        Progress(p.out + [wr.line(w)], p.nWorks + 1, p.nAbstracts + (if wr.counts(w) then 1 else 0), None)
  }

  /** The loop over the lines. */
  function Transformed(lines: seq<Result<Work, DecodeError>>, wr: Writer): Progress
    decreases |lines|
  {
    if |lines| == 0 then Progress([], 0, 0, None)
    else Advance(Transformed(lines[..|lines| - 1], wr), lines[|lines| - 1], wr)
  }

  /** The document lines of decoded works. */
  function DocumentLines(works: seq<Work>, wr: Writer): (r: seq<string>)
    ensures |r| == |works|
  {
    seq(|works|, i requires 0 <= i < |works| => wr.line(works[i]))
  }

  /** How many decoded works have an abstract. */
  function AbstractCount(works: seq<Work>, wr: Writer): (n: nat)
    ensures n <= |works|
    decreases |works|
  {
    if |works| == 0 then 0
    else AbstractCount(works[..|works| - 1], wr)
         + (if wr.counts(works[|works| - 1]) then 1 else 0)
  }

  function Works(lines: seq<Result<Work, DecodeError>>): (r: seq<Work>)
    requires forall i :: 0 <= i < |lines| ==> lines[i].Success?
    ensures |r| == |lines|
    ensures forall i :: 0 <= i < |lines| ==> r[i] == lines[i].value
  {
    seq(|lines|, i requires 0 <= i < |lines| => lines[i].value)
  }

  lemma DocumentLinesSnoc(works: seq<Work>, wr: Writer)
    requires |works| > 0
    ensures DocumentLines(works, wr) ==
              DocumentLines(works[..|works| - 1], wr) + [wr.line(works[|works| - 1])]
  {
    var n := |works|;
    var a := DocumentLines(works, wr);
    var b := DocumentLines(works[..n - 1], wr) + [wr.line(works[n - 1])];
    forall i | 0 <= i < n ensures a[i] == b[i] {
      if i < n - 1 {
        assert works[..n - 1][i] == works[i];
      }
    }
    assert a == b;
  }

  /** When every line decodes: one line per work, in order, every work
      counted, and the abstracts counted. */
  lemma {:induction false} OneLinePerWork(lines: seq<Result<Work, DecodeError>>, wr: Writer)
    requires forall i :: 0 <= i < |lines| ==> lines[i].Success?
    ensures Transformed(lines, wr) == Progress(DocumentLines(Works(lines), wr), |lines|, AbstractCount(Works(lines), wr), None)
    decreases |lines|
  {
    if |lines| > 0 {
      var n := |lines|;
      var init := lines[..n - 1];
      assert forall i :: 0 <= i < |init| ==> init[i] == lines[i];
      OneLinePerWork(init, wr);
      var ws := Works(lines);
      assert ws[..n - 1] == Works(init);
      assert ws[n - 1] == lines[n - 1].value;
      DocumentLinesSnoc(ws, wr);
    }
  }

  /** Once the loop has raised, no later line changes anything. */
  lemma {:induction false} TransformedStopsAtFault(lines: seq<Result<Work, DecodeError>>, wr: Writer, i: nat)
    requires i <= |lines|
    requires Transformed(lines[..i], wr).fault.Some?
    ensures Transformed(lines, wr) == Transformed(lines[..i], wr)
    decreases |lines|
  {
    if i < |lines| {
      assert lines[..|lines| - 1][..i] == lines[..i];
      TransformedStopsAtFault(lines[..|lines| - 1], wr, i);
    } else {
      assert lines[..i] == lines;
    }
  }

  /** A line that does not decode ends the partition: the lines before it are
      written, it is counted, and nothing after it is. */
  lemma UndecodableLineAborts(lines: seq<Result<Work, DecodeError>>, wr: Writer, k: nat)
    requires k < |lines| && lines[k].Failure?
    requires forall i :: 0 <= i < k ==> lines[i].Success?
    ensures var p := Transformed(lines, wr);
            p.fault == Some(Undecodable(lines[k].error)) && |p.out| == k && p.nWorks == k + 1
  {
    var before := lines[..k];
    assert forall i :: 0 <= i < k ==> before[i].Success?;
    OneLinePerWork(before, wr);
    assert lines[..k + 1][..k] == before;
    TransformedStopsAtFault(lines, wr, k + 1);
  }

  /** Only counted works have abstracts. */
  lemma {:induction false} AbstractsAtMostWorks(lines: seq<Result<Work, DecodeError>>, wr: Writer)
    ensures Transformed(lines, wr).nAbstracts <= Transformed(lines, wr).nWorks
    ensures |Transformed(lines, wr).out| <= Transformed(lines, wr).nWorks
    decreases |lines|
  {
    if |lines| > 0 {
      AbstractsAtMostWorks(lines[..|lines| - 1], wr);
    }
  }

  lemma TransformedStep(lines: seq<Result<Work, DecodeError>>, wr: Writer, i: nat)
    requires i < |lines|
    ensures Transformed(lines[..i + 1], wr) == Advance(Transformed(lines[..i], wr), lines[i], wr)
  {
    assert lines[..i + 1][..i] == lines[..i];
  }

  /** The body of the loop for a decoded work: its abstract, its document,
      and `encode_into` the buffer, which then holds exactly the document and
      the newline. */
  method EncodeDocument(w: Work, c: Codecs) returns (hasAbstract: bool, buffer: string)
    ensures hasAbstract == HasAbstract(w, c)
    ensures buffer == LineOf(w, c)
  {
    var summary := SearchAbstract(w.abstractInvertedIndex, c);
    hasAbstract := summary.Some?;
    var wo := Document(w, summary, c.enc);
    buffer := c.enc(WorkOutJson(wo));
    buffer := buffer + "\n";
  }

  /** One pass of the loop body on a line: count it, then either record the
      decoding error, leaving the buffer as it was, or write the work's
      document through the buffer. */
  method Consume(out: seq<string>, nWorks: nat, nAbstracts: nat, buf: string, line: Result<Work, DecodeError>, c: Codecs)
    returns (out': seq<string>, nWorks': nat, nAbstracts': nat, fault': Option<Fault>, buffer: string)
    ensures Progress(out', nWorks', nAbstracts', fault') == Advance(Progress(out, nWorks, nAbstracts, None), line, WriterOf(c))
    ensures fault'.None? ==> |out'| > 0 && buffer == out'[|out'| - 1]
  {
    nWorks' := nWorks + 1;
    match line {
      case Failure(e) =>
        out', nAbstracts', fault', buffer := out, nAbstracts, Some(Undecodable(e)), buf;
      case Success(w) =>
        var hasAbstract;
        hasAbstract, buffer := EncodeDocument(w, c);
        nAbstracts' := nAbstracts;
        if hasAbstract {
          nAbstracts' := nAbstracts' + 1;
        }
        out' := out + [buffer];
        fault' := None;
    }
  }

  /** `transform_partition`: the loop, with its two counters and the reused
      output buffer, which holds the line just written. */
  method TransformPartition(lines: seq<Result<Work, DecodeError>>, c: Codecs)
    returns (out: seq<string>, nWorks: nat, nAbstracts: nat, fault: Option<Fault>)
    ensures Progress(out, nWorks, nAbstracts, fault) == Transformed(lines, WriterOf(c))
  {
    var wr := WriterOf(c);
    out, nWorks, nAbstracts, fault := [], 0, 0, None;
    var buffer: string := seq(256, _ => 0 as char);
    var i := 0;
    while i < |lines| && fault.None?
      invariant 0 <= i <= |lines|
      invariant Progress(out, nWorks, nAbstracts, fault) == Transformed(lines[..i], wr)
      invariant fault.None? && |out| > 0 ==> buffer == out[|out| - 1]
    {
      TransformedStep(lines, wr, i);
      out, nWorks, nAbstracts, fault, buffer := Consume(out, nWorks, nAbstracts, buffer, lines[i], c);
      i := i + 1;
    }
    if i < |lines| {
      TransformedStopsAtFault(lines, wr, i);
    } else {
      assert lines[..i] == lines;
    }
  }

  // ------------------------------------------------------- the loop as written

  /** A work whose `locations` list is present and not empty. */
  predicate Located(w: Work) {
    w.locations.Some? && |w.locations.value| > 0
  }

  /** One iteration as written: the work and its abstract are counted, then
      building its locations raises for a located work before its line is
      written. */
  function AdvanceAsWritten(p: Progress, line: Result<Work, DecodeError>, c: Codecs): Progress {
    if p.fault.Some? then p
    else match line
      case Failure(e) => p.(nWorks := p.nWorks + 1, fault := Some(Undecodable(e)))
      case Success(w) =>
        var counted := p.nAbstracts + (if HasAbstract(w, c) then 1 else 0);
        match DocumentAsWritten(w, SearchAbstract(w.abstractInvertedIndex, c), c.enc)
        case Failure(f) => Progress(p.out, p.nWorks + 1, counted, Some(f))
        case Success(wo) => Progress(p.out + [OutputLine(wo, c.enc)], p.nWorks + 1, counted, None)
  }

  /** The loop as written over the lines. */
  function TransformedAsWritten(lines: seq<Result<Work, DecodeError>>, c: Codecs): Progress
    decreases |lines|
  {
    if |lines| == 0 then Progress([], 0, 0, None)
    else AdvanceAsWritten(TransformedAsWritten(lines[..|lines| - 1], c), lines[|lines| - 1], c)
  }

  /** Until a located work comes up, the loop as written and the corrected
      loop do the same. */
  lemma {:induction false} AsWrittenAgreesBeforeLocated(lines: seq<Result<Work, DecodeError>>, c: Codecs)
    requires forall i :: 0 <= i < |lines| && lines[i].Success? ==> !Located(lines[i].value)
    ensures TransformedAsWritten(lines, c) == Transformed(lines, WriterOf(c))
    decreases |lines|
  {
    if |lines| > 0 {
      var init := lines[..|lines| - 1];
      assert forall i :: 0 <= i < |init| ==> init[i] == lines[i];
      AsWrittenAgreesBeforeLocated(init, c);
      var last := lines[|lines| - 1];
      if last.Success? {
        AsWrittenAgreesWithoutLocations(last.value, SearchAbstract(last.value.abstractInvertedIndex, c), c.enc);
      }
    }
  }

  /** Once the loop as written has raised, no later line changes anything. */
  lemma {:induction false} AsWrittenStopsAtFault(lines: seq<Result<Work, DecodeError>>, c: Codecs, i: nat)
    requires i <= |lines|
    requires TransformedAsWritten(lines[..i], c).fault.Some?
    ensures TransformedAsWritten(lines, c) == TransformedAsWritten(lines[..i], c)
    decreases |lines|
  {
    if i < |lines| {
      assert lines[..|lines| - 1][..i] == lines[..i];
      AsWrittenStopsAtFault(lines[..|lines| - 1], c, i);
    } else {
      assert lines[..i] == lines;
    }
  }

  /** As written, the partition raises the `AttributeError` at its first
      located work: the documents of the works before it are written, it is
      counted, and nothing after it is. */
  lemma AsWrittenRaisesAtFirstLocated(lines: seq<Result<Work, DecodeError>>, c: Codecs, k: nat)
    requires k < |lines| && forall i :: 0 <= i <= k ==> lines[i].Success?
    requires Located(lines[k].value)
    requires forall i :: 0 <= i < k ==> !Located(lines[i].value)
    ensures var p := TransformedAsWritten(lines, c);
            && p.fault == Some(NoSuchAttribute("primary_location"))
            && p.out == DocumentLines(Works(lines[..k]), WriterOf(c))
            && p.nWorks == k + 1
  {
    var before := lines[..k];
    assert forall i :: 0 <= i < k ==> before[i] == lines[i] && before[i].Success?;
    AsWrittenAgreesBeforeLocated(before, c);
    OneLinePerWork(before, WriterOf(c));
    AsWrittenStep(lines, c, k);
    var w := lines[k].value;
    assert DocumentAsWritten(w, SearchAbstract(w.abstractInvertedIndex, c), c.enc).Failure?;
    assert TransformedAsWritten(lines[..k + 1], c).fault == Some(NoSuchAttribute("primary_location"));
    AsWrittenStopsAtFault(lines, c, k + 1);
  }

  lemma AsWrittenStep(lines: seq<Result<Work, DecodeError>>, c: Codecs, i: nat)
    requires i < |lines|
    ensures TransformedAsWritten(lines[..i + 1], c) == AdvanceAsWritten(TransformedAsWritten(lines[..i], c), lines[i], c)
  {
    assert lines[..i + 1][..i] == lines[..i];
  }
}
