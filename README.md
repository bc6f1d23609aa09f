# openalex-solr-pg: a verified model of the snapshot flatteners

This project models the part of openalex-solr-pg that turns an OpenAlex
snapshot into load files. The model is written in Dafny.

It has two halves.

- **Postgres flattening.** Each entity partition (gzipped JSON lines of
  authors, institutions, publishers, funders, concepts, sources or works)
  becomes:
  - one CSV file per target table;
  - a deletion script that removes the partition's records before they are
    reloaded;
  - a `COPY` script that loads the CSV files.

  An orchestrator builds one job per new partition, skips jobs whose outputs
  already exist, and runs them in order or hands them to a process pool. A
  separate script deletes the records that OpenAlex merged into others.
- **Solr transform.** Each work of a partition becomes one JSON document
  holding:
  - the abstract, reconstructed from its inverted index;
  - the title-and-abstract search text;
  - the authorships, locations and bibliographic data as embedded JSON text;
  - the identifier columns.

  The transform also counts works and abstracts. As written, it raises at
  the first work that lists a location, and the merged-id deletion raises on
  its first manifest. "## Findings" describes both. The loop and
  document members model the corrected code; the "as written" members model
  the code itself.

## Modules

| module | file | what it models |
|---|---|---|
| `Wrappers` | wrappers.dfy | `Option` and `Result` |
| `Errors` | errors.dfy | the exceptions the code raises: `Fault`, `DecodeError` |
| `Text` | text.dfy | the Python string operations the code relies on: `join`, `split`, `strip`, `replace`, `str(int)`, string order |
| `Paths` | paths.dfy | the `pathlib` operations the code relies on: `name`, `parent`, `stem`, `/`, `absolute()`, path order |
| `Json` | json.dfy | JSON values and `omit_defaults` encoding |
| `Util` | util.dfy | shared/util.py |
| `PgStructs` | pg_structs.dfy | processors/postgres/structs.py |
| `Deletion` | deletion.dfy | processors/postgres/deletion.py |
| `Rows` | rows.dfy | the pieces all `flatten_*_partition` functions share: `DictWriter` rows, `prepare_list`, the per-line loop, the deletion and `COPY` scripts |
| `FlattenPartition` | flatten_partition.dfy | each `flatten_*_partition` function of processors/postgres/flatten_partition.py |
| `Flatten` | flatten.dfy | processors/postgres/flatten.py |
| `SolrStructs` | solr_structs.dfy | processors/solr/structs.py |
| `SolrTransform` | solr_transform.dfy | processors/solr/transform_partition.py |

## How the program is modelled

- **Crashes as values.** A Python exception becomes a `Fault` value. Examples:
  - an attribute read on `None`;
  - `None[21:]`;
  - a keyword argument that is missing or unexpected;
  - a line that does not decode.
- **One step per record.** For each decoded record, a `Step` function gives
  one of:
  - `Skip`;
  - `Emit`: the `writerow` calls, the collected id, and whether a non-blank
    abstract was read;
  - `Crash`: the rows written before the exception, and the exception.

  `Rows.ScanLines` folds the steps over the lines of a partition. Once a step
  crashes, the scan stops.
- **Scripts on success only.** The deletion and `COPY` scripts are written
  after the loop, so a partition that raises leaves them empty. Rows written
  before the exception remain.
- **CSV files.** A `csv.DictWriter` file is the list of rows written to it.
  Each row is projected onto the writer's field names: missing keys become
  empty cells, and `extrasaction='ignore'` drops extra keys.
- **Imperative methods.** The loops of the source are methods with loop
  invariants:
  - the partition loop;
  - `run`'s sequential loop;
  - `batched`;
  - `generate_deletions`;
  - the deletion-script writer;
  - the solr loop, which keeps re-encoding into one buffer.

  Each method is proved equal to a function, and the properties are proved
  about that function.
- **Parameters.** Whatever these parameters return is taken as given:
  - file contents, as decoded records or parsed CSV rows;
  - the paths a glob found;
  - the file sizes `all_exist` reads;
  - the Cython `invert`;
  - the JSON encoder;
  - the partition function a job calls.
- **Constants.** The schema name is the configuration default `openalex`.
  The deletion batch size is 1000.

The model follows the code where its behaviour differs from what it appears
to intend, except where a "## Findings" row says that the model follows the
corrected code. There, members marked "as written" model the code itself, and
the other members of the row, whose "## Model" rows start with "Corrected:",
model the evident intent. The differences it follows are these:

- `strip_id` returns `None` for every string of 20 characters or fewer. Its
  inner `len(s) > 0` branch, which would pass a short string through
  unchanged, is unreachable.
- `batched(it, bs)` emits batches of `bs + 1` items, not `bs`. It always
  emits a last batch, which is empty when the input length is a multiple of
  `bs + 1`. So with no ids, each table still gets one `... IN ('')`
  statement.

Two related mismatches are stated as lemmas. Neither is listed as a finding,
because the database schema that would decide them is not part of this model:

- The deletion tables of institutions and concepts (`institutions_association`,
  `institutions_concept`, `concepts_ancestor`) are not the tables the `COPY`
  statements load (`institutions_associations`, `institutions_concepts`,
  `concepts_ancestors`).
- The works tables `works_sdgs` and `works_authorship_institutions` are loaded
  but never deleted from. See `FlattenPartition.CopiedButNotDeleted`.

## Model

| member | source | states |
|---|---|---|
| Util.GetGlobs | shared/util.py:8-16 | Both result lists are sorted. The first holds exactly the found partitions whose parent directory name sorts after `updated_date=<since>`. The second holds exactly the found manifests whose name sorts after `<since>.csv.gz`. Each result is a sub-multiset of what was found. |
| Util.KeepNewPartitions | shared/util.py:11-13 | The list comprehension keeps exactly the partitions newer than the watermark, and takes nothing else. |
| Util.KeepNewMergeFiles | shared/util.py:14-16 | The list comprehension keeps exactly the manifests newer than the watermark, and takes nothing else. |
| Paths.Sort | shared/util.py:11 | `sorted` returns an ordered permutation of its input. |
| Paths.Insert | shared/util.py:11 | The insertion step keeps the list sorted and adds exactly one copy of the element. |
| Paths.PathLeTransitive | shared/util.py:11 | Path order is transitive, which `sorted` needs. |
| Paths.PathLeTotal | shared/util.py:11 | Any two paths are ordered one way or the other. |
| Text.StrLessTransitive | shared/util.py:13 | String comparison `>` is transitive. |
| Text.StrLessTotal | shared/util.py:13 | Of two different strings, one is smaller. |
| Text.StrLessIrreflexive | shared/util.py:13 | No string sorts after itself, so a partition dated exactly at the watermark is excluded. |
| Util.ReadIds | shared/util.py:21-28 | One manifest yields its ids exactly when it has a header row and every later row has at least two fields. The ids are the second column of every row after the header, in order. |
| Util.ReadRows | shared/util.py:25-28 | The rows after the header yield `row[1]` exactly when each has two fields. An `IndexError` is raised otherwise. |
| Util.IdColumn | shared/util.py:24-28 | The header is skipped and one id is read per later row, from the second column. |
| Util.GetIdsToDelete | shared/util.py:19-28 | Corrected: the generator runs to the end exactly when every manifest is readable. It then yields the concatenation of the manifests' id columns in manifest order. |
| Util.GetIdsToDeleteUntilFault | shared/util.py:19-28 | Corrected: at the first unreadable manifest the generator raises that file's exception. Before that it yields the id columns of all earlier manifests, in order. |
| Util.GetIdsToDeleteAsWritten | shared/util.py:19-22 | As written: the first manifest raises the binary-mode `ValueError`, so no id is yielded. Without manifests nothing is raised. |
| Util.GetIdsToDeleteAsWrittenFails | shared/util.py:19-28 | Readable manifests give a `ValueError` as written, while the intended reading raises nothing and yields at least the first file's ids. |
| Util.StripId | shared/util.py:31-37 | The result is present exactly when the input is present and longer than 20 characters. The result is then the input without its first 21 characters. |
| Util.Tail21 | processors/postgres/flatten_partition.py:80 | `s[21:]` is the suffix after the first 21 characters. It gives the empty string for shorter ids. |
| Util.Cap | shared/util.py:42-47 | A batch closes after `bs + 1` items. The batch size is at least 1 whatever `bs` is. |
| Util.BatchList | shared/util.py:40-50 | The loop's batches equal `Batched(it, bs)`. |
| Util.BatchedConcat | shared/util.py:40-50 | The batches concatenate back to the input: nothing is lost, duplicated or reordered. |
| Util.BatchedCount | shared/util.py:40-50 | There are `len(it) / (bs + 1) + 1` batches, counting the trailing one. |
| Util.BatchedShape | shared/util.py:40-50 | Every batch but the last has `bs + 1` items. The last has the remainder, possibly none. |
| Util.BatchedOfFullBatches | shared/util.py:40-50 | Full batches followed by a short remainder are exactly what `batched` splits their concatenation into. This is the inverse of concatenation. |
| Util.BatchedStream | shared/util.py:40-50 | Batching a generator that raises: the exception passes through, and the batches yielded before it are all but the last batch of what was read. |
| Util.FlattenConcat | shared/util.py:25 | `yield from` over several manifests concatenates their ids. |
| Deletion.TableMap | processors/postgres/deletion.py:6-40 | Every object type deletes from at least one table. The first is its primary table, keyed by `id`. |
| Deletion.PrimaryTable | processors/postgres/deletion.py:10-39 | The primary table of an object type is its name with an `s` appended. |
| Deletion.Tables | processors/postgres/deletion.py:6-40 | The tables of an object type, in the order of `table_map`. |
| Deletion.FilterNone | processors/postgres/deletion.py:43-44 | It keeps exactly the present values, and never lengthens the list. |
| Deletion.FilterNoneAppend | processors/postgres/deletion.py:43-44 | Filtering goes element by element, so the present values keep their order. |
| Deletion.FilterNoneSingle | processors/postgres/deletion.py:43-44 | A single value is kept exactly when it is present. |
| Deletion.FilterSomes | processors/postgres/deletion.py:43-44 | On a list without `None` it is the identity. |
| Deletion.StatementsCount | processors/postgres/deletion.py:50-53 | The number of statements is the number of batches times the number of tables. |
| Deletion.StatementsAt | processors/postgres/deletion.py:50-53 | Statement number `b * tables + k` deletes batch `b` from table `k`. |
| Deletion.StatementsShape | processors/postgres/deletion.py:50-53 | Both facts above hold at once for every batch and table. |
| Deletion.DeletionsShape | processors/postgres/deletion.py:47-53 | `generate_deletions` yields `|batches| * |tables|` statements, and statement `b * tables + k` deletes batch `b` of the ids from table `k`. |
| Deletion.StatementsAppend | processors/postgres/deletion.py:50-53 | The statements of consecutive batch lists concatenate. |
| Deletion.StatementOfNothing | processors/postgres/deletion.py:51-53 | An empty batch gives `DELETE FROM openalex.<table> t WHERE t.<key> IN ('');`. |
| Deletion.DeletionsOfNothing | processors/postgres/deletion.py:47-53 | With no ids there is still one such statement for each table, because of the trailing batch. |
| Deletion.EmitStatements | processors/postgres/deletion.py:50-53 | The nested loop produces exactly the statements of its batches. |
| Deletion.GenerateDeletions | processors/postgres/deletion.py:47-53 | The generator's output equals `Deletions(ids, t, bs)`. |
| Deletion.ScriptAppend | processors/postgres/flatten_partition.py:102-103 | Writing statements one per line: the script of two lists is the two scripts concatenated. |
| Deletion.ScriptSnoc | processors/postgres/deletion.py:65 | Writing one more statement appends it and a newline. |
| Deletion.WriteBatch | processors/postgres/deletion.py:63-65 | The inner loop appends the lines of one batch's statements to the file. |
| Deletion.WriteStatements | processors/postgres/deletion.py:62-65 | The file holds the lines of all batches' statements. |
| Deletion.GenerateDeletionsFromMergeFile | processors/postgres/deletion.py:56-65 | Corrected: The file text and the exception, if one is raised, are those of `MergeScript`. |
| Deletion.MergeScriptIsDeletions | processors/postgres/deletion.py:56-65 | With readable manifests, no exception is raised, and the file is exactly the `generate_deletions` script over the merged ids. |
| Deletion.MergeScriptOnFault | processors/postgres/deletion.py:56-65 | With an unreadable manifest, an exception is raised. The file holds the full script for the ids read so far, except the last, still-open batch. |
| Deletion.MergeScriptAsWritten | processors/postgres/deletion.py:56-65 | As written, any manifest leaves the merge file empty and raises the `ValueError`. With no manifests the script is the intended one. |
| PgStructs.ParseRole | processors/postgres/structs.py:19-20 | Decoding `role` succeeds exactly on `publisher`, `institution` and `funder`, and gives a value spelt like the input. |
| PgStructs.RoleRoundTrip | processors/postgres/structs.py:19-20 | Every role decodes from its own spelling. |
| PgStructs.ParseRelationship | processors/postgres/structs.py:143 | Decoding `relationship` succeeds exactly on `parent`, `child`, `related` and `other`. |
| PgStructs.RelationshipRoundTrip | processors/postgres/structs.py:143 | Every relationship decodes from its own spelling. |
| PgStructs.ParseInstitutionType | processors/postgres/structs.py:165-166 | Decoding succeeds exactly on the eight institution types. |
| PgStructs.InstitutionTypeRoundTrip | processors/postgres/structs.py:165-166 | Every institution type decodes from its own spelling. |
| PgStructs.ParseSourceType | processors/postgres/structs.py:215 | Decoding succeeds exactly on the six source types, including those with spaces. |
| PgStructs.SourceTypeRoundTrip | processors/postgres/structs.py:215 | Every source type decodes from its own spelling. |
| PgStructs.ParseOAStatus | processors/postgres/structs.py:356 | Decoding succeeds exactly on the five open-access statuses. |
| PgStructs.OAStatusRoundTrip | processors/postgres/structs.py:356 | Every status decodes from its own spelling. |
| PgStructs.OAStatusExactlyFive | processors/postgres/structs.py:356 | There are five statuses, and their spellings are distinct. |
| PgStructs.MeshJson | processors/postgres/structs.py:348-353 | With `omit_defaults`, a MeSH entry encodes as an object with one member per field that is set. |
| PgStructs.MeshJsonOmits | processors/postgres/structs.py:348-353 | The members are the set fields, in declaration order. |
| PgStructs.MeshFieldNames | processors/postgres/structs.py:349-353 | The five field names are distinct. |
| PgStructs.MeshJsonMembers | processors/postgres/structs.py:348-353 | No member is `null`. Each of `descriptor_ui`, `descriptor_name`, `qualifier_ui`, `qualifier_name` and `is_major_topic` holds the value `x` exactly when that field is set to `x`. |
| Json.Omit | processors/solr/structs.py:113 | An `omit_defaults` field is left out exactly when it is `None`. |
| Json.OmitsMembers | processors/solr/structs.py:113 | The encoded members are exactly the fields that are not `None`. |
| Json.OmitsAppend | processors/solr/structs.py:113 | Omitting goes field by field: the members of two runs of fields are those of the first run followed by those of the second, so they stay in declaration order. |
| Json.OmitsSingle | processors/solr/structs.py:113 | A single field is kept unchanged exactly when its value is not `None`. |
| Json.OmitsLookup | processors/solr/structs.py:113 | A field whose name occurs once is encoded under that name with its own value, unless the value is `None`. |
| Json.OmitsFive | processors/postgres/structs.py:348-353 | A five-field struct encodes as the five optional members, in declaration order. |
| Rows.Get | processors/postgres/flatten_partition.py:39-42 | A row-dictionary lookup is absent exactly when no entry has the key. Otherwise it gives an entry of that key. |
| Rows.GetAt | processors/postgres/flatten_partition.py:83-100 | In a row dictionary whose key occurs only at one entry, the lookup gives that entry's value. |
| Rows.Project | processors/postgres/flatten_partition.py:39-42 | A CSV row has one cell per field name: the row's value, or an empty cell. |
| Rows.OtherKeysIgnored | processors/postgres/flatten_partition.py:40 | With `extrasaction='ignore'`, rows that agree on the field names write the same CSV row. |
| Rows.AgreeExceptAt | processors/postgres/flatten_partition.py:40 | Rows that differ only in a key outside the field names agree on the field names. |
| Rows.FieldnamesRoundTrip | processors/postgres/flatten_partition.py:18-19 | The header text splits back into the field names. |
| Text.SplitJoin | processors/postgres/flatten_partition.py:19 | `','.join` is inverted by splitting on the separator when no part contains it. |
| Rows.CleanIsClean | processors/postgres/flatten_partition.py:23-24 | A cleaned element holds no comma and no kind of quote. |
| Rows.Kept | processors/postgres/flatten_partition.py:27-32 | The kept elements are exactly the present, non-empty ones. |
| Rows.KeptAppend | processors/postgres/flatten_partition.py:27-32 | Keeping goes element by element, so the kept elements are in list order. |
| Rows.KeptSingle | processors/postgres/flatten_partition.py:27-32 | A single element is kept exactly when it is present and not empty. |
| Rows.PrepareList | processors/postgres/flatten_partition.py:22-36 | `prepare_list` never raises without `strip`. It yields `None` exactly when the list is absent or keeps nothing. Otherwise it yields a brace-enclosed literal. |
| Rows.PrepareListRaises | processors/postgres/flatten_partition.py:27-34 | With `strip`, it raises exactly when some kept element is 20 characters or fewer once cleaned, because `strip_id` gives `None` and `join` fails. |
| Rows.JoinStripped | processors/postgres/flatten_partition.py:27-34 | Joining the stripped elements fails exactly on a short element, and otherwise yields a brace-enclosed literal. |
| Rows.PrepareListRoundTrip | processors/postgres/flatten_partition.py:22-36 | The array literal's elements are the kept, cleaned elements, in order. With `strip`, each element loses its 21-character prefix. |
| Rows.ArrayLiteralRoundTrip | processors/postgres/flatten_partition.py:34 | A brace-enclosed, comma-joined literal splits back into its parts. |
| Rows.On | processors/postgres/flatten_partition.py:39-42 | A writer's rows are a subsequence of all `writerow` calls. |
| Rows.OnAppend | processors/postgres/flatten_partition.py:39-42 | Rows written in two stretches concatenate per writer. |
| Rows.OnSingleTable | processors/postgres/flatten_partition.py:39-42 | Calls that all go to one writer are exactly that writer's rows, and no other writer's. |
| Rows.TableRows | processors/postgres/flatten_partition.py:39-42 | A CSV file holds one projected row per call on its writer, in order. |
| Rows.RunLoop | processors/postgres/flatten_partition.py:77-100 | The `for line in lines` loop computes `ScanLines`. |
| Rows.ScanStopsAtFault | processors/postgres/flatten_partition.py:79 | Once the loop has raised, later lines change nothing. |
| Rows.SkipChangesNothing | processors/postgres/flatten_partition.py:261-262 | A skipped record (`continue`) changes neither the files, the ids nor the counters. |
| Rows.UndecodableAborts | processors/postgres/flatten_partition.py:79 | A line that does not decode ends the partition with that `DecodeError`, whatever follows. |
| Rows.ScanClean | processors/postgres/flatten_partition.py:77-103 | The loop runs to the end exactly when every line decodes and no record raises. It counts one record per collected id. Without an exception, the ids are those of the finished records, in order. |
| Rows.DeletesOwnIds | processors/postgres/flatten_partition.py:102-106 | A partition without exceptions deletes exactly its own records and writes its full `COPY` script. |
| Rows.AbstractsAtMostCount | processors/postgres/flatten_partition.py:632-633 | The abstract counter never exceeds the record counter. |
| Rows.EveryLineCounted | processors/postgres/flatten_partition.py:77-81 | When no record is skipped or raises, every line is counted and contributes one id. |
| Rows.WriteDeletions | processors/postgres/flatten_partition.py:102-103 | The deletion file is the `generate_deletions` script over the collected ids. |
| Rows.WriteLines | processors/postgres/flatten_partition.py:102-103 | Writing each statement plus a newline gives `Script(stmts)`. |
| Rows.WriteCopies | processors/postgres/flatten_partition.py:105-106 | The `COPY` file holds the partition's statements, in order. |
| Rows.FlattenPartition | processors/postgres/flatten_partition.py:57-106 | One partition run computes `Flattened`: the tables, the scripts (empty after an exception), the counters and the exception. |
| FlattenPartition.Lift | processors/postgres/flatten_partition.py:90 | A list of strings seen as a list of optional strings. |
| FlattenPartition.AuthorStep | processors/postgres/flatten_partition.py:77-100 | An author never skips. It finishes exactly when the id, `summary_stats` and `ids` are present, and raises before writing otherwise. It collects `id[21:]` and writes one `authors` row with that id. |
| FlattenPartition.LastKnownInstitutionDropped | processors/postgres/flatten_partition.py:61-65 | `last_known_institution` is not a field name, so it never reaches the CSV file, whatever its value (lines 91-92). |
| FlattenPartition.ShortAuthorId | processors/postgres/flatten_partition.py:80 | An author id of 21 characters or fewer is collected as the empty string, where `strip_id` would give `None`. |
| FlattenPartition.FlattenAuthorsPartition | processors/postgres/flatten_partition.py:45-112 | `flatten_authors_partition` is the generic partition run with the author step and layout. |
| FlattenPartition.AssociationWrites | processors/postgres/flatten_partition.py:190-195 | Each associated institution writes one row: the institution's id, `id[21:]` of the other, and the relationship. It raises at the first one without an id. |
| FlattenPartition.InstitutionConceptWrites | processors/postgres/flatten_partition.py:197-202 | Each `x_concept` writes one row: the institution id, `id[21:]` of the concept, and the score. It raises at the first one without an id. |
| FlattenPartition.InstitutionStep | processors/postgres/flatten_partition.py:157-202 | An institution finishes exactly when its id, summary stats, ids, geo, every association id, the concept list and every concept id are present. It collects `id[21:]`. |
| FlattenPartition.InstitutionWrites | processors/postgres/flatten_partition.py:183-202 | A finished institution writes one institution row with its id, one association row per association, and one concept row per `x_concept`. |
| FlattenPartition.FlattenInstitutionsPartition | processors/postgres/flatten_partition.py:115-218 | `flatten_institutions_partition` is the generic partition run with three writers and three `COPY` statements. |
| FlattenPartition.PublisherStep | processors/postgres/flatten_partition.py:256-283 | A publisher is skipped exactly when `strip_id(id)` is `None`. It finishes exactly when the stripped id, summary stats and ids are present and the lineage list does not raise. It then writes one row with the stripped id. |
| FlattenPartition.PublisherWithoutIdSkipped | processors/postgres/flatten_partition.py:258-262 | A publisher without a usable id leaves the whole partition state unchanged. |
| FlattenPartition.FlattenPublisherPartition | processors/postgres/flatten_partition.py:221-295 | `flatten_publisher_partition` is the generic run with the publisher step. |
| FlattenPartition.FunderStep | processors/postgres/flatten_partition.py:333-355 | A funder finishes exactly when its summary stats are present. It collects `strip_id(id)`, possibly `None`, and writes one row with it. |
| FlattenPartition.FlattenFunderPartition | processors/postgres/flatten_partition.py:298-367 | `flatten_funder_partition` is the generic run with the funder step. |
| FlattenPartition.RelatedConceptWrites | processors/postgres/flatten_partition.py:435-440 | One `concepts_related` row per related concept: the ids and the score. |
| FlattenPartition.AncestorWrites | processors/postgres/flatten_partition.py:441-445 | One `concepts_ancestor` row per related concept, since the loop walks `related_concepts`, not `ancestors`. |
| FlattenPartition.ConceptStep | processors/postgres/flatten_partition.py:411-445 | A concept finishes exactly when its summary stats, ids and related concepts are present. It collects `strip_id(id)` and writes the concept row, then the related rows, then the ancestor rows. |
| FlattenPartition.AncestorsMirrorRelated | processors/postgres/flatten_partition.py:418-445 | The concept row keeps the unstripped id. The ancestor file repeats the related file row for row, without the score. |
| FlattenPartition.FlattenConceptPartition | processors/postgres/flatten_partition.py:370-461 | `flatten_concept_partition` is the generic run with three writers. |
| FlattenPartition.Societies | processors/postgres/flatten_partition.py:509-511 | The societies list is present exactly when non-empty, and then holds each society's organization in order. |
| FlattenPartition.SourceStep | processors/postgres/flatten_partition.py:503-539 | A source finishes exactly when its summary stats are present, its host-organization lineage does not raise, and its ids are present. A lineage failure is the exception raised. It collects `strip_id(id)`. |
| FlattenPartition.FlattenSourcesPartition | processors/postgres/flatten_partition.py:464-551 | `flatten_sources_partition` is the generic run with the source step. |
| FlattenPartition.Abstract | processors/postgres/flatten_partition.py:628-638 | The abstract is absent exactly when there is no index, `invert` fails to decode, or the text is blank. Otherwise it is `invert`'s text. |
| Text.StripEmptyIff | processors/postgres/flatten_partition.py:632 | `len(s.strip()) > 0` holds exactly when `s` is not all whitespace. |
| FlattenPartition.ApcPaidUsd | processors/postgres/flatten_partition.py:674-675 | `apc_paid` is the single APC's `value_usd`, and is empty for a list or `None`. |
| FlattenPartition.GrantsCell | processors/postgres/flatten_partition.py:640-646 | The grants cell is filled exactly when the work has grants. |
| FlattenPartition.MeshCell | processors/postgres/flatten_partition.py:681-682 | The mesh cell is filled exactly when the work has MeSH entries. |
| FlattenPartition.AffiliationWrites | processors/postgres/flatten_partition.py:699-705 | One row per institution of an authorship: work id, author id, and stripped institution id. |
| FlattenPartition.AuthorshipRows | processors/postgres/flatten_partition.py:688-705 | The authorships file holds one row per authorship, in order and numbered. The affiliation file holds one row per institution of every authorship. |
| FlattenPartition.AuthorshipWritesSnoc | processors/postgres/flatten_partition.py:688-705 | Adding one authorship adds one authorship row and that authorship's institution rows. |
| FlattenPartition.EnumeratedRows | processors/postgres/flatten_partition.py:688 | `enumerate` pairs each authorship with its index. |
| FlattenPartition.ExactPosition | processors/postgres/flatten_partition.py:689-694 | `exact_position` is the authorship's index. `author_id` is the stripped author id. |
| FlattenPartition.IsPrimaryOfItself | processors/postgres/flatten_partition.py:714-720 | A location is primary against itself exactly when it has a source. The relation is symmetric. |
| FlattenPartition.IsPrimaryDropped | processors/postgres/flatten_partition.py:604-605 | `is_primary` is not a field name of the locations writer, so the locations file does not depend on which location is primary. |
| FlattenPartition.LocationWrites | processors/postgres/flatten_partition.py:707-724 | No rows without a location list. Otherwise one locations row per location, in order. |
| FlattenPartition.WorkConceptWrites | processors/postgres/flatten_partition.py:726-731 | One `works_concepts` row per concept: work id, stripped concept id, score. |
| FlattenPartition.SdgWrites | processors/postgres/flatten_partition.py:732-739 | One `works_sdgs` row per goal. There are none when the list is absent. |
| FlattenPartition.WorkLinkWrites | processors/postgres/flatten_partition.py:740-749 | One row per referenced or related work: the work id and the stripped id of the other work. |
| FlattenPartition.WorkWrites | processors/postgres/flatten_partition.py:648-749 | A finished work writes exactly one works row, whose `id` is `strip_id(id)`. It writes one authorship row per authorship, in enumeration order with the position as `exact_position`, and one authorship-institution row per listed institution. It writes one row per location (none without locations), and one per concept, referenced work, related work and goal. Each reference and related-work row names the work and the stripped other id, in list order. |
| FlattenPartition.WorkWriteRows | processors/postgres/flatten_partition.py:688-739 | A finished work's authorship-institution rows are those of the authorship loop. Its location, concept and goal files hold exactly one row per list item, in list order. Each row holds the work id and that item's own fields: the location row with its `is_primary` test, the stripped concept id with its score, and the goal id, name and score. |
| FlattenPartition.AuthorshipWritesElsewhere | processors/postgres/flatten_partition.py:688-705 | The authorship loop writes only to the authorship and authorship-institution files. |
| FlattenPartition.WorkStep | processors/postgres/flatten_partition.py:622-749 | A work finishes exactly when biblio, ids, open access, authorships, concepts, referenced works and related works are present. It collects `strip_id(id)` and counts an abstract exactly when one was read. Missing biblio, ids or open access raises before any write. A later missing list raises after the works row is written. |
| FlattenPartition.AbstractsAtMostWorks | processors/postgres/flatten_partition.py:632-633 | In a works partition, abstracts never outnumber works. |
| FlattenPartition.FlattenWorksPartition | processors/postgres/flatten_partition.py:554-776 | `flatten_works_partition` is the generic run with eight writers and eight `COPY` statements. `works_concepts` has no column list (758-759). |
| FlattenPartition.Targets | processors/postgres/flatten_partition.py:754-770 | The tables the `COPY` statements load, in order. |
| FlattenPartition.CopiedButNotDeleted | processors/postgres/deletion.py:13-38 | Three table names differ between deletion and `COPY`, and two works tables are loaded but never deleted from. |
| Flatten.Picklify | processors/postgres/flatten.py:15-23 | Every path argument becomes its string. Every other argument and every key is unchanged. |
| Flatten.PicklifyAll | processors/postgres/flatten.py:15-23 | Each job is picklified. |
| Flatten.PicklifiedAlwaysExists | processors/postgres/flatten.py:26-32 | A picklified job counts as existing, because it holds no `Path` values. Picklifying is idempotent. |
| Flatten.Selected | processors/postgres/flatten.py:36-37 | Without `override`, it keeps exactly the jobs whose outputs do not all exist. With `override`, it keeps every job. |
| Flatten.SelectedAppend | processors/postgres/flatten.py:36-37 | Jobs are selected one by one, so the selected jobs keep their listed order. |
| Flatten.SelectedSingle | processors/postgres/flatten.py:36-37 | A single job is selected exactly when `override` is set or one of its outputs is missing or empty. |
| Flatten.NothingSelected | processors/postgres/flatten.py:36-38 | When every job's outputs exist, nothing is left to run. |
| Flatten.RerunDoesNothing | processors/postgres/flatten.py:35-38 | A rerun over finished jobs calls nothing. |
| Flatten.Bind | processors/postgres/flatten.py:39-44 | `func(**kwargs)` binds exactly when every key is a parameter and every parameter is given. |
| Flatten.UnknownMembers | processors/postgres/flatten.py:39-44 | The unexpected keywords are exactly the keys that are not parameters. |
| Flatten.MissingMembers | processors/postgres/flatten.py:39-44 | The missing arguments are exactly the parameters that are not keys. |
| Flatten.Keys | processors/postgres/flatten.py:39-41 | The keyword names of a job, in order. |
| Flatten.Invoker | processors/postgres/flatten.py:41 | Calling `func(kwargs)` on a job binds, then runs the partition function. |
| Flatten.Sequential | processors/postgres/flatten.py:40-41 | The loop calls a prefix of the jobs. It calls all of them unless one raised. |
| Flatten.SequentialStops | processors/postgres/flatten.py:40-41 | After a job raises, no later job is called. |
| Flatten.SequentialCallsAll | processors/postgres/flatten.py:40-41 | When no job raises, every job is called, in order. |
| Flatten.SequentialFirstRaises | processors/postgres/flatten.py:40-41 | When the first job raises, it is the only one called. |
| Flatten.RunInOrder | processors/postgres/flatten.py:40-41 | The `for` loop computes `Sequential`. |
| Flatten.Run | processors/postgres/flatten.py:35-44 | `run` does nothing when no job is left. With parallelism 1 it runs the jobs in order. Below 1 it fails to create the pool. Otherwise it hands the picklified jobs to `Pool.map`, which fails when any job raises. |
| Flatten.OverrideRunsEverything | processors/postgres/flatten.py:36-41 | With `override` and parallelism 1, every job is called in order when none raises. |
| Flatten.NamePartOfDatedPartition | processors/postgres/flatten.py:47-49 | For `updated_date=<d>/<stem>.gz`, the name part is `<d>-<stem>`. |
| Flatten.NamePartOfOtherDirectory | processors/postgres/flatten.py:47-49 | Any other parent directory name is kept whole. |
| Flatten.PartitionJob | processors/postgres/flatten.py:58-67 | A job holds the partition, the `-cpy.sql` and `-del.sql` paths, one `pg-<kind>-<name part><suffix>` path per output, and `preserve_ram` last. |
| Flatten.PartitionJobs | processors/postgres/flatten.py:58-68 | One job per partition, in order. |
| Flatten.JobKeys | processors/postgres/flatten.py:58-67 | A job's keys are the fixed keys, then the output keys, then `preserve_ram`. |
| Flatten.KeysInOrder | processors/postgres/flatten.py:58-67 | Any job of that shape has those keys. |
| Flatten.JobsBind | processors/postgres/flatten.py:52-196 | For every entity except works, the job dictionaries bind to the partition function's parameters. |
| Flatten.BindExact | processors/postgres/flatten.py:39-44 | Keys equal to the parameter list always bind. |
| Flatten.WorksJobsMissTwoOutputs | processors/postgres/flatten.py:206-217 | As written, a works job fails to bind, missing `out_m2m_authorship_institutions` and `out_m2m_sdgs`. |
| Flatten.WorksJobKeywords | processors/postgres/flatten.py:206-217 | The keys of a works job as written. |
| Flatten.WorksMissing | processors/postgres/flatten.py:206-217 | Exactly those two parameters are missing from a works job. |
| Flatten.WorksUnknown | processors/postgres/flatten.py:206-217 | A works job has no unexpected key. |
| Flatten.WorksRunStopsAtFirstJob | processors/postgres/flatten.py:39-41 | As written, a sequential works run calls one job and stops with `TypeError`. |
| Flatten.FixedOutputs | processors/postgres/flatten.py:206-217 | Corrected outputs: every other entity keeps its outputs. Works gain exactly two more: the authorship-institution file at position 4 and the goal file at position 7. |
| Flatten.FixedKeywords | processors/postgres/flatten.py:206-217 | The corrected outputs give exactly the parameter list of every entity. |
| Flatten.FixedJobsBind | processors/postgres/flatten.py:52-217 | With the corrected outputs, every entity's jobs bind. |
| Flatten.FlattenEntity | processors/postgres/flatten.py:52-225 | Corrected: `flatten_<entity>` runs the entity's jobs. It writes the merged-id deletion script, `pg-<kind>-<last_update>-merged_del.sql`, exactly when deletion is not skipped and the run did not raise. |
| SolrStructs.AuthorshipJson | processors/solr/structs.py:38-43 | An authorship encodes as an object of five members, because `Authorship` does not omit defaults. |
| SolrStructs.LocationOutJson | processors/solr/transform_partition.py:65-79 | An output location always carries `is_primary`. |
| SolrStructs.WorkOutJson | processors/solr/structs.py:113-139 | A document is an object whose first member is `id`. |
| SolrStructs.WorkOutOmitsDefaults | processors/solr/structs.py:113-139 | Every member after `id` is set. Every set field appears. |
| SolrStructs.OmitsAfter | processors/solr/structs.py:113-139 | What follows the fixed head holds only set members, and all of them. |
| SolrTransform.Inverted | processors/solr/transform_partition.py:40-42 | The string index fails exactly when it does not decode or `invert` fails. |
| SolrTransform.SearchAbstract | processors/solr/transform_partition.py:37-52 | The abstract is absent exactly when there is no index, decoding fails, or the text is blank. Otherwise it is the inverted text. |
| SolrTransform.TitleAbstract | processors/solr/transform_partition.py:54-56 | The search text is absent exactly when both title and abstract are. Otherwise it is the title (or empty), a space, and the abstract (or empty). |
| SolrTransform.TitleAbstractParts | processors/solr/transform_partition.py:56 | With a title, the text starts with it, and ends with the abstract or a single space. |
| SolrTransform.ListText | processors/solr/transform_partition.py:58-64 | A list field is encoded exactly when present and non-empty, as the array of its items. |
| SolrTransform.AuthorshipsText | processors/solr/transform_partition.py:58-60 | Authorships are encoded exactly when present and non-empty. |
| SolrTransform.IsPrimaryByKey | processors/solr/transform_partition.py:67-73 | A location is primary exactly when both sources are present and source id, source name, pdf URL and version agree. |
| SolrTransform.SamePrimaryRule | processors/solr/transform_partition.py:67-73 | On the same keys, the solr rule coincides with the postgres rule of flatten_partition.py:714-720. |
| SolrTransform.LocationOutOf | processors/solr/transform_partition.py:65-79 | The output location copies the six location fields and adds `is_primary`. |
| SolrTransform.LocationsText | processors/solr/transform_partition.py:62-80 | Corrected: locations are encoded exactly when present and non-empty. |
| SolrTransform.LocationsAsWritten | processors/solr/transform_partition.py:62-80 | As written: a work with locations raises `AttributeError` on `primary_location`, which the solr `Work` does not declare (structs.py:98). |
| SolrTransform.LocatedWorksRaiseAsWritten | processors/solr/transform_partition.py:62-80 | As written, the code raises exactly where the corrected one would encode locations. Otherwise both agree. |
| SolrTransform.BiblioText | processors/solr/transform_partition.py:82-84 | Biblio is encoded exactly when present with a volume. |
| SolrTransform.MagRoundTrip | processors/solr/transform_partition.py:90 | `str(mag)` reads back to `mag`. It is `"None"` exactly when there is no mag id. |
| Text.DecimalRoundTrip | processors/solr/transform_partition.py:90 | `str(i)` reads back to `i`. |
| SolrTransform.IdColumns | processors/solr/transform_partition.py:86-92 | Without ids, all three columns are `None`. Otherwise mag is `str(mag)`, and pmid and pmcid are copied. |
| SolrTransform.Document | processors/solr/transform_partition.py:94-115 | Corrected: the document's id is `strip_id(id)` and its abstract is the one read. Display name, title, citation count, dates, DOI, the three flags, language, year and type are copied from the work. `title_abstract`, `biblio`, the three id columns, `authorships` and `locations` are what their own functions give. Each text field is set exactly when the source's rule says so. |
| SolrTransform.DocumentAsWritten | processors/solr/transform_partition.py:62-115 | As written, building the document raises exactly for works with locations. |
| SolrTransform.AsWrittenAgreesWithoutLocations | processors/solr/transform_partition.py:62-115 | For works without locations, the code as written gives the corrected document. |
| SolrTransform.OutputLine | processors/solr/transform_partition.py:117-119 | Each output line ends with a newline. |
| SolrTransform.WriterOf | processors/solr/transform_partition.py:94-119 | Corrected: The per-work line and abstract flag of the transform. |
| SolrTransform.OneLinePerWork | processors/solr/transform_partition.py:28-121 | Corrected: When every line decodes, the loop writes one document line per work, in order. It counts every work, and the works with an abstract. |
| SolrTransform.TransformedStopsAtFault | processors/solr/transform_partition.py:30-34 | After a decode failure, nothing more is written or counted. |
| SolrTransform.UndecodableLineAborts | processors/solr/transform_partition.py:28-34 | Corrected: At the first undecodable line `k`, `k` lines have been written and `k + 1` works counted, and that `DecodeError` is raised. |
| SolrTransform.AbstractsAtMostWorks | processors/solr/transform_partition.py:23-47 | Abstracts never outnumber works. Lines written never outnumber works counted. |
| SolrTransform.DocumentLines | processors/solr/transform_partition.py:117-119 | One line per work. |
| SolrTransform.AbstractCount | processors/solr/transform_partition.py:46-47 | The abstract count is at most the number of works. |
| SolrTransform.EncodeDocument | processors/solr/transform_partition.py:35-119 | Corrected: One iteration's abstract flag, and its buffer, which holds the document line. |
| SolrTransform.Consume | processors/solr/transform_partition.py:28-119 | Corrected: One loop iteration advances the written lines and both counters as `Advance` says. After it, the buffer holds the last line written. |
| SolrTransform.TransformPartition | processors/solr/transform_partition.py:18-121 | Corrected: `transform_partition` computes `Transformed`: the written lines, `n_works`, `n_abstracts` and the exception. |
| SolrTransform.AsWrittenAgreesBeforeLocated | processors/solr/transform_partition.py:28-119 | As written: until a work with a non-empty `locations` list comes up, the loop writes and counts exactly as the corrected loop does. |
| SolrTransform.AsWrittenStopsAtFault | processors/solr/transform_partition.py:28-119 | As written: once the loop has raised, no later line changes anything. |
| SolrTransform.AsWrittenRaisesAtFirstLocated | processors/solr/transform_partition.py:29-80 | As written: at the first located work `k`, the documents of the `k` works before it have been written, `k + 1` works are counted, and the `AttributeError` on `primary_location` is raised. |

## Left out

- Decoding, encoding and compression: gzip, msgspec JSON decoding of records,
  CSV quoting, and the JSON encoder. Decoded records, parsed manifest rows and
  an encoder function are parameters.
- The Cython `invert` (shared/cyth/invert_index) is not part of this model. It
  is a parameter that yields a text or a `DecodeError`. The postgres code calls
  it with one argument (processors/postgres/flatten_partition.py:631) and the
  solr code with two (processors/solr/transform_partition.py:42). One abstract
  function per call site cannot tell whether those two calls would agree, so
  the model says nothing about how the two relate.
- Concurrency: `multiprocessing.Pool` is modelled by the jobs it is handed
  and whether any of them raises. Order and interleaving are not modelled.
- File-system effects: globbing, `exists`/`stat`, `mkdir`, opening files.
  Found paths and file sizes are parameters. `preserve_ram` only chooses
  between streaming and `readlines()`, and it does not change results.
- Logging, timing, `print(line)` before a re-raise, and the command-line
  entry points (update_postgres.py, update_solr.py, the `__main__` blocks).
- Configuration: `settings.pg_schema` is the constant `openalex`. The snapshot
  path and `last_update` are parameters.
- Floating-point values are opaque tokens copied into cells. They are the
  concept and goal scores, `yr_mean_citedness`, and the geo latitude and
  longitude. `value_usd` of an APC is an `int | None`, and it is modelled as an
  integer cell.
- The counters after an exception: the source reports nothing then, so the
  model keeps them only for the proofs.
- transform_partition.py:12 imports `LocationOut`, which processors/solr/structs.py
  does not define. As written, importing processors/solr/transform_partition.py
  therefore raises `ImportError`, and so does update_solr.py, which imports it
  at line 9, before any work is read. The import itself is not modelled. The
  model defines `LocationOut` with the fields the code passes, and encodes it
  with `omit_defaults` like the other output structs. Every "as written"
  statement about the solr transform assumes that `LocationOut` is supplied.
- SolrStructs.AuthorshipJson: states only the number of members, not their
  values. The nested author and institution encodings are the encoder's
  business.
- Flatten.FixedOutputs: the file suffixes of the two added outputs
  (`_works_authorship_institutions.csv.gz`, `_works_sdgs.csv.gz`) follow the
  naming of the others. The source gives none.

## Findings

| source | as written | input that shows it | evidently intended | confidence | as-written member | corrected member |
|---|---|---|---|---|---|---|
| processors/solr/transform_partition.py:67-73 | `work.primary_location` is read, but the solr `Work` struct declares no such field (it is commented out at processors/solr/structs.py:98) | any work whose `locations` list is non-empty | compare each location against the work's primary location, and encode the locations | not executed | SolrTransform.LocationsAsWritten, SolrTransform.DocumentAsWritten, SolrTransform.LocatedWorksRaiseAsWritten, SolrTransform.AsWrittenRaisesAtFirstLocated | SolrTransform.LocationsText, SolrTransform.Document, SolrTransform.WriterOf, SolrTransform.OneLinePerWork, SolrTransform.UndecodableLineAborts, SolrTransform.TransformPartition |
| shared/util.py:22 | `gzip.open(file, 'r', newline='')`: mode `'r'` is binary for `gzip.open`, and a `newline` argument in binary mode raises `ValueError` | any non-empty list of merge manifests | open the manifest in text mode (`'rt'`), so `csv.reader` reads the rows and the ids are yielded | not executed | Util.GetIdsToDeleteAsWritten, Util.GetIdsToDeleteAsWrittenFails, Deletion.MergeScriptAsWritten | Util.GetIdsToDelete, Util.GetIdsToDeleteUntilFault, Deletion.MergeScriptIsDeletions, Deletion.GenerateDeletionsFromMergeFile, Flatten.FlattenEntity |
| processors/postgres/flatten.py:206-217 | the works job dictionaries lack `out_m2m_authorship_institutions` and `out_m2m_sdgs`, which `flatten_works_partition` requires (flatten_partition.py:554-566) | any new works partition, run with `parallelism=1` | pass an output path for every parameter, so every works job binds | not executed | Flatten.WorksJobsMissTwoOutputs, Flatten.WorksRunStopsAtFirstJob | Flatten.FixedOutputs, Flatten.FixedJobsBind, Flatten.FlattenEntity |
