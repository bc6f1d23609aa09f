/** processors/postgres/deletion.py: `DELETE` statements for the rows an
    entity owns, one statement per batch of ids and per table of the entity. */
module Deletion {
  import opened Wrappers
  import opened Errors
  import opened Text
  import opened Util

  /** The database schema (`settings.pg_schema`, default `openalex`). */
  const PgSchema: string := "openalex"

  /** The batch size the pipeline passes everywhere. */
  const BatchSize: int := 1000

  /** `table_map`: the tables holding rows of an entity, each with the column
      that refers to the entity. The first one is the entity's own table,
      keyed by `id`. */
  function TableMap(t: ObjectType): (r: seq<(string, string)>)
    ensures |r| >= 1
    ensures r[0] == (PrimaryTable(t), "id")
  {
    match t
    case Author => [("authors", "id")]
    case Institution => [("institutions", "id"), ("institutions_association", "institution_a_id"),
                         ("institutions_concept", "institution_id")]
    case Publisher => [("publishers", "id")]
    case Source => [("sources", "id")]
    case Concept => [("concepts", "id"), ("concepts_ancestor", "concept_a_id"), ("concepts_related", "concept_a_id")]
    case Funder => [("funders", "id")]
    case Work => [("works", "id"), ("works_authorships", "work_id"), ("works_concepts", "work_id"),
                  ("works_locations", "work_id"), ("works_references", "work_a_id"), ("works_related", "work_a_id")]
  }

  /** The entity's own table: its type name in the plural. */
  function PrimaryTable(t: ObjectType): (r: string)
    ensures r == TypeLiteral(t) + "s"
  {
    match t
    case Author => "authors"
    case Institution => "institutions"
    case Publisher => "publishers"
    case Source => "sources"
    case Concept => "concepts"
    case Funder => "funders"
    case Work => "works"
  }

  /** The table names of `TableMap(t)`. */
  function Tables(t: ObjectType): (r: seq<string>)
    ensures |r| == |TableMap(t)|
    ensures forall i :: 0 <= i < |r| ==> r[i] == TableMap(t)[i].0
  {
    seq(|TableMap(t)|, i requires 0 <= i < |TableMap(t)| => TableMap(t)[i].0)
  }

  /** `filter_none`: the present values, in order. */
  function FilterNone(xs: seq<Option<string>>): (r: seq<string>)
    ensures |r| <= |xs|
    ensures forall x :: x in r <==> Some(x) in xs
    decreases |xs|
  {
    if |xs| == 0 then []
    else
      assert xs == [xs[0]] + xs[1..];
      match xs[0]
      case Some(x) => [x] + FilterNone(xs[1..])
      case None => FilterNone(xs[1..])
  }

  /** Filtering works element by element, so the present values keep their
      order. */
  lemma {:induction false} FilterNoneAppend(a: seq<Option<string>>, b: seq<Option<string>>)
    ensures FilterNone(a + b) == FilterNone(a) + FilterNone(b)
    decreases |a|
  {
    if |a| == 0 {
      assert a + b == b;
    } else {
      assert (a + b)[1..] == a[1..] + b;
      FilterNoneAppend(a[1..], b);
    }
  }

  /** A single element is kept exactly when it is present. */
  lemma FilterNoneSingle(x: Option<string>)
    ensures FilterNone([x]) == if x.Some? then [x.value] else []
  {
    assert [x][1..] == [];
  }

  /** `[Some(x) for x in xs]`: a list in which nothing is missing. */
  function Somes<T>(xs: seq<T>): (r: seq<Option<T>>)
    ensures |r| == |xs|
    ensures forall i :: 0 <= i < |xs| ==> r[i] == Some(xs[i])
  {
    seq(|xs|, i requires 0 <= i < |xs| => Some(xs[i]))
  }

  /** Filtering a list in which nothing is missing gives the list back. */
  lemma {:induction false} FilterSomes(xs: seq<string>)
    ensures FilterNone(Somes(xs)) == xs
    decreases |xs|
  {
    if |xs| > 0 {
      FilterSomes(xs[1..]);
      assert Somes(xs)[1..] == Somes(xs[1..]);
    }
  }

  /** The text of one statement over the ids of a batch. */
  function Statement(table: string, key: string, ids: seq<string>): string {
    DeleteIn(table, key, Join(ids, "','"))
  }

  /** The statement deleting the rows of `table` whose `key` is in the quoted,
      already joined `idList`. */
  function DeleteIn(table: string, key: string, idList: string): string {
    "DELETE FROM " + PgSchema + "." + table + " t WHERE t." + key + " IN ('" + idList + "');"
  }

  /** The `(table, key)` pairs of an entity. */
  type TableList = seq<(string, string)>

  /** The statements of one batch: one per table of the entity, in map order.
      A helper; what the statements say is stated by `StatementsAt` and
      `DeletionsShape`. */
  function BatchStatements(batch: seq<Option<string>>, m: TableList): (r: seq<string>)
    ensures |r| == |m|
    ensures forall k :: 0 <= k < |r| ==> r[k] == Statement(m[k].0, m[k].1, FilterNone(batch))
  {
    seq(|m|, k requires 0 <= k < |m| => Statement(m[k].0, m[k].1, FilterNone(batch)))
  }

  /** The statements for a list of batches, batch after batch. */
  function StatementsOf(batches: seq<seq<Option<string>>>, m: TableList): seq<string>
    decreases |batches|
  {
    if |batches| == 0 then [] else BatchStatements(batches[0], m) + StatementsOf(batches[1..], m)
  }

  /** What `generate_deletions(ids, t, bs)` yields. */
  function Deletions(ids: seq<Option<string>>, t: ObjectType, bs: int): seq<string> {
    StatementsOf(Batched(ids, bs), TableMap(t))
  }

  /** There are as many statements as batches times tables. */
  lemma {:induction false} StatementsCount(batches: seq<seq<Option<string>>>, m: TableList)
    ensures |StatementsOf(batches, m)| == |batches| * |m|
    decreases |batches|
  {
    if |batches| > 0 {
      StatementsCount(batches[1..], m);
    }
  }

  /** The position of statement `k` of batch `b` when every batch gives
      `width` statements. */
  function Slot(b: nat, k: nat, width: nat): nat {
    b * width + k
  }

  /** Statement `k` of batch `b` sits at position `b * |m| + k` and deletes the
      present ids of that batch from table `k`. */
  lemma {:induction false} StatementsAt(batches: seq<seq<Option<string>>>, m: TableList, b: nat, k: nat)
    requires b < |batches| && k < |m|
    ensures Slot(b, k, |m|) < |StatementsOf(batches, m)|
    ensures StatementsOf(batches, m)[Slot(b, k, |m|)] == Statement(m[k].0, m[k].1, FilterNone(batches[b]))
    decreases b
  {
    StatementsCount(batches, m);
    MulLe(b + 1, |batches|, |m|);
    if b > 0 {
      StatementsCount(batches[1..], m);
      StatementsAt(batches[1..], m, b - 1, k);
      assert Slot(b, k, |m|) == |m| + Slot(b - 1, k, |m|);
    }
  }

  lemma MulLe(a: nat, b: nat, m: nat)
    requires a <= b
    ensures a * m <= b * m
  {
  }

  lemma {:induction false} StatementsAppend(a: seq<seq<Option<string>>>, b: seq<seq<Option<string>>>, m: TableList)
    ensures StatementsOf(a + b, m) == StatementsOf(a, m) + StatementsOf(b, m)
    decreases |a|
  {
    if |a| == 0 {
      assert a + b == b;
    } else {
      assert (a + b)[1..] == a[1..] + b;
      StatementsAppend(a[1..], b, m);
    }
  }

  /** The statements of `batches` over `m`: batch after batch, table after table. */
  lemma StatementsShape(batches: seq<seq<Option<string>>>, m: TableList)
    ensures |StatementsOf(batches, m)| == |batches| * |m|
    ensures forall b: nat, k: nat :: b < |batches| && k < |m| ==>
              Slot(b, k, |m|) < |StatementsOf(batches, m)| &&
              StatementsOf(batches, m)[Slot(b, k, |m|)] == Statement(m[k].0, m[k].1, FilterNone(batches[b]))
  {
    StatementsCount(batches, m);
    forall b: nat, k: nat | b < |batches| && k < |m|
      ensures Slot(b, k, |m|) < |StatementsOf(batches, m)| &&
              StatementsOf(batches, m)[Slot(b, k, |m|)] == Statement(m[k].0, m[k].1, FilterNone(batches[b]))
    {
      StatementsAt(batches, m, b, k);
    }
  }

  /** `generate_deletions`: the number of statements is the number of batches
      times the number of tables, and statement `k` of batch `b`, at position
      `b * |TableMap(t)| + k`, deletes the present ids of that batch from the
      `k`-th table of the map. */
  lemma DeletionsShape(ids: seq<Option<string>>, t: ObjectType, bs: int)
    ensures |Deletions(ids, t, bs)| == |Batched(ids, bs)| * |TableMap(t)|
    ensures forall b: nat, k: nat :: b < |Batched(ids, bs)| && k < |TableMap(t)| ==>
              Slot(b, k, |TableMap(t)|) < |Deletions(ids, t, bs)| &&
              Deletions(ids, t, bs)[Slot(b, k, |TableMap(t)|)]
              == Statement(TableMap(t)[k].0, TableMap(t)[k].1, FilterNone(Batched(ids, bs)[b]))
  {
    StatementsShape(Batched(ids, bs), TableMap(t));
  }

  /** A statement over no ids deletes with an empty list `IN ('')`. */
  lemma StatementOfNothing(table: string, key: string)
    ensures Statement(table, key, []) == "DELETE FROM openalex." + table + " t WHERE t." + key + " IN ('');"
  {
    assert Join([], "','") == "";
  }

  /** An empty list of ids still yields one batch, hence one statement per
      table, each over no ids. */
  lemma DeletionsOfNothing(t: ObjectType, bs: int)
    ensures Deletions([], t, bs) == BatchStatements([], TableMap(t))
    ensures forall k :: 0 <= k < |TableMap(t)| ==> Deletions([], t, bs)[k] == Statement(TableMap(t)[k].0, TableMap(t)[k].1, [])
  {
    var m := TableMap(t);
    var none: seq<Option<string>> := [];
    assert Batched(none, bs) == [none];
    assert StatementsOf([none], m) == BatchStatements(none, m) + StatementsOf([], m);
  }

  /** The statements for `batches`, written by two nested loops: over the
      batches, then over the tables. */
  method EmitStatements(batches: seq<seq<Option<string>>>, m: TableList) returns (out: seq<string>)
    ensures out == StatementsOf(batches, m)
  {
    out := [];
    for b := 0 to |batches|
      invariant out == StatementsOf(batches[..b], m)
    {
      var idList := Join(FilterNone(batches[b]), "','");
      var done := out;
      ghost var stmts := BatchStatements(batches[b], m);
      for k := 0 to |m|
        invariant out == done + stmts[..k]
      {
        out := out + [DeleteIn(m[k].0, m[k].1, idList)];
        assert stmts[..k + 1] == stmts[..k] + [stmts[k]];
      }
      assert stmts[..|m|] == stmts;
      assert batches[..b + 1] == batches[..b] + [batches[b]];
      StatementsAppend(batches[..b], [batches[b]], m);
      assert StatementsOf([batches[b]], m) == stmts + StatementsOf([], m);
    }
    assert batches[..|batches|] == batches;
  }

  /** `generate_deletions(ids, t, bs)`. */
  method GenerateDeletions(ids: seq<Option<string>>, t: ObjectType, bs: int) returns (out: seq<string>)
    ensures out == Deletions(ids, t, bs)
  {
    var batches := BatchList(ids, bs);
    out := EmitStatements(batches, TableMap(t));
  }

  /** The text of a script holding `stmts`, each followed by a line break. */
  function Script(stmts: seq<string>): string
    decreases |stmts|
  {
    if |stmts| == 0 then "" else stmts[0] + "\n" + Script(stmts[1..])
  }

  lemma {:induction false} ScriptAppend(stmts: seq<string>, more: seq<string>)
    ensures Script(stmts + more) == Script(stmts) + Script(more)
    decreases |stmts|
  {
    if |stmts| == 0 {
      assert stmts + more == more;
    } else {
      assert (stmts + more)[1..] == stmts[1..] + more;
      ScriptAppend(stmts[1..], more);
    }
  }

  lemma ScriptSnoc(stmts: seq<string>, s: string)
    ensures Script(stmts + [s]) == Script(stmts) + (s + "\n")
  {
    ScriptAppend(stmts, [s]);
    assert Script([s]) == s + "\n" + Script([]);
  }

  /** The merge-file script of one entity type: the text written and the
      exception that ended it, if any. */
  function MergeScript(files: seq<CsvRows>, t: ObjectType, bs: int): (string, Option<Fault>) {
    MergeScriptOf(GetIdsToDelete(files), t, bs)
  }

  /** The merge-file script over a given stream of merged ids. */
  function MergeScriptOf(ids: Stream<string>, t: ObjectType, bs: int): (string, Option<Fault>) {
    var b := BatchedStream(Stream(Somes(ids.items), ids.fault), bs);
    (Script(StatementsOf(b.items, TableMap(t))), b.fault)
  }

  /** With `get_ids_to_delete` as written, any manifest at all leaves the
      merge file empty and ends it with the `ValueError`; without manifests
      the script is the intended one. */
  lemma MergeScriptAsWritten(files: seq<CsvRows>, t: ObjectType, bs: int)
    ensures |files| > 0 ==> MergeScriptOf(GetIdsToDeleteAsWritten(files), t, bs) == ("", Some(NewlineInBinaryMode))
    ensures |files| == 0 ==> MergeScriptOf(GetIdsToDeleteAsWritten(files), t, bs) == MergeScript(files, t, bs)
  {
    var ids := GetIdsToDeleteAsWritten(files);
    var b := BatchedStream(Stream(Somes(ids.items), ids.fault), bs);
    if |files| > 0 {
      BatchedCount(Somes(ids.items), bs);
      assert b.items == [];
    }
  }

  /** Writes the statements of one batch after `before`, one per line. */
  method WriteBatch(before: string, batch: seq<Option<string>>, m: TableList) returns (text: string)
    ensures text == before + Script(BatchStatements(batch, m))
  {
    var idList := Join(FilterNone(batch), "','");
    ghost var stmts := BatchStatements(batch, m);
    text := before;
    for k := 0 to |m|
      invariant text == before + Script(stmts[..k])
    {
      var stmt := DeleteIn(m[k].0, m[k].1, idList);
      assert stmt == stmts[k];
      assert stmts[..k + 1] == stmts[..k] + [stmt];
      ScriptSnoc(stmts[..k], stmt);
      text := text + (stmt + "\n");
    }
    assert stmts[..|m|] == stmts;
  }

  /** Writes the statements for `batches`, each followed by a line break. */
  method WriteStatements(batches: seq<seq<Option<string>>>, m: TableList) returns (text: string)
    ensures text == Script(StatementsOf(batches, m))
  {
    text := "";
    for b := 0 to |batches|
      invariant text == Script(StatementsOf(batches[..b], m))
    {
      text := WriteBatch(text, batches[b], m);
      assert batches[..b + 1] == batches[..b] + [batches[b]];
      StatementsAppend(batches[..b], [batches[b]], m);
      assert StatementsOf([batches[b]], m) == BatchStatements(batches[b], m) + StatementsOf([], m);
      assert StatementsOf([batches[b]], m) == BatchStatements(batches[b], m);
      ScriptAppend(StatementsOf(batches[..b], m), BatchStatements(batches[b], m));
    }
    assert batches[..|batches|] == batches;
  }

  /** `generate_deletions_from_merge_file`: the statements of every batch the
      merged-id stream yields, one per line, then the exception that ended the
      stream, if any. */
  method GenerateDeletionsFromMergeFile(files: seq<CsvRows>, t: ObjectType, bs: int)
    returns (text: string, fault: Option<Fault>)
    ensures (text, fault) == MergeScript(files, t, bs)
  {
    var ids := GetIdsToDelete(files);
    var stream := BatchedStream(Stream(Somes(ids.items), ids.fault), bs);
    text := WriteStatements(stream.items, TableMap(t));
    fault := stream.fault;
  }

  /** When every manifest is readable, the merge file holds exactly the
      statements `generate_deletions` yields for the merged ids, one per line. */
  lemma MergeScriptIsDeletions(files: seq<CsvRows>, t: ObjectType, bs: int)
    requires forall i :: 0 <= i < |files| ==> Readable(files[i])
    ensures MergeScript(files, t, bs) == (Script(Deletions(Somes(GetIdsToDelete(files).items), t, bs)), None)
  {
  }

  /** When a manifest cannot be read, the statements of the batches completed
      before it are written, the partial last batch is not, and the exception
      ends the script. */
  lemma MergeScriptOnFault(files: seq<CsvRows>, t: ObjectType, bs: int)
    requires exists i :: 0 <= i < |files| && !Readable(files[i])
    ensures var ids := Somes(GetIdsToDelete(files).items);
            var b := Batched(ids, bs);
            && MergeScript(files, t, bs).1.Some?
            && MergeScript(files, t, bs).0 + Script(BatchStatements(b[|b| - 1], TableMap(t)))
               == Script(Deletions(ids, t, bs))
  {
    var m := TableMap(t);
    var ids := Somes(GetIdsToDelete(files).items);
    var b := Batched(ids, bs);
    BatchedCount(ids, bs);
    assert GetIdsToDelete(files).fault.Some?;
    var stream := BatchedStream(Stream(ids, GetIdsToDelete(files).fault), bs);
    assert stream.items == b[..|b| - 1];
    assert b == b[..|b| - 1] + [b[|b| - 1]];
    StatementsAppend(b[..|b| - 1], [b[|b| - 1]], m);
    assert StatementsOf([b[|b| - 1]], m) == BatchStatements(b[|b| - 1], m) + StatementsOf([], m);
    assert StatementsOf([b[|b| - 1]], m) == BatchStatements(b[|b| - 1], m);
    assert Deletions(ids, t, bs) == StatementsOf(b[..|b| - 1], m) + BatchStatements(b[|b| - 1], m);
    ScriptAppend(StatementsOf(b[..|b| - 1], m), BatchStatements(b[|b| - 1], m));
  }
}
