/** shared/util.py: the object types, partition selection, reading merged ids,
    the identifier normaliser and batching. */
module Util {
  import opened Wrappers
  import opened Errors
  import opened Text
  import opened Paths

  /** `ObjectType`: the seven entity kinds of the snapshot. */
  datatype ObjectType = Work | Author | Funder | Publisher | Source | Institution | Concept

  /** The literal spelling of an object type, as used in directory and file names. */
  function TypeLiteral(t: ObjectType): string {
    match t
    case Work => "work"
    case Author => "author"
    case Funder => "funder"
    case Publisher => "publisher"
    case Source => "source"
    case Institution => "institution"
    case Concept => "concept"
  }

  /** What a generator produced: the items it yielded, and the exception it
      raised afterwards, if any. */
  datatype Stream<T> = Stream(items: seq<T>, fault: Option<Fault>)

  /** Concatenation of a list of lists. */
  function Flatten<T>(ss: seq<seq<T>>): seq<T>
    decreases |ss|
  {
    if |ss| == 0 then [] else ss[0] + Flatten(ss[1..])
  }

  lemma {:induction false} FlattenAppend<T>(ss: seq<seq<T>>, s: seq<T>)
    ensures Flatten(ss + [s]) == Flatten(ss) + s
    decreases |ss|
  {
    if |ss| == 0 {
      assert ss + [s] == [s];
    } else {
      assert (ss + [s])[1..] == ss[1..] + [s];
      FlattenAppend(ss[1..], s);
    }
  }

  lemma {:induction false} FlattenConcat<T>(a: seq<seq<T>>, b: seq<seq<T>>)
    ensures Flatten(a + b) == Flatten(a) + Flatten(b)
    decreases |a|
  {
    if |a| == 0 {
      assert a + b == b;
    } else {
      assert (a + b)[1..] == a[1..] + b;
      FlattenConcat(a[1..], b);
    }
  }

  // ---------------------------------------------------------------- get_globs

  /** A partition file is new when the name of its `updated_date=...` directory
      sorts after the one for the watermark date. */
  predicate IsNewPartition(p: Path, since: string) {
    StrLess("updated_date=" + since, Name(Parent(p)))
  }

  /** A merge manifest is new when its file name sorts after `<since>.csv.gz`. */
  predicate IsNewMergeFile(m: Path, since: string) {
    StrLess(since + ".csv.gz", Name(m))
  }

  function KeepNewPartitions(found: seq<Path>, since: string): (r: seq<Path>)
    ensures forall p :: p in r <==> p in found && IsNewPartition(p, since)
    ensures multiset(r) <= multiset(found)
    decreases |found|
  {
    if |found| == 0 then []
    else
      var rest := KeepNewPartitions(found[1..], since);
      assert found == [found[0]] + found[1..];
      if IsNewPartition(found[0], since) then [found[0]] + rest else rest
  }

  function KeepNewMergeFiles(found: seq<Path>, since: string): (r: seq<Path>)
    ensures forall m :: m in r <==> m in found && IsNewMergeFile(m, since)
    ensures multiset(r) <= multiset(found)
    decreases |found|
  {
    if |found| == 0 then []
    else
      var rest := KeepNewMergeFiles(found[1..], since);
      assert found == [found[0]] + found[1..];
      if IsNewMergeFile(found[0], since) then [found[0]] + rest else rest
  }

  /** `get_globs` over the paths the two globs found: the new partitions and
      the new merge manifests, each list sorted. */
  function GetGlobs(partitions: seq<Path>, mergeFiles: seq<Path>, since: string)
    : (r: (seq<Path>, seq<Path>))
    ensures Sorted(r.0) && Sorted(r.1)
    ensures forall p :: p in r.0 <==> p in partitions && IsNewPartition(p, since)
    ensures forall m :: m in r.1 <==> m in mergeFiles && IsNewMergeFile(m, since)
    ensures multiset(r.0) <= multiset(partitions) && multiset(r.1) <= multiset(mergeFiles)
  {
    var ps := KeepNewPartitions(partitions, since);
    var ms := KeepNewMergeFiles(mergeFiles, since);
    var sp, sm := Sort(ps), Sort(ms);
    assert forall p :: p in sp <==> p in ps by {
      forall p ensures p in sp <==> p in ps {
        assert p in sp <==> p in multiset(sp);
        assert p in ps <==> p in multiset(ps);
      }
    }
    assert forall m :: m in sm <==> m in ms by {
      forall m ensures m in sm <==> m in ms {
        assert m in sm <==> m in multiset(sm);
        assert m in ms <==> m in multiset(ms);
      }
    }
    (sp, sm)
  }

  // -------------------------------------------------------- get_ids_to_delete

  /** A merge manifest as parsed CSV rows: a header row first, then
      `merge_date,id,merge_into_id` rows. */
  type CsvRows = seq<seq<string>>

  /** A manifest from which the ids can be read: it has a header row and every
      later row has at least two fields. */
  predicate Readable(rows: CsvRows) {
    |rows| > 0 && forall j :: 1 <= j < |rows| ==> |rows[j]| >= 2
  }

  /** The `id` column of every row after the header. */
  function IdColumn(rows: CsvRows): (r: seq<string>)
    requires Readable(rows)
    ensures |r| == |rows| - 1
    ensures forall j :: 0 <= j < |r| ==> r[j] == rows[j + 1][1]
  {
    seq(|rows| - 1, j requires 0 <= j < |rows| - 1 => rows[j + 1][1])
  }

  /** The ids of one manifest, read row by row: `next(reader)` fails on an
      empty file and `row[1]` on a short row. The whole file is read before
      any of its ids is yielded. */
  function ReadIds(rows: CsvRows): (r: Result<seq<string>, Fault>)
    ensures r.Success? <==> Readable(rows)
    ensures r.Success? ==> r.value == IdColumn(rows)
  {
    if |rows| == 0 then Failure(MissingHeader)
    else ReadRows(rows[1..])
  }

  /** `[row[1] for row in reader]` over the rows after the header. */
  function ReadRows(body: CsvRows): (r: Result<seq<string>, Fault>)
    ensures r.Success? <==> forall j :: 0 <= j < |body| ==> |body[j]| >= 2
    ensures r.Success? ==> r.value == seq(|body|, j requires 0 <= j < |body| => body[j][1])
    decreases |body|
  {
    if |body| == 0 then Success([])
    else if |body[0]| < 2 then Failure(RowTooShort)
    else
      match ReadRows(body[1..])
      case Failure(f) => Failure(f)
      case Success(ids) => Success([body[0][1]] + ids)
  }

  /** `get_ids_to_delete`: the ids of all manifests, files in the given order.
      A file that cannot be read ends the stream with its exception, after the
      ids of the files before it. */
  function GetIdsToDelete(files: seq<CsvRows>): (r: Stream<string>)
    ensures r.fault.None? <==> forall i :: 0 <= i < |files| ==> Readable(files[i])
    ensures r.fault.None? ==>
              r.items == Flatten(seq(|files|, i requires 0 <= i < |files| && Readable(files[i]) => IdColumn(files[i])))
    decreases |files|
  {
    if |files| == 0 then Stream([], None)
    else match ReadIds(files[0])
      case Failure(f) => Stream([], Some(f))
      case Success(ids) =>
        var rest := GetIdsToDelete(files[1..]);
        assert forall i :: 0 <= i < |files[1..]| ==> files[1..][i] == files[i + 1];
        if rest.fault.None? then
          ghost var whole := seq(|files|, i requires 0 <= i < |files| && Readable(files[i]) => IdColumn(files[i]));
          ghost var tail := seq(|files[1..]|, i requires 0 <= i < |files[1..]| && Readable(files[1..][i]) => IdColumn(files[1..][i]));
          assert whole[1..] == tail;
          Stream(ids + rest.items, None)
        else
          Stream(ids + rest.items, rest.fault)
  }

  /** A manifest that cannot be read ends the stream with its own exception,
      after the ids of all the files before it, in order. */
  lemma {:induction false} GetIdsToDeleteUntilFault(files: seq<CsvRows>, k: nat)
    requires k < |files| && !Readable(files[k])
    requires forall i :: 0 <= i < k ==> Readable(files[i])
    ensures GetIdsToDelete(files).fault == Some(ReadIds(files[k]).error)
    ensures GetIdsToDelete(files).items ==
              Flatten(seq(k, i requires 0 <= i < k && Readable(files[i]) => IdColumn(files[i])))
    decreases k
  {
    if k > 0 {
      GetIdsToDeleteUntilFault(files[1..], k - 1);
      ghost var before := seq(k, i requires 0 <= i < k && Readable(files[i]) => IdColumn(files[i]));
      ghost var after := seq(k - 1, i requires 0 <= i < k - 1 && Readable(files[1..][i]) => IdColumn(files[1..][i]));
      assert before[1..] == after;
    }
  }

  /** `get_ids_to_delete` as written: `gzip.open(file, 'r', newline='')`
      opens the file in binary mode, where a `newline` argument raises a
      `ValueError` before anything is read. The first manifest therefore
      ends the stream, and no id is ever yielded. */
  function GetIdsToDeleteAsWritten(files: seq<CsvRows>): (r: Stream<string>)
    ensures r.items == []
    ensures r.fault.Some? <==> |files| > 0
    ensures |files| == 0 ==> r == GetIdsToDelete(files)
  {
    if |files| == 0 then Stream([], None) else Stream([], Some(NewlineInBinaryMode))
  }

  /** As written, even manifests that are all readable give no id and an
      exception, where the intended reading gives all their ids. */
  lemma GetIdsToDeleteAsWrittenFails(files: seq<CsvRows>)
    requires |files| > 0 && forall i :: 0 <= i < |files| ==> Readable(files[i])
    ensures GetIdsToDeleteAsWritten(files).fault == Some(NewlineInBinaryMode)
    ensures GetIdsToDelete(files).fault.None?
    ensures |GetIdsToDelete(files).items| >= |files[0]| - 1
  {
    var rest := GetIdsToDelete(files[1..]);
    assert forall i :: 0 <= i < |files[1..]| ==> Readable(files[1..][i]);
  }

  // ----------------------------------------------------------------- strip_id

  /** `strip_id`: drop the 21-character `https://openalex.org/` prefix. The
      inner pass-through branch cannot be reached, so strings of 20 characters
      or fewer map to `None` rather than to themselves. */
  function StripId(s: Option<string>): (r: Option<string>)
    ensures r.Some? <==> s.Some? && |s.value| > 20
    ensures r.Some? ==> |r.value| == |s.value| - 21 && s.value == s.value[..21] + r.value
  {
    if s.Some? && |s.value| > 20 then
      var v := s.value;
      if |v| > 20 then Some(v[21..])
      else if |v| > 0 then Some(v)
      else None
    else None
  }

  /** `s[21:]` on a string: unlike `StripId`, a short string gives `""`. */
  function Tail21(s: string): (r: string)
    ensures |s| > 21 ==> |r| == |s| - 21
    ensures |s| >= 21 ==> r == s[21..] && s == s[..21] + r
    ensures |s| <= 21 ==> r == ""
  {
    if |s| >= 21 then s[21..] else ""
  }

  // ------------------------------------------------------------------ batched

  /** The number of items after which `batched` yields: `cnt > bs` first holds
      at `cnt == bs + 1` (at 1 when `bs` is negative). */
  function Cap(bs: int): (n: nat)
    ensures n >= 1
    ensures bs >= 0 ==> n == bs + 1
  {
    if bs >= 0 then bs + 1 else 1
  }

  /** The batches `batched(it, bs)` yields: full groups of `Cap(bs)` items as
      soon as they are complete, then whatever remains, even nothing. */
  function Batched<T>(it: seq<T>, bs: int): seq<seq<T>>
    decreases |it|
  {
    if |it| >= Cap(bs) then [it[..Cap(bs)]] + Batched(it[Cap(bs)..], bs) else [it]
  }

  /** The batches, in order, give back the input: nothing lost or repeated. */
  lemma {:induction false} BatchedConcat<T>(it: seq<T>, bs: int)
    ensures Flatten(Batched(it, bs)) == it
    decreases |it|
  {
    if |it| >= Cap(bs) {
      BatchedConcat(it[Cap(bs)..], bs);
      assert Batched(it, bs)[1..] == Batched(it[Cap(bs)..], bs);
      assert it[..Cap(bs)] + it[Cap(bs)..] == it;
    } else {
      assert Batched(it, bs)[1..] == [];
    }
  }

  /** There is one batch per complete group of `bs + 1` items, plus the last. */
  lemma {:induction false} BatchedCount<T>(it: seq<T>, bs: int)
    ensures |Batched(it, bs)| == |it| / Cap(bs) + 1
    decreases |it|
  {
    var n := Cap(bs);
    if |it| >= n {
      BatchedCount(it[n..], bs);
      DivStep(|it[n..]|, n);
    }
  }

  lemma DivStep(m: nat, n: nat)
    requires n >= 1
    ensures (m + n) / n == m / n + 1 && (m + n) % n == m % n
  {
    DivUnique(m + n, n, m / n + 1, m % n);
  }

  lemma DivUnique(m: int, n: int, q: int, r: int)
    requires n >= 1 && 0 <= r < n && m == q * n + r
    ensures q == m / n && r == m % n
  {
    var d := q - m / n;
    assert d * n == m % n - r;
    if d > 0 {
      MulAtLeast(d, n);
    } else if d < 0 {
      MulAtLeast(-d, n);
    }
  }

  lemma MulAtLeast(d: int, n: int)
    requires d >= 1 && n >= 1
    ensures d * n >= n
  {
  }

  /** Every batch but the last has exactly `bs + 1` items, and the last one
      has the remaining `|it| % (bs + 1)`: it is empty exactly when the length
      of the input is a multiple of `bs + 1`. */
  lemma {:induction false} BatchedShape<T>(it: seq<T>, bs: int)
    ensures var b := Batched(it, bs);
      && (forall k :: 0 <= k < |b| - 1 ==> |b[k]| == Cap(bs))
      && |b[|b| - 1]| == |it| % Cap(bs)
    decreases |it|
  {
    var n := Cap(bs);
    var b := Batched(it, bs);
    if |it| >= n {
      var rest := it[n..];
      BatchedShape(rest, bs);
      DivStep(|rest|, n);
      assert b == [it[..n]] + Batched(rest, bs);
      forall k | 0 <= k < |b| - 1 ensures |b[k]| == n {
        if k > 0 { assert b[k] == Batched(rest, bs)[k - 1]; }
      }
    }
  }

  /** A list of full batches followed by one short batch is what `batched`
      yields for their concatenation. */
  lemma {:induction false} BatchedOfFullBatches<T>(full: seq<seq<T>>, last: seq<T>, bs: int)
    requires forall k :: 0 <= k < |full| ==> |full[k]| == Cap(bs)
    requires |last| < Cap(bs)
    ensures Batched(Flatten(full) + last, bs) == full + [last]
    decreases |full|
  {
    if |full| > 0 {
      BatchedOfFullBatches(full[1..], last, bs);
      var it := Flatten(full) + last;
      assert it == full[0] + (Flatten(full[1..]) + last);
      assert it[..Cap(bs)] == full[0];
      assert it[Cap(bs)..] == Flatten(full[1..]) + last;
      assert full == [full[0]] + full[1..];
    } else {
      assert Flatten(full) + last == last;
    }
  }

  /** `batched(it, bs)` run over a list, with its `batch` list and `cnt`
      counter reset after every yield. */
  method BatchList<T>(it: seq<T>, bs: int) returns (batches: seq<seq<T>>)
    ensures batches == Batched(it, bs)
  {
    batches := [];
    var batch: seq<T> := [];
    var cnt := 0;
    for i := 0 to |it|
      invariant cnt == |batch| < Cap(bs)
      invariant forall k :: 0 <= k < |batches| ==> |batches[k]| == Cap(bs)
      invariant Flatten(batches) + batch == it[..i]
    {
      batch := batch + [it[i]];
      cnt := cnt + 1;
      assert it[..i + 1] == it[..i] + [it[i]];
      if cnt > bs {
        FlattenAppend(batches, batch);
        batches := batches + [batch];
        batch := [];
        cnt := 0;
      }
    }
    assert it[..|it|] == it;
    BatchedOfFullBatches(batches, batch, bs);
    batches := batches + [batch];
  }

  /** `batched` over a generator that may raise: every full batch is yielded
      before the next item is pulled, so when the source raises, the batches
      already yielded are the full ones and the last, partial batch is lost;
      the exception then passes through. */
  function BatchedStream<T>(s: Stream<T>, bs: int): (r: Stream<seq<T>>)
    ensures r.fault == s.fault
    ensures s.fault.None? ==> r.items == Batched(s.items, bs)
    ensures s.fault.Some? ==> r.items + [Batched(s.items, bs)[|Batched(s.items, bs)| - 1]] == Batched(s.items, bs)
  {
    var b := Batched(s.items, bs);
    BatchedCount(s.items, bs);
    if s.fault.None? then Stream(b, None) else Stream(b[..|b| - 1], s.fault)
  }
}
