/** The machinery every `flatten_*_partition` in
    processors/postgres/flatten_partition.py shares: CSV cell values and
    `DictWriter` rows, `fieldnames`, `prepare_list`, and the per-line loop that
    decodes a record, writes its rows, collects its id and finally writes the
    deletion and COPY scripts. */
module Rows {
  import opened Wrappers
  import opened Errors
  import opened Text
  import opened Paths
  import opened Util
  import opened Json
  import opened Deletion

  /** One CSV cell as the writer receives it; `None` and an absent key are
      both written as an empty field. */
  datatype Value = Null | Str(s: string) | Int(i: int) | Bool(b: bool) | Num(f: Float)

  /** The dictionary literal passed to `writerow`, as its key/value pairs in
      order; the literals of the flatteners never repeat a key. */
  type Row = seq<(string, Value)>

  type Fields = seq<string>

  function OStr(o: Option<string>): Value {
    if o.Some? then Str(o.value) else Null
  }

  function OInt(o: Option<int>): Value {
    if o.Some? then Int(o.value) else Null
  }

  function OBool(o: Option<bool>): Value {
    if o.Some? then Bool(o.value) else Null
  }

  function ONum(o: Option<Float>): Value {
    if o.Some? then Num(o.value) else Null
  }

  /** `row.get(key)`. */
  function Get(row: Row, key: string): (r: Option<Value>)
    ensures r.None? <==> forall i :: 0 <= i < |row| ==> row[i].0 != key
    ensures r.Some? ==> exists i :: 0 <= i < |row| && row[i] == (key, r.value)
    decreases |row|
  {
    if |row| == 0 then None
    else if row[0].0 == key then Some(row[0].1)
    else
      var r := Get(row[1..], key);
      if r.Some? then
        var i :| 0 <= i < |row[1..]| && row[1..][i] == (key, r.value);
        assert row[i + 1] == (key, r.value);
        r
      else r
  }

  /** The value under a key is that of its first entry. */
  lemma {:induction false} GetAt(row: Row, i: nat)
    requires i < |row|
    requires forall j :: 0 <= j < i ==> row[j].0 != row[i].0
    ensures Get(row, row[i].0) == Some(row[i].1)
    decreases i
  {
    if i > 0 {
      assert row[1..][i - 1] == row[i];
      GetAt(row[1..], i - 1);
    }
  }

  /** The cells `DictWriter(..., extrasaction='ignore')` writes for a row: one
      per field name, in field order, a missing key giving an empty cell and a
      key outside the field names being ignored. */
  function Project(fields: Fields, row: Row): (r: seq<Value>)
    ensures |r| == |fields|
    ensures forall i :: 0 <= i < |fields| ==> r[i] == (if Get(row, fields[i]).Some? then Get(row, fields[i]).value else Null)
  {
    seq(|fields|, i requires 0 <= i < |fields| => if Get(row, fields[i]).Some? then Get(row, fields[i]).value else Null)
  }

  /** Two rows with the same keys in the same order that agree on every key
      that is a field name. */
  predicate AgreeOn(fields: Fields, a: Row, b: Row) {
    |a| == |b| && forall i :: 0 <= i < |a| ==> a[i].0 == b[i].0 && (a[i].0 in fields ==> a[i].1 == b[i].1)
  }

  lemma {:induction false} GetAgrees(fields: Fields, a: Row, b: Row, key: string)
    requires AgreeOn(fields, a, b)
    requires key in fields
    ensures Get(a, key) == Get(b, key)
    decreases |a|
  {
    if |a| > 0 && a[0].0 != key {
      assert AgreeOn(fields, a[1..], b[1..]) by {
        forall i | 0 <= i < |a[1..]| ensures a[1..][i].0 == b[1..][i].0 && (a[1..][i].0 in fields ==> a[1..][i].1 == b[1..][i].1) {
          assert a[1..][i] == a[i + 1] && b[1..][i] == b[i + 1];
        }
      }
      GetAgrees(fields, a[1..], b[1..], key);
    }
  }

  /** Rows that differ in one entry whose key is not a field name. */
  lemma AgreeExceptAt(fields: Fields, a: Row, b: Row, j: nat)
    requires |a| == |b| && j < |a|
    requires a[..j] == b[..j] && a[j + 1..] == b[j + 1..]
    requires a[j].0 == b[j].0 && a[j].0 !in fields
    ensures AgreeOn(fields, a, b)
  {
    forall i | 0 <= i < |a| ensures a[i].0 == b[i].0 && (a[i].0 in fields ==> a[i].1 == b[i].1) {
      if i < j {
        assert a[i] == a[..j][i] && b[i] == b[..j][i];
      } else if i > j {
        assert a[i] == a[j + 1..][i - j - 1] && b[i] == b[j + 1..][i - j - 1];
      }
    }
  }

  /** Only the values under field names reach the file: rows that differ
      only under other keys are written identically. */
  lemma OtherKeysIgnored(fields: Fields, a: Row, b: Row)
    requires AgreeOn(fields, a, b)
    ensures Project(fields, a) == Project(fields, b)
  {
    forall i | 0 <= i < |fields| ensures Get(a, fields[i]) == Get(b, fields[i]) {
      GetAgrees(fields, a, b, fields[i]);
    }
  }

  /** `fieldnames(writer)`: the header as one comma-separated text. */
  function Fieldnames(fields: Fields): string {
    Join(fields, ",")
  }

  /** The header names can be read back from `fieldnames`. */
  lemma FieldnamesRoundTrip(fields: Fields)
    requires |fields| > 0
    requires forall i :: 0 <= i < |fields| ==> ',' !in fields[i]
    ensures Split(Fieldnames(fields), ',') == fields
  {
    SplitJoin(fields, ',');
  }

  // ------------------------------------------------------------ prepare_list

  /** `clean`: the commas and both kinds of quote are removed. */
  function Clean(s: string): string {
    RemoveAll(RemoveAll(RemoveAll(s, ","), "\""), "'")
  }

  lemma {:induction false} RemoveAllKeeps(s: string, pat: string, c: char)
    requires |pat| > 0
    requires c !in s
    ensures c !in RemoveAll(s, pat)
    decreases |s|
  {
    if |s| >= |pat| {
      if s[..|pat|] == pat {
        RemoveAllKeeps(s[|pat|..], pat, c);
      } else {
        RemoveAllKeeps(s[1..], pat, c);
      }
    }
  }

  lemma {:induction false} RemoveAllChar(s: string, c: char)
    ensures c !in RemoveAll(s, [c])
    decreases |s|
  {
    if |s| >= 1 {
      if s[..1] == [c] {
        RemoveAllChar(s[1..], c);
      } else {
        RemoveAllChar(s[1..], c);
        assert s[0] != c;
      }
    }
  }

  /** A cleaned element holds no comma and no quote. */
  lemma CleanIsClean(s: string)
    ensures ',' !in Clean(s) && '"' !in Clean(s) && '\'' !in Clean(s)
  {
    RemoveAllChar(s, ',');
    RemoveAllKeeps(RemoveAll(s, ","), "\"", ',');
    RemoveAllChar(RemoveAll(s, ","), '"');
    RemoveAllKeeps(RemoveAll(RemoveAll(s, ","), "\""), "'", ',');
    RemoveAllKeeps(RemoveAll(RemoveAll(s, ","), "\""), "'", '"');
    RemoveAllChar(RemoveAll(RemoveAll(s, ","), "\""), '\'');
  }

  /** The elements `prepare_list` keeps: present and not empty, in order. */
  function Kept(xs: seq<Option<string>>): (r: seq<string>)
    ensures |r| <= |xs|
    ensures forall x :: x in r <==> Some(x) in xs && |x| > 0
    decreases |xs|
  {
    if |xs| == 0 then []
    else
      assert xs == [xs[0]] + xs[1..];
      if xs[0].Some? && |xs[0].value| > 0 then [xs[0].value] + Kept(xs[1..]) else Kept(xs[1..])
  }

  /** `prepare_list` keeps elements one by one, so the kept ones stay in
      order. */
  lemma {:induction false} KeptAppend(a: seq<Option<string>>, b: seq<Option<string>>)
    ensures Kept(a + b) == Kept(a) + Kept(b)
    decreases |a|
  {
    if |a| == 0 {
      assert a + b == b;
    } else {
      assert (a + b)[1..] == a[1..] + b;
      KeptAppend(a[1..], b);
    }
  }

  /** A single element is kept exactly when it is present and not empty. */
  lemma KeptSingle(x: Option<string>)
    ensures Kept([x]) == if x.Some? && |x.value| > 0 then [x.value] else []
  {
    assert [x][1..] == [];
  }

  function CleanAll(xs: seq<string>): (r: seq<string>)
    ensures |r| == |xs|
    ensures forall i :: 0 <= i < |xs| ==> r[i] == Clean(xs[i])
  {
    seq(|xs|, i requires 0 <= i < |xs| => Clean(xs[i]))
  }

  /** `strip_id` applied to every element. */
  function StripAll(xs: seq<string>): (r: seq<Option<string>>)
    ensures |r| == |xs|
    ensures forall i :: 0 <= i < |xs| ==> r[i] == StripId(Some(xs[i]))
  {
    seq(|xs|, i requires 0 <= i < |xs| => StripId(Some(xs[i])))
  }

  /** A Postgres array literal: the text between braces. */
  function Braced(s: string): (r: string)
    ensures |r| == |s| + 2 && r[0] == '{' && r[|r| - 1] == '}'
    ensures r[1..|r| - 1] == s
  {
    "{" + s + "}"
  }

  /** `prepare_list(lst, strip)`: `None` when nothing is kept, otherwise the
      kept elements, cleaned (and with `strip`, passed through `strip_id`),
      joined by commas in braces. With `strip`, an element of 20 characters or
      fewer becomes `None` and makes the join raise. */
  function PrepareList(lst: Option<seq<Option<string>>>, strip: bool): (r: Result<Option<string>, Fault>)
    ensures !strip ==> r.Success?
    ensures r == Success(None) <==> lst.None? || |Kept(lst.value)| == 0
    ensures r.Success? && r.value.Some? ==> |r.value.value| >= 2 && r.value.value[0] == '{' && r.value.value[|r.value.value| - 1] == '}'
  {
    if lst.None? || |lst.value| == 0 then Success(None)
    else
      var kept := Kept(lst.value);
      if |kept| == 0 then Success(None)
      else if !strip then Success(Some(Braced(Join(CleanAll(kept), ","))))
      else
        var joined := JoinStripped(kept);
        if joined.Failure? then Failure(joined.error) else Success(Some(joined.value))
  }

  /** `prepare_list` raises exactly when `strip` is set and a kept element,
      once cleaned, is too short for `strip_id`. */
  lemma PrepareListRaises(lst: Option<seq<Option<string>>>, strip: bool)
    ensures PrepareList(lst, strip).Failure? <==>
              strip && lst.Some? && exists i :: 0 <= i < |Kept(lst.value)| && |Clean(Kept(lst.value)[i])| <= 20
  {
    if lst.Some? && |lst.value| == 0 {
      assert Kept(lst.value) == [];
    }
  }

  /** The `strip` branch of `prepare_list`: the cleaned elements passed
      through `strip_id` and joined, which raises as soon as one of them is
      `None`. */
  function JoinStripped(kept: seq<string>): (r: Result<string, Fault>)
    ensures r.Failure? <==> exists i :: 0 <= i < |kept| && |Clean(kept[i])| <= 20
    ensures r.Success? ==> |r.value| >= 2 && r.value[0] == '{' && r.value[|r.value| - 1] == '}'
  {
    var stripped := StripAll(CleanAll(kept));
    if forall i :: 0 <= i < |stripped| ==> stripped[i].Some? then
      Success(Braced(Join(FilterNone(stripped), ",")))
    else
      Failure(JoinOfNone("prepare_list"))
  }

  /** Reading an array literal `{a,b,...}` back into its elements. */
  function ArrayElements(lit: string): seq<string>
    requires |lit| >= 2
  {
    Split(lit[1..|lit| - 1], ',')
  }

  lemma {:induction false} NoneFree(xs: seq<Option<string>>)
    requires forall i :: 0 <= i < |xs| ==> xs[i].Some?
    ensures |FilterNone(xs)| == |xs|
    ensures forall i :: 0 <= i < |xs| ==> FilterNone(xs)[i] == xs[i].value
    decreases |xs|
  {
    if |xs| > 0 {
      var rest := xs[1..];
      assert forall i :: 0 <= i < |rest| ==> rest[i] == xs[i + 1];
      NoneFree(rest);
      var r := FilterNone(xs);
      assert r == [xs[0].value] + FilterNone(rest);
      forall i | 0 <= i < |xs| ensures r[i] == xs[i].value {
        if i > 0 {
          assert r[i] == FilterNone(rest)[i - 1];
        }
      }
    }
  }

  /** Braces around a comma-joined list of comma-free parts read back as
      those parts. */
  lemma ArrayLiteralRoundTrip(parts: seq<string>)
    requires |parts| > 0
    requires forall i :: 0 <= i < |parts| ==> ',' !in parts[i]
    ensures ArrayElements(Braced(Join(parts, ","))) == parts
  {
    SplitJoin(parts, ',');
  }

  /** A suffix of a comma-free text is comma-free. */
  lemma SuffixKeeps(s: string, k: nat, c: char)
    requires k <= |s|
    requires c !in s
    ensures c !in s[k..]
  {
    forall j | 0 <= j < |s| - k ensures s[k..][j] != c {
      assert s[k..][j] == s[k + j];
    }
  }

  /** The array literal gives back the kept elements, cleaned, in order and
      with repetitions: with `strip`, each without its 21-character prefix. */
  lemma PrepareListRoundTrip(lst: Option<seq<Option<string>>>, strip: bool)
    requires PrepareList(lst, strip).Success? && PrepareList(lst, strip).value.Some?
    ensures var lit := PrepareList(lst, strip).value.value;
            var kept := CleanAll(Kept(lst.value));
            && |ArrayElements(lit)| == |kept|
            && forall i :: 0 <= i < |kept| ==>
                 ArrayElements(lit)[i] == (if strip then kept[i][21..] else kept[i])
  {
    var kept := CleanAll(Kept(lst.value));
    forall i | 0 <= i < |kept| ensures ',' !in kept[i] {
      CleanIsClean(Kept(lst.value)[i]);
    }
    if strip {
      var stripped := StripAll(kept);
      NoneFree(stripped);
      var parts := FilterNone(stripped);
      forall i | 0 <= i < |parts| ensures ',' !in parts[i] && parts[i] == kept[i][21..] {
        assert stripped[i] == StripId(Some(kept[i]));
        SuffixKeeps(kept[i], 21, ',');
      }
      ArrayLiteralRoundTrip(parts);
    } else {
      ArrayLiteralRoundTrip(kept);
    }
  }

  // ------------------------------------------------------- the per-line loop

  /** A `writerow` call on writer number `table`. */
  datatype Write = Write(table: nat, row: Row)

  /** What the loop body does with one decoded record: skip it, finish it
      (having collected `id`, written `writes`, and read a non-blank abstract
      or not), or raise `fault` after the writes made so far. */
  datatype Step =
    | Skip
    | Emit(id: Option<string>, writes: seq<Write>, hasAbstract: bool)
    | Crash(partial: seq<Write>, fault: Fault)

  /** A `COPY` statement: the target table, the writer whose file it loads,
      and whether it lists the writer's columns. */
  datatype Copy = Copy(target: string, writer: nat, columns: bool)

  /** The writers of a partition function (their field names, in creation
      order) and the COPY statements it writes, in order. */
  datatype Layout = Layout(kind: ObjectType, writers: seq<Fields>, copies: seq<Copy>)

  /** Every COPY statement loads the file of a writer that exists, and there
      is one output file per writer. */
  predicate WellFormed(layout: Layout, outs: seq<Path>) {
    |outs| == |layout.writers| &&
    forall c :: 0 <= c < |layout.copies| ==> layout.copies[c].writer < |layout.writers|
  }

  /** The state of the loop: every `writerow` so far, the collected ids, the
      counters, and the exception that ended it, if any. */
  datatype Scan = Scan(log: seq<Write>, ids: seq<Option<string>>, count: nat, abstracts: nat, fault: Option<Fault>)

  /** One iteration: decode the line, then run the step on the record. */
  function Advance<R>(s: Scan, line: Result<R, DecodeError>, step: R -> Step): Scan {
    if s.fault.Some? then s
    else match line
      case Failure(e) => s.(fault := Some(Undecodable(e)))
      case Success(r) =>
        match step(r)
        case Skip => s
        case Emit(id, ws, ab) => Scan(s.log + ws, s.ids + [id], s.count + 1, s.abstracts + (if ab then 1 else 0), None)
        case Crash(ws, f) => s.(log := s.log + ws, fault := Some(f))
  }

  /** The loop over a prefix of the lines. */
  function ScanLines<R>(lines: seq<Result<R, DecodeError>>, step: R -> Step): Scan
    decreases |lines|
  {
    if |lines| == 0 then Scan([], [], 0, 0, None)
    else Advance(ScanLines(lines[..|lines| - 1], step), lines[|lines| - 1], step)
  }

  /** The rows written to writer `t`, in order. */
  function On(log: seq<Write>, t: nat): (r: seq<Row>)
    ensures |r| <= |log|
    decreases |log|
  {
    if |log| == 0 then []
    else On(log[..|log| - 1], t) + (if log[|log| - 1].table == t then [log[|log| - 1].row] else [])
  }

  lemma {:induction false} OnAppend(a: seq<Write>, b: seq<Write>, t: nat)
    ensures On(a + b, t) == On(a, t) + On(b, t)
    decreases |b|
  {
    if |b| == 0 {
      assert a + b == a;
    } else {
      assert (a + b)[..|a + b| - 1] == a + b[..|b| - 1];
      OnAppend(a, b[..|b| - 1], t);
    }
  }

  /** Writes that all go to writer `t` are the only rows of `t`. */
  lemma {:induction false} OnSingleTable(ws: seq<Write>, t: nat, u: nat)
    requires forall k :: 0 <= k < |ws| ==> ws[k].table == t
    ensures u != t ==> On(ws, u) == []
    ensures u == t ==> |On(ws, u)| == |ws| && forall k :: 0 <= k < |ws| ==> On(ws, u)[k] == ws[k].row
    decreases |ws|
  {
    if |ws| > 0 {
      OnSingleTable(ws[..|ws| - 1], t, u);
    }
  }

  /** The rows in the file of writer `t`: the rows written to it, in order,
      restricted to its field names. */
  function TableRows(log: seq<Write>, fields: Fields, t: nat): (r: seq<seq<Value>>)
    ensures |r| == |On(log, t)|
    ensures forall i :: 0 <= i < |r| ==> r[i] == Project(fields, On(log, t)[i])
  {
    var rows := On(log, t);
    seq(|rows|, i requires 0 <= i < |rows| => Project(fields, rows[i]))
  }

  /** One `COPY` statement. */
  function CopyStatement(target: string, fields: Fields, columns: bool, file: Path, cwd: Path): string {
    "COPY " + PgSchema + "." + target + (if columns then " (" + Fieldnames(fields) + ")" else "")
    + " FROM PROGRAM 'gunzip -c " + Paths.Str(Absolute(file, cwd)) + "' csv header;\n\n"
  }

  /** The COPY script: the statements of `copies[from..]`. */
  function CopyScript(layout: Layout, outs: seq<Path>, cwd: Path, from: nat): string
    requires WellFormed(layout, outs)
    decreases |layout.copies| - from
  {
    if from >= |layout.copies| then ""
    else
      var c := layout.copies[from];
      CopyStatement(c.target, layout.writers[c.writer], c.columns, outs[c.writer], cwd)
      + CopyScript(layout, outs, cwd, from + 1)
  }

  /** What a partition function leaves behind: the rows of every writer's
      file, the deletion and COPY scripts, the counters and the exception it
      raised, if any. */
  datatype Outcome = Outcome(
    tables: seq<seq<seq<Value>>>, del: string, cpy: string, count: nat, abstracts: nat, fault: Option<Fault>)

  /** A `flatten_*_partition` run on the decoded lines of a partition. The
      scripts are written after the loop, so an exception leaves them empty. */
  function Flattened<R>(lines: seq<Result<R, DecodeError>>, step: R -> Step, layout: Layout, outs: seq<Path>, cwd: Path): Outcome
    requires WellFormed(layout, outs)
  {
    var s := ScanLines(lines, step);
    var tables := seq(|layout.writers|, t requires 0 <= t < |layout.writers| => TableRows(s.log, layout.writers[t], t));
    if s.fault.Some? then Outcome(tables, "", "", s.count, s.abstracts, s.fault)
    else Outcome(tables, Script(Deletions(s.ids, layout.kind, BatchSize)), CopyScript(layout, outs, cwd, 0), s.count, s.abstracts, None)
  }

  /** Once the loop has raised, no later line changes anything. */
  lemma {:induction false} ScanStopsAtFault<R>(lines: seq<Result<R, DecodeError>>, step: R -> Step, i: nat)
    requires i <= |lines|
    requires ScanLines(lines[..i], step).fault.Some?
    ensures ScanLines(lines, step) == ScanLines(lines[..i], step)
    decreases |lines|
  {
    if i < |lines| {
      assert lines[..|lines| - 1][..i] == lines[..i];
      ScanStopsAtFault(lines[..|lines| - 1], step, i);
    } else {
      assert lines[..i] == lines;
    }
  }

  /** The `for line in f_in` loop: it stops at the first exception. */
  method RunLoop<R>(lines: seq<Result<R, DecodeError>>, step: R -> Step) returns (s: Scan)
    ensures s == ScanLines(lines, step)
  {
    var log: seq<Write> := [];
    var ids: seq<Option<string>> := [];
    var count: nat := 0;
    var abstracts: nat := 0;
    var fault: Option<Fault> := None;
    var i := 0;
    while i < |lines| && fault.None?
      invariant 0 <= i <= |lines|
      invariant Scan(log, ids, count, abstracts, fault) == ScanLines(lines[..i], step)
    {
      assert lines[..i + 1][..i] == lines[..i];
      match lines[i] {
        case Failure(e) =>
          fault := Some(Undecodable(e));
        case Success(r) =>
          match step(r) {
            case Skip =>
            case Emit(id, ws, ab) =>
              log := log + ws;
              ids := ids + [id];
              count := count + 1;
              if ab { abstracts := abstracts + 1; }
            case Crash(ws, f) =>
              log := log + ws;
              fault := Some(f);
          }
      }
      i := i + 1;
    }
    if i < |lines| {
      ScanStopsAtFault(lines, step, i);
    } else {
      assert lines[..i] == lines;
    }
    s := Scan(log, ids, count, abstracts, fault);
  }

  /** Writing the deletion script, one statement per line. */
  method WriteDeletions(ids: seq<Option<string>>, kind: ObjectType) returns (del: string)
    ensures del == Script(Deletions(ids, kind, BatchSize))
  {
    var stmts := GenerateDeletions(ids, kind, BatchSize);
    del := WriteLines(stmts);
  }

  /** `for stmt in ...: f.write(stmt + '\n')`. */
  method WriteLines(stmts: seq<string>) returns (text: string)
    ensures text == Script(stmts)
  {
    text := "";
    for k := 0 to |stmts|
      invariant text == Script(stmts[..k])
    {
      assert stmts[..k + 1] == stmts[..k] + [stmts[k]];
      ScriptSnoc(stmts[..k], stmts[k]);
      text := text + (stmts[k] + "\n");
    }
    assert stmts[..|stmts|] == stmts;
  }

  /** Writing the COPY script, statement by statement. */
  method WriteCopies(layout: Layout, outs: seq<Path>, cwd: Path) returns (cpy: string)
    requires WellFormed(layout, outs)
    ensures cpy == CopyScript(layout, outs, cwd, 0)
  {
    cpy := "";
    for c := 0 to |layout.copies|
      invariant cpy + CopyScript(layout, outs, cwd, c) == CopyScript(layout, outs, cwd, 0)
    {
      var copy := layout.copies[c];
      cpy := cpy + CopyStatement(copy.target, layout.writers[copy.writer], copy.columns, outs[copy.writer], cwd);
    }
  }

  /** A partition function: the loop, then the two scripts. */
  method FlattenPartition<R>(lines: seq<Result<R, DecodeError>>, step: R -> Step, layout: Layout, outs: seq<Path>, cwd: Path)
     returns (out: Outcome)
    requires WellFormed(layout, outs)
    ensures out == Flattened(lines, step, layout, outs, cwd)
  {
    var s := RunLoop(lines, step);
    var tables := seq(|layout.writers|, t requires 0 <= t < |layout.writers| => TableRows(s.log, layout.writers[t], t));
    if s.fault.Some? {
      out := Outcome(tables, "", "", s.count, s.abstracts, s.fault);
    } else {
      var del := WriteDeletions(s.ids, layout.kind);
      var cpy := WriteCopies(layout, outs, cwd);
      out := Outcome(tables, del, cpy, s.count, s.abstracts, None);
    }
  }

  // --------------------------------------------------------------- the loop's laws

  /** A record the step skips leaves the partition exactly as it was. */
  lemma SkipChangesNothing<R>(lines: seq<Result<R, DecodeError>>, r: R, step: R -> Step)
    requires step(r) == Skip
    ensures ScanLines(lines + [Success(r)], step) == ScanLines(lines, step)
  {
    assert (lines + [Success(r)])[..|lines|] == lines;
  }

  /** A line that does not decode ends the partition: whatever follows, the
      scripts stay empty. */
  lemma {:induction false} UndecodableAborts<R>(lines: seq<Result<R, DecodeError>>, e: DecodeError, rest: seq<Result<R, DecodeError>>, step: R -> Step)
    requires ScanLines(lines, step).fault.None?
    ensures ScanLines(lines + [Failure(e)] + rest, step).fault == Some(Undecodable(e))
  {
    var all := lines + [Failure(e)] + rest;
    assert all[..|lines| + 1] == lines + [Failure(e)];
    assert (lines + [Failure(e)])[..|lines|] == lines;
    ScanStopsAtFault(all, step, |lines| + 1);
  }

  /** The records whose step finished. */
  predicate Finished<R>(line: Result<R, DecodeError>, step: R -> Step) {
    line.Success? && step(line.value).Emit?
  }

  /** The loop runs to the end exactly when every line decodes and no step
      raises; then every line was either skipped or finished, one id was
      collected per finished record, in line order, and they were counted. */
  lemma {:induction false} ScanClean<R>(lines: seq<Result<R, DecodeError>>, step: R -> Step)
    ensures ScanLines(lines, step).fault.None? <==>
            forall i :: 0 <= i < |lines| ==> lines[i].Success? && !step(lines[i].value).Crash?
    ensures ScanLines(lines, step).count == |ScanLines(lines, step).ids|
    ensures ScanLines(lines, step).fault.None? ==>
              ScanLines(lines, step).ids == FinishedIds(lines, step)
    decreases |lines|
  {
    if |lines| > 0 {
      var init := lines[..|lines| - 1];
      ScanClean(init, step);
      assert forall i :: 0 <= i < |init| ==> init[i] == lines[i];
      if ScanLines(init, step).fault.Some? {
        var j :| 0 <= j < |init| && !(init[j].Success? && !step(init[j].value).Crash?);
        assert lines[j] == init[j];
      }
    }
  }

  /** The ids of the finished records, in line order. */
  function FinishedIds<R>(lines: seq<Result<R, DecodeError>>, step: R -> Step): seq<Option<string>>
    decreases |lines|
  {
    if |lines| == 0 then []
    else
      var last := lines[|lines| - 1];
      FinishedIds(lines[..|lines| - 1], step) + (if Finished(last, step) then [step(last.value).id] else [])
  }

  /** A partition without exceptions deletes exactly its own records: the
      deletion script is `generate_deletions` over the ids of the finished
      records, and the COPY script is written in full. */
  lemma DeletesOwnIds<R>(lines: seq<Result<R, DecodeError>>, step: R -> Step, layout: Layout, outs: seq<Path>, cwd: Path)
    requires WellFormed(layout, outs)
    requires forall i :: 0 <= i < |lines| ==> lines[i].Success? && !step(lines[i].value).Crash?
    ensures Flattened(lines, step, layout, outs, cwd).fault.None?
    ensures Flattened(lines, step, layout, outs, cwd).del == Script(Deletions(FinishedIds(lines, step), layout.kind, BatchSize))
    ensures Flattened(lines, step, layout, outs, cwd).cpy == CopyScript(layout, outs, cwd, 0)
  {
    ScanClean(lines, step);
  }

  /** Records with a non-blank abstract are a subset of the counted ones. */
  lemma {:induction false} AbstractsAtMostCount<R>(lines: seq<Result<R, DecodeError>>, step: R -> Step)
    ensures ScanLines(lines, step).abstracts <= ScanLines(lines, step).count
    decreases |lines|
  {
    if |lines| > 0 {
      AbstractsAtMostCount(lines[..|lines| - 1], step);
    }
  }

  /** When no record is skipped, every line of a partition without
      exceptions is counted and contributes one id. */
  lemma {:induction false} EveryLineCounted<R>(lines: seq<Result<R, DecodeError>>, step: R -> Step)
    requires forall i :: 0 <= i < |lines| ==> lines[i].Success? && step(lines[i].value).Emit?
    ensures |FinishedIds(lines, step)| == |lines|
    ensures ScanLines(lines, step).count == |lines|
    decreases |lines|
  {
    ScanClean(lines, step);
    if |lines| > 0 {
      var init := lines[..|lines| - 1];
      assert forall i :: 0 <= i < |init| ==> init[i] == lines[i];
      EveryLineCounted(init, step);
    }
  }
}
