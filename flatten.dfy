/** The job runner of processors/postgres/flatten.py: building one job
    description per partition, skipping jobs whose outputs already exist,
    dispatching the rest, and writing the merge-file deletion script. */
module Flatten {
  import opened Wrappers
  import opened Errors
  import opened Text
  import opened Paths
  import opened Util
  import opened Deletion

  /** The keyword arguments the partition functions take. */
  datatype Keyword =
    | Partition | OutSqlCpy | OutSqlDel | PreserveRam
    | OutAuthors | OutInstitutions | OutM2mAssociation | OutM2mConcepts | OutPublishers | OutFunders
    | OutConcepts | OutM2mAncestor | OutM2mRelated | OutSources | OutWorks | OutM2mLocations
    | OutM2mAuthorships | OutM2mAuthorshipInstitutions | OutM2mReferences | OutM2mSdgs

  /** The keyword as Python spells it. */
  function KeywordName(k: Keyword): string {
    match k
    case Partition => "partition"
    case OutSqlCpy => "out_sql_cpy"
    case OutSqlDel => "out_sql_del"
    case PreserveRam => "preserve_ram"
    case OutAuthors => "out_authors"
    case OutInstitutions => "out_institutions"
    case OutM2mAssociation => "out_m2m_association"
    case OutM2mConcepts => "out_m2m_concepts"
    case OutPublishers => "out_publishers"
    case OutFunders => "out_funders"
    case OutConcepts => "out_concepts"
    case OutM2mAncestor => "out_m2m_ancestor"
    case OutM2mRelated => "out_m2m_related"
    case OutSources => "out_sources"
    case OutWorks => "out_works"
    case OutM2mLocations => "out_m2m_locations"
    case OutM2mAuthorships => "out_m2m_authorships"
    case OutM2mAuthorshipInstitutions => "out_m2m_authorship_institutions"
    case OutM2mReferences => "out_m2m_references"
    case OutM2mSdgs => "out_m2m_sdgs"
  }

  function KeywordNames(ks: seq<Keyword>): (r: seq<string>)
    ensures |r| == |ks|
    ensures forall i :: 0 <= i < |ks| ==> r[i] == KeywordName(ks[i])
  {
    seq(|ks|, i requires 0 <= i < |ks| => KeywordName(ks[i]))
  }

  /** A keyword argument value of a job. */
  datatype Arg = PathArg(path: Path) | StrArg(text: string) | BoolArg(flag: bool)

  /** A job: the keyword arguments of one partition-function call, in the
      order of the dictionary literal. */
  type Job = seq<(Keyword, Arg)>

  /** `picklify` of one job: every `Path` value becomes its text, every other
      value and every key stays as it was. */
  function Picklify(job: Job): (r: Job)
    ensures |r| == |job|
    ensures forall i :: 0 <= i < |job| ==> r[i].0 == job[i].0
    ensures forall i :: 0 <= i < |job| ==> !job[i].1.PathArg? ==> r[i].1 == job[i].1
    ensures forall i :: 0 <= i < |job| ==> job[i].1.PathArg? ==> r[i].1 == StrArg(Str(job[i].1.path))
  {
    seq(|job|, i requires 0 <= i < |job| =>
      (job[i].0, if job[i].1.PathArg? then StrArg(Str(job[i].1.path)) else job[i].1))
  }

  function PicklifyAll(jobs: seq<Job>): (r: seq<Job>)
    ensures |r| == |jobs|
    ensures forall i :: 0 <= i < |jobs| ==> r[i] == Picklify(jobs[i])
  {
    seq(|jobs|, i requires 0 <= i < |jobs| => Picklify(jobs[i]))
  }

  /** The file system as far as the runner looks at it: the size of every
      file that exists. */
  type Sizes = map<Path, int>

  /** `all_exist`: every `Path` argument other than `partition` names an
      existing file of more than 100 bytes. */
  predicate AllExist(job: Job, sizes: Sizes) {
    forall i :: 0 <= i < |job| && job[i].1.PathArg? && job[i].0 != Partition ==>
      job[i].1.path in sizes && sizes[job[i].1.path] > 100
  }

  /** A picklified job holds no `Path`, so it always passes `all_exist`. */
  lemma PicklifiedAlwaysExists(job: Job, sizes: Sizes)
    ensures AllExist(Picklify(job), sizes)
    ensures Picklify(Picklify(job)) == Picklify(job)
  {
  }

  /** The jobs `run` keeps: all of them with `override`, otherwise those
      whose outputs do not all exist yet, in order. */
  function Selected(jobs: seq<Job>, sizes: Sizes, override: bool): (r: seq<Job>)
    ensures override ==> r == jobs
    ensures |r| <= |jobs|
    ensures forall j :: j in r <==> j in jobs && (override || !AllExist(j, sizes))
    decreases |jobs|
  {
    if override || |jobs| == 0 then jobs
    else
      var rest := Selected(jobs[1..], sizes, override);
      assert jobs == [jobs[0]] + jobs[1..];
      if AllExist(jobs[0], sizes) then rest else [jobs[0]] + rest
  }

  /** The jobs are filtered one by one, so the selected ones run in the
      order they are listed. */
  lemma {:induction false} SelectedAppend(a: seq<Job>, b: seq<Job>, sizes: Sizes, override: bool)
    ensures Selected(a + b, sizes, override) == Selected(a, sizes, override) + Selected(b, sizes, override)
    decreases |a|
  {
    if |a| == 0 {
      assert a + b == b;
    } else if !override {
      assert (a + b)[1..] == a[1..] + b;
      SelectedAppend(a[1..], b, sizes, override);
    }
  }

  /** A single job is selected exactly when `override` is set or one of its
      outputs is missing or empty. */
  lemma SelectedSingle(j: Job, sizes: Sizes, override: bool)
    ensures Selected([j], sizes, override) == if override || !AllExist(j, sizes) then [j] else []
  {
    assert [j][1..] == [];
  }

  /** Binding a job's keywords to a partition function whose parameters are
      all required: an unknown keyword raises first, then any missing
      parameters are reported together. */
  function Bind(params: seq<Keyword>, job: Job): (r: Option<Fault>)
    ensures r.None? <==>
              (forall i :: 0 <= i < |job| ==> job[i].0 in params) &&
              (forall p :: p in params ==> exists i :: 0 <= i < |job| && job[i].0 == p)
  {
    var keys := Keys(job);
    assert forall p :: p in keys <==> exists i :: 0 <= i < |job| && job[i].0 == p by {
      forall p ensures p in keys ==> exists i :: 0 <= i < |job| && job[i].0 == p {
        if p in keys {
          var i :| 0 <= i < |keys| && keys[i] == p;
          assert job[i].0 == p;
        }
      }
    }
    UnknownMembers(params, keys);
    MissingMembers(params, keys);
    var unexpected := Unknown(params, keys);
    if |unexpected| > 0 then Some(UnexpectedArgument(KeywordName(unexpected[0])))
    else
      var missing := Missing(params, keys);
      if |missing| > 0 then Some(MissingArguments(KeywordNames(missing))) else None
  }

  function Keys(job: Job): (r: seq<Keyword>)
    ensures |r| == |job|
    ensures forall i :: 0 <= i < |job| ==> r[i] == job[i].0
  {
    seq(|job|, i requires 0 <= i < |job| => job[i].0)
  }

  /** The keywords that are not parameters, in order. */
  function Unknown(params: seq<Keyword>, keys: seq<Keyword>): seq<Keyword>
    decreases |keys|
  {
    if |keys| == 0 then []
    else (if keys[0] in params then [] else [keys[0]]) + Unknown(params, keys[1..])
  }

  lemma {:induction false} UnknownMembers(params: seq<Keyword>, keys: seq<Keyword>)
    ensures forall x :: x in Unknown(params, keys) <==> x in keys && x !in params
    ensures Unknown(params, keys) == [] <==> forall k :: k in keys ==> k in params
    decreases |keys|
  {
    if |keys| > 0 {
      assert keys == [keys[0]] + keys[1..];
      UnknownMembers(params, keys[1..]);
    }
  }

  /** The parameters not among the keywords, in parameter order. */
  function Missing(params: seq<Keyword>, keys: seq<Keyword>): seq<Keyword>
    decreases |params|
  {
    if |params| == 0 then []
    else (if params[0] in keys then [] else [params[0]]) + Missing(params[1..], keys)
  }

  lemma {:induction false} MissingMembers(params: seq<Keyword>, keys: seq<Keyword>)
    ensures forall p :: p in Missing(params, keys) <==> p in params && p !in keys
    ensures Missing(params, keys) == [] <==> forall p :: p in params ==> p in keys
    decreases |params|
  {
    if |params| > 0 {
      assert params == [params[0]] + params[1..];
      MissingMembers(params[1..], keys);
    }
  }

  /** Calling `func(kwargs)`: the binding, then the partition function itself,
      given as `call` (`None` when it returns, the exception when it
      raises). */
  function Invoke(params: seq<Keyword>, call: Job -> Option<Fault>, job: Job): Option<Fault> {
    var bound := Bind(params, job);
    if bound.Some? then bound else call(job)
  }

  /** `func` as the loop and the pool call it on one job. */
  function Invoker(params: seq<Keyword>, call: Job -> Option<Fault>): (r: Job -> Option<Fault>)
    ensures forall job :: r(job) == Invoke(params, call, job)
  {
    job => Invoke(params, call, job)
  }

  /** What `run` does. */
  datatype Dispatch =
    | NothingToDo
    | InOrder(called: seq<Job>, fault: Option<Fault>) // `parallelism == 1`
    | Pooled(size: int, handed: seq<Job>, failed: bool) // `Pool(parallelism).map`
    | PoolRefused // `Pool(parallelism)` with fewer than one process

  predicate Raised(d: Dispatch) {
    (d.InOrder? && d.fault.Some?) || (d.Pooled? && d.failed) || d.PoolRefused?
  }

  /** The sequential loop over `jobs`, each handed to `run`: the jobs called,
      in order, and the exception that stopped it, if any. */
  function Sequential(run: Job -> Option<Fault>, jobs: seq<Job>): (r: (seq<Job>, Option<Fault>))
    ensures |r.0| <= |jobs|
    ensures r.0 == jobs[..|r.0|]
    ensures r.1.None? ==> r.0 == jobs
    decreases |jobs|
  {
    if |jobs| == 0 then ([], None)
    else
      var prev := Sequential(run, jobs[..|jobs| - 1]);
      if prev.1.Some? then
        assert prev.0 == jobs[..|jobs| - 1][..|prev.0|];
        prev
      else
        assert jobs[..|jobs| - 1] + [jobs[|jobs| - 1]] == jobs;
        (prev.0 + [jobs[|jobs| - 1]], run(jobs[|jobs| - 1]))
  }

  /** `run(func, params, parallelism, override)`. */
  function RunSpec(params: seq<Keyword>, call: Job -> Option<Fault>, jobs: seq<Job>, parallelism: int,
                   override: bool, sizes: Sizes): Dispatch
  {
    var todo := Selected(jobs, sizes, override);
    if |todo| == 0 then NothingToDo
    else if parallelism == 1 then
      var s := Sequential(Invoker(params, call), todo);
      InOrder(s.0, s.1)
    else if parallelism < 1 then PoolRefused
    else
      var handed := PicklifyAll(todo);
      Pooled(parallelism, handed, exists i :: 0 <= i < |handed| && Invoke(params, call, handed[i]).Some?)
  }

  /** Once a job has raised, the later ones are not called. */
  lemma {:induction false} SequentialStops(run: Job -> Option<Fault>, jobs: seq<Job>, n: nat)
    requires n <= |jobs|
    requires Sequential(run, jobs[..n]).1.Some?
    ensures Sequential(run, jobs) == Sequential(run, jobs[..n])
    decreases |jobs|
  {
    if n < |jobs| {
      assert jobs[..|jobs| - 1][..n] == jobs[..n];
      SequentialStops(run, jobs[..|jobs| - 1], n);
    } else {
      assert jobs[..n] == jobs;
    }
  }

  /** The `for kwargs in params: func(**kwargs)` loop. */
  method RunInOrder(params: seq<Keyword>, call: Job -> Option<Fault>, todo: seq<Job>)
    returns (called: seq<Job>, fault: Option<Fault>)
    ensures (called, fault) == Sequential(Invoker(params, call), todo)
  {
    called, fault := [], None;
    var i := 0;
    while i < |todo| && fault.None?
      invariant 0 <= i <= |todo|
      invariant (called, fault) == Sequential(Invoker(params, call), todo[..i])
    {
      assert todo[..i + 1][..i] == todo[..i];
      called := called + [todo[i]];
      fault := Invoke(params, call, todo[i]);
      i := i + 1;
    }
    if i < |todo| {
      SequentialStops(Invoker(params, call), todo, i);
    } else {
      assert todo[..i] == todo;
    }
  }

  /** `run`: the filter, then the loop or the pool. */
  method Run(params: seq<Keyword>, call: Job -> Option<Fault>, jobs: seq<Job>, parallelism: int,
             override: bool, sizes: Sizes) returns (d: Dispatch)
    ensures d == RunSpec(params, call, jobs, parallelism, override, sizes)
  {
    var todo := jobs;
    if !override {
      todo := Selected(jobs, sizes, false);
    }
    if |todo| == 0 {
      d := NothingToDo;
    } else if parallelism == 1 {
      var called, fault := RunInOrder(params, call, todo);
      d := InOrder(called, fault);
    } else if parallelism < 1 {
      d := PoolRefused;
    } else {
      var handed := PicklifyAll(todo);
      d := Pooled(parallelism, handed, exists i :: 0 <= i < |handed| && Invoke(params, call, handed[i]).Some?);
    }
  }

  /** With `override`, every job is dispatched; in sequential mode, when no
      job raises, each is called once, in list order, with its own
      arguments. */
  lemma {:induction false} SequentialCallsAll(run: Job -> Option<Fault>, jobs: seq<Job>)
    requires forall i :: 0 <= i < |jobs| ==> run(jobs[i]).None?
    ensures Sequential(run, jobs) == (jobs, None)
    decreases |jobs|
  {
    if |jobs| > 0 {
      var init := jobs[..|jobs| - 1];
      assert forall i :: 0 <= i < |init| ==> init[i] == jobs[i];
      SequentialCallsAll(run, init);
      assert init + [jobs[|jobs| - 1]] == jobs;
    }
  }

  lemma OverrideRunsEverything(params: seq<Keyword>, call: Job -> Option<Fault>, jobs: seq<Job>, sizes: Sizes)
    requires |jobs| > 0
    requires forall i :: 0 <= i < |jobs| ==> Invoke(params, call, jobs[i]).None?
    ensures RunSpec(params, call, jobs, 1, true, sizes) == InOrder(jobs, None)
  {
    SequentialCallsAll(Invoker(params, call), jobs);
  }

  /** Once every output of every job exists with more than 100 bytes, a run
      without `override` does nothing. */
  lemma {:induction false} NothingSelected(jobs: seq<Job>, sizes: Sizes)
    requires forall i :: 0 <= i < |jobs| ==> AllExist(jobs[i], sizes)
    ensures Selected(jobs, sizes, false) == []
    decreases |jobs|
  {
    if |jobs| > 0 {
      assert forall i :: 0 <= i < |jobs[1..]| ==> jobs[1..][i] == jobs[i + 1];
      NothingSelected(jobs[1..], sizes);
    }
  }

  lemma RerunDoesNothing(params: seq<Keyword>, call: Job -> Option<Fault>, jobs: seq<Job>,
                         parallelism: int, sizes: Sizes)
    requires forall i :: 0 <= i < |jobs| ==> AllExist(jobs[i], sizes)
    ensures RunSpec(params, call, jobs, parallelism, false, sizes) == NothingToDo
  {
    NothingSelected(jobs, sizes);
  }

  // --------------------------------------------------------------- naming

  /** `name_part(partition)`: the partition directory's name without
      `updated_date=`, a dash, and the file's stem. */
  function NamePart(partition: Path): string {
    RemoveAll(Name(Parent(partition)), "updated_date=") + "-" + Stem(Name(partition))
  }

  /** For a partition under `updated_date=<date>`, the name part is
      `<date>-<stem>`. */
  lemma NamePartOfDatedPartition(partition: Path, date: string)
    requires Name(Parent(partition)) == "updated_date=" + date
    requires !Occurs("updated_date=", date)
    ensures NamePart(partition) == date + "-" + Stem(Name(partition))
  {
    RemoveLeading("updated_date=", date);
  }

  /** A directory name without the marker is used as it is. */
  lemma NamePartOfOtherDirectory(partition: Path)
    requires !Occurs("updated_date=", Name(Parent(partition)))
    ensures NamePart(partition) == Name(Parent(partition)) + "-" + Stem(Name(partition))
  {
    RemoveAbsent("updated_date=", Name(Parent(partition)));
  }

  // --------------------------------------------------------- job descriptions

  /** The job of one partition: `partition`, the two SQL scripts, the CSV
      files given by (keyword, file suffix), and `preserve_ram`. */
  function PartitionJob(kind: string, tmp: Path, outputs: seq<(Keyword, string)>, preserveRam: bool, partition: Path): (r: Job)
    ensures |r| == |outputs| + 4
    ensures r[0] == (Partition, PathArg(partition))
    ensures r[1] == (OutSqlCpy, PathArg(Child(tmp, "pg-" + kind + "-" + NamePart(partition) + "-cpy.sql")))
    ensures r[2] == (OutSqlDel, PathArg(Child(tmp, "pg-" + kind + "-" + NamePart(partition) + "-del.sql")))
    ensures forall k :: 0 <= k < |outputs| ==>
              r[3 + k] == (outputs[k].0, PathArg(Child(tmp, "pg-" + kind + "-" + NamePart(partition) + outputs[k].1)))
    ensures r[|r| - 1] == (PreserveRam, BoolArg(preserveRam))
  {
    var prefix := "pg-" + kind + "-" + NamePart(partition);
    [(Partition, PathArg(partition)),
     (OutSqlCpy, PathArg(Child(tmp, prefix + "-cpy.sql"))),
     (OutSqlDel, PathArg(Child(tmp, prefix + "-del.sql")))]
    + seq(|outputs|, k requires 0 <= k < |outputs| => (outputs[k].0, PathArg(Child(tmp, prefix + outputs[k].1))))
    + [(PreserveRam, BoolArg(preserveRam))]
  }

  function PartitionJobs(kind: string, tmp: Path, outputs: seq<(Keyword, string)>, preserveRam: bool, partitions: seq<Path>): (r: seq<Job>)
    ensures |r| == |partitions|
    ensures forall i :: 0 <= i < |partitions| ==> r[i] == PartitionJob(kind, tmp, outputs, preserveRam, partitions[i])
  {
    seq(|partitions|, i requires 0 <= i < |partitions| => PartitionJob(kind, tmp, outputs, preserveRam, partitions[i]))
  }

  /** The CSV outputs of each entity's jobs, and the parameters of its
      partition function. */
  function Outputs(t: ObjectType): seq<(Keyword, string)> {
    match t
    case Author => [(OutAuthors, "_authors.csv.gz")]
    case Institution => [(OutInstitutions, "_institution.csv.gz"),
                         (OutM2mAssociation, "_institution_associations.csv.gz"),
                         (OutM2mConcepts, "_institution_concepts.csv.gz")]
    case Publisher => [(OutPublishers, "_publishers.csv.gz")]
    case Funder => [(OutFunders, "_funders.csv.gz")]
    case Concept => [(OutConcepts, "_concepts.csv.gz"),
                     (OutM2mAncestor, "_concepts_ancestor.csv.gz"),
                     (OutM2mRelated, "_concepts_related.csv.gz")]
    case Source => [(OutSources, "_sources.csv.gz")]
    case Work => [(OutWorks, "_works.csv.gz"),
                  (OutM2mLocations, "_works_locations.csv.gz"),
                  (OutM2mConcepts, "_works_concepts.csv.gz"),
                  (OutM2mAuthorships, "_works_authorships.csv.gz"),
                  (OutM2mReferences, "_works_references.csv.gz"),
                  (OutM2mRelated, "_works_related.csv.gz")]
  }

  function Parameters(t: ObjectType): seq<Keyword> {
    var outs := match t
      case Author => [OutAuthors]
      case Institution => [OutInstitutions, OutM2mAssociation, OutM2mConcepts]
      case Publisher => [OutPublishers]
      case Funder => [OutFunders]
      case Concept => [OutConcepts, OutM2mAncestor, OutM2mRelated]
      case Source => [OutSources]
      case Work => [OutWorks, OutM2mLocations, OutM2mConcepts, OutM2mAuthorships,
                    OutM2mAuthorshipInstitutions, OutM2mReferences, OutM2mRelated, OutM2mSdgs];
    [Partition, OutSqlCpy, OutSqlDel] + outs + [PreserveRam]
  }

  /** The works outputs as `flatten_works_partition` needs them: the
      authorship-institution and goal files included. */
  function FixedOutputs(t: ObjectType): (r: seq<(Keyword, string)>)
    ensures t != Work ==> r == Outputs(t)
    ensures |r| == |Outputs(t)| + (if t == Work then 2 else 0)
    ensures t == Work ==> r[4].0 == OutM2mAuthorshipInstitutions && r[7].0 == OutM2mSdgs
  {
    if t == Work then
      [(OutWorks, "_works.csv.gz"),
       (OutM2mLocations, "_works_locations.csv.gz"),
       (OutM2mConcepts, "_works_concepts.csv.gz"),
       (OutM2mAuthorships, "_works_authorships.csv.gz"),
       (OutM2mAuthorshipInstitutions, "_works_authorship_institutions.csv.gz"),
       (OutM2mReferences, "_works_references.csv.gz"),
       (OutM2mRelated, "_works_related.csv.gz"),
       (OutM2mSdgs, "_works_sdgs.csv.gz")]
    else Outputs(t)
  }

  function OutputKeywords(outputs: seq<(Keyword, string)>): (r: seq<Keyword>)
    ensures |r| == |outputs|
    ensures forall k :: 0 <= k < |outputs| ==> r[k] == outputs[k].0
  {
    seq(|outputs|, k requires 0 <= k < |outputs| => outputs[k].0)
  }

  /** The keywords of a job, in order. */
  lemma JobKeys(kind: string, tmp: Path, outputs: seq<(Keyword, string)>, preserveRam: bool, partition: Path)
    ensures Keys(PartitionJob(kind, tmp, outputs, preserveRam, partition)) ==
            [Partition, OutSqlCpy, OutSqlDel] + OutputKeywords(outputs) + [PreserveRam]
  {
    KeysInOrder(PartitionJob(kind, tmp, outputs, preserveRam, partition), outputs);
  }

  lemma KeysInOrder(job: Job, outputs: seq<(Keyword, string)>)
    requires |job| == |outputs| + 4
    requires job[0].0 == Partition && job[1].0 == OutSqlCpy && job[2].0 == OutSqlDel
    requires forall k :: 0 <= k < |outputs| ==> job[3 + k].0 == outputs[k].0
    requires job[|job| - 1].0 == PreserveRam
    ensures Keys(job) == [Partition, OutSqlCpy, OutSqlDel] + OutputKeywords(outputs) + [PreserveRam]
  {
    var ks := [Partition, OutSqlCpy, OutSqlDel] + OutputKeywords(outputs) + [PreserveRam];
    assert |Keys(job)| == |ks|;
    forall i | 0 <= i < |ks| ensures Keys(job)[i] == ks[i] {
      if 3 <= i < |ks| - 1 {
        assert job[i] == job[3 + (i - 3)];
      }
    }
  }

  /** Every job of the six other entities binds to its partition function. */
  lemma {:induction false} JobsBind(t: ObjectType, tmp: Path, preserveRam: bool, partition: Path)
    requires t != Work
    ensures Bind(Parameters(t), PartitionJob(TypeLiteral(t), tmp, Outputs(t), preserveRam, partition)).None?
  {
    FixedJobsBind(t, tmp, preserveRam, partition);
  }

  /** With the works outputs completed, every job binds. */
  lemma {:induction false} FixedJobsBind(t: ObjectType, tmp: Path, preserveRam: bool, partition: Path)
    ensures Bind(Parameters(t), PartitionJob(TypeLiteral(t), tmp, FixedOutputs(t), preserveRam, partition)).None?
  {
    var job := PartitionJob(TypeLiteral(t), tmp, FixedOutputs(t), preserveRam, partition);
    JobKeys(TypeLiteral(t), tmp, FixedOutputs(t), preserveRam, partition);
    FixedKeywords(t);
    BindExact(Parameters(t), job);
  }

  /** The completed outputs supply each partition function's parameters, in
      order. */
  lemma FixedKeywords(t: ObjectType)
    ensures [Partition, OutSqlCpy, OutSqlDel] + OutputKeywords(FixedOutputs(t)) + [PreserveRam] == Parameters(t)
  {
    match t
    case Author =>
    case Institution => assert OutputKeywords(FixedOutputs(t)) == [OutInstitutions, OutM2mAssociation, OutM2mConcepts];
    case Publisher =>
    case Funder =>
    case Concept => assert OutputKeywords(FixedOutputs(t)) == [OutConcepts, OutM2mAncestor, OutM2mRelated];
    case Source =>
    case Work =>
      assert OutputKeywords(FixedOutputs(t)) == [OutWorks, OutM2mLocations, OutM2mConcepts, OutM2mAuthorships,
                                                  OutM2mAuthorshipInstitutions, OutM2mReferences, OutM2mRelated, OutM2mSdgs];
  }

  /** A job whose keywords are exactly the parameters, in order, binds. */
  lemma BindExact(params: seq<Keyword>, job: Job)
    requires Keys(job) == params
    ensures Bind(params, job).None?
  {
    UnknownMembers(params, params);
    MissingMembers(params, params);
  }

  /** Every works job lacks the authorship-institution and goal outputs, so
      calling it raises before any work is flattened. */
  lemma WorksJobsMissTwoOutputs(tmp: Path, preserveRam: bool, partition: Path)
    ensures Bind(Parameters(Work), PartitionJob("work", tmp, Outputs(Work), preserveRam, partition)) ==
            Some(MissingArguments(KeywordNames([OutM2mAuthorshipInstitutions, OutM2mSdgs])))
  {
    WorksJobKeywords(tmp, preserveRam, partition);
    WorksUnknown();
    WorksMissing();
  }

  lemma WorksJobKeywords(tmp: Path, preserveRam: bool, partition: Path)
    ensures Keys(PartitionJob("work", tmp, Outputs(Work), preserveRam, partition)) == WorksJobKeys
  {
    JobKeys("work", tmp, Outputs(Work), preserveRam, partition);
    WorksOutputKeys();
  }

  lemma WorksOutputKeys()
    ensures [Partition, OutSqlCpy, OutSqlDel] + OutputKeywords(Outputs(Work)) + [PreserveRam] == WorksJobKeys
  {
    assert OutputKeywords(Outputs(Work)) ==
           [OutWorks, OutM2mLocations, OutM2mConcepts, OutM2mAuthorships, OutM2mReferences, OutM2mRelated];
  }

  /** The keywords of a works job. */
  const WorksJobKeys := [Partition, OutSqlCpy, OutSqlDel, OutWorks, OutM2mLocations, OutM2mConcepts,
                         OutM2mAuthorships, OutM2mReferences, OutM2mRelated, PreserveRam]

  lemma WorksUnknown()
    ensures Unknown(Parameters(Work), WorksJobKeys) == []
  {
    UnknownMembers(Parameters(Work), WorksJobKeys);
  }

  lemma {:induction false} MissingAppend(a: seq<Keyword>, b: seq<Keyword>, keys: seq<Keyword>)
    ensures Missing(a + b, keys) == Missing(a, keys) + Missing(b, keys)
    decreases |a|
  {
    if |a| > 0 {
      assert (a + b)[1..] == a[1..] + b;
      MissingAppend(a[1..], b, keys);
    } else {
      assert a + b == b;
    }
  }

  lemma WorksMissing()
    ensures Missing(Parameters(Work), WorksJobKeys) == [OutM2mAuthorshipInstitutions, OutM2mSdgs]
  {
    var head := [Partition, OutSqlCpy, OutSqlDel, OutWorks, OutM2mLocations, OutM2mConcepts, OutM2mAuthorships];
    var tail := [OutM2mAuthorshipInstitutions, OutM2mReferences, OutM2mRelated, OutM2mSdgs, PreserveRam];
    assert Parameters(Work) == head + tail;
    MissingAppend(head, tail, WorksJobKeys);
    WorksMissingHead();
    WorksMissingTail();
  }

  lemma WorksMissingHead()
    ensures Missing([Partition, OutSqlCpy, OutSqlDel, OutWorks, OutM2mLocations, OutM2mConcepts, OutM2mAuthorships],
                    WorksJobKeys) == []
  {
  }

  lemma WorksMissingTail()
    ensures Missing([OutM2mAuthorshipInstitutions, OutM2mReferences, OutM2mRelated, OutM2mSdgs, PreserveRam],
                    WorksJobKeys) == [OutM2mAuthorshipInstitutions, OutM2mSdgs]
  {
  }

  /** `flatten_<entity>`: the jobs of the partitions found since the last
      update, the run, and then, unless `skip_deletion`, the merge-file
      deletion script; an exception from the run means no script. */
  datatype EntityRun = EntityRun(dispatch: Dispatch, merge: Option<(Path, string, Option<Fault>)>)

  method FlattenEntity(t: ObjectType, tmp: Path, partitions: seq<Path>, merged: seq<CsvRows>, lastUpdate: string,
                       parallelism: int, skipDeletion: bool, override: bool, preserveRam: bool,
                       sizes: Sizes, call: Job -> Option<Fault>)
    returns (r: EntityRun)
    ensures r.dispatch == RunSpec(Parameters(t), call, PartitionJobs(TypeLiteral(t), tmp, FixedOutputs(t), preserveRam, partitions),
                                  parallelism, override, sizes)
    ensures r.merge.Some? <==> !skipDeletion && !Raised(r.dispatch)
    ensures r.merge.Some? ==>
              r.merge.value.0 == Child(tmp, "pg-" + TypeLiteral(t) + "-" + lastUpdate + "-merged_del.sql") &&
              (r.merge.value.1, r.merge.value.2) == MergeScript(merged, t, BatchSize)
  {
    var jobs := PartitionJobs(TypeLiteral(t), tmp, FixedOutputs(t), preserveRam, partitions);
    var d := Run(Parameters(t), call, jobs, parallelism, override, sizes);
    if Raised(d) || skipDeletion {
      r := EntityRun(d, None);
    } else {
      var text, fault := GenerateDeletionsFromMergeFile(merged, t, BatchSize);
      r := EntityRun(d, Some((Child(tmp, "pg-" + TypeLiteral(t) + "-" + lastUpdate + "-merged_del.sql"), text, fault)));
    }
  }

  /** A sequential run whose first job raises calls that job alone. */
  lemma SequentialFirstRaises(run: Job -> Option<Fault>, todo: seq<Job>)
    requires |todo| > 0 && run(todo[0]).Some?
    ensures Sequential(run, todo) == ([todo[0]], run(todo[0]))
  {
    assert todo[..1][..0] == [];
    SequentialStops(run, todo, 1);
  }

  /** In sequential mode, a works run with at least one job to do stops at
      its first job, and writes no merge-file deletion script. */
  lemma WorksRunStopsAtFirstJob(tmp: Path, partitions: seq<Path>, override: bool, sizes: Sizes,
                                preserveRam: bool, call: Job -> Option<Fault>)
    requires |Selected(PartitionJobs("work", tmp, Outputs(Work), preserveRam, partitions), sizes, override)| > 0
    ensures var d := RunSpec(Parameters(Work), call, PartitionJobs("work", tmp, Outputs(Work), preserveRam, partitions), 1, override, sizes);
            && d.InOrder? && |d.called| == 1
            && d.fault == Some(MissingArguments(KeywordNames([OutM2mAuthorshipInstitutions, OutM2mSdgs])))
            && Raised(d)
  {
    var params := Parameters(Work);
    var jobs := PartitionJobs("work", tmp, Outputs(Work), preserveRam, partitions);
    var todo := Selected(jobs, sizes, override);
    assert todo[0] in todo;
    var i :| 0 <= i < |jobs| && jobs[i] == todo[0];
    WorksJobsMissTwoOutputs(tmp, preserveRam, partitions[i]);
    assert Bind(params, todo[0]) == Some(MissingArguments(KeywordNames([OutM2mAuthorshipInstitutions, OutM2mSdgs])));
    SequentialFirstRaises(Invoker(params, call), todo);
  }
}
