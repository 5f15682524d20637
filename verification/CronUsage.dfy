/** Aggregating cron run logs: token and run totals per job and per model of a job. */
module CronUsage {
  import opened Options
  import opened Texts
  import opened OrderedMaps

  // A number field of a parsed log line.
  datatype Num = Undefined | Null | Number(n: real)

  datatype Usage = Usage(inputTokens: Num, outputTokens: Num, totalTokens: Num)

  datatype Entry = Entry(ts: real, jobId: Text, model: Option<Text>, usage: Option<Usage>)

  // The time window and the filters; an empty filter lets everything through.
  datatype Query = Query(fromMs: real, toMs: real, jobId: Text, model: Text)

  /** A token count as it is read: a number, or none. */
  datatype Count = Count(n: nat, nan: bool) {
    function Plus(c: Count): Count {
      Count(n + c.n, nan || c.nan)
    }
  }

  const ZERO := Count(0, false)
  const NAN := Count(0, true)

  /** The counters of a record, with how many of the values added to each token counter were no
      numbers: the counter reads as NaN when there is one. */
  datatype Tally = Tally(runs: nat, missingUsageRuns: nat, input: nat, output: nat, total: nat,
                         inputNaNs: nat, outputNaNs: nat, totalNaNs: nat) {
    function Plus(t: Tally): Tally {
      Tally(runs + t.runs, missingUsageRuns + t.missingUsageRuns, input + t.input, output + t.output, total + t.total,
            inputNaNs + t.inputNaNs, outputNaNs + t.outputNaNs, totalNaNs + t.totalNaNs)
    }
  }

  const NOTHING := Tally(0, 0, 0, 0, 0, 0, 0, 0)

  /** The counters of one run. */
  function OneRunTally(hasUsage: bool, i: Count, o: Count, t: Count): Tally {
    Tally(1, if hasUsage then 0 else 1, i.n, o.n, t.n,
          if i.nan then 1 else 0, if o.nan then 1 else 0, if t.nan then 1 else 0)
  }

  type Models = OrderedMap<Text, Tally>

  datatype JobAgg = JobAgg(tally: Tally, models: Models)

  type Totals = OrderedMap<Text, JobAgg>

  // What the loop ends with.
  datatype Outcome = Done(totals: Totals) | Thrown

  // The names every object inherits are a parameter; a lookup under one of them finds a value that
  // is no record of the tables. `__proto__` finds the object all others inherit from.
  function ProtoName(): Text {
    [0x5F, 0x5F, 0x70, 0x72, 0x6F, 0x74, 0x6F, 0x5F, 0x5F]
  }

  function ToStringName(): Text {
    [0x74, 0x6F, 0x53, 0x74, 0x72, 0x69, 0x6E, 0x67]
  }

  // Which counters have been written into that object: every object inherits them from then on.
  datatype Written = Written(runs: bool, missing: bool, tokens: bool)

  const UNTOUCHED := Written(false, false, false)

  function RunsName(): Text {
    [0x72, 0x75, 0x6E, 0x73]
  }

  function MissingUsageRunsName(): Text {
    [0x6D, 0x69, 0x73, 0x73, 0x69, 0x6E, 0x67, 0x55, 0x73, 0x61, 0x67, 0x65, 0x52, 0x75, 0x6E, 0x73]
  }

  function InputTokensName(): Text {
    [0x69, 0x6E, 0x70, 0x75, 0x74, 0x5F, 0x74, 0x6F, 0x6B, 0x65, 0x6E, 0x73]
  }

  function OutputTokensName(): Text {
    [0x6F, 0x75, 0x74, 0x70, 0x75, 0x74, 0x5F, 0x74, 0x6F, 0x6B, 0x65, 0x6E, 0x73]
  }

  function TotalTokensName(): Text {
    [0x74, 0x6F, 0x74, 0x61, 0x6C, 0x5F, 0x74, 0x6F, 0x6B, 0x65, 0x6E, 0x73]
  }

  function Names(w: Written): set<Text> {
    (if w.runs then {RunsName()} else {}) + (if w.missing then {MissingUsageRunsName()} else {})
    + (if w.tokens then {InputTokensName(), OutputTokensName(), TotalTokensName()} else {})
  }

  function UnknownName(): Text {
    [0x3C, 0x75, 0x6E, 0x6B, 0x6E, 0x6F, 0x77, 0x6E, 0x3E]
  }

  function ModelOf(e: Entry): Text {
    var model := Trim(if e.model.Some? then e.model.value else UnknownName());
    if model == [] then UnknownName() else model
  }

  predicate Accepted(q: Query, e: Entry) {
    && q.fromMs <= e.ts <= q.toMs
    && (q.jobId == [] || e.jobId == q.jobId)
    && (q.model == [] || ModelOf(e) == q.model)
  }

  /** Usage is missing when the first of total, input and output that is set is undefined; an
      explicit null output counts as set, and so does any field that inherits a counter. */
  predicate HasUsage(e: Entry, w: Written) {
    && e.usage.Some?
    && (w.tokens || e.usage.value.totalTokens.Number? || e.usage.value.inputTokens.Number?
        || !e.usage.value.outputTokens.Undefined?)
  }

  function Tokens(n: real): nat {
    if n <= 0.0 then 0 else n.Floor
  }

  /** The count in a field; an absent one is inherited where there is something to inherit. */
  function CountOr(n: Num, w: Written, other: Count): Count {
    if n.Number? then Count(Tokens(n.n), false) else if n.Undefined? && w.tokens then NAN else other
  }

  /** What one entry adds to its job and model. */
  function Contribution(e: Entry, w: Written): Tally {
    if !HasUsage(e, w) then OneRunTally(false, ZERO, ZERO, ZERO)
    else
      var input, output := CountOr(e.usage.value.inputTokens, w, ZERO), CountOr(e.usage.value.outputTokens, w, ZERO);
      OneRunTally(true, input, output, CountOr(e.usage.value.totalTokens, w, input.Plus(output)))
  }

  // An accepted entry, as far as the totals go.
  datatype Run = Run(jobId: Text, model: Text, tally: Tally)

  function RunOf(e: Entry, w: Written): Run {
    Run(e.jobId, ModelOf(e), Contribution(e, w))
  }

  /** What has been written once this run is counted, too. */
  function WriteMore(w: Written, r: Run): Written {
    if r.model != ProtoName() then w
    else if r.tally.missingUsageRuns > 0 then Written(true, true, w.tokens)
    else Written(true, w.missing, true)
  }

  function WrittenBy(runs: seq<Run>): Written {
    if runs == [] then UNTOUCHED else WriteMore(WrittenBy(runs[..|runs| - 1]), runs[|runs| - 1])
  }

  /** The accepted entries of a log, in order. */
  function Runs(log: seq<Entry>, q: Query): seq<Run> {
    if log == [] then []
    else
      var front, last := Runs(log[..|log| - 1], q), log[|log| - 1];
      if Accepted(q, last) then front + [RunOf(last, WrittenBy(front))] else front
  }

  /** Entries are counted once each, with or without usage; a run without usage adds no tokens. */
  lemma ContributionCounts(e: Entry, w: Written)
    ensures Contribution(e, w).runs == 1
    ensures Contribution(e, w).missingUsageRuns == if HasUsage(e, w) then 0 else 1
    ensures !HasUsage(e, w) ==> Contribution(e, w) == OneRunTally(false, ZERO, ZERO, ZERO)
  {
  }

  // ---- the aggregation ----

  function TallyOf(models: Models, model: Text): Tally {
    if model in models.m then models.m[model] else NOTHING
  }

  function JobOf(totals: Totals, jobId: Text): JobAgg {
    if jobId in totals.m then totals.m[jobId] else JobAgg(NOTHING, Empty())
  }

  /** One run in a job's record. Under an inherited model name the counters of the inherited value
      are increased and no record is made. */
  function AddTally(job: JobAgg, model: Text, c: Tally, names: set<Text>): JobAgg {
    JobAgg(job.tally.Plus(c), if model in names then job.models else job.models.Set(model, TallyOf(job.models, model).Plus(c)))
  }

  function AddRun(totals: Totals, r: Run, names: set<Text>): Totals {
    totals.Set(r.jobId, AddTally(JobOf(totals, r.jobId), r.model, r.tally, names))
  }

  function TotalsOf(runs: seq<Run>, names: set<Text>): Totals {
    if runs == [] then Empty() else AddRun(TotalsOf(runs[..|runs| - 1], names), runs[|runs| - 1], names)
  }

  /** A run stops the loop when its job has an inherited name, or when its job or its model has no
      record yet and the name of a counter that every object inherits by now. */
  predicate Throws(totals: Totals, w: Written, jobId: Text, model: Text, names: set<Text>) {
    || jobId in names
    || (jobId in Names(w) && jobId !in totals.m)
    || (model in Names(w) && model !in names && model !in JobOf(totals, jobId).models.m)
  }

  function AddOrStop(before: Outcome, w: Written, r: Run, names: set<Text>): Outcome {
    if !before.Done? then before
    else if Throws(before.totals, w, r.jobId, r.model, names) then Thrown
    else Done(AddRun(before.totals, r, names))
  }

  function Report(runs: seq<Run>, names: set<Text>): Outcome {
    if runs == [] then Done(Empty())
    else
      var front := runs[..|runs| - 1];
      AddOrStop(Report(front, names), WrittenBy(front), runs[|runs| - 1], names)
  }

  lemma {:induction false} ReportTotals(runs: seq<Run>, names: set<Text>)
    ensures Report(runs, names).Done? ==> Report(runs, names).totals == TotalsOf(runs, names)
  {
    if runs != [] {
      ReportTotals(runs[..|runs| - 1], names);
    }
  }

  ghost predicate JobBefore(runs: seq<Run>, i: nat, jobId: Text)
    requires i <= |runs|
  {
    exists r :: r in runs[..i] && Counts(OfJob(jobId), r)
  }

  ghost predicate ModelBefore(runs: seq<Run>, i: nat, jobId: Text, model: Text)
    requires i <= |runs|
  {
    exists r :: r in runs[..i] && Counts(OfModel(jobId, model), r)
  }

  /** The i-th run does not stop the loop. */
  ghost predicate Survives(runs: seq<Run>, i: nat, names: set<Text>)
    requires i < |runs|
  {
    var r, written := runs[i], Names(WrittenBy(runs[..i]));
    && r.jobId !in names
    && (r.jobId in written ==> JobBefore(runs, i, r.jobId))
    && (r.model in written && r.model !in names ==> ModelBefore(runs, i, r.jobId, r.model))
  }

  lemma SurvivesExactly(runs: seq<Run>, r: Run, names: set<Text>)
    ensures Throws(TotalsOf(runs, names), WrittenBy(runs), r.jobId, r.model, names) <==> !Survives(runs + [r], |runs|, names)
  {
    assert (runs + [r])[..|runs|] == runs;
    JobsExact(runs, r.jobId, names);
    RecordsExact(runs, r.jobId, r.model, names);
  }

  lemma SurvivesSame(runs: seq<Run>, r: Run, names: set<Text>, i: nat)
    requires i < |runs|
    ensures Survives(runs + [r], i, names) <==> Survives(runs, i, names)
  {
    assert (runs + [r])[..i] == runs[..i];
  }

  /** The report ends with totals exactly when no run stops the loop: no job has an inherited name,
      and no job or model gets its first run under a counter's name after a run of the model
      `__proto__` has written that counter where all objects inherit it. */
  lemma {:induction false} ReportExactly(runs: seq<Run>, names: set<Text>)
    ensures Report(runs, names).Done? <==> forall i :: 0 <= i < |runs| ==> Survives(runs, i, names)
    ensures Report(runs, names).Done? ==> Report(runs, names).totals == TotalsOf(runs, names)
  {
    ReportTotals(runs, names);
    if runs != [] {
      var front, last := runs[..|runs| - 1], runs[|runs| - 1];
      ReportExactly(front, names);
      assert runs == front + [last];
      SurvivesExactly(front, last, names);
      forall i | 0 <= i < |front| ensures Survives(runs, i, names) <==> Survives(front, i, names) {
        SurvivesSame(front, last, names, i);
      }
    }
  }

  method Aggregate(log: seq<Entry>, q: Query, names: set<Text>) returns (r: Outcome)
    ensures r == Report(Runs(log, q), names)
  {
    var totalsByJob := Empty();
    var written := UNTOUCHED;
    var i := 0;
    while i < |log|
      invariant i <= |log| && Report(Runs(log[..i], q), names) == Done(totalsByJob)
      invariant written == WrittenBy(Runs(log[..i], q))
    {
      var entry := log[i];
      OneMore(log, q, i);
      i := i + 1;
      if entry.ts < q.fromMs || entry.ts > q.toMs {
        continue;
      }
      if q.jobId != [] && entry.jobId != q.jobId {
        continue;
      }
      var model := ModelOf(entry);
      if q.model != [] && model != q.model {
        continue;
      }
      OneRunMore(Runs(log[..i - 1], q), RunOf(entry, written), names);
      var next;
      var hasUsage, input, output, total := ReadUsage(entry, written);
      next, written := CountEntry(totalsByJob, written, entry.jobId, model, hasUsage, input, output, total, names);
      if next.Thrown? {
        Stops(log, q, names, i);
        return Thrown;
      }
      totalsByJob := next.totals;
    }
    assert log[..i] == log;
    return Done(totalsByJob);
  }

  lemma OneMore(log: seq<Entry>, q: Query, i: nat)
    requires i < |log|
    ensures var front := Runs(log[..i], q);
      Runs(log[..i + 1], q) == if Accepted(q, log[i]) then front + [RunOf(log[i], WrittenBy(front))] else front
  {
    assert log[..i + 1][..i] == log[..i];
  }

  lemma OneRunMore(runs: seq<Run>, r: Run, names: set<Text>)
    ensures Report(runs + [r], names) == AddOrStop(Report(runs, names), WrittenBy(runs), r, names)
    ensures WrittenBy(runs + [r]) == WriteMore(WrittenBy(runs), r)
  {
    assert (runs + [r])[..|runs|] == runs;
  }

  /** Once stopped, the loop has its outcome. */
  lemma {:induction false} Stops(log: seq<Entry>, q: Query, names: set<Text>, i: nat)
    requires i <= |log| && !Report(Runs(log[..i], q), names).Done?
    ensures Report(Runs(log, q), names) == Thrown
    decreases |log| - i
  {
    if i < |log| {
      OneMore(log, q, i);
      OneRunMore(Runs(log[..i], q), RunOf(log[i], WrittenBy(Runs(log[..i], q))), names);
      Stops(log, q, names, i + 1);
    } else {
      assert log[..i] == log;
    }
  }

  /** One accepted entry; a run of the model `__proto__` writes its counters for all objects. */
  method CountEntry(totals: Totals, written: Written, jobId: Text, model: Text, hasUsage: bool,
                    input: Count, output: Count, total: Count, names: set<Text>)
      returns (next: Outcome, w: Written)
    requires !hasUsage ==> input == output == total == ZERO
    ensures var r := Run(jobId, model, OneRunTally(hasUsage, input, output, total));
      next == AddOrStop(Done(totals), written, r, names) && w == WriteMore(written, r)
  {
    w := written;
    if model == ProtoName() {
      w := if hasUsage then Written(true, written.missing, true) else Written(true, true, written.tokens);
    }
    if Throws(totals, written, jobId, model, names) {
      return Thrown, w;
    }
    var r := AddEntry(totals, jobId, model, hasUsage, input, output, total, names);
    next := Done(r);
  }

  /** Read the token counts of an entry; without usage they stay unread. */
  method ReadUsage(entry: Entry, written: Written) returns (hasUsage: bool, input: Count, output: Count, total: Count)
    ensures Contribution(entry, written) == OneRunTally(hasUsage, input, output, total)
    ensures hasUsage == HasUsage(entry, written) && (!hasUsage ==> input == output == total == ZERO)
  {
    hasUsage, input, output, total := HasUsage(entry, written), ZERO, ZERO, ZERO;
    if hasUsage {
      var usage := entry.usage.value;
      input := CountOr(usage.inputTokens, written, ZERO);
      output := CountOr(usage.outputTokens, written, ZERO);
      total := CountOr(usage.totalTokens, written, input.Plus(output));
    }
  }

  /** Counter by counter, one more run in a record. */
  method CountRun(agg: Tally, hasUsage: bool, input: Count, output: Count, total: Count) returns (r: Tally)
    requires !hasUsage ==> input == output == total == ZERO
    ensures r == agg.Plus(OneRunTally(hasUsage, input, output, total))
  {
    r := agg.(runs := agg.runs + 1);
    if !hasUsage {
      r := r.(missingUsageRuns := r.missingUsageRuns + 1);
    } else {
      r := r.(input := r.input + input.n, inputNaNs := r.inputNaNs + if input.nan then 1 else 0);
      r := r.(output := r.output + output.n, outputNaNs := r.outputNaNs + if output.nan then 1 else 0);
      r := r.(total := r.total + total.n, totalNaNs := r.totalNaNs + if total.nan then 1 else 0);
    }
  }

  /** The job's and the model's record of one accepted entry. */
  method AddEntry(totals: Totals, jobId: Text, model: Text, hasUsage: bool, input: Count, output: Count, total: Count,
                  names: set<Text>)
      returns (r: Totals)
    requires !hasUsage ==> input == output == total == ZERO
    ensures r == AddRun(totals, Run(jobId, model, OneRunTally(hasUsage, input, output, total)), names)
  {
    var job := JobOf(totals, jobId);
    var jobAgg := CountRun(job.tally, hasUsage, input, output, total);
    var models := job.models;
    if model !in names {
      var modelAgg := CountRun(TallyOf(job.models, model), hasUsage, input, output, total);
      models := models.Set(model, modelAgg);
    }
    r := totals.Set(jobId, JobAgg(jobAgg, models));
  }

  // ---- every record is the sum over its runs ----

  /** Which runs to sum over. */
  datatype Who = Everyone | OfJob(jobId: Text) | OfModel(jobId: Text, model: Text) | OfModels(jobId: Text, models: set<Text>)

  predicate Counts(who: Who, r: Run) {
    match who
    case Everyone => true
    case OfJob(jobId) => r.jobId == jobId
    case OfModel(jobId, model) => r.jobId == jobId && r.model == model
    case OfModels(jobId, models) => r.jobId == jobId && r.model in models
  }

  function Sum(runs: seq<Run>, who: Who): Tally {
    if runs == [] then NOTHING
    else
      var front, last := Sum(runs[..|runs| - 1], who), runs[|runs| - 1];
      if Counts(who, last) then front.Plus(last.tally) else front
  }

  /** Each job's record is the sum over exactly its runs, and there is one exactly for the jobs that
      have a run. */
  lemma {:induction false} JobsExact(runs: seq<Run>, jobId: Text, names: set<Text>)
    ensures JobOf(TotalsOf(runs, names), jobId).tally == Sum(runs, OfJob(jobId))
    ensures jobId in TotalsOf(runs, names).m <==> exists r :: r in runs && Counts(OfJob(jobId), r)
  {
    if runs != [] {
      var front, last := runs[..|runs| - 1], runs[|runs| - 1];
      JobsExact(front, jobId, names);
      assert runs == front + [last];
    }
  }

  /** The same holds of a model's record in a job, unless the model has an inherited name: then
      there is none. */
  lemma {:induction false} RecordsExact(runs: seq<Run>, jobId: Text, model: Text, names: set<Text>)
    ensures var models := JobOf(TotalsOf(runs, names), jobId).models;
      && (model !in names ==> TallyOf(models, model) == Sum(runs, OfModel(jobId, model)))
      && (model in models.m <==> model !in names && exists r :: r in runs && Counts(OfModel(jobId, model), r))
  {
    if runs != [] {
      var front, last := runs[..|runs| - 1], runs[|runs| - 1];
      RecordsExact(front, jobId, model, names);
      assert runs == front + [last];
    }
  }

  // ---- conservation ----

  function Total(keys: seq<Text>, tallies: map<Text, Tally>): Tally {
    if keys == [] then NOTHING
    else Total(keys[..|keys| - 1], tallies).Plus(TallyIn(tallies, keys[|keys| - 1]))
  }

  function TallyIn(tallies: map<Text, Tally>, key: Text): Tally {
    if key in tallies then tallies[key] else NOTHING
  }

  lemma {:induction false} TotalOthers(keys: seq<Text>, tallies: map<Text, Tally>, key: Text, t: Tally)
    requires key !in keys
    ensures Total(keys, tallies[key := t]) == Total(keys, tallies)
  {
    if keys != [] {
      TotalOthers(keys[..|keys| - 1], tallies, key, t);
    }
  }

  lemma {:induction false} TotalGrows(keys: seq<Text>, tallies: map<Text, Tally>, key: Text, c: Tally)
    requires key in keys && key in tallies && Distinct(keys)
    ensures Total(keys, tallies[key := tallies[key].Plus(c)]) == Total(keys, tallies).Plus(c)
  {
    var front, last := keys[..|keys| - 1], keys[|keys| - 1];
    DistinctPrefix(keys, |front|);
    if key == last {
      TotalOthers(front, tallies, key, tallies[key].Plus(c));
      PlusSwaps(Total(front, tallies), tallies[key], c);
    } else {
      TotalGrows(front, tallies, key, c);
      PlusSwaps(Total(front, tallies), c, TallyIn(tallies, last));
    }
  }

  function Whole(models: Models): Tally {
    Total(models.keys, models.m)
  }

  lemma WholeGrows(models: Models, key: Text, c: Tally)
    requires models.Valid()
    ensures Whole(models.Set(key, TallyOf(models, key).Plus(c))) == Whole(models).Plus(c)
  {
    if key in models.m {
      TotalGrows(models.keys, models.m, key, c);
    } else {
      TotalOthers(models.keys, models.m, key, NOTHING.Plus(c));
      assert (models.keys + [key])[..|models.keys|] == models.keys;
    }
  }

  /** The jobs' own counters, as a map of the same shape. */
  function JobTallies(totals: Totals): OrderedMap<Text, Tally> {
    OrderedMap(totals.keys, map j | j in totals.m :: totals.m[j].tally)
  }

  /** A job's counters are the sums over its models. */
  ghost predicate Balanced(job: JobAgg) {
    job.tally == Whole(job.models)
  }

  /** A job's counters are the sums over its models and over some more runs. */
  ghost predicate Explained(job: JobAgg, lost: Tally) {
    job.tally == Whole(job.models).Plus(lost)
  }

  lemma AddTallyExplained(job: JobAgg, model: Text, c: Tally, names: set<Text>, lost: Tally)
    requires Explained(job, lost) && job.models.Valid()
    ensures Explained(AddTally(job, model, c, names), if model in names then lost.Plus(c) else lost)
  {
    WholeGrows(job.models, model, c);
    PlusSwaps(Whole(job.models), lost, c);
  }

  lemma PlusSwaps(a: Tally, b: Tally, c: Tally)
    ensures a.Plus(b).Plus(c) == a.Plus(b.Plus(c)) == a.Plus(c).Plus(b)
    ensures a.Plus(NOTHING) == a && (a.Plus(b) == a ==> b.runs == 0)
  {
  }

  lemma {:induction false} JobsValid(runs: seq<Run>, jobId: Text, names: set<Text>)
    ensures JobOf(TotalsOf(runs, names), jobId).models.Valid()
  {
    if runs != [] {
      var front, last := runs[..|runs| - 1], runs[|runs| - 1];
      JobsValid(front, jobId, names);
      var models := JobOf(TotalsOf(front, names), jobId).models;
      models.SetValid(last.model, TallyOf(models, last.model).Plus(last.tally));
    }
  }

  lemma {:induction false} AllTotalsValid(runs: seq<Run>, names: set<Text>)
    ensures TotalsOf(runs, names).Valid()
  {
    if runs != [] {
      var front, last := runs[..|runs| - 1], runs[|runs| - 1];
      AllTotalsValid(front, names);
      var t := TotalsOf(front, names);
      t.SetValid(last.jobId, AddTally(JobOf(t, last.jobId), last.model, last.tally, names));
    }
  }

  lemma ExplainedMore(totals: Totals, r: Run, jobId: Text, names: set<Text>, lost: Tally)
    requires Explained(JobOf(totals, jobId), lost) && JobOf(totals, jobId).models.Valid()
    ensures Explained(JobOf(AddRun(totals, r, names), jobId),
                      if r.jobId == jobId && r.model in names then lost.Plus(r.tally) else lost)
  {
    AddTallyExplained(JobOf(totals, jobId), r.model, r.tally, names, lost);
    JobOfAdded(totals, r, jobId, names);
  }

  lemma EmptyExplained()
    ensures Explained(JobAgg(NOTHING, Empty()), NOTHING)
  {
    assert Whole(Empty()) == NOTHING;
    PlusSwaps(NOTHING, NOTHING, NOTHING);
  }

  /** A job's counters are the sums over its models and over its runs under inherited names. */
  lemma {:induction false} JobsBalanced(runs: seq<Run>, jobId: Text, names: set<Text>)
    ensures Explained(JobOf(TotalsOf(runs, names), jobId), Sum(runs, OfModels(jobId, names)))
  {
    if runs == [] {
      EmptyExplained();
    } else {
      var front, last := runs[..|runs| - 1], runs[|runs| - 1];
      JobsBalanced(front, jobId, names);
      JobsValid(front, jobId, names);
      ExplainedMore(TotalsOf(front, names), last, jobId, names, Sum(front, OfModels(jobId, names)));
    }
  }

  lemma JobOfAdded(totals: Totals, r: Run, jobId: Text, names: set<Text>)
    ensures JobOf(AddRun(totals, r, names), jobId)
         == if r.jobId == jobId then AddTally(JobOf(totals, jobId), r.model, r.tally, names) else JobOf(totals, jobId)
  {
  }

  lemma AddRunTallies(t: Totals, r: Run, names: set<Text>)
    ensures JobTallies(AddRun(t, r, names)) == JobTallies(t).Set(r.jobId, TallyOf(JobTallies(t), r.jobId).Plus(r.tally))
  {
    var job := AddTally(JobOf(t, r.jobId), r.model, r.tally, names);
    assert job.tally == TallyOf(JobTallies(t), r.jobId).Plus(r.tally);
    assert JobTallies(t.Set(r.jobId, job)).m == JobTallies(t).m[r.jobId := job.tally];
  }

  lemma {:induction false} JobsAddUp(runs: seq<Run>, names: set<Text>)
    ensures Whole(JobTallies(TotalsOf(runs, names))) == Sum(runs, Everyone)
  {
    if runs != [] {
      var front, last := runs[..|runs| - 1], runs[|runs| - 1];
      JobsAddUp(front, names);
      AllTotalsValid(front, names);
      AddRunTallies(TotalsOf(front, names), last, names);
      WholeGrows(JobTallies(TotalsOf(front, names)), last.jobId, last.tally);
    }
  }

  /** When each run counts one, sums count runs. */
  lemma {:induction false} SumCounts(runs: seq<Run>, who: Who)
    requires forall i :: 0 <= i < |runs| ==> runs[i].tally.runs == 1
    ensures Sum(runs, Everyone).runs == |runs|
    ensures Sum(runs, who).runs == 0 ==> Sum(runs, who) == NOTHING
    ensures Sum(runs, who).runs == 0 <==> forall i :: 0 <= i < |runs| ==> !Counts(who, runs[i])
  {
    if runs != [] {
      SumCounts(runs[..|runs| - 1], who);
    }
  }

  lemma {:induction false} RunsCountOne(log: seq<Entry>, q: Query)
    ensures forall i :: 0 <= i < |Runs(log, q)| ==> Runs(log, q)[i].tally.runs == 1
  {
    if log != [] {
      var front := log[..|log| - 1];
      RunsCountOne(front, q);
      ContributionCounts(log[|log| - 1], WrittenBy(Runs(front, q)));
    }
  }

  /** Whenever the report has totals, nothing is counted twice: the jobs' counters sum to those of
      the whole log, and the jobs' runs to the number of accepted entries. A job's counters are
      the sums over its models exactly when none of its runs has an inherited model name. */
  lemma Conserved(log: seq<Entry>, q: Query, names: set<Text>)
    requires Report(Runs(log, q), names).Done?
    ensures var runs, totals := Runs(log, q), Report(Runs(log, q), names).totals;
      && JobTallies(totals).Valid() && Whole(JobTallies(totals)) == Sum(runs, Everyone)
      && Whole(JobTallies(totals)).runs == |runs|
      && forall j :: j in totals.m ==>
           (Balanced(totals.m[j]) <==> NoneInherited(runs, j, names))
  {
    var runs := Runs(log, q);
    var totals := TotalsOf(runs, names);
    ReportExactly(runs, names);
    RunsCountOne(log, q);
    JobsAddUp(runs, names);
    AllTotalsValid(runs, names);
    SumCounts(runs, Everyone);
    forall j | j in totals.m
      ensures Balanced(totals.m[j]) <==> NoneInherited(runs, j, names)
    {
      JobsBalanced(runs, j, names);
      BalancedExactly(totals.m[j], runs, j, names);
    }
  }

  /** No run of the job has an inherited model name. */
  ghost predicate NoneInherited(runs: seq<Run>, j: Text, names: set<Text>) {
    forall i :: 0 <= i < |runs| ==> !(runs[i].jobId == j && runs[i].model in names)
  }

  lemma BalancedExactly(job: JobAgg, runs: seq<Run>, j: Text, names: set<Text>)
    requires Explained(job, Sum(runs, OfModels(j, names)))
    requires forall i :: 0 <= i < |runs| ==> runs[i].tally.runs == 1
    ensures Balanced(job) == NoneInherited(runs, j, names)
  {
    SumCounts(runs, OfModels(j, names));
    ExplainedBalanced(job, Sum(runs, OfModels(j, names)));
    NothingLost(runs, j, names);
  }

  lemma ExplainedBalanced(job: JobAgg, lost: Tally)
    requires Explained(job, lost) && (lost.runs == 0 ==> lost == NOTHING)
    ensures Balanced(job) <==> lost == NOTHING
  {
    PlusSwaps(Whole(job.models), lost, NOTHING);
    assert lost == NOTHING || lost.runs > 0;
  }

  lemma NothingLost(runs: seq<Run>, j: Text, names: set<Text>)
    requires forall i :: 0 <= i < |runs| ==> runs[i].tally.runs == 1
    ensures Sum(runs, OfModels(j, names)) == NOTHING <==> NoneInherited(runs, j, names)
  {
    SumCounts(runs, OfModels(j, names));
    assert forall i :: 0 <= i < |runs| ==>
      (Counts(OfModels(j, names), runs[i]) <==> runs[i].jobId == j && runs[i].model in names);
  }

  // ---- missing usage ----

  /** The entry names a count. */
  predicate Metered(e: Entry) {
    && e.usage.Some?
    && (e.usage.value.totalTokens.Number? || e.usage.value.inputTokens.Number? || e.usage.value.outputTokens.Number?)
  }

  /** A run without a count is recorded as having usage exactly when its record has a null output,
      or inherits a counter. */
  lemma UsageWithoutCount(e: Entry, w: Written)
    requires !Metered(e)
    ensures HasUsage(e, w) <==> e.usage.Some? && (e.usage.value.outputTokens.Null? || w.tokens)
  {
  }

  /** The accepted entries without a count that are recorded as having usage. */
  function Miscounted(log: seq<Entry>, q: Query): nat {
    if log == [] then 0
    else
      var front, e := log[..|log| - 1], log[|log| - 1];
      Miscounted(front, q)
      + if Accepted(q, e) && !Metered(e) && e.usage.Some?
           && (e.usage.value.outputTokens.Null? || WrittenBy(Runs(front, q)).tokens) then 1 else 0
  }

  function Unmetered(log: seq<Entry>, q: Query): nat {
    if log == [] then 0
    else Unmetered(log[..|log| - 1], q) + if Accepted(q, log[|log| - 1]) && !Metered(log[|log| - 1]) then 1 else 0
  }

  /** The missing-usage runs are the accepted entries without a count, short of exactly those with
      a null output and those that inherit a counter. */
  lemma {:induction false} MissingExactly(log: seq<Entry>, q: Query)
    ensures Sum(Runs(log, q), Everyone).missingUsageRuns + Miscounted(log, q) == Unmetered(log, q)
  {
    if log != [] {
      var front, last := log[..|log| - 1], log[|log| - 1];
      MissingExactly(front, q);
      assert log == front + [last];
      MissingStep(front, last, q);
      if !Metered(last) {
        UsageWithoutCount(last, WrittenBy(Runs(front, q)));
      }
    }
  }

  lemma MissingStep(front: seq<Entry>, e: Entry, q: Query)
    ensures Sum(Runs(front + [e], q), Everyone).missingUsageRuns
         == Sum(Runs(front, q), Everyone).missingUsageRuns
            + if Accepted(q, e) && !HasUsage(e, WrittenBy(Runs(front, q))) then 1 else 0
  {
    var runs := Runs(front, q);
    OneMore(front + [e], q, |front|);
    assert (front + [e])[..|front|] == front && (front + [e])[..|front| + 1] == front + [e];
    ContributionCounts(e, WrittenBy(runs));
    SumMore(runs, RunOf(e, WrittenBy(runs)), Everyone);
  }

  lemma SumMore(runs: seq<Run>, r: Run, who: Who)
    ensures Sum(runs + [r], who) == if Counts(who, r) then Sum(runs, who).Plus(r.tally) else Sum(runs, who)
  {
    assert (runs + [r])[..|runs|] == runs;
  }

  /** The counts null or absent: with a null output the run counts as having usage, with an absent
      one it does not. */
  lemma NullOutputCounts(e: Entry, f: Entry)
    requires e.usage == Some(Usage(Undefined, Null, Null)) && f.usage == Some(Usage(Undefined, Undefined, Null))
    ensures Contribution(e, UNTOUCHED) == OneRunTally(true, ZERO, ZERO, ZERO)
    ensures Contribution(f, UNTOUCHED) == OneRunTally(false, ZERO, ZERO, ZERO)
  {
    assert HasUsage(e, UNTOUCHED) && !HasUsage(f, UNTOUCHED);
    ContributionCounts(f, UNTOUCHED);
    assert CountOr(Undefined, UNTOUCHED, ZERO) == CountOr(Null, UNTOUCHED, ZERO) == ZERO;
  }

  // ---- sums that are no numbers ----

  predicate IsNumber(t: Tally) {
    t.inputNaNs == 0 && t.outputNaNs == 0 && t.totalNaNs == 0
  }

  /** Token counters have been written for all objects exactly once an accepted run of the model
      `__proto__` had usage. */
  lemma {:induction false} TaintedExactly(log: seq<Entry>, q: Query)
    ensures WrittenBy(Runs(log, q)).tokens <==> SomeTaints(log, q)
  {
    if log != [] {
      var front, last := log[..|log| - 1], log[|log| - 1];
      TaintedExactly(front, q);
      TaintStep(Runs(front, q), last);
      TaintsMore(log, q);
    }
  }

  ghost predicate SomeTaints(log: seq<Entry>, q: Query) {
    exists k :: 0 <= k < |log| && Taints(q, log[k])
  }

  lemma TaintsMore(log: seq<Entry>, q: Query)
    requires log != []
    ensures SomeTaints(log, q) <==> SomeTaints(log[..|log| - 1], q) || Taints(q, log[|log| - 1])
  {
    assert forall k :: 0 <= k < |log| - 1 ==> log[..|log| - 1][k] == log[k];
  }

  predicate Taints(q: Query, e: Entry) {
    Accepted(q, e) && ModelOf(e) == ProtoName() && HasUsage(e, UNTOUCHED)
  }

  lemma TaintStep(runs: seq<Run>, e: Entry)
    ensures WrittenBy(runs + [RunOf(e, WrittenBy(runs))]).tokens <==>
      WrittenBy(runs).tokens || (ModelOf(e) == ProtoName() && HasUsage(e, UNTOUCHED))
  {
    var r := RunOf(e, WrittenBy(runs));
    assert (runs + [r])[..|runs|] == runs;
    ContributionCounts(e, WrittenBy(runs));
  }

  /** The entry's usage record lacks a count that it then inherits. */
  ghost predicate Spoiled(log: seq<Entry>, q: Query, i: nat)
    requires i < |log|
  {
    && Accepted(q, log[i]) && log[i].usage.Some? && WrittenBy(Runs(log[..i], q)).tokens
    && (var u := log[i].usage.value; u.inputTokens.Undefined? || u.outputTokens.Undefined? || u.totalTokens.Undefined?)
  }

  lemma NumberExactly(e: Entry, w: Written)
    ensures IsNumber(Contribution(e, w)) <==>
      !(e.usage.Some? && w.tokens &&
        (var u := e.usage.value; u.inputTokens.Undefined? || u.outputTokens.Undefined? || u.totalTokens.Undefined?))
  {
  }

  /** The report's token sums are numbers exactly when no accepted usage record lacks a count after
      an accepted run of the model `__proto__` with usage. */
  lemma {:induction false} SumsAreNumbers(log: seq<Entry>, q: Query)
    ensures IsNumber(Sum(Runs(log, q), Everyone)) <==> forall i :: 0 <= i < |log| ==> !Spoiled(log, q, i)
  {
    if log != [] {
      var front, last := log[..|log| - 1], log[|log| - 1];
      SumsAreNumbers(front, q);
      assert log == front + [last];
      SumsStep(front, last, q);
      SpoiledSame(log, q);
      assert log[..|front|] == front;
    }
  }

  lemma SumsStep(front: seq<Entry>, e: Entry, q: Query)
    ensures IsNumber(Sum(Runs(front + [e], q), Everyone))
            <==> IsNumber(Sum(Runs(front, q), Everyone)) && !Spoiled(front + [e], q, |front|)
  {
    var runs := Runs(front, q);
    OneMore(front + [e], q, |front|);
    assert (front + [e])[..|front|] == front && (front + [e])[..|front| + 1] == front + [e];
    NumberExactly(e, WrittenBy(runs));
    SumNumber(runs, RunOf(e, WrittenBy(runs)));
  }

  lemma SumNumber(runs: seq<Run>, r: Run)
    ensures IsNumber(Sum(runs + [r], Everyone)) <==> IsNumber(Sum(runs, Everyone)) && IsNumber(r.tally)
  {
    SumMore(runs, r, Everyone);
  }

  lemma SpoiledSame(log: seq<Entry>, q: Query)
    requires log != []
    ensures var front := log[..|log| - 1];
      (forall i :: 0 <= i < |log| ==> !Spoiled(log, q, i))
      <==> (forall i :: 0 <= i < |front| ==> !Spoiled(front, q, i)) && !Spoiled(log, q, |front|)
  {
    var front := log[..|log| - 1];
    forall i | 0 <= i < |front| ensures Spoiled(front, q, i) <==> Spoiled(log, q, i) {
      assert log[..i] == front[..i];
    }
  }

  // ---- concrete logs ----

  lemma OneRun(log: seq<Entry>, q: Query)
    requires |log| == 1 && Accepted(q, log[0])
    ensures Runs(log, q) == [RunOf(log[0], UNTOUCHED)]
  {
    assert log[..0] == [];
  }

  lemma TwoRuns(log: seq<Entry>, q: Query)
    requires |log| == 2 && Accepted(q, log[0]) && Accepted(q, log[1])
    ensures var a := RunOf(log[0], UNTOUCHED);
      Runs(log, q) == [a, RunOf(log[1], WriteMore(UNTOUCHED, a))]
  {
    OneRun(log[..1], q);
    OneMore(log, q, 1);
    assert log[..2] == log;
    WrittenByOne(RunOf(log[0], UNTOUCHED));
  }

  lemma WrittenByOne(a: Run)
    ensures WrittenBy([a]) == WriteMore(UNTOUCHED, a)
  {
    assert [a][..0] == [];
  }

  /** A run of the model `toString` is counted for its job and for no model. */
  lemma InheritedModelLost(log: seq<Entry>, q: Query, names: set<Text>)
    requires ToStringName() in names && |log| == 1 && Accepted(q, log[0]) && log[0].jobId !in names
    requires log[0].model == Some(ToStringName()) && log[0].usage.None?
    ensures Report(Runs(log, q), names)
         == Done(OrderedMap([log[0].jobId], map[log[0].jobId := JobAgg(OneRunTally(false, ZERO, ZERO, ZERO), Empty())]))
  {
    TrimTrims(ToStringName());
    OneRun(log, q);
    LostRun(Runs(log, q), RunOf(log[0], UNTOUCHED), names);
  }

  lemma LostRun(runs: seq<Run>, r: Run, names: set<Text>)
    requires runs == [r] && r.model in names && r.jobId !in names
    ensures Report(runs, names) == Done(OrderedMap([r.jobId], map[r.jobId := JobAgg(r.tally, Empty())]))
  {
    assert runs[..0] == [];
    assert NOTHING.Plus(r.tally) == r.tally;
  }

  /** A job called `toString` makes the report throw. */
  lemma InheritedJobThrows(log: seq<Entry>, q: Query, names: set<Text>)
    requires ToStringName() in names && |log| == 1 && Accepted(q, log[0]) && log[0].jobId == ToStringName()
    ensures Report(Runs(log, q), names) == Thrown
  {
    OneRun(log, q);
    assert Runs(log, q)[..0] == [];
  }

  /** After a run of the model `__proto__`, a first job called `runs` makes the report throw. */
  lemma CounterJobThrows(log: seq<Entry>, q: Query, names: set<Text>)
    requires |log| == 2 && Accepted(q, log[0]) && Accepted(q, log[1])
    requires log[0].model == Some(ProtoName()) && log[0].jobId != RunsName() && log[1].jobId == RunsName()
    ensures Report(Runs(log, q), names) == Thrown
  {
    TrimTrims(ProtoName());
    TwoRuns(log, q);
    CounterStops(Runs(log, q), names);
  }

  lemma CounterStops(runs: seq<Run>, names: set<Text>)
    requires |runs| == 2 && runs[0].model == ProtoName() && runs[0].jobId != RunsName() && runs[1].jobId == RunsName()
    ensures Report(runs, names) == Thrown
  {
    assert runs[..1] == [runs[0]];
    WrittenByOne(runs[0]);
    assert !Survives(runs, 1, names);
    ReportExactly(runs, names);
  }

  /** After a run of the model `__proto__` with usage, a run that names only its total makes the
      input and output sums of the report no numbers. */
  lemma ProtoSpoils(log: seq<Entry>, q: Query)
    requires |log| == 2 && Accepted(q, log[0]) && Accepted(q, log[1])
    requires log[0].model == Some(ProtoName()) && log[0].usage == Some(Usage(Undefined, Undefined, Number(1.0)))
    requires log[1].usage == Some(Usage(Undefined, Undefined, Number(1.0)))
    ensures Sum(Runs(log, q), Everyone) == Tally(2, 0, 0, 0, 2, 1, 1, 0)
  {
    TaintedTallies(log, q);
    OnlyTotal(log[0], UNTOUCHED);
    OnlyTotal(log[1], Written(true, false, true));
    SumOfTwo(Runs(log, q), OneRunTally(true, ZERO, ZERO, Count(1, false)), OneRunTally(true, NAN, NAN, Count(1, false)));
  }

  lemma TaintedTallies(log: seq<Entry>, q: Query)
    requires |log| == 2 && Accepted(q, log[0]) && Accepted(q, log[1])
    requires log[0].model == Some(ProtoName()) && HasUsage(log[0], UNTOUCHED)
    ensures |Runs(log, q)| == 2
    ensures Runs(log, q)[0].tally == Contribution(log[0], UNTOUCHED)
    ensures Runs(log, q)[1].tally == Contribution(log[1], Written(true, false, true))
  {
    TwoRuns(log, q);
    ProtoTaints(log[0]);
  }

  lemma ProtoTaints(e: Entry)
    requires e.model == Some(ProtoName()) && HasUsage(e, UNTOUCHED)
    ensures WriteMore(UNTOUCHED, RunOf(e, UNTOUCHED)) == Written(true, false, true)
  {
    TrimTrims(ProtoName());
    ContributionCounts(e, UNTOUCHED);
  }

  lemma OnlyTotal(e: Entry, w: Written)
    requires e.usage == Some(Usage(Undefined, Undefined, Number(1.0)))
    ensures Contribution(e, w)
         == OneRunTally(true, if w.tokens then NAN else ZERO, if w.tokens then NAN else ZERO, Count(1, false))
  {
  }

  lemma SumOfTwo(runs: seq<Run>, a: Tally, b: Tally)
    requires |runs| == 2 && runs[0].tally == a && runs[1].tally == b
    ensures Sum(runs, Everyone) == a.Plus(b)
  {
    assert runs == [] + [runs[0]] + [runs[1]];
    SumMore([], runs[0], Everyone);
    SumMore([] + [runs[0]], runs[1], Everyone);
  }
}
