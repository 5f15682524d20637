/** What one log entry counts, which entries are counted, and under which names. */
module CronEntries {
  import opened Options
  import opened Texts
  import opened OrderedMaps
  import opened CronUsage

  // ---- what one entry counts ----

  /** n is the whole part of a token count as it is read, 0 for a negative or null one; an absent one
      reads as 0, or as no number when a token counter is inherited. */
  predicate CountIs(field: Num, w: Written, n: nat, nans: nat) {
    match field
    case Number(v) => nans == 0 && (if v < 1.0 then n == 0 else n as real <= v < n as real + 1.0)
    case Null => n == 0 && nans == 0
    case Undefined => n == 0 && nans == if w.tokens then 1 else 0
  }

  function Nans(c: Count): nat {
    if c.nan then 1 else 0
  }

  lemma FieldMeans(field: Num, w: Written)
    ensures var c := CountOr(field, w, ZERO); CountIs(field, w, c.n, Nans(c))
  {
  }

  /** The total is the one named, or else the sum of input and output. */
  ghost predicate TotalIs(field: Num, w: Written, total: Count, i: Count, o: Count) {
    if field.Number? || (field.Undefined? && w.tokens) then CountIs(field, w, total.n, Nans(total))
    else total.n == i.n + o.n && (total.nan <==> i.nan || o.nan)
  }

  lemma TotalMeans(field: Num, w: Written, i: Count, o: Count)
    ensures TotalIs(field, w, CountOr(field, w, i.Plus(o)), i, o)
  {
  }

  lemma ContributionParts(e: Entry, w: Written)
    requires e.usage.Some? && (Metered(e) || e.usage.value.outputTokens.Null? || w.tokens)
    ensures HasUsage(e, w)
    ensures var i, o := CountOr(e.usage.value.inputTokens, w, ZERO), CountOr(e.usage.value.outputTokens, w, ZERO);
      Contribution(e, w) == OneRunTally(true, i, o, CountOr(e.usage.value.totalTokens, w, i.Plus(o)))
  {
  }

  /** What an entry with usage adds: its input, its output, and its total, which is the sum of the two
      where the entry names none. */
  lemma ContributionMeans(e: Entry, w: Written) returns (input: Count, output: Count, total: Count)
    requires e.usage.Some? && (Metered(e) || e.usage.value.outputTokens.Null? || w.tokens)
    ensures Contribution(e, w) == Tally(1, 0, input.n, output.n, total.n, Nans(input), Nans(output), Nans(total))
    ensures CountIs(e.usage.value.inputTokens, w, input.n, Nans(input))
    ensures CountIs(e.usage.value.outputTokens, w, output.n, Nans(output))
    ensures TotalIs(e.usage.value.totalTokens, w, total, input, output)
  {
    input := CountOr(e.usage.value.inputTokens, w, ZERO);
    output := CountOr(e.usage.value.outputTokens, w, ZERO);
    total := CountOr(e.usage.value.totalTokens, w, input.Plus(output));
    ContributionParts(e, w);
    FieldMeans(e.usage.value.inputTokens, w);
    FieldMeans(e.usage.value.outputTokens, w);
    TotalMeans(e.usage.value.totalTokens, w, input, output);
  }

  /** The model an entry is counted under: its name without the whitespace around it, or `<unknown>`
      when it has none or a blank one. */
  lemma ModelNamed(e: Entry)
    ensures if e.model.Some? && !Blank(e.model.value) then Core(e.model.value, ModelOf(e)) && ModelOf(e) != []
            else ModelOf(e) == Ascii("<unknown>")
  {
    UnknownSpelled();
    if e.model.Some? {
      TrimCore(e.model.value);
      TrimTrims(e.model.value);
    } else {
      assert !IsSpace(UnknownName()[0]) && !IsSpace(UnknownName()[8]);
      TrimTrims(UnknownName());
    }
  }

  lemma UnknownSpelled()
    ensures UnknownName() == Ascii("<unknown>")
  {
  }

  lemma NamesSpelled()
    ensures ProtoName() == Ascii("__proto__") && ToStringName() == Ascii("toString") && RunsName() == Ascii("runs")
  {
  }

  lemma CountersSpelled()
    ensures MissingUsageRunsName() == Ascii("missingUsageRuns")
    ensures InputTokensName() == Ascii("input_tokens") && OutputTokensName() == Ascii("output_tokens")
    ensures TotalTokensName() == Ascii("total_tokens")
  {
  }

  /** The names every object inherits once these counters have been written. */
  lemma NamesExactly(w: Written, name: Text)
    ensures name in Names(w) <==>
      || (w.runs && name == Ascii("runs"))
      || (w.missing && name == Ascii("missingUsageRuns"))
      || (w.tokens && (name == Ascii("input_tokens") || name == Ascii("output_tokens") || name == Ascii("total_tokens")))
  {
    NamesSpelled();
    CountersSpelled();
  }

  // ---- which entries are counted ----

  /** at lists, in order, the positions that are kept. */
  ghost predicate Lists(at: seq<nat>, keep: seq<bool>) {
    && (forall i, j :: 0 <= i < j < |at| ==> at[i] < at[j])
    && (forall i :: 0 <= i < |at| ==> at[i] < |keep| && keep[at[i]])
    && (forall k: nat :: k < |keep| && keep[k] ==> k in at)
  }

  function Kept(keep: seq<bool>): seq<nat> {
    if keep == [] then []
    else
      var front, n := Kept(keep[..|keep| - 1]), |keep| - 1;
      if keep[n] then front + [n] else front
  }

  lemma {:induction false} KeptLists(keep: seq<bool>)
    ensures Lists(Kept(keep), keep)
  {
    if keep != [] {
      var front := keep[..|keep| - 1];
      KeptLists(front);
      forall k: nat | k < |keep| && keep[k] ensures k in Kept(keep) {
        if k < |front| {
          assert front[k] && k in Kept(front);
        } else {
          assert Kept(keep)[|Kept(front)|] == k;
        }
      }
    }
  }

  /** In the window, and let through by the filters. */
  predicate Passes(q: Query, e: Entry) {
    && !(e.ts < q.fromMs) && !(e.ts > q.toMs)
    && (|q.jobId| > 0 ==> q.jobId == e.jobId) && (|q.model| > 0 ==> q.model == ModelOf(e))
  }

  function Passing(log: seq<Entry>, q: Query): (r: seq<bool>)
    ensures |r| == |log| && forall i :: 0 <= i < |r| ==> r[i] == Passes(q, log[i])
  {
    seq(|log|, i requires 0 <= i < |log| => Passes(q, log[i]))
  }

  predicate IsRunOf(r: Run, e: Entry) {
    r.jobId == e.jobId && r.model == ModelOf(e)
  }

  ghost predicate RunsAre(log: seq<Entry>, at: seq<nat>, runs: seq<Run>) {
    |runs| == |at| && forall j :: 0 <= j < |at| ==> at[j] < |log| && IsRunOf(runs[j], log[at[j]])
  }

  lemma RunsMore(log: seq<Entry>, e: Entry, at: seq<nat>, runs: seq<Run>, r: Run)
    requires RunsAre(log, at, runs) && IsRunOf(r, e)
    ensures RunsAre(log + [e], at, runs) && RunsAre(log + [e], at + [|log|], runs + [r])
  {
    assert forall k: nat :: k < |log| ==> (log + [e])[k] == log[k];
  }

  lemma PassingMore(front: seq<Entry>, e: Entry, q: Query)
    ensures Kept(Passing(front + [e], q))
         == if Passes(q, e) then Kept(Passing(front, q)) + [|front|] else Kept(Passing(front, q))
  {
    assert Passing(front + [e], q)[..|front|] == Passing(front, q);
  }

  lemma RunsLast(front: seq<Entry>, e: Entry, q: Query)
    ensures Runs(front + [e], q) == if Passes(q, e) then Runs(front, q) + [RunOf(e, WrittenBy(Runs(front, q)))] else Runs(front, q)
  {
    OneMore(front + [e], q, |front|);
    assert (front + [e])[..|front|] == front && (front + [e])[..|front| + 1] == front + [e];
  }

  lemma {:induction false} RunsKept(log: seq<Entry>, q: Query)
    ensures RunsAre(log, Kept(Passing(log, q)), Runs(log, q))
  {
    if log != [] {
      var front, last := log[..|log| - 1], log[|log| - 1];
      RunsKept(front, q);
      assert log == front + [last];
      PassingMore(front, last, q);
      RunsLast(front, last, q);
      RunsMore(front, last, Kept(Passing(front, q)), Runs(front, q), RunOf(last, WrittenBy(Runs(front, q))));
    }
  }

  /** The runs counted are the entries in the window that pass the filters, each once and in order. */
  lemma RunsListed(log: seq<Entry>, q: Query) returns (at: seq<nat>)
    ensures Lists(at, Passing(log, q)) && RunsAre(log, at, Runs(log, q))
  {
    at := Kept(Passing(log, q));
    KeptLists(Passing(log, q));
    RunsKept(log, q);
  }

  // ---- which counters have been written ----

  predicate OfProto(r: Run) {
    r.model == ProtoName()
  }

  /** The runs of the model `__proto__` write their counters: the number of runs each, and missing
      usage or tokens according to whether they have usage. */
  lemma {:induction false} WrittenExactly(runs: seq<Run>)
    ensures WrittenBy(runs).runs <==> exists i :: 0 <= i < |runs| && OfProto(runs[i])
    ensures WrittenBy(runs).missing <==> exists i :: 0 <= i < |runs| && OfProto(runs[i]) && runs[i].tally.missingUsageRuns > 0
    ensures WrittenBy(runs).tokens <==> exists i :: 0 <= i < |runs| && OfProto(runs[i]) && runs[i].tally.missingUsageRuns == 0
  {
    if runs != [] {
      var front, last := runs[..|runs| - 1], runs[|runs| - 1];
      WrittenExactly(front);
      assert forall i :: 0 <= i < |front| ==> front[i] == runs[i];
      assert OfProto(runs[|front|]) <==> OfProto(last);
    }
  }
}
