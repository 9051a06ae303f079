/** `pkg/collector/exporter.go`: collector type names and the counters one
    scrape updates. The collectors of a scrape run concurrently in the
    source; here they run one after another, in list order, and each run's
    outcome (its samples, or `None` for an error) and measured duration are
    inputs. */
module Exporter {
  import opened Wrappers
  import opened GoStrings
  import opened Metrics

  const NodeType: string := "node_collector"
  const PodType: string := "pod_collector"
  const Namespace: string := "monitoring"
  const Subsystem: string := "scrape"
  const CollectorPrefix: string := "collector."

  /** The array `Type.String` searches. */
  const KnownTypes: seq<string> := [NodeType, PodType]

  predicate IsKnownType(s: string) {
    s == NodeType || s == PodType
  }

  /** `Type.String`'s loop over `types`, from position `i` on. */
  function FindType(x: string, types: seq<string>): (r: string)
    ensures r == x || r == ""
    ensures r == x && x != "" ==> x in types
    ensures x in types ==> r == x
  {
    if |types| == 0 then ""
    else if types[0] == x then x
    else FindType(x, types[1..])
  }

  /** `Type.String`: the identity on the known type names, "" otherwise. */
  function TypeString(t: string): (r: string)
    ensures IsKnownType(t) ==> r == t
    ensures !IsKnownType(t) ==> r == ""
  {
    FindType(t, KnownTypes)
  }

  /** `AsType`: the input itself when its lower-case form is a known type
      name, "" otherwise. The case is not normalised. */
  function AsType(s: string): (r: string)
    ensures r == s || r == ""
    ensures r == s <==> IsKnownType(ToLower(s)) || s == ""
    ensures IsKnownType(s) ==> r == s
  {
    if IsKnownType(ToLower(s)) then s else ""
  }

  /** `Type.String(AsType(s))` gives `s` back exactly for the known names;
      an upper-case spelling is accepted by AsType but then loses to String. */
  lemma AsTypeThenString(s: string)
    ensures TypeString(AsType(s)) == s <==> IsKnownType(s) || s == ""
    ensures TypeString(AsType("NODE_COLLECTOR")) == ""
    ensures AsType("NODE_COLLECTOR") == "NODE_COLLECTOR"
  {
    var u := "NODE_COLLECTOR";
    assert ToLower(u) == NodeType;
  }

  /** The fully qualified duration metric name, as `BuildFQName` joins it. */
  const DurationMetric: string := Namespace + "_" + Subsystem + "_collector_duration_seconds"

  /** Process-lifetime scrape counters: total scrapes, the last-scrape error
      gauge, and per-collector error counts keyed by `"collector." + name`
      (a label is present once its counter has been incremented). */
  datatype Counters = Counters(totalScrapes: nat, lastScrapeError: int, scrapeErrors: map<string, nat>)

  /** The outcome of one collector's `Scrape` within a scrape. */
  datatype CollectorRun = CollectorRun(name: string, samples: Option<seq<Sample>>, seconds: real)

  datatype ScrapeReport = ScrapeReport(counters: Counters, emitted: seq<Sample>)

  function Label(name: string): string {
    CollectorPrefix + name
  }

  /** A counter of a vector: 0 while its label is absent. */
  function ErrorCount(m: map<string, nat>, lbl: string): nat {
    if lbl in m then m[lbl] else 0
  }

  /** Number of failing runs carrying the given label. */
  function FailuresWith(runs: seq<CollectorRun>, lbl: string): nat {
    if |runs| == 0 then 0
    else (if runs[0].samples.None? && Label(runs[0].name) == lbl then 1 else 0) + FailuresWith(runs[1..], lbl)
  }

  predicate AnyFailed(runs: seq<CollectorRun>) {
    exists i :: 0 <= i < |runs| && runs[i].samples.None?
  }

  function DurationSample(run: CollectorRun): Sample {
    Sample(DurationMetric, [Label(run.name)], run.seconds)
  }

  /** What one collector run puts on the channel: its samples only when it
      succeeded, then one duration sample labelled with the collector. */
  function RunOutput(run: CollectorRun): seq<Sample> {
    (if run.samples.Some? then run.samples.value else []) + [DurationSample(run)]
  }

  /** Everything a scrape emits, collector by collector. */
  function Emitted(runs: seq<CollectorRun>): seq<Sample> {
    if |runs| == 0 then [] else RunOutput(runs[0]) + Emitted(runs[1..])
  }

  /** The scrape loop over collectors: a failing run raises its label's
      error counter and sets the error gauge; every run emits its output. */
  function RunCollectors(c: Counters, runs: seq<CollectorRun>): (r: ScrapeReport)
    ensures r.counters.totalScrapes == c.totalScrapes
    ensures r.counters.lastScrapeError == if AnyFailed(runs) then 1 else c.lastScrapeError
    ensures forall l :: ErrorCount(r.counters.scrapeErrors, l) == ErrorCount(c.scrapeErrors, l) + FailuresWith(runs, l)
    ensures forall l :: l in r.counters.scrapeErrors <==> l in c.scrapeErrors || FailuresWith(runs, l) > 0
    ensures r.emitted == Emitted(runs)
    decreases |runs|
  {
    if |runs| == 0 then ScrapeReport(c, [])
    else
      var run := runs[0];
      var c' :=
        if run.samples.None? then
          c.(scrapeErrors := c.scrapeErrors[Label(run.name) := ErrorCount(c.scrapeErrors, Label(run.name)) + 1],
             lastScrapeError := 1)
        else c;
      var rest := RunCollectors(c', runs[1..]);
      assert AnyFailed(runs) <==> run.samples.None? || AnyFailed(runs[1..]) by {
        if AnyFailed(runs[1..]) {
          var i :| 0 <= i < |runs[1..]| && runs[1..][i].samples.None?;
          assert runs[i + 1] == runs[1..][i];
        }
      }
      ScrapeReport(rest.counters, RunOutput(run) + rest.emitted)
  }

  /** `Exporter.scrape`: one more scrape counted, the error gauge reset to 0
      and then set to 1 if any collector failed, error counters raised per
      failing collector. */
  function Scrape(c: Counters, runs: seq<CollectorRun>): (r: ScrapeReport)
    ensures r.counters.totalScrapes == c.totalScrapes + 1
    ensures r.counters.lastScrapeError == if AnyFailed(runs) then 1 else 0
    ensures forall l :: ErrorCount(r.counters.scrapeErrors, l) == ErrorCount(c.scrapeErrors, l) + FailuresWith(runs, l)
    ensures forall l :: l in r.counters.scrapeErrors <==> l in c.scrapeErrors || FailuresWith(runs, l) > 0
    ensures r.emitted == Emitted(runs)
  {
    RunCollectors(c.(totalScrapes := c.totalScrapes + 1, lastScrapeError := 0), runs)
  }

  /** The samples named after the duration metric, in order. */
  function DurationsOf(samples: seq<Sample>): seq<Sample> {
    if |samples| == 0 then []
    else (if samples[0].name == DurationMetric then [samples[0]] else []) + DurationsOf(samples[1..])
  }

  lemma {:induction false} DurationsConcat(a: seq<Sample>, b: seq<Sample>)
    ensures DurationsOf(a + b) == DurationsOf(a) + DurationsOf(b)
  {
    if |a| > 0 {
      assert (a + b)[1..] == a[1..] + b;
      DurationsConcat(a[1..], b);
    } else {
      assert a + b == b;
    }
  }

  /** A collector that never emits a sample under the duration metric's name. */
  predicate NoDurationNamed(run: CollectorRun) {
    run.samples.Some? ==> forall i :: 0 <= i < |run.samples.value| ==> run.samples.value[i].name != DurationMetric
  }

  lemma {:induction false} NoDurationsIn(samples: seq<Sample>)
    requires forall i :: 0 <= i < |samples| ==> samples[i].name != DurationMetric
    ensures DurationsOf(samples) == []
  {
    if |samples| > 0 {
      NoDurationsIn(samples[1..]);
    }
  }

  /** One duration sample per collector, labelled `"collector." + name`. */
  function DurationSamples(runs: seq<CollectorRun>): (r: seq<Sample>)
    ensures |r| == |runs|
    ensures forall i :: 0 <= i < |runs| ==> r[i] == Sample(DurationMetric, [CollectorPrefix + runs[i].name], runs[i].seconds)
  {
    if |runs| == 0 then [] else [DurationSample(runs[0])] + DurationSamples(runs[1..])
  }

  /** With collectors whose own samples use other names, the duration
      samples of a scrape are exactly one per collector, in collector order,
      failing or not. */
  lemma {:induction false} OneDurationPerCollector(runs: seq<CollectorRun>)
    requires forall i :: 0 <= i < |runs| ==> NoDurationNamed(runs[i])
    ensures DurationsOf(Emitted(runs)) == DurationSamples(runs)
  {
    if |runs| > 0 {
      var run := runs[0];
      var own := if run.samples.Some? then run.samples.value else [];
      assert forall i :: 0 <= i < |runs[1..]| ==> NoDurationNamed(runs[1..][i]) by {
        forall i | 0 <= i < |runs[1..]| ensures NoDurationNamed(runs[1..][i]) {
          assert runs[1..][i] == runs[i + 1];
        }
      }
      OneDurationPerCollector(runs[1..]);
      assert Emitted(runs) == RunOutput(run) + Emitted(runs[1..]);
      DurationsConcat(RunOutput(run), Emitted(runs[1..]));
      assert DurationsOf(RunOutput(run)) == [DurationSample(run)] by {
        DurationsConcat(own, [DurationSample(run)]);
        assert NoDurationNamed(run);
        NoDurationsIn(own);
        assert [DurationSample(run)][1..] == [];
      }
      assert DurationSamples(runs) == [DurationSample(run)] + DurationSamples(runs[1..]);
    }
  }

  /** A scrape whose only collector fails: the error gauge is set, that
      collector's label gains exactly one error while every other label
      keeps its count, and only the duration sample is emitted. */
  lemma SingleFailedRun(c: Counters, name: string, seconds: real)
    ensures var report := Scrape(c, [CollectorRun(name, None, seconds)]);
            && report.counters.totalScrapes == c.totalScrapes + 1
            && report.counters.lastScrapeError == 1
            && ErrorCount(report.counters.scrapeErrors, CollectorPrefix + name)
               == ErrorCount(c.scrapeErrors, CollectorPrefix + name) + 1
            && (forall l :: l != CollectorPrefix + name ==>
                  ErrorCount(report.counters.scrapeErrors, l) == ErrorCount(c.scrapeErrors, l))
            && report.emitted == [Sample(DurationMetric, [CollectorPrefix + name], seconds)]
  {
    var runs := [CollectorRun(name, None, seconds)];
    assert runs[0].samples.None?;
    assert runs[1..] == [];
    assert forall l :: FailuresWith(runs, l) == if l == Label(name) then 1 else 0;
    assert Emitted(runs) == RunOutput(runs[0]) + Emitted(runs[1..]);
  }
}
