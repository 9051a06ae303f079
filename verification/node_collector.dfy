/** `pkg/collector/node_collector.go`: one scrape of the node collector.
    Running `mtr` and decoding its JSON are I/O: the argument `run` maps each
    probe invocation (its position in the cross product, its argument vector
    and its deadline) to what the probe yielded, a failure flag for an exec
    error, timeout or JSON error, and the decoded hop list. Probes run
    concurrently in the source; here they are evaluated target-major. */
module NodeCollector {
  import opened Wrappers
  import opened GoStrings
  import opened GoStrconv
  import opened Metrics
  import opened Utils
  import opened Config
  import Exporter

  /** `mtr` flag per supported protocol; ICMP is mtr's default and gets "". */
  const ProtocolToMtrFlag: map<string, string> := map["UDP" := "--udp", "ICMP" := "", "TCP" := "--tcp"]

  /** Suffixes of the eight per-record gauges, in emission order. */
  const MetricNames: seq<string> := ["_status", "_sent", "_received", "_rtt_mean", "_rtt_min", "_rtt_max", "_rtt_stddev", "_hops_num"]

  const LabelNames: seq<string> := ["source", "destination", "destinationIp", "packets", "protocol", "port"]

  /** The ten leading `mtr` arguments shared by every probe of a scrape. */
  function MtrArgs(cfg: CollectorConfig): (args: seq<string>)
    ensures |args| == 10
    ensures args[1] == cfg.probeTimeout && args[3] == cfg.probeTimeout
    ensures args[7] == cfg.packetSize && args[9] == cfg.packetsSent
  {
    ["-G", cfg.probeTimeout, "-Z", cfg.probeTimeout, "-n", "--json", "-s", cfg.packetSize, "-c", cfg.packetsSent]
  }

  /** The full argument vector of one probe: the shared arguments, then the
      protocol flag (possibly ""), "-P", the port and the address. */
  function ProbeArgs(cfg: CollectorConfig, t: PingHost, ct: CheckTarget): (args: seq<string>)
    ensures |args| == 14
    ensures args[10] == ct.mtrKey && args[11] == "-P" && args[12] == ct.port && args[13] == t.ipAddress
  {
    MtrArgs(cfg) + [ct.mtrKey, "-P", ct.port, t.ipAddress]
  }

  /** The vector starts with the shared arguments; an ICMP probe keeps it
      at 14 elements with an empty flag. */
  lemma ProbeArgsLayout(cfg: CollectorConfig, t: PingHost, ct: CheckTarget)
    ensures ProbeArgs(cfg, t, ct)[..10] == MtrArgs(cfg)
    ensures ct == CheckTarget("ICMP", ct.port, ProtocolToMtrFlag["ICMP"]) ==> ProbeArgs(cfg, t, ct)[10] == ""
  {
    var args := ProbeArgs(cfg, t, ct);
    assert args == MtrArgs(cfg) + [ct.mtrKey, "-P", ct.port, t.ipAddress];
  }

  /** `MTR_TIMEOUT` (default "10") read with Atoi, its error discarded. */
  function ExtraTimeout(env: map<string, string>): int {
    AtoiValue(GetEnvWithDefaultValue(env, "MTR_TIMEOUT", "10"))
  }

  /** Seconds each probe may run: packets sent plus the extra timeout, added
      as 64-bit integers; text that does not parse counts as 0. */
  function DeadlineSeconds(cfg: CollectorConfig, env: map<string, string>): (d: int)
    ensures InInt64(d)
    ensures SameMod64(AtoiValue(cfg.packetsSent) + ExtraTimeout(env), d)
    ensures InInt64(AtoiValue(cfg.packetsSent) + ExtraTimeout(env)) ==> d == AtoiValue(cfg.packetsSent) + ExtraTimeout(env)
    ensures Atoi(cfg.packetsSent).SyntaxError? ==> d == ExtraTimeout(env)
    ensures Atoi(GetEnvWithDefaultValue(env, "MTR_TIMEOUT", "10")).SyntaxError? ==> d == AtoiValue(cfg.packetsSent)
    ensures Atoi(cfg.packetsSent).Parsed? && Atoi(GetEnvWithDefaultValue(env, "MTR_TIMEOUT", "10")).Parsed?
            && InInt64(Atoi(cfg.packetsSent).value + Atoi(GetEnvWithDefaultValue(env, "MTR_TIMEOUT", "10")).value)
            ==> d == Atoi(cfg.packetsSent).value + Atoi(GetEnvWithDefaultValue(env, "MTR_TIMEOUT", "10")).value
  {
    var packets, extra := AtoiValue(cfg.packetsSent), ExtraTimeout(env);
    Wrap64(packets + extra)
  }

  /** `time.Duration(seconds) * time.Second`, in nanoseconds, with 64-bit wrap-around. */
  function DeadlineNanos(cfg: CollectorConfig, env: map<string, string>): (n: int)
    ensures InInt64(n)
    ensures SameMod64(DeadlineSeconds(cfg, env) * 1_000_000_000, n)
    ensures -9_223_372_036 <= DeadlineSeconds(cfg, env) <= 9_223_372_036 ==> n == DeadlineSeconds(cfg, env) * 1_000_000_000
  {
    var nanos := DeadlineSeconds(cfg, env) * 1_000_000_000;
    Wrap64(nanos)
  }

  /** Five packets and no `MTR_TIMEOUT` give a 15-second deadline; a
      packet count that does not parse leaves only the 10 extra seconds. */
  lemma DeadlineExamples(cfg: CollectorConfig)
    ensures DeadlineSeconds(cfg.(packetsSent := "5"), map[]) == 15
    ensures DeadlineSeconds(cfg.(packetsSent := "five"), map[]) == 10
    ensures DeadlineNanos(cfg.(packetsSent := "5"), map[]) == 15_000_000_000
  {
    DefaultExtraTimeout();
    assert WellFormed("5") && SignedValue("5") == 5 by {
      assert Unsigned("5") == "5";
      assert FoldDigits(0, "5") == FoldDigits(5, "");
    }
    assert !WellFormed("five") by { assert Unsigned("five") == "five"; assert !IsDigit("five"[0]); }
    assert Atoi("five").SyntaxError? by {
      assert ParseUint("five") == UintSyntax;
    }
  }

  /** Without `MTR_TIMEOUT` the extra timeout is 10 seconds. */
  lemma DefaultExtraTimeout()
    ensures ExtraTimeout(map[]) == 10
  {
    assert WellFormed("10") && SignedValue("10") == 10 by {
      assert Unsigned("10") == "10";
      assert FoldDigits(0, "10") == FoldDigits(1, "0");
    }
  }

  /** The sum wraps: the largest packet count plus the default 10 seconds
      gives a negative deadline, MinInt64 + 9. */
  lemma DeadlineWraps(cfg: CollectorConfig)
    ensures DeadlineSeconds(cfg.(packetsSent := Itoa(MaxInt64)), map[]) == MinInt64 + 9
  {
    DefaultExtraTimeout();
    AtoiItoa(MaxInt64);
  }

  /** Go's `int(x)` on a float: truncation toward zero. */
  function Trunc(x: real): (r: int)
    ensures x >= 0.0 ==> r as real <= x < r as real + 1.0
    ensures x < 0.0 ==> r as real - 1.0 < x <= r as real
  {
    if x >= 0.0 then x.Floor else -((-x).Floor)
  }

  /** Packets received, from the packets sent and a loss percentage. */
  function Received(sent: int, loss: real): int {
    sent - Trunc(sent as real * (loss / 100.0))
  }

  lemma ScaleBetween(s: real, f: real)
    requires 0.0 <= s && 0.0 <= f <= 1.0
    ensures 0.0 <= s * f <= s
  {
    assert s - s * f == s * (1.0 - f);
  }

  /** The truncated share of `sent` lost at `loss` percent is between 0 and `sent`. */
  lemma LostBetween(sent: int, loss: real)
    requires 0 <= sent && 0.0 <= loss <= 100.0
    ensures 0 <= Trunc(sent as real * (loss / 100.0)) <= sent
  {
    var s, f := sent as real, loss / 100.0;
    var x := s * f;
    assert 0.0 <= x <= s by {
      ScaleBetween(s, f);
    }
    TruncBetween(x, sent);
  }

  lemma TruncBetween(x: real, bound: int)
    requires 0.0 <= x <= bound as real
    ensures 0 <= Trunc(x) <= bound
  {
  }

  /** No loss receives everything, full loss nothing, and any loss in
      [0, 100] receives between 0 and the packets sent; the lost count is
      truncated, not rounded: 3 packets at 50% loss leave 2. */
  lemma ReceivedBounds(sent: int, loss: real)
    ensures loss == 0.0 ==> Received(sent, loss) == sent
    ensures loss == 100.0 ==> Received(sent, loss) == 0
    ensures 0 <= sent && 0.0 <= loss <= 100.0 ==> 0 <= Received(sent, loss) <= sent
    ensures Received(3, 50.0) == 2
  {
    var x := sent as real * (loss / 100.0);
    if 0 <= sent && 0.0 <= loss <= 100.0 {
      LostBetween(sent, loss);
    }
    if loss == 100.0 {
      assert x == sent as real;
    }
    assert 3 as real * (50.0 / 100.0) == 1.5;
  }

  /** The record after a hop whose host is the target: reachable, with the
      hop's loss and round-trip times. */
  function Matched(m: NetworkLatencyMetric, hop: MtrOutputHop): NetworkLatencyMetric {
    m.(fields := m.fields.(
      status := StatusOk,
      totalReceived := Received(m.fields.totalSent, hop.loss),
      rttMean := hop.rttMean,
      rttMin := hop.rttMin,
      rttMax := hop.rttMax,
      rttDeviation := hop.rttDeviation))
  }

  /** One iteration of the hop loop: an exact string match on the host. */
  function ApplyHop(m: NetworkLatencyMetric, hop: MtrOutputHop, ip: string): NetworkLatencyMetric {
    if hop.host == ip then Matched(m, hop) else m
  }

  /** The hop loop; it has no `break`. */
  function ApplyHops(m: NetworkLatencyMetric, hops: seq<MtrOutputHop>, ip: string): NetworkLatencyMetric
    decreases |hops|
  {
    if |hops| == 0 then m else ApplyHops(ApplyHop(m, hops[0], ip), hops[1..], ip)
  }

  /** Index of the last hop whose host is `ip`. */
  function LastMatch(hops: seq<MtrOutputHop>, ip: string): (r: Option<nat>)
    ensures r.None? <==> forall j :: 0 <= j < |hops| ==> hops[j].host != ip
    ensures r.Some? ==> r.value < |hops| && hops[r.value].host == ip
    ensures r.Some? ==> forall j :: r.value < j < |hops| ==> hops[j].host != ip
  {
    if |hops| == 0 then None
    else if hops[|hops| - 1].host == ip then Some(|hops| - 1)
    else LastMatch(hops[..|hops| - 1], ip)
  }

  lemma {:induction false} ApplyHopsSnoc(m: NetworkLatencyMetric, hops: seq<MtrOutputHop>, h: MtrOutputHop, ip: string)
    ensures ApplyHops(m, hops + [h], ip) == ApplyHop(ApplyHops(m, hops, ip), h, ip)
    decreases |hops|
  {
    if |hops| == 0 {
      assert hops + [h] == [h];
    } else {
      assert (hops + [h])[1..] == hops[1..] + [h];
      ApplyHopsSnoc(ApplyHop(m, hops[0], ip), hops[1..], h, ip);
    }
  }

  /** The hop loop leaves the record as the last matching hop made it, and
      untouched when no hop matches. */
  lemma {:induction false} ApplyHopsLast(m: NetworkLatencyMetric, hops: seq<MtrOutputHop>, ip: string)
    ensures ApplyHops(m, hops, ip) == match LastMatch(hops, ip)
                                      case None => m
                                      case Some(i) => Matched(m, hops[i])
    decreases |hops|
  {
    if |hops| > 0 {
      var init := hops[..|hops| - 1];
      var h := hops[|hops| - 1];
      assert init + [h] == hops;
      ApplyHopsSnoc(m, init, h, ip);
      ApplyHopsLast(m, init, ip);
    }
  }

  /** The record of one probe: built from the target and check target,
      with the hop count always set, reachable exactly when some hop's host
      equals the target's address, and then measured from the last such hop. */
  function ProbeRecord(cfg: CollectorConfig, t: PingHost, ct: CheckTarget, hops: seq<MtrOutputHop>)
    : (r: NetworkLatencyMetric)
    ensures r.tags == Tags(t.name, t.ipAddress, ToUpper(ct.protocol), ct.port)
    ensures r.fields.hopsNum == |hops|
    ensures r.fields.totalSent == AtoiValue(cfg.packetsSent)
    ensures r.fields.rttAvg == 0.0
    ensures r.fields.status == StatusOk <==> exists j :: 0 <= j < |hops| && hops[j].host == t.ipAddress
    ensures r.fields.status != StatusOk ==>
              r == NewNetworkLatencyMetric(t.name, t.ipAddress, ToUpper(ct.protocol), ct.port, cfg.packetsSent)
                   .(fields := NewNetworkLatencyMetric(t.name, t.ipAddress, ToUpper(ct.protocol), ct.port, cfg.packetsSent).fields.(hopsNum := |hops|))
    ensures forall i :: LastMatch(hops, t.ipAddress) == Some(i) ==>
              && r.fields.totalReceived == Received(r.fields.totalSent, hops[i].loss)
              && r.fields.rttMean == hops[i].rttMean && r.fields.rttMin == hops[i].rttMin
              && r.fields.rttMax == hops[i].rttMax && r.fields.rttDeviation == hops[i].rttDeviation
  {
    var initial := NewNetworkLatencyMetric(t.name, t.ipAddress, ToUpper(ct.protocol), ct.port, cfg.packetsSent);
    var base := initial.(fields := initial.fields.(hopsNum := |hops|));
    ApplyHopsLast(base, hops, t.ipAddress);
    ApplyHops(base, hops, t.ipAddress)
  }

  /** What one `mtr` run yielded. */
  datatype MtrRun = MtrRun(failed: bool, hops: seq<MtrOutputHop>)

  /** One probe as the environment sees it: which target and check target
      (by position), the argument vector, and the deadline in nanoseconds. */
  datatype Invocation = Invocation(target: nat, check: nat, args: seq<string>, deadlineNanos: int)

  /** One probe's outcome: the pair it was run for and what `mtr` yielded. */
  datatype ProbeResult = ProbeResult(target: PingHost, check: CheckTarget, failed: bool, hops: seq<MtrOutputHop>)

  /** The record a probe folds into. */
  function RecordOf(cfg: CollectorConfig, p: ProbeResult): NetworkLatencyMetric {
    ProbeRecord(cfg, p.target, p.check, p.hops)
  }

  /** The records of a sequence of probes, in probe order. */
  function Records(cfg: CollectorConfig, probes: seq<ProbeResult>): (r: seq<NetworkLatencyMetric>)
    ensures |r| == |probes|
    ensures forall k :: 0 <= k < |probes| ==> r[k] == RecordOf(cfg, probes[k])
  {
    seq(|probes|, k requires 0 <= k < |probes| => RecordOf(cfg, probes[k]))
  }

  /** The probe of target `i` with check target `j`. */
  function Probe(cfg: CollectorConfig, nanos: int, run: Invocation -> MtrRun, i: nat, j: nat): ProbeResult
    requires i < |cfg.targets| && j < |cfg.checkTargets|
  {
    var t := cfg.targets[i];
    var ct := cfg.checkTargets[j];
    var out := run(Invocation(i, j, ProbeArgs(cfg, t, ct), nanos));
    ProbeResult(t, ct, out.failed, out.hops)
  }

  /** The probes of target `i`, one per check target. */
  function TargetRow(cfg: CollectorConfig, nanos: int, run: Invocation -> MtrRun, i: nat): (r: seq<ProbeResult>)
    requires i < |cfg.targets|
    ensures |r| == |cfg.checkTargets|
    ensures forall j :: 0 <= j < |r| ==> r[j] == Probe(cfg, nanos, run, i, j)
  {
    seq(|cfg.checkTargets|, j requires 0 <= j < |cfg.checkTargets| => Probe(cfg, nanos, run, i, j))
  }

  /** The probe rows, one per target, in target order. */
  function Grid(cfg: CollectorConfig, nanos: int, run: Invocation -> MtrRun): (g: seq<seq<ProbeResult>>)
    ensures |g| == |cfg.targets|
    ensures forall a :: 0 <= a < |g| ==> g[a] == TargetRow(cfg, nanos, run, a)
  {
    seq(|cfg.targets|, a requires 0 <= a < |cfg.targets| => TargetRow(cfg, nanos, run, a))
  }

  /** The nested loops append each row in turn. */
  function Flatten(rows: seq<seq<ProbeResult>>): seq<ProbeResult> {
    if |rows| == 0 then [] else rows[0] + Flatten(rows[1..])
  }

  predicate Uniform(rows: seq<seq<ProbeResult>>, n: nat) {
    forall a :: 0 <= a < |rows| ==> |rows[a]| == n
  }

  /** `q` rows of `n` probes, counted row by row. */
  function RowsOf(q: nat, n: nat): nat {
    if q == 0 then 0 else n + RowsOf(q - 1, n)
  }

  lemma {:induction false} RowsOfIsProduct(q: nat, n: nat)
    ensures RowsOf(q, n) == q * n
  {
    if q > 0 {
      RowsOfIsProduct(q - 1, n);
      assert q * n == (q - 1) * n + n;
    }
  }

  lemma {:induction false} FlattenLength(rows: seq<seq<ProbeResult>>, n: nat)
    requires Uniform(rows, n)
    ensures |Flatten(rows)| == RowsOf(|rows|, n)
  {
    if |rows| > 0 {
      FlattenLength(rows[1..], n);
    }
  }

  /** Element `j` of row `a` follows the `a` rows before it. */
  lemma {:induction false} FlattenAt(rows: seq<seq<ProbeResult>>, n: nat, a: nat, j: nat)
    requires Uniform(rows, n) && a < |rows| && j < n
    ensures RowsOf(a, n) + j < |Flatten(rows)|
    ensures Flatten(rows)[RowsOf(a, n) + j] == rows[a][j]
  {
    var head, tail := rows[0], Flatten(rows[1..]);
    assert Flatten(rows) == head + tail;
    if a > 0 {
      FlattenAt(rows[1..], n, a - 1, j);
      var idx := RowsOf(a - 1, n) + j;
      assert RowsOf(a, n) + j == |head| + idx;
      assert (head + tail)[|head| + idx] == tail[idx];
    } else {
      assert (head + tail)[j] == head[j];
    }
  }

  /** All probes of a scrape, target-major. */
  function Probes(cfg: CollectorConfig, nanos: int, run: Invocation -> MtrRun): seq<ProbeResult> {
    Flatten(Grid(cfg, nanos, run))
  }

  /** One probe per (target, check target) pair. */
  lemma ProbesLength(cfg: CollectorConfig, nanos: int, run: Invocation -> MtrRun)
    ensures |Probes(cfg, nanos, run)| == |cfg.targets| * |cfg.checkTargets|
  {
    FlattenLength(Grid(cfg, nanos, run), |cfg.checkTargets|);
    RowsOfIsProduct(|cfg.targets|, |cfg.checkTargets|);
  }

  /** Target-major order: the probe of target `a` and check target `j` is
      at position `a * |checkTargets| + j` of all probes. */
  lemma ProbeAt(cfg: CollectorConfig, nanos: int, run: Invocation -> MtrRun, a: nat, j: nat)
    requires a < |cfg.targets| && j < |cfg.checkTargets|
    ensures a * |cfg.checkTargets| + j < |Probes(cfg, nanos, run)|
    ensures Probes(cfg, nanos, run)[a * |cfg.checkTargets| + j] == Probe(cfg, nanos, run, a, j)
  {
    var g := Grid(cfg, nanos, run);
    FlattenAt(g, |cfg.checkTargets|, a, j);
    RowsOfIsProduct(a, |cfg.checkTargets|);
    assert g[a][j] == Probe(cfg, nanos, run, a, j);
  }

  /** All probes of a scrape. */
  function AllProbes(cfg: CollectorConfig, env: map<string, string>, run: Invocation -> MtrRun): seq<ProbeResult> {
    Probes(cfg, DeadlineNanos(cfg, env), run)
  }

  /** The sample source label: `NODE_NAME`, default "localhost". */
  function NodeName(env: map<string, string>): string {
    GetEnvWithDefaultValue(env, "NODE_NAME", "localhost")
  }

  /** Label values of a record's samples, in `LabelNames` order. */
  function LabelValues(nodeName: string, m: NetworkLatencyMetric): (l: seq<string>)
    ensures |l| == |LabelNames|
  {
    [nodeName, m.tags.dest, m.tags.destIp, Itoa(m.fields.totalSent), m.tags.protocol, m.tags.port]
  }

  /** The eight gauges of one record, in `MetricNames` order, all with the
      same label values. */
  function RecordSamples(nodeName: string, m: NetworkLatencyMetric): (r: seq<Sample>)
    ensures |r| == |MetricNames| == 8
    ensures forall d :: 0 <= d < 8 ==> r[d].name == MeasurementName + MetricNames[d] && r[d].labels == LabelValues(nodeName, m)
    ensures r[0].value == m.fields.status as real && r[1].value == m.fields.totalSent as real
            && r[2].value == m.fields.totalReceived as real && r[7].value == m.fields.hopsNum as real
    ensures r[3].value == m.fields.rttMean && r[4].value == m.fields.rttMin
            && r[5].value == m.fields.rttMax && r[6].value == m.fields.rttDeviation
  {
    var l := LabelValues(nodeName, m);
    [ Sample(MeasurementName + MetricNames[0], l, m.fields.status as real),
      Sample(MeasurementName + MetricNames[1], l, m.fields.totalSent as real),
      Sample(MeasurementName + MetricNames[2], l, m.fields.totalReceived as real),
      Sample(MeasurementName + MetricNames[3], l, m.fields.rttMean),
      Sample(MeasurementName + MetricNames[4], l, m.fields.rttMin),
      Sample(MeasurementName + MetricNames[5], l, m.fields.rttMax),
      Sample(MeasurementName + MetricNames[6], l, m.fields.rttDeviation),
      Sample(MeasurementName + MetricNames[7], l, m.fields.hopsNum as real) ]
  }

  predicate IsWhole(x: real) {
    x == x.Floor as real
  }

  /** Eight samples shaped as one record's block: the gauge names in order,
      one set of six label values shared by all, whole numbers for the
      counting gauges, and the packets label spelling the `_sent` value. */
  predicate RecordBlock(samples: seq<Sample>) {
    && |samples| == 8 && |samples[0].labels| == 6
    && (forall d :: 0 <= d < 8 ==> samples[d].name == MeasurementName + MetricNames[d] && samples[d].labels == samples[0].labels)
    && IsWhole(samples[0].value) && IsWhole(samples[1].value) && IsWhole(samples[2].value) && IsWhole(samples[7].value)
    && samples[0].labels[3] == Itoa(samples[1].value.Floor)
  }

  /** Reads a record back from its eight samples (`RttAvg` is never set). */
  function DecodeRecord(samples: seq<Sample>): Option<NetworkLatencyMetric> {
    if !RecordBlock(samples) then None
    else
      var l := samples[0].labels;
      Some(NetworkLatencyMetric(
        Tags(l[1], l[2], l[4], l[5]),
        Fields(samples[0].value.Floor, samples[1].value.Floor, samples[2].value.Floor,
               samples[3].value, samples[4].value, samples[5].value, 0.0, samples[6].value,
               samples[7].value.Floor)))
  }

  /** The samples of a record carry the whole record: tags in the labels,
      counts and RTTs in the values, and the packets label agrees with the
      `_sent` value. */
  lemma DecodeRecordSamples(nodeName: string, m: NetworkLatencyMetric)
    requires m.fields.rttAvg == 0.0
    ensures DecodeRecord(RecordSamples(nodeName, m)) == Some(m)
  {
    var r := RecordSamples(nodeName, m);
    assert r[1].value.Floor == m.fields.totalSent;
    assert RecordBlock(r);
  }

  /** Every block the decoder accepts is exactly the samples of the record
      it decodes to. */
  lemma RecordSamplesDecode(samples: seq<Sample>)
    requires DecodeRecord(samples).Some?
    ensures RecordSamples(samples[0].labels[0], DecodeRecord(samples).value) == samples
  {
    var m := DecodeRecord(samples).value;
    var r := RecordSamples(samples[0].labels[0], m);
    assert LabelValues(samples[0].labels[0], m) == samples[0].labels;
    forall d | 0 <= d < 8 ensures r[d] == samples[d] {
    }
  }

  /** Samples of a sequence of probe results, record by record. */
  function SamplesOf(nodeName: string, records: seq<NetworkLatencyMetric>): (r: seq<Sample>)
    ensures |r| == 8 * |records|
  {
    if |records| == 0 then [] else RecordSamples(nodeName, records[0]) + SamplesOf(nodeName, records[1..])
  }

  lemma SliceAfter(head: seq<Sample>, tail: seq<Sample>, i: nat, len: nat)
    requires i + len <= |tail|
    ensures (head + tail)[|head| + i .. |head| + i + len] == tail[i .. i + len]
  {
  }

  /** The samples of probe `k` are the block `8k .. 8k+8`. */
  lemma {:induction false} SamplesOfBlock(nodeName: string, records: seq<NetworkLatencyMetric>, k: nat)
    requires k < |records|
    ensures SamplesOf(nodeName, records)[8 * k .. 8 * k + 8] == RecordSamples(nodeName, records[k])
  {
    if k > 0 {
      SamplesOfBlock(nodeName, records[1..], k - 1);
      var head := RecordSamples(nodeName, records[0]);
      var tail := SamplesOf(nodeName, records[1..]);
      assert SamplesOf(nodeName, records) == head + tail;
      var i := 8 * (k - 1);
      assert |head| == 8 && 8 * k == |head| + i;
      SliceAfter(head, tail, i, 8);
    }
  }

  datatype ScrapeError = ProbeFailed

  predicate AnyProbeFailed(probes: seq<ProbeResult>) {
    exists k :: 0 <= k < |probes| && probes[k].failed
  }

  lemma AnyFailedConcat(x: seq<ProbeResult>, y: seq<ProbeResult>)
    ensures AnyProbeFailed(x + y) <==> AnyProbeFailed(x) || AnyProbeFailed(y)
  {
    if AnyProbeFailed(x + y) {
      var k :| 0 <= k < |x + y| && (x + y)[k].failed;
      if k < |x| {
        assert x[k] == (x + y)[k];
      } else {
        assert y[k - |x|] == (x + y)[k];
      }
    }
    if AnyProbeFailed(x) {
      var k :| 0 <= k < |x| && x[k].failed;
      assert (x + y)[k] == x[k];
    }
    if AnyProbeFailed(y) {
      var k :| 0 <= k < |y| && y[k].failed;
      assert (x + y)[|x| + k] == y[k];
    }
  }

  /** Some probe of the flattened rows failed exactly when some row holds
      a failed probe. */
  lemma {:induction false} FlattenFailed(rows: seq<seq<ProbeResult>>)
    ensures AnyProbeFailed(Flatten(rows)) <==>
            exists a, j :: 0 <= a < |rows| && 0 <= j < |rows[a]| && rows[a][j].failed
  {
    if |rows| > 0 {
      var tail := rows[1..];
      AnyFailedConcat(rows[0], Flatten(tail));
      FlattenFailed(tail);
      if AnyProbeFailed(rows[0]) {
        var j :| 0 <= j < |rows[0]| && rows[0][j].failed;
        assert 0 < |rows| && rows[0][j].failed;
      }
      if AnyProbeFailed(Flatten(tail)) {
        var a, j :| 0 <= a < |tail| && 0 <= j < |tail[a]| && tail[a][j].failed;
        assert rows[a + 1] == tail[a];
      }
      if exists a, j :: 0 <= a < |rows| && 0 <= j < |rows[a]| && rows[a][j].failed {
        var a, j :| 0 <= a < |rows| && 0 <= j < |rows[a]| && rows[a][j].failed;
        if a == 0 {
          assert AnyProbeFailed(rows[0]);
        } else {
          assert tail[a - 1] == rows[a];
        }
      }
    }
  }

  /** The probe of some (target, check target) pair failed. */
  predicate PairFailed(cfg: CollectorConfig, nanos: int, run: Invocation -> MtrRun) {
    exists a, j :: 0 <= a < |cfg.targets| && 0 <= j < |cfg.checkTargets| && Probe(cfg, nanos, run, a, j).failed
  }

  /** Some probe of the scrape failed exactly when the probe of some
      (target, check target) pair failed. */
  lemma FailedIffSomePairFailed(cfg: CollectorConfig, nanos: int, run: Invocation -> MtrRun)
    ensures AnyProbeFailed(Probes(cfg, nanos, run)) <==> PairFailed(cfg, nanos, run)
  {
    var g := Grid(cfg, nanos, run);
    FlattenFailed(g);
    if exists a, j :: 0 <= a < |g| && 0 <= j < |g[a]| && g[a][j].failed {
      var a, j :| 0 <= a < |g| && 0 <= j < |g[a]| && g[a][j].failed;
      assert g[a][j] == Probe(cfg, nanos, run, a, j);
    }
    if PairFailed(cfg, nanos, run) {
      var a, j :| 0 <= a < |cfg.targets| && 0 <= j < |cfg.checkTargets| && Probe(cfg, nanos, run, a, j).failed;
      assert g[a][j] == Probe(cfg, nanos, run, a, j);
    }
  }

  /** `NodeCollector.Scrape`: an error and no samples if any probe failed;
      otherwise eight samples per (target, check target) pair. */
  function Scrape(cfg: CollectorConfig, env: map<string, string>, run: Invocation -> MtrRun)
    : (r: Result<seq<Sample>, ScrapeError>)
    ensures r.Err? <==> PairFailed(cfg, DeadlineNanos(cfg, env), run)
    ensures r.Ok? ==> |r.value| == 8 * (|cfg.targets| * |cfg.checkTargets|)
  {
    var probes := AllProbes(cfg, env, run);
    FailedIffSomePairFailed(cfg, DeadlineNanos(cfg, env), run);
    ProbesLength(cfg, DeadlineNanos(cfg, env), run);
    var records := Records(cfg, probes);
    assert |records| == |cfg.targets| * |cfg.checkTargets|;
    if AnyProbeFailed(probes) then Err(ProbeFailed) else Ok(SamplesOf(NodeName(env), records))
  }

  /** When no probe failed, the scrape succeeds, and for the probe at
      position `k` of the target-major order (see ProbeAt) it emits the
      eight samples of that probe's record, at block `k`. */
  lemma ScrapeBlock(cfg: CollectorConfig, env: map<string, string>, run: Invocation -> MtrRun, k: nat)
    requires k < |AllProbes(cfg, env, run)|
    requires !AnyProbeFailed(AllProbes(cfg, env, run))
    ensures Scrape(cfg, env, run).Ok?
    ensures var v := Scrape(cfg, env, run).value;
            8 * k + 8 <= |v|
            && v[8 * k .. 8 * k + 8] == RecordSamples(NodeName(env), RecordOf(cfg, AllProbes(cfg, env, run)[k]))
  {
    var records := Records(cfg, AllProbes(cfg, env, run));
    assert Scrape(cfg, env, run) == Ok(SamplesOf(NodeName(env), records));
    SamplesOfBlock(NodeName(env), records, k);
  }

  /** With no targets or no check targets nothing is probed: the scrape
      succeeds with no samples. */
  lemma ScrapeNoPairs(cfg: CollectorConfig, env: map<string, string>, run: Invocation -> MtrRun)
    requires |cfg.targets| == 0 || |cfg.checkTargets| == 0
    ensures Scrape(cfg, env, run) == Ok([])
  {
    var probes := AllProbes(cfg, env, run);
    NoProbes(cfg, DeadlineNanos(cfg, env), run);
    assert !AnyProbeFailed(probes);
    assert Records(cfg, probes) == [];
    assert Scrape(cfg, env, run) == Ok(SamplesOf(NodeName(env), Records(cfg, probes)));
  }

  lemma NoProbes(cfg: CollectorConfig, nanos: int, run: Invocation -> MtrRun)
    requires |cfg.targets| == 0 || |cfg.checkTargets| == 0
    ensures Probes(cfg, nanos, run) == []
  {
    var g := Grid(cfg, nanos, run);
    FlattenLength(g, |cfg.checkTargets|);
    if |cfg.targets| > 0 {
      RowsOfNone(|cfg.targets|);
    }
  }

  lemma {:induction false} RowsOfNone(q: nat)
    ensures RowsOf(q, 0) == 0
  {
    if q > 0 {
      RowsOfNone(q - 1);
    }
  }

  /** The collector outcome the exporter sees for this scrape. */
  function AsCollectorRun(name: string, r: Result<seq<Sample>, ScrapeError>, seconds: real): (run: Exporter.CollectorRun)
    ensures run.samples.None? <==> r.Err?
    ensures r.Ok? ==> run.samples == Some(r.value)
  {
    Exporter.CollectorRun(name, if r.Ok? then Some(r.value) else None, seconds)
  }

  const ScenarioTarget: PingHost := PingHost("10.0.0.2", "node2")
  const ScenarioHop: MtrOutputHop := MtrOutputHop(1, "10.0.0.2", 5, 0.0, 1.5, 1.0, 2.0, 0.25)

  function ScenarioConfig(base: CollectorConfig): CollectorConfig {
    base.(packetsSent := "5", targets := [ScenarioTarget], checkTargets := [CheckTarget("ICMP", "1", "")])
  }

  /** Five packets, one target, one ICMP check target, and an `mtr` report
      whose only hop is the target with no loss: the probe is reachable,
      with all five packets received over one hop. */
  lemma ScenarioProbe(base: CollectorConfig)
    ensures var cfg := ScenarioConfig(base);
            var p := Probe(cfg, DeadlineNanos(cfg, map[]), (inv: Invocation) => MtrRun(false, [ScenarioHop]), 0, 0);
            var m := RecordOf(cfg, p);
            && !p.failed
            && m.fields.status == StatusOk
            && m.fields.totalSent == 5 && m.fields.totalReceived == 5
            && m.fields.rttMean == 1.5 && m.fields.hopsNum == 1
  {
    assert WellFormed("5") && SignedValue("5") == 5 by {
      assert Unsigned("5") == "5";
      assert FoldDigits(0, "5") == FoldDigits(5, "");
    }
    assert LastMatch([ScenarioHop], "10.0.0.2") == Some(0);
    ReceivedBounds(5, 0.0);
  }

  /** That scrape emits exactly the eight samples of the reachable record. */
  lemma ScenarioReachable(base: CollectorConfig)
    ensures var r := Scrape(ScenarioConfig(base), map[], (inv: Invocation) => MtrRun(false, [ScenarioHop]));
            r.Ok? && |r.value| == 8
            && r.value[0].value == StatusOk as real
            && r.value[1].value == 5.0 && r.value[2].value == 5.0
            && r.value[3].value == 1.5 && r.value[7].value == 1.0
  {
    var cfg := ScenarioConfig(base);
    var run := (inv: Invocation) => MtrRun(false, [ScenarioHop]);
    var nanos := DeadlineNanos(cfg, map[]);
    ScenarioProbe(base);
    var p := Probe(cfg, nanos, run, 0, 0);
    var g := Grid(cfg, nanos, run);
    assert g[0] == [p];
    assert g == [[p]];
    assert Flatten(g) == [p] by { assert g[1..] == []; }
    assert !AnyProbeFailed([p]);
    assert Records(cfg, [p]) == [RecordOf(cfg, p)];
    assert SamplesOf(NodeName(map[]), [RecordOf(cfg, p)]) == RecordSamples(NodeName(map[]), RecordOf(cfg, p)) by {
      assert [RecordOf(cfg, p)][1..] == [];
    }
  }

  /** The same scrape when `mtr` fails: the probe's record would be
      unreachable, but the collector returns an error and emits nothing. */
  lemma ScenarioProbeFails(base: CollectorConfig)
    ensures var cfg := ScenarioConfig(base);
            var run := (inv: Invocation) => MtrRun(true, []);
            && RecordOf(cfg, Probe(cfg, DeadlineNanos(cfg, map[]), run, 0, 0)).fields.status == StatusUnreachable
            && Scrape(cfg, map[], run).Err?
  {
    var cfg := ScenarioConfig(base);
    var run := (inv: Invocation) => MtrRun(true, []);
    var nanos := DeadlineNanos(cfg, map[]);
    var p := Probe(cfg, nanos, run, 0, 0);
    assert p.failed;
    assert PairFailed(cfg, nanos, run);
  }

  /** The exporter's view of a failed node-collector scrape: the error
      gauge is set, one more error is counted for "collector.node_collector",
      and only the duration sample is emitted. */
  lemma FailedScrapeCounted(r: Result<seq<Sample>, ScrapeError>, c: Exporter.Counters, seconds: real)
    requires r.Err?
    ensures var report := Exporter.Scrape(c, [AsCollectorRun(Exporter.NodeType, r, seconds)]);
            && report.counters.lastScrapeError == 1
            && Exporter.ErrorCount(report.counters.scrapeErrors, "collector.node_collector")
               == Exporter.ErrorCount(c.scrapeErrors, "collector.node_collector") + 1
            && report.emitted == [Sample(Exporter.DurationMetric, ["collector.node_collector"], seconds)]
  {
    assert AsCollectorRun(Exporter.NodeType, r, seconds) == Exporter.CollectorRun(Exporter.NodeType, None, seconds);
    assert Exporter.CollectorPrefix + Exporter.NodeType == "collector.node_collector";
    Exporter.SingleFailedRun(c, Exporter.NodeType, seconds);
  }
}
