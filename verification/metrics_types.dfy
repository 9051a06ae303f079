/** Records of `pkg/metrics`: probe specifications, `mtr` hops, latency
    records and ping targets, plus the `(name, labels, value)` shape of an
    emitted Prometheus sample. */
module Metrics {
  import opened GoStrconv

  const MeasurementName: string := "network_latency"
  const StatusOk: int := 0
  const StatusUnreachable: int := 1

  /** One protocol/port pair to probe every target with; `mtrKey` is the
      `mtr` flag selecting the protocol. */
  datatype CheckTarget = CheckTarget(protocol: string, port: string, mtrKey: string)

  /** One hop of an `mtr --json` report. Loss and RTTs are floating point in
      the source; here they are reals that are copied through. */
  datatype MtrOutputHop = MtrOutputHop(
    number: int,
    host: string,
    sent: int,
    loss: real,
    rttMean: real,
    rttMin: real,
    rttMax: real,
    rttDeviation: real)

  datatype Tags = Tags(dest: string, destIp: string, protocol: string, port: string)

  datatype Fields = Fields(
    status: int,
    totalSent: int,
    totalReceived: int,
    rttMean: real,
    rttMin: real,
    rttMax: real,
    rttAvg: real,
    rttDeviation: real,
    hopsNum: int)

  /** The latency record built for one (target, check target) probe. */
  datatype NetworkLatencyMetric = NetworkLatencyMetric(tags: Tags, fields: Fields)

  /** A destination to probe: its address and an advisory name. */
  datatype PingHost = PingHost(ipAddress: string, name: string)

  /** An emitted Prometheus sample: metric name, label values, value. */
  datatype Sample = Sample(name: string, labels: seq<string>, value: real)

  /** A fresh record: unreachable, nothing received, zero RTTs, and
      `sent` read with Atoi whose error is discarded. */
  function NewNetworkLatencyMetric(dest: string, destIp: string, protocol: string, port: string, sent: string)
    : (m: NetworkLatencyMetric)
    ensures m.tags == Tags(dest, destIp, protocol, port)
    ensures m.fields.status == StatusUnreachable && m.fields.status != StatusOk
    ensures m.fields.totalReceived == 0 && m.fields.hopsNum == 0
    ensures m.fields.rttMean == 0.0 && m.fields.rttMin == 0.0 && m.fields.rttMax == 0.0
    ensures m.fields.rttAvg == 0.0 && m.fields.rttDeviation == 0.0
    ensures InInt64(m.fields.totalSent)
    ensures WellFormed(sent) && InInt64(SignedValue(sent)) ==> m.fields.totalSent == SignedValue(sent)
    ensures WellFormed(sent) ==> m.fields.totalSent == Clamp64(SignedValue(sent))
    ensures Atoi(sent).SyntaxError? ==> m.fields.totalSent == 0
    ensures Atoi(sent).RangeError? ==> m.fields.totalSent == Atoi(sent).clamped
  {
    NetworkLatencyMetric(
      Tags(dest, destIp, protocol, port),
      Fields(StatusUnreachable, AtoiValue(sent), 0, 0.0, 0.0, 0.0, 0.0, 0.0, 0))
  }
}
