# network-latency-exporter: a verified model of the probing pipeline

The network latency exporter runs on every node of a Kubernetes cluster. It
probes the other nodes with `mtr` and publishes the results as Prometheus
gauges. Under the Kubernetes client, the `mtr` subprocess, the Prometheus
registry and the HTTP server sits a set of sequential rules:

- which protocols are probed, parsed from the `CHECK_TARGET` list;
- which nodes are probed: node discovery, then target validation;
- how the configuration container is initialised, refreshed and queried;
- how one `mtr` report becomes a latency record;
- how the records of a scrape become samples;
- how the exporter counts scrapes, failures and durations.

This project models those rules as pure Dafny functions over immutable
datatypes, and proves the properties the code promises about them.

Modules, one per Go package or file:

- `Wrappers`: `Option` and `Result`.
- `GoStrings`: the parts of Go's `strings` package that the exporter uses.
  - `TrimSpace`, and `Split` with a one-character separator.
  - ASCII `ToLower`/`ToUpper`.
- `GoStrconv`: the 64-bit integer helpers.
  - Go's `strconv.Atoi`, exact, including the clamped value it returns with a range error.
  - `strconv.Itoa`.
  - 64-bit wrap-around.
- `Metrics` (`pkg/metrics/types.go`): check targets, hops, latency records, ping targets, and the `(name, labels, value)` shape of a sample.
- `Utils` (`pkg/utils/utilities.go`): environment lookup with a default, and target validation.
- `Discover` (`pkg/collector/discover.go`, `discover_test.go`): node discovery and the first-match lookup.
- `Exporter` (`pkg/collector/exporter.go`): `Type.String`, `AsType`, and the counters one scrape updates.
- `Config` (`pkg/collector/config.go`): the configuration container, as a state record changed by pure step functions.
- `NodeCollector` (`pkg/collector/node_collector.go`): argument vectors, deadlines, hop classification, the target × check-target cross product, and the samples a scrape emits.
- `Startup` (`cmd/main.go`): parsing the protocol list, and the enabled-collector filter.
- `Runtime` (`cmd/main.go`, `cmd/node_watcher.go`): the process across scrapes. It holds the container and the configuration the node collector probes with, and the node watcher's target refresh acts on it.

How the outside world is represented:

- The process environment is a `map<string, string>` argument.
- `net.ParseIP` is a predicate argument `isIP`.
- The Kubernetes node listing is an `Option<seq<Node>>` argument; `None` means the client or the list call failed.
- Running `mtr` and decoding its JSON is a function argument, `run: Invocation -> MtrRun`. It receives the probe's target and check-target positions, its 14-element argument vector and its deadline in nanoseconds. It returns a failure flag and the decoded hop list. The flag stands for an exec error, a timeout or a JSON error.
- Each collector's outcome and measured duration are inputs to the exporter's scrape.

Behaviour of the code that is easy to miss, and that the model keeps:

- Received packets are `sent - int(sent * loss / 100)`. `int()` truncates toward zero, so the lost count is rounded down: 3 packets at 50% loss leave 2.
- A failed probe does not become an "unreachable" data point. Any failed probe makes the node collector return an error, and then the scrape emits none of its records. Only the exporter's duration sample for the collector appears.
- A packet count too large for 64 bits is not read as 0. `strconv.Atoi` returns the clamped value together with its range error, and the code keeps that value.
- Targets refreshed by the node watcher reach the configuration container but not the node collector. The collector keeps probing the configuration it copied at start-up (see Findings).

## Model

| member | source | states |
|---|---|---|
| GoStrings.TrimSpace | cmd/main.go:82 | The result is a contiguous slice of the input with nothing but white space before and after it, and it neither starts nor ends with white space. So exactly the white space at the two ends is removed, and a string without white space at either end is returned unchanged |
| GoStrings.TrimSpaceEnds | cmd/main.go:82 | White space, then text that neither starts nor ends with white space, then white space: trimming gives exactly that text |
| GoStrings.Split | cmd/main.go:82-83 | Splitting yields at least one field; no field contains the separator; the first field is a prefix of the input; joining the fields with the separator gives the input back |
| GoStrings.SplitJoin | cmd/main.go:82-83 | Splitting the join of separator-free fields returns exactly those fields (the inverse direction of Split's join property) |
| GoStrings.SplitNoSep | cmd/main.go:83 | Text without the separator splits into the single field holding the whole text |
| GoStrings.ToLowerFixpoint | pkg/collector/exporter.go:44 | Lower-casing leaves a string unchanged exactly when it holds no upper-case letter, and its result never holds one |
| GoStrings.ToUpperFixpoint | pkg/collector/node_collector.go:164 | Upper-casing leaves a string unchanged exactly when it holds no lower-case letter, and its result never holds one |
| GoStrconv.Wrap64 | pkg/collector/node_collector.go:116 | The result is a 64-bit integer congruent to the input modulo 2^64, and equals the input when the input already fits |
| GoStrconv.Atoi | pkg/metrics/types.go:110 | An optional sign plus digits within the int64 range parses to its value; beyond the range it is a range error carrying MaxInt64 or MinInt64 by sign. Any other text is a syntax error, unless the digits it starts with (after the sign) already exceed 2^64-1: Go checks each character before the overflow, so "99999999999999999999x" is a range error with the same clamp |
| GoStrconv.AtoiValue | pkg/metrics/types.go:110-111 | The value the code keeps when it discards the error is always a 64-bit integer. For a signed number it is that number clamped to [MinInt64, MaxInt64]. For other text it is 0, unless the leading digits already exceed 2^64-1, when it is the bound on the number's side |
| GoStrconv.Itoa | pkg/collector/node_collector.go:192 | The text is the canonical decimal: a '-' exactly for negative values and never a '+', then a non-empty run of digits with no leading zero (only 0 itself is "0", and no negative value reads "-0") |
| GoStrconv.AtoiItoa | pkg/collector/node_collector.go:192 | For every 64-bit integer, Atoi parses Itoa's text back to the same integer, so the packets label holds the packet count exactly |
| Metrics.NewNetworkLatencyMetric | pkg/metrics/types.go:99-114 | A fresh record has the four tags copied verbatim. Its status is Unreachable (1, distinct from OK = 0). Received, hop count and every RTT field are zero. TotalSent is the value of `sent` clamped to the 64-bit range when `sent` is a signed number. When Atoi reports a range error it is the clamped value Atoi returns with it, and on a syntax error it is 0 |
| Utils.GetEnvWithDefaultValue | pkg/utils/utilities.go:18-27 | An unset or empty variable yields the default, any other value is returned as stored; a non-empty default never yields "" |
| Utils.ValidateTargets | pkg/utils/utilities.go:41-52 | Every kept target has a non-empty address accepted by the IP parser. Each target occurs in the output exactly as often as in the input when it is valid, and not at all otherwise, so duplicates are kept and names never matter |
| Utils.ValidateOne | pkg/utils/utilities.go:44-48 | A single target is kept exactly when its address is non-empty and parses |
| Utils.ValidateConcat | pkg/utils/utilities.go:43-45 | Validation of a concatenation is the concatenation of the validations, so kept targets keep their relative order |
| Utils.ValidateIdempotent | pkg/utils/utilities.go:41-52 | Validating an already validated list returns it unchanged |
| Utils.ValidateKeepsValid | pkg/utils/utilities.go:41-52 | A list of valid targets passes validation unchanged |
| Discover.ScanIsLast | pkg/collector/discover.go:45-54 | The address loop ends with the address of the last InternalIP entry and of the last Hostname entry, "" where there is none |
| Discover.NodeTarget | pkg/collector/discover.go:45-62 | A node yields a target exactly when its last InternalIP address is non-empty and its last Hostname differs from the exporter's node name; the target is that (address, name) pair |
| Discover.DiscoverNodes | pkg/collector/discover.go:42-64 | At most one target per node, each with a non-empty address and a name different from the exporter's node name; every node that qualifies has its target in the result |
| Discover.DiscoverOne | pkg/collector/discover.go:44-63 | A one-node list yields that node's target when it qualifies and nothing otherwise |
| Discover.DiscoverSound | pkg/collector/discover.go:44-63 | Every target in the result is the target of some listed node |
| Discover.DiscoverConcat | pkg/collector/discover.go:44-63 | The targets of a concatenated node list are the first list's targets followed by the second's, so node-list order is kept |
| Discover.Discover | pkg/collector/discover.go:32-69 | A target list exists exactly when `DISCOVER_ENABLE` (default "true") is exactly "true" and the node listing succeeded. It is then the node-by-node discovery of the listing against `NODE_NAME` (default "localhost"). Its targets have non-empty addresses and are never the exporter's own node |
| Discover.GetByIpAddress | pkg/collector/discover_test.go:68-75 | Nothing is found exactly when no target has the address; otherwise the result has that address and is the first target in the list with it |
| Discover.ValidateFixture | pkg/collector/discover_test.go:49-57 | With an IP parser that accepts "1.2.3.4" and rejects "1.2", the four-entry test list validates to node1 followed by the nameless "1.2.3.4" entry |
| Discover.GetByIpAddressFixture | pkg/collector/discover_test.go:61-64 | In the test list, "1.2.3.4" finds node1 and not its nameless duplicate, and "1.2.3.9" finds nothing |
| Exporter.TypeString | pkg/collector/exporter.go:30-41 | `Type.String` is the identity on "node_collector" and "pod_collector" and "" on every other name |
| Exporter.AsType | pkg/collector/exporter.go:43-50 | The result is the input itself exactly when its lower-case form is a known type name (or it is ""), and "" otherwise; case is not normalised |
| Exporter.AsTypeThenString | pkg/collector/exporter.go:43-50 | `Type.String(AsType(s))` gives `s` back exactly for the known names; "NODE_COLLECTOR" passes AsType unchanged but Type.String maps it to "" |
| Exporter.RunCollectors | pkg/collector/exporter.go:138-151 | The collector loop leaves the scrape count alone. It sets the error gauge exactly when some collector failed. It raises each label's error counter by the number of failing collectors carrying that label, and emits each collector's output in turn |
| Exporter.Scrape | pkg/collector/exporter.go:131-152 | A scrape counts one more scrape. The error gauge ends at 1 if any collector failed and 0 otherwise. Each failing collector adds one error under `"collector." + name`; other labels keep their counts |
| Exporter.OneDurationPerCollector | pkg/collector/exporter.go:142-149 | When collectors emit no samples of their own under the duration metric's name, a scrape emits exactly one duration sample per collector, in collector order, labelled `"collector." + name`, failing or not |
| Exporter.SingleFailedRun | pkg/collector/exporter.go:142-149 | With one failing collector, the gauge is 1 and that collector's error count rises by exactly one while every other label keeps its count. Only its duration sample is emitted |
| Config.NewConfigContainer | pkg/collector/config.go:28-38 | A new container holds the requested types and no configurations; it has not been initialised and its `Exporter` is not set |
| Config.BuildConfigs | pkg/collector/config.go:75-98 | The loop stores the configuration under every known type before the first unknown one, reports that unknown type as the error, and keeps the entries stored before it |
| Config.SetConfig | pkg/collector/config.go:67-100 | Earlier entries are discarded. It succeeds exactly when every listed type is known, and then every listed type has an entry. On failure the error names an unknown listed type and only the types before it have entries. Every entry holds exactly the given parameters |
| Config.Initialize | pkg/collector/config.go:60-65 | The container is initialised afterwards and its type list never changes. The first call stores SetConfig's entries and returns its error; a later call returns no error and changes nothing |
| Config.InitializeOnce | pkg/collector/config.go:60-65 | A second initialisation with any parameters keeps the first one's configuration |
| Config.UpdateLoop | pkg/collector/config.go:41-56 | The loop succeeds exactly when every type it reaches has an entry; it replaces only the targets of reached entries and keeps the key set |
| Config.UpdateTargets | pkg/collector/config.go:40-58 | A reached type without an entry panics. A loop that runs to its end (no unknown type) on a container whose `Exporter` is not set panics in the closing log line; a loop that returns at an unknown type never reaches it. Otherwise only the `targets` field of each entry changes. Reached entries get the new targets. Entries after the first unknown type stay untouched |
| Config.UpdateBeforeExporterPanics | pkg/collector/config.go:28-58 | A target refresh of a freshly built and successfully initialised container, before its `Exporter` is set, panics at the closing log line |
| Config.GetConfig | pkg/collector/config.go:102-107 | The lookup returns the entry stored under `Type.String(t)`; in a container keyed by known types, it finds one exactly when `t` is known and configured |
| Config.InitializeThenUpdate | pkg/collector/config.go:40-107 | After a successful initialisation each listed type is configured with exactly the given parameters. Once the `Exporter` is set, a later target refresh of the container succeeds, and the container's lookup then sees the new targets with every other field unchanged. This concerns the container only; Runtime.StaleTargets shows that the node collector does not see them |
| NodeCollector.MtrArgs | pkg/collector/node_collector.go:87-98 | The shared argument prefix has ten elements, with the probe timeout at positions 1 and 3, the packet size at 7 and the packet count at 9 |
| NodeCollector.ProbeArgs | pkg/collector/node_collector.go:126-131 | Every probe's vector has 14 elements: the protocol flag, "-P", the port and the target address follow the shared prefix |
| NodeCollector.ProbeArgsLayout | pkg/collector/node_collector.go:126-131 | The first ten elements are the shared prefix, and an ICMP probe contributes an empty-string flag element |
| NodeCollector.DeadlineSeconds | pkg/collector/node_collector.go:106-116 | The deadline is the packet count plus `MTR_TIMEOUT` (default "10"), each as Atoi leaves it, added with 64-bit wrap-around: the result is a 64-bit value congruent to the sum modulo 2^64, and equal to the sum when the sum fits |
| NodeCollector.DeadlineNanos | pkg/collector/node_collector.go:116 | The deadline in nanoseconds is seconds × 10^9 with 64-bit wrap-around: congruent to the product modulo 2^64, and equal to it whenever it fits |
| NodeCollector.DeadlineExamples | pkg/collector/node_collector.go:106-116 | Five packets with no `MTR_TIMEOUT` give 15 s (15·10^9 ns); an unparsable packet count leaves the 10 default seconds |
| NodeCollector.DeadlineWraps | pkg/collector/node_collector.go:106-116 | A packet count of MaxInt64 with the default timeout wraps the sum around to MinInt64 + 9 seconds |
| NodeCollector.Trunc | pkg/collector/node_collector.go:170 | `int(x)` on a float lies within one unit of `x`, toward zero |
| NodeCollector.ReceivedBounds | pkg/collector/node_collector.go:170 | Loss 0 receives every packet, loss 100 none, and any loss in [0, 100] receives between 0 and the packets sent; the lost count is truncated, so 3 packets at 50% leave 2 |
| NodeCollector.ApplyHopsLast | pkg/collector/node_collector.go:166-176 | After the hop loop the record is as the last hop whose host equals the target address left it, or unchanged when no hop matches |
| NodeCollector.ProbeRecord | pkg/collector/node_collector.go:164-176 | The record has the target's name and address, the upper-cased protocol and the port. Its hop count is the report's length. It is OK exactly when some hop's host equals the address. Otherwise it is the default record with that hop count. When OK, received and RTTs come from the last matching hop. The mean RTT field no gauge reports stays 0 |
| NodeCollector.ProbesLength | pkg/collector/node_collector.go:119-123 | A scrape runs exactly one probe per (target, check target) pair, `|targets| × |checkTargets|` in all |
| NodeCollector.ProbeAt | pkg/collector/node_collector.go:119-131 | The probe of target `a` with check target `j` sits at position `a × |checkTargets| + j`; it is run with that pair's argument vector |
| NodeCollector.RecordSamples | pkg/collector/node_collector.go:189-221 | A record yields eight gauges named `network_latency` + each suffix in order, all labelled with the node name, destination, address, packet count, protocol and port. Their values are, in order, the status, packets sent, packets received, the four RTT fields and the hop count (counts taken as exact, see Left out) |
| NodeCollector.DecodeRecordSamples | pkg/collector/node_collector.go:189-221 | With count gauges taken as exact, the eight samples determine the record: the decoder reads every field from its gauge, including the packet count from the `_sent` gauge, and accepts the block only when the packets label is Itoa of that count. Reading back the samples of any record (with its unused mean RTT at 0) gives the record again |
| NodeCollector.RecordSamplesDecode | pkg/collector/node_collector.go:189-221 | The other direction: every block the decoder accepts is exactly the eight samples of the record it decodes to |
| NodeCollector.SamplesOf | pkg/collector/node_collector.go:190-224 | The records of a scrape yield eight samples each |
| NodeCollector.SamplesOfBlock | pkg/collector/node_collector.go:190-224 | The samples of record `k` are exactly the block from `8k` to `8k + 8` |
| NodeCollector.FailedIffSomePairFailed | pkg/collector/node_collector.go:119-185 | Some probe of the scrape failed exactly when the probe of some (target, check target) pair failed |
| NodeCollector.Scrape | pkg/collector/node_collector.go:83-226 | The node collector's scrape is an error exactly when some pair's probe failed; otherwise it emits eight samples per pair |
| NodeCollector.ScrapeBlock | pkg/collector/node_collector.go:183-224 | When no probe failed the scrape succeeds, and block `k` of its samples is the eight gauges of the record built from probe `k`'s report |
| NodeCollector.ScrapeNoPairs | pkg/collector/node_collector.go:119-225 | With no targets or no check targets, the scrape succeeds and emits nothing |
| NodeCollector.AsCollectorRun | pkg/collector/exporter.go:144-149 | The exporter sees a failure exactly when the collector's scrape returned an error, and the emitted samples otherwise |
| NodeCollector.ScenarioProbe | pkg/collector/node_collector.go:164-176 | Five packets to a target whose only hop is itself with no loss: the record is OK, 5 sent and 5 received, RTT mean 1.5, one hop |
| NodeCollector.ScenarioReachable | pkg/collector/node_collector.go:187-224 | That scrape emits exactly eight samples: status 0, sent 5, received 5, mean 1.5, hop count 1 |
| NodeCollector.ScenarioProbeFails | pkg/collector/node_collector.go:142-185 | When `mtr` fails, the probe's record would be unreachable, but the scrape is an error and emits nothing |
| NodeCollector.FailedScrapeCounted | pkg/collector/exporter.go:142-149 | A failed node-collector scrape sets the error gauge and adds one error under "collector.node_collector". Only the duration sample is emitted |
| Startup.ParseEntry | cmd/main.go:83-97 | An accepted entry's protocol is a key of the flag map, and its `mtr` key is that protocol's flag |
| Startup.ParseEntryFields | cmd/main.go:83-97 | The general rule for any entry, stated over its `:` fields: it is accepted exactly when the first field is a known protocol (case-sensitively). Its port is the second field when there are exactly two fields and "1" for one field or three and more |
| Startup.ParseEntries | cmd/main.go:82-98 | No more check targets than entries. Each has protocol UDP, ICMP or TCP and the matching `mtr` flag |
| Startup.ParseEntriesConcat | cmd/main.go:82-98 | Parsing a concatenation parses each part in turn, so accepted entries keep their input order |
| Startup.ParseCheckTargets | cmd/main.go:81-98 | At most one check target per comma field of the trimmed list, each with a known protocol and its flag |
| Startup.ParseListFields | cmd/main.go:81-98 | The general rule for the whole list: white space around it is ignored, and the result is the accepted entries in order, each parsed on its own. White space inside the list stays part of its entries |
| Startup.ParseEntryBare | cmd/main.go:83-96 | A bare name is accepted with port "1" when it is a known protocol (case-sensitively) and skipped otherwise |
| Startup.ParseEntryWithPort | cmd/main.go:92-93 | `PROTO:port` with a known protocol gets that port |
| Startup.ParseEntryExtraField | cmd/main.go:92-96 | With three `:` fields the port falls back to "1" |
| Startup.ParseEntryLeadingSpace | cmd/main.go:83-90 | A field starting with white space names no protocol and is skipped |
| Startup.ParseSingleName | cmd/main.go:81-98 | A list holding one separator-free name yields that protocol with port "1" if it is known, nothing otherwise |
| Startup.ParseTwoFields | cmd/main.go:81-98 | A two-field list that needs no trimming yields the first field's check targets followed by the second's |
| Startup.ParseEmpty | cmd/main.go:81-98 | The empty list yields no check targets |
| Startup.ParseLowerCase | cmd/main.go:85-90 | "tcp" yields nothing: protocol names are case-sensitive |
| Startup.ParseKnownPair | cmd/main.go:81-98 | Two known protocols separated by a comma, the first with a port: both are kept in order, the second with port "1" |
| Startup.ParseKnownThenSpaced | cmd/main.go:82-90 | Only the ends of the whole list are trimmed: a field after a comma that begins with a space is skipped |
| Startup.ParseExampleSpaced | cmd/main.go:81-98 | "ICMP, TCP:80" yields only ICMP with port "1" |
| Startup.ParseExamplePair | cmd/main.go:81-98 | "UDP:53,TCP" yields UDP port 53 with `--udp`, then TCP port 1 with `--tcp` |
| Startup.EnabledIff | cmd/main.go:111-112 | In a container keyed by known types, a collector is enabled exactly when its registered state is true and it is configured under its own name; no unknown or upper-case name is ever enabled |
| Runtime.Start | cmd/main.go:123-132 | At start-up the node collector holds exactly the container's configuration for its type, and then the exporter is attached to the container, which is otherwise unchanged |
| Runtime.StartedRefreshHasExporter | cmd/main.go:131-149 | The watcher starts only after the exporter is attached, so a refresh of a started process never panics on the unset `Exporter` |
| Runtime.RefreshAsWritten | cmd/node_watcher.go:27 | A refresh as the watcher performs it: it fails exactly when UpdateTargets panics; otherwise the container is updated and the collector's configuration is unchanged |
| Runtime.StaleTargets | cmd/node_watcher.go:27 | After such a refresh with new targets the collector still probes its start-up targets while the container holds the new ones, so the two disagree |
| Runtime.Refresh | cmd/node_watcher.go:27 | The corrected refresh updates the container the same way, and the collector then again holds the container's configuration |
| Runtime.RefreshReachesProbes | cmd/node_watcher.go:27 | After the corrected refresh the collector probes the new targets with every other parameter as before |
| Runtime.EventTargets | cmd/node_watcher.go:21-28 | An event whose object is not a node panics at the name lookup. Otherwise targets are produced exactly for an added, modified or deleted node when discovery yields a list, and they are that list after validation |
| Runtime.OnNodeEvent | cmd/node_watcher.go:21-31 | The watcher's handling of one event, as written: a non-node object panics; an event without targets changes nothing; otherwise the container is updated with the targets exactly as UpdateTargets does it. The collector's configuration never changes |
| Runtime.OnNodeEventCorrected | cmd/node_watcher.go:21-31 | The corrected handling: the same outcomes for the container, after which a collector that agreed with the container still agrees with it |
| Runtime.ScrapeNode | pkg/collector/node_collector.go:83-226 | The node collector scrapes with the configuration it holds: a successful scrape emits eight samples per target and check target of that configuration |
| Runtime.EventThenScrape | cmd/node_watcher.go:21-31 | As written, the scrape after any handled node event is identical to the scrape before it: events never change what is probed |
| Runtime.EventThenScrapeCorrected | cmd/node_watcher.go:21-31 | With the corrected handling, after a node event that discovers targets a successful scrape emits eight samples per newly discovered valid target and check target |
| Startup.ParsedProtocolsUpper | cmd/main.go:83-90 | Every parsed check target's protocol is unchanged by upper-casing, so the ASCII-only `ToUpper` at pkg/collector/node_collector.go:164 acts on every protocol that reaches it exactly as Go's does |
| Startup.EnabledByLatencyTypes | cmd/main.go:110-121 | With `LATENCY_TYPES` "node_collector" the node collector is enabled; with "pod_collector" nothing is, since only the node collector is registered |

## Left out

- Running `mtr`, its context deadline and JSON decoding are I/O. They are the `run` argument, and every failure kind is one flag.
- Goroutines, the wait group and the mutexes are left out. So are the unsynchronised writes to the record list and to the shared error variable. Probes are evaluated in target-major order, and collectors run in list order. The source guarantees neither order, and the race on the record list could lose records.
- NodeCollector.RecordSamples: the four RTT gauges carry the hop's values unchanged. The source rounds them to two decimals through `FormatFloat`/`ParseFloat`, floating-point formatting that this model does not represent. The status, sent, received and hop-count gauges carry their integers exactly, while Go's `float64(int)` (pkg/collector/node_collector.go:202-206, 220) rounds integers beyond 2^53 in magnitude, which only a packet count or hop count that large would reach.
- NodeCollector.DecodeRecordSamples: the round trip holds for exact count gauges only. For a packet count beyond 2^53, such as MaxInt64, Go's `_sent` gauge is the rounded float (2^63) and no longer matches the packets label.
- NodeCollector.ReceivedBounds: loss and packet counts are exact reals, not `float64`. A product that float64 rounds onto an integer boundary could truncate differently.
- Prometheus library objects are left out: gauge vectors, descriptors, the metric channel, the registry, `Describe`/`Collect` and `promhttp`. Samples are `(name, labels, value)` tuples.
- `MetricHandler` is left out: the scrape-timeout header, its float parsing and `time.Duration` arithmetic. Wall-clock duration measurement is left out too; durations are inputs.
- `net.ParseIP` is the predicate argument `isIP`, with no IP grammar behind it.
- GoStrings.ToUpper: ASCII only. Letters are mapped for ASCII only, not all of Unicode. Every protocol that reaches the one call (pkg/collector/node_collector.go:164) is "UDP", "ICMP" or "TCP" (cmd/main.go:85-90), which both mappings leave unchanged (Startup.ParsedProtocolsUpper).
- GoStrings.ToUpperFixpoint: states the fixpoint rule for the ASCII mapping only; for Go's Unicode mapping a string with a non-ASCII lower-case letter would also change.
- GoStrings.ToLower: letters are mapped for ASCII only, not all of Unicode. The only non-ASCII letters that Go lower-cases to ASCII are the Kelvin sign and the dotted capital I. They become 'k' and 'i', and neither letter occurs in a known collector name, so `AsType` is unaffected.
- The Kubernetes client is left out: `getClusterNodes`, `GetClientset` and the watch channel. The node list is an argument, and one watch event is one call of `OnNodeEvent`. An event is reduced to its type and to whether its object is a node: the name lookup at cmd/node_watcher.go:22 panics on any other object (such as the status an error event carries), which the model returns as `Err`. The log line itself is left out.
- `GetNamespace`, `AddHSTSHeader`, the HTTP server, flags, readiness and health handlers, and signal handling have no modelled logic.
- The collector factory registry and `GetCollectorStates` are not part of this model. The registry of this exporter is the constant `RegisteredStates`: only the node collector, enabled by default.
- The pod collector's own code is not part of this model. The configuration container builds its entry like the node collector's, with the same fields.
- The node collector's `Initialize` copies its configuration into a package-level variable, and `Runtime.Start` models that copy. Its reflection check (a non-struct value is an "Unsupported type" error) is left out, because the container only stores struct values. The constructor, `Close`, `Type` and `Name` have no logic; `Name` is the constant `NodeType` used for the error label.
- Runtime.OnNodeEventCorrected: this and Runtime.EventThenScrapeCorrected describe the corrected refresh (see Findings), not what the source does after a node event; Runtime.OnNodeEvent and Runtime.EventThenScrape describe the source.
- Runtime.EventThenScrapeCorrected: corrected behaviour only, as above.
- `strconv.Atoi` assumes 64-bit `int`, as on the platforms the exporter is built for.

## Findings

| source | as written | input that shows it | evidently intended | confidence | as-written member | corrected member |
|---|---|---|---|---|---|---|
| cmd/node_watcher.go:21-31 | On a node event the watcher calls `UpdateTargets`, which replaces the targets in the container's map only. The node collector copied its configuration into the package-level `nodeConfig` once at start-up (cmd/main.go:123-130, pkg/collector/node_collector.go:72-81) and probes that copy on every scrape | Start with node targets [A]; a node is added and discovery yields [A, B]; every later scrape still probes only A | Each scrape probes the targets the container currently holds, so a refresh reaches the probes | medium, not executed | Runtime.StaleTargets | Runtime.RefreshReachesProbes |
