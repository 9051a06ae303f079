/** `pkg/collector/config.go`: the configuration container, as a state
    record transformed by pure step functions. The read/write mutex is left
    out; `sync.Once` is the `initialized` flag. */
module Config {
  import opened Wrappers
  import opened Metrics
  import opened Exporter

  /** The per-collector configuration (`model.NodeCollector`, and the
      pod-collector record with the same fields). */
  datatype CollectorConfig = CollectorConfig(
    packetsSent: string,
    packetSize: string,
    probeTimeout: string,
    checkTargets: seq<CheckTarget>,
    targets: seq<PingHost>,
    metricsPath: string)

  /** `Container`: the requested collector kinds, the configuration built
      for each, whether the one-shot initialisation has run, and whether the
      `Exporter` field (whose logger UpdateTargets writes to) is set. */
  datatype Container = Container(latencyTypes: seq<string>, configs: map<string, CollectorConfig>, initialized: bool,
                                 exporterSet: bool)

  datatype ConfigError = UnknownCollectorType(name: string)

  datatype SetResult = SetResult(container: Container, error: Option<ConfigError>)

  /** Every configured key is a known collector type. */
  predicate WellKeyed(c: Container) {
    forall k :: k in c.configs ==> IsKnownType(k)
  }

  function NewConfigContainer(latencyTypes: seq<string>): (c: Container)
    ensures c.latencyTypes == latencyTypes && c.configs == map[] && !c.initialized && !c.exporterSet
  {
    Container(latencyTypes, map[], false, false)
  }

  /** Position of the first unknown type in `types`, or `|types|`. */
  function FirstUnknown(types: seq<string>): (k: nat)
    ensures k <= |types|
    ensures forall j :: 0 <= j < k ==> IsKnownType(types[j])
    ensures k < |types| ==> !IsKnownType(types[k])
  {
    if |types| == 0 then 0
    else if !IsKnownType(types[0]) then 0
    else 1 + FirstUnknown(types[1..])
  }

  /** The keys of a sequence of names. */
  function KeySet(types: seq<string>): set<string> {
    set i | 0 <= i < |types| :: types[i]
  }

  /** Extending a prefix by one name on the left adds that name. */
  lemma KeySetCons(types: seq<string>, n: nat)
    requires 0 < |types| && n < |types|
    ensures KeySet(types[..n + 1]) == {types[0]} + KeySet(types[1..][..n])
  {
    var lhs := types[..n + 1];
    forall x | x in KeySet(lhs) ensures x in {types[0]} + KeySet(types[1..][..n]) {
      var i :| 0 <= i < |lhs| && lhs[i] == x;
      if i > 0 { assert types[1..][..n][i - 1] == x; }
    }
    forall x | x in KeySet(types[1..][..n]) ensures x in KeySet(lhs) {
      var i :| 0 <= i < n && types[1..][..n][i] == x;
      assert lhs[i + 1] == x;
    }
    assert lhs[0] == types[0];
  }

  /** SetConfig's loop: stores `cfg` under each known type, and stops with an
      error at the first unknown type, keeping what it stored before. */
  function BuildConfigs(types: seq<string>, cfg: CollectorConfig, acc: map<string, CollectorConfig>)
    : (r: (map<string, CollectorConfig>, Option<ConfigError>))
    ensures r.1 == (if FirstUnknown(types) < |types| then Some(UnknownCollectorType(types[FirstUnknown(types)])) else None)
    ensures r.0.Keys == acc.Keys + KeySet(types[..FirstUnknown(types)])
    ensures forall k :: k in r.0 ==> r.0[k] == (if k in KeySet(types[..FirstUnknown(types)]) then cfg else acc[k])
  {
    if |types| == 0 then (acc, None)
    else if !IsKnownType(types[0]) then
      assert types[..0] == [];
      (acc, Some(UnknownCollectorType(types[0])))
    else
      var r := BuildConfigs(types[1..], cfg, acc[types[0] := cfg]);
      var n := FirstUnknown(types[1..]);
      KeySetCons(types, n);
      r
  }

  /** `SetConfig`: discards every earlier entry, then builds one entry per
      listed type; an unknown type is an error that keeps the entries built
      for the types before it. */
  function SetConfig(c: Container, cfg: CollectorConfig): (r: SetResult)
    ensures r.container.latencyTypes == c.latencyTypes && r.container.initialized == c.initialized
    ensures r.container.exporterSet == c.exporterSet
    ensures WellKeyed(r.container)
    ensures r.error.None? <==> forall i :: 0 <= i < |c.latencyTypes| ==> IsKnownType(c.latencyTypes[i])
    ensures r.error.None? ==> r.container.configs.Keys == KeySet(c.latencyTypes)
    ensures r.error.Some? ==>
              (exists k :: 0 <= k < |c.latencyTypes|
                && r.error.value == UnknownCollectorType(c.latencyTypes[k])
                && !IsKnownType(c.latencyTypes[k])
                && r.container.configs.Keys == KeySet(c.latencyTypes[..k]))
    ensures forall k :: k in r.container.configs ==> r.container.configs[k] == cfg
  {
    var types := c.latencyTypes;
    var built := BuildConfigs(types, cfg, map[]);
    var n := FirstUnknown(types);
    assert n == |types| ==> types[..n] == types;
    assert forall k :: k in KeySet(types[..n]) ==> IsKnownType(k) by {
      forall k | k in KeySet(types[..n]) ensures IsKnownType(k) {
        var i :| 0 <= i < n && types[..n][i] == k;
      }
    }
    assert n < |types| ==> !IsKnownType(types[n]) && built.1 == Some(UnknownCollectorType(types[n]));
    SetResult(c.(configs := built.0), built.1)
  }

  /** `Initialize`: runs SetConfig the first time only; every later call
      reports no error and changes nothing. */
  function Initialize(c: Container, cfg: CollectorConfig): (r: SetResult)
    ensures r.container.initialized
    ensures r.container.latencyTypes == c.latencyTypes && r.container.exporterSet == c.exporterSet
    ensures c.initialized ==> r == SetResult(c, None)
    ensures !c.initialized ==>
              (r.error == SetConfig(c, cfg).error && r.container.configs == SetConfig(c, cfg).container.configs)
  {
    if c.initialized then SetResult(c, None)
    else
      var s := SetConfig(c, cfg);
      SetResult(s.container.(initialized := true), s.error)
  }

  /** A second initialisation, with any parameters, keeps the first one's
      configuration. */
  lemma InitializeOnce(c: Container, first: CollectorConfig, second: CollectorConfig)
    ensures var c1 := Initialize(c, first).container;
            Initialize(c1, second) == SetResult(c1, None)
  {
  }

  /** `Panicked`: a reached type has no entry. `NilExporter`: the loop ran to
      its end and the closing log line dereferenced the unset `Exporter`. */
  datatype UpdateResult = Updated(container: Container) | Panicked(latencyType: string) | NilExporter

  /** Types UpdateTargets reaches: the known ones before the first unknown. */
  function Reached(types: seq<string>): set<string> {
    KeySet(types[..FirstUnknown(types)])
  }

  /** UpdateTargets's loop: replaces the targets of each reached entry; a
      reached type with no entry is a nil type assertion, a panic. */
  function UpdateLoop(types: seq<string>, configs: map<string, CollectorConfig>, targets: seq<PingHost>)
    : (r: Result<map<string, CollectorConfig>, string>)
    ensures r.Ok? <==> Reached(types) <= configs.Keys
    ensures r.Err? ==> r.error in Reached(types) && r.error !in configs
    ensures r.Ok? ==> r.value.Keys == configs.Keys
    ensures r.Ok? ==> forall k :: k in configs ==>
              r.value[k] == if k in Reached(types) then configs[k].(targets := targets) else configs[k]
  {
    if |types| == 0 then Ok(configs)
    else if !IsKnownType(types[0]) then
      assert types[..0] == [];
      Ok(configs)
    else if types[0] !in configs then
      assert types[0] in Reached(types) by { assert types[..FirstUnknown(types)][0] == types[0]; }
      Err(types[0])
    else
      var l := types[0];
      ReachedCons(types);
      UpdateLoop(types[1..], configs[l := configs[l].(targets := targets)], targets)
  }

  lemma ReachedCons(types: seq<string>)
    requires |types| > 0 && IsKnownType(types[0])
    ensures Reached(types) == {types[0]} + Reached(types[1..])
  {
    KeySetCons(types, FirstUnknown(types[1..]));
  }

  /** `UpdateTargets`: only the `targets` field of the reached entries
      changes; it returns at the first unknown type, and panics on a reached
      type that has no entry. When the loop runs to its end (every listed
      type is known) the closing log line goes through the `Exporter`, and
      panics when that is not set. */
  function UpdateTargets(c: Container, targets: seq<PingHost>): (r: UpdateResult)
    ensures r.Panicked? <==> !(Reached(c.latencyTypes) <= c.configs.Keys)
    ensures r.Panicked? ==> r.latencyType in Reached(c.latencyTypes) && r.latencyType !in c.configs
    ensures r.NilExporter? <==>
              Reached(c.latencyTypes) <= c.configs.Keys && FirstUnknown(c.latencyTypes) == |c.latencyTypes| && !c.exporterSet
    ensures r.Updated? ==>
              (r.container.latencyTypes == c.latencyTypes
               && r.container.initialized == c.initialized
               && r.container.exporterSet == c.exporterSet
               && r.container.configs.Keys == c.configs.Keys)
    ensures r.Updated? ==> forall k :: k in c.configs ==>
              r.container.configs[k].(targets := c.configs[k].targets) == c.configs[k]
    ensures r.Updated? ==> forall k :: k in c.configs && k in Reached(c.latencyTypes) ==>
              r.container.configs[k].targets == targets
    ensures r.Updated? ==> forall k :: k in c.configs && k !in Reached(c.latencyTypes) ==>
              r.container.configs[k] == c.configs[k]
  {
    match UpdateLoop(c.latencyTypes, c.configs, targets)
    case Err(l) => Panicked(l)
    case Ok(m) =>
      var completed := FirstUnknown(c.latencyTypes) == |c.latencyTypes|;
      if completed && !c.exporterSet then NilExporter else Updated(c.(configs := m))
  }

  /** `GetConfig`: the entry stored under `Type.String(t)`, if any. */
  function GetConfig(c: Container, t: string): (r: Option<CollectorConfig>)
    ensures r.Some? ==> TypeString(t) in c.configs && r.value == c.configs[TypeString(t)]
    ensures WellKeyed(c) ==> (r.Some? <==> IsKnownType(t) && t in c.configs)
    ensures r.Some? && WellKeyed(c) ==> r.value == c.configs[t]
  {
    var key := TypeString(t);
    if key in c.configs then Some(c.configs[key]) else None
  }

  /** After a successful initialisation every listed type is configured
      with exactly the given parameters. Once the `Exporter` is set, a later
      target refresh updates all of them, and GetConfig then sees the new
      targets with every other field unchanged. */
  lemma {:induction false} InitializeThenUpdate(types: seq<string>, cfg: CollectorConfig, targets: seq<PingHost>, t: string)
    requires Initialize(NewConfigContainer(types), cfg).error.None?
    requires t in types
    ensures var c := Initialize(NewConfigContainer(types), cfg).container.(exporterSet := true);
            GetConfig(c, t) == Some(cfg)
            && UpdateTargets(c, targets).Updated?
            && GetConfig(UpdateTargets(c, targets).container, t) == Some(cfg.(targets := targets))
  {
    var c := Initialize(NewConfigContainer(types), cfg).container.(exporterSet := true);
    var n := FirstUnknown(types);
    assert n == |types|;
    assert types[..n] == types;
    var i :| 0 <= i < |types| && types[i] == t;
    assert t in KeySet(types);
    assert WellKeyed(c);
  }

  /** Before the `Exporter` is set, a target refresh of a successfully
      initialised container panics in its closing log line, after the loop
      has found every entry. */
  lemma {:induction false} UpdateBeforeExporterPanics(types: seq<string>, cfg: CollectorConfig, targets: seq<PingHost>)
    requires Initialize(NewConfigContainer(types), cfg).error.None?
    ensures UpdateTargets(Initialize(NewConfigContainer(types), cfg).container, targets) == NilExporter
  {
    var c := Initialize(NewConfigContainer(types), cfg).container;
    var n := FirstUnknown(types);
    assert n == |types|;
    assert types[..n] == types;
  }
}
