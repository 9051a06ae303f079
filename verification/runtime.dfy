/** The running process across scrapes: the configuration container, which
    the node watcher refreshes, and the configuration the node collector
    probes with, which the collector's `Initialize` stores in a package-level
    variable. */
module Runtime {
  import opened Wrappers
  import opened Metrics
  import opened Config
  import opened Exporter
  import opened Utils
  import Discover
  import NodeCollector

  /** `nodeConfig` is `None` when the node collector was never initialised. */
  datatype Process = Process(container: Container, nodeConfig: Option<CollectorConfig>)

  /** The collector probes what the container currently holds for its type. */
  predicate Consistent(p: Process) {
    p.nodeConfig == GetConfig(p.container, NodeType)
  }

  /** Start-up: the enabled node collector is initialised once with the
      container's configuration for its type, and then the exporter is
      attached to the container. */
  function Start(c: Container): (p: Process)
    ensures p.container.exporterSet
    ensures p.container.(exporterSet := c.exporterSet) == c
    ensures Consistent(p)
  {
    Process(c.(exporterSet := true), GetConfig(c, NodeType))
  }

  /** The watcher starts after the exporter is attached, so a refresh of a
      started process never reaches the unset `Exporter`. */
  lemma StartedRefreshHasExporter(c: Container, targets: seq<PingHost>)
    ensures UpdateTargets(Start(c).container, targets) != NilExporter
  {
  }

  /** A target refresh as the node watcher performs it: the new targets go
      into the container only, and the collector keeps the copy it took at
      start-up. A panic in UpdateTargets ends the process (`Err`). */
  function RefreshAsWritten(p: Process, targets: seq<PingHost>): (r: Result<Process, string>)
    ensures r.Ok? <==> UpdateTargets(p.container, targets).Updated?
    ensures r.Ok? ==> r.value.container == UpdateTargets(p.container, targets).container
    ensures r.Ok? ==> r.value.nodeConfig == p.nodeConfig
  {
    match UpdateTargets(p.container, targets)
    case Updated(c) => Ok(p.(container := c))
    case Panicked(l) => Err(l)
    case NilExporter => Err("nil pointer dereference")
  }

  /** The node collector's refreshed entry: its configuration with only the
      targets replaced. */
  lemma RefreshedEntry(p: Process, targets: seq<PingHost>)
    requires Consistent(p) && p.nodeConfig.Some?
    requires NodeType in Reached(p.container.latencyTypes)
    requires UpdateTargets(p.container, targets).Updated?
    ensures GetConfig(UpdateTargets(p.container, targets).container, NodeType)
            == Some(p.nodeConfig.value.(targets := targets))
  {
    var c := UpdateTargets(p.container, targets).container;
    assert TypeString(NodeType) == NodeType;
    assert NodeType in p.container.configs;
    var old_, new_ := p.container.configs[NodeType], c.configs[NodeType];
    assert new_.(targets := old_.targets) == old_;
  }

  /** After a refresh with different targets the collector still probes its
      start-up targets, while the container holds the new ones: the two no
      longer agree. */
  lemma StaleTargets(p: Process, targets: seq<PingHost>)
    requires Consistent(p) && p.nodeConfig.Some?
    requires NodeType in Reached(p.container.latencyTypes)
    requires RefreshAsWritten(p, targets).Ok?
    requires targets != p.nodeConfig.value.targets
    ensures var q := RefreshAsWritten(p, targets).value;
            q.nodeConfig.value.targets == p.nodeConfig.value.targets
            && GetConfig(q.container, NodeType).value.targets == targets
            && !Consistent(q)
  {
    RefreshedEntry(p, targets);
  }

  /** A target refresh that reaches the collector: after the container is
      updated, the collector takes the container's configuration again. */
  function Refresh(p: Process, targets: seq<PingHost>): (r: Result<Process, string>)
    ensures r.Ok? <==> UpdateTargets(p.container, targets).Updated?
    ensures r.Ok? ==> r.value.container == UpdateTargets(p.container, targets).container
    ensures r.Ok? ==> Consistent(r.value)
  {
    match UpdateTargets(p.container, targets)
    case Updated(c) => Ok(Process(c, GetConfig(c, NodeType)))
    case Panicked(l) => Err(l)
    case NilExporter => Err("nil pointer dereference")
  }

  /** After a refresh the collector probes the new targets, with every other
      parameter as before. */
  lemma RefreshReachesProbes(p: Process, targets: seq<PingHost>)
    requires Consistent(p) && p.nodeConfig.Some?
    requires NodeType in Reached(p.container.latencyTypes)
    requires Refresh(p, targets).Ok?
    ensures Refresh(p, targets).value.nodeConfig == Some(p.nodeConfig.value.(targets := targets))
  {
    RefreshedEntry(p, targets);
  }

  /** The kinds of watch event the node watcher can receive. */
  datatype EventType = Added | Modified | Deleted | Bookmark | WatchError

  /** A watch event; `objectIsNode` says whether its object is a node (an
      error event carries a status object instead). */
  datatype WatchEvent = WatchEvent(kind: EventType, objectIsNode: bool)

  /** What the watcher takes from one event: it first reads the node's name
      through a type assertion, which panics (`Err`) when the object is not
      a node. For an added, modified or deleted node it then runs discovery
      and, when discovery yields a list, validates it into the new targets;
      every other case yields no targets. */
  function EventTargets(ev: WatchEvent, env: map<string, string>, listing: Option<seq<Discover.Node>>, isIP: string -> bool)
    : (r: Result<Option<seq<PingHost>>, string>)
    ensures r.Err? <==> !ev.objectIsNode
    ensures r.Ok? && r.value.Some? <==>
              ev.objectIsNode && ev.kind in {Added, Modified, Deleted} && Discover.Discover(env, listing).Some?
    ensures r.Ok? && r.value.Some? ==> r.value.value == ValidateTargets(Discover.Discover(env, listing).value, isIP)
  {
    if !ev.objectIsNode then Err("interface conversion: the event object is not a node")
    else if ev.kind !in {Added, Modified, Deleted} then Ok(None)
    else
      var found := Discover.Discover(env, listing);
      if found.None? then Ok(None) else Ok(Some(ValidateTargets(found.value, isIP)))
  }

  /** The node watcher's handling of one event, as the source does it: new
      targets reach the container only, so the collector's configuration
      never changes. */
  function OnNodeEvent(p: Process, ev: WatchEvent, env: map<string, string>, listing: Option<seq<Discover.Node>>,
                       isIP: string -> bool)
    : (r: Result<Process, string>)
    ensures !ev.objectIsNode ==> r.Err?
    ensures EventTargets(ev, env, listing, isIP) == Ok(None) ==> r == Ok(p)
    ensures r.Ok? ==> r.value.nodeConfig == p.nodeConfig
    ensures EventTargets(ev, env, listing, isIP).Ok? && EventTargets(ev, env, listing, isIP).value.Some? ==>
              var u := UpdateTargets(p.container, EventTargets(ev, env, listing, isIP).value.value);
              (r.Ok? <==> u.Updated?) && (r.Ok? ==> r.value.container == u.container)
  {
    match EventTargets(ev, env, listing, isIP)
    case Err(e) => Err(e)
    case Ok(None) => Ok(p)
    case Ok(Some(targets)) => RefreshAsWritten(p, targets)
  }

  /** The corrected handling of one event: the same container update, after
      which the collector again holds the container's configuration. */
  function OnNodeEventCorrected(p: Process, ev: WatchEvent, env: map<string, string>, listing: Option<seq<Discover.Node>>,
                                isIP: string -> bool)
    : (r: Result<Process, string>)
    ensures !ev.objectIsNode ==> r.Err?
    ensures EventTargets(ev, env, listing, isIP) == Ok(None) ==> r == Ok(p)
    ensures Consistent(p) && r.Ok? ==> Consistent(r.value)
    ensures EventTargets(ev, env, listing, isIP).Ok? && EventTargets(ev, env, listing, isIP).value.Some? ==>
              var u := UpdateTargets(p.container, EventTargets(ev, env, listing, isIP).value.value);
              (r.Ok? <==> u.Updated?) && (r.Ok? ==> r.value.container == u.container)
  {
    match EventTargets(ev, env, listing, isIP)
    case Err(e) => Err(e)
    case Ok(None) => Ok(p)
    case Ok(Some(targets)) => Refresh(p, targets)
  }

  /** One scrape of the node collector, with whatever configuration it
      holds; `None` when there is no node collector. */
  function ScrapeNode(p: Process, env: map<string, string>, run: NodeCollector.Invocation -> NodeCollector.MtrRun)
    : (r: Option<Result<seq<Sample>, NodeCollector.ScrapeError>>)
    ensures r.Some? <==> p.nodeConfig.Some?
    ensures r.Some? && r.value.Ok? ==>
              |r.value.value| == 8 * (|p.nodeConfig.value.targets| * |p.nodeConfig.value.checkTargets|)
  {
    match p.nodeConfig
    case None => None
    case Some(cfg) => Some(NodeCollector.Scrape(cfg, env, run))
  }

  /** As the source does it, a node event never changes what the next
      scrape probes: the scrape after the event is the scrape before it. */
  lemma EventThenScrape(p: Process, ev: WatchEvent, env: map<string, string>, listing: Option<seq<Discover.Node>>,
                        isIP: string -> bool, run: NodeCollector.Invocation -> NodeCollector.MtrRun)
    requires OnNodeEvent(p, ev, env, listing, isIP).Ok?
    ensures ScrapeNode(OnNodeEvent(p, ev, env, listing, isIP).value, env, run) == ScrapeNode(p, env, run)
  {
  }

  /** With the corrected handling, a node event that discovers targets
      changes what the next scrape probes: a successful scrape yields eight
      samples per new target and check target. */
  lemma EventThenScrapeCorrected(p: Process, ev: WatchEvent, env: map<string, string>, listing: Option<seq<Discover.Node>>,
                                 isIP: string -> bool, run: NodeCollector.Invocation -> NodeCollector.MtrRun)
    requires Consistent(p) && p.nodeConfig.Some?
    requires NodeType in Reached(p.container.latencyTypes)
    requires EventTargets(ev, env, listing, isIP).Ok? && EventTargets(ev, env, listing, isIP).value.Some?
    requires OnNodeEventCorrected(p, ev, env, listing, isIP).Ok?
    ensures var targets := EventTargets(ev, env, listing, isIP).value.value;
            var s := ScrapeNode(OnNodeEventCorrected(p, ev, env, listing, isIP).value, env, run);
            s.Some? && (s.value.Ok? ==> |s.value.value| == 8 * (|targets| * |p.nodeConfig.value.checkTargets|))
  {
    RefreshReachesProbes(p, EventTargets(ev, env, listing, isIP).value.value);
  }
}
