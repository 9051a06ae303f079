/** `pkg/collector/discover.go`: turning the cluster's node list into ping
    targets, and `GetByIpAddress` from the package's test file. Listing the
    nodes is I/O: its outcome is the argument `listing`, `None` when the
    client or the list call failed. */
module Discover {
  import opened Wrappers
  import opened Metrics
  import opened Utils

  const NodeInternalIP: string := "InternalIP"
  const NodeHostName: string := "Hostname"

  /** One entry of a node's `status.addresses`. */
  datatype NodeAddress = NodeAddress(kind: string, address: string)

  datatype Node = Node(addresses: seq<NodeAddress>)

  /** The address of the last entry of the given kind, or "" if there is none. */
  function LastOfKind(addrs: seq<NodeAddress>, kind: string): (r: string)
    ensures r != "" ==> exists i :: 0 <= i < |addrs| && addrs[i].kind == kind && addrs[i].address == r
  {
    if |addrs| == 0 then ""
    else if addrs[|addrs| - 1].kind == kind then addrs[|addrs| - 1].address
    else LastOfKind(addrs[..|addrs| - 1], kind)
  }

  /** The (address, name) pair a node's address loop ends with: each
      matching entry overwrites the value kept so far. */
  function ScanAddresses(addrs: seq<NodeAddress>, address: string, name: string): (string, string)
  {
    if |addrs| == 0 then (address, name)
    else
      var a := addrs[0];
      var address' := if a.kind == NodeInternalIP then a.address else address;
      var name' := if a.kind == NodeHostName then a.address else name;
      ScanAddresses(addrs[1..], address', name')
  }

  /** The scan ends with the last InternalIP and the last Hostname entry. */
  lemma {:induction false} ScanIsLast(addrs: seq<NodeAddress>)
    ensures ScanAddresses(addrs, "", "") == (LastOfKind(addrs, NodeInternalIP), LastOfKind(addrs, NodeHostName))
  {
    ScanFromAny(addrs, "", "");
  }

  lemma {:induction false} ScanFromAny(addrs: seq<NodeAddress>, address: string, name: string)
    ensures ScanAddresses(addrs, address, name).0
         == (if LastOfKind(addrs, NodeInternalIP) == "" && !HasKind(addrs, NodeInternalIP) then address
             else LastOfKind(addrs, NodeInternalIP))
    ensures ScanAddresses(addrs, address, name).1
         == (if LastOfKind(addrs, NodeHostName) == "" && !HasKind(addrs, NodeHostName) then name
             else LastOfKind(addrs, NodeHostName))
    decreases |addrs|
  {
    if |addrs| > 0 {
      var last := addrs[|addrs| - 1];
      var init := addrs[..|addrs| - 1];
      ScanSnoc(init, last, address, name);
      ScanFromAny(init, address, name);
      assert init + [last] == addrs;
      HasKindSnoc(init, last, NodeInternalIP);
      HasKindSnoc(init, last, NodeHostName);
    }
  }

  predicate HasKind(addrs: seq<NodeAddress>, kind: string) {
    exists i :: 0 <= i < |addrs| && addrs[i].kind == kind
  }

  lemma HasKindSnoc(init: seq<NodeAddress>, last: NodeAddress, kind: string)
    ensures HasKind(init + [last], kind) <==> HasKind(init, kind) || last.kind == kind
  {
    var s := init + [last];
    if HasKind(init, kind) {
      var i :| 0 <= i < |init| && init[i].kind == kind;
      assert s[i] == init[i];
    }
    if last.kind == kind {
      assert s[|init|] == last;
    }
  }

  /** Scanning one more entry applies one more step of the loop. */
  lemma {:induction false} ScanSnoc(init: seq<NodeAddress>, a: NodeAddress, address: string, name: string)
    ensures ScanAddresses(init + [a], address, name)
         == var p := ScanAddresses(init, address, name);
            ScanAddresses([a], p.0, p.1)
    decreases |init|
  {
    if |init| > 0 {
      var b := init[0];
      assert (init + [a])[1..] == init[1..] + [a];
      ScanSnoc(init[1..], a,
        if b.kind == NodeInternalIP then b.address else address,
        if b.kind == NodeHostName then b.address else name);
    } else {
      assert init + [a] == [a];
    }
  }

  /** The target a node contributes: none when it has no InternalIP
      address or when its host name is the exporter's own node name. */
  function NodeTarget(n: Node, selfName: string): (r: Option<PingHost>)
    ensures r.Some? ==> r.value.ipAddress != "" && r.value.name != selfName
    ensures r.Some? <==> LastOfKind(n.addresses, NodeInternalIP) != "" && LastOfKind(n.addresses, NodeHostName) != selfName
    ensures r.Some? ==> r.value == PingHost(LastOfKind(n.addresses, NodeInternalIP), LastOfKind(n.addresses, NodeHostName))
  {
    var p := ScanAddresses(n.addresses, "", "");
    ScanIsLast(n.addresses);
    if p.0 != "" && p.1 != selfName then Some(PingHost(p.0, p.1)) else None
  }

  /** Targets of a node list, at most one per node, in node-list order. */
  function DiscoverNodes(nodes: seq<Node>, selfName: string): (r: seq<PingHost>)
    ensures |r| <= |nodes|
    ensures forall i :: 0 <= i < |r| ==> r[i].ipAddress != "" && r[i].name != selfName
    ensures forall i :: 0 <= i < |nodes| && NodeTarget(nodes[i], selfName).Some? ==>
              NodeTarget(nodes[i], selfName).value in r
  {
    if |nodes| == 0 then []
    else
      var rest := DiscoverNodes(nodes[1..], selfName);
      assert forall i :: 1 <= i < |nodes| ==> nodes[1..][i - 1] == nodes[i];
      match NodeTarget(nodes[0], selfName)
      case Some(t) => [t] + rest
      case None => rest
  }

  /** The node list of `a + b` discovers `a`'s targets followed by `b`'s. */
  lemma {:induction false} DiscoverConcat(a: seq<Node>, b: seq<Node>, selfName: string)
    ensures DiscoverNodes(a + b, selfName) == DiscoverNodes(a, selfName) + DiscoverNodes(b, selfName)
  {
    if |a| > 0 {
      assert (a + b)[1..] == a[1..] + b;
      DiscoverConcat(a[1..], b, selfName);
    } else {
      assert a + b == b;
    }
  }

  /** A single node yields its target exactly when it qualifies. */
  lemma DiscoverOne(n: Node, selfName: string)
    ensures DiscoverNodes([n], selfName)
            == (if NodeTarget(n, selfName).Some? then [NodeTarget(n, selfName).value] else [])
  {
    assert [n][1..] == [];
  }

  /** Every target in the result is the target of some listed node. */
  lemma {:induction false} DiscoverSound(nodes: seq<Node>, selfName: string, t: PingHost)
    requires t in DiscoverNodes(nodes, selfName)
    ensures exists i :: 0 <= i < |nodes| && NodeTarget(nodes[i], selfName) == Some(t)
  {
    var rest := DiscoverNodes(nodes[1..], selfName);
    if NodeTarget(nodes[0], selfName) != Some(t) {
      assert t in rest;
      DiscoverSound(nodes[1..], selfName, t);
      var j :| 0 <= j < |nodes[1..]| && NodeTarget(nodes[1..][j], selfName) == Some(t);
      assert nodes[1..][j] == nodes[j + 1];
    }
  }

  /** The exporter's own node name, `NODE_NAME` with default "localhost". */
  function SelfName(env: map<string, string>): string {
    GetEnvWithDefaultValue(env, "NODE_NAME", "localhost")
  }

  /** Discovery runs only when `DISCOVER_ENABLE` (default "true") is exactly "true". */
  predicate DiscoveryEnabled(env: map<string, string>) {
    GetEnvWithDefaultValue(env, "DISCOVER_ENABLE", "true") == "true"
  }

  /** `Discover`: `None` (Go's nil) when discovery is disabled or the node
      listing failed, otherwise the targets of the listed nodes. */
  function Discover(env: map<string, string>, listing: Option<seq<Node>>): (r: Option<seq<PingHost>>)
    ensures r.Some? <==> DiscoveryEnabled(env) && listing.Some?
    ensures r.Some? ==> r.value == DiscoverNodes(listing.value, SelfName(env))
    ensures r.Some? ==> |r.value| <= |listing.value|
    ensures r.Some? ==> forall i :: 0 <= i < |r.value| ==> r.value[i].ipAddress != "" && r.value[i].name != SelfName(env)
  {
    if DiscoveryEnabled(env) then
      match listing
      case None => None
      case Some(nodes) => Some(DiscoverNodes(nodes, SelfName(env)))
    else None
  }

  /** Index of the first target with address `addr`, or `|targets|`. */
  function FirstWithAddress(targets: seq<PingHost>, addr: string): (k: nat)
    ensures k <= |targets|
    ensures k < |targets| ==> targets[k].ipAddress == addr
    ensures forall j :: 0 <= j < k ==> targets[j].ipAddress != addr
  {
    if |targets| == 0 then 0
    else if targets[0].ipAddress == addr then 0
    else 1 + FirstWithAddress(targets[1..], addr)
  }

  /** The first target whose address equals `addr`, or `None`. */
  function GetByIpAddress(targets: seq<PingHost>, addr: string): (r: Option<PingHost>)
    ensures r.None? <==> forall i :: 0 <= i < |targets| ==> targets[i].ipAddress != addr
    ensures r.Some? ==> r.value.ipAddress == addr
    ensures r.Some? ==> exists i :: 0 <= i < |targets| && targets[i] == r.value
                                   && forall j :: 0 <= j < i ==> targets[j].ipAddress != addr
  {
    var k := FirstWithAddress(targets, addr);
    if k < |targets| then Some(targets[k]) else None
  }

  /** The package test's target list: two valid entries sharing an
      address, one without an address, one with a truncated address. */
  const Fixture: seq<PingHost> := [
    PingHost("1.2.3.4", "node1"),
    PingHost("1.2.3.4", ""),
    PingHost("", ""),
    PingHost("1.2", "node2")]

  /** Validating the fixture keeps exactly the two "1.2.3.4" entries, in order. */
  lemma ValidateFixture(isIP: string -> bool)
    requires isIP("1.2.3.4") && !isIP("1.2")
    ensures ValidateTargets(Fixture, isIP) == [PingHost("1.2.3.4", "node1"), PingHost("1.2.3.4", "")]
  {
    var a, b, c, d := Fixture[0], Fixture[1], Fixture[2], Fixture[3];
    assert Fixture == [a, b] + [c, d];
    assert [a, b] == [a] + [b];
    assert [c, d] == [c] + [d];
    ValidateConcat([a, b], [c, d], isIP);
    ValidateConcat([a], [b], isIP);
    ValidateConcat([c], [d], isIP);
    ValidateOne(a, isIP);
    ValidateOne(b, isIP);
    ValidateOne(c, isIP);
    ValidateOne(d, isIP);
  }

  /** Looking up the fixture finds node1 before its nameless duplicate,
      and finds nothing for an absent address. */
  lemma GetByIpAddressFixture()
    ensures GetByIpAddress(Fixture, "1.2.3.4") == Some(PingHost("1.2.3.4", "node1"))
    ensures GetByIpAddress(Fixture, "1.2.3.9") == None
  {
    assert Fixture[0].ipAddress != "1.2.3.9";
    assert Fixture[1].ipAddress != "1.2.3.9";
    assert Fixture[3].ipAddress != "1.2.3.9";
  }
}
