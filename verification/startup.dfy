/** The start-up rules of `cmd/main.go`: parsing the `CHECK_TARGET`
    protocol list into check targets, and choosing the enabled collectors. */
module Startup {
  import opened Wrappers
  import opened GoStrings
  import opened Metrics
  import opened Exporter
  import opened Config
  import NodeCollector

  predicate KnownProtocol(p: string) {
    p in NodeCollector.ProtocolToMtrFlag
  }

  /** The protocol names are plain upper-case words. */
  lemma KnownProtocolShape(p: string)
    requires KnownProtocol(p)
    ensures ':' !in p && ',' !in p && |p| > 0 && !IsSpace(p[0]) && !IsSpace(p[|p| - 1])
  {
  }

  /** One comma field `PROTO[:port]`: the protocol must be a key of the flag
      map (case-sensitive); the port is the second `:` field when there are
      exactly two, and "1" otherwise. */
  function ParseEntry(p: string): (r: Option<CheckTarget>)
    ensures r.Some? ==> KnownProtocol(r.value.protocol)
                        && r.value.mtrKey == NodeCollector.ProtocolToMtrFlag[r.value.protocol]
  {
    var fields := Split(p, ':');
    if KnownProtocol(fields[0]) then
      Some(CheckTarget(fields[0], if |fields| == 2 then fields[1] else "1", NodeCollector.ProtocolToMtrFlag[fields[0]]))
    else None
  }

  /** The accepted entries, in input order; unknown ones are skipped. */
  function ParseEntries(entries: seq<string>): (r: seq<CheckTarget>)
    ensures |r| <= |entries|
    ensures forall k :: 0 <= k < |r| ==>
              r[k].protocol in {"UDP", "ICMP", "TCP"}
              && r[k].mtrKey == NodeCollector.ProtocolToMtrFlag[r[k].protocol]
  {
    if |entries| == 0 then []
    else
      match ParseEntry(entries[0])
      case Some(ct) => [ct] + ParseEntries(entries[1..])
      case None => ParseEntries(entries[1..])
  }

  /** A one-entry list holds that entry's target, if it has one. */
  lemma ParseEntriesOne(e: string)
    ensures ParseEntries([e]) == if ParseEntry(e).Some? then [ParseEntry(e).value] else []
  {
    assert [e][1..] == [];
  }

  /** Parsing distributes over concatenation: accepted entries keep their order. */
  lemma {:induction false} ParseEntriesConcat(a: seq<string>, b: seq<string>)
    ensures ParseEntries(a + b) == ParseEntries(a) + ParseEntries(b)
  {
    if |a| > 0 {
      var head := if ParseEntry(a[0]).Some? then [ParseEntry(a[0]).value] else [];
      assert (a + b)[0] == a[0];
      assert (a + b)[1..] == a[1..] + b;
      assert ParseEntries(a + b) == head + ParseEntries(a[1..] + b);
      assert ParseEntries(a) == head + ParseEntries(a[1..]);
      ParseEntriesConcat(a[1..], b);
    } else {
      assert a + b == b;
    }
  }

  /** The `CHECK_TARGET` list: the whole string is trimmed, then split on
      commas; each field is parsed on its own. */
  function ParseCheckTargets(protocolsStr: string): (r: seq<CheckTarget>)
    ensures |r| <= |Split(TrimSpace(protocolsStr), ',')|
    ensures forall k :: 0 <= k < |r| ==>
              r[k].protocol in {"UDP", "ICMP", "TCP"}
              && r[k].mtrKey == NodeCollector.ProtocolToMtrFlag[r[k].protocol]
  {
    ParseEntries(Split(TrimSpace(protocolsStr), ','))
  }

  /** The general rule for one entry, stated over its `:` fields: the first
      field must be a known protocol; the port is the second field when there
      are exactly two, and "1" for one field or three and more. */
  lemma ParseEntryFields(fields: seq<string>)
    requires |fields| >= 1
    requires forall i :: 0 <= i < |fields| ==> ':' !in fields[i]
    ensures ParseEntry(Join(fields, ':'))
            == if KnownProtocol(fields[0])
               then Some(CheckTarget(fields[0], if |fields| == 2 then fields[1] else "1",
                                     NodeCollector.ProtocolToMtrFlag[fields[0]]))
               else None
  {
    SplitJoin(fields, ':');
  }

  /** The general rule for the whole list: white space around it is
      ignored, and each comma-separated entry is parsed in order. White space
      inside the list stays part of its entries. */
  lemma ParseListFields(lead: string, entries: seq<string>, trail: string)
    requires AllSpace(lead) && AllSpace(trail)
    requires |entries| >= 1
    requires forall i :: 0 <= i < |entries| ==> ',' !in entries[i]
    requires var j := Join(entries, ','); j == [] || (!IsSpace(j[0]) && !IsSpace(j[|j| - 1]))
    ensures ParseCheckTargets(lead + Join(entries, ',') + trail) == ParseEntries(entries)
  {
    TrimSpaceEnds(lead, Join(entries, ','), trail);
    SplitJoin(entries, ',');
  }

  /** Every accepted protocol is an upper-case ASCII word, so the collector's
      `strings.ToUpper` of it is the protocol itself. */
  lemma ParsedProtocolsUpper(protocolsStr: string, k: nat)
    requires k < |ParseCheckTargets(protocolsStr)|
    ensures ToUpper(ParseCheckTargets(protocolsStr)[k].protocol) == ParseCheckTargets(protocolsStr)[k].protocol
  {
    var r := ParseCheckTargets(protocolsStr);
    KnownNamesUpper(r[k].protocol);
  }

  lemma KnownNamesUpper(p: string)
    requires p in {"UDP", "ICMP", "TCP"}
    ensures ToUpper(p) == p
  {
    if p == "UDP" {
      assert HasNoLower("UDP");
    } else if p == "ICMP" {
      assert HasNoLower("ICMP");
    } else {
      assert HasNoLower("TCP");
    }
    ToUpperFixpoint(p);
  }

  /** Splitting text that was joined from separator-free fields returns
      those fields. */
  lemma SplitTwo(x: string, y: string, sep: char)
    requires sep !in x && sep !in y
    ensures Split(x + [sep] + y, sep) == [x, y]
  {
    assert Join([x, y], sep) == x + [sep] + y by {
      assert [x, y][1..] == [y];
    }
    SplitJoin([x, y], sep);
  }

  lemma SplitThree(x: string, y: string, z: string, sep: char)
    requires sep !in x && sep !in y && sep !in z
    ensures Split(x + [sep] + y + [sep] + z, sep) == [x, y, z]
  {
    assert Join([y, z], sep) == y + [sep] + z by {
      assert [y, z][1..] == [z];
    }
    assert Join([x, y, z], sep) == x + [sep] + (y + [sep] + z) by {
      assert [x, y, z][1..] == [y, z];
    }
    assert x + [sep] + (y + [sep] + z) == x + [sep] + y + [sep] + z;
    SplitJoin([x, y, z], sep);
  }

  /** A bare protocol gets port "1"; an unknown or differently cased name
      is skipped. */
  lemma ParseEntryBare(proto: string)
    requires ':' !in proto
    ensures ParseEntry(proto) ==
              if KnownProtocol(proto) then Some(CheckTarget(proto, "1", NodeCollector.ProtocolToMtrFlag[proto])) else None
  {
    SplitNoSep(proto, ':');
  }

  /** `PROTO:port` gets that port. */
  lemma ParseEntryWithPort(proto: string, port: string)
    requires ':' !in proto && ':' !in port
    ensures ParseEntry(proto + ":" + port) ==
              if KnownProtocol(proto) then Some(CheckTarget(proto, port, NodeCollector.ProtocolToMtrFlag[proto])) else None
  {
    SplitTwo(proto, port, ':');
  }

  /** With three `:` fields the port falls back to "1". */
  lemma ParseEntryExtraField(proto: string, port: string, extra: string)
    requires ':' !in proto && ':' !in port && ':' !in extra
    ensures ParseEntry(proto + ":" + port + ":" + extra) ==
              if KnownProtocol(proto) then Some(CheckTarget(proto, "1", NodeCollector.ProtocolToMtrFlag[proto])) else None
  {
    SplitThree(proto, port, extra, ':');
  }

  /** A list holding a single separator-free name that needs no trimming
      yields that protocol with port "1" when the name is known, and
      nothing otherwise. */
  lemma ParseSingleName(name: string)
    requires ':' !in name && ',' !in name
    requires name == [] || (!IsSpace(name[0]) && !IsSpace(name[|name| - 1]))
    ensures ParseCheckTargets(name) ==
              if KnownProtocol(name) then [CheckTarget(name, "1", NodeCollector.ProtocolToMtrFlag[name])] else []
  {
    assert TrimSpace(name) == name;
    SplitNoSep(name, ',');
    ParseEntriesOne(name);
    ParseEntryBare(name);
  }

  /** The empty list yields no check targets. */
  lemma ParseEmpty()
    ensures ParseCheckTargets("") == []
  {
    var name: string := [];
    assert !KnownProtocol(name);
    ParseSingleName(name);
  }

  /** Names are case-sensitive: "tcp" yields no check target. */
  lemma ParseLowerCase()
    ensures ParseCheckTargets("tcp") == []
  {
    var name := "tcp";
    assert !KnownProtocol(name);
    ParseSingleName(name);
  }

  /** A two-field list is parsed field by field. */
  lemma ParseTwoFields(x: string, y: string, s: string)
    requires ',' !in x && ',' !in y
    requires x != [] && y != [] && !IsSpace(x[0]) && !IsSpace(y[|y| - 1])
    requires s == x + [','] + y
    ensures ParseCheckTargets(s) == ParseEntries([x]) + ParseEntries([y])
  {
    assert s[0] == x[0] && s[|s| - 1] == y[|y| - 1];
    assert TrimSpace(s) == s;
    SplitTwo(x, y, ',');
    ParseEntriesConcat([x], [y]);
    assert [x] + [y] == [x, y];
  }

  /** A field that starts with a space names no protocol, whatever follows. */
  lemma ParseEntryLeadingSpace(p: string)
    requires |p| > 0 && IsSpace(p[0])
    ensures ParseEntry(p).None?
  {
    var f := Split(p, ':')[0];
    if |f| > 0 {
      assert f[0] == p[0];
    }
  }

  /** Two known protocols, the first with a port: both are kept, in order,
      the second with the default port. */
  lemma ParseKnownPair(p1: string, port: string, p2: string, s: string)
    requires KnownProtocol(p1) && KnownProtocol(p2)
    requires ':' !in port && ',' !in port
    requires s == p1 + ":" + port + "," + p2
    ensures ParseCheckTargets(s) == [CheckTarget(p1, port, NodeCollector.ProtocolToMtrFlag[p1]),
                                     CheckTarget(p2, "1", NodeCollector.ProtocolToMtrFlag[p2])]
  {
    var x := p1 + ":" + port;
    assert ParseEntries([x]) == [CheckTarget(p1, port, NodeCollector.ProtocolToMtrFlag[p1])] by {
      KnownProtocolShape(p1);
      ParseEntriesOne(x);
      ParseEntryWithPort(p1, port);
    }
    assert ParseEntries([p2]) == [CheckTarget(p2, "1", NodeCollector.ProtocolToMtrFlag[p2])] by {
      KnownProtocolShape(p2);
      ParseEntriesOne(p2);
      ParseEntryBare(p2);
    }
    assert ',' !in x && x != [] && !IsSpace(x[0]) && ',' !in p2 && p2 != [] && !IsSpace(p2[|p2| - 1]) by {
      KnownProtocolShape(p1);
      KnownProtocolShape(p2);
      assert x[0] == p1[0];
    }
    ParseTwoFields(x, p2, s);
  }

  /** Only the ends of the whole list are trimmed: a field after the comma
      that begins with a space is skipped. */
  lemma ParseKnownThenSpaced(p1: string, rest: string, s: string)
    requires KnownProtocol(p1)
    requires |rest| > 0 && IsSpace(rest[0]) && !IsSpace(rest[|rest| - 1]) && ',' !in rest
    requires s == p1 + "," + rest
    ensures ParseCheckTargets(s) == [CheckTarget(p1, "1", NodeCollector.ProtocolToMtrFlag[p1])]
  {
    KnownProtocolShape(p1);
    assert ParseEntries([p1]) == [CheckTarget(p1, "1", NodeCollector.ProtocolToMtrFlag[p1])] by {
      ParseEntriesOne(p1);
      ParseEntryBare(p1);
    }
    assert ParseEntries([rest]) == [] by {
      ParseEntriesOne(rest);
      ParseEntryLeadingSpace(rest);
    }
    ParseTwoFields(p1, rest, s);
  }

  /** "ICMP, TCP:80" keeps only ICMP, with port "1". */
  lemma ParseExampleSpaced()
    ensures ParseCheckTargets("ICMP, TCP:80") == [CheckTarget("ICMP", "1", "")]
  {
    ParseKnownThenSpaced("ICMP", " TCP:80", "ICMP, TCP:80");
  }

  /** "UDP:53,TCP" keeps both entries, in order. */
  lemma ParseExamplePair()
    ensures ParseCheckTargets("UDP:53,TCP") == [CheckTarget("UDP", "53", "--udp"), CheckTarget("TCP", "1", "--tcp")]
  {
    var udp, tcp, port := "UDP", "TCP", "53";
    assert KnownProtocol(udp) && KnownProtocol(tcp);
    assert NodeCollector.ProtocolToMtrFlag[udp] == "--udp" && NodeCollector.ProtocolToMtrFlag[tcp] == "--tcp";
    assert ':' !in port && ',' !in port;
    assert "UDP:53,TCP" == udp + ":" + port + "," + tcp;
    ParseKnownPair(udp, port, tcp, "UDP:53,TCP");
  }

  /** The enabled-collector filter: a registered collector whose state is
      true and for whose `AsType(name)` the container holds a config. */
  function EnabledCollectors(states: map<string, bool>, c: Container): set<string> {
    set n | n in states && states[n] && AsType(n) in c.configs
  }

  /** In a container keyed by known types, a collector is enabled exactly
      when it is registered as enabled and configured under its own name;
      an upper-case registration never is. */
  lemma EnabledIff(states: map<string, bool>, c: Container, n: string)
    requires WellKeyed(c)
    ensures n in EnabledCollectors(states, c) <==> n in states && states[n] && n in c.configs
    ensures !IsKnownType(n) ==> n !in EnabledCollectors(states, c)
  {
    if AsType(n) in c.configs {
      assert IsKnownType(AsType(n));
    }
  }

  /** The collector registry of this exporter: only the node collector, enabled by default. */
  const RegisteredStates: map<string, bool> := map[NodeType := true]

  /** With the default `LATENCY_TYPES` ("node_collector") the node collector
      is enabled; with "pod_collector" alone nothing is, since no pod
      collector is registered. */
  lemma EnabledByLatencyTypes(cfg: CollectorConfig)
    ensures EnabledCollectors(RegisteredStates, Initialize(NewConfigContainer([NodeType]), cfg).container) == {NodeType}
    ensures EnabledCollectors(RegisteredStates, Initialize(NewConfigContainer([PodType]), cfg).container) == {}
  {
    var c1 := Initialize(NewConfigContainer([NodeType]), cfg).container;
    assert [NodeType][..1] == [NodeType];
    assert FirstUnknown([NodeType]) == 1;
    assert KeySet([NodeType]) == {NodeType};
    EnabledIff(RegisteredStates, c1, NodeType);
    var c2 := Initialize(NewConfigContainer([PodType]), cfg).container;
    assert FirstUnknown([PodType]) == 1;
    assert [PodType][..1] == [PodType];
    assert KeySet([PodType]) == {PodType};
    EnabledIff(RegisteredStates, c2, NodeType);
  }
}
