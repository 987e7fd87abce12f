/**
 Firewall rules of an edge node, compiled to ufw commands on mutable operating systems and to iptables
 commands on immutable ones. Commands are kept as their arguments instead of as text.
 */
module Firewall {
  import opened Wrappers
  import opened Strings

  datatype Rule = Rule(sourceIP: string, ports: string, ipVer: string, protocol: string)

  /** What a command names as source: an address, or a lookup of a name when the command runs. */
  datatype Address = Literal(ip: string) | Lookup(name: string)

  /** One iptables -A INPUT ... -j ACCEPT. */
  datatype Append = Append(protocol: string, source: Option<Address>, dport: Option<string>)

  /** One line of the generated script; an iptables line may hold two commands. */
  datatype Command =
    | UfwAllow(source: Option<Address>, ports: Option<string>, protocol: Option<string>)
    | Iptables(appends: seq<Append>)

  // ---------------------------------------------------------------------------------------------
  // What commands accept.
  // ---------------------------------------------------------------------------------------------

  datatype Protocol = Tcp | Udp

  datatype Packet = Packet(protocol: Protocol, source: string, port: int)

  /** What both tools and the resolver understand; takesManyPorts tells whether ufw takes several ports
      without being told a protocol. */
  datatype Tools = Tools(
    matches: (Address, string) -> bool, protocolOf: string -> Option<Protocol>,
    portsOf: string -> Option<set<int>>, takesManyPorts: bool)

  ghost predicate Usual(t: Tools) {
    && t.protocolOf("tcp") == Some(Tcp)
    && t.protocolOf("udp") == Some(Udp)
    && forall w :: t.portsOf(w).Some? ==> w != "" && OneWord(w) && t.portsOf(w).value != {}
  }

  predicate FromSource(t: Tools, source: Option<Address>, pkt: Packet) {
    source.None? || t.matches(source.value, pkt.source)
  }

  predicate PortIn(t: Tools, w: string, port: int) {
    t.portsOf(w).Some? && port in t.portsOf(w).value
  }

  /** One of the listed ports, up to blanks around it. */
  predicate AnyPort(t: Tools, parts: seq<string>, port: int) {
    exists p :: p in parts && PortIn(t, TrimSpace(p), port)
  }

  predicate AppendAccepts(t: Tools, a: Append, pkt: Packet) {
    && t.protocolOf(a.protocol) == Some(pkt.protocol)
    && FromSource(t, a.source, pkt)
    && (a.dport.None? || PortIn(t, a.dport.value, pkt.port))
  }

  predicate OnePort(t: Tools, parts: seq<string>) {
    |parts| == 1 && t.portsOf(parts[0]).Some? && |t.portsOf(parts[0]).value| == 1
  }

  /** Whether ufw takes this port argument at all: one word, all of it readable, and of a single port
      unless a protocol is given. */
  predicate UfwReads(t: Tools, ports: string, withProtocol: bool) {
    var parts := Split(TrimSpace(ports), ',');
    && OneWord(TrimSpace(ports))
    && (forall w :: w in parts ==> t.portsOf(w).Some?)
    && (withProtocol || t.takesManyPorts || OnePort(t, parts))
  }

  predicate Accepts(t: Tools, c: Command, pkt: Packet) {
    match c
    case UfwAllow(source, ports, protocol) =>
      && FromSource(t, source, pkt)
      && (protocol.None? || t.protocolOf(protocol.value) == Some(pkt.protocol))
      && (ports.None? || (UfwReads(t, ports.value, protocol.Some?)
                          && exists w :: w in Split(TrimSpace(ports.value), ',') && PortIn(t, w, pkt.port)))
    case Iptables(appends) => exists a :: a in appends && AppendAccepts(t, a, pkt)
  }

  predicate Accepted(t: Tools, cs: seq<Command>, pkt: Packet) {
    exists c :: c in cs && Accepts(t, c, pkt)
  }

  /** A source given as an address is matched as it is, and any other one is looked up. */
  predicate Sends(t: Tools, isIP: string -> bool, r: Rule, someone: string) {
    if isIP(r.sourceIP) then t.matches(Literal(r.sourceIP), someone) else t.matches(Lookup(r.sourceIP), someone)
  }

  /** What a rule means: every field that is given restricts, and an empty rule allows nothing. */
  predicate Denotes(t: Tools, isIP: string -> bool, r: Rule, pkt: Packet) {
    && (r.sourceIP != "" || r.ports != "" || r.protocol != "")
    && (r.sourceIP == "" || Sends(t, isIP, r, pkt.source))
    && (r.protocol == "" || t.protocolOf(r.protocol) == Some(pkt.protocol))
    && (r.ports == "" || AnyPort(t, Split(r.ports, ','), pkt.port))
  }

  /** The list of ports is empty, or its first part is not. */
  predicate FirstPortGiven(r: Rule) {
    r.ports == "" || Split(r.ports, ',')[0] != ""
  }

  predicate AllReadable(t: Tools, parts: seq<string>) {
    forall p :: p in parts ==> t.portsOf(TrimSpace(p)).Some?
  }

  predicate NoneReadable(t: Tools, parts: seq<string>) {
    forall p :: p in parts ==> t.portsOf(TrimSpace(p)).None?
  }

  // ---------------------------------------------------------------------------------------------
  // The code.
  // ---------------------------------------------------------------------------------------------

  function ResolveIP(isIP: string -> bool, sourceIP: string): Address {
    if isIP(sourceIP) then Literal(sourceIP) else Lookup(sourceIP)
  }

  function SourceOf(isIP: string -> bool, r: Rule): Option<Address> {
    if r.sourceIP == "" then None else Some(ResolveIP(isIP, r.sourceIP))
  }

  function GenerateUFWCommands(isIP: string -> bool, r: Rule): seq<Command> {
    if r.sourceIP != "" then
      var ipAddr := Some(ResolveIP(isIP, r.sourceIP));
      if r.protocol != "" then
        if r.ports != "" then [UfwAllow(ipAddr, Some(r.ports), Some(r.protocol))]
        else [UfwAllow(ipAddr, None, Some(r.protocol))]
      else
        if r.ports != "" then [UfwAllow(ipAddr, Some(r.ports), None)]
        else [UfwAllow(ipAddr, None, None)]
    else
      if r.protocol != "" then
        if r.ports != "" then [UfwAllow(None, Some(r.ports), Some(r.protocol))]
        else []
      else
        if r.ports != "" then [UfwAllow(None, Some(r.ports), None)]
        else []
  }

  function ForProtocol(protocol: string, source: Option<Address>, ports: seq<string>): seq<Command> {
    if ports == [] then [] else
      ForProtocol(protocol, source, ports[..|ports| - 1])
      + [Iptables([Append(protocol, source, Some(TrimSpace(ports[|ports| - 1])))])]
  }

  lemma ForProtocolStep(protocol: string, source: Option<Address>, ports: seq<string>, i: nat)
    requires i < |ports|
    ensures ForProtocol(protocol, source, ports[..i + 1]) ==
      ForProtocol(protocol, source, ports[..i]) + [Iptables([Append(protocol, source, Some(TrimSpace(ports[i])))])]
  {
    assert ports[..i + 1][..i] == ports[..i];
  }

  lemma ForPortsStep(source: Option<Address>, ports: seq<string>, i: nat)
    requires i < |ports|
    ensures ForPorts(source, ports[..i + 1])
         == ForPorts(source, ports[..i]) + BothProtocols(source, TrimSpace(ports[i]))
  {
    assert ports[..i + 1][..i] == ports[..i];
  }

  function BothProtocols(source: Option<Address>, port: string): seq<Command> {
    [Iptables([Append("tcp", source, Some(port))]), Iptables([Append("udp", source, Some(port))])]
  }

  function ForPorts(source: Option<Address>, ports: seq<string>): seq<Command> {
    if ports == [] then [] else
      ForPorts(source, ports[..|ports| - 1]) + BothProtocols(source, TrimSpace(ports[|ports| - 1]))
  }

  function IptablesCommands(isIP: string -> bool, r: Rule): seq<Command> {
    var portsList, source := Split(r.ports, ','), SourceOf(isIP, r);
    if r.protocol != "" then
      if portsList[0] != "" then ForProtocol(r.protocol, source, portsList)
      else [Iptables([Append(r.protocol, source, None)])]
    else if portsList[0] != "" then ForPorts(source, portsList)
    else if source.Some? then [Iptables([Append("tcp", source, None), Append("udp", source, None)])]
    else []
  }

  method GenerateIptablesCommands(isIP: string -> bool, r: Rule) returns (commands: seq<Command>)
    ensures commands == IptablesCommands(isIP, r)
  {
    var ipAddr := None;
    if r.sourceIP != "" {
      ipAddr := Some(ResolveIP(isIP, r.sourceIP));
    }
    var portsList := Split(r.ports, ',');
    if r.protocol != "" {
      if |portsList| > 0 && portsList[0] != "" {
        commands := GenerateIptablesWithProtocol(r.protocol, ipAddr, portsList);
      } else {
        commands := [Iptables([Append(r.protocol, ipAddr, None)])];
      }
    } else if |portsList| > 0 && portsList[0] != "" {
      commands := GenerateIptablesForPorts(portsList, ipAddr);
    } else if ipAddr.Some? {
      commands := [Iptables([Append("tcp", ipAddr, None), Append("udp", ipAddr, None)])];
    } else {
      commands := [];
    }
  }

  method GenerateIptablesWithProtocol(protocol: string, ipAddr: Option<Address>, portsList: seq<string>)
    returns (commands: seq<Command>)
    ensures commands == ForProtocol(protocol, ipAddr, portsList)
  {
    commands := [];
    for i := 0 to |portsList|
      invariant commands == ForProtocol(protocol, ipAddr, portsList[..i])
    {
      ForProtocolStep(protocol, ipAddr, portsList, i);
      var port := TrimSpace(portsList[i]);
      commands := commands + [Iptables([Append(protocol, ipAddr, Some(port))])];
    }
    assert portsList[..|portsList|] == portsList;
  }

  method GenerateIptablesForPorts(portsList: seq<string>, ipAddr: Option<Address>) returns (commands: seq<Command>)
    ensures commands == ForPorts(ipAddr, portsList)
  {
    commands := [];
    for i := 0 to |portsList|
      invariant commands == ForPorts(ipAddr, portsList[..i])
    {
      ForPortsStep(ipAddr, portsList, i);
      var port := TrimSpace(portsList[i]);
      var tcp, udp := Append("tcp", ipAddr, Some(port)), Append("udp", ipAddr, Some(port));
      commands := commands + [Iptables([tcp]), Iptables([udp])];
    }
    assert portsList[..|portsList|] == portsList;
  }

  function Compile(isIP: string -> bool, ufw: bool, r: Rule): seq<Command> {
    if ufw then GenerateUFWCommands(isIP, r) else IptablesCommands(isIP, r)
  }

  function CompileAll(isIP: string -> bool, ufw: bool, rules: seq<Rule>): seq<Command> {
    if rules == [] then []
    else CompileAll(isIP, ufw, rules[..|rules| - 1]) + Compile(isIP, ufw, rules[|rules| - 1])
  }

  lemma CompileAllStep(isIP: string -> bool, ufw: bool, rules: seq<Rule>, i: nat)
    requires i < |rules|
    ensures CompileAll(isIP, ufw, rules[..i + 1]) == CompileAll(isIP, ufw, rules[..i]) + Compile(isIP, ufw, rules[i])
  {
    assert rules[..i + 1][..i] == rules[..i];
  }

  /** Required rules come before configured ones; either list may fail to parse. */
  method GetCustomFirewallRules(isIP: string -> bool, ufw: bool,
                                reqRules: Result<seq<Rule>, string>, cfgRules: Result<seq<Rule>, string>)
    returns (commands: Result<seq<Command>, string>)
    ensures commands ==
      if reqRules.Err? then Err(reqRules.error)
      else if cfgRules.Err? then Err(cfgRules.error)
      else Ok(CompileAll(isIP, ufw, reqRules.value + cfgRules.value))
  {
    if reqRules.Err? {
      return Err(reqRules.error);
    }
    if cfgRules.Err? {
      return Err(cfgRules.error);
    }
    var rules := reqRules.value + cfgRules.value;
    var firewallRules := [];
    for i := 0 to |rules|
      invariant firewallRules == CompileAll(isIP, ufw, rules[..i])
    {
      CompileAllStep(isIP, ufw, rules, i);
      if ufw {
        firewallRules := firewallRules + GenerateUFWCommands(isIP, rules[i]);
      } else {
        var cs := GenerateIptablesCommands(isIP, rules[i]);
        firewallRules := firewallRules + cs;
      }
    }
    assert rules[..|rules|] == rules;
    return Ok(firewallRules);
  }

  // ---------------------------------------------------------------------------------------------
  // iptables commands accept what the rule means.
  // ---------------------------------------------------------------------------------------------

  lemma AnyPortLast(t: Tools, parts: seq<string>, port: int)
    requires parts != []
    ensures var last := parts[|parts| - 1];
      AnyPort(t, parts, port) <==> AnyPort(t, parts[..|parts| - 1], port) || PortIn(t, TrimSpace(last), port)
  {
    assert parts == parts[..|parts| - 1] + [parts[|parts| - 1]];
  }

  lemma {:induction false} ForProtocolAccepts(
    t: Tools, protocol: string, source: Option<Address>, ports: seq<string>, pkt: Packet)
    ensures Accepted(t, ForProtocol(protocol, source, ports), pkt) <==>
      && FromSource(t, source, pkt) && t.protocolOf(protocol) == Some(pkt.protocol)
      && AnyPort(t, ports, pkt.port)
    decreases |ports|
  {
    if ports != [] {
      var init, last := ports[..|ports| - 1], ports[|ports| - 1];
      ForProtocolAccepts(t, protocol, source, init, pkt);
      AnyPortLast(t, ports, pkt.port);
      var a := Append(protocol, source, Some(TrimSpace(last)));
      AcceptedConcat(t, ForProtocol(protocol, source, init), [Iptables([a])], pkt);
      OneAccepts(t, a, pkt);
    }
  }

  lemma AcceptedConcat(t: Tools, cs: seq<Command>, ds: seq<Command>, pkt: Packet)
    ensures Accepted(t, cs + ds, pkt) <==> Accepted(t, cs, pkt) || Accepted(t, ds, pkt)
  {
  }

  lemma OneAccepts(t: Tools, a: Append, pkt: Packet)
    ensures Accepted(t, [Iptables([a])], pkt) <==> AppendAccepts(t, a, pkt)
  {
    assert a in [a] && Iptables([a]) in [Iptables([a])];
  }

  lemma TwoAccept(t: Tools, a: Append, b: Append, pkt: Packet)
    ensures Accepted(t, [Iptables([a, b])], pkt) <==> AppendAccepts(t, a, pkt) || AppendAccepts(t, b, pkt)
    ensures Accepted(t, [Iptables([a]), Iptables([b])], pkt) <==> AppendAccepts(t, a, pkt) || AppendAccepts(t, b, pkt)
  {
    assert a in [a, b] && b in [a, b] && Iptables([a, b]) in [Iptables([a, b])];
    OneAccepts(t, a, pkt);
    OneAccepts(t, b, pkt);
    AcceptedConcat(t, [Iptables([a])], [Iptables([b])], pkt);
    assert [Iptables([a])] + [Iptables([b])] == [Iptables([a]), Iptables([b])];
  }

  lemma BothProtocolsAccept(t: Tools, source: Option<Address>, port: string, pkt: Packet)
    requires Usual(t)
    ensures Accepted(t, BothProtocols(source, port), pkt) <==> FromSource(t, source, pkt) && PortIn(t, port, pkt.port)
  {
    TwoAccept(t, Append("tcp", source, Some(port)), Append("udp", source, Some(port)), pkt);
    assert pkt.protocol == Tcp || pkt.protocol == Udp;
  }

  lemma {:induction false} ForPortsAccepts(t: Tools, source: Option<Address>, ports: seq<string>, pkt: Packet)
    requires Usual(t)
    ensures Accepted(t, ForPorts(source, ports), pkt) <==>
      FromSource(t, source, pkt) && AnyPort(t, ports, pkt.port)
    decreases |ports|
  {
    if ports != [] {
      var init, last := ports[..|ports| - 1], ports[|ports| - 1];
      ForPortsAccepts(t, source, init, pkt);
      AnyPortLast(t, ports, pkt.port);
      AcceptedConcat(t, ForPorts(source, init), BothProtocols(source, TrimSpace(last)), pkt);
      BothProtocolsAccept(t, source, TrimSpace(last), pkt);
    }
  }

  /** iptables accepts exactly what the rule means, or, if the first part of its port list is empty, what it
      would mean without ports. */
  lemma IptablesAcceptsItsRule(t: Tools, isIP: string -> bool, r: Rule, pkt: Packet)
    requires Usual(t)
    ensures Accepted(t, IptablesCommands(isIP, r), pkt) <==>
      Denotes(t, isIP, if FirstPortGiven(r) then r else r.(ports := ""), pkt)
  {
    var parts, source := Split(r.ports, ','), SourceOf(isIP, r);
    if r.ports != "" && FirstPortGiven(r) {
      ForProtocolAccepts(t, r.protocol, source, parts, pkt);
      ForPortsAccepts(t, source, parts, pkt);
    } else if r.protocol != "" {
      OneAccepts(t, Append(r.protocol, source, None), pkt);
    } else {
      TwoAccept(t, Append("tcp", source, None), Append("udp", source, None), pkt);
      assert pkt.protocol == Tcp || pkt.protocol == Udp;
    }
  }

  /** A source that somebody sends from, and a protocol that the tools know. */
  predicate Meaningful(t: Tools, isIP: string -> bool, r: Rule, someone: string) {
    && (r.sourceIP != "" ==> Sends(t, isIP, r, someone))
    && (r.protocol != "" ==> t.protocolOf(r.protocol).Some?)
  }

  /** iptables accepts what the rule means if and only if the port list is empty or its first part is not,
      apart from a rule that accepts nothing either way. */
  lemma IptablesIsExactIff(t: Tools, isIP: string -> bool, r: Rule, someone: string)
    requires Usual(t) && Meaningful(t, isIP, r, someone)
    ensures (forall pkt :: Accepted(t, IptablesCommands(isIP, r), pkt) <==> Denotes(t, isIP, r, pkt)) <==>
      || FirstPortGiven(r)
      || (r.protocol == "" && r.sourceIP == "" && NoneReadable(t, Split(r.ports, ',')))
  {
    forall pkt ensures Accepted(t, IptablesCommands(isIP, r), pkt) <==>
        Denotes(t, isIP, if FirstPortGiven(r) then r else r.(ports := ""), pkt) {
      IptablesAcceptsItsRule(t, isIP, r, pkt);
    }
    if !FirstPortGiven(r) {
      if r.protocol != "" || r.sourceIP != "" {
        var pkt := UnlistedPacket(t, isIP, r, someone);
      } else if !NoneReadable(t, Split(r.ports, ',')) {
        var pkt := SomePacket(t, isIP, r, someone);
      }
    }
  }

  /** A packet the rule would mean without its ports, to a port that is none of them. */
  lemma UnlistedPacket(t: Tools, isIP: string -> bool, r: Rule, someone: string) returns (pkt: Packet)
    requires Usual(t) && Meaningful(t, isIP, r, someone) && r.ports != "" && (r.protocol != "" || r.sourceIP != "")
    ensures Denotes(t, isIP, r.(ports := ""), pkt) && !Denotes(t, isIP, r, pkt)
  {
    var bound := PortBound(t, Split(r.ports, ','));
    pkt := Packet(if r.protocol == "" then Tcp else t.protocolOf(r.protocol).value, someone, bound);
  }

  lemma {:induction false} PortBound(t: Tools, parts: seq<string>) returns (bound: int)
    ensures forall port :: port >= bound ==> !AnyPort(t, parts, port)
    decreases |parts|
  {
    if parts == [] {
      bound := 0;
    } else {
      var rest := PortBound(t, parts[..|parts| - 1]);
      var last := t.portsOf(TrimSpace(parts[|parts| - 1]));
      var top := SetBound(if last.Some? then last.value else {});
      bound := if rest > top then rest else top;
      forall port | port >= bound ensures !AnyPort(t, parts, port) {
        AnyPortLast(t, parts, port);
      }
    }
  }

  lemma {:induction false} SetBound(s: set<int>) returns (bound: int)
    ensures forall x :: x in s ==> x < bound
    decreases |s|
  {
    bound := 0;
    if s != {} {
      var x := Element(s);
      var rest := SetBound(s - {x});
      bound := if rest > x then rest else x + 1;
      forall y | y in s ensures y < bound {
        assert y == x || y in s - {x};
      }
    }
  }

  // ---------------------------------------------------------------------------------------------
  // ufw commands accept what the rule means for some rules, and nothing for the others.
  // ---------------------------------------------------------------------------------------------

  /** The guard under which ufw keeps a rule: a protocol without ports needs a source, and ports are all
      readable and listed without blanks in between, with a protocol where ufw wants one. */
  predicate Kept(t: Tools, r: Rule) {
    && (r.ports == "" ==> r.protocol == "" || r.sourceIP != "")
    && (r.ports != "" ==> OneWord(TrimSpace(r.ports)) && AllReadable(t, Split(r.ports, ',')))
    && (r.ports != "" && r.protocol == "" ==> t.takesManyPorts || OnePort(t, Split(TrimSpace(r.ports), ',')))
  }

  /** Trimming the list as a whole or part by part gives ufw and iptables the same ports. */
  lemma TrimmedParts(t: Tools, ports: string, port: int)
    requires OneWord(TrimSpace(ports))
    ensures AllReadable(t, Split(ports, ',')) <==> forall w :: w in Split(TrimSpace(ports), ',') ==> t.portsOf(w).Some?
    ensures AnyPort(t, Split(ports, ','), port) <==>
      exists w :: w in Split(TrimSpace(ports), ',') && PortIn(t, w, port)
  {
    var parts := Split(ports, ',');
    SplitOfTrimmed(ports, ',');
    forall p | p in parts ensures TrimSpace(p) in Trimmed(parts) {
      var k :| 0 <= k < |parts| && p == parts[k];
      assert Trimmed(parts)[k] == TrimSpace(p);
    }
    forall w | w in Trimmed(parts) ensures exists p :: p in parts && w == TrimSpace(p) {
      var k :| 0 <= k < |parts| && w == TrimSpace(parts[k]);
      assert parts[k] in parts;
    }
  }

  lemma UfwReadsIff(t: Tools, r: Rule, port: int)
    requires r.ports != ""
    ensures UfwReads(t, r.ports, r.protocol != "") <==> Kept(t, r)
  {
    if OneWord(TrimSpace(r.ports)) {
      TrimmedParts(t, r.ports, port);
    }
  }

  lemma SingleAccepted(t: Tools, c: Command, pkt: Packet)
    ensures Accepted(t, [c], pkt) <==> Accepts(t, c, pkt)
  {
    assert c in [c];
  }

  lemma UfwAcceptsItsRuleIfKept(t: Tools, isIP: string -> bool, r: Rule, pkt: Packet)
    ensures Accepted(t, GenerateUFWCommands(isIP, r), pkt) <==> Kept(t, r) && Denotes(t, isIP, r, pkt)
  {
    var ports := if r.ports == "" then None else Some(r.ports);
    var protocol := if r.protocol == "" then None else Some(r.protocol);
    SingleAccepted(t, UfwAllow(SourceOf(isIP, r), ports, protocol), pkt);
    if r.ports != "" {
      UfwReadsIff(t, r, pkt.port);
      if OneWord(TrimSpace(r.ports)) {
        TrimmedParts(t, r.ports, pkt.port);
      }
    }
  }

  /** The two compilers agree on a rule exactly when ufw keeps it, apart from rules none of whose ports is
      readable, and from a list starting with a comma in a rule that restricts nothing else. */
  lemma CompilersAgreeIff(t: Tools, isIP: string -> bool, r: Rule, someone: string)
    requires Usual(t) && Meaningful(t, isIP, r, someone)
    ensures (forall pkt ::
              Accepted(t, GenerateUFWCommands(isIP, r), pkt) <==> Accepted(t, IptablesCommands(isIP, r), pkt))
      <==> if FirstPortGiven(r) then Kept(t, r) || (r.ports != "" && NoneReadable(t, Split(r.ports, ',')))
           else r.protocol == "" && r.sourceIP == ""
  {
    var given := if FirstPortGiven(r) then r else r.(ports := "");
    forall pkt ensures Accepted(t, GenerateUFWCommands(isIP, r), pkt) <==> Kept(t, r) && Denotes(t, isIP, r, pkt)
      ensures Accepted(t, IptablesCommands(isIP, r), pkt) <==> Denotes(t, isIP, given, pkt)
    {
      UfwAcceptsItsRuleIfKept(t, isIP, r, pkt);
      IptablesAcceptsItsRule(t, isIP, r, pkt);
    }
    if !FirstPortGiven(r) {
      EmptyPartIsUnreadable(t, r);
    }
    if !Kept(t, r) && (given.protocol != "" || given.sourceIP != "" || given.ports != "")
      && (given.ports != "" ==> !NoneReadable(t, Split(given.ports, ',')))
    {
      var pkt := SomePacket(t, isIP, given, someone);
    }
  }

  lemma EmptyPartIsUnreadable(t: Tools, r: Rule)
    requires Usual(t) && !FirstPortGiven(r)
    ensures !AllReadable(t, Split(r.ports, ','))
  {
    assert TrimSpace("") == "";
    assert Split(r.ports, ',')[0] in Split(r.ports, ',');
  }

  lemma Element(s: set<int>) returns (x: int)
    requires s != {}
    ensures x in s
  {
    if forall y :: y !in s {
      assert false;
    }
    x :| x in s;
  }

  lemma SomePacket(t: Tools, isIP: string -> bool, r: Rule, someone: string) returns (pkt: Packet)
    requires Usual(t) && Meaningful(t, isIP, r, someone)
    requires r.sourceIP != "" || r.ports != "" || r.protocol != ""
    requires r.ports != "" ==> !NoneReadable(t, Split(r.ports, ','))
    ensures Denotes(t, isIP, r, pkt)
  {
    var protocol := if r.protocol == "" then Tcp else t.protocolOf(r.protocol).value;
    var port := 0;
    if r.ports != "" {
      var p :| p in Split(r.ports, ',') && t.portsOf(TrimSpace(p)).Some?;
      port := Element(t.portsOf(TrimSpace(p)).value);
      assert PortIn(t, TrimSpace(p), port);
    }
    pkt := Packet(protocol, someone, port);
  }

  /** Whole lists of rules: ufw accepts what some kept rule means, iptables what some rule means, taken
      without its ports if their first is empty. */
  lemma {:induction false} ListsAcceptTheirRules(t: Tools, isIP: string -> bool, rules: seq<Rule>, pkt: Packet)
    requires Usual(t)
    ensures Accepted(t, CompileAll(isIP, false, rules), pkt) <==>
      exists r :: r in rules && Denotes(t, isIP, if FirstPortGiven(r) then r else r.(ports := ""), pkt)
    ensures Accepted(t, CompileAll(isIP, true, rules), pkt) <==>
      exists r :: r in rules && Kept(t, r) && Denotes(t, isIP, r, pkt)
    decreases |rules|
  {
    if rules != [] {
      var init, last := rules[..|rules| - 1], rules[|rules| - 1];
      assert rules == init + [last];
      ListsAcceptTheirRules(t, isIP, init, pkt);
      UfwAcceptsItsRuleIfKept(t, isIP, last, pkt);
      IptablesAcceptsItsRule(t, isIP, last, pkt);
      AcceptedConcat(t, CompileAll(isIP, true, init), Compile(isIP, true, last), pkt);
      AcceptedConcat(t, CompileAll(isIP, false, init), Compile(isIP, false, last), pkt);
    }
  }

  /** A port list that starts with a comma is compiled to iptables as if there were no ports, and to a ufw
      command that is not taken. */
  lemma EmptyFirstPortIsNoPort(t: Tools, isIP: string -> bool, r: Rule, pkt: Packet)
    requires Usual(t) && !FirstPortGiven(r)
    ensures IptablesCommands(isIP, r) == IptablesCommands(isIP, r.(ports := ""))
    ensures !Accepted(t, GenerateUFWCommands(isIP, r), pkt)
  {
    EmptyPartIsUnreadable(t, r);
    UfwAcceptsItsRuleIfKept(t, isIP, r, pkt);
    assert Split("", ',') == [""];
  }
}
