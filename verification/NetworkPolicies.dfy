/** The tiered network policies, given a meaning.

    A tier evaluates the policies that select the endpoint by ascending order; the first rule that matches
    decides. `next-tier` passes the packet to the next tier. A tier none of whose policies selects the endpoint
    is passed over, and a tier that selects it but matches nothing drops the packet. Policies of equal order
    may be evaluated in any sequence, so every result below is about all of them. */
module NetworkPolicies {
  import opened Wrappers

  datatype Protocol = Tcp | Udp | Icmp | OtherProtocol(name: string)

  datatype Packet = Packet(protocol: Protocol, src: int, dst: int, dstPort: int)

  datatype Action = Allow | Deny | NextTier

  /** Addresses are numbers; a network is a range of them. */
  datatype Net = Net(lo: int, hi: int)

  predicate In(ip: int, net: Net) {
    net.lo <= ip <= net.hi
  }

  /** `ip/32`. */
  function Host(ip: int): Net {
    Net(ip, ip)
  }

  datatype Rule = Rule(protocol: Option<Protocol>, dstPorts: Option<seq<int>>, srcNet: Option<Net>,
                       dstNet: Option<Net>, notDstNet: Option<Net>, action: Action)

  function Always(a: Action): Rule {
    Rule(None, None, None, None, None, a)
  }

  predicate Matches(r: Rule, p: Packet) {
    && (r.protocol.Some? ==> p.protocol == r.protocol.value)
    && (r.dstPorts.Some? ==> p.dstPort in r.dstPorts.value)
    && (r.srcNet.Some? ==> In(p.src, r.srcNet.value))
    && (r.dstNet.Some? ==> In(p.dst, r.dstNet.value))
    && (r.notDstNet.Some? ==> !In(p.dst, r.notDstNet.value))
  }

  datatype Endpoint = Pod | NodeHost | MasterHost

  /** `all()`, `has(kuberdock-pod-uid)` and the two `role==` selectors. */
  datatype Selector = AllEndpoints | Pods | NodeHosts | MasterHosts

  predicate Selects(s: Selector, e: Endpoint) {
    s.AllEndpoints? || (s.Pods? && e.Pod?) || (s.NodeHosts? && e.NodeHost?) || (s.MasterHosts? && e.MasterHost?)
  }

  /** Policies are named after what they are for, or after the address of a remote host. */
  datatype PolicyId = Id(name: string) | HostId(ip: int)

  datatype Policy = Policy(id: PolicyId, order: int, selector: Selector, inbound: seq<Rule>, outbound: seq<Rule>)

  datatype Direction = Inbound | Outbound

  function Rules(p: Policy, d: Direction): seq<Rule> {
    if d.Inbound? then p.inbound else p.outbound
  }

  // ---------------------------------------------------------------- evaluation

  function FirstMatch(rules: seq<Rule>, p: Packet): Option<Action> {
    if rules == [] then None
    else if Matches(rules[0], p) then Some(rules[0].action)
    else FirstMatch(rules[1..], p)
  }

  /** The verdict of the policies `ps`, taken in this sequence. */
  function EvalPolicies(ps: seq<Policy>, e: Endpoint, d: Direction, p: Packet): Option<Action> {
    if ps == [] then None
    else
      var here := if Selects(ps[0].selector, e) then FirstMatch(Rules(ps[0], d), p) else None;
      if here.Some? then here else EvalPolicies(ps[1..], e, d, p)
  }

  function EvalTier(ps: seq<Policy>, e: Endpoint, d: Direction, p: Packet): Action {
    var v := EvalPolicies(ps, e, d, p);
    if v.Some? then v.value
    else if exists i :: 0 <= i < |ps| && Selects(ps[i].selector, e) then Deny
    else NextTier
  }

  function EvalTiers(tiers: seq<seq<Policy>>, e: Endpoint, d: Direction, p: Packet): Action {
    if tiers == [] then NextTier
    else
      var v := EvalTier(tiers[0], e, d, p);
      if v.NextTier? then EvalTiers(tiers[1..], e, d, p) else v
  }

  /** `ps` is a possible evaluation sequence of the policies `tier`. */
  ghost predicate Arranges(ps: seq<Policy>, tier: set<Policy>) {
    && (forall q :: q in ps <==> q in tier)
    && forall i, j :: 0 <= i < j < |ps| ==> ps[i].order <= ps[j].order
  }

  // ---------------------------------------------------------------- the generated policies

  const NODE_PUBLIC_TCP_PORTS := [22]
  const MASTER_PUBLIC_TCP_PORTS := [22, 80, 443, 6443, 2379, 8123, 8118]
  const MASTER_PUBLIC_UDP_PORTS := [123]

  /** Settings and the tunnel address of the master. */
  datatype Config = Config(masterIp: int, tunnelIp: int, calico: Net)

  datatype NodeInfo = NodeInfo(hostname: string, ip: int)
  datatype RemoteHost = RemoteHost(ip: int, tunnelIp: int)
  datatype PortRow = PortRow(port: int, protocol: Protocol)

  function FromHost(ip: int): Rule {
    Always(Allow).(srcNet := Some(Host(ip)))
  }

  function ToPorts(protocol: Protocol, ports: seq<int>): Rule {
    Always(Allow).(protocol := Some(protocol), dstPorts := Some(ports))
  }

  function RemoteHostPolicy(h: RemoteHost): Policy {
    Policy(HostId(h.ip), 10, AllEndpoints, [FromHost(h.ip), FromHost(h.tunnelIp)], [Always(NextTier)])
  }

  const NEXT_TIER := Policy(Id("next-tier"), 9999, AllEndpoints, [Always(NextTier)], [Always(NextTier)])

  const NEXT_TIER_FOR_PODS :=
    Policy(Id("kd-nodes-dont-drop-pods-traffic"), 50, Pods, [Always(NextTier)], [Always(NextTier)])

  function PodsForbidPolicy(n: NodeInfo): Policy {
    Policy(Id("isolate-from-pods-" + n.hostname), 10, Pods, [], [Always(Deny).(dstNet := Some(Host(n.ip)))])
  }

  function NodeAllowPolicy(n: NodeInfo): Policy {
    Policy(Id("kd-nodes-" + n.hostname), 110, NodeHosts, [FromHost(n.ip)], [])
  }

  function AllowedPortsPolicy(rules: seq<Rule>): Policy {
    Policy(Id("kd-nodes-allowed-ports"), 105, NodeHosts, rules, [Always(Allow)])
  }

  function RestrictedPortsPolicy(rules: seq<Rule>): Policy {
    Policy(Id("kd-restricted-ports"), 5, Pods, [], rules)
  }

  function AllowedPortsRule(ports: seq<int>, protocol: Protocol): Rule {
    ToPorts(protocol, ports)
  }

  function RestrictedPortsRule(c: Config, ports: seq<int>, protocol: Protocol): Rule {
    Rule(Some(protocol), Some(ports), None, None, Some(c.calico), Deny)
  }

  function NodesPolicy(c: Config): Policy {
    Policy(Id("kd-nodes-public"), 100, NodeHosts,
           [FromHost(c.masterIp), FromHost(c.tunnelIp), ToPorts(Tcp, NODE_PUBLIC_TCP_PORTS)], [Always(Allow)])
  }

  function MasterPolicy(): Policy {
    Policy(Id("kdmaster-public"), 200, MasterHosts,
           [ToPorts(Tcp, MASTER_PUBLIC_TCP_PORTS), ToPorts(Udp, MASTER_PUBLIC_UDP_PORTS), Always(NextTier)],
           [Always(Allow)])
  }

  function FailsafePolicy(c: Config): Policy {
    Policy(Id("failsafe-all"), 100, AllEndpoints,
           [Always(Allow).(protocol := Some(Icmp)),
            FromHost(c.tunnelIp).(dstNet := Some(c.calico)),
            Always(NextTier)],
           [ToPorts(Tcp, [2379]).(dstNet := Some(Host(c.masterIp))),
            FromHost(c.tunnelIp),
            ToPorts(Udp, [67]),
            Always(NextTier)])
  }

  // ---------------------------------------------------------------- the tiers of a cluster

  /** What is stored in etcd: the registered nodes and hosts, and the two optional port policies. */
  datatype Cluster = Cluster(config: Config, nodes: set<NodeInfo>, hosts: set<RemoteHost>,
                             allowed: Option<Policy>, restricted: Option<Policy>)

  function FailsafeTier(c: Cluster): set<Policy> {
    {FailsafePolicy(c.config)}
  }

  function HostsTier(c: Cluster): set<Policy> {
    {NEXT_TIER} + set h | h in c.hosts :: RemoteHostPolicy(h)
  }

  function NodesTier(c: Cluster): set<Policy> {
    {MasterPolicy(), NodesPolicy(c.config), NEXT_TIER_FOR_PODS}
    + (set n | n in c.nodes :: PodsForbidPolicy(n)) + (set n | n in c.nodes :: NodeAllowPolicy(n))
    + (if c.allowed.Some? then {c.allowed.value} else {})
    + (if c.restricted.Some? then {c.restricted.value} else {})
  }

  /** Any evaluation sequence of the first three tiers. */
  ghost predicate ArrangesCluster(tiers: seq<seq<Policy>>, c: Cluster) {
    && |tiers| == 3
    && Arranges(tiers[0], FailsafeTier(c))
    && Arranges(tiers[1], HostsTier(c))
    && Arranges(tiers[2], NodesTier(c))
  }

  /** The port policy allows exactly the rows of a table. */
  ghost predicate AllowsRows(policy: Option<Policy>, rows: set<PortRow>) {
    match policy
    case None => rows == {}
    case Some(q) =>
      && q.order == 105 && q.selector == NodeHosts && q.outbound == [Always(Allow)]
      && forall p: Packet :: FirstMatch(q.inbound, p) ==
                             if PortRow(p.dstPort, p.protocol) in rows then Some(Allow) else None
  }

  /** The port policy denies exactly the rows of a table, for packets that leave the pod network. */
  ghost predicate DeniesRows(policy: Option<Policy>, rows: set<PortRow>, calico: Net) {
    match policy
    case None => rows == {}
    case Some(q) =>
      && q.order == 5 && q.selector == Pods && q.inbound == []
      && forall p: Packet :: FirstMatch(q.outbound, p) ==
                             if PortRow(p.dstPort, p.protocol) in rows && !In(p.dst, calico) then Some(Deny) else None
  }

  // ---------------------------------------------------------------- evaluating an arrangement

  /** The verdict of one policy on its own. */
  function Verdict(q: Policy, e: Endpoint, d: Direction, p: Packet): Option<Action> {
    if Selects(q.selector, e) then FirstMatch(Rules(q, d), p) else None
  }

  /** If some policy decides, and all policies that decide and could come first agree, that is the verdict,
      in every evaluation sequence. */
  lemma {:induction false} ArrangedVerdict(ps: seq<Policy>, e: Endpoint, d: Direction, p: Packet, q: Policy, a: Action)
    requires forall i, j :: 0 <= i < j < |ps| ==> ps[i].order <= ps[j].order
    requires q in ps && Verdict(q, e, d, p) == Some(a)
    requires forall r :: r in ps && r.order <= q.order && Verdict(r, e, d, p).Some? ==> Verdict(r, e, d, p) == Some(a)
    ensures EvalPolicies(ps, e, d, p) == Some(a)
  {
    var i :| 0 <= i < |ps| && ps[i] == q;
    assert ps[0] in ps && ps[0].order <= q.order;
    if Verdict(ps[0], e, d, p).None? {
      assert q in ps[1..] by {
        assert ps[1..][i - 1] == q;
      }
      ArrangedVerdict(ps[1..], e, d, p, q, a);
    }
  }

  lemma {:induction false} SilentPolicies(ps: seq<Policy>, e: Endpoint, d: Direction, p: Packet)
    requires forall r :: r in ps ==> Verdict(r, e, d, p).None?
    ensures EvalPolicies(ps, e, d, p) == None
  {
    if ps != [] {
      assert ps[0] in ps;
      SilentPolicies(ps[1..], e, d, p);
    }
  }

  /** The same for a whole tier. */
  lemma TierVerdict(ps: seq<Policy>, e: Endpoint, d: Direction, p: Packet, q: Policy, a: Action)
    requires forall i, j :: 0 <= i < j < |ps| ==> ps[i].order <= ps[j].order
    requires q in ps && Verdict(q, e, d, p) == Some(a)
    requires forall r :: r in ps && r.order <= q.order && Verdict(r, e, d, p).Some? ==> Verdict(r, e, d, p) == Some(a)
    ensures EvalTier(ps, e, d, p) == a
  {
    ArrangedVerdict(ps, e, d, p, q, a);
  }

  /** A tier that matches nothing drops the packet if any of its policies selects the endpoint, and is passed over
      otherwise. */
  lemma TierDefault(ps: seq<Policy>, e: Endpoint, d: Direction, p: Packet)
    requires forall r :: r in ps ==> Verdict(r, e, d, p).None?
    ensures EvalTier(ps, e, d, p) == if exists r :: r in ps && Selects(r.selector, e) then Deny else NextTier
  {
    SilentPolicies(ps, e, d, p);
    if r :| r in ps && Selects(r.selector, e) {
      var i :| 0 <= i < |ps| && ps[i] == r;
      assert Selects(ps[i].selector, e);
    }
  }

  /** The rules made from port lists. */
  lemma PortRuleVerdicts(c: Config, ports: seq<int>, protocol: Protocol, p: Packet)
    ensures FirstMatch([AllowedPortsRule(ports, protocol)], p) ==
            if p.protocol == protocol && p.dstPort in ports then Some(Allow) else None
    ensures FirstMatch([RestrictedPortsRule(c, ports, protocol)], p) ==
            if p.protocol == protocol && p.dstPort in ports && !(c.calico.lo <= p.dst <= c.calico.hi) then Some(Deny) else None
  {
    Unfold1(AllowedPortsRule(ports, protocol), p);
    Unfold1(RestrictedPortsRule(c, ports, protocol), p);
  }

  // ---------------------------------------------------------------- single policies

  lemma Unfold1(r: Rule, p: Packet)
    ensures FirstMatch([r], p) == if Matches(r, p) then Some(r.action) else None
  {
    assert [r][1..] == [];
  }

  lemma {:induction false} UnfoldCons(r: Rule, rest: seq<Rule>, p: Packet)
    ensures FirstMatch([r] + rest, p) == if Matches(r, p) then Some(r.action) else FirstMatch(rest, p)
  {
    assert ([r] + rest)[1..] == rest;
  }

  /** No failsafe rule allows this outbound packet. */
  predicate FailsafeSilentOut(c: Config, p: Packet) {
    && !(p.protocol == Tcp && p.dstPort == 2379 && p.dst == c.masterIp)
    && p.src != c.tunnelIp
    && !(p.protocol == Udp && p.dstPort == 67)
  }

  lemma FailsafeVerdict(c: Config, e: Endpoint, p: Packet)
    ensures Verdict(FailsafePolicy(c), e, Outbound, p) == Some(if FailsafeSilentOut(c, p) then NextTier else Allow)
    ensures Verdict(FailsafePolicy(c), e, Inbound, p) ==
            Some(if p.protocol == Icmp || (p.src == c.tunnelIp && In(p.dst, c.calico)) then Allow else NextTier)
  {
    var q := FailsafePolicy(c);
    var o := q.outbound;
    Unfold1(o[3], p);
    UnfoldCons(o[2], [o[3]], p);
    UnfoldCons(o[1], [o[2], o[3]], p);
    UnfoldCons(o[0], [o[1], o[2], o[3]], p);
    assert o == [o[0]] + [o[1], o[2], o[3]] && [o[1], o[2], o[3]] == [o[1]] + [o[2], o[3]];
    assert [o[2], o[3]] == [o[2]] + [o[3]];
    var i := q.inbound;
    Unfold1(i[2], p);
    UnfoldCons(i[1], [i[2]], p);
    UnfoldCons(i[0], [i[1], i[2]], p);
    assert i == [i[0]] + [i[1], i[2]] && [i[1], i[2]] == [i[1]] + [i[2]];
  }

  lemma NodesVerdict(c: Config, p: Packet)
    ensures Verdict(NodesPolicy(c), NodeHost, Inbound, p) ==
            if p.src == c.masterIp || p.src == c.tunnelIp || (p.protocol == Tcp && p.dstPort == 22)
            then Some(Allow) else None
  {
    var i := NodesPolicy(c).inbound;
    Unfold1(i[2], p);
    UnfoldCons(i[1], [i[2]], p);
    UnfoldCons(i[0], [i[1], i[2]], p);
    assert i == [i[0]] + [i[1], i[2]] && [i[1], i[2]] == [i[1]] + [i[2]];
  }

  lemma RemoteHostVerdict(h: RemoteHost, e: Endpoint, p: Packet)
    ensures Verdict(RemoteHostPolicy(h), e, Inbound, p) ==
            if p.src == h.ip || p.src == h.tunnelIp then Some(Allow) else None
    ensures Verdict(RemoteHostPolicy(h), e, Outbound, p) == Some(NextTier)
  {
    var i := RemoteHostPolicy(h).inbound;
    Unfold1(i[1], p);
    UnfoldCons(i[0], [i[1]], p);
    assert i == [i[0]] + [i[1]];
    Unfold1(RemoteHostPolicy(h).outbound[0], p);
  }

  lemma NextTierVerdict(e: Endpoint, d: Direction, p: Packet)
    ensures Verdict(NEXT_TIER, e, d, p) == Some(NextTier)
    ensures Verdict(NEXT_TIER_FOR_PODS, Pod, d, p) == Some(NextTier)
  {
    Unfold1(Always(NextTier), p);
  }

  // ---------------------------------------------------------------- tiers

  lemma FailsafeTierVerdict(ps: seq<Policy>, c: Cluster, e: Endpoint, d: Direction, p: Packet)
    requires Arranges(ps, FailsafeTier(c))
    ensures Some(EvalTier(ps, e, d, p)) == Verdict(FailsafePolicy(c.config), e, d, p)
  {
    FailsafeVerdict(c.config, e, p);
    var q := FailsafePolicy(c.config);
    assert q in FailsafeTier(c);
    TierVerdict(ps, e, d, p, q, Verdict(q, e, d, p).value);
  }

  /** The source is a registered remote host or its tunnel. */
  ghost predicate FromRemoteHost(c: Cluster, p: Packet) {
    exists h :: h in c.hosts && (p.src == h.ip || p.src == h.tunnelIp)
  }

  /** A policy of the hosts tier is that of a host, or the one that passes everything on. */
  lemma HostsTierPolicies(c: Cluster, e: Endpoint, p: Packet, q: Policy)
    requires q in HostsTier(c)
    ensures Verdict(q, e, Outbound, p) == Some(NextTier)
    ensures q == NEXT_TIER || (Verdict(q, e, Inbound, p).Some? ==> Verdict(q, e, Inbound, p) == Some(Allow) && FromRemoteHost(c, p))
  {
    NextTierVerdict(e, Outbound, p);
    if q != NEXT_TIER {
      var h :| h in c.hosts && q == RemoteHostPolicy(h);
      RemoteHostVerdict(h, e, p);
    }
  }

  lemma HostsTierOutbound(ps: seq<Policy>, c: Cluster, e: Endpoint, p: Packet)
    requires Arranges(ps, HostsTier(c))
    ensures EvalTier(ps, e, Outbound, p) == NextTier
  {
    assert NEXT_TIER in HostsTier(c);
    forall q | q in HostsTier(c) ensures Verdict(q, e, Outbound, p) == Some(NextTier) {
      HostsTierPolicies(c, e, p, q);
    }
    TierVerdict(ps, e, Outbound, p, NEXT_TIER, NextTier);
  }

  lemma HostsTierInbound(ps: seq<Policy>, c: Cluster, e: Endpoint, p: Packet)
    requires Arranges(ps, HostsTier(c))
    ensures EvalTier(ps, e, Inbound, p) == if FromRemoteHost(c, p) then Allow else NextTier
  {
    assert NEXT_TIER in HostsTier(c);
    NextTierVerdict(e, Inbound, p);
    forall q | q in HostsTier(c)
      ensures q == NEXT_TIER || (Verdict(q, e, Inbound, p).Some? ==> Verdict(q, e, Inbound, p) == Some(Allow) && FromRemoteHost(c, p))
    {
      HostsTierPolicies(c, e, p, q);
    }
    if FromRemoteHost(c, p) {
      var h :| h in c.hosts && (p.src == h.ip || p.src == h.tunnelIp);
      RemoteHostVerdict(h, e, p);
      assert RemoteHostPolicy(h) in HostsTier(c);
      TierVerdict(ps, e, Inbound, p, RemoteHostPolicy(h), Allow);
    } else {
      TierVerdict(ps, e, Inbound, p, NEXT_TIER, NextTier);
    }
  }

  lemma HostsTierVerdict(ps: seq<Policy>, c: Cluster, e: Endpoint, p: Packet)
    requires Arranges(ps, HostsTier(c))
    ensures EvalTier(ps, e, Outbound, p) == NextTier
    ensures EvalTier(ps, e, Inbound, p) == if FromRemoteHost(c, p) then Allow else NextTier
  {
    HostsTierOutbound(ps, c, e, p);
    HostsTierInbound(ps, c, e, p);
  }

  ghost predicate ToSomeNode(c: Cluster, p: Packet) {
    exists n :: n in c.nodes && p.dst == n.ip
  }

  ghost predicate FromSomeNode(c: Cluster, p: Packet) {
    exists n :: n in c.nodes && p.src == n.ip
  }

  lemma ForbidVerdict(n: NodeInfo, p: Packet)
    ensures Verdict(PodsForbidPolicy(n), Pod, Outbound, p) == if p.dst == n.ip then Some(Deny) else None
    ensures Verdict(NodeAllowPolicy(n), NodeHost, Inbound, p) == if p.src == n.ip then Some(Allow) else None
  {
    Unfold1(PodsForbidPolicy(n).outbound[0], p);
    Unfold1(NodeAllowPolicy(n).inbound[0], p);
  }

  /** What each policy of the nodes tier says about a packet that leaves a pod. */
  lemma NodesTierPodVerdicts(c: Cluster, restricted: set<PortRow>, allowed: set<PortRow>, p: Packet, q: Policy)
    requires DeniesRows(c.restricted, restricted, c.config.calico) && AllowsRows(c.allowed, allowed)
    requires q in NodesTier(c) && Verdict(q, Pod, Outbound, p).Some?
    ensures || q == NEXT_TIER_FOR_PODS
            || (q.order < 50 && Verdict(q, Pod, Outbound, p) == Some(Deny)
                && (ToSomeNode(c, p) || (PortRow(p.dstPort, p.protocol) in restricted && !In(p.dst, c.config.calico))))
  {
    if n :| n in c.nodes && q == PodsForbidPolicy(n) {
      ForbidVerdict(n, p);
    }
  }

  /** The nodes tier for a packet that leaves a pod. */
  lemma NodesTierForPods(ps: seq<Policy>, c: Cluster, restricted: set<PortRow>, allowed: set<PortRow>, p: Packet)
    requires Arranges(ps, NodesTier(c))
    requires DeniesRows(c.restricted, restricted, c.config.calico) && AllowsRows(c.allowed, allowed)
    ensures EvalTier(ps, Pod, Outbound, p) ==
            if ToSomeNode(c, p) || (PortRow(p.dstPort, p.protocol) in restricted && !In(p.dst, c.config.calico))
            then Deny else NextTier
  {
    NextTierVerdict(Pod, Outbound, p);
    assert NEXT_TIER_FOR_PODS in NodesTier(c);
    forall q | q in NodesTier(c) && Verdict(q, Pod, Outbound, p).Some?
      ensures || q == NEXT_TIER_FOR_PODS
              || (q.order < 50 && Verdict(q, Pod, Outbound, p) == Some(Deny)
                  && (ToSomeNode(c, p) || (PortRow(p.dstPort, p.protocol) in restricted && !In(p.dst, c.config.calico))))
    {
      NodesTierPodVerdicts(c, restricted, allowed, p, q);
    }
    if ToSomeNode(c, p) {
      var n :| n in c.nodes && p.dst == n.ip;
      ForbidVerdict(n, p);
      assert PodsForbidPolicy(n) in NodesTier(c);
      TierVerdict(ps, Pod, Outbound, p, PodsForbidPolicy(n), Deny);
    } else if PortRow(p.dstPort, p.protocol) in restricted && !In(p.dst, c.config.calico) {
      assert c.restricted.value in NodesTier(c);
      TierVerdict(ps, Pod, Outbound, p, c.restricted.value, Deny);
    } else {
      TierVerdict(ps, Pod, Outbound, p, NEXT_TIER_FOR_PODS, NextTier);
    }
  }

  /** Pod isolation: through all three tiers, an outbound pod packet that no failsafe rule allows is denied if
      and only if it goes to the address of some node, or leaves the pod network on a restricted (port,
      protocol); every other such packet goes on to the service tier. */
  lemma PodOutboundVerdict(tiers: seq<seq<Policy>>, c: Cluster, restricted: set<PortRow>, allowed: set<PortRow>,
                           p: Packet)
    requires ArrangesCluster(tiers, c) && FailsafeSilentOut(c.config, p)
    requires DeniesRows(c.restricted, restricted, c.config.calico) && AllowsRows(c.allowed, allowed)
    ensures EvalTiers(tiers, Pod, Outbound, p) ==
            if ToSomeNode(c, p) || (PortRow(p.dstPort, p.protocol) in restricted && !In(p.dst, c.config.calico))
            then Deny else NextTier
  {
    FailsafeVerdict(c.config, Pod, p);
    FailsafeTierVerdict(tiers[0], c, Pod, Outbound, p);
    HostsTierVerdict(tiers[1], c, Pod, p);
    NodesTierForPods(tiers[2], c, restricted, allowed, p);
    Three(tiers, Pod, Outbound, p);
  }

  lemma Three(tiers: seq<seq<Policy>>, e: Endpoint, d: Direction, p: Packet)
    requires |tiers| == 3
    ensures EvalTiers(tiers, e, d, p) ==
            var v0 := EvalTier(tiers[0], e, d, p);
            if v0 != NextTier then v0 else
            var v1 := EvalTier(tiers[1], e, d, p);
            if v1 != NextTier then v1 else EvalTier(tiers[2], e, d, p)
  {
    assert tiers[1..][0] == tiers[1] && tiers[1..][1..] == tiers[2..];
    assert tiers[2..][0] == tiers[2] && tiers[2..][1..] == [];
    assert EvalTiers(tiers[2..], e, d, p) == EvalTier(tiers[2], e, d, p);
  }

  /** What each policy of the nodes tier says about a packet that enters a node. */
  lemma NodesTierNodeVerdicts(c: Cluster, restricted: set<PortRow>, allowed: set<PortRow>, p: Packet, q: Policy)
    requires DeniesRows(c.restricted, restricted, c.config.calico) && AllowsRows(c.allowed, allowed)
    requires q in NodesTier(c) && Verdict(q, NodeHost, Inbound, p).Some?
    ensures Verdict(q, NodeHost, Inbound, p) == Some(Allow)
    ensures NodeAccepts(c, allowed, p)
  {
    NodesVerdict(c.config, p);
    if n :| n in c.nodes && (q == NodeAllowPolicy(n) || q == PodsForbidPolicy(n)) {
      ForbidVerdict(n, p);
    }
  }

  ghost predicate NodeAccepts(c: Cluster, allowed: set<PortRow>, p: Packet) {
    || p.src == c.config.masterIp || p.src == c.config.tunnelIp || FromSomeNode(c, p)
    || (p.protocol == Tcp && p.dstPort == 22) || PortRow(p.dstPort, p.protocol) in allowed
  }

  lemma NodesTierForNodes(ps: seq<Policy>, c: Cluster, restricted: set<PortRow>, allowed: set<PortRow>, p: Packet)
    requires Arranges(ps, NodesTier(c))
    requires DeniesRows(c.restricted, restricted, c.config.calico) && AllowsRows(c.allowed, allowed)
    ensures EvalTier(ps, NodeHost, Inbound, p) == if NodeAccepts(c, allowed, p) then Allow else Deny
  {
    forall q | q in NodesTier(c) && Verdict(q, NodeHost, Inbound, p).Some?
      ensures Verdict(q, NodeHost, Inbound, p) == Some(Allow) && NodeAccepts(c, allowed, p)
    {
      NodesTierNodeVerdicts(c, restricted, allowed, p, q);
    }
    var node := NodesPolicy(c.config);
    assert node in NodesTier(c);
    NodesVerdict(c.config, p);
    if Verdict(node, NodeHost, Inbound, p).Some? {
      TierVerdict(ps, NodeHost, Inbound, p, node, Allow);
    } else if FromSomeNode(c, p) {
      var n :| n in c.nodes && p.src == n.ip;
      ForbidVerdict(n, p);
      assert NodeAllowPolicy(n) in NodesTier(c);
      TierVerdict(ps, NodeHost, Inbound, p, NodeAllowPolicy(n), Allow);
    } else if PortRow(p.dstPort, p.protocol) in allowed {
      assert c.allowed.value in NodesTier(c);
      TierVerdict(ps, NodeHost, Inbound, p, c.allowed.value, Allow);
    } else {
      SilentPolicies(ps, NodeHost, Inbound, p);
      var i :| 0 <= i < |ps| && ps[i] == node;
      assert Selects(ps[i].selector, NodeHost);
    }
  }

  /** Node isolation: a packet from a source that is not the master, the tunnel, a node or a registered host is
      accepted by a node if and only if it is ICMP, goes to tcp/22, or goes to an allowed (port, protocol);
      otherwise it is dropped. */
  lemma NodeInboundVerdict(tiers: seq<seq<Policy>>, c: Cluster, restricted: set<PortRow>, allowed: set<PortRow>,
                           p: Packet)
    requires ArrangesCluster(tiers, c)
    requires DeniesRows(c.restricted, restricted, c.config.calico) && AllowsRows(c.allowed, allowed)
    requires p.src != c.config.masterIp && p.src != c.config.tunnelIp
    requires !FromSomeNode(c, p) && !FromRemoteHost(c, p)
    ensures EvalTiers(tiers, NodeHost, Inbound, p) ==
            if p.protocol == Icmp || (p.protocol == Tcp && p.dstPort == 22) || PortRow(p.dstPort, p.protocol) in allowed
            then Allow else Deny
  {
    FailsafeVerdict(c.config, NodeHost, p);
    FailsafeTierVerdict(tiers[0], c, NodeHost, Inbound, p);
    HostsTierVerdict(tiers[1], c, NodeHost, p);
    NodesTierForNodes(tiers[2], c, restricted, allowed, p);
    Three(tiers, NodeHost, Inbound, p);
  }

  // ---------------------------------------------------------------- the master, and what leaves hosts

  lemma MasterVerdict(p: Packet)
    ensures Verdict(MasterPolicy(), MasterHost, Inbound, p) ==
            Some(if MasterAccepts(p) then Allow else NextTier)
    ensures Verdict(MasterPolicy(), MasterHost, Outbound, p) == Some(Allow)
  {
    var i := MasterPolicy().inbound;
    Unfold1(i[2], p);
    UnfoldCons(i[1], [i[2]], p);
    UnfoldCons(i[0], [i[1], i[2]], p);
    assert i == [i[0]] + [i[1], i[2]] && [i[1], i[2]] == [i[1]] + [i[2]];
    Unfold1(MasterPolicy().outbound[0], p);
  }

  /** The public ports of the master. */
  predicate MasterAccepts(p: Packet) {
    || (p.protocol == Tcp && (p.dstPort == 22 || p.dstPort == 80 || p.dstPort == 443 || p.dstPort == 6443
                              || p.dstPort == 2379 || p.dstPort == 8123 || p.dstPort == 8118))
    || (p.protocol == Udp && p.dstPort == 123)
  }

  /** Only the master's own policy of the nodes tier selects the master. */
  lemma NodesTierMasterOnly(c: Cluster, restricted: set<PortRow>, allowed: set<PortRow>, q: Policy)
    requires DeniesRows(c.restricted, restricted, c.config.calico) && AllowsRows(c.allowed, allowed)
    requires q in NodesTier(c) && Selects(q.selector, MasterHost)
    ensures q == MasterPolicy()
  {
  }

  lemma NodesTierForMaster(ps: seq<Policy>, c: Cluster, restricted: set<PortRow>, allowed: set<PortRow>, p: Packet)
    requires Arranges(ps, NodesTier(c))
    requires DeniesRows(c.restricted, restricted, c.config.calico) && AllowsRows(c.allowed, allowed)
    ensures EvalTier(ps, MasterHost, Inbound, p) == if MasterAccepts(p) then Allow else NextTier
    ensures EvalTier(ps, MasterHost, Outbound, p) == Allow
  {
    MasterVerdict(p);
    var m := MasterPolicy();
    assert m in NodesTier(c);
    forall q | q in NodesTier(c) && Selects(q.selector, MasterHost) ensures q == m {
      NodesTierMasterOnly(c, restricted, allowed, q);
    }
    TierVerdict(ps, MasterHost, Inbound, p, m, Verdict(m, MasterHost, Inbound, p).value);
    TierVerdict(ps, MasterHost, Outbound, p, m, Allow);
  }

  lemma OutOfNodeVerdict(c: Cluster, restricted: set<PortRow>, allowed: set<PortRow>, p: Packet, q: Policy)
    requires DeniesRows(c.restricted, restricted, c.config.calico) && AllowsRows(c.allowed, allowed)
    requires q in NodesTier(c) && Verdict(q, NodeHost, Outbound, p).Some?
    ensures Verdict(q, NodeHost, Outbound, p) == Some(Allow)
  {
    Unfold1(Always(Allow), p);
  }

  lemma IntoPodVerdict(c: Cluster, restricted: set<PortRow>, allowed: set<PortRow>, p: Packet, q: Policy)
    requires DeniesRows(c.restricted, restricted, c.config.calico) && AllowsRows(c.allowed, allowed)
    requires q in NodesTier(c) && Verdict(q, Pod, Inbound, p).Some?
    ensures q == NEXT_TIER_FOR_PODS
  {
  }

  /** Whatever leaves a node is allowed by the nodes tier. */
  lemma NodesTierOutOfNodes(ps: seq<Policy>, c: Cluster, restricted: set<PortRow>, allowed: set<PortRow>, p: Packet)
    requires Arranges(ps, NodesTier(c))
    requires DeniesRows(c.restricted, restricted, c.config.calico) && AllowsRows(c.allowed, allowed)
    ensures EvalTier(ps, NodeHost, Outbound, p) == Allow
  {
    var node := NodesPolicy(c.config);
    assert node in NodesTier(c);
    Unfold1(Always(Allow), p);
    assert Verdict(node, NodeHost, Outbound, p) == Some(Allow);
    forall q | q in NodesTier(c) && Verdict(q, NodeHost, Outbound, p).Some?
      ensures Verdict(q, NodeHost, Outbound, p) == Some(Allow)
    {
      OutOfNodeVerdict(c, restricted, allowed, p, q);
    }
    TierVerdict(ps, NodeHost, Outbound, p, node, Allow);
  }

  /** The nodes tier passes on what enters a pod. */
  lemma NodesTierIntoPods(ps: seq<Policy>, c: Cluster, restricted: set<PortRow>, allowed: set<PortRow>, p: Packet)
    requires Arranges(ps, NodesTier(c))
    requires DeniesRows(c.restricted, restricted, c.config.calico) && AllowsRows(c.allowed, allowed)
    ensures EvalTier(ps, Pod, Inbound, p) == NextTier
  {
    NextTierVerdict(Pod, Inbound, p);
    assert NEXT_TIER_FOR_PODS in NodesTier(c);
    forall q | q in NodesTier(c) && Verdict(q, Pod, Inbound, p).Some? ensures q == NEXT_TIER_FOR_PODS {
      IntoPodVerdict(c, restricted, allowed, p, q);
    }
    TierVerdict(ps, Pod, Inbound, p, NEXT_TIER_FOR_PODS, NextTier);
  }

  /** The failsafe rules or a registered host let an inbound packet in at once. */
  ghost predicate LetIn(c: Cluster, p: Packet) {
    p.protocol == Icmp || (p.src == c.config.tunnelIp && In(p.dst, c.config.calico)) || FromRemoteHost(c, p)
  }

  /** The other verdicts through all three tiers: the master accepts its public ports and passes the rest on to the
      service tier; everything may leave the master and the nodes; and what enters a pod is left to the service tier. */
  lemma OtherVerdicts(tiers: seq<seq<Policy>>, c: Cluster, restricted: set<PortRow>, allowed: set<PortRow>, p: Packet)
    requires ArrangesCluster(tiers, c)
    requires DeniesRows(c.restricted, restricted, c.config.calico) && AllowsRows(c.allowed, allowed)
    ensures EvalTiers(tiers, MasterHost, Inbound, p) == if LetIn(c, p) || MasterAccepts(p) then Allow else NextTier
    ensures EvalTiers(tiers, MasterHost, Outbound, p) == Allow
    ensures EvalTiers(tiers, NodeHost, Outbound, p) == Allow
    ensures EvalTiers(tiers, Pod, Inbound, p) == if LetIn(c, p) then Allow else NextTier
  {
    Through(tiers, c, MasterHost, p);
    Through(tiers, c, NodeHost, p);
    Through(tiers, c, Pod, p);
    NodesTierForMaster(tiers[2], c, restricted, allowed, p);
    NodesTierOutOfNodes(tiers[2], c, restricted, allowed, p);
    NodesTierIntoPods(tiers[2], c, restricted, allowed, p);
  }

  /** The first two tiers. */
  lemma Through(tiers: seq<seq<Policy>>, c: Cluster, e: Endpoint, p: Packet)
    requires ArrangesCluster(tiers, c)
    ensures EvalTiers(tiers, e, Inbound, p) == if LetIn(c, p) then Allow else EvalTier(tiers[2], e, Inbound, p)
    ensures EvalTiers(tiers, e, Outbound, p) ==
            if FailsafeSilentOut(c.config, p) then EvalTier(tiers[2], e, Outbound, p) else Allow
  {
    FailsafeVerdict(c.config, e, p);
    FailsafeTierVerdict(tiers[0], c, e, Inbound, p);
    FailsafeTierVerdict(tiers[0], c, e, Outbound, p);
    HostsTierVerdict(tiers[1], c, e, p);
    Three(tiers, e, Inbound, p);
    Three(tiers, e, Outbound, p);
  }
}
