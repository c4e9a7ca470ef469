/** The tables of allowed and restricted ports. Both have the same life: a row is added to or removed from the
    database, and the policy stored in etcd is generated anew from the table. */
module PortPolicies {
  import opened Wrappers
  import opened Letters
  import opened NetworkPolicies

  datatype Kind = AllowedPorts | RestrictedPorts

  function ProtocolOf(name: string): Protocol {
    if name == "tcp" then Tcp
    else if name == "udp" then Udp
    else if name == "icmp" then Icmp
    else OtherProtocol(name)
  }

  function RowOf(port: int, protocol: string): PortRow {
    PortRow(port, ProtocolOf(Lower(protocol)))
  }

  /** The name spells a protocol, in whatever case. */
  predicate Spells(name: string, q: Protocol) {
    match q
    case Tcp => SameIgnoringCase(name, "tcp")
    case Udp => SameIgnoringCase(name, "udp")
    case Icmp => SameIgnoringCase(name, "icmp")
    case OtherProtocol(_) => false
  }

  /** The row of a port and a protocol name: that of the protocol spelled; and two requests are about one row exactly if
      they have the same port and names that differ in case at most. */
  lemma RowOfSpelling(n: int, name: string, q: Protocol, m: int, other: string)
    ensures q.OtherProtocol? || (Spells(name, q) <==> RowOf(n, name) == PortRow(n, q))
    ensures RowOf(n, name) == RowOf(m, other) <==> n == m && SameIgnoringCase(name, other)
  {
    LowerExactly(name, "tcp");
    LowerExactly(name, "udp");
    LowerExactly(name, "icmp");
    LowerExactly(name, other);
    assert Lower("tcp") == "tcp" && Lower("udp") == "udp" && Lower("icmp") == "icmp";
  }

  function RuleFor(kind: Kind, c: Config, ports: seq<int>, protocol: Protocol): Rule {
    if kind.AllowedPorts? then AllowedPortsRule(ports, protocol) else RestrictedPortsRule(c, ports, protocol)
  }

  function PolicyFor(kind: Kind, rules: seq<Rule>): Policy {
    if kind.AllowedPorts? then AllowedPortsPolicy(rules) else RestrictedPortsPolicy(rules)
  }

  /** What the rules generated for `rows` must say about a packet. */
  function Expected(kind: Kind, c: Config, rows: seq<PortRow>, p: Packet): Option<Action> {
    if PortRow(p.dstPort, p.protocol) !in rows then None
    else if kind.AllowedPorts? then Some(Allow)
    else if In(p.dst, c.calico) then None
    else Some(Deny)
  }

  /** The stored policy says what the table says. */
  ghost predicate Synced(kind: Kind, c: Config, rows: seq<PortRow>, stored: Option<Policy>) {
    var table := set r | r in rows;
    if kind.AllowedPorts? then AllowsRows(stored, table) else DeniesRows(stored, table, c.calico)
  }

  lemma {:induction false} FirstMatchSnoc(rules: seq<Rule>, r: Rule, p: Packet)
    ensures FirstMatch(rules + [r], p) ==
            if FirstMatch(rules, p).Some? then FirstMatch(rules, p)
            else if Matches(r, p) then Some(r.action) else None
  {
    if rules == [] {
      assert rules + [r] == [r];
    } else {
      assert (rules + [r])[1..] == rules[1..] + [r];
      FirstMatchSnoc(rules[1..], r, p);
    }
  }

  lemma GeneratedIsSynced(kind: Kind, c: Config, rows: seq<PortRow>, rules: seq<Rule>)
    requires forall p: Packet :: FirstMatch(rules, p) == Expected(kind, c, rows, p)
    ensures Synced(kind, c, rows, Some(PolicyFor(kind, rules)))
  {
  }

  lemma WithoutOne(rows: seq<PortRow>, i: nat)
    requires i < |rows|
    ensures multiset(rows[..i] + rows[i + 1..]) == multiset(rows) - multiset{rows[i]}
    ensures NoRowTwice(rows) ==> NoRowTwice(rows[..i] + rows[i + 1..])
  {
    assert rows == rows[..i] + [rows[i]] + rows[i + 1..];
    var rest := rows[..i] + rows[i + 1..];
    assert forall j :: 0 <= j < |rest| ==> rest[j] == rows[if j < i then j else j + 1];
  }

  function TableOf(rows: seq<PortRow>): set<PortRow> {
    set r | r in rows
  }

  lemma WithoutOneTable(rows: seq<PortRow>, i: nat)
    requires i < |rows| && NoRowTwice(rows)
    ensures TableOf(rows[..i] + rows[i + 1..]) == TableOf(rows) - {rows[i]}
  {
    var rest := rows[..i] + rows[i + 1..];
    assert forall j :: 0 <= j < |rest| ==> rest[j] == rows[if j < i then j else j + 1];
    forall r | r in rows && r != rows[i] ensures r in rest {
      var j :| 0 <= j < |rows| && rows[j] == r;
      assert rest[if j < i then j else j - 1] == r;
    }
  }

  /** The table after one request: a commit adds the row or takes it away, a failing one does neither. */
  ghost function After(table: set<PortRow>, add: bool, port: int, protocol: string, fault: Fault): set<PortRow> {
    if fault.CommitFails? then table
    else if add then table + {RowOf(port, protocol)}
    else table - {RowOf(port, protocol)}
  }

  ghost function AfterAll(table: set<PortRow>, requests: seq<(bool, int, string, Fault)>): set<PortRow> {
    if requests == [] then table
    else
      var (add, port, protocol, fault) := requests[|requests| - 1];
      After(AfterAll(table, requests[..|requests| - 1]), add, port, protocol, fault)
  }

  datatype Outcome = Ok | AlreadyThere | NotThere | DatabaseError | EtcdError

  /** The faults of one call: a commit that fails, and an etcd operation that fails before or after it took
      effect. */
  datatype Fault = NoFault | CommitFails | EtcdFails(applied: bool)

  class PortTable {
    const kind: Kind
    const config: Config
    var rows: seq<PortRow>
    var stored: Option<Policy>

    constructor (kind: Kind, config: Config)
      ensures this.kind == kind && this.config == config && rows == [] && stored == None
      ensures Synced(kind, config, rows, stored)
    {
      this.kind, this.config, rows, stored := kind, config, [], None;
    }

    /** The grouping loop: the ports of the table by protocol. */
    method PortsByProtocol() returns (ports: map<Protocol, seq<int>>)
      ensures forall n, q :: q in ports && n in ports[q] <==> PortRow(n, q) in rows
      ensures ports == map[] <==> rows == []
    {
      ports := map[];
      for i := 0 to |rows|
        invariant forall n, q :: q in ports && n in ports[q] <==> PortRow(n, q) in rows[..i]
        invariant ports == map[] <==> i == 0
      {
        var r := rows[i];
        assert rows[..i + 1] == rows[..i] + [r];
        ports := ports[r.protocol := (if r.protocol in ports then ports[r.protocol] else []) + [r.port]];
        assert r.protocol in ports;
      }
      assert rows[..|rows|] == rows;
    }

    /** The generated rules: together they match exactly the rows of the table, whatever the iteration order of
        the dictionary. */
    method PortRules() returns (rules: seq<Rule>)
      ensures forall p: Packet :: FirstMatch(rules, p) == Expected(kind, config, rows, p)
      ensures rules == [] <==> rows == []
    {
      var ports := PortsByProtocol();
      rules := [];
      var todo := ports.Keys;
      while todo != {}
        invariant todo <= ports.Keys
        invariant rules == [] <==> todo == ports.Keys
        invariant forall p: Packet :: FirstMatch(rules, p) ==
                    if p.protocol in todo then None else Expected(kind, config, rows, p)
        decreases todo
      {
        var q :| q in todo;
        var r := RuleFor(kind, config, ports[q], q);
        forall p: Packet
          ensures FirstMatch(rules + [r], p) == if p.protocol in todo - {q} then None else Expected(kind, config, rows, p)
        {
          FirstMatchSnoc(rules, r, p);
        }
        rules := rules + [r];
        todo := todo - {q};
      }
    }

    /** Adding a row. On a normal return the stored policy says exactly what the table says, whatever state
        earlier failed calls left behind. */
    method SetPort(port: int, protocol: string, fault: Fault) returns (r: Outcome)
      modifies this
      ensures r.Ok? ==> Synced(kind, config, rows, stored)
      ensures r.Ok? ==> RowOf(port, protocol) !in old(rows)
      ensures r.Ok? || r.EtcdError? ==> rows == old(rows) + [RowOf(port, protocol)]
      ensures r.AlreadyThere? || r.DatabaseError? || r.NotThere? ==> rows == old(rows) && stored == old(stored)
      ensures r.AlreadyThere? <==> RowOf(port, protocol) in old(rows)
      ensures r.DatabaseError? <==> RowOf(port, protocol) !in old(rows) && fault.CommitFails?
      ensures r.EtcdError? <==> RowOf(port, protocol) !in old(rows) && fault.EtcdFails?
      ensures !r.NotThere?
      ensures r.EtcdError? && fault.applied ==> Synced(kind, config, rows, stored)
      ensures r.EtcdError? && !fault.applied ==> stored == old(stored)
      ensures NoRowTwice(old(rows)) ==> NoRowTwice(rows) && TableOf(rows) == After(TableOf(old(rows)), true, port, protocol, fault)
    {
      var row := RowOf(port, protocol);
      if row in rows {
        return AlreadyThere;
      }
      if fault.CommitFails? {
        return DatabaseError;
      }
      rows := rows + [row];
      var rules := PortRules();
      if fault.EtcdFails? && !fault.applied {
        return EtcdError;
      }
      stored := Some(PolicyFor(kind, rules));
      GeneratedIsSynced(kind, config, rows, rules);
      r := if fault.EtcdFails? then EtcdError else Ok;
    }

    /** Removing a row; the policy of an empty table is deleted. */
    method DelPort(port: int, protocol: string, fault: Fault) returns (r: Outcome)
      modifies this
      ensures r.Ok? ==> Synced(kind, config, rows, stored)
      ensures r.Ok? || r.EtcdError? ==>
                multiset(rows) == multiset(old(rows)) - multiset{RowOf(port, protocol)}
      ensures r.AlreadyThere? || r.DatabaseError? || r.NotThere? ==> rows == old(rows) && stored == old(stored)
      ensures r.NotThere? <==> RowOf(port, protocol) !in old(rows)
      ensures r.DatabaseError? <==> RowOf(port, protocol) in old(rows) && fault.CommitFails?
      ensures r.EtcdError? <==>
                && RowOf(port, protocol) in old(rows) && !fault.CommitFails?
                && (fault.EtcdFails? || (|old(rows)| > 1 && old(stored).None?))
      ensures !r.AlreadyThere?
      ensures r.EtcdError? ==>
                if |old(rows)| > 1 && old(stored).None? then stored == old(stored)
                else if fault.applied then Synced(kind, config, rows, stored)
                else stored == old(stored)
      ensures NoRowTwice(old(rows)) ==> NoRowTwice(rows) && TableOf(rows) == After(TableOf(old(rows)), false, port, protocol, fault)
    {
      var row := RowOf(port, protocol);
      if row !in rows {
        return NotThere;
      }
      if fault.CommitFails? {
        return DatabaseError;
      }
      var i :| 0 <= i < |rows| && rows[i] == row;
      WithoutOne(rows, i);
      if NoRowTwice(rows) {
        WithoutOneTable(rows, i);
      }
      rows := rows[..i] + rows[i + 1..];
      r := Republish(fault);
    }

    /** The policy after a row was removed: replaced, which fails when there is none, or deleted with the last row. */
    method Republish(fault: Fault) returns (r: Outcome)
      requires !fault.CommitFails?
      modifies this`stored
      ensures r.Ok? || r.EtcdError?
      ensures r.EtcdError? <==> fault.EtcdFails? || (rows != [] && old(stored).None?)
      ensures r.Ok? ==> Synced(kind, config, rows, stored)
      ensures r.EtcdError? ==>
                if rows != [] && old(stored).None? then stored == old(stored)
                else if fault.applied then Synced(kind, config, rows, stored)
                else stored == old(stored)
    {
      var rules := PortRules();
      if (fault.EtcdFails? && !fault.applied) || (rules != [] && stored.None?) {
        return EtcdError;
      }
      stored := if rules != [] then Some(PolicyFor(kind, rules)) else None;
      GeneratedIsSynced(kind, config, rows, rules);
      r := if fault.EtcdFails? then EtcdError else Ok;
    }

    /** Opening a port lets its packets in: after a normal return, with the stored policy in place, every node accepts
        packets of the protocol that was spelled on the port that was given. */
    method OpenPort(port: int, protocol: string, fault: Fault) returns (r: Outcome)
      requires kind.AllowedPorts?
      modifies this
      ensures fault.NoFault? && !r.Ok? ==> RowOf(port, protocol) in old(rows)
      ensures r.Ok? ==>
                forall tiers, c, restricted, p ::
                  IsPacketTo(tiers, c, restricted, p, port, protocol) && c.config == config && c.allowed == stored ==>
                  EvalTiers(tiers, NodeHost, Inbound, p) == Allow
    {
      r := SetPort(port, protocol, fault);
      if r.Ok? {
        forall tiers, c, restricted, p |
          IsPacketTo(tiers, c, restricted, p, port, protocol) && c.config == config && c.allowed == stored
          ensures EvalTiers(tiers, NodeHost, Inbound, p) == Allow
        {
          RowOfSpelling(port, protocol, p.protocol, port, protocol);
          ClusterFollowsTables(tiers, c, rows, restricted, p);
        }
      }
    }

    /** Closing it keeps the packets of unknown sources out, unless the port is tcp/22. */
    method ClosePort(port: int, protocol: string, fault: Fault) returns (r: Outcome)
      requires kind.AllowedPorts? && NoRowTwice(rows)
      modifies this
      ensures r.Ok? ==>
                forall tiers, c, restricted, p ::
                  IsPacketTo(tiers, c, restricted, p, port, protocol) && c.config == config && c.allowed == stored
                  && !(p.protocol == Tcp && p.dstPort == 22) ==>
                  EvalTiers(tiers, NodeHost, Inbound, p) == Deny
    {
      r := DelPort(port, protocol, fault);
      if r.Ok? {
        assert RowOf(port, protocol) !in rows by {
          GoneFrom(old(rows), rows, RowOf(port, protocol));
        }
        forall tiers, c, restricted, p |
          IsPacketTo(tiers, c, restricted, p, port, protocol) && c.config == config && c.allowed == stored
          && !(p.protocol == Tcp && p.dstPort == 22)
          ensures EvalTiers(tiers, NodeHost, Inbound, p) == Deny
        {
          RowOfSpelling(port, protocol, p.protocol, port, protocol);
          ClusterFollowsTables(tiers, c, rows, restricted, p);
        }
      }
    }

    /** After any run of calls the table holds what the committed requests, in their order, leave; and if the last one
        returned normally, the stored policy says what the table says. */
    method Calls(requests: seq<(bool, int, string, Fault)>) returns (last: Outcome)
      requires requests != []
      modifies this
      ensures last.Ok? ==> Synced(kind, config, rows, stored)
      ensures NoRowTwice(old(rows)) ==> NoRowTwice(rows) && TableOf(rows) == AfterAll(TableOf(old(rows)), requests)
    {
      last := NotThere;
      for i := 0 to |requests|
        invariant last.Ok? ==> Synced(kind, config, rows, stored)
        invariant NoRowTwice(old(rows)) ==> NoRowTwice(rows) && TableOf(rows) == AfterAll(TableOf(old(rows)), requests[..i])
      {
        assert requests[..i + 1][..i] == requests[..i];
        var (add, port, protocol, fault) := requests[i];
        if add {
          last := SetPort(port, protocol, fault);
        } else {
          last := DelPort(port, protocol, fault);
        }
      }
      assert requests[..|requests|] == requests;
    }
  }

  /** The table is a set, as `set_port` keeps it. */
  ghost predicate NoRowTwice(rows: seq<PortRow>) {
    forall i, j :: 0 <= i < j < |rows| ==> rows[i] != rows[j]
  }

  lemma {:induction false} OnceInSet(rows: seq<PortRow>, r: PortRow)
    requires NoRowTwice(rows)
    ensures multiset(rows)[r] <= 1
  {
    if rows != [] {
      var init, last := rows[..|rows| - 1], rows[|rows| - 1];
      OnceInSet(init, r);
      assert rows == init + [last] && last !in init;
      assert last !in multiset(init);
    }
  }

  lemma GoneFrom(before: seq<PortRow>, after: seq<PortRow>, r: PortRow)
    requires NoRowTwice(before) && multiset(after) == multiset(before) - multiset{r}
    ensures r !in after
  {
    OnceInSet(before, r);
    assert r in after ==> multiset(after)[r] > 0;
  }

  /** A tcp or udp packet from an unknown source to the given port, of the protocol that the name spells. */
  ghost predicate IsPacketTo(tiers: seq<seq<Policy>>, c: Cluster, restricted: seq<PortRow>, p: Packet, port: int,
                             protocol: string) {
    && ArrangesCluster(tiers, c) && Synced(RestrictedPorts, c.config, restricted, c.restricted)
    && (p.protocol == Tcp || p.protocol == Udp) && Spells(protocol, p.protocol) && p.dstPort == port
    && p.src != c.config.masterIp && p.src != c.config.tunnelIp && !FromSomeNode(c, p) && !FromRemoteHost(c, p)
  }

  /** The two tables and the tiers together: with a synced table of allowed ports, a tcp or udp packet from an
      unknown source is accepted by a node if and only if it goes to tcp/22 or to a row of the table; with a
      synced table of restricted ports, a pod packet is denied as the table says. */
  lemma ClusterFollowsTables(tiers: seq<seq<Policy>>, c: Cluster, allowed: seq<PortRow>, restricted: seq<PortRow>,
                             p: Packet)
    requires ArrangesCluster(tiers, c)
    requires Synced(AllowedPorts, c.config, allowed, c.allowed)
    requires Synced(RestrictedPorts, c.config, restricted, c.restricted)
    ensures (p.protocol == Tcp || p.protocol == Udp)
            && p.src != c.config.masterIp && p.src != c.config.tunnelIp
            && !FromSomeNode(c, p) && !FromRemoteHost(c, p)
            ==> EvalTiers(tiers, NodeHost, Inbound, p) ==
                if (p.protocol == Tcp && p.dstPort == 22) || PortRow(p.dstPort, p.protocol) in allowed
                then Allow else Deny
    ensures FailsafeSilentOut(c.config, p)
            ==> EvalTiers(tiers, Pod, Outbound, p) ==
                if ToSomeNode(c, p) || (PortRow(p.dstPort, p.protocol) in restricted && !In(p.dst, c.config.calico))
                then Deny else NextTier
  {
    var a, r := set x | x in allowed, set x | x in restricted;
    if FailsafeSilentOut(c.config, p) {
      PodOutboundVerdict(tiers, c, r, a, p);
    }
    if p.src != c.config.masterIp && p.src != c.config.tunnelIp && !FromSomeNode(c, p) && !FromRemoteHost(c, p) {
      NodeInboundVerdict(tiers, c, r, a, p);
    }
  }
}
