/** The writer of admintools.conf (pkg/atconf/file_writer.go).  Two sections of the file are
    edited in place: the `hosts` line of [Cluster], a comma-separated string, and the [Nodes]
    section, which holds one `nodeNNNN = ip,dataPath,dataPath` option per host next to options
    that admintools itself writes for database nodes. */
module AdmintoolsConf {
  import opened Text

  const NODE_PREFIX := "node"

  /** `hosts` is None when the option is missing from [Cluster]. */
  datatype Conf = Conf(hosts: Option<string>, nodes: map<string, string>)

  function NodeName(n: nat): string {
    NODE_PREFIX + Pad4(n)
  }

  function NodeInfo(ip: string, dataPath: string): string {
    ip + "," + dataPath + "," + dataPath
  }

  /** The number in a node option; 0 when it has none that counts. */
  function NodeNumber(option: string): nat {
    if HasPrefix(option, NODE_PREFIX) then
      match Atoi(option[|NODE_PREFIX|..])
      case Some(i) => if i > 0 then i else 0
      case None => 0
    else 0
  }

  ghost function HighestNumber(options: set<string>): (m: nat)
    ensures forall o | o in options :: NodeNumber(o) <= m
    ensures m == 0 || exists o :: o in options && NodeNumber(o) == m
  {
    if options == {} then 0
    else
      var o :| o in options;
      var m := HighestNumber(options - {o});
      if NodeNumber(o) > m then NodeNumber(o) else m
  }

  lemma NodeNumberOfName(n: nat)
    ensures NodeNumber(NodeName(n)) == n && HasPrefix(NodeName(n), NODE_PREFIX)
  {
    Pad4RoundTrip(n);
    assert NodeName(n)[|NODE_PREFIX|..] == Pad4(n);
  }

  // ---------------------------------------------------------------- what the edits compute

  function OldHosts(c: Conf): set<string> {
    match c.hosts
    case None => {}
    case Some(line) => set h | h in Split(line)
  }

  function HostLine(c: Conf): string {
    if c.hosts.Some? then c.hosts.value else ""
  }

  function NewIps(known: set<string>, ips: seq<string>): seq<string> {
    if ips == [] then []
    else
      var ip := ips[|ips| - 1];
      NewIps(known, ips[..|ips| - 1]) + (if ip in known then [] else [ip])
  }

  function AppendHosts(line: string, ips: seq<string>): string {
    if ips == [] then line
    else
      var acc := AppendHosts(line, ips[..|ips| - 1]);
      (if acc == "" then "" else acc + ",") + ips[|ips| - 1]
  }

  function AddEntries(nodes: map<string, string>, next: nat, ips: seq<string>, dataPath: string): map<string, string> {
    if ips == [] then nodes
    else
      var k := |ips| - 1;
      AddEntries(nodes, next, ips[..k], dataPath)[NodeName(next + k) := NodeInfo(ips[k], dataPath)]
  }

  ghost function WithHosts(c: Conf, ips: seq<string>, dataPath: string): Conf {
    var newcomers := NewIps(OldHosts(c), ips);
    Conf(Some(AppendHosts(HostLine(c), newcomers)),
         AddEntries(c.nodes, HighestNumber(c.nodes.Keys) + 1, newcomers, dataPath))
  }

  /** Drops the last occurrence of `x`, if there is one. */
  function DropLast(xs: seq<string>, x: string): seq<string> {
    if xs == [] then []
    else
      var n := |xs| - 1;
      if xs[n] == x then xs[..n] else DropLast(xs[..n], x) + [xs[n]]
  }

  function DropEach(xs: seq<string>, ips: seq<string>): seq<string> {
    if ips == [] then xs else DropLast(DropEach(xs, ips[..|ips| - 1]), ips[|ips| - 1])
  }

  predicate Mentions(info: string, ips: seq<string>) {
    exists ip :: ip in ips && Contains(info, ip + ",")
  }

  function WithoutEntries(nodes: map<string, string>, ips: seq<string>): map<string, string> {
    map o | o in nodes && !Mentions(nodes[o], ips) :: nodes[o]
  }

  function WithoutHosts(c: Conf, ips: seq<string>): Option<Conf> {
    match c.hosts
    case None => None
    case Some(line) => Some(Conf(Some(Join(DropEach(Split(line), ips))), WithoutEntries(c.nodes, ips)))
  }

  // ---------------------------------------------------------------- the writer

  class FileWriter {
    var hosts: Option<string>
    var nodes: map<string, string>
    const dataPath: string

    constructor (dataPath: string)
      ensures View() == Conf(None, map[]) && this.dataPath == dataPath
    {
      this.dataPath := dataPath;
      hosts := None;
      nodes := map[];
    }

    ghost function View(): Conf
      reads this
    {
      Conf(hosts, nodes)
    }

    method GetHosts() returns (lk: set<string>)
      ensures lk == OldHosts(View())
    {
      lk := {};
      if hosts.Some? {
        var parts := Split(hosts.value);
        for i := 0 to |parts|
          invariant lk == set h | h in parts[..i]
        {
          lk := lk + {parts[i]};
        }
        assert parts[..|parts|] == parts;
      }
    }

    method GetNextNodeNumber() returns (next: nat)
      ensures next == HighestNumber(nodes.Keys) + 1
    {
      next := 1;
      var todo := nodes.Keys;
      while todo != {}
        invariant todo <= nodes.Keys
        invariant forall o | o in nodes.Keys - todo :: NodeNumber(o) < next
        invariant next == 1 || exists o :: o in nodes.Keys && NodeNumber(o) == next - 1
        decreases todo
      {
        var o :| o in todo;
        if HasPrefix(o, NODE_PREFIX) {
          match Atoi(o[|NODE_PREFIX|..]) {
            case None =>
            case Some(i) =>
              if i >= next {
                next := i + 1;
              }
          }
        }
        todo := todo - {o};
      }
    }

    method AddToClusterHosts(oldHosts: set<string>, installIPs: seq<string>)
      modifies this
      ensures nodes == old(nodes)
      ensures hosts == Some(AppendHosts(HostLine(old(View())), NewIps(oldHosts, installIPs)))
    {
      var ips := if hosts.Some? then hosts.value else "";
      ghost var line := ips;
      for i := 0 to |installIPs|
        invariant View() == old(View())
        invariant ips == AppendHosts(line, NewIps(oldHosts, installIPs[..i]))
      {
        var ip := installIPs[i];
        assert installIPs[..i + 1][..i] == installIPs[..i];
        ghost var sofar := NewIps(oldHosts, installIPs[..i]);
        assert sofar + [] == sofar;
        if ip !in oldHosts {
          assert (sofar + [ip])[..|sofar|] == sofar;
          if |ips| != 0 {
            ips := ips + ",";
          }
          ips := ips + ip;
        }
      }
      assert installIPs[..|installIPs|] == installIPs;
      hosts := Some(ips);
    }

    method AddNodes(oldHosts: set<string>, installIPs: seq<string>)
      modifies this
      ensures hosts == old(hosts)
      ensures nodes == AddEntries(old(nodes), HighestNumber(old(nodes).Keys) + 1,
                                  NewIps(oldHosts, installIPs), dataPath)
    {
      hide NodeName, NodeInfo, NodeNumber, HighestNumber;
      var first := GetNextNodeNumber();
      var nextNodeNumber := first;
      for i := 0 to |installIPs|
        invariant hosts == old(hosts)
        invariant nextNodeNumber == first + |NewIps(oldHosts, installIPs[..i])|
        invariant nodes == AddEntries(old(nodes), first, NewIps(oldHosts, installIPs[..i]), dataPath)
      {
        var ip := installIPs[i];
        assert installIPs[..i + 1][..i] == installIPs[..i];
        ghost var sofar := NewIps(oldHosts, installIPs[..i]);
        assert sofar + [] == sofar;
        if ip !in oldHosts {
          assert (sofar + [ip])[..|sofar|] == sofar;
          nodes := nodes[NodeName(nextNodeNumber) := NodeInfo(ip, dataPath)];
          nextNodeNumber := nextNodeNumber + 1;
        }
      }
      assert installIPs[..|installIPs|] == installIPs;
    }

    method AddHosts(ips: seq<string>)
      modifies this
      ensures View() == WithHosts(old(View()), ips, dataPath)
    {
      hide OldHosts, NewIps, AddEntries, AppendHosts, HighestNumber, NodeNumber;
      var oldHosts := GetHosts();
      AddToClusterHosts(oldHosts, ips);
      AddNodes(oldHosts, ips);
    }

    method RemoveFromClusterHosts(ips: seq<string>)
      requires hosts.Some?
      modifies this
      ensures nodes == old(nodes)
      ensures hosts == Some(Join(DropEach(Split(old(hosts.value)), ips)))
    {
      var list := Split(hosts.value);
      ghost var all := list;
      for k := 0 to |ips|
        invariant View() == old(View())
        invariant list == DropEach(all, ips[..k])
      {
        assert ips[..k + 1][..k] == ips[..k];
        list := DropLastHost(list, ips[k]);
      }
      assert ips[..|ips|] == ips;
      hosts := Some(Join(list));
    }

    static method DropLastHost(hosts: seq<string>, removeIP: string) returns (left: seq<string>)
      ensures left == DropLast(hosts, removeIP)
    {
      var i := |hosts| - 1;
      while i >= 0
        invariant -1 <= i < |hosts|
        invariant removeIP !in hosts[i + 1..]
      {
        if hosts[i] == removeIP {
          DropMiddle(hosts[..i], removeIP, hosts[i + 1..]);
          assert hosts == hosts[..i] + [removeIP] + hosts[i + 1..];
          return hosts[0..i] + hosts[i + 1..];
        }
        i := i - 1;
      }
      DropLastAbsent(hosts, removeIP);
      left := hosts;
    }

    method RemoveNodes(ips: seq<string>)
      modifies this
      ensures hosts == old(hosts)
      ensures nodes == WithoutEntries(old(nodes), ips)
    {
      for k := 0 to |ips|
        invariant hosts == old(hosts)
        invariant nodes == WithoutEntries(old(nodes), ips[..k])
      {
        var text := ips[k] + ",";
        var items := nodes;
        var todo := items.Keys;
        while todo != {}
          invariant todo <= items.Keys && nodes.Keys <= items.Keys
          invariant hosts == old(hosts)
          invariant forall o | o in nodes :: nodes[o] == items[o]
          invariant forall o | o in items :: o in nodes <==> o in todo || !Contains(items[o], text)
          decreases todo
        {
          var o :| o in todo;
          if Contains(items[o], text) {
            nodes := nodes - {o};
          }
          todo := todo - {o};
        }
        assert ips[..k + 1] == ips[..k] + [ips[k]];
        forall o | o in old(nodes)
          ensures o in nodes <==> !Mentions(old(nodes)[o], ips[..k + 1])
        {
          assert Mentions(old(nodes)[o], ips[..k + 1])
              <==> Mentions(old(nodes)[o], ips[..k]) || Contains(old(nodes)[o], text);
        }
      }
      assert ips[..|ips|] == ips;
    }

    /** Fails, changing nothing, when there is no hosts line. */
    method RemoveHosts(ips: seq<string>) returns (ok: bool)
      modifies this
      ensures ok == WithoutHosts(old(View()), ips).Some?
      ensures View() == if ok then WithoutHosts(old(View()), ips).value else old(View())
    {
      if hosts.None? {
        return false;
      }
      RemoveFromClusterHosts(ips);
      RemoveNodes(ips);
      return true;
    }
  }

  // ---------------------------------------------------------------- hosts and nodes stay in step

  ghost function HostsOf(line: string): seq<string> {
    if line == "" then [] else Split(line)
  }

  ghost function HostList(c: Conf): seq<string> {
    HostsOf(HostLine(c))
  }

  ghost function Elements(xs: seq<string>): set<string> {
    set x | x in xs
  }

  /** The compat21 node entries: which host each `node...` option is for. */
  ghost function Entries(nodes: map<string, string>): map<string, string> {
    map o | o in nodes && HasPrefix(o, NODE_PREFIX) :: Split(nodes[o])[0]
  }

  ghost predicate Injective(m: map<string, string>) {
    forall o, o' | o in m && o' in m && m[o] == m[o'] :: o == o'
  }

  /** The host list has no duplicates, and the node entries are in bijection with it. */
  ghost predicate Synced(c: Conf, dataPath: string) {
    InStep(HostList(c), c.nodes, dataPath)
  }

  ghost predicate InStep(hosts: seq<string>, nodes: map<string, string>, dataPath: string) {
    && Distinct(hosts)
    && "" !in hosts
    && (forall o | o in Entries(nodes) :: nodes[o] == NodeInfo(Entries(nodes)[o], dataPath))
    && Injective(Entries(nodes))
    && Entries(nodes).Values == Elements(hosts)
  }

  predicate IsAddress(ip: string) {
    ip != "" && CommaFree(ip)
  }

  lemma HostsCommaFree(c: Conf)
    ensures forall h | h in HostList(c) :: CommaFree(h)
  {
    SplitCommaFree(HostLine(c));
  }

  lemma InfoHost(ip: string, dataPath: string)
    requires CommaFree(ip)
    ensures Split(NodeInfo(ip, dataPath))[0] == ip
  {
    SplitFirst(ip, dataPath + "," + dataPath);
    assert NodeInfo(ip, dataPath) == ip + "," + (dataPath + "," + dataPath);
  }

  lemma HostListAppend(line: string, ip: string)
    requires IsAddress(ip)
    ensures HostsOf(AppendHosts(line, [ip])) == HostsOf(line) + [ip]
  {
    assert [ip][..0] == [];
    if line == "" {
      SplitFirst(ip, "");
      assert "" + ip == ip;
    } else {
      JoinSplit(line);
      SplitCommaFree(line);
      JoinAppend(Split(line), ip);
      SplitJoin(Split(line) + [ip]);
      assert AppendHosts(line, [ip]) == Join(Split(line) + [ip]);
    }
  }

  lemma ValuesOfUpdate(m: map<string, string>, k: string, v: string)
    requires k !in m
    ensures m[k := v].Values == m.Values + {v}
  {
    assert k in m[k := v];
    forall x | x in m.Values
      ensures x in m[k := v].Values
    {
      var o :| o in m && m[o] == x;
      assert m[k := v][o] == x;
    }
  }

  /** One new host under an option nobody has keeps hosts and nodes in step. */
  lemma AddOne(hosts: seq<string>, nodes: map<string, string>, option: string, ip: string, dataPath: string)
    requires InStep(hosts, nodes, dataPath)
    requires IsAddress(ip) && ip !in hosts
    requires option !in nodes && HasPrefix(option, NODE_PREFIX)
    ensures var nodes' := nodes[option := NodeInfo(ip, dataPath)];
            && InStep(hosts + [ip], nodes', dataPath)
            && Entries(nodes') == Entries(nodes)[option := ip]
  {
    InfoHost(ip, dataPath);
    var nodes' := nodes[option := NodeInfo(ip, dataPath)];
    var e, e' := Entries(nodes), Entries(nodes');
    assert e' == e[option := ip];
    ValuesOfUpdate(e, option, ip);
    assert ip !in e.Values;
    forall o | o in e
      ensures e[o] != ip
    {
      assert e[o] in e.Values;
    }
    assert Elements(hosts + [ip]) == Elements(hosts) + {ip};
  }

  ghost predicate FreshFor(hosts: seq<string>, ips: seq<string>) {
    && Distinct(ips)
    && forall ip | ip in ips :: IsAddress(ip) && ip !in hosts
  }

  lemma FreshPrefix(hosts: seq<string>, ips: seq<string>)
    requires FreshFor(hosts, ips) && ips != []
    ensures var k := |ips| - 1;
            FreshFor(hosts, ips[..k]) && IsAddress(ips[k]) && ips[k] !in hosts + ips[..k]
  {
  }

  /** What AddEntries leaves behind: old options untouched, new ones for new hosts only. */
  ghost predicate Extended(before: map<string, string>, after: map<string, string>, ips: seq<string>,
          dataPath: string) {
    && (forall o | o in before :: o in after && after[o] == before[o])
    && (forall o | o in after && o !in before ::
          o in Entries(after) && Entries(after)[o] in ips)
  }

  lemma HighestBelow(nodes: map<string, string>)
    ensures Below(nodes, HighestNumber(nodes.Keys) + 1)
  {
  }

  lemma FreshName(nodes: map<string, string>, n: nat)
    requires Below(nodes, n)
    ensures NodeName(n) !in nodes && HasPrefix(NodeName(n), NODE_PREFIX)
  {
    NodeNumberOfName(n);
  }

  lemma ExtendedNothing(nodes: map<string, string>, ips: seq<string>, dataPath: string)
    ensures Extended(nodes, nodes, ips, dataPath)
  {
  }

  lemma ExtendedStep(before: map<string, string>, mid: map<string, string>, option: string, info: string,
                     ips: seq<string>, ip: string, dataPath: string)
    requires Extended(before, mid, ips, dataPath)
    requires option !in mid && Entries(mid[option := info]) == Entries(mid)[option := ip]
    ensures Extended(before, mid[option := info], ips + [ip], dataPath)
  {
  }

  ghost predicate Below(nodes: map<string, string>, n: nat) {
    forall o | o in nodes :: NodeNumber(o) < n
  }

  lemma {:induction false} AddManyNumbers(nodes: map<string, string>, n: nat, ips: seq<string>, dataPath: string)
    requires Below(nodes, n)
    ensures Below(AddEntries(nodes, n, ips, dataPath), n + |ips|)
  {
    if ips != [] {
      AddManyNumbers(nodes, n, ips[..|ips| - 1], dataPath);
      NodeNumberOfName(n + |ips| - 1);
    }
  }

  lemma {:induction false} AddMany(hosts: seq<string>, nodes: map<string, string>, n: nat, ips: seq<string>,
          dataPath: string)
    requires InStep(hosts, nodes, dataPath) && FreshFor(hosts, ips)
    requires Below(nodes, n)
    ensures var nodes' := AddEntries(nodes, n, ips, dataPath);
            && InStep(hosts + ips, nodes', dataPath)
            && Extended(nodes, nodes', ips, dataPath)
  {
    hide InStep, Below, Entries, Extended, NodeInfo, NodeName, HasPrefix, FreshFor;
    if ips == [] {
      assert hosts + ips == hosts;
      ExtendedNothing(nodes, ips, dataPath);
    } else {
      var k := |ips| - 1;
      var ip := ips[k];
      assert ips == ips[..k] + [ip];
      FreshPrefix(hosts, ips);
      var mid := AddEntries(nodes, n, ips[..k], dataPath);
      var option := NodeName(n + k);
      AddMany(hosts, nodes, n, ips[..k], dataPath);
      AddManyNumbers(nodes, n, ips[..k], dataPath);
      FreshName(mid, n + k);
      AddOne(hosts + ips[..k], mid, option, ip, dataPath);
      ExtendedStep(nodes, mid, option, NodeInfo(ip, dataPath), ips[..k], ip, dataPath);
      assert hosts + ips == hosts + ips[..k] + [ip];
    }
  }

  /** The hosts line grows by exactly the new addresses, in order. */
  lemma {:induction false} HostListExtended(line: string, ips: seq<string>)
    requires forall ip | ip in ips :: IsAddress(ip)
    ensures HostsOf(AppendHosts(line, ips)) == HostsOf(line) + ips
  {
    if ips == [] {
      assert HostsOf(line) + ips == HostsOf(line);
    } else {
      var k := |ips| - 1;
      HostListExtended(line, ips[..k]);
      HostListAppend(AppendHosts(line, ips[..k]), ips[k]);
      assert [ips[k]][..0] == [];
      assert AppendHosts(AppendHosts(line, ips[..k]), [ips[k]]) == AppendHosts(line, ips);
      assert ips == ips[..k] + [ips[k]];
    }
  }

  lemma {:induction false} NewIpsFresh(known: set<string>, ips: seq<string>)
    requires Distinct(ips)
    ensures Distinct(NewIps(known, ips))
    ensures forall ip :: ip in NewIps(known, ips) <==> ip in ips && ip !in known
  {
    if ips != [] {
      var k := |ips| - 1;
      NewIpsFresh(known, ips[..k]);
      assert ips == ips[..k] + [ips[k]];
    }
  }

  /** Every number AddHosts hands out names an option that is not in the file yet. */
  lemma NewNodesAreFresh(c: Conf, n: nat)
    requires n > HighestNumber(c.nodes.Keys)
    ensures NodeName(n) !in c.nodes
  {
    NodeNumberOfName(n);
  }

  /** AddHosts on distinct addresses keeps the file in step, appends exactly the new addresses
      in order and leaves every old option alone. */
  lemma AddKeepsSynced(c: Conf, ips: seq<string>, dataPath: string)
    requires Synced(c, dataPath)
    requires Distinct(ips) && forall ip | ip in ips :: IsAddress(ip)
    ensures var c' := WithHosts(c, ips, dataPath);
            var newcomers := NewIps(OldHosts(c), ips);
            && c'.hosts.Some?
            && Synced(c', dataPath)
            && HostList(c') == HostList(c) + newcomers
            && (forall ip :: ip in newcomers <==> ip in ips && ip !in HostList(c))
            && Extended(c.nodes, c'.nodes, newcomers, dataPath)
  {
    hide InStep, Below, Entries, Extended, AddEntries, AppendHosts, NodeNumber, HostsOf, FreshFor, OldHosts, NewIps;
    Newcomers(c, ips);
    HighestBelow(c.nodes);
    var newcomers := NewIps(OldHosts(c), ips);
    AddMany(HostList(c), c.nodes, HighestNumber(c.nodes.Keys) + 1, newcomers, dataPath);
    HostListExtended(HostLine(c), newcomers);
  }

  lemma Newcomers(c: Conf, ips: seq<string>)
    requires Distinct(ips) && forall ip | ip in ips :: IsAddress(ip)
    ensures var newcomers := NewIps(OldHosts(c), ips);
            && FreshFor(HostList(c), newcomers)
            && (forall ip | ip in newcomers :: IsAddress(ip))
            && (forall ip :: ip in newcomers <==> ip in ips && ip !in HostList(c))
  {
    assert forall ip | ip in ips :: ip in OldHosts(c) <==> ip in HostList(c);
    NewIpsFresh(OldHosts(c), ips);
  }

  // ---------------------------------------------------------------- removal

  /** Removing `x` touches only the entry of `x` itself: no other host ends in `x`, and neither
      does the data path that every entry repeats. */
  ghost predicate Separate(hosts: set<string>, x: string, dataPath: string) {
    forall h | h in hosts && h != x :: !HasSuffix(h, x) && !HasSuffix(dataPath, x)
  }

  lemma EntryMentions(c: Conf, o: string, x: string, dataPath: string)
    requires Synced(c, dataPath) && CommaFree(dataPath) && CommaFree(x)
    requires o in Entries(c.nodes)
    ensures Contains(c.nodes[o], x + ",") <==> HasSuffix(Entries(c.nodes)[o], x) || HasSuffix(dataPath, x)
  {
    HostsCommaFree(c);
    var h := Entries(c.nodes)[o];
    assert h in Entries(c.nodes).Values;
    ContainsField(h, dataPath, x);
  }

  /** removeNodes looks for a substring, so it deletes exactly the entry of `x` if and only if no
      other host, and not the data path, ends in `x`. */
  lemma RemoveNodesExact(c: Conf, x: string, dataPath: string)
    requires Synced(c, dataPath) && CommaFree(dataPath) && CommaFree(x)
    ensures (forall o | o in Entries(c.nodes) ::
               o !in WithoutEntries(c.nodes, [x]) <==> Entries(c.nodes)[o] == x)
       <==> Separate(Elements(HostList(c)), x, dataPath)
  {
    var e := Entries(c.nodes);
    forall o | o in e
      ensures o !in WithoutEntries(c.nodes, [x]) <==> HasSuffix(e[o], x) || HasSuffix(dataPath, x)
    {
      EntryMentions(c, o, x, dataPath);
      assert Mentions(c.nodes[o], [x]) <==> Contains(c.nodes[o], x + ",");
    }
    if Separate(Elements(HostList(c)), x, dataPath) {
      forall o | o in e
        ensures o !in WithoutEntries(c.nodes, [x]) <==> e[o] == x
      {
        assert e[o] in e.Values;
      }
    }
    if forall o | o in e :: o !in WithoutEntries(c.nodes, [x]) <==> e[o] == x {
      forall h | h in Elements(HostList(c)) && h != x
        ensures !HasSuffix(h, x) && !HasSuffix(dataPath, x)
      {
        assert h in e.Values;
        var o :| o in e && e[o] == h;
      }
    }
  }

  /** The smallest files on which that goes wrong: two hosts, one ending the other.  Removing the
      shorter address deletes both node entries and leaves the longer host without one. */
  lemma RemoveNodesSuffixClash(a: string, b: string, dataPath: string)
    requires CommaFree(dataPath) && IsAddress(a) && IsAddress(b) && a != b && HasSuffix(b, a)
    ensures var nodes := map[NodeName(1) := NodeInfo(a, dataPath), NodeName(2) := NodeInfo(b, dataPath)];
            && WithoutHosts(Conf(Some(a + "," + b), nodes), [a]) == Some(Conf(Some(b), map[]))
            && !Synced(Conf(Some(b), map[]), dataPath)
  {
    hide NodeName, NodeInfo, Contains, HasSuffix, Split, Join, DropEach;
    var nodes := map[NodeName(1) := NodeInfo(a, dataPath), NodeName(2) := NodeInfo(b, dataPath)];
    DropFirstOfTwo(a, b);
    InfoMentions(a, a, dataPath);
    InfoMentions(b, a, dataPath);
    assert a in [a];
    assert WithoutEntries(nodes, [a]) == map[];
    SplitFirst(a, b);
    SplitFirst(b, "");
    assert Split(a + "," + b) == [a, b];
    assert b in Elements([b]);
  }

  lemma DropFirstOfTwo(a: string, b: string)
    requires a != b
    ensures DropEach([a, b], [a]) == [b] && Join([b]) == b
    ensures HasSuffix(a, a)
  {
    assert [a][..0] == [] && [a, b][..1] == [a];
    assert DropLast([a, b], a) == DropLast([a], a) + [b];
  }

  /** Two IPv4 addresses of that kind. */
  lemma AddressesThatClash()
    ensures IsAddress("10.0.0.1") && IsAddress("110.0.0.1") && HasSuffix("110.0.0.1", "10.0.0.1")
  {
  }

  lemma InfoMentions(ip: string, x: string, dataPath: string)
    requires CommaFree(ip) && CommaFree(dataPath) && CommaFree(x) && HasSuffix(ip, x)
    ensures Contains(NodeInfo(ip, dataPath), x + ",")
  {
    ContainsField(ip, dataPath, x);
  }

  lemma {:induction false} DropLastAbsent(xs: seq<string>, x: string)
    requires x !in xs
    ensures DropLast(xs, x) == xs
  {
    if xs != [] {
      var n := |xs| - 1;
      DropLastAbsent(xs[..n], x);
      assert xs == xs[..n] + [xs[n]];
    }
  }

  lemma {:induction false} DropLastDistinct(xs: seq<string>, x: string)
    requires Distinct(xs)
    ensures Distinct(DropLast(xs, x))
    ensures Elements(DropLast(xs, x)) == Elements(xs) - {x}
  {
    if xs != [] {
      var n := |xs| - 1;
      DropLastDistinct(xs[..n], x);
      assert xs == xs[..n] + [xs[n]];
      var ys := DropLast(xs[..n], x);
      assert Elements(xs) == Elements(xs[..n]) + {xs[n]};
      if xs[n] != x {
        assert xs[n] !in Elements(ys);
        assert forall y | y in ys :: y in Elements(ys);
        assert Elements(ys + [xs[n]]) == Elements(ys) + {xs[n]};
      }
    }
  }

  lemma {:induction false} DropEachDistinct(xs: seq<string>, ips: seq<string>)
    requires Distinct(xs)
    ensures Distinct(DropEach(xs, ips))
    ensures Elements(DropEach(xs, ips)) == Elements(xs) - Elements(ips)
  {
    if ips != [] {
      var n := |ips| - 1;
      DropEachDistinct(xs, ips[..n]);
      DropLastDistinct(DropEach(xs, ips[..n]), ips[n]);
      assert ips == ips[..n] + [ips[n]];
    }
  }

  ghost predicate AllSeparate(c: Conf, ips: seq<string>, dataPath: string) {
    forall ip | ip in ips :: IsAddress(ip) && Separate(Elements(HostList(c)), ip, dataPath)
  }

  lemma HostsOfJoin(xs: seq<string>)
    requires forall x | x in xs :: IsAddress(x)
    ensures HostsOf(Join(xs)) == xs
  {
    if xs != [] {
      SplitJoin(xs);
      assert IsAddress(xs[0]);
    }
  }

  /** The hosts line after a removal lists exactly the hosts not removed. */
  lemma RemovedHostList(c: Conf, ips: seq<string>, dataPath: string)
    requires Synced(c, dataPath) && c.hosts.Some? && AllSeparate(c, ips, dataPath)
    ensures HostList(WithoutHosts(c, ips).value) == DropEach(HostList(c), ips)
    ensures Distinct(HostList(WithoutHosts(c, ips).value))
    ensures Elements(HostList(WithoutHosts(c, ips).value)) == Elements(HostList(c)) - Elements(ips)
  {
    HostsCommaFree(c);
    DropEachDistinct(HostList(c), ips);
    if HostLine(c) == "" {
      DropEmpty(ips);
      DropBlank(ips);
    } else {
      var left := DropEach(HostList(c), ips);
      forall x | x in left
        ensures IsAddress(x)
      {
        assert x in Elements(left);
      }
      HostsOfJoin(left);
    }
  }

  lemma {:induction false} DropEmpty(ips: seq<string>)
    ensures DropEach([], ips) == []
  {
    if ips != [] {
      DropEmpty(ips[..|ips| - 1]);
    }
  }

  lemma {:induction false} DropBlank(ips: seq<string>)
    requires "" !in ips
    ensures DropEach([""], ips) == [""]
  {
    if ips != [] {
      DropBlank(ips[..|ips| - 1]);
      DropLastAbsent([""], ips[|ips| - 1]);
    }
  }

  /** RemoveHosts keeps the file in step as long as the addresses are separate. */
  lemma RemoveKeepsSynced(c: Conf, ips: seq<string>, dataPath: string)
    requires Synced(c, dataPath) && c.hosts.Some? && CommaFree(dataPath)
    requires AllSeparate(c, ips, dataPath)
    ensures var c' := WithoutHosts(c, ips).value;
            && Synced(c', dataPath)
            && HostList(c') == DropEach(HostList(c), ips)
            && Elements(HostList(c')) == Elements(HostList(c)) - Elements(ips)
            && Entries(c'.nodes) == map o | o in Entries(c.nodes) && Entries(c.nodes)[o] !in ips :: Entries(c.nodes)[o]
  {
    hide Entries, HostsOf, DropEach, Mentions, Contains, NodeInfo, IsAddress, HasPrefix;
    var c' := WithoutHosts(c, ips).value;
    RemovedHostList(c, ips, dataPath);
    RemovedEntries(c, ips, dataPath);
    var e, e' := Entries(c.nodes), Entries(c'.nodes);
    assert e'.Values == e.Values - Elements(ips) by {
      forall h | h in e.Values && h !in Elements(ips)
        ensures h in e'.Values
      {
        var o :| o in e && e[o] == h;
        assert o in e' && e'[o] == h;
      }
    }
    assert "" !in Elements(HostList(c'));
    forall o | o in e'
      ensures o in c'.nodes && c'.nodes[o] == NodeInfo(e'[o], dataPath)
    {
      EntryKept(c.nodes, ips, o);
    }
  }

  lemma EntryKept(nodes: map<string, string>, ips: seq<string>, o: string)
    requires o in Entries(WithoutEntries(nodes, ips))
    ensures o in Entries(nodes) && o in nodes && o in WithoutEntries(nodes, ips)
    ensures WithoutEntries(nodes, ips)[o] == nodes[o]
  {
  }

  lemma RemovedEntries(c: Conf, ips: seq<string>, dataPath: string)
    requires Synced(c, dataPath) && CommaFree(dataPath) && AllSeparate(c, ips, dataPath)
    ensures Entries(WithoutEntries(c.nodes, ips))
         == map o | o in Entries(c.nodes) && Entries(c.nodes)[o] !in ips :: Entries(c.nodes)[o]
  {
    hide Split, Contains, NodeInfo, HasSuffix, HasPrefix;
    var e := Entries(c.nodes);
    forall o | o in e
      ensures Mentions(c.nodes[o], ips) <==> e[o] in ips
    {
      assert e[o] in e.Values;
      assert e[o] in Elements(HostList(c));
      forall ip | ip in ips
        ensures Contains(c.nodes[o], ip + ",") <==> e[o] == ip
      {
        EntryMentions(c, o, ip, dataPath);
        SelfSuffix(ip);
      }
    }
  }

  lemma SelfSuffix(x: string)
    ensures HasSuffix(x, x)
  {
  }

  // ---------------------------------------------------------------- undo, and whole histories

  lemma {:induction false} DropAppended(xs: seq<string>, ips: seq<string>, k: nat)
    requires Distinct(xs + ips) && k <= |ips|
    ensures DropEach(xs + ips, ips[..k]) == xs + ips[k..]
  {
    if k > 0 {
      DropAppended(xs, ips, k - 1);
      assert ips[..k][..k - 1] == ips[..k - 1];
      var ys := xs + ips[k - 1..];
      assert ys == xs + [ips[k - 1]] + ips[k..];
      assert ips[k - 1] !in ips[k..] by {
        forall i | k <= i < |ips|
          ensures ips[k - 1] != ips[i]
        {
          assert (xs + ips)[|xs| + k - 1] != (xs + ips)[|xs| + i];
        }
      }
      DropMiddle(xs, ips[k - 1], ips[k..]);
    } else {
      assert ips[0..] == ips;
    }
  }

  lemma {:induction false} DropMiddle(xs: seq<string>, x: string, ys: seq<string>)
    requires x !in ys
    ensures DropLast(xs + [x] + ys, x) == xs + ys
  {
    var all := xs + [x] + ys;
    if ys == [] {
      assert all[..|all| - 1] == xs;
    } else {
      var n := |ys| - 1;
      DropMiddle(xs, x, ys[..n]);
      assert all[..|all| - 1] == xs + [x] + ys[..n];
      assert ys == ys[..n] + [ys[n]];
    }
  }

  /** Options in [Nodes] that are not compat21 entries mention none of the addresses. */
  ghost predicate OthersSilent(c: Conf, ips: seq<string>) {
    forall o | o in c.nodes && !HasPrefix(o, NODE_PREFIX) :: !Mentions(c.nodes[o], ips)
  }

  /** Adding fresh hosts and then removing them restores the host list and the [Nodes] section. */
  lemma AddThenRemoveRestores(c: Conf, ips: seq<string>, dataPath: string)
    requires Synced(c, dataPath) && CommaFree(dataPath) && FreshFor(HostList(c), ips) && OthersSilent(c, ips)
    requires AllSeparate(WithHosts(c, ips, dataPath), ips, dataPath)
    ensures var r := WithoutHosts(WithHosts(c, ips, dataPath), ips);
            r.Some? && HostList(r.value) == HostList(c) && r.value.nodes == c.nodes
  {
    hide Split, Entries, NodeInfo, AddEntries, AppendHosts, NodeName, NodeNumber, HasPrefix, DropEach, WithoutEntries,
         HostsOf, OldHosts, Extended, Mentions, HighestNumber;
    AddKeepsSynced(c, ips, dataPath);
    var c1 := WithHosts(c, ips, dataPath);
    NothingOld(OldHosts(c), ips, c);
    assert HostList(c1) == HostList(c) + ips;
    RemoveKeepsSynced(c1, ips, dataPath);
    var c2 := WithoutHosts(c1, ips).value;
    DropAppended(HostList(c), ips, |ips|);
    assert ips[..|ips|] == ips && ips[|ips|..] == [];
    assert HostList(c2) == HostList(c) + [];
    var e := Entries(c.nodes);
    forall o | o in e
      ensures e[o] !in ips
    {
      assert e[o] in e.Values;
    }
    RestoredNodes(c.nodes, c1.nodes, c2.nodes, ips, dataPath);
  }

  lemma RestoredNodes(before: map<string, string>, after: map<string, string>, left: map<string, string>,
                      ips: seq<string>, dataPath: string)
    requires Extended(before, after, ips, dataPath)
    requires left == WithoutEntries(after, ips)
    requires Entries(left) == map o | o in Entries(after) && Entries(after)[o] !in ips :: Entries(after)[o]
    requires forall o | o in Entries(before) :: Entries(before)[o] !in ips
    requires forall o | o in before && !HasPrefix(o, NODE_PREFIX) :: !Mentions(before[o], ips)
    ensures left == before
  {
    hide Split, Mentions;
    forall o | o in after
      ensures o in left <==> o in before
    {
      if o in before && o in Entries(before) {
        assert Entries(after)[o] == Entries(before)[o];
        assert o in Entries(left);
      } else if o in before {
        assert after[o] == before[o];
      } else {
        assert o !in Entries(left);
        assert o in Entries(after) && HasPrefix(o, NODE_PREFIX);
      }
    }
  }

  lemma {:induction false} NothingOld(known: set<string>, ips: seq<string>, c: Conf)
    requires known == OldHosts(c) && FreshFor(HostList(c), ips)
    ensures NewIps(known, ips) == ips
  {
    if ips != [] {
      var n := |ips| - 1;
      assert forall ip | ip in ips[..n] :: ip in ips;
      NothingOld(known, ips[..n], c);
      assert ips == ips[..n] + [ips[n]];
      assert ips[n] in ips;
    }
  }

  datatype Op = Add(ips: seq<string>) | Remove(ips: seq<string>)

  ghost function Apply(c: Conf, op: Op, dataPath: string): Conf {
    match op
    case Add(ips) => WithHosts(c, ips, dataPath)
    case Remove(ips) =>
      match WithoutHosts(c, ips) {
        case Some(c') => c'
        case None => c
      }
  }

  ghost function History(c: Conf, ops: seq<Op>, dataPath: string): Conf {
    if ops == [] then c
    else Apply(History(c, ops[..|ops| - 1], dataPath), ops[|ops| - 1], dataPath)
  }

  /** A universe of addresses in which none ends another and none ends the data path. */
  ghost predicate SuffixFree(universe: set<string>, dataPath: string) {
    && CommaFree(dataPath)
    && forall x | x in universe :: IsAddress(x) && Separate(universe, x, dataPath)
  }

  ghost predicate ValidOp(op: Op, universe: set<string>) {
    && Elements(op.ips) <= universe
    && (op.Add? ==> Distinct(op.ips))
  }

  /** Over any history of additions and removals, from any file in which they are, hosts and node
      entries stay in bijection. */
  lemma {:induction false} HistorySynced(start: Conf, ops: seq<Op>, universe: set<string>, dataPath: string)
    requires SuffixFree(universe, dataPath)
    requires Synced(start, dataPath) && Elements(HostList(start)) <= universe
    requires forall op | op in ops :: ValidOp(op, universe)
    ensures Synced(History(start, ops, dataPath), dataPath)
    ensures Elements(HostList(History(start, ops, dataPath))) <= universe
  {
    if ops != [] {
      var n := |ops| - 1;
      var op := ops[n];
      assert op in ops;
      assert forall q | q in ops[..n] :: q in ops;
      HistorySynced(start, ops[..n], universe, dataPath);
      var c := History(start, ops[..n], dataPath);
      assert forall ip | ip in op.ips :: ip in Elements(op.ips);
      match op {
        case Add(ips) =>
          AddKeepsSynced(c, ips, dataPath);
        case Remove(ips) =>
          if c.hosts.Some? {
            RemoveKeepsSynced(c, ips, dataPath);
          }
      }
    }
  }
}
