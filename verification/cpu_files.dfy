/** What a gathered topology says of the host's files (cpu.cc). */
module CpuFiles {
  import opened Options
  import opened Numbering
  import opened CpuCanonical
  import opened SocketBuckets
  import opened CpuTopologies

  /** Every file of the CPU can be read, and it is among its siblings. */
  ghost predicate Readable(host: Host, cpu: int) {
    && host.number(PhysicalPackageId(cpu)).Some? && host.number(DieId(cpu)).Some? && host.number(CoreId(cpu)).Some?
    && host.list(ThreadSiblings(cpu)).Some? && cpu in host.list(ThreadSiblings(cpu)).value
  }

  /** The unit holds what the files of its CPU say; its thread id is its first place among its siblings. */
  ghost predicate FromFiles(host: Host, node: int, cpu: int, u: Lpu) {
    && u.cpuId == cpu && u.numaNodeId == node
    && host.number(PhysicalPackageId(cpu)) == Some(u.socketId)
    && host.number(DieId(cpu)) == Some(u.dieId)
    && host.number(CoreId(cpu)) == Some(u.coreId)
    && host.list(ThreadSiblings(cpu)).Some?
    && var siblings := host.list(ThreadSiblings(cpu)).value;
       u.threadId < |siblings| && siblings[u.threadId] == cpu && cpu !in siblings[..u.threadId]
  }

  /** The units are those of the first CPUs of the list, in order. */
  ghost predicate UnitsFrom(host: Host, node: int, cpus: seq<int>, units: seq<Lpu>) {
    |units| <= |cpus| && forall k | 0 <= k < |units| :: FromFiles(host, node, cpus[k], units[k])
  }

  /** What a failure reports is so. */
  ghost predicate Real(host: Host, failure: Failure) {
    match failure
    case Unreadable(PhysicalPackageId(cpu)) => host.number(PhysicalPackageId(cpu)) == None
    case Unreadable(DieId(cpu)) => host.number(DieId(cpu)) == None
    case Unreadable(CoreId(cpu)) => host.number(CoreId(cpu)) == None
    case Unreadable(file) => host.list(file) == None
    case NotItsOwnSibling(cpu) => host.list(ThreadSiblings(cpu)).Some? && cpu !in host.list(ThreadSiblings(cpu)).value
  }

  lemma {:induction false} LpuFromFiles(host: Host, cpu: int, node: int)
    ensures ReadLpu(host, cpu, node).Ok? <==> Readable(host, cpu)
    ensures ReadLpu(host, cpu, node).Ok? ==> FromFiles(host, node, cpu, ReadLpu(host, cpu, node).value)
    ensures ReadLpu(host, cpu, node).Err? ==> Real(host, ReadLpu(host, cpu, node).error)
  {
  }

  lemma {:induction false} LpusFromFiles(host: Host, node: int, cpus: seq<int>)
    ensures var (units, status) := ReadLpus(host, node, cpus);
            && UnitsFrom(host, node, cpus, units)
            && (status == None <==> forall cpu | cpu in cpus :: Readable(host, cpu))
            && (if status == None then |units| == |cpus| else Real(host, status.value))
  {
    if cpus != [] {
      var n := |cpus| - 1;
      LpusFromFiles(host, node, cpus[..n]);
      LpuFromFiles(host, cpus[n], node);
      assert cpus == cpus[..n] + [cpus[n]];
    }
  }

  /** The list of a node's CPUs, and each of their files, can be read. */
  ghost predicate NodeReadable(host: Host, node: int) {
    && host.list(NodeCpuList(node)).Some?
    && forall cpu | cpu in host.list(NodeCpuList(node)).value :: Readable(host, cpu)
  }

  /** The units of a node are those of all CPUs in its list. */
  ghost predicate NodeFrom(host: Host, node: int, units: seq<Lpu>) {
    && host.list(NodeCpuList(node)).Some?
    && |units| == |host.list(NodeCpuList(node)).value|
    && UnitsFrom(host, node, host.list(NodeCpuList(node)).value, units)
  }

  lemma {:induction false} NodeFromFiles(host: Host, node: int)
    ensures ReadNode(host, node).1 == None <==> NodeReadable(host, node)
    ensures ReadNode(host, node).1 == None ==> NodeFrom(host, node, ReadNode(host, node).0)
    ensures ReadNode(host, node).1.Some? ==> Real(host, ReadNode(host, node).1.value)
  {
    if host.list(NodeCpuList(node)).Some? { LpusFromFiles(host, node, host.list(NodeCpuList(node)).value); }
  }

  lemma {:induction false} NodesFromFiles(host: Host, ids: seq<int>)
    ensures var (nodes, status) := ReadNodes(host, ids);
            && |nodes| <= |ids| && (forall i | 0 <= i < |nodes| :: NodeFrom(host, ids[i], nodes[i]))
            && (status == None <==> forall node | node in ids :: NodeReadable(host, node))
            && (if status == None then |nodes| == |ids| else Real(host, status.value))
  {
    if ids != [] {
      var n := |ids| - 1;
      NodesFromFiles(host, ids[..n]);
      NodeFromFiles(host, ids[n]);
      assert ids == ids[..n] + [ids[n]];
    }
  }

  ghost predicate HostReadable(host: Host) {
    host.list(NodesOnline).Some? && forall node | node in host.list(NodesOnline).value :: NodeReadable(host, node)
  }

  /** Gathering succeeds exactly when all the files that it needs can be read and every CPU is among its siblings;
      otherwise it reports one that is not so.
      The nodes it reads are the first online nodes, all of them when it succeeds, and each holds the units of all
      CPUs in its list, in order, with what their files say. */
  lemma {:induction false} TopologyFromFiles(host: Host)
    ensures var (nodes, status) := ReadTopology(host);
            && (status == None <==> HostReadable(host)) && (status.Some? ==> Real(host, status.value))
            && (nodes != [] || status == None ==> host.list(NodesOnline).Some?)
            && (host.list(NodesOnline).Some? ==>
                  var ids := host.list(NodesOnline).value;
                  && |nodes| <= |ids| && (status == None ==> |nodes| == |ids|)
                  && forall i | 0 <= i < |nodes| :: NodeFrom(host, ids[i], nodes[i]))
  {
    if host.list(NodesOnline).Some? { NodesFromFiles(host, host.list(NodesOnline).value); }
  }

  // ---- The CPUs in the lists of the online nodes ----

  function ListedCpus(host: Host, ids: seq<int>): seq<int> {
    if ids == [] then [] else
    var last := host.list(NodeCpuList(ids[|ids| - 1]));
    ListedCpus(host, ids[..|ids| - 1]) + if last.Some? then last.value else []
  }

  /** All listed CPUs of the host, node by node. */
  function Cpus(host: Host): seq<int> {
    if host.list(NodesOnline).Some? then ListedCpus(host, host.list(NodesOnline).value) else []
  }

  /** Unit by unit, CPU numbers and raw socket ids. */
  ghost predicate InStep(host: Host, cpus: seq<int>, units: seq<Lpu>) {
    && |units| == |cpus|
    && forall k | 0 <= k < |cpus| ::
         units[k].cpuId == cpus[k] && host.number(PhysicalPackageId(cpus[k])) == Some(units[k].socketId)
  }

  lemma {:induction false} UnitsInStep(host: Host, ids: seq<int>, nodes: seq<seq<Lpu>>)
    requires |nodes| == |ids| && forall i | 0 <= i < |nodes| :: NodeFrom(host, ids[i], nodes[i])
    ensures InStep(host, ListedCpus(host, ids), Flat(nodes))
  {
    if ids != [] {
      var n := |ids| - 1;
      UnitsInStep(host, ids[..n], nodes[..n]);
      assert NodeFrom(host, ids[n], nodes[n]);
    }
  }

  lemma {:induction false} ReadInStep(host: Host)
    requires ReadTopology(host).1 == None
    ensures InStep(host, Cpus(host), Flat(ReadTopology(host).0))
  {
    TopologyFromFiles(host);
    UnitsInStep(host, host.list(NodesOnline).value, ReadTopology(host).0);
  }

  // ---- Sockets ----

  lemma {:induction false} CpusOfHolds(units: seq<Lpu>, socket: int, cpu: int)
    ensures cpu in CpusOf(units, socket) <==>
            exists k :: 0 <= k < |units| && units[k].cpuId == cpu && units[k].socketId == socket
  {
    if units != [] {
      var n := |units| - 1;
      CpusOfHolds(units[..n], socket, cpu);
      if k :| 0 <= k < |units| && units[k].cpuId == cpu && units[k].socketId == socket && k < n {
        assert units[..n][k].cpuId == cpu;
      }
    }
  }

  predicate InBucket(topology: CpuTopology, s: int, cpu: int)
    reads topology
  {
    s in topology.socketLpus && cpu in topology.socketLpus[s]
  }

  /** The number of a CPU's package. */
  function PackageNumber(host: Host, raw: seq<int>, cpu: int): int {
    var package := host.number(PhysicalPackageId(cpu));
    if package.Some? then Number(raw, package.value) else -1
  }

  /** Unit by unit, CPU numbers and the numbers of their packages. */
  ghost predicate Renamed(host: Host, raw: seq<int>, cpus: seq<int>, units: seq<Lpu>) {
    && |units| == |cpus|
    && forall k | 0 <= k < |cpus| ::
         units[k].cpuId == cpus[k] && units[k].socketId == PackageNumber(host, raw, cpus[k])
  }

  lemma {:induction false} GatheredRenamed(host: Host)
    requires ReadTopology(host).1 == None
    ensures var nodes := ReadTopology(host).0; Renamed(host, RawSockets(nodes), Cpus(host), Flat(Canonical(nodes)))
  {
    var nodes := ReadTopology(host).0;
    ReadInStep(host);
    RenumberedSockets(nodes, RawSockets(nodes), Canonical(nodes));
    CanonicalSameShape(nodes);
    FlatSameButLabels(Canonical(nodes), nodes);
  }

  /** A CPU is in the bucket of its package. */
  lemma {:induction false} RenamedBuckets(host: Host, raw: seq<int>, cpus: seq<int>, units: seq<Lpu>,
                                          buckets: map<int, seq<int>>, s: int, cpu: int)
    requires Renamed(host, raw, cpus, units) && Bucketed(buckets, units)
    ensures s in buckets && cpu in buckets[s] <==> cpu in cpus && s == PackageNumber(host, raw, cpu)
  {
    CpusOfHolds(units, s, cpu);
    assert forall k | 0 <= k < |units| :: SocketIds(units)[k] == units[k].socketId;
    if cpu in cpus && s == PackageNumber(host, raw, cpu) {
      var k :| 0 <= k < |cpus| && cpus[k] == cpu;
      assert units[k].cpuId == cpu && SocketIds(units)[k] == s;
    }
  }

  lemma {:induction false} PackageBucket(host: Host, topology: CpuTopology, s: int, cpu: int)
    requires topology.Valid() && topology.GatheredFrom(host)
    ensures InBucket(topology, s, cpu) <==>
            cpu in Cpus(host) && s == PackageNumber(host, RawSockets(ReadTopology(host).0), cpu)
  {
    GatheredRenamed(host);
    RenamedBuckets(host, RawSockets(ReadTopology(host).0), Cpus(host), Flat(Canonical(ReadTopology(host).0)),
                   topology.socketLpus, s, cpu);
  }

  /** The buckets of a gathered topology hold exactly the listed CPUs, and two of them share a bucket exactly when
      their files give the same package id. */
  lemma {:induction false} BucketsArePackages(host: Host, topology: CpuTopology, a: int, b: int)
    requires topology.Valid() && topology.GatheredFrom(host)
    ensures a in Cpus(host) <==> exists s :: InBucket(topology, s, a)
    ensures a in Cpus(host) && b in Cpus(host) ==>
              ((exists s :: InBucket(topology, s, a) && InBucket(topology, s, b)) <==>
               host.number(PhysicalPackageId(a)) == host.number(PhysicalPackageId(b)))
  {
    var raw := RawSockets(ReadTopology(host).0);
    forall s
      ensures InBucket(topology, s, a) ==> a in Cpus(host)
      ensures a in Cpus(host) && b in Cpus(host) ==>
                (InBucket(topology, s, a) && InBucket(topology, s, b) <==>
                 s == PackageNumber(host, raw, a) == PackageNumber(host, raw, b))
    {
      PackageBucket(host, topology, s, a);
      PackageBucket(host, topology, s, b);
    }
    if a in Cpus(host) {
      PackageBucket(host, topology, PackageNumber(host, raw, a), a);
      if b in Cpus(host) { SamePackageNumber(host, a, b); }
    }
  }

  lemma {:induction false} SamePackageNumber(host: Host, a: int, b: int)
    requires ReadTopology(host).1 == None && a in Cpus(host) && b in Cpus(host)
    ensures var raw := RawSockets(ReadTopology(host).0);
            PackageNumber(host, raw, a) == PackageNumber(host, raw, b) <==>
            host.number(PhysicalPackageId(a)) == host.number(PhysicalPackageId(b))
  {
    RawPackage(host, a);
    RawPackage(host, b);
    NumbersApart(RawSockets(ReadTopology(host).0), host.number(PhysicalPackageId(a)).value,
                 host.number(PhysicalPackageId(b)).value);
  }

  lemma {:induction false} RawPackage(host: Host, cpu: int)
    requires ReadTopology(host).1 == None && cpu in Cpus(host)
    ensures host.number(PhysicalPackageId(cpu)).Some?
    ensures host.number(PhysicalPackageId(cpu)).value in RawSockets(ReadTopology(host).0)
  {
    ReadInStep(host);
    var k :| 0 <= k < |Cpus(host)| && Cpus(host)[k] == cpu;
    assert RawSockets(ReadTopology(host).0)[k] == Flat(ReadTopology(host).0)[k].socketId;
  }

  /** A unit of a gathered topology: CPU, node, die and thread are what the files say; its socket and core ids are
      renumbered. */
  lemma {:induction false} GatheredUnit(host: Host, topology: CpuTopology, i: nat, k: nat)
    requires topology.Valid() && topology.GatheredFrom(host)
    requires i < |topology.numaNodes| && k < |topology.numaNodes[i].lpus|
    ensures host.list(NodesOnline).Some? && |topology.numaNodes| == |host.list(NodesOnline).value|
    ensures var node, u := host.list(NodesOnline).value[i], topology.numaNodes[i].lpus[k];
            && host.list(NodeCpuList(node)).Some?
            && |topology.numaNodes[i].lpus| == |host.list(NodeCpuList(node)).value|
            && u.cpuId == host.list(NodeCpuList(node)).value[k] && u.numaNodeId == node
            && host.number(DieId(u.cpuId)) == Some(u.dieId)
            && host.list(ThreadSiblings(u.cpuId)).Some?
            && u.threadId < |host.list(ThreadSiblings(u.cpuId)).value|
            && host.list(ThreadSiblings(u.cpuId)).value[u.threadId] == u.cpuId
            && u.cpuId !in host.list(ThreadSiblings(u.cpuId)).value[..u.threadId]
  {
    var nodes := ReadTopology(host).0;
    TopologyFromFiles(host);
    CanonicalSameShape(nodes);
    assert topology.Lpus()[i] == topology.numaNodes[i].lpus;
    assert NodeFrom(host, host.list(NodesOnline).value[i], nodes[i]);
    assert SameButLabels(Canonical(nodes)[i][k], nodes[i][k]);
  }
}
