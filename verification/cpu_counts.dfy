/** The counts of a gathered topology conserve what was read (cpu.h, cpu.cc). */
module CpuCounts {
  import opened Options
  import opened FiniteSets
  import opened Numbering
  import opened CpuCanonical
  import opened SocketBuckets
  import opened CpuTopologies
  import opened CpuFiles

  /** The different raw package ids. */
  function Packages(nodes: seq<seq<Lpu>>): set<int> { set s | s in RawSockets(nodes) }

  /** The total size of the buckets 0 .. n-1. */
  function SizeSum(lpus: seq<Lpu>, n: nat): nat {
    if n == 0 then 0 else SizeSum(lpus, n - 1) + |CpusOf(lpus, n - 1)|
  }

  lemma {:induction false} SizeSumExtend(lpus: seq<Lpu>, lpu: Lpu, n: nat)
    requires 0 <= lpu.socketId
    ensures SizeSum(lpus + [lpu], n) == SizeSum(lpus, n) + if lpu.socketId < n then 1 else 0
  {
    if n > 0 {
      SizeSumExtend(lpus, lpu, n - 1);
      assert (lpus + [lpu])[..|lpus|] == lpus;
    }
  }

  lemma {:induction false} SizeSumEmpty(n: nat)
    ensures SizeSum([], n) == 0
  {
    if n > 0 { SizeSumEmpty(n - 1); }
  }

  /** Every unit is in exactly one bucket. */
  lemma {:induction false} SizesSumToAll(lpus: seq<Lpu>, n: nat)
    requires forall k | 0 <= k < |lpus| :: 0 <= lpus[k].socketId < n
    ensures SizeSum(lpus, n) == |lpus|
  {
    if lpus == [] {
      SizeSumEmpty(n);
    } else {
      var front, last := lpus[..|lpus| - 1], lpus[|lpus| - 1];
      assert lpus == front + [last];
      SizesSumToAll(front, n);
      SizeSumExtend(front, last, n);
    }
  }

  lemma {:induction false} SumAtMost(lpus: seq<Lpu>, n: nat, maximum: nat)
    requires forall s | 0 <= s < n :: |CpusOf(lpus, s)| <= maximum
    ensures SizeSum(lpus, n) <= n * maximum
  {
    if n > 0 { SumAtMost(lpus, n - 1, maximum); }
  }

  lemma FirstsCountSet(ids: seq<int>)
    ensures |set x | x in ids| == |Firsts(ids)|
  {
    var firsts := Firsts(ids);
    FirstsDistinct(ids);
    forall x ensures x in firsts <==> x in ids { FirstsSame(ids, x); }
    var positions := Below(|firsts|);
    var ids' := set x | x in ids;
    assert ids' == set i | i in positions :: firsts[i] by {
      forall x | x in ids' ensures x in set i | i in positions :: firsts[i] {
        var i :| 0 <= i < |firsts| && firsts[i] == x;
        assert i in positions;
      }
    }
    InjectiveImageSize(positions, i requires 0 <= i < |firsts| => firsts[i], ids');
  }

  /** The sockets after normalisation are 0 .. n-1, where n is the number of different raw package ids. */
  lemma CanonicalSockets(nodes: seq<seq<Lpu>>)
    ensures forall s :: s in RawSockets(Canonical(nodes)) <==> 0 <= s < |Packages(nodes)|
  {
    CanonicalIsDense(nodes);
    FirstsCountSet(RawSockets(nodes));
    var n := |Firsts(RawSockets(nodes))|;
    forall s ensures s in RawSockets(Canonical(nodes)) <==> 0 <= s < n {
      FirstsSame(RawSockets(Canonical(nodes)), s);
      if 0 <= s < n { assert UpTo(n)[s] == s; }
    }
  }

  lemma KeysBelow(buckets: map<int, seq<int>>, n: nat)
    requires forall s :: s in buckets <==> 0 <= s < n
    ensures |buckets| == n
  {
    var image := set i | i in Below(n) :: i as int;
    forall s ensures s in buckets <==> s in image {
      if 0 <= s < n { assert s in Below(n); }
    }
    assert buckets.Keys == image;
    InjectiveImageSize(Below(n), (i: nat) => i as int, image);
  }

  lemma {:induction false} CanonicalFlatSize(nodes: seq<seq<Lpu>>, after: seq<seq<Lpu>>)
    requires |after| == |nodes| && forall i | 0 <= i < |nodes| :: |after[i]| == |nodes[i]|
    ensures |Flat(after)| == |Flat(nodes)|
  {
    if nodes != [] { CanonicalFlatSize(nodes[..|nodes| - 1], after[..|nodes| - 1]); }
  }

  /** Whatever was read: sockets are counted by their different package ids, the bucket sizes add up to the
      logical count, and the largest bucket times the sockets covers it. */
  lemma {:induction false} CountsConserve(nodes: seq<seq<Lpu>>, buckets: map<int, seq<int>>, maximum: int)
    requires Bucketed(buckets, Flat(Canonical(nodes)))
    requires forall s | s in buckets :: |buckets[s]| <= maximum
    ensures forall s :: s in buckets <==> 0 <= s < |Packages(nodes)|
    ensures |buckets| == |Packages(nodes)|
    ensures SizeSum(Flat(Canonical(nodes)), |buckets|) == |Flat(nodes)|
    ensures forall s | s in buckets :: buckets[s] == CpusOf(Flat(Canonical(nodes)), s)
    ensures |buckets| * maximum >= |Flat(nodes)|
  {
    var lpus, n := Flat(Canonical(nodes)), |Packages(nodes)|;
    CanonicalSockets(nodes);
    forall s ensures s in buckets <==> 0 <= s < n {
      assert s in buckets <==> s in RawSockets(Canonical(nodes));
    }
    KeysBelow(buckets, n);
    CanonicalFlatSize(nodes, Canonical(nodes));
    forall k | 0 <= k < |lpus| ensures 0 <= lpus[k].socketId < n { assert SocketIds(lpus)[k] in SocketIds(lpus); }
    SizesSumToAll(lpus, n);
    if n == 0 { return; }
    assert 0 in buckets;
    SumAtMost(lpus, n, maximum);
  }

  // ---- Physical cores ----

  /** The unit is what its files say. */
  predicate ReadFrom(host: Host, lpu: Lpu) { ReadLpu(host, lpu.cpuId, lpu.numaNodeId) == Ok(lpu) }

  lemma {:induction false} LpusReadFrom(host: Host, node: int, cpus: seq<int>)
    ensures forall lpu | lpu in ReadLpus(host, node, cpus).0 :: ReadFrom(host, lpu)
  {
    if cpus != [] { LpusReadFrom(host, node, cpus[..|cpus| - 1]); }
  }

  lemma {:induction false} NodesReadFrom(host: Host, ids: seq<int>)
    ensures forall lpu | lpu in Flat(ReadNodes(host, ids).0) :: ReadFrom(host, lpu)
  {
    if ids != [] {
      var n := |ids| - 1;
      NodesReadFrom(host, ids[..n]);
      var before := ReadNodes(host, ids[..n]).0;
      var (lpus, failure) := ReadNode(host, ids[n]);
      FlatExtend(before, lpus);
      if host.list(NodeCpuList(ids[n])).Some? { LpusReadFrom(host, ids[n], host.list(NodeCpuList(ids[n])).value); }
    }
  }

  /** The list of siblings of a gathered unit. */
  function Siblings(host: Host, lpu: Lpu): seq<int> {
    var list := host.list(ThreadSiblings(lpu.cpuId));
    if list.Some? then list.value else []
  }

  predicate Gathered(lpus: seq<Lpu>, cpu: int) { exists k :: 0 <= k < |lpus| && lpus[k].cpuId == cpu }

  /** No CPU is gathered twice, and the sibling lists partition the gathered CPUs. */
  ghost predicate SiblingsPartition(host: Host, lpus: seq<Lpu>) {
    && (forall j, k | 0 <= j < k < |lpus| :: lpus[j].cpuId != lpus[k].cpuId)
    && (forall lpu | lpu in lpus :: forall cpu | cpu in Siblings(host, lpu) ::
          Gathered(lpus, cpu) && host.list(ThreadSiblings(cpu)) == host.list(ThreadSiblings(lpu.cpuId)))
  }

  /** The units with thread id 0, as a set. */
  function Leaders(lpus: seq<Lpu>): set<Lpu> { set lpu | lpu in lpus && lpu.threadId == 0 }

  function Groups(host: Host, lpus: seq<Lpu>): set<seq<int>> { set lpu | lpu in lpus :: Siblings(host, lpu) }

  lemma {:induction false} FirstThreadsAreLeaders(lpus: seq<Lpu>)
    requires forall j, k | 0 <= j < k < |lpus| :: lpus[j].cpuId != lpus[k].cpuId
    ensures FirstThreads(lpus) == |Leaders(lpus)|
  {
    if lpus == [] {
      assert Leaders(lpus) == {};
    } else {
      var front, last := lpus[..|lpus| - 1], lpus[|lpus| - 1];
      FirstThreadsAreLeaders(front);
      assert lpus == front + [last] && last !in front;
      LeadersExtend(front, last);
    }
  }

  lemma LeadersExtend(lpus: seq<Lpu>, last: Lpu)
    ensures Leaders(lpus + [last]) == if last.threadId == 0 then Leaders(lpus) + {last} else Leaders(lpus)
  {
    forall lpu ensures lpu in lpus + [last] <==> lpu in lpus || lpu == last {}
  }

  lemma LeaderOfGroup(host: Host, lpus: seq<Lpu>, lpu: Lpu) returns (leader: Lpu)
    requires SiblingsPartition(host, lpus) && (forall l | l in lpus :: ReadFrom(host, l)) && lpu in lpus
    ensures leader in Leaders(lpus) && Siblings(host, leader) == Siblings(host, lpu)
  {
    var siblings := Siblings(host, lpu);
    assert ReadFrom(host, lpu) && siblings[0] in siblings;
    assert Gathered(lpus, siblings[0]);
    var k :| 0 <= k < |lpus| && lpus[k].cpuId == siblings[0];
    leader := lpus[k];
    assert ReadFrom(host, leader);
  }

  lemma OneLeaderPerGroup(host: Host, lpus: seq<Lpu>, a: Lpu, b: Lpu)
    requires SiblingsPartition(host, lpus) && (forall l | l in lpus :: ReadFrom(host, l))
    requires a in Leaders(lpus) && b in Leaders(lpus) && Siblings(host, a) == Siblings(host, b)
    ensures a == b
  {
    assert ReadFrom(host, a) && ReadFrom(host, b);
    assert a.cpuId == Siblings(host, a)[0] && b.cpuId == Siblings(host, b)[0];
    var j, k :| 0 <= j < |lpus| && lpus[j] == a && 0 <= k < |lpus| && lpus[k] == b;
  }

  /** When the sibling lists partition the gathered CPUs, the physical core count is the number of groups. */
  lemma PhysicalCoresAreGroups(host: Host, lpus: seq<Lpu>)
    requires SiblingsPartition(host, lpus) && forall l | l in lpus :: ReadFrom(host, l)
    ensures FirstThreads(lpus) == |Groups(host, lpus)|
  {
    FirstThreadsAreLeaders(lpus);
    var leaders, groups := Leaders(lpus), Groups(host, lpus);
    forall a, b | a in leaders && b in leaders && Siblings(host, a) == Siblings(host, b) ensures a == b {
      OneLeaderPerGroup(host, lpus, a, b);
    }
    var image := set l | l in leaders :: Siblings(host, l);
    forall g | g in groups ensures g in image {
      var lpu :| lpu in lpus && Siblings(host, lpu) == g;
      var leader := LeaderOfGroup(host, lpus, lpu);
    }
    assert groups == image;
    InjectiveImageSize(leaders, l => Siblings(host, l), groups);
  }

  /** The same for a whole gathered topology, whose normalisation does not touch thread ids. */
  lemma GatheredPhysicalCores(host: Host)
    requires SiblingsPartition(host, Flat(ReadTopology(host).0))
    ensures FirstThreads(Flat(Canonical(ReadTopology(host).0))) == |Groups(host, Flat(ReadTopology(host).0))|
  {
    var nodes := ReadTopology(host).0;
    if host.list(NodesOnline).Some? { NodesReadFrom(host, host.list(NodesOnline).value); }
    PhysicalCoresAreGroups(host, Flat(nodes));
    CanonicalFirstThreads(nodes, Canonical(nodes));
  }

  lemma {:induction false} CanonicalFirstThreads(nodes: seq<seq<Lpu>>, after: seq<seq<Lpu>>)
    requires |after| == |nodes| && forall i | 0 <= i < |nodes| :: |after[i]| == |nodes[i]|
    requires forall i, k | 0 <= i < |nodes| && 0 <= k < |nodes[i]| :: after[i][k].threadId == nodes[i][k].threadId
    ensures FirstThreads(Flat(after)) == FirstThreads(Flat(nodes))
  {
    if nodes != [] {
      var n := |nodes| - 1;
      CanonicalFirstThreads(nodes[..n], after[..n]);
      SameThreadsSameCount(after[n], nodes[n]);
      FirstThreadsConcat(Flat(after[..n]), after[n]);
      FirstThreadsConcat(Flat(nodes[..n]), nodes[n]);
    }
  }

  lemma {:induction false} FirstThreadsAtMost(lpus: seq<Lpu>)
    ensures FirstThreads(lpus) <= |lpus|
  {
    if lpus != [] { FirstThreadsAtMost(lpus[..|lpus| - 1]); }
  }

  // ---- The same, told by the host's files alone ----

  lemma {:induction false} SomeOfEach<T(!new)>(s: set<T>, image: set<Option<T>>)
    requires forall x :: x in image <==> x.Some? && x.value in s
    ensures |image| == |s|
    decreases |s|
  {
    if s == {} {
      assert image == {};
    } else {
      var x :| x in s;
      SomeOfEach(s - {x}, image - {Some(x)});
    }
  }

  /** The different package ids of the listed CPUs. */
  function PackageIds(host: Host): set<Option<int>> { set cpu | cpu in Cpus(host) :: host.number(PhysicalPackageId(cpu)) }

  lemma {:induction false} PackagesOnHost(host: Host)
    requires ReadTopology(host).1 == None
    ensures |PackageIds(host)| == |Packages(ReadTopology(host).0)|
  {
    var raw, ids := Packages(ReadTopology(host).0), PackageIds(host);
    var units, cpus := Flat(ReadTopology(host).0), Cpus(host);
    ReadInStep(host);
    assert forall k | 0 <= k < |units| :: SocketIds(units)[k] == units[k].socketId;
    forall x ensures x in ids <==> x.Some? && x.value in raw {
      if x.Some? && x.value in raw {
        var k :| 0 <= k < |units| && SocketIds(units)[k] == x.value;
        assert cpus[k] in cpus && host.number(PhysicalPackageId(cpus[k])) == x;
      }
    }
    SomeOfEach(raw, ids);
  }

  /** How many listed CPUs come first in their own list of siblings. */
  function FirstSiblings(host: Host, cpus: seq<int>): nat {
    if cpus == [] then 0 else
    var cpu := cpus[|cpus| - 1];
    var siblings := host.list(ThreadSiblings(cpu));
    FirstSiblings(host, cpus[..|cpus| - 1]) +
    if siblings.Some? && siblings.value != [] && siblings.value[0] == cpu then 1 else 0
  }

  ghost predicate UnitOf(host: Host, cpu: int, u: Lpu) { exists node :: FromFiles(host, node, cpu, u) }

  lemma {:induction false} FirstThreadsOnHost(host: Host, cpus: seq<int>, units: seq<Lpu>)
    requires |units| == |cpus| && forall k | 0 <= k < |units| :: UnitOf(host, cpus[k], units[k])
    ensures FirstThreads(units) == FirstSiblings(host, cpus)
  {
    if units != [] {
      var n := |units| - 1;
      FirstThreadsOnHost(host, cpus[..n], units[..n]);
      var node :| FromFiles(host, node, cpus[n], units[n]);
      var siblings := host.list(ThreadSiblings(cpus[n])).value;
      assert units[n].threadId > 0 ==> siblings[..units[n].threadId][0] == siblings[0];
    }
  }

  lemma {:induction false} FlatFromFiles(host: Host, ids: seq<int>, nodes: seq<seq<Lpu>>)
    requires |nodes| == |ids| && forall i | 0 <= i < |nodes| :: NodeFrom(host, ids[i], nodes[i])
    ensures |Flat(nodes)| == |ListedCpus(host, ids)|
    ensures forall k | 0 <= k < |Flat(nodes)| :: UnitOf(host, ListedCpus(host, ids)[k], Flat(nodes)[k])
  {
    if ids != [] {
      var n := |ids| - 1;
      FlatFromFiles(host, ids[..n], nodes[..n]);
      assert NodeFrom(host, ids[n], nodes[n]);
      var before := ListedCpus(host, ids[..n]);
      forall k | 0 <= k < |Flat(nodes)|
        ensures UnitOf(host, ListedCpus(host, ids)[k], Flat(nodes)[k])
      {
        if k >= |before| { assert FromFiles(host, ids[n], ListedCpus(host, ids)[k], Flat(nodes)[k]); }
      }
    }
  }

  lemma {:induction false} ReadFromHost(host: Host)
    requires ReadTopology(host).1 == None
    ensures var units := Flat(ReadTopology(host).0);
            |units| == |Cpus(host)| && FirstThreads(units) == FirstSiblings(host, Cpus(host))
  {
    TopologyFromFiles(host);
    FlatFromFiles(host, host.list(NodesOnline).value, ReadTopology(host).0);
    FirstThreadsOnHost(host, Cpus(host), Flat(ReadTopology(host).0));
  }

  /** No CPU is listed twice, and the lists of siblings partition the listed CPUs. */
  ghost predicate SiblingsAgree(host: Host) {
    && (forall j, k | 0 <= j < k < |Cpus(host)| :: Cpus(host)[j] != Cpus(host)[k])
    && forall cpu | cpu in Cpus(host) && host.list(ThreadSiblings(cpu)).Some? ::
         forall other | other in host.list(ThreadSiblings(cpu)).value ::
           other in Cpus(host) && host.list(ThreadSiblings(other)) == host.list(ThreadSiblings(cpu))
  }

  function SiblingLists(host: Host): set<Option<seq<int>>> { set cpu | cpu in Cpus(host) :: host.list(ThreadSiblings(cpu)) }

  lemma {:induction false} UnitsReadable(host: Host, units: seq<Lpu>, cpus: seq<int>)
    requires |units| == |cpus| && forall k | 0 <= k < |units| :: UnitOf(host, cpus[k], units[k])
    ensures forall unit | unit in units :: unit.cpuId in cpus && host.list(ThreadSiblings(unit.cpuId)).Some?
    ensures forall k | 0 <= k < |units| :: units[k].cpuId == cpus[k]
  {
    forall unit | unit in units ensures unit.cpuId in cpus && host.list(ThreadSiblings(unit.cpuId)).Some? {
      var k :| 0 <= k < |units| && units[k] == unit;
      assert UnitOf(host, cpus[k], units[k]);
    }
  }

  lemma {:induction false} PartitionOnHost(host: Host, units: seq<Lpu>)
    requires SiblingsAgree(host)
    requires |units| == |Cpus(host)| && forall k | 0 <= k < |units| :: units[k].cpuId == Cpus(host)[k]
    requires forall unit | unit in units :: unit.cpuId in Cpus(host)
    ensures SiblingsPartition(host, units)
  {
    forall cpu | cpu in Cpus(host) ensures Gathered(units, cpu) {
      var k :| 0 <= k < |Cpus(host)| && Cpus(host)[k] == cpu;
      assert units[k].cpuId == cpu;
    }
  }

  lemma {:induction false} SiblingsOnHost(host: Host)
    requires ReadTopology(host).1 == None && SiblingsAgree(host)
    ensures SiblingsPartition(host, Flat(ReadTopology(host).0))
    ensures |Groups(host, Flat(ReadTopology(host).0))| == |SiblingLists(host)|
  {
    var units := Flat(ReadTopology(host).0);
    TopologyFromFiles(host);
    FlatFromFiles(host, host.list(NodesOnline).value, ReadTopology(host).0);
    UnitsReadable(host, units, Cpus(host));
    PartitionOnHost(host, units);
    SameGroups(host, units, Cpus(host));
  }

  lemma {:induction false} SameGroups(host: Host, units: seq<Lpu>, cpus: seq<int>)
    requires |units| == |cpus| && forall k | 0 <= k < |cpus| :: units[k].cpuId == cpus[k]
    requires forall unit | unit in units :: host.list(ThreadSiblings(unit.cpuId)).Some?
    requires cpus == Cpus(host)
    ensures |Groups(host, units)| == |SiblingLists(host)|
  {
    var groups, lists := Groups(host, units), SiblingLists(host);
    forall x ensures x in lists <==> x.Some? && x.value in groups {
      if x in lists {
        var cpu :| cpu in cpus && host.list(ThreadSiblings(cpu)) == x;
        var k :| 0 <= k < |cpus| && cpus[k] == cpu;
        assert units[k] in units;
      }
      if x.Some? && x.value in groups {
        var unit :| unit in units && Siblings(host, unit) == x.value;
        var k :| 0 <= k < |units| && units[k] == unit;
        assert cpus[k] in cpus;
      }
    }
    SomeOfEach(groups, lists);
  }

  /** What the counts of a gathered topology say of the host's files: sockets are the different package ids of the
      listed CPUs, logical cores all listed CPUs, which the sockets at the largest occupancy cover, and physical cores
      the CPUs that come first among their siblings; these are the groups of siblings when the lists of siblings
      partition the listed CPUs. */
  lemma {:induction false} GatheredCounts(host: Host, topology: CpuTopology, maximum: int)
    requires topology.Valid() && topology.GatheredFrom(host)
    requires forall s | s in topology.socketLpus :: |topology.socketLpus[s]| <= maximum
    ensures topology.SocketsCount() == |PackageIds(host)|
    ensures topology.LogicalCoresCount() == |Cpus(host)| <= topology.SocketsCount() * maximum
    ensures topology.PhysicalCoresCount() == FirstSiblings(host, Cpus(host)) <= topology.LogicalCoresCount()
    ensures SiblingsAgree(host) ==> topology.PhysicalCoresCount() == |SiblingLists(host)|
  {
    var read := ReadTopology(host).0;
    CountsConserve(read, topology.socketLpus, maximum);
    CanonicalFlatSize(read, Canonical(read));
    PackagesOnHost(host);
    ReadFromHost(host);
    CanonicalFirstThreads(read, Canonical(read));
    FirstThreadsAtMost(Flat(topology.Lpus()));
    if SiblingsAgree(host) {
      SiblingsOnHost(host);
      GatheredPhysicalCores(host);
    }
  }
}
