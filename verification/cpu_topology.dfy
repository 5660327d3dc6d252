/** Gathering, normalising and counting the CPU topology (cpu.cc, cpu.h). */
module CpuTopologies {
  import opened Options
  import opened Numbering
  import opened CpuCanonical
  import opened SocketBuckets

  /** The sysfs files that are read. */
  datatype File =
    | NodesOnline
    | NodeCpuList(node: int)
    | PhysicalPackageId(cpu: int)
    | DieId(cpu: int)
    | CoreId(cpu: int)
    | ThreadSiblings(cpu: int)

  /** The host: what reading and parsing a file as a number or as a range list gives, None for an error. */
  datatype Host = Host(number: File -> Option<int>, list: File -> Option<seq<int>>)

  datatype Failure = Unreadable(file: File) | NotItsOwnSibling(cpu: int)

  /** absl::Status: None is OK. */
  type Status = Option<Failure>

  // ---- What gathering reads ----

  /** CpuLpu::DoRealGather: the files in the order in which they are read; the thread id is the position
      in the list of siblings. */
  function ReadLpu(host: Host, cpu: int, node: int): Result<Lpu, Failure> {
    var package := host.number(PhysicalPackageId(cpu));
    if package == None then Err(Unreadable(PhysicalPackageId(cpu))) else
    var die := host.number(DieId(cpu));
    if die == None then Err(Unreadable(DieId(cpu))) else
    var core := host.number(CoreId(cpu));
    if core == None then Err(Unreadable(CoreId(cpu))) else
    var siblings := host.list(ThreadSiblings(cpu));
    if siblings == None then Err(Unreadable(ThreadSiblings(cpu))) else
    if cpu !in siblings.value then Err(NotItsOwnSibling(cpu)) else
    Ok(Lpu(cpu, node, package.value, die.value, core.value, PosIn(siblings.value, cpu)))
  }

  /** The units read before the first failure, and that failure. */
  function ReadLpus(host: Host, node: int, cpus: seq<int>): (seq<Lpu>, Status) {
    if cpus == [] then ([], None) else
    var (before, status) := ReadLpus(host, node, cpus[..|cpus| - 1]);
    if status.Some? then (before, status) else
    match ReadLpu(host, cpus[|cpus| - 1], node)
    case Ok(lpu) => (before + [lpu], None)
    case Err(failure) => (before, Some(failure))
  }

  function ReadNode(host: Host, node: int): (seq<Lpu>, Status) {
    match host.list(NodeCpuList(node))
    case None => ([], Some(Unreadable(NodeCpuList(node))))
    case Some(cpus) => ReadLpus(host, node, cpus)
  }

  /** Only nodes read without a failure are kept. */
  function ReadNodes(host: Host, ids: seq<int>): (seq<seq<Lpu>>, Status) {
    if ids == [] then ([], None) else
    var (before, status) := ReadNodes(host, ids[..|ids| - 1]);
    if status.Some? then (before, status) else
    var (lpus, failure) := ReadNode(host, ids[|ids| - 1]);
    if failure.Some? then (before, failure) else (before + [lpus], None)
  }

  function ReadTopology(host: Host): (seq<seq<Lpu>>, Status) {
    match host.list(NodesOnline)
    case None => ([], Some(Unreadable(NodesOnline)))
    case Some(ids) => ReadNodes(host, ids)
  }

  /** The units that come first among their siblings. */
  function FirstThreads(lpus: seq<Lpu>): nat {
    if lpus == [] then 0
    else FirstThreads(lpus[..|lpus| - 1]) + if lpus[|lpus| - 1].threadId == 0 then 1 else 0
  }

  // ---- Reading one more ----

  lemma {:induction false} ReadingStops(host: Host, node: int, cpus: seq<int>, n: nat)
    requires n <= |cpus| && ReadLpus(host, node, cpus[..n]).1.Some?
    ensures ReadLpus(host, node, cpus) == ReadLpus(host, node, cpus[..n])
    decreases |cpus|
  {
    if n == |cpus| {
      assert cpus[..n] == cpus;
    } else {
      var front := cpus[..|cpus| - 1];
      assert front[..n] == cpus[..n];
      ReadingStops(host, node, front, n);
    }
  }

  lemma ReadNext(host: Host, node: int, cpus: seq<int>, n: nat, lpus: seq<Lpu>, lpu: Result<Lpu, Failure>)
    requires n < |cpus| && ReadLpus(host, node, cpus[..n]) == (lpus, None) && lpu == ReadLpu(host, cpus[n], node)
    ensures lpu.Ok? ==> ReadLpus(host, node, cpus[..n + 1]) == (lpus + [lpu.value], None)
    ensures lpu.Ok? ==>
              FirstThreads(lpus + [lpu.value]) == FirstThreads(lpus) + if lpu.value.threadId == 0 then 1 else 0
    ensures lpu.Err? ==> ReadLpus(host, node, cpus) == (lpus, Some(lpu.error))
  {
    assert cpus[..n + 1][..n] == cpus[..n];
    if lpu.Ok? {
      assert (lpus + [lpu.value])[..|lpus|] == lpus;
    } else {
      ReadingStops(host, node, cpus, n + 1);
    }
  }

  lemma {:induction false} ReadingNodesStops(host: Host, ids: seq<int>, n: nat)
    requires n <= |ids| && ReadNodes(host, ids[..n]).1.Some?
    ensures ReadNodes(host, ids) == ReadNodes(host, ids[..n])
    decreases |ids|
  {
    if n == |ids| {
      assert ids[..n] == ids;
    } else {
      var front := ids[..|ids| - 1];
      assert front[..n] == ids[..n];
      ReadingNodesStops(host, front, n);
    }
  }

  lemma ReadNextNode(host: Host, ids: seq<int>, n: nat, nodes: seq<seq<Lpu>>, node: (seq<Lpu>, Status))
    requires n < |ids| && ReadNodes(host, ids[..n]) == (nodes, None) && node == ReadNode(host, ids[n])
    ensures if node.1 == None then ReadNodes(host, ids[..n + 1]) == (nodes + [node.0], None)
            else ReadNodes(host, ids) == (nodes, node.1)
  {
    assert ids[..n + 1][..n] == ids[..n];
    if node.1.Some? { ReadingNodesStops(host, ids, n + 1); }
  }

  // ---- The id maps ----

  /** The map holds the number of every id seen so far, and next is the next number to give out. */
  ghost predicate Represents(ids: map<int, int>, next: int, seen: seq<int>) {
    && next == |Firsts(seen)|
    && (forall x :: x in ids <==> x in seen)
    && (forall x | x in ids :: ids[x] == Number(seen, x))
  }

  /** absl::flat_hash_map::operator[] on an int map. */
  function Lookup(ids: map<int, int>, x: int): int { if x in ids then ids[x] else 0 }

  lemma SeeId(ids: map<int, int>, next: int, seen: seq<int>, x: int)
    requires Represents(ids, next, seen)
    ensures if x in ids then Represents(ids, next, seen + [x]) else Represents(ids[x := next], next + 1, seen + [x])
  {
    FirstsExtend(seen, x);
    NextNumber(seen, x);
    forall y | y in seen ensures Number(seen + [x], y) == Number(seen, y) { NumberStable(seen, seen + [x], y); }
  }

  /** find and insert: enters an id unless it is known. */
  method EnterId(ids: map<int, int>, next: int, x: int, ghost seen: seq<int>) returns (r: map<int, int>, n: int)
    requires Represents(ids, next, seen)
    ensures Represents(r, n, seen + [x])
  {
    SeeId(ids, next, seen, x);
    r, n := ids, next;
    if x !in ids { r, n := ids[x := next], next + 1; }
  }

  lemma TakeOneMore(before: seq<int>, all: seq<int>, k: nat)
    requires k < |all|
    ensures before + all[..k + 1] == before + all[..k] + [all[k]]
  {
  }

  /** CpuLpu::NormalizeCpuLpu. */
  function NormalizeCpuLpu(lpu: Lpu, socketIds: map<int, int>, coreIds: map<int, int>): Lpu {
    lpu.(socketId := Lookup(socketIds, lpu.socketId), coreId := Lookup(coreIds, lpu.coreId))
  }

  /** CpuLpu::DoRealGather. */
  method GatherLpu(host: Host, cpu: int, node: int) returns (r: Result<Lpu, Failure>)
    ensures r == ReadLpu(host, cpu, node)
  {
    var socketId := host.number(PhysicalPackageId(cpu));
    if socketId == None { return Err(Unreadable(PhysicalPackageId(cpu))); }
    var dieId := host.number(DieId(cpu));
    if dieId == None { return Err(Unreadable(DieId(cpu))); }
    var coreId := host.number(CoreId(cpu));
    if coreId == None { return Err(Unreadable(CoreId(cpu))); }
    var siblings := host.list(ThreadSiblings(cpu));
    if siblings == None { return Err(Unreadable(ThreadSiblings(cpu))); }
    if cpu !in siblings.value { return Err(NotItsOwnSibling(cpu)); }
    var threadId := PosIn(siblings.value, cpu);
    return Ok(Lpu(cpu, node, socketId.value, dieId.value, coreId.value, threadId));
  }

  class CpuNumaNode {
    const numaNodeId: int
    var lpus: seq<Lpu>
    var physicalCount: int
    var result: Option<Status>

    constructor (id: int)
      ensures numaNodeId == id && lpus == [] && physicalCount == 0 && result == None
    {
      numaNodeId := id;
      lpus, physicalCount, result := [], 0, None;
    }

    predicate Valid()
      reads this
    {
      physicalCount == FirstThreads(lpus) && (result == None ==> lpus == [])
    }

    method DoRealGather(host: Host) returns (status: Status)
      requires Valid() && result == None
      modifies this`lpus, this`physicalCount
      ensures (lpus, status) == ReadNode(host, numaNodeId) && physicalCount == FirstThreads(lpus)
    {
      var list := host.list(NodeCpuList(numaNodeId));
      if list == None { return Some(Unreadable(NodeCpuList(numaNodeId))); }
      var cpus := list.value;
      for n := 0 to |cpus|
        invariant ReadLpus(host, numaNodeId, cpus[..n]) == (lpus, None) && physicalCount == FirstThreads(lpus)
      {
        var lpu := GatherLpu(host, cpus[n], numaNodeId);
        ReadNext(host, numaNodeId, cpus, n, lpus, lpu);
        if lpu.Err? { return Some(lpu.error); }
        physicalCount := physicalCount + if lpu.value.threadId == 0 then 1 else 0;
        lpus := lpus + [lpu.value];
      }
      assert cpus[..|cpus|] == cpus;
      return None;
    }

    /** Reads the host the first time; afterwards nothing changes. */
    method Gather(host: Host) returns (status: Status)
      requires Valid()
      modifies this
      ensures Valid() && result == Some(status)
      ensures old(result) == None ==> (lpus, status) == ReadNode(host, numaNodeId)
      ensures old(result).Some? ==> unchanged(this)
    {
      if result.Some? { return result.value; }
      status := DoRealGather(host);
      result := Some(status);
    }

    method NormalizeNumaNode(socketIds: map<int, int>, coreIds: map<int, int>)
      modifies this`lpus
      ensures |lpus| == |old(lpus)|
      ensures forall k | 0 <= k < |lpus| :: lpus[k] == NormalizeCpuLpu(old(lpus)[k], socketIds, coreIds)
    {
      for k := 0 to |lpus|
        invariant |lpus| == |old(lpus)|
        invariant forall j | 0 <= j < k :: lpus[j] == NormalizeCpuLpu(old(lpus)[j], socketIds, coreIds)
        invariant forall j | k <= j < |lpus| :: lpus[j] == old(lpus)[j]
      {
        lpus := lpus[k := NormalizeCpuLpu(lpus[k], socketIds, coreIds)];
      }
    }
  }

  // ---- Normalising, one unit at a time ----

  lemma ScannedSoFar(nodes: seq<seq<Lpu>>, i: nat)
    requires i < |nodes|
    ensures RawSockets(nodes[..i]) + SocketIds(nodes[i]) == RawSockets(nodes[..i + 1]) <= RawSockets(nodes)
  {
    assert nodes[..i + 1] == nodes[..i] + [nodes[i]];
    FlatExtend(nodes[..i], nodes[i]);
    FlatPrefix(nodes, i + 1);
  }

  lemma UnitRewritten(lpu: Lpu, seen: seq<int>, all: seq<int>, cores: seq<int>,
                      socketIds: map<int, int>, nextSocket: int, coreIds: map<int, int>, nextCore: int)
    requires Represents(socketIds, nextSocket, seen) && Represents(coreIds, nextCore, cores)
    requires seen <= all && lpu.socketId in seen && lpu.coreId in cores
    ensures NormalizeCpuLpu(lpu, socketIds, coreIds) == Renumbered(lpu, all, cores)
  {
    NumberStable(seen, all, lpu.socketId);
  }

  /** The maps as they are once a node is scanned rewrite it into its canonical form, although later nodes
      may still add socket ids. */
  lemma NodeRewritten(nodes: seq<seq<Lpu>>, i: nat, sockets: map<int, int>, nextSocket: int,
                      cores: map<int, int>, nextCore: int, after: seq<Lpu>)
    requires i < |nodes|
    requires Represents(sockets, nextSocket, RawSockets(nodes[..i]) + SocketIds(nodes[i]))
    requires Represents(cores, nextCore, CoreIds(nodes[i]))
    requires |after| == |nodes[i]|
    requires forall k | 0 <= k < |after| :: after[k] == NormalizeCpuLpu(nodes[i][k], sockets, cores)
    ensures after == Canonical(nodes)[i]
    ensures RawSockets(nodes[..i]) + SocketIds(nodes[i]) == RawSockets(nodes[..i + 1])
  {
    ScannedSoFar(nodes, i);
    var seen := RawSockets(nodes[..i]) + SocketIds(nodes[i]);
    forall k | 0 <= k < |after| ensures after[k] == Canonical(nodes)[i][k] {
      assert SocketIds(nodes[i])[k] == nodes[i][k].socketId && CoreIds(nodes[i])[k] == nodes[i][k].coreId;
      UnitRewritten(nodes[i][k], seen, RawSockets(nodes), CoreIds(nodes[i]), sockets, nextSocket, cores, nextCore);
    }
  }

  lemma {:induction false} FirstThreadsConcat(a: seq<Lpu>, b: seq<Lpu>)
    ensures FirstThreads(a + b) == FirstThreads(a) + FirstThreads(b)
  {
    if b == [] {
      assert a + b == a;
    } else {
      FirstThreadsConcat(a, b[..|b| - 1]);
      assert (a + b)[..|a + b| - 1] == a + b[..|b| - 1];
    }
  }

  lemma {:induction false} SameThreadsSameCount(a: seq<Lpu>, b: seq<Lpu>)
    requires |a| == |b| && forall k | 0 <= k < |a| :: a[k].threadId == b[k].threadId
    ensures FirstThreads(a) == FirstThreads(b)
  {
    if a != [] { SameThreadsSameCount(a[..|a| - 1], b[..|b| - 1]); }
  }

  /** Renumbering does not touch thread ids. */
  lemma NormalizedFirstThreads(nodes: seq<seq<Lpu>>)
    ensures forall i | 0 <= i < |nodes| :: FirstThreads(Canonical(nodes)[i]) == FirstThreads(nodes[i])
  {
    forall i | 0 <= i < |nodes| ensures FirstThreads(Canonical(nodes)[i]) == FirstThreads(nodes[i]) {
      SameThreadsSameCount(Canonical(nodes)[i], nodes[i]);
    }
  }

  /** The scan of one node: enters its ids into the machine's socket map and into a core map of its own. */
  method ScanNode(lpus: seq<Lpu>, socketIds: map<int, int>, nextSocket: int, ghost seen: seq<int>)
    returns (sockets: map<int, int>, nextS: int, cores: map<int, int>, nextC: int)
    requires Represents(socketIds, nextSocket, seen)
    ensures Represents(sockets, nextS, seen + SocketIds(lpus))
    ensures Represents(cores, nextC, CoreIds(lpus))
  {
    sockets, nextS, cores, nextC := socketIds, nextSocket, map[], 0;
    ghost var socketsHere, coresHere := SocketIds(lpus), CoreIds(lpus);
    assert seen + socketsHere[..0] == seen && [] + coresHere[..0] == [];
    for k := 0 to |lpus|
      invariant Represents(sockets, nextS, seen + socketsHere[..k])
      invariant Represents(cores, nextC, [] + coresHere[..k])
    {
      TakeOneMore(seen, socketsHere, k);
      TakeOneMore([], coresHere, k);
      sockets, nextS := EnterId(sockets, nextS, lpus[k].socketId, seen + socketsHere[..k]);
      cores, nextC := EnterId(cores, nextC, lpus[k].coreId, [] + coresHere[..k]);
    }
    assert socketsHere[..|lpus|] == socketsHere && [] + coresHere[..|lpus|] == coresHere;
  }

  class CpuTopology {
    var numaNodes: seq<CpuNumaNode>
    var socketLpus: map<int, seq<int>>
    var result: Option<Status>

    constructor ()
      ensures numaNodes == [] && socketLpus == map[] && result == None
    {
      numaNodes, socketLpus, result := [], map[], None;
    }

    predicate DistinctNodes()
      reads this`numaNodes
    {
      forall i, j | 0 <= i < j < |numaNodes| :: numaNodes[i] != numaNodes[j]
    }

    /** Every node's counter is the number of its first threads. */
    predicate Counted()
      reads this`numaNodes, numaNodes
    {
      forall i | 0 <= i < |numaNodes| :: numaNodes[i].physicalCount == FirstThreads(numaNodes[i].lpus)
    }

    predicate Valid()
      reads this, numaNodes
    {
      DistinctNodes() && Counted() && (result == None ==> numaNodes == [] && socketLpus == map[])
    }

    /** The units of every node. */
    function Lpus(): (nodes: seq<seq<Lpu>>)
      reads this`numaNodes, numaNodes
      ensures |nodes| == |numaNodes| && forall i | 0 <= i < |nodes| :: nodes[i] == numaNodes[i].lpus
    {
      var nodes := numaNodes;
      seq(|nodes|, i requires 0 <= i < |nodes| reads nodes => nodes[i].lpus)
    }

    /** One pass over the nodes: each is scanned into the two maps and rewritten before the next is scanned. */
    method NormalizeTopology()
      requires DistinctNodes()
      modifies numaNodes
      ensures Lpus() == Canonical(old(Lpus()))
      ensures forall node: CpuNumaNode | node in numaNodes :: unchanged(node`physicalCount, node`result)
    {
      ghost var was := Lpus();
      var socketIds: map<int, int> := map[];
      var nextSocket := 0;
      for i := 0 to |numaNodes|
        invariant Represents(socketIds, nextSocket, RawSockets(was[..i]))
        invariant forall j | 0 <= j < i :: numaNodes[j].lpus == Canonical(was)[j]
        invariant forall j | i <= j < |numaNodes| :: numaNodes[j].lpus == was[j]
        invariant forall node: CpuNumaNode | node in numaNodes :: unchanged(node`physicalCount, node`result)
      {
        var node := numaNodes[i];
        var coreIds, nextCore;
        socketIds, nextSocket, coreIds, nextCore := ScanNode(node.lpus, socketIds, nextSocket, RawSockets(was[..i]));
        node.NormalizeNumaNode(socketIds, coreIds);
        NodeRewritten(was, i, socketIds, nextSocket, coreIds, nextCore, node.lpus);
      }
      assert was[..|was|] == was;
    }

    lemma StillCounted(raw: seq<seq<Lpu>>)
      requires Lpus() == Canonical(raw)
      requires forall i | 0 <= i < |numaNodes| :: numaNodes[i].physicalCount == FirstThreads(raw[i])
      ensures Counted()
    {
      NormalizedFirstThreads(raw);
    }

    /** Reads the host; on success the nodes are normalised and every socket's CPUs are listed. */
    method DoRealGather(host: Host) returns (status: Status)
      requires Valid() && result == None
      modifies this`numaNodes, this`socketLpus
      ensures forall i | 0 <= i < |numaNodes| :: fresh(numaNodes[i])
      ensures DistinctNodes() && Counted()
      ensures status == ReadTopology(host).1
      ensures status.Some? ==> Lpus() == ReadTopology(host).0 && socketLpus == map[]
      ensures status == None ==> Lpus() == Canonical(ReadTopology(host).0) && Bucketed(socketLpus, Flat(Lpus()))
    {
      var ids := host.list(NodesOnline);
      if ids == None { return Some(Unreadable(NodesOnline)); }
      status := ReadNodesInto(host, ids.value);
      if status.Some? { return; }
      ghost var raw := Lpus();
      label Read:
      NormalizeTopology();
      forall i | 0 <= i < |numaNodes| ensures numaNodes[i].physicalCount == FirstThreads(raw[i]) {
        assert numaNodes[i] in numaNodes && numaNodes[i].physicalCount == old@Read(numaNodes[i].physicalCount);
      }
      StillCounted(raw);
      FillBuckets();
    }

    method ReadNodesInto(host: Host, ids: seq<int>) returns (status: Status)
      requires numaNodes == []
      modifies this`numaNodes
      ensures forall i | 0 <= i < |numaNodes| :: fresh(numaNodes[i])
      ensures DistinctNodes() && Counted()
      ensures (Lpus(), status) == ReadNodes(host, ids)
    {
      for n := 0 to |ids|
        invariant forall i | 0 <= i < |numaNodes| :: fresh(numaNodes[i])
        invariant DistinctNodes() && Counted()
        invariant (Lpus(), None) == ReadNodes(host, ids[..n])
      {
        ghost var before := Lpus();
        var node := new CpuNumaNode(ids[n]);
        status := node.Gather(host);
        ReadNextNode(host, ids, n, before, (node.lpus, status));
        if status.Some? { return; }
        numaNodes := numaNodes + [node];
        assert Lpus() == before + [node.lpus];
      }
      assert ids[..|ids|] == ids;
      status := None;
    }

    method FillBuckets()
      requires socketLpus == map[]
      modifies this`socketLpus
      ensures Bucketed(socketLpus, Flat(Lpus()))
    {
      ghost var nodes := Lpus();
      for i := 0 to |numaNodes|
        invariant Bucketed(socketLpus, Flat(nodes[..i]))
      {
        assert nodes[..i + 1] == nodes[..i] + [nodes[i]];
        FlatExtend(nodes[..i], nodes[i]);
        socketLpus := AddNodeToBuckets(socketLpus, numaNodes[i].lpus, Flat(nodes[..i]));
      }
      assert nodes[..|nodes|] == nodes;
    }

    /** What a successful first Gather leaves behind. */
    ghost predicate GatheredFrom(host: Host)
      reads this, numaNodes
    {
      && result == Some(None) && ReadTopology(host).1 == None
      && Lpus() == Canonical(ReadTopology(host).0) && Bucketed(socketLpus, Flat(Lpus()))
    }

    /** Reads the host the first time; afterwards returns the same status and changes nothing. */
    method Gather(host: Host) returns (status: Status)
      requires Valid()
      modifies this
      ensures Valid() && result == Some(status)
      ensures old(result).Some? ==> unchanged(this)
      ensures old(result) == None ==>
                && status == ReadTopology(host).1
                && (status.Some? ==> Lpus() == ReadTopology(host).0 && socketLpus == map[])
                && (status == None ==> GatheredFrom(host))
    {
      if result.Some? { return result.value; }
      status := DoRealGather(host);
      result := Some(status);
    }

    // ---- Counts (cpu.h) ----

    function PhysicalUpTo(n: nat): (count: int)
      requires Valid() && n <= |numaNodes|
      reads this, numaNodes
      ensures count == FirstThreads(Flat(Lpus()[..n]))
    {
      if n == 0 then 0 else
      assert Lpus()[..n][..n - 1] == Lpus()[..n - 1];
      FirstThreadsConcat(Flat(Lpus()[..n - 1]), numaNodes[n - 1].lpus);
      PhysicalUpTo(n - 1) + numaNodes[n - 1].physicalCount
    }

    function PhysicalCoresCount(): (count: int)
      requires Valid()
      reads this, numaNodes
      ensures count == FirstThreads(Flat(Lpus()))
    {
      assert Lpus()[..|numaNodes|] == Lpus();
      PhysicalUpTo(|numaNodes|)
    }

    function LogicalUpTo(n: nat): (count: int)
      requires n <= |numaNodes|
      reads this, numaNodes
      ensures count == |Flat(Lpus()[..n])|
    {
      if n == 0 then 0 else
      assert Lpus()[..n][..n - 1] == Lpus()[..n - 1];
      LogicalUpTo(n - 1) + |numaNodes[n - 1].lpus|
    }

    function LogicalCoresCount(): (count: int)
      reads this, numaNodes
      ensures count == |Flat(Lpus())|
    {
      assert Lpus()[..|numaNodes|] == Lpus();
      LogicalUpTo(|numaNodes|)
    }

    function SocketsCount(): int
      reads this
    {
      |socketLpus|
    }

    method LogicalCoresMaxPerSocket() returns (maximum: int)
      ensures forall s | s in socketLpus :: |socketLpus[s]| <= maximum
      ensures maximum == 0 || exists s :: s in socketLpus && |socketLpus[s]| == maximum
    {
      maximum := LargestBucket(socketLpus);
    }
  }
}
