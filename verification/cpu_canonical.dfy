/** The canonical form of a gathered CPU topology (cpu.cc), as a function of what was gathered. */
module CpuCanonical {
  import opened Numbering

  /** A logical processing unit: one CPU number of one NUMA node. */
  datatype Lpu = Lpu(cpuId: int, numaNodeId: int, socketId: int, dieId: int, coreId: int, threadId: nat)

  function SocketIds(lpus: seq<Lpu>): (ids: seq<int>)
    ensures |ids| == |lpus| && forall k | 0 <= k < |lpus| :: ids[k] == lpus[k].socketId
  {
    seq(|lpus|, k requires 0 <= k < |lpus| => lpus[k].socketId)
  }

  function CoreIds(lpus: seq<Lpu>): (ids: seq<int>)
    ensures |ids| == |lpus| && forall k | 0 <= k < |lpus| :: ids[k] == lpus[k].coreId
  {
    seq(|lpus|, k requires 0 <= k < |lpus| => lpus[k].coreId)
  }

  /** The units of all nodes, in order. */
  function Flat(nodes: seq<seq<Lpu>>): seq<Lpu> {
    if nodes == [] then [] else Flat(nodes[..|nodes| - 1]) + nodes[|nodes| - 1]
  }

  /** The raw socket ids of the whole machine, in the order of the scan. */
  function RawSockets(nodes: seq<seq<Lpu>>): seq<int> { SocketIds(Flat(nodes)) }

  /** A unit renumbered within the given socket ids and core ids. */
  function Renumbered(lpu: Lpu, sockets: seq<int>, cores: seq<int>): Lpu {
    lpu.(socketId := Number(sockets, lpu.socketId), coreId := Number(cores, lpu.coreId))
  }

  function RenumberNode(node: seq<Lpu>, sockets: seq<int>): (r: seq<Lpu>)
    ensures |r| == |node| && forall k | 0 <= k < |node| :: r[k] == Renumbered(node[k], sockets, CoreIds(node))
  {
    seq(|node|, k requires 0 <= k < |node| => Renumbered(node[k], sockets, CoreIds(node)))
  }

  /** Socket ids are numbered over the whole machine, core ids within their node. */
  function Canonical(nodes: seq<seq<Lpu>>): (r: seq<seq<Lpu>>)
    ensures |r| == |nodes| && forall i | 0 <= i < |nodes| :: r[i] == RenumberNode(nodes[i], RawSockets(nodes))
  {
    seq(|nodes|, i requires 0 <= i < |nodes| => RenumberNode(nodes[i], RawSockets(nodes)))
  }

  // ---- Flattening ----

  lemma FlatExtend(nodes: seq<seq<Lpu>>, node: seq<Lpu>)
    ensures Flat(nodes + [node]) == Flat(nodes) + node
  {
    assert (nodes + [node])[..|nodes|] == nodes;
  }

  lemma {:induction false} FlatPrefix(nodes: seq<seq<Lpu>>, i: nat)
    requires i <= |nodes|
    ensures Flat(nodes[..i]) <= Flat(nodes)
    decreases |nodes|
  {
    if i < |nodes| {
      var front := nodes[..|nodes| - 1];
      FlatPrefix(front, i);
      assert front[..i] == nodes[..i];
    } else {
      assert nodes[..i] == nodes;
    }
  }

  lemma FlatAt(nodes: seq<seq<Lpu>>, i: nat, k: nat)
    requires i < |nodes| && k < |nodes[i]|
    ensures |Flat(nodes[..i])| + k < |Flat(nodes)| && Flat(nodes)[|Flat(nodes[..i])| + k] == nodes[i][k]
  {
    assert nodes[..i + 1] == nodes[..i] + [nodes[i]];
    FlatExtend(nodes[..i], nodes[i]);
    FlatPrefix(nodes, i + 1);
  }

  // ---- The ids of the canonical form ----

  lemma {:induction false} RenumberedSockets(nodes: seq<seq<Lpu>>, sockets: seq<int>, r: seq<seq<Lpu>>)
    requires |r| == |nodes| && forall i | 0 <= i < |nodes| :: r[i] == RenumberNode(nodes[i], sockets)
    ensures |Flat(r)| == |Flat(nodes)|
    ensures forall k | 0 <= k < |Flat(nodes)| :: Flat(r)[k].socketId == Number(sockets, Flat(nodes)[k].socketId)
  {
    if nodes != [] {
      var n := |nodes| - 1;
      RenumberedSockets(nodes[..n], sockets, r[..n]);
    }
  }

  lemma CanonicalIds(nodes: seq<seq<Lpu>>)
    ensures RawSockets(Canonical(nodes)) == Numbers(RawSockets(nodes))
    ensures forall i | 0 <= i < |nodes| :: CoreIds(Canonical(nodes)[i]) == Numbers(CoreIds(nodes[i]))
  {
    RenumberedSockets(nodes, RawSockets(nodes), Canonical(nodes));
  }

  /** The socket ids are 0, 1, .. in the order in which sockets first appear anywhere, and each node's core
      ids are 0, 1, .. in the order in which its cores first appear. */
  lemma CanonicalIsDense(nodes: seq<seq<Lpu>>)
    ensures Firsts(RawSockets(Canonical(nodes))) == UpTo(|Firsts(RawSockets(nodes))|)
    ensures forall i | 0 <= i < |nodes| ::
              Firsts(CoreIds(Canonical(nodes)[i])) == UpTo(|Firsts(CoreIds(nodes[i]))|)
  {
    CanonicalIds(nodes);
    NumbersAreDense(RawSockets(nodes));
    forall i | 0 <= i < |nodes|
      ensures Firsts(CoreIds(Canonical(nodes)[i])) == UpTo(|Firsts(CoreIds(nodes[i]))|)
    {
      NumbersAreDense(CoreIds(nodes[i]));
    }
  }

  /** Two units share a socket afterwards exactly when they shared it before, and two units of a node share a
      core afterwards exactly when they did before. */
  lemma CanonicalKeepsSharing(nodes: seq<seq<Lpu>>, i: nat, k: nat, j: nat, l: nat)
    requires i < |nodes| && k < |nodes[i]| && j < |nodes| && l < |nodes[j]|
    ensures var c := Canonical(nodes);
            && (c[i][k].socketId == c[j][l].socketId <==> nodes[i][k].socketId == nodes[j][l].socketId)
            && (i == j ==> (c[i][k].coreId == c[j][l].coreId <==> nodes[i][k].coreId == nodes[j][l].coreId))
  {
    FlatAt(nodes, i, k);
    FlatAt(nodes, j, l);
    var raw := RawSockets(nodes);
    assert raw[|Flat(nodes[..i])| + k] == nodes[i][k].socketId && raw[|Flat(nodes[..j])| + l] == nodes[j][l].socketId;
    NumbersApart(raw, nodes[i][k].socketId, nodes[j][l].socketId);
    if i == j {
      assert CoreIds(nodes[i])[k] == nodes[i][k].coreId && CoreIds(nodes[i])[l] == nodes[i][l].coreId;
      NumbersApart(CoreIds(nodes[i]), nodes[i][k].coreId, nodes[i][l].coreId);
    }
  }

  // ---- A canonical form ----

  predicate SameButLabels(a: Lpu, b: Lpu) { a.(socketId := b.socketId, coreId := b.coreId) == b }

  /** Same shape and same units up to their raw labels. */
  ghost predicate SameShape(a: seq<seq<Lpu>>, b: seq<seq<Lpu>>) {
    && |a| == |b|
    && (forall i | 0 <= i < |a| :: |a[i]| == |b[i]|)
    && (forall i, k | 0 <= i < |a| && 0 <= k < |a[i]| :: SameButLabels(a[i][k], b[i][k]))
  }

  /** The raw labels differ only by renaming. */
  ghost predicate SameUpToLabels(a: seq<seq<Lpu>>, b: seq<seq<Lpu>>) {
    && SameShape(a, b)
    && SamePattern(RawSockets(a), RawSockets(b))
    && (forall i | 0 <= i < |a| :: SamePattern(CoreIds(a[i]), CoreIds(b[i])))
  }

  lemma {:induction false} SameShapeFlat(a: seq<seq<Lpu>>, b: seq<seq<Lpu>>)
    requires |a| == |b| && forall i | 0 <= i < |a| :: |a[i]| == |b[i]|
    ensures |Flat(a)| == |Flat(b)|
  {
    if a != [] { SameShapeFlat(a[..|a| - 1], b[..|b| - 1]); }
  }

  lemma {:induction false} FlatSameButLabels(a: seq<seq<Lpu>>, b: seq<seq<Lpu>>)
    requires SameShape(a, b)
    ensures |Flat(a)| == |Flat(b)| && forall k | 0 <= k < |Flat(a)| :: SameButLabels(Flat(a)[k], Flat(b)[k])
  {
    if a != [] {
      var n := |a| - 1;
      assert forall k | 0 <= k < |a[n]| :: SameButLabels(a[n][k], b[n][k]);
      FlatSameButLabels(a[..n], b[..n]);
    }
  }

  /** Renumbering changes no unit but for its socket and core ids. */
  lemma {:induction false} CanonicalSameShape(nodes: seq<seq<Lpu>>)
    ensures SameShape(Canonical(nodes), nodes)
  {
  }

  lemma SameNumber(a: seq<int>, b: seq<int>, at: nat)
    requires SamePattern(a, b) && at < |a|
    ensures Number(a, a[at]) == Number(b, b[at])
  {
    NumbersAreCanonical(a, b);
    assert Numbers(a)[at] == Numbers(b)[at];
  }

  lemma SameSocketNumber(a: seq<seq<Lpu>>, b: seq<seq<Lpu>>, i: nat, k: nat)
    requires SameUpToLabels(a, b) && i < |a| && k < |a[i]|
    ensures Number(RawSockets(a), a[i][k].socketId) == Number(RawSockets(b), b[i][k].socketId)
  {
    FlatAt(a, i, k);
    FlatAt(b, i, k);
    SameShapeFlat(a[..i], b[..i]);
    SameNumber(RawSockets(a), RawSockets(b), |Flat(a[..i])| + k);
  }

  lemma CanonicalUnit(a: seq<seq<Lpu>>, b: seq<seq<Lpu>>, i: nat, k: nat)
    requires SameUpToLabels(a, b) && i < |a| && k < |a[i]|
    ensures Canonical(a)[i][k] == Canonical(b)[i][k]
  {
    SameSocketNumber(a, b, i, k);
    SameNumber(CoreIds(a[i]), CoreIds(b[i]), k);
    assert SameButLabels(a[i][k], b[i][k]);
  }

  lemma SameLabelsSameForm(a: seq<seq<Lpu>>, b: seq<seq<Lpu>>)
    requires SameUpToLabels(a, b)
    ensures Canonical(a) == Canonical(b)
  {
    forall i | 0 <= i < |a| ensures Canonical(a)[i] == Canonical(b)[i] {
      forall k | 0 <= k < |a[i]| ensures Canonical(a)[i][k] == Canonical(b)[i][k] { CanonicalUnit(a, b, i, k); }
    }
  }

  lemma SameFormSameLabels(a: seq<seq<Lpu>>, b: seq<seq<Lpu>>)
    requires Canonical(a) == Canonical(b)
    ensures SameUpToLabels(a, b)
  {
    var c := Canonical(a);
    forall i | 0 <= i < |a| ensures |a[i]| == |b[i]| { assert |c[i]| == |a[i]|; }
    forall i, k | 0 <= i < |a| && 0 <= k < |a[i]| ensures SameButLabels(a[i][k], b[i][k]) {
      assert c[i][k] == Renumbered(a[i][k], RawSockets(a), CoreIds(a[i]));
      assert c[i][k] == Renumbered(b[i][k], RawSockets(b), CoreIds(b[i]));
    }
    CanonicalIds(a);
    CanonicalIds(b);
    NumbersAreCanonical(RawSockets(a), RawSockets(b));
    forall i | 0 <= i < |a| ensures SamePattern(CoreIds(a[i]), CoreIds(b[i])) {
      NumbersAreCanonical(CoreIds(a[i]), CoreIds(b[i]));
    }
  }

  /** Topologies have the same canonical form exactly when they differ by a renaming of raw labels. */
  lemma CanonicalDecidesSameness(a: seq<seq<Lpu>>, b: seq<seq<Lpu>>)
    ensures Canonical(a) == Canonical(b) <==> SameUpToLabels(a, b)
  {
    if Canonical(a) == Canonical(b) { SameFormSameLabels(a, b); }
    if SameUpToLabels(a, b) { SameLabelsSameForm(a, b); }
  }

  /** Normalising twice is normalising once. */
  lemma CanonicalIdempotent(nodes: seq<seq<Lpu>>)
    ensures Canonical(Canonical(nodes)) == Canonical(nodes)
  {
    var c := Canonical(nodes);
    CanonicalIds(nodes);
    NumbersKeepPattern(RawSockets(nodes));
    forall i | 0 <= i < |nodes| ensures SamePattern(CoreIds(nodes[i]), CoreIds(c[i])) {
      NumbersKeepPattern(CoreIds(nodes[i]));
    }
    assert SameUpToLabels(nodes, c);
    SameLabelsSameForm(nodes, c);
  }

  /** The topology with socket ids renamed by f, and the core ids of node i renamed by g(i, _). */
  function Relabelled(nodes: seq<seq<Lpu>>, f: int -> int, g: (int, int) -> int): seq<seq<Lpu>> {
    seq(|nodes|, i requires 0 <= i < |nodes| => RelabelledNode(nodes[i], f, x => g(i, x)))
  }

  function RelabelledNode(node: seq<Lpu>, f: int -> int, g: int -> int): (r: seq<Lpu>)
    ensures |r| == |node|
    ensures forall k | 0 <= k < |node| :: r[k] == node[k].(socketId := f(node[k].socketId), coreId := g(node[k].coreId))
  {
    seq(|node|, k requires 0 <= k < |node| =>
      node[k].(socketId := f(node[k].socketId), coreId := g(node[k].coreId)))
  }

  lemma {:induction false} RelabelledSockets(nodes: seq<seq<Lpu>>, r: seq<seq<Lpu>>, f: int -> int)
    requires |r| == |nodes| && forall i | 0 <= i < |nodes| :: |r[i]| == |nodes[i]|
    requires forall i, k | 0 <= i < |nodes| && 0 <= k < |nodes[i]| :: r[i][k].socketId == f(nodes[i][k].socketId)
    ensures |Flat(r)| == |Flat(nodes)|
    ensures forall k | 0 <= k < |Flat(nodes)| :: Flat(r)[k].socketId == f(Flat(nodes)[k].socketId)
  {
    if nodes != [] {
      var n := |nodes| - 1;
      RelabelledSockets(nodes[..n], r[..n], f);
    }
  }

  /** Renaming raw ids injectively, core ids differently in every node, does not change the result. */
  lemma RelabellingDoesNotMatter(nodes: seq<seq<Lpu>>, f: int -> int, g: (int, int) -> int)
    requires forall x, y :: f(x) == f(y) ==> x == y
    requires forall i, x, y :: g(i, x) == g(i, y) ==> x == y
    ensures Canonical(Relabelled(nodes, f, g)) == Canonical(nodes)
  {
    var r := Relabelled(nodes, f, g);
    RelabelledSockets(nodes, r, f);
    forall i | 0 <= i < |nodes| ensures SamePattern(CoreIds(nodes[i]), CoreIds(r[i])) {
      assert forall k | 0 <= k < |nodes[i]| :: CoreIds(r[i])[k] == g(i, CoreIds(nodes[i])[k]);
    }
    assert SameUpToLabels(nodes, r);
    SameLabelsSameForm(nodes, r);
  }
}
