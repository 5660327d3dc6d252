/** The CPUs listed by socket: socket_lpus_map_ of the CpuTopology class (cpu.cc, cpu.h) and its counts. */
module SocketBuckets {
  import opened FiniteSets
  import opened Numbering
  import opened CpuCanonical

  /** The CPUs of one socket, in order. */
  function CpusOf(lpus: seq<Lpu>, socket: int): seq<int> {
    if lpus == [] then [] else
    var before, last := CpusOf(lpus[..|lpus| - 1], socket), lpus[|lpus| - 1];
    if last.socketId == socket then before + [last.cpuId] else before
  }

  /** A bucket for every socket that occurs, holding its CPUs in order. */
  ghost predicate Bucketed(buckets: map<int, seq<int>>, lpus: seq<Lpu>) {
    && (forall s :: s in buckets <==> s in SocketIds(lpus))
    && (forall s | s in buckets :: buckets[s] == CpusOf(lpus, s))
  }

  lemma {:induction false} AddToBuckets(buckets: map<int, seq<int>>, lpus: seq<Lpu>, lpu: Lpu)
    requires Bucketed(buckets, lpus)
    ensures Bucketed(
              buckets[lpu.socketId := (if lpu.socketId in buckets then buckets[lpu.socketId] else []) + [lpu.cpuId]],
              lpus + [lpu])
  {
    var all := lpus + [lpu];
    assert all[..|lpus|] == lpus;
    assert SocketIds(all) == SocketIds(lpus) + [lpu.socketId];
    if lpu.socketId !in buckets { NoCpusOf(lpus, lpu.socketId); }
  }

  lemma {:induction false} NoCpusOf(lpus: seq<Lpu>, socket: int)
    requires socket !in SocketIds(lpus)
    ensures CpusOf(lpus, socket) == []
  {
    if lpus != [] {
      var n := |lpus| - 1;
      assert SocketIds(lpus)[n] == lpus[n].socketId;
      forall k | 0 <= k < n ensures SocketIds(lpus[..n])[k] == SocketIds(lpus)[k] {}
      NoCpusOf(lpus[..n], socket);
    }
  }

  method AddNodeToBuckets(buckets: map<int, seq<int>>, lpus: seq<Lpu>, ghost before: seq<Lpu>)
    returns (r: map<int, seq<int>>)
    requires Bucketed(buckets, before)
    ensures Bucketed(r, before + lpus)
  {
    r := buckets;
    assert before + lpus[..0] == before;
    for k := 0 to |lpus|
      invariant Bucketed(r, before + lpus[..k])
    {
      AddToBuckets(r, before + lpus[..k], lpus[k]);
      assert before + lpus[..k + 1] == before + lpus[..k] + [lpus[k]];
      var socket := lpus[k].socketId;
      r := r[socket := (if socket in r then r[socket] else []) + [lpus[k].cpuId]];
    }
    assert lpus[..|lpus|] == lpus;
  }

  /** The size of the largest bucket, 0 when there is none. */
  method LargestBucket(buckets: map<int, seq<int>>) returns (maximum: int)
    ensures forall s | s in buckets :: |buckets[s]| <= maximum
    ensures maximum == 0 || exists s :: s in buckets && |buckets[s]| == maximum
  {
    maximum := 0;
    var left := buckets.Keys;
    while left != {}
      invariant left <= buckets.Keys && maximum >= 0
      invariant forall s | s in buckets && s !in left :: |buckets[s]| <= maximum
      invariant maximum == 0 || exists s :: s in buckets && |buckets[s]| == maximum
      decreases left
    {
      var s := Pick(left);
      if |buckets[s]| > maximum { maximum := |buckets[s]|; }
      left := left - {s};
    }
  }
}
