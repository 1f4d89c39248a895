/** Ascend 950 mode: each NPU gets one full cluster of CPUs of its own NUMA node. */
module CpuClusters {
  import opened CpuLists
  import opened CpuSlices
  import opened CpuTopo
  import opened Common

  const PHYSICAL_CPUS_PER_CLUSTER: nat := 8

  /** None stands for an unsupported or missing "Thread(s) per core". */
  function ClusterSize(threadsPerCore: Option<int>): Option<nat> {
    if threadsPerCore == Some(1) || threadsPerCore == Some(2)
    then Some(PHYSICAL_CPUS_PER_CLUSTER * threadsPerCore.value) else None
  }

  /** The CPUs kept for uvb_poll_window_thread: node 0 inside the cpuset, without CPU 0. */
  function UvbPool(d: Device, n: Nodes): seq<int> {
    Keep(if 0 in n.cpusOf then n.cpusOf[0] else [], cpu => cpu in d.allowed && cpu != 0)
  }

  /** The node of an NPU: all its affine CPUs in the cpuset are on it, and there are some. */
  function NodeOf(d: Device, n: Nodes, npu: int): Option<int> {
    if SingleNode(n, Base(d, npu)) then Some(n.nodeOf[Base(d, npu)[0]]) else None
  }

  /** The CPUs a node's clusters are cut from. */
  function ClusterCpus(d: Device, n: Nodes, uvb: seq<int>, node: int): seq<int> {
    Keep(Sort(if node in n.cpusOf then n.cpusOf[node] else []), cpu => cpu in d.allowed && cpu !in uvb)
  }

  /** Cluster `i`: the list comprehension over range(0, len - len % size, size). */
  function Cluster(cpus: seq<int>, size: nat, i: nat): seq<int>
    requires size > 0 && i < |cpus| / size
  {
    ClusterInside(|cpus|, size, i);
    cpus[i * size..i * size + size]
  }

  lemma ClusterInside(n: nat, size: nat, i: nat)
    requires size > 0 && i < n / size
    ensures i * size + size <= n
  {
    MulLe(i + 1, n / size, size);
  }

  function Clusters(cpus: seq<int>, size: nat): (clusters: seq<seq<int>>)
    requires size > 0
    ensures |clusters| == |cpus| / size
  {
    seq(|cpus| / size, i requires 0 <= i < |cpus| / size => Cluster(cpus, size, i))
  }

  /** The NPUs of a node, in id order. */
  function NpusOf(d: Device, n: Nodes, node: int): seq<int> {
    Sort(Keep(Candidates(d), npu => NodeOf(d, n, npu) == Some(node)))
  }

  /** The loops decline for an NPU without a single node, or a node with too few clusters. */
  ghost predicate Fits(d: Device, n: Nodes, uvb: seq<int>, size: nat)
    requires size > 0
  {
    && (forall npu :: npu in Candidates(d) ==> NodeOf(d, n, npu).Some?)
    && (forall npu :: npu in Candidates(d) ==> NodeFits(d, n, uvb, size, NodeOf(d, n, npu).value))
  }

  predicate NodeFits(d: Device, n: Nodes, uvb: seq<int>, size: nat, node: int)
    requires size > 0
  {
    |NpusOf(d, n, node)| <= |ClusterCpus(d, n, uvb, node)| / size
  }

  lemma NpusOfFacts(d: Device, n: Nodes, node: int)
    ensures forall npu :: npu in NpusOf(d, n, node) <==> npu in Candidates(d) && NodeOf(d, n, npu) == Some(node)
    ensures Distinct(d.allLogic) ==> Ascending(NpusOf(d, n, node))
  {
    var unsorted := Keep(Candidates(d), npu => NodeOf(d, n, npu) == Some(node));
    CandidatesFacts(d);
    KeepFacts(Candidates(d), npu => NodeOf(d, n, npu) == Some(node));
    SortFacts(unsorted);
  }

  /** The pool of one candidate: the cluster with its rank among the NPUs of its node. */
  function ClusterOf(d: Device, n: Nodes, uvb: seq<int>, size: nat, npu: int): seq<int>
    requires size > 0 && Fits(d, n, uvb, size) && npu in Candidates(d)
  {
    var node := NodeOf(d, n, npu).value;
    NpusOfFacts(d, n, node);
    Cluster(ClusterCpus(d, n, uvb, node), size, IndexOf(NpusOf(d, n, node), npu))
  }

  /** What a map from lscpu satisfies: a CPU is listed once, under its own node. */
  ghost predicate NumaConsistent(n: Nodes) {
    && (forall node :: node in n.cpusOf ==> Distinct(n.cpusOf[node]))
    && (forall node, c :: node in n.cpusOf && c in n.cpusOf[node] ==> c in n.nodeOf && n.nodeOf[c] == node)
  }

  lemma ClusterCpusFacts(d: Device, n: Nodes, uvb: seq<int>, node: int)
    requires NumaConsistent(n)
    ensures Ascending(ClusterCpus(d, n, uvb, node))
    ensures forall c :: c in ClusterCpus(d, n, uvb, node) ==>
      c in d.allowed && c !in uvb && c in n.nodeOf && n.nodeOf[c] == node
  {
    var listed := if node in n.cpusOf then n.cpusOf[node] else [];
    SortFacts(listed);
    KeepFacts(Sort(listed), cpu => cpu in d.allowed && cpu !in uvb);
  }

  /** Two windows of a list without repetition that do not overlap. */
  lemma WindowsDisjoint(xs: seq<int>, a: nat, b: nat, size: nat)
    requires Distinct(xs) && a + size <= b && b + size <= |xs|
    ensures Elements(xs[a..a + size]) !! Elements(xs[b..b + size])
  {}

  lemma LaterClusterApart(cpus: seq<int>, size: nat, i: nat, j: nat)
    requires size > 0 && Distinct(cpus) && i < j < |cpus| / size
    ensures Elements(Cluster(cpus, size, i)) !! Elements(Cluster(cpus, size, j))
  {
    ClusterInside(|cpus|, size, i);
    ClusterInside(|cpus|, size, j);
    MulLe(i + 1, j, size);
    var a, b := i * size, j * size;
    assert a + size <= b;
    WindowsDisjoint(cpus, a, b, size);
  }

  lemma ClustersDisjoint(cpus: seq<int>, size: nat, i: nat, j: nat)
    requires size > 0 && Distinct(cpus) && i < |cpus| / size && j < |cpus| / size && i != j
    ensures Elements(Cluster(cpus, size, i)) !! Elements(Cluster(cpus, size, j))
  {
    if i < j { LaterClusterApart(cpus, size, i, j); } else { LaterClusterApart(cpus, size, j, i); }
  }

  /** Each pool is one full cluster of allowed CPUs of the NPU's own node, outside the
      UVB pool. */
  lemma PoolIsCluster(d: Device, n: Nodes, uvb: seq<int>, size: nat, npu: int)
    requires size > 0 && Fits(d, n, uvb, size) && npu in Candidates(d) && NumaConsistent(n)
    ensures var pool := ClusterOf(d, n, uvb, size, npu);
      && |pool| == size
      && Ascending(pool)
      && forall c :: c in pool ==>
           c in d.allowed && c !in uvb && c in n.nodeOf && NodeOf(d, n, npu) == Some(n.nodeOf[c])
  {
    var node := NodeOf(d, n, npu).value;
    ClusterCpusFacts(d, n, uvb, node);
    NpusOfFacts(d, n, node);
    ClusterFacts(ClusterCpus(d, n, uvb, node), size, IndexOf(NpusOf(d, n, node), npu));
  }

  lemma ClusterFacts(cpus: seq<int>, size: nat, i: nat)
    requires size > 0 && i < |cpus| / size && Ascending(cpus)
    ensures |Cluster(cpus, size, i)| == size && Ascending(Cluster(cpus, size, i))
    ensures forall c :: c in Cluster(cpus, size, i) ==> c in cpus
  {
    ClusterInside(|cpus|, size, i);
    var start := i * size;
    assert Cluster(cpus, size, i) == cpus[start..start + size];
  }

  /** Pools of different NPUs are disjoint. */
  lemma PoolsDisjoint(d: Device, n: Nodes, uvb: seq<int>, size: nat, a: int, b: int)
    requires size > 0 && Fits(d, n, uvb, size) && NumaConsistent(n)
    requires a in Candidates(d) && b in Candidates(d) && a != b
    ensures Elements(ClusterOf(d, n, uvb, size, a)) !! Elements(ClusterOf(d, n, uvb, size, b))
  {
    var u, v := NodeOf(d, n, a).value, NodeOf(d, n, b).value;
    PoolIsCluster(d, n, uvb, size, a);
    PoolIsCluster(d, n, uvb, size, b);
    if u == v {
      NpusOfFacts(d, n, u);
      ClusterCpusFacts(d, n, uvb, u);
      var i, j := IndexOf(NpusOf(d, n, u), a), IndexOf(NpusOf(d, n, u), b);
      assert i != j;
      ClustersDisjoint(ClusterCpus(d, n, uvb, u), size, i, j);
    }
  }

  /** With every visible NPU on a single node, the candidates do not depend on what is
      visible. */
  lemma SameCandidates950(d: Device, running: seq<int>, n: Nodes, uvb: seq<int>, size: nat)
    requires size > 0 && Fits(d, n, uvb, size) && Fits(d.(running := running), n, uvb, size)
    ensures Candidates(d) == Candidates(d.(running := running))
  {
    var e := d.(running := running);
    CandidatesFacts(d);
    CandidatesFacts(e);
    forall npu | npu in d.allLogic && (npu in d.running || npu in running) ensures Base(d, npu) != [] {
      assert Base(e, npu) == Base(d, npu);
      if npu in d.running { assert npu in Candidates(d); } else { assert npu in Candidates(e); }
    }
    SameCandidates(d, running);
  }

  /** Two processes with the same cpuset, machine and UVB pool that both build pools
      compute the same assignment, whatever their visible NPUs. */
  lemma SameAssignment(d: Device, running: seq<int>, n: Nodes, uvb: seq<int>, size: nat, npu: int)
    requires size > 0 && Fits(d, n, uvb, size) && Fits(d.(running := running), n, uvb, size)
    requires npu in Candidates(d)
    ensures npu in Candidates(d.(running := running))
    ensures ClusterOf(d, n, uvb, size, npu) == ClusterOf(d.(running := running), n, uvb, size, npu)
  {
    var e := d.(running := running);
    SameCandidates950(d, running, n, uvb, size);
    assert forall k :: Base(e, k) == Base(d, k);
    var node := NodeOf(d, n, npu).value;
    KeepSame(Candidates(d), k => NodeOf(d, n, k) == Some(node), k => NodeOf(e, n, k) == Some(node));
    assert NpusOf(d, n, node) == NpusOf(e, n, node);
    assert ClusterCpus(d, n, uvb, node) == ClusterCpus(e, n, uvb, node);
  }
}
