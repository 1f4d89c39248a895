/** What topology mode gives each NPU, in numbers: which CPUs its extended pool holds, and how
    large its share of that pool is. */
module CpuShares {
  import opened Common
  import opened CpuLists
  import opened CpuSlices
  import opened CpuTopo

  // ----- how many NPUs share a pool -----

  /** The candidates whose extended pool is that of `npu`. */
  function Sharers(pools: Pools, npus: seq<int>, npu: int): set<int>
    requires npu in pools
  {
    set m | m in npus && m in pools && pools[m] == pools[npu]
  }

  lemma {:induction false} DistinctSize(xs: seq<int>)
    requires Distinct(xs)
    ensures |Elements(xs)| == |xs|
  {
    if xs != [] {
      var front, last := xs[..|xs| - 1], xs[|xs| - 1];
      DistinctSize(front);
      assert Elements(xs) == Elements(front) + {last};
      assert last !in Elements(front);
    }
  }

  lemma GroupIsSharers(pools: Pools, npus: seq<int>, npu: int)
    requires Ascending(npus) && npu in npus && npu in pools
    ensures var group := Group(pools, npus, pools[npu]);
      && Ascending(group) && |group| == |Sharers(pools, npus, npu)| && npu in group
      && forall m :: m in group <==> m in Sharers(pools, npus, npu)
  {
    var group := Group(pools, npus, pools[npu]);
    GroupFacts(pools, npus, pools[npu]);
    KeepFacts(npus, m => m in pools && pools[m] == pools[npu]);
    assert Elements(group) == Sharers(pools, npus, npu);
    DistinctSize(group);
  }

  /** Which share of its group an NPU has. */
  lemma LastSharer(group: seq<int>, npu: int)
    requires Ascending(group) && npu in group
    ensures IndexOf(group, npu) == |group| - 1 <==> forall m :: m in group ==> m <= npu
  {
    var i := IndexOf(group, npu);
    if i < |group| - 1 { assert group[|group| - 1] in group && group[i] < group[|group| - 1]; }
  }

  lemma ShareSize(n: nat, k: nat, i: nat)
    requires i < k
    ensures ShareStart(n, k, i) <= ShareStart(n, k, i + 1) <= n
    ensures ShareStart(n, k, i + 1) - ShareStart(n, k, i) == if i < k - 1 then n / k else n - (k - 1) * (n / k)
    ensures n / k <= n - (k - 1) * (n / k) < n / k + k
  {
    ShareStartMonotone(n, k, i, i + 1);
    var per := n / k;
    assert n == per * k + n % k;
    assert per * k == (k - 1) * per + per;
    assert (i + 1) * per == i * per + per;
  }

  /** Of k NPUs that share n CPUs each gets n / k, and the last one what is left besides. */
  lemma EvenShares(pools: Pools, npus: seq<int>, npu: int)
    requires Ascending(npus) && npu in npus && npu in pools
    ensures var n, k, size := |pools[npu]|, |Sharers(pools, npus, npu)|, |FinalPool(pools, npus, npu)|;
      && k > 0 && n / k <= size < n / k + k
      && size == if exists m :: m in Sharers(pools, npus, npu) && m > npu then n / k else n - (k - 1) * (n / k)
  {
    var key := pools[npu];
    var group := Group(pools, npus, key);
    GroupIsSharers(pools, npus, npu);
    GroupFacts(pools, npus, key);
    SortFacts(key);
    LastSharer(group, npu);
    ShareSize(|key|, |group|, IndexOf(group, npu));
    hide Group, ShareStart, Sort;
  }

  /** In the order of their ids the sharers get ascending parts of the sorted pool. */
  lemma SharesAscend(pools: Pools, npus: seq<int>, a: int, b: int, c: int, e: int)
    requires Ascending(npus) && a in npus && b in npus && a in pools && b in pools && a < b
    requires pools[a] == pools[b] && Distinct(pools[a])
    requires c in FinalPool(pools, npus, a) && e in FinalPool(pools, npus, b)
    ensures c < e
  {
    hide FinalPool, Ascending;
    var key := pools[a];
    var i, j := OrderInGroup(pools, npus, a, b);
    var n, k := |key|, |Group(pools, npus, key)|;
    FinalIsPart(pools, npus, a);
    FinalIsPart(pools, npus, b);
    ShareStartMonotone(n, k, i + 1, j);
    assert Ascending(Sort(key)) by { SortFacts(key); }
    hide Group, ShareStart, Sort;
    PartsAscend(Sort(key), ShareStart(n, k, i), ShareStart(n, k, i + 1), ShareStart(n, k, j), ShareStart(n, k, j + 1), c, e);
  }

  lemma OrderInGroup(pools: Pools, npus: seq<int>, a: int, b: int) returns (i: nat, j: nat)
    requires Ascending(npus) && a in npus && b in npus && a in pools && b in pools && a < b && pools[a] == pools[b]
    ensures var group := Group(pools, npus, pools[a]);
      a in group && b in group && i == IndexOf(group, a) && j == IndexOf(group, b) && i < j < |group|
  {
    var group := Group(pools, npus, pools[a]);
    GroupIsSharers(pools, npus, a);
    GroupIsSharers(pools, npus, b);
    hide Group, Sharers;
    i, j := IndexOf(group, a), IndexOf(group, b);
  }

  lemma FinalIsPart(pools: Pools, npus: seq<int>, npu: int)
    requires Ascending(npus) && npu in npus && npu in pools && |Group(pools, npus, pools[npu])| > 1
    ensures var key, group := pools[npu], Group(pools, npus, pools[npu]);
      && npu in group && |Sort(key)| == |key|
      && (var i := IndexOf(group, npu);
          ShareStart(|key|, |group|, i) <= ShareStart(|key|, |group|, i + 1) <= |key|
          && FinalPool(pools, npus, npu) == Sort(key)[ShareStart(|key|, |group|, i)..ShareStart(|key|, |group|, i + 1)])
  {
    var key, group := pools[npu], Group(pools, npus, pools[npu]);
    GroupFacts(pools, npus, key);
    SortFacts(key);
    ShareStartMonotone(|key|, |group|, IndexOf(group, npu), IndexOf(group, npu) + 1);
  }

  lemma PartsAscend(xs: seq<int>, a: nat, b: nat, c: nat, d: nat, x: int, y: int)
    requires Ascending(xs) && a <= b <= c <= d <= |xs| && x in xs[a..b] && y in xs[c..d]
    ensures x < y
  {}

  /** The size of every pool a build returns. */
  lemma TopoShares(d: Device, nodes: Nodes, npu: int)
    requires nodes.cpusOf != map[] && Ascending(d.allLogic) && npu in d.running
    requires (forall m :: m in d.running ==> m in d.allLogic) && !TopoBuild(d, nodes).raised
    ensures npu in TopoBuild(d, nodes).pools && npu in ExtendAll(d, nodes, map[], Candidates(d)).pools
    ensures var x := ExtendAll(d, nodes, map[], Candidates(d)).pools;
      var n, sharers, size := |x[npu]|, Sharers(x, Candidates(d), npu), |TopoBuild(d, nodes).pools[npu]|;
      && |sharers| > 0 && n / |sharers| <= size < n / |sharers| + |sharers|
      && size == if exists m :: m in sharers && m > npu then n / |sharers| else n - (|sharers| - 1) * (n / |sharers|)
  {
    CandidatesFacts(d);
    ExtendAllFacts(d, nodes, map[], Candidates(d));
    EvenShares(ExtendAll(d, nodes, map[], Candidates(d)).pools, Candidates(d), npu);
  }

  /** Which NPUs take part: the visible ones, and those with an affine CPU in the cpuset. */
  lemma CandidatesAre(d: Device, npu: int)
    ensures npu in Candidates(d) <==>
      && npu in d.allLogic
      && (npu in d.running || (npu in d.affinity && exists cpu :: cpu in d.affinity[npu] && cpu in d.allowed))
    ensures forall cpu :: cpu in Base(d, npu) <==> npu in d.affinity && cpu in d.affinity[npu] && cpu in d.allowed
  {
    CandidatesFacts(d);
    BaseAllowed(d, npu);
  }

  // ----- what an extended pool holds -----

  /** lscpu lists the CPU under the node. */
  predicate Lists(n: Nodes, node: int, cpu: int) { node in n.cpusOf && cpu in n.cpusOf[node] }

  /** All affine CPUs of the NPU in the cpuset are on node `u`, and there are some. */
  ghost predicate AllOn(d: Device, n: Nodes, npu: int, u: int) {
    && (exists cpu :: cpu in Affinity(d, npu) && cpu in d.allowed)
    && forall cpu :: cpu in Affinity(d, npu) && cpu in d.allowed ==> cpu in n.nodeOf && n.nodeOf[cpu] == u
  }

  /** The CPU is on the node after the one the NPU is on, of `count` nodes. */
  ghost predicate OnNextNode(d: Device, n: Nodes, npu: int, count: nat, cpu: int)
    requires count > 0
  {
    exists u :: AllOn(d, n, npu, u) && cpu in d.allowed && Lists(n, (u + 1) % count, cpu)
  }

  /** The pool holds the affine CPUs in the cpuset and those on the next node. */
  ghost predicate HoldsNext(d: Device, n: Nodes, npu: int, pool: seq<int>, count: nat) {
    && count > 0
    && forall cpu :: cpu in pool <==>
         (cpu in Affinity(d, npu) && cpu in d.allowed) || OnNextNode(d, n, npu, count, cpu)
  }

  /** Reading missing nodes adds them without CPUs. */
  ghost predicate Grown(n: Nodes, m: Nodes) {
    && m.nodeOf == n.nodeOf && m.cpusOf != map[] && |m.cpusOf| >= |n.cpusOf|
    && forall node, cpu :: Lists(m, node, cpu) <==> Lists(n, node, cpu)
  }

  /** The nodes are numbered 0, 1, 2, ... without gaps. */
  ghost predicate Dense(n: Nodes) { forall node :: 0 <= node < |n.cpusOf| ==> node in n.cpusOf }

  lemma SingleNodeIs(d: Device, n: Nodes, npu: int, u: int)
    ensures SingleNode(n, Base(d, npu)) && n.nodeOf[Base(d, npu)[0]] == u <==> AllOn(d, n, npu, u)
  {
    var base := Base(d, npu);
    BaseAllowed(d, npu);
    hide Base, Affinity;
    if base != [] { assert base[0] in base; }
    if AllOn(d, n, npu, u) {
      assert forall cpu :: cpu in base ==> cpu in n.nodeOf && n.nodeOf[cpu] == u;
    }
  }

  lemma ReadGrows(n: Nodes, node: int)
    requires n.cpusOf != map[]
    ensures Grown(n, Read(n, node)) && (node in n.cpusOf ==> Read(n, node) == n)
  {
    var read := Read(n, node);
    assert node in read.cpusOf;
    if node !in n.cpusOf {
      assert read.cpusOf.Keys == n.cpusOf.Keys + {node};
      assert |read.cpusOf.Keys| == |n.cpusOf.Keys| + 1;
      assert |read.cpusOf| == |read.cpusOf.Keys| && |n.cpusOf| == |n.cpusOf.Keys|;
    }
  }

  lemma ExtendOneNpu(d: Device, n: Nodes, npu: int)
    requires n.cpusOf != map[] && Base(d, npu) != [] && ExtendNuma(d, n, Base(d, npu)).known
    ensures HoldsNext(d, n, npu, ExtendNuma(d, n, Base(d, npu)).cpus, |n.cpusOf|)
    ensures Grown(n, ExtendNuma(d, n, Base(d, npu)).nodes)
    ensures Dense(n) ==> ExtendNuma(d, n, Base(d, npu)).nodes == n
  {
    var base, count := Base(d, npu), |n.cpusOf|;
    BaseAllowed(d, npu);
    if SingleNode(n, base) {
      var u := n.nodeOf[base[0]];
      var next := (u + 1) % count;
      forall v ensures AllOn(d, n, npu, v) <==> v == u { SingleNodeIs(d, n, npu, v); }
      ReadGrows(n, next);
      FilterFacts(Read(n, next).cpusOf[next], d.allowed);
      SortUniqueFacts(base + Filter(Read(n, next).cpusOf[next], d.allowed));
      forall cpu
        ensures OnNextNode(d, n, npu, count, cpu) <==> cpu in d.allowed && Lists(n, next, cpu)
      {
        if cpu in d.allowed && Lists(n, next, cpu) { assert AllOn(d, n, npu, u); }
      }
      hide SortUnique, Filter, Base, OnNextNode;
    } else {
      forall v ensures !AllOn(d, n, npu, v) { SingleNodeIs(d, n, npu, v); }
      hide Base, SingleNode;
    }
  }

  lemma GrownKeepsNext(d: Device, n: Nodes, m: Nodes, npu: int, pool: seq<int>, count: nat)
    requires Grown(n, m) && HoldsNext(d, m, npu, pool, count)
    ensures HoldsNext(d, n, npu, pool, count)
  {
    hide Lists;
    forall u ensures AllOn(d, m, npu, u) <==> AllOn(d, n, npu, u) {}
    hide AllOn;
    forall cpu ensures OnNextNode(d, m, npu, count, cpu) <==> OnNextNode(d, n, npu, count, cpu) {}
  }

  /** Every extended pool of a build: as if the number of nodes were `count`, which is that of
      lscpu when its nodes have no gaps, and may grow by missing nodes otherwise. */
  lemma {:induction false} ExtendedPools(d: Device, n: Nodes, m: Nodes, pools: Pools, npus: seq<int>, npu: int)
      returns (count: nat)
    requires n.cpusOf != map[] && Grown(n, m) && Distinct(npus) && (forall k :: k in pools ==> k !in npus)
    requires npu in npus && !ExtendAll(d, m, pools, npus).raised
    ensures npu in ExtendAll(d, m, pools, npus).pools && count >= |n.cpusOf|
    ensures HoldsNext(d, n, npu, ExtendAll(d, m, pools, npus).pools[npu], count)
    ensures Dense(n) && m == n ==> count == |n.cpusOf|
    decreases |npus|
  {
    var first := npus[0];
    BaseAllowed(d, first);
    ExtendAllFacts(d, m, pools, npus);
    var ext := ExtendNuma(d, m, Base(d, first));
    ExtendNumaFacts(d, m, Base(d, first));
    ExtendOneNpu(d, m, first);
    var rest := pools[first := ext.cpus];
    if npu == first {
      count := |m.cpusOf|;
      ExtendAllFacts(d, ext.nodes, rest, npus[1..]);
      GrownKeepsNext(d, n, m, npu, ext.cpus, count);
    } else {
      hide HoldsNext;
      GrownTrans(n, m, ext.nodes);
      count := ExtendedPools(d, n, ext.nodes, rest, npus[1..], npu);
    }
  }

  lemma GrownTrans(n: Nodes, m: Nodes, k: Nodes)
    requires Grown(n, m) && Grown(m, k)
    ensures Grown(n, k)
  {
    hide Lists;
  }
}
