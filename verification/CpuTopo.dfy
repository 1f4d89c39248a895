/** Topology-affinity mode: each NPU starts from its affine CPUs, extended by the next
    NUMA node; NPUs that end up with the same pool share it evenly. */
module CpuTopo {
  import opened CpuLists
  import opened CpuSlices
  import opened Common

  /** lscpu's map, both ways.  `cpusOf` is a defaultdict: reading a missing node adds it. */
  datatype Nodes = Nodes(nodeOf: map<int, int>, cpusOf: map<int, seq<int>>)

  /** [cpu for cpu in xs if cpu in keep] */
  function Filter(xs: seq<int>, keep: seq<int>): seq<int> { Keep(xs, x => x in keep) }

  lemma FilterFacts(xs: seq<int>, keep: seq<int>)
    ensures forall x :: x in Filter(xs, keep) <==> x in xs && x in keep
    ensures Distinct(xs) ==> Distinct(Filter(xs, keep))
    ensures Ascending(xs) ==> Ascending(Filter(xs, keep))
  {
    KeepFacts(xs, x => x in keep);
  }

  function Affinity(d: Device, npu: int): seq<int> { if npu in d.affinity then d.affinity[npu] else [] }

  /** The affine CPUs of an NPU inside the cpuset. */
  function Base(d: Device, npu: int): seq<int> { Filter(Affinity(d, npu), d.allowed) }

  predicate IsCandidate(d: Device, npu: int) {
    npu in d.running || exists cpu :: cpu in Affinity(d, npu) && cpu in d.allowed
  }

  function Candidates(d: Device): seq<int> { Keep(d.allLogic, npu => IsCandidate(d, npu)) }

  lemma CandidatesFacts(d: Device)
    ensures forall npu :: npu in Candidates(d) <==> npu in d.allLogic && IsCandidate(d, npu)
    ensures Distinct(d.allLogic) ==> Distinct(Candidates(d))
    ensures Ascending(d.allLogic) ==> Ascending(Candidates(d))
  {
    KeepFacts(d.allLogic, npu => IsCandidate(d, npu));
  }

  // ----- extend_numa -----

  /** `known` is false when a CPU has no NUMA node: the KeyError. */
  datatype Extension = Extension(cpus: seq<int>, nodes: Nodes, known: bool)

  predicate SingleNode(n: Nodes, cpus: seq<int>) {
    && cpus != []
    && (forall c :: c in cpus ==> c in n.nodeOf)
    && cpus[0] in n.nodeOf
    && (forall c :: c in cpus ==> n.nodeOf[c] == n.nodeOf[cpus[0]])
  }

  function Read(n: Nodes, node: int): Nodes {
    if node in n.cpusOf then n else n.(cpusOf := n.cpusOf[node := []])
  }

  function ExtendNuma(d: Device, n: Nodes, cpus: seq<int>): Extension
    requires n.cpusOf != map[]
  {
    if cpus == [] then Extension([], n, true)
    else if exists c :: c in cpus && c !in n.nodeOf then Extension(cpus, n, false)
    else if !SingleNode(n, cpus) then Extension(cpus, n, true)
    else
      var next := (n.nodeOf[cpus[0]] + 1) % |n.cpusOf|;
      var read := Read(n, next);
      Extension(SortUnique(cpus + Filter(read.cpusOf[next], d.allowed)), read, true)
  }

  lemma ExtendNumaFacts(d: Device, n: Nodes, cpus: seq<int>)
    requires n.cpusOf != map[] && forall c :: c in cpus ==> c in d.allowed
    ensures ExtendNuma(d, n, cpus).nodes.cpusOf != map[]
    ensures forall c :: c in cpus ==> c in ExtendNuma(d, n, cpus).cpus
    ensures forall c :: c in ExtendNuma(d, n, cpus).cpus ==> c in d.allowed
    ensures Distinct(cpus) ==> Distinct(ExtendNuma(d, n, cpus).cpus)
  {
    if cpus != [] && SingleNode(n, cpus) {
      var next := (n.nodeOf[cpus[0]] + 1) % |n.cpusOf|;
      var more := Filter(Read(n, next).cpusOf[next], d.allowed);
      FilterFacts(Read(n, next).cpusOf[next], d.allowed);
      SortUniqueFacts(cpus + more);
    }
  }

  // ----- the extended pools of all candidates -----

  datatype Extended = Extended(pools: Pools, nodes: Nodes, raised: bool)

  function ExtendAll(d: Device, n: Nodes, pools: Pools, npus: seq<int>): Extended
    requires n.cpusOf != map[]
    decreases |npus|
  {
    if npus == [] then Extended(pools, n, false)
    else
      var base := Base(d, npus[0]);
      if base == [] then Extended(pools, n, true)
      else
        var ext := ExtendNuma(d, n, base);
        if !ext.known then Extended(pools, n, true)
        else ExtendAll(d, ext.nodes, pools[npus[0] := ext.cpus], npus[1..])
  }

  /** What a pool of a candidate looks like. */
  predicate GoodPool(d: Device, npu: int, pool: seq<int>) {
    && Base(d, npu) != []
    && (forall c :: c in Base(d, npu) ==> c in pool)
    && (forall c :: c in pool ==> c in d.allowed)
  }

  lemma BaseAllowed(d: Device, npu: int)
    ensures forall c :: c in Base(d, npu) <==> c in Affinity(d, npu) && c in d.allowed
    ensures Distinct(Affinity(d, npu)) ==> Distinct(Base(d, npu))
    ensures Base(d, npu) != [] <==> exists c :: c in Affinity(d, npu) && c in d.allowed
  {
    FilterFacts(Affinity(d, npu), d.allowed);
    if Base(d, npu) != [] {
      var c := Base(d, npu)[0];
      assert c in Base(d, npu) && c in Affinity(d, npu) && c in d.allowed;
    }
  }

  lemma {:induction false} ExtendAllFacts(d: Device, n: Nodes, pools: Pools, npus: seq<int>)
    requires n.cpusOf != map[] && Distinct(npus)
    requires forall k :: k in pools ==> k !in npus
    ensures var x := ExtendAll(d, n, pools, npus);
      !x.raised ==>
        && x.pools.Keys == pools.Keys + Elements(npus)
        && (forall k :: k in pools ==> x.pools[k] == pools[k])
        && (forall npu :: npu in npus ==> GoodPool(d, npu, x.pools[npu]))
        && (forall npu :: npu in npus && Distinct(Affinity(d, npu)) ==> Distinct(x.pools[npu]))
    decreases |npus|
  {
    if npus != [] {
      var base := Base(d, npus[0]);
      BaseAllowed(d, npus[0]);
      var ext := ExtendNuma(d, n, base);
      if base != [] && ext.known {
        ExtendNumaFacts(d, n, base);
        ExtendAllFacts(d, ext.nodes, pools[npus[0] := ext.cpus], npus[1..]);
        assert forall npu :: npu in npus <==> npu == npus[0] || npu in npus[1..];
      }
    }
  }

  // ----- sharing equal pools -----

  /** The NPUs with the pool of `key`, in the order of the pool dict. */
  function Group(pools: Pools, npus: seq<int>, key: seq<int>): seq<int> {
    Keep(npus, npu => npu in pools && pools[npu] == key)
  }

  lemma GroupFacts(pools: Pools, npus: seq<int>, key: seq<int>)
    ensures forall npu :: npu in Group(pools, npus, key) <==> npu in npus && npu in pools && pools[npu] == key
    ensures Distinct(npus) ==> Distinct(Group(pools, npus, key))
  {
    KeepFacts(npus, npu => npu in pools && pools[npu] == key);
  }

  function ShareStart(n: nat, parts: nat, i: nat): nat
    requires parts > 0
  {
    if i < parts then i * (n / parts) else n
  }

  lemma ShareStartMonotone(n: nat, parts: nat, i: nat, j: nat)
    requires parts > 0 && i <= j <= parts
    ensures ShareStart(n, parts, i) <= ShareStart(n, parts, j) <= n
  {
    var per := n / parts;
    MulLe(i, j, per);
    MulLe(j, parts, per);
  }

  /** Share `i` of `parts`: an even part, the last one taking the rest. */
  function Share(cpus: seq<int>, parts: nat, i: nat): seq<int>
    requires i < parts
  {
    ShareStartMonotone(|cpus|, parts, i, i + 1);
    cpus[ShareStart(|cpus|, parts, i)..ShareStart(|cpus|, parts, i + 1)]
  }

  ghost function ShareCuts(n: nat, parts: nat): (cuts: seq<nat>)
    requires parts > 0
    ensures |cuts| == parts + 1
  {
    seq(parts + 1, i requires 0 <= i => ShareStart(n, parts, i))
  }

  /** The shares cut the list into consecutive pieces. */
  lemma SharesAreCuts(cpus: seq<int>, parts: nat)
    requires parts > 0
    ensures CutsOf(ShareCuts(|cpus|, parts), |cpus|)
    ensures forall i: nat :: i < parts ==> Share(cpus, parts, i) == Piece(cpus, ShareCuts(|cpus|, parts), i)
  {
    var cuts := ShareCuts(|cpus|, parts);
    forall i, j | 0 <= i <= j < |cuts| ensures cuts[i] <= cuts[j] {
      ShareStartMonotone(|cpus|, parts, i, j);
    }
  }

  /** The final pool of one candidate. */
  function FinalPool(pools: Pools, npus: seq<int>, npu: int): seq<int>
    requires npu in pools && npu in npus
  {
    var key := pools[npu];
    GroupFacts(pools, npus, key);
    var group := Group(pools, npus, key);
    if |group| == 1 then key else Share(Sort(key), |group|, IndexOf(group, npu))
  }

  function PoolsOf(pools: Pools, npus: seq<int>, running: seq<int>): Pools
    requires forall npu :: npu in running ==> npu in pools && npu in npus
  {
    map npu | npu in running :: FinalPool(pools, npus, npu)
  }

  /** The whole mode, when the topology table is not empty. */
  function TopoBuild(d: Device, n: Nodes): Built
    requires n.cpusOf != map[] && Distinct(d.allLogic)
    requires forall npu :: npu in d.running ==> npu in d.allLogic
  {
    var npus := Candidates(d);
    CandidatesFacts(d);
    ExtendAllFacts(d, n, map[], npus);
    var x := ExtendAll(d, n, map[], npus);
    if x.raised then Built(x.pools, true) else Built(PoolsOf(x.pools, npus, d.running), false)
  }

  // ----- results -----

  lemma FinalPoolInside(pools: Pools, npus: seq<int>, npu: int)
    requires npu in pools && npu in npus
    ensures forall c :: c in FinalPool(pools, npus, npu) ==> c in pools[npu]
  {
    SortFacts(pools[npu]);
    var group := Group(pools, npus, pools[npu]);
    GroupFacts(pools, npus, pools[npu]);
    if |group| != 1 { ShareInside(Sort(pools[npu]), |group|, IndexOf(group, npu)); }
  }

  lemma ShareInside(cpus: seq<int>, parts: nat, i: nat)
    requires i < parts
    ensures forall c :: c in Share(cpus, parts, i) ==> c in cpus
  {
    ShareStartMonotone(|cpus|, parts, i, i + 1);
  }

  /** Every visible NPU has an entry; its CPUs are allowed and inside its extended pool. */
  lemma TopoEntries(d: Device, n: Nodes, npu: int)
    requires n.cpusOf != map[] && Distinct(d.allLogic) && npu in d.running
    requires forall k :: k in d.running ==> k in d.allLogic
    requires !TopoBuild(d, n).raised
    ensures npu in TopoBuild(d, n).pools
    ensures npu in ExtendAll(d, n, map[], Candidates(d)).pools
    ensures forall c :: c in TopoBuild(d, n).pools[npu] ==>
      c in d.allowed && c in ExtendAll(d, n, map[], Candidates(d)).pools[npu]
    ensures TopoBuild(d, n).pools.Keys == Elements(d.running)
  {
    CandidatesFacts(d);
    ExtendAllFacts(d, n, map[], Candidates(d));
    FinalPoolInside(ExtendAll(d, n, map[], Candidates(d)).pools, Candidates(d), npu);
  }

  /** NPUs with the same extended pool partition it: their final pools in group order
      concatenate to the sorted pool. */
  lemma GroupPartitionsPool(pools: Pools, npus: seq<int>, key: seq<int>)
    requires Distinct(npus) && Group(pools, npus, key) != []
    ensures var group := Group(pools, npus, key);
      && CutsOf(ShareCuts(|key|, |group|), |Sort(key)|)
      && Joined(Sort(key), ShareCuts(|key|, |group|), |group|) == Sort(key)
      && multiset(Sort(key)) == multiset(key)
      && (|group| > 1 ==> forall i: nat :: i < |group| ==>
           group[i] in pools && group[i] in npus
           && FinalPool(pools, npus, group[i]) == Piece(Sort(key), ShareCuts(|key|, |group|), i))
  {
    var group := Group(pools, npus, key);
    GroupFacts(pools, npus, key);
    SortFacts(key);
    SharesAreCuts(Sort(key), |group|);
    PiecesConcatenate(Sort(key), ShareCuts(|key|, |group|), |group|);
    forall i: nat | i < |group| && |group| > 1
      ensures group[i] in pools && group[i] in npus
      ensures FinalPool(pools, npus, group[i]) == Piece(Sort(key), ShareCuts(|key|, |group|), i)
    {
      assert group[i] in group;
      assert IndexOf(group, group[i]) == i;
    }
  }

  lemma SamePoolDisjoint(pools: Pools, npus: seq<int>, m: int, n: int)
    requires m in pools && n in pools && m in npus && n in npus && m != n
    requires Distinct(npus) && pools[m] == pools[n] && Distinct(pools[m])
    ensures Elements(FinalPool(pools, npus, m)) !! Elements(FinalPool(pools, npus, n))
  {
    var key := pools[m];
    var group := Group(pools, npus, key);
    GroupFacts(pools, npus, key);
    var i, j := IndexOf(group, m), IndexOf(group, n);
    assert i != j;
    SortFacts(key);
    SharesAreCuts(Sort(key), |group|);
    PiecesDisjoint(Sort(key), ShareCuts(|key|, |group|), i, j);
  }

  /** A successful build sees the same candidates whatever is visible. */
  lemma SameCandidates(d: Device, running: seq<int>)
    requires forall npu :: npu in d.allLogic && (npu in d.running || npu in running) ==> Base(d, npu) != []
    ensures Candidates(d) == Candidates(d.(running := running))
  {
    var e := d.(running := running);
    forall npu | npu in d.allLogic ensures IsCandidate(d, npu) == IsCandidate(e, npu) {
      BaseAllowed(d, npu);
    }
    KeepSame(d.allLogic, npu => IsCandidate(d, npu), npu => IsCandidate(e, npu));
  }

  lemma {:induction false} ExtendAllIgnoresRunning(d: Device, running: seq<int>, n: Nodes, pools: Pools, npus: seq<int>)
    requires n.cpusOf != map[]
    ensures ExtendAll(d, n, pools, npus) == ExtendAll(d.(running := running), n, pools, npus)
    decreases |npus|
  {
    if npus != [] {
      var base := Base(d, npus[0]);
      BaseAllowed(d, npus[0]);
      var ext := ExtendNuma(d, n, base);
      if base != [] && ext.known {
        ExtendNumaFacts(d, n, base);
        ExtendAllIgnoresRunning(d, running, ext.nodes, pools[npus[0] := ext.cpus], npus[1..]);
      }
    }
  }

  lemma VisibleHaveBase(d: Device, n: Nodes)
    requires n.cpusOf != map[] && Distinct(d.allLogic) && forall k :: k in d.running ==> k in d.allLogic
    requires !TopoBuild(d, n).raised
    ensures forall npu :: npu in d.running ==> Base(d, npu) != []
  {
    CandidatesFacts(d);
    ExtendAllFacts(d, n, map[], Candidates(d));
  }

  /** Two processes with the same cpuset and topology that both succeed work from the
      same extended pools: the same NPU gets the same CPUs, and different NPUs whose
      extended pools are equal get disjoint CPUs. */
  lemma TopoPoolsAgree(d: Device, running: seq<int>, nodes: Nodes, m: int, n: int)
    requires nodes.cpusOf != map[] && Distinct(d.allLogic)
    requires forall k :: k in d.running || k in running ==> k in d.allLogic
    requires !TopoBuild(d, nodes).raised && !TopoBuild(d.(running := running), nodes).raised
    requires m in d.running && n in running
    requires forall k :: k in d.allLogic ==> Distinct(Affinity(d, k))
    ensures m in TopoBuild(d, nodes).pools && n in TopoBuild(d.(running := running), nodes).pools
    ensures var x := ExtendAll(d, nodes, map[], Candidates(d)).pools;
      && m in x && n in x
      && (m == n ==> TopoBuild(d, nodes).pools[m] == TopoBuild(d.(running := running), nodes).pools[n])
      && (m != n && x[m] == x[n] ==>
            Elements(TopoBuild(d, nodes).pools[m]) !! Elements(TopoBuild(d.(running := running), nodes).pools[n]))
  {
    var e := d.(running := running);
    VisibleHaveBase(d, nodes);
    VisibleHaveBase(e, nodes);
    assert forall k :: Base(e, k) == Base(d, k);
    SameCandidates(d, running);
    ExtendAllIgnoresRunning(d, running, nodes, map[], Candidates(d));
    TopoEntries(d, nodes, m);
    TopoEntries(e, nodes, n);
    CandidatesFacts(d);
    ExtendAllFacts(d, nodes, map[], Candidates(d));
    var x := ExtendAll(d, nodes, map[], Candidates(d)).pools;
    if m != n && x[m] == x[n] {
      SamePoolDisjoint(x, Candidates(d), m, n);
    }
  }
}
