/** Two processes on one machine that never communicate: same tables, but each sees its own
    process rows and visible ids. */
module CpuProcesses {
  import opened Common
  import opened CpuLists
  import opened CpuSlices
  import opened CpuTopo
  import opened CpuOverlap
  import opened CpuClusters
  import opened CpuDevices
  import opened CpuProgram
  import opened CpuSetup

  predicate SameMachine(m: Machine, o: Machine) { o == m.(processes := o.processes, visible := o.visible) }

  /** A process that reads its device and builds its pools. */
  ghost predicate Builds(m: Machine, d: Device) { ReadFrom(d, m) && OutcomeOf(d, m) == Done }

  lemma DevicesDiffer(m: Machine, d: Device, o: Machine, e: Device)
    requires SameMachine(m, o) && ReadFrom(d, m) && ReadFrom(e, o)
    ensures e == d.(running := e.running)
  {
    forall id: int ensures id in d.allLogic <==> id in e.allLogic {}
    AscendingUnique(d.allLogic, e.allLogic);
  }

  // ----- global slices -----

  lemma SlicedAgree(m: Machine, d: Device, o: Machine, e: Device, a: int, b: int)
    requires SameMachine(m, o) && Builds(m, d) && Builds(o, e) && Sliced(m)
    requires a in PoolsFrom(d, m) && b in PoolsFrom(e, o)
    ensures a == b ==> PoolsFrom(d, m)[a] == PoolsFrom(e, o)[b]
    ensures a != b ==> Elements(PoolsFrom(d, m)[a]) !! Elements(PoolsFrom(e, o)[b])
  {
    DevicesDiffer(m, d, o, e);
    RunningAreLogical(d, m);
    RunningAreLogical(e, o);
    hide GlobalBuild;
    VisibleServed(d, m);
    VisibleServed(e, o);
    GlobalPoolsAgree(d, e, a, b);
  }

  // ----- topology groups -----

  lemma TopoPool(m: Machine, d: Device, o: Machine, e: Device, a: int)
    requires SameMachine(m, o) && Builds(m, d) && Builds(o, e) && m.mode == TopoAffinity && m.affinity != map[]
    requires a in PoolsFrom(e, o)
    ensures var n := NodeMap(m.lscpu);
      && n.cpusOf != map[] && Distinct(d.allLogic) && Succeeds(d, n, d.running) && Succeeds(d, n, e.running)
      && a in e.running && PoolsFrom(e, o)[a] == PoolIn(d, n, e.running, a)
  {
    DevicesDiffer(m, d, o, e);
    RunningAreLogical(d, m);
    RunningAreLogical(e, o);
    NodesListed(m.lscpu);
    assert d.(running := d.running) == d;
    hide TopoBuild;
    VisibleServed(e, o);
  }

  lemma TopoAgree(m: Machine, d: Device, o: Machine, e: Device, a: int, b: int)
    requires SameMachine(m, o) && Builds(m, d) && Builds(o, e) && m.mode == TopoAffinity && m.affinity != map[]
    requires a in PoolsFrom(d, m) && b in PoolsFrom(e, o)
    ensures a == b ==> PoolsFrom(d, m)[a] == PoolsFrom(e, o)[b]
    ensures NodeMap(m.lscpu).cpusOf != map[]
    ensures ExtendedApart(d, NodeMap(m.lscpu)) && a != b ==> Elements(PoolsFrom(d, m)[a]) !! Elements(PoolsFrom(e, o)[b])
  {
    var n := NodeMap(m.lscpu);
    TopoPool(m, d, o, e, b);
    TopoPool(m, d, m, d, a);
    hide PoolsFrom, Succeeds, PoolIn, TopoBuild, Builds;
    SameStart(d, n, d.running);
    SameStart(d, n, e.running);
    if ExtendedApart(d, n) { NeverShareExactly(d, n); }
  }

  /** No affinity lists a CPU twice, and any two extended pools are equal or apart. */
  ghost predicate ExtendedApart(d: Device, n: Nodes)
    requires n.cpusOf != map[]
  {
    var npus, pools := Candidates(d), ExtendAll(d, n, map[], Candidates(d)).pools;
    && (forall npu :: npu in d.allLogic ==> Distinct(Affinity(d, npu)))
    && (forall npu :: npu in npus ==> npu in pools)
    && PoolsEqualOrApart(pools, npus)
  }

  // ----- Ascend 950 clusters -----

  lemma ClusterPool(m: Machine, d: Device, o: Machine, e: Device, a: int)
    requires SameMachine(m, o) && Builds(m, d) && Builds(o, e) && m.mode == Ascend950 && a in PoolsFrom(e, o)
    ensures ClusterSize(m.threadsPerCore).Some?
    ensures var n, size := NodeMap(m.lscpu), ClusterSize(m.threadsPerCore).value;
      && Fits(d, n, UvbPool(d, n), size) && a in Candidates(d)
      && PoolsFrom(e, o)[a] == ClusterOf(d, n, UvbPool(d, n), size, a)
  {
    DevicesDiffer(m, d, o, e);
    var n, size := NodeMap(m.lscpu), ClusterSize(m.threadsPerCore).value;
    assert UvbPool(e, n) == UvbPool(d, n);
    SameCandidates950(d, e.running, n, UvbPool(d, n), size);
    SameAssignment(d, e.running, n, UvbPool(d, n), size, a);
  }

  lemma ClustersAgree(m: Machine, d: Device, o: Machine, e: Device, a: int, b: int)
    requires SameMachine(m, o) && Builds(m, d) && Builds(o, e) && m.mode == Ascend950
    requires a in PoolsFrom(d, m) && b in PoolsFrom(e, o)
    ensures a == b ==> PoolsFrom(d, m)[a] == PoolsFrom(e, o)[b]
    ensures ListedOnce(m) && a != b ==> Elements(PoolsFrom(d, m)[a]) !! Elements(PoolsFrom(e, o)[b])
  {
    var n, size := NodeMap(m.lscpu), ClusterSize(m.threadsPerCore).value;
    ClusterPool(m, d, m, d, a);
    ClusterPool(m, d, o, e, b);
    hide PoolsFrom, ClusterOf, Candidates, Fits;
    if ListedOnce(m) && a != b {
      NodeMapConsistent(m.lscpu);
      PoolsDisjoint(d, n, UvbPool(d, n), size, a, b);
    }
  }

  // ----- all modes -----

  /** lscpu lists each CPU once. */
  ghost predicate ListedOnce(m: Machine) { forall i, j :: 0 <= i < j < |m.lscpu| ==> m.lscpu[i].0 != m.lscpu[j].0 }

  /** What keeps different NPUs apart in each mode: nothing more for global slices, one row for
      each CPU for clusters, extended pools that are equal or apart for topology groups. */
  ghost predicate KeepsApart(m: Machine, d: Device)
    requires m.lscpu != []
  {
    NodesListed(m.lscpu);
    if m.mode == Ascend950 then ListedOnce(m) else Sliced(m) || ExtendedApart(d, NodeMap(m.lscpu))
  }

  /** Two processes that both succeed give one NPU the same CPUs, and different NPUs different
      CPUs. */
  lemma ProcessesAgree(m: Machine, d: Device, o: Machine, e: Device, a: int, b: int)
    requires SameMachine(m, o) && Builds(m, d) && Builds(o, e)
    requires a in PoolsFrom(d, m) && b in PoolsFrom(e, o)
    ensures a == b ==> PoolsFrom(d, m)[a] == PoolsFrom(e, o)[b]
    ensures a != b && KeepsApart(m, d) ==> Elements(PoolsFrom(d, m)[a]) !! Elements(PoolsFrom(e, o)[b])
  {
    hide PoolsFrom, ExtendedApart, ListedOnce;
    if m.mode == Ascend950 {
      ClustersAgree(m, d, o, e, a, b);
    } else if Sliced(m) {
      SlicedAgree(m, d, o, e, a, b);
    } else {
      TopoAgree(m, d, o, e, a, b);
    }
  }
}
