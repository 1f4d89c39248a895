/** From the tables of the machine to the pools: the device an allocator works on is read
    from one id map, so what the builders ask of a device always holds. */
module CpuSetup {
  import opened Common
  import opened CpuLists
  import opened CpuSlices
  import opened CpuTopo
  import opened CpuClusters
  import opened CpuDevices
  import opened CpuProgram

  /** The parsed tables: the id map, the process rows and visible ids, the cpuset, the
      topology, and the rows of lscpu. */
  datatype Machine = Machine(
    info: IdMap,
    processes: seq<Row>,
    visible: Option<seq<int>>,
    allowed: seq<int>,
    affinity: map<int, seq<int>>,
    lscpu: seq<(int, int)>,
    mode: Mode,
    threadsPerCore: Option<int>)

  /** What holds of every device read from a machine. */
  ghost predicate ReadFrom(d: Device, m: Machine) {
    && d.allowed == m.allowed && d.affinity == m.affinity && d.reserveIrq == (m.mode != Ascend950)
    && Ascending(d.allLogic) && (forall id: int :: id in d.allLogic <==> id >= 0 && HasId(m.info, id))
    && Ascending(d.running) && (forall id: int :: id in d.running <==> Runs(m.info, m.processes, m.visible, id))
    && d.running != []
  }

  /** Running NPUs and logical NPUs come from the same map, so none is missing. */
  lemma RunningAreLogical(d: Device, m: Machine)
    requires ReadFrom(d, m)
    ensures Distinct(d.allLogic) && forall npu :: npu in d.running ==> npu in d.allLogic
    ensures TotalNpus(d) == |d.allLogic| > 0
  {
    forall npu | npu in d.running ensures npu in d.allLogic {
      var i :| 0 <= i < |m.processes| && Resolves(m.info, m.processes[i], npu);
      ResolvedIsLogical(m.info, m.processes[i].npu, m.processes[i].chip);
    }
    assert d.running[0] in d.running;
  }

  /** The tables determine the device. */
  lemma ReadOnce(d: Device, e: Device, m: Machine)
    requires ReadFrom(d, m) && ReadFrom(e, m)
    ensures d == e
  {
    forall id: int ensures id in d.allLogic <==> id in e.allLogic {}
    AscendingUnique(d.allLogic, e.allLogic);
    AscendingUnique(d.running, e.running);
  }

  /** Every process row names a chip of the id map, and some process is visible. */
  ghost predicate Readable(m: Machine) {
    && (forall i :: 0 <= i < |m.processes| ==> ResolveLogicId(m.info, m.processes[i].npu, m.processes[i].chip).Some?)
    && exists id: int :: Runs(m.info, m.processes, m.visible, id)
  }

  /** None stands for the RuntimeErrors of reading the running NPUs. */
  method ReadDevice(m: Machine) returns (d: Option<Device>)
    ensures d.Some? <==> Readable(m)
    ensures d.Some? ==> ReadFrom(d.value, m)
  {
    hide ResolveLogicId, Runs, HasId;
    var running := RunningNpus(m.info, m.processes, m.visible);
    if running.None? { return None; }
    assert running.value[0] in running.value;
    var allLogic := AllLogicNpus(m.info);
    d := Some(Device(m.allowed, running.value, m.affinity, allLogic, m.mode != Ascend950));
  }

  // ----- how a build ends -----

  /** Global slices are used. */
  predicate Sliced(m: Machine) { m.mode == GlobalSlice || (m.mode == TopoAffinity && m.affinity == map[]) }

  ghost predicate BuildRaises(d: Device, m: Machine)
    requires ReadFrom(d, m) && m.lscpu != [] && m.mode != Ascend950
  {
    RunningAreLogical(d, m);
    NodesListed(m.lscpu);
    if Sliced(m) then GlobalBuild(map[], d).raised else TopoBuild(d, NodeMap(m.lscpu)).raised
  }

  ghost function OutcomeOf(d: Device, m: Machine): Outcome
    requires ReadFrom(d, m)
  {
    var n := NodeMap(m.lscpu);
    if m.lscpu == [] then Raised
    else if m.mode == Ascend950 then Outcome950(d, n, UvbPool(d, n), m.threadsPerCore)
    else if BuildRaises(d, m) then Raised
    else Done
  }

  /** The pools of a build that succeeds. */
  ghost function PoolsFrom(d: Device, m: Machine): Pools
    requires ReadFrom(d, m) && OutcomeOf(d, m) == Done
  {
    RunningAreLogical(d, m);
    NodesListed(m.lscpu);
    var n := NodeMap(m.lscpu);
    if m.mode == Ascend950 then Pools950(d, n, UvbPool(d, n), ClusterSize(m.threadsPerCore).value)
    else if Sliced(m) then GlobalBuild(map[], d).pools
    else TopoBuild(d, n).pools
  }

  /** The whole way from the tables to the pools, for any tables at all. */
  method BuildFromMachine(m: Machine) returns (alloc: Option<CpuAlloc>, outcome: Outcome)
    ensures alloc.Some? <==> Readable(m)
    ensures alloc.None? ==> outcome == Raised
    ensures alloc.Some? ==> ReadFrom(alloc.value.device, m) && outcome == OutcomeOf(alloc.value.device, m)
    ensures outcome == Done ==> alloc.value.npuCpuPool == PoolsFrom(alloc.value.device, m)
    ensures alloc.Some? && outcome == Declined ==> alloc.value.npuCpuPool == map[]
  {
    var device := ReadDevice(m);
    if device.None? { return None, Raised; }
    RunningAreLogical(device.value, m);
    if m.lscpu != [] { NodesListed(m.lscpu); }
    var a := new CpuAlloc(device.value);
    outcome := a.BuildCpuPools(m.lscpu, m.mode, m.threadsPerCore);
    alloc := Some(a);
  }

  // ----- when it ends so -----

  /** Too few CPUs for the NPUs of the machine, or an id beyond their number. */
  predicate SlicesFail(d: Device) {
    && d.running != [] && SortUnique(d.allowed) != [] && TotalNpus(d) > 0
    && (|SortUnique(d.allowed)| / TotalNpus(d) < (if d.reserveIrq then 5 else 3)
        || exists npu :: npu in d.running && !(0 <= npu < TotalNpus(d)))
  }

  lemma SlicesFailExactly(d: Device)
    ensures GlobalBuild(map[], d).raised <==> SlicesFail(d)
  {
    FillFacts(map[], SortUnique(d.allowed), TotalNpus(d), d.running);
    if d.running != [] { assert d.running[0] in d.running; }
  }

  /** A candidate without an affine CPU in the cpuset, or with one that lscpu does not list. */
  predicate TopoFails(d: Device, n: Nodes, npus: seq<int>) {
    exists npu :: npu in npus && (Base(d, npu) == [] || !KnownBase(d, n, npu))
  }

  lemma {:induction false} TopoFailsExactly(d: Device, n: Nodes, pools: Pools, npus: seq<int>)
    requires n.cpusOf != map[]
    ensures ExtendAll(d, n, pools, npus).raised <==> TopoFails(d, n, npus)
    decreases |npus|
  {
    if npus != [] {
      var base := Base(d, npus[0]);
      BaseAllowed(d, npus[0]);
      assert forall npu :: npu in npus <==> npu == npus[0] || npu in npus[1..];
      var ext := ExtendNuma(d, n, base);
      if base != [] && ext.known {
        ExtendNumaFacts(d, n, base);
        assert forall npu :: KnownBase(d, ext.nodes, npu) == KnownBase(d, n, npu);
        TopoFailsExactly(d, ext.nodes, pools[npus[0] := ext.cpus], npus[1..]);
      }
    }
  }

  /** Candidate `i` has a CPU lscpu does not list, and all before it are on a single node. */
  predicate StopsAt(d: Device, n: Nodes, npus: seq<int>, i: nat) {
    i < |npus| && !KnownBase(d, n, npus[i]) && forall j :: 0 <= j < i ==> NodeOf(d, n, npus[j]).Some?
  }

  ghost predicate UnlistedFirst(d: Device, n: Nodes, npus: seq<int>) { exists i: nat :: StopsAt(d, n, npus, i) }

  lemma StopsLater(d: Device, n: Nodes, npus: seq<int>, i: nat)
    requires npus != [] && NodeOf(d, n, npus[0]).Some?
    ensures StopsAt(d, n, npus[1..], i) <==> StopsAt(d, n, npus, i + 1)
  {
    hide KnownBase, NodeOf;
    forall j | 0 < j < |npus| ensures npus[j] == npus[1..][j - 1] {}
  }

  lemma {:induction false} SiftRaises(d: Device, n: Nodes, npus: seq<int>)
    ensures Sift(d, n, npus) == Raised <==> UnlistedFirst(d, n, npus)
    decreases |npus|
  {
    if npus != [] {
      SiftRaises(d, n, npus[1..]);
      if !KnownBase(d, n, npus[0]) { assert StopsAt(d, n, npus, 0); }
      if NodeOf(d, n, npus[0]).Some? {
        forall i: nat ensures StopsAt(d, n, npus[1..], i) <==> StopsAt(d, n, npus, i + 1) { StopsLater(d, n, npus, i); }
        NodeKnown(d, n, npus[0]);
        hide StopsAt;
        forall i: nat | StopsAt(d, n, npus, i) ensures UnlistedFirst(d, n, npus[1..]) {
          assert i > 0 by { NotFirst(d, n, npus, i); }
          assert StopsAt(d, n, npus[1..], i - 1);
        }
      }
    }
  }

  lemma NodeKnown(d: Device, n: Nodes, npu: int)
    requires NodeOf(d, n, npu).Some?
    ensures KnownBase(d, n, npu)
  {}

  lemma NotFirst(d: Device, n: Nodes, npus: seq<int>, i: nat)
    requires StopsAt(d, n, npus, i) && KnownBase(d, n, npus[0])
    ensures i > 0
  {}

  /** Ascend 950: some candidate is not on one node, some node has too few clusters, or a
      visible NPU is no candidate. */
  ghost predicate ClustersLack(d: Device, n: Nodes, uvb: seq<int>, threadsPerCore: Option<int>) {
    || d.affinity == map[] || ClusterSize(threadsPerCore).None?
    || !Fits(d, n, uvb, ClusterSize(threadsPerCore).value)
    || exists npu :: npu in d.running && npu !in Candidates(d)
  }

  /** Exactly when a build raises. */
  ghost predicate Raises(d: Device, m: Machine) {
    var n := NodeMap(m.lscpu);
    || m.lscpu == []
    || (Sliced(m) && SlicesFail(d))
    || (m.mode == TopoAffinity && m.affinity != map[] && TopoFails(d, n, Candidates(d)))
    || (m.mode == Ascend950 && m.affinity != map[] && ClusterSize(m.threadsPerCore).Some?
        && UnlistedFirst(d, n, Candidates(d)))
  }

  /** The outcome of every machine, in terms of its tables. */
  lemma OutcomeExactly(d: Device, m: Machine)
    requires ReadFrom(d, m)
    ensures OutcomeOf(d, m) == Raised <==> Raises(d, m)
    ensures var n := NodeMap(m.lscpu);
      OutcomeOf(d, m) == Declined <==>
      m.mode == Ascend950 && !Raises(d, m) && ClustersLack(d, n, UvbPool(d, n), m.threadsPerCore)
  {
    RunningAreLogical(d, m);
    var n := NodeMap(m.lscpu);
    if m.lscpu != [] {
      NodesListed(m.lscpu);
      SlicesFailExactly(d);
      TopoFailsExactly(d, n, map[], Candidates(d));
      SiftRaises(d, n, Candidates(d));
      SiftFacts(d, n, Candidates(d));
      hide NodeMap, GlobalBuild, SlicesFail, TopoFails, ExtendAll, Sift, UnlistedFirst, Candidates, UvbPool, NodeOf;
    }
  }

  lemma SliceAllowed(d: Device, npu: int)
    requires SortUnique(d.allowed) != [] && !GlobalBuild(map[], d).raised && npu in d.running
    ensures npu in GlobalBuild(map[], d).pools
    ensures forall cpu :: cpu in GlobalBuild(map[], d).pools[npu] ==> cpu in d.allowed
  {
    PoolOf(d, npu);
    SortUniqueFacts(d.allowed);
    SliceBounds(|SortUnique(d.allowed)|, TotalNpus(d), npu);
  }

  lemma ClusterCpusAllowed(d: Device, n: Nodes, uvb: seq<int>, node: int)
    ensures forall cpu :: cpu in ClusterCpus(d, n, uvb, node) ==> cpu in d.allowed
  {
    KeepFacts(Sort(if node in n.cpusOf then n.cpusOf[node] else []), cpu => cpu in d.allowed && cpu !in uvb);
  }

  lemma ClusterAllowed(d: Device, n: Nodes, uvb: seq<int>, size: nat, npu: int)
    requires size > 0 && Fits(d, n, uvb, size) && npu in Candidates(d)
    ensures forall cpu :: cpu in ClusterOf(d, n, uvb, size, npu) ==> cpu in d.allowed
  {
    var node := NodeOf(d, n, npu).value;
    ClusterCpusAllowed(d, n, uvb, node);
    NpusOfFacts(d, n, node);
    hide ClusterCpus, NpusOf;
    ClusterInside(|ClusterCpus(d, n, uvb, node)|, size, IndexOf(NpusOf(d, n, node), npu));
  }

  /** Exactly the visible NPUs are served, with CPUs of the cpuset only. */
  ghost predicate Served(d: Device, pools: Pools) {
    && pools.Keys == Elements(d.running)
    && forall npu :: npu in pools ==> forall cpu :: cpu in pools[npu] ==> cpu in d.allowed
  }

  lemma SlicedServed(d: Device)
    requires d.running != [] && SortUnique(d.allowed) != [] && !GlobalBuild(map[], d).raised
    ensures Served(d, GlobalBuild(map[], d).pools)
  {
    GlobalBuildFacts(d);
    hide GlobalBuild, SortUnique;
    forall npu | npu in d.running ensures forall cpu :: cpu in GlobalBuild(map[], d).pools[npu] ==> cpu in d.allowed {
      SliceAllowed(d, npu);
    }
  }

  lemma TopoServed(d: Device, n: Nodes)
    requires n.cpusOf != map[] && Distinct(d.allLogic) && d.running != []
    requires forall npu :: npu in d.running ==> npu in d.allLogic
    requires !TopoBuild(d, n).raised
    ensures Served(d, TopoBuild(d, n).pools)
  {
    TopoEntries(d, n, d.running[0]);
    hide TopoBuild;
    forall npu | npu in d.running ensures forall cpu :: cpu in TopoBuild(d, n).pools[npu] ==> cpu in d.allowed {
      TopoEntries(d, n, npu);
    }
  }

  lemma ClustersServed(d: Device, n: Nodes, uvb: seq<int>, size: nat)
    requires size > 0 && Fits(d, n, uvb, size) && forall npu :: npu in d.running ==> npu in Candidates(d)
    ensures Served(d, Pools950(d, n, uvb, size))
  {
    hide Fits, ClusterOf;
    forall npu | npu in d.running ensures forall cpu :: cpu in ClusterOf(d, n, uvb, size, npu) ==> cpu in d.allowed {
      ClusterAllowed(d, n, uvb, size, npu);
    }
  }

  /** In every mode a successful build serves the visible NPUs; only global slicing of an
      empty cpuset succeeds without serving any. */
  lemma VisibleServed(d: Device, m: Machine)
    requires ReadFrom(d, m) && OutcomeOf(d, m) == Done
    ensures if Sliced(m) && SortUnique(m.allowed) == [] then PoolsFrom(d, m) == map[] else Served(d, PoolsFrom(d, m))
  {
    RunningAreLogical(d, m);
    NodesListed(m.lscpu);
    var n := NodeMap(m.lscpu);
    if Sliced(m) {
      if SortUnique(m.allowed) != [] { SlicedServed(d); }
    } else if m.mode == TopoAffinity {
      TopoServed(d, n);
    } else {
      ClustersServed(d, n, UvbPool(d, n), ClusterSize(m.threadsPerCore).value);
    }
  }
}
