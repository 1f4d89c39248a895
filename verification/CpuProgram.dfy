/** The CPU allocator as code that fills its maps. */
module CpuProgram {
  import opened Common
  import opened CpuLists
  import opened CpuSlices
  import opened CpuTopo
  import opened CpuClusters

  // ----- the maps read from lscpu -----

  /** `lscpu -e=CPU,NODE` rows, each filed under its node. */
  function NodeMap(rows: seq<(int, int)>): Nodes {
    if rows == [] then Nodes(map[], map[])
    else
      var before := NodeMap(rows[..|rows| - 1]);
      var (cpu, node) := rows[|rows| - 1];
      var listed := if node in before.cpusOf then before.cpusOf[node] else [];
      Nodes(before.nodeOf[cpu := node], before.cpusOf[node := listed + [cpu]])
  }

  /** When lscpu lists each CPU once, the two maps agree. */
  lemma {:induction false} NodeMapConsistent(rows: seq<(int, int)>)
    requires forall i, j :: 0 <= i < j < |rows| ==> rows[i].0 != rows[j].0
    ensures NumaConsistent(NodeMap(rows))
    ensures forall cpu :: cpu in NodeMap(rows).nodeOf <==> exists i :: 0 <= i < |rows| && rows[i].0 == cpu
  {
    if rows != [] {
      var front := rows[..|rows| - 1];
      NodeMapConsistent(front);
      var (cpu, node) := rows[|rows| - 1];
      assert forall i :: 0 <= i < |front| ==> rows[i] == front[i];
      assert cpu !in NodeMap(front).nodeOf;
    }
  }

  lemma NodesListed(rows: seq<(int, int)>)
    requires rows != []
    ensures NodeMap(rows).cpusOf != map[]
  {
    assert rows[|rows| - 1].1 in NodeMap(rows).cpusOf;
  }

  datatype Outcome = Done | Declined | Raised

  datatype Mode = GlobalSlice | TopoAffinity | Ascend950

  class CpuAlloc {
    const device: Device
    var nodeOf: map<int, int>
    var cpusOf: map<int, seq<int>>
    var npuCpuPool: Pools
    var uvbCpuPool: seq<int>
    var assignMain: Pools
    var assignAcl: Pools
    var assignRel: Pools

    constructor (device: Device)
      ensures this.device == device && npuCpuPool == map[] && nodeOf == map[] && cpusOf == map[]
    {
      this.device := device;
      nodeOf, cpusOf, npuCpuPool, uvbCpuPool := map[], map[], map[], [];
      assignMain, assignAcl, assignRel := map[], map[], map[];
    }

    function Lscpu(): Nodes
      reads this
    {
      Nodes(nodeOf, cpusOf)
    }

    /** False is the RuntimeError for output without a NUMA node. */
    method BuildCpuNodeMap(rows: seq<(int, int)>) returns (ok: bool)
      requires nodeOf == map[] && cpusOf == map[]
      modifies this`nodeOf, this`cpusOf
      ensures Lscpu() == NodeMap(rows)
      ensures ok <==> rows != []
      ensures ok <==> cpusOf != map[]
    {
      for i := 0 to |rows|
        invariant Lscpu() == NodeMap(rows[..i])
        invariant cpusOf == map[] <==> i == 0
      {
        var (cpu, node) := rows[i];
        nodeOf := nodeOf[cpu := node];
        cpusOf := cpusOf[node := (if node in cpusOf then cpusOf[node] else []) + [cpu]];
        assert rows[..i + 1][..i] == rows[..i];
      }
      assert rows[..|rows|] == rows;
      ok := cpusOf != map[];
    }

    // ----- global slices -----

    method BuildGlobalSlice() returns (raised: bool)
      modifies this`npuCpuPool
      ensures Built(npuCpuPool, raised) == GlobalBuild(old(npuCpuPool), device)
    {
      var cpus := SortUnique(device.allowed);
      if device.running == [] || cpus == [] { return false; }
      var total := TotalNpus(device);
      if |cpus| / total < MinCpus(device) { return true; }
      assert device.running[0..] == device.running;
      for i := 0 to |device.running|
        invariant Fill(npuCpuPool, cpus, total, device.running[i..]) == GlobalBuild(old(npuCpuPool), device)
      {
        var npu := device.running[i];
        if npu < 0 || npu >= total { return true; }
        npuCpuPool := npuCpuPool[npu := Slice(cpus, total, npu)];
        assert device.running[i..][1..] == device.running[i + 1..];
      }
      raised := false;
    }

    /** The three dicts hold the roles of one NPU. */
    predicate Assigned(npu: int, roles: Roles)
      reads this
    {
      && npu in assignMain && assignMain[npu] == roles.main
      && npu in assignAcl && assignAcl[npu] == roles.acl
      && npu in assignRel && assignRel[npu] == roles.release
    }

    /** Splits one pool that is large enough. */
    method AssignRoles(npu: int, pool: seq<int>)
      requires |pool| >= MinCpus(device)
      modifies this`assignMain, this`assignAcl, this`assignRel
      ensures var roles := RolesOf(pool, device.reserveIrq);
        && assignMain == old(assignMain)[npu := roles.main]
        && assignAcl == old(assignAcl)[npu := roles.acl]
        && assignRel == old(assignRel)[npu := roles.release]
    {
      assignMain := assignMain[npu := if device.reserveIrq then pool[2..|pool| - 2] else pool[..|pool| - 2]];
      assignAcl := assignAcl[npu := [pool[|pool| - 2]]];
      assignRel := assignRel[npu := [pool[|pool| - 1]]];
    }

    /** Splits every pool; true is the RuntimeError for a pool that is too small. */
    method AllocateDefaultRoles() returns (raised: bool)
      modifies this`assignMain, this`assignAcl, this`assignRel
      ensures raised <==>
        exists npu :: npu in npuCpuPool && |npuCpuPool[npu]| < if device.reserveIrq then 5 else 3
      ensures !raised ==> forall npu :: npu in npuCpuPool ==>
        |npuCpuPool[npu]| >= MinCpus(device) && Assigned(npu, RolesOf(npuCpuPool[npu], device.reserveIrq))
    {
      var todo := npuCpuPool.Items;
      while todo != {}
        invariant todo <= npuCpuPool.Items
        invariant forall npu :: npu in npuCpuPool && (npu, npuCpuPool[npu]) !in todo ==>
          |npuCpuPool[npu]| >= MinCpus(device) && Assigned(npu, RolesOf(npuCpuPool[npu], device.reserveIrq))
        decreases |todo|
      {
        var item :| item in todo;
        var (npu, pool) := item;
        assert npu in npuCpuPool && npuCpuPool[npu] == pool;
        if |pool| < MinCpus(device) { return true; }
        AssignRoles(npu, pool);
        todo := todo - {item};
      }
      raised := false;
    }

    // ----- topology affinity -----

    /** The loop that extends the pool of every candidate. */
    method ExtendPools(npus: seq<int>) returns (raised: bool)
      requires npuCpuPool == map[] && cpusOf != map[]
      modifies this`npuCpuPool, this`cpusOf
      ensures Extended(npuCpuPool, Lscpu(), raised) == ExtendAll(device, old(Lscpu()), map[], npus)
    {
      assert npus[0..] == npus;
      for i := 0 to |npus|
        invariant cpusOf != map[]
        invariant ExtendAll(device, Lscpu(), npuCpuPool, npus[i..]) == ExtendAll(device, old(Lscpu()), map[], npus)
      {
        var base := Base(device, npus[i]);
        assert npus[i..][1..] == npus[i + 1..];
        if base == [] { return true; }
        var ext := ExtendNuma(device, Lscpu(), base);
        if !ext.known { return true; }
        BaseAllowed(device, npus[i]);
        ExtendNumaFacts(device, Lscpu(), base);
        cpusOf := ext.nodes.cpusOf;
        npuCpuPool := npuCpuPool[npus[i] := ext.cpus];
      }
      raised := false;
    }

    /** Groups the candidates by their pool, in the order of the pool dict. */
    method GroupByPool(npus: seq<int>) returns (groups: map<seq<int>, seq<int>>)
      requires forall npu :: npu in npus ==> npu in npuCpuPool
      ensures groups == GroupMap(npuCpuPool, npus)
    {
      groups := map[];
      for i := 0 to |npus|
        invariant groups == GroupMap(npuCpuPool, npus[..i])
      {
        var npu := npus[i];
        assert npu in npus;
        var key := npuCpuPool[npu];
        groups := groups[key := (if key in groups then groups[key] else []) + [npu]];
        assert npus[..i + 1][..i] == npus[..i];
      }
      assert npus[..|npus|] == npus;
    }

    /** Shares the pool of a group among its NPUs. */
    method AverageDistribute(final: Pools, group: seq<int>, key: seq<int>) returns (result: Pools)
      requires group != [] && Distinct(group)
      ensures result.Keys == final.Keys + Elements(group)
      ensures forall npu :: npu in final && npu !in group ==> result[npu] == final[npu]
      ensures forall i :: 0 <= i < |group| ==> result[group[i]] == Share(Sort(key), |group|, i)
    {
      result := final;
      var cpus := Sort(key);
      var per := |cpus| / |group|;
      for i := 0 to |group|
        invariant result.Keys == final.Keys + Elements(group[..i])
        invariant forall npu :: npu in final && npu !in group[..i] ==> result[npu] == final[npu]
        invariant forall j :: 0 <= j < i ==> result[group[j]] == Share(cpus, |group|, j)
      {
        ShareStartMonotone(|cpus|, |group|, i, i + 1);
        var end := if i < |group| - 1 then (i + 1) * per else |cpus|;
        assert i * per == ShareStart(|cpus|, |group|, i) && end == ShareStart(|cpus|, |group|, i + 1);
        assert cpus[i * per..end] == Share(cpus, |group|, i);
        hide Share, ShareStart, Sort;
        result := result[group[i] := cpus[i * per..end]];
        assert group[..i + 1] == group[..i] + [group[i]];
      }
      assert group[..|group|] == group;
    }

    /** Gives every candidate its final pool, one group after another in any order. */
    method Distribute(npus: seq<int>) returns (final: Pools)
      requires Distinct(npus) && forall npu :: npu in npus ==> npu in npuCpuPool
      ensures forall npu :: npu in npus ==> npu in final && final[npu] == FinalPool(npuCpuPool, npus, npu)
    {
      var groups := GroupByPool(npus);
      GroupMapFacts(npuCpuPool, npus);
      forall npu | npu in npus { InGroups(npuCpuPool, npus, npu); }
      final := map[];
      var todo := groups.Keys;
      while todo != {}
        invariant todo <= groups.Keys
        invariant forall npu :: npu in npus && npuCpuPool[npu] !in todo ==>
                    npu in final && final[npu] == FinalPool(npuCpuPool, npus, npu)
        decreases |todo|
      {
        var key :| key in todo;
        var group := groups[key];
        GroupFacts(npuCpuPool, npus, key);
        if |group| == 1 {
          var only := group[0];
          assert only in group;
          final := final[only := npuCpuPool[only]];
        } else {
          final := AverageDistribute(final, group, key);
        }
        todo := todo - {key};
      }
    }

    /** The whole mode; without topology data it falls back to global slices. */
    method BuildTopoAffinity() returns (raised: bool)
      requires npuCpuPool == map[] && cpusOf != map[] && Distinct(device.allLogic)
      requires forall npu :: npu in device.running ==> npu in device.allLogic
      modifies this`npuCpuPool, this`cpusOf
      ensures device.affinity == map[] ==> Built(npuCpuPool, raised) == GlobalBuild(map[], device)
      ensures device.affinity != map[] ==> Built(npuCpuPool, raised) == TopoBuild(device, old(Lscpu()))
    {
      if device.affinity == map[] {
        raised := BuildGlobalSlice();
      } else {
        raised := BuildFromTopology();
      }
    }

    method BuildFromTopology() returns (raised: bool)
      requires npuCpuPool == map[] && cpusOf != map[] && Distinct(device.allLogic)
      requires forall npu :: npu in device.running ==> npu in device.allLogic
      modifies this`npuCpuPool, this`cpusOf
      ensures Built(npuCpuPool, raised) == TopoBuild(device, old(Lscpu()))
    {
      var npus := Candidates(device);
      CandidatesFacts(device);
      ghost var nodes := Lscpu();
      raised := ExtendPools(npus);
      BuildSteps(device, nodes, Extended(npuCpuPool, Lscpu(), raised));
      if raised { return; }
      var final := Distribute(npus);
      FinalSteps(device, nodes, npuCpuPool, final);
      npuCpuPool := map npu | npu in device.running :: final[npu];
    }
    // ----- Ascend 950 clusters -----

    /** The CPUs reserved for uvb_poll_window_thread. */
    method ReserveUvbPool()
      modifies this`uvbCpuPool
      ensures uvbCpuPool == UvbPool(device, Lscpu())
    {
      uvbCpuPool := Keep(if 0 in cpusOf then cpusOf[0] else [], cpu => cpu in device.allowed && cpu != 0);
    }

    /** Groups the candidates by node, stopping at the first one without a single node. */
    method GroupByNode(npus: seq<int>) returns (numaToNpus: map<int, seq<int>>, outcome: Outcome)
      ensures outcome == Sift(device, Lscpu(), npus)
      ensures outcome == Done ==> NodeGroups(device, Lscpu(), npus, numaToNpus)
    {
      var n := Lscpu();
      numaToNpus := map[];
      ghost var whole := Sift(device, n, npus);
      assert npus[0..] == npus;
      for i := 0 to |npus|
        invariant Sift(device, n, npus[i..]) == whole
        invariant NodeGroups(device, n, npus[..i], numaToNpus)
      {
        SiftStep(device, n, npus, i);
        if !KnownBase(device, n, npus[i]) { return numaToNpus, Raised; }
        var base := Base(device, npus[i]);
        if !SingleNode(n, base) { return numaToNpus, Declined; }
        NodeGroupsNext(device, n, npus, i, numaToNpus);
        numaToNpus := Append(numaToNpus, n.nodeOf[base[0]], npus[i]);
      }
      assert npus[..|npus|] == npus;
      outcome := Done;
    }

    /** Hands the clusters of one node to its NPUs. */
    method AssignNode(final: Pools, size: nat, node: int, unsorted: seq<int>) returns (result: Pools, ok: bool)
      requires size > 0 && Distinct(device.allLogic) && unsorted == OnNode(device, Lscpu(), Candidates(device), node)
      requires forall npu :: npu in final ==> npu in Candidates(device)
      ensures ok <==> NodeFits(device, Lscpu(), uvbCpuPool, size, node)
      ensures ok ==> Filled(device, Lscpu(), uvbCpuPool, size, node, result)
      ensures forall other :: other != node && Filled(device, Lscpu(), uvbCpuPool, size, other, final) ==>
        Filled(device, Lscpu(), uvbCpuPool, size, other, result)
      ensures forall npu :: npu in result ==> npu in Candidates(device)
    {
      var n := Lscpu();
      var cpus := ClusterCpus(device, n, uvbCpuPool, node);
      var clusters := Clusters(cpus, size);
      var npus := Sort(unsorted);
      hide NodeFits, Filled, ClusterCpus, Clusters, NpusOf, Candidates;
      NpusOfFacts(device, n, node);
      SortedOnNode(device, n, node);
      FitsIs(device, n, uvbCpuPool, size, node);
      if |clusters| < |npus| { return final, false; }
      result := HandOut(final, clusters, npus);
      HandedOut(device, n, uvbCpuPool, size, node, final, result);
      FilledNext(device, n, uvbCpuPool, size, node, final, result);
      ok := true;
    }

    /** Node after node, in any order. */
    method AssignNodes(numaToNpus: map<int, seq<int>>, size: nat) returns (final: Pools, ok: bool)
      requires size > 0 && Distinct(device.allLogic)
      requires NodeGroups(device, Lscpu(), Candidates(device), numaToNpus)
      ensures ok <==> forall node :: node in numaToNpus ==> NodeFits(device, Lscpu(), uvbCpuPool, size, node)
      ensures ok ==> forall node :: node in numaToNpus ==> Filled(device, Lscpu(), uvbCpuPool, size, node, final)
      ensures ok ==> forall npu :: npu in final ==> npu in Candidates(device)
    {
      final, ok := map[], true;
      var todo := numaToNpus.Items;
      while todo != {}
        invariant todo <= numaToNpus.Items && ok
        invariant forall node :: node in numaToNpus && (node, numaToNpus[node]) !in todo ==>
          NodeFits(device, Lscpu(), uvbCpuPool, size, node) && Filled(device, Lscpu(), uvbCpuPool, size, node, final)
        invariant forall npu :: npu in final ==> npu in Candidates(device)
        decreases |todo|
      {
        var item :| item in todo;
        final, ok := AssignNode(final, size, item.0, item.1);
        if !ok { return; }
        todo := todo - {item};
      }
    }

    /** False and the KeyError of an unlisted CPU leave the pools as they were. */
    method Build950(threadsPerCore: Option<int>) returns (outcome: Outcome)
      requires Distinct(device.allLogic)
      modifies this`npuCpuPool
      ensures outcome == Outcome950(device, Lscpu(), uvbCpuPool, threadsPerCore)
      ensures outcome != Done ==> npuCpuPool == old(npuCpuPool)
      ensures outcome == Done ==>
        npuCpuPool == Pools950(device, Lscpu(), uvbCpuPool, ClusterSize(threadsPerCore).value)
    {
      var n := Lscpu();
      var size := ClusterSize(threadsPerCore);
      if device.affinity == map[] || size.None? { return Declined; }
      var npus := Candidates(device);
      var numaToNpus, sifted := GroupByNode(npus);
      if sifted != Done { return sifted; }
      var final, ok := AssignNodes(numaToNpus, size.value);
      LoopsDecide(device, n, uvbCpuPool, size.value, numaToNpus, final, ok);
      if !ok || exists npu :: npu in device.running && npu !in final { return Declined; }
      npuCpuPool := map npu | npu in device.running :: final[npu];
      outcome := Done;
    }

    // ----- all modes -----

    /** Reads the NUMA map and builds the pools in the mode of the device type. */
    method BuildCpuPools(rows: seq<(int, int)>, mode: Mode, threadsPerCore: Option<int>) returns (outcome: Outcome)
      requires nodeOf == map[] && cpusOf == map[] && npuCpuPool == map[]
      requires Distinct(device.allLogic) && forall npu :: npu in device.running ==> npu in device.allLogic
      modifies this`nodeOf, this`cpusOf, this`npuCpuPool, this`uvbCpuPool
      ensures rows == [] ==> outcome == Raised && npuCpuPool == map[]
      ensures rows != [] && (mode == GlobalSlice || (mode == TopoAffinity && device.affinity == map[])) ==>
        outcome != Declined && Built(npuCpuPool, outcome == Raised) == GlobalBuild(map[], device)
      ensures rows != [] && mode == TopoAffinity && device.affinity != map[] ==>
        && outcome != Declined && NodeMap(rows).cpusOf != map[]
        && Built(npuCpuPool, outcome == Raised) == TopoBuild(device, NodeMap(rows))
      ensures rows != [] && mode == Ascend950 ==>
        && outcome == Outcome950(device, NodeMap(rows), UvbPool(device, NodeMap(rows)), threadsPerCore)
        && (outcome != Done ==> npuCpuPool == map[])
        && (outcome == Done ==> npuCpuPool == Pools950(device, NodeMap(rows), UvbPool(device, NodeMap(rows)),
                                                       ClusterSize(threadsPerCore).value))
    {
      var ok := BuildCpuNodeMap(rows);
      if !ok { return Raised; }
      match mode
      case Ascend950 =>
        ReserveUvbPool();
        outcome := Build950(threadsPerCore);
      case GlobalSlice =>
        var raised := BuildGlobalSlice();
        outcome := if raised then Raised else Done;
      case TopoAffinity =>
        var raised := BuildTopoAffinity();
        outcome := if raised then Raised else Done;
    }
  }

  // ----- Ascend 950: what the loops compute -----

  predicate KnownBase(d: Device, n: Nodes, npu: int) { forall c :: c in Base(d, npu) ==> c in n.nodeOf }

  /** The first candidate with an unlisted CPU raises, one without a single node declines. */
  function Sift(d: Device, n: Nodes, npus: seq<int>): Outcome
    decreases |npus|
  {
    if npus == [] then Done
    else if !KnownBase(d, n, npus[0]) then Raised
    else if NodeOf(d, n, npus[0]).None? then Declined
    else Sift(d, n, npus[1..])
  }

  ghost function Outcome950(d: Device, n: Nodes, uvb: seq<int>, threadsPerCore: Option<int>): Outcome {
    if d.affinity == map[] || ClusterSize(threadsPerCore).None? then Declined
    else if Sift(d, n, Candidates(d)) != Done then Sift(d, n, Candidates(d))
    else if Fits(d, n, uvb, ClusterSize(threadsPerCore).value)
        && forall npu :: npu in d.running ==> npu in Candidates(d) then Done
    else Declined
  }

  /** The pools of the visible NPUs after a successful build. */
  ghost function Pools950(d: Device, n: Nodes, uvb: seq<int>, size: nat): Pools
    requires size > 0 && Fits(d, n, uvb, size)
    requires forall npu :: npu in d.running ==> npu in Candidates(d)
  {
    map npu | npu in d.running :: ClusterOf(d, n, uvb, size, npu)
  }

  lemma SiftStep(d: Device, n: Nodes, npus: seq<int>, i: nat)
    requires i < |npus|
    ensures Sift(d, n, npus[i..]) == if !KnownBase(d, n, npus[i]) then Raised
      else if NodeOf(d, n, npus[i]).None? then Declined else Sift(d, n, npus[i + 1..])
  {
    assert npus[i..][1..] == npus[i + 1..];
  }

  lemma {:induction false} SiftFacts(d: Device, n: Nodes, npus: seq<int>)
    ensures Sift(d, n, npus) == Done <==> forall npu :: npu in npus ==> NodeOf(d, n, npu).Some?
    decreases |npus|
  {
    if npus != [] {
      SiftFacts(d, n, npus[1..]);
      assert npus[0] in npus;
      assert forall npu :: npu in npus <==> npu == npus[0] || npu in npus[1..];
    }
  }

  /** The NPUs of `npus` on a node, in their order. */
  function OnNode(d: Device, n: Nodes, npus: seq<int>, node: int): seq<int> {
    Keep(npus, npu => NodeOf(d, n, npu) == Some(node))
  }

  ghost predicate NodeGroups(d: Device, n: Nodes, npus: seq<int>, groups: map<int, seq<int>>) {
    && (forall node :: node in groups ==> groups[node] == OnNode(d, n, npus, node) && groups[node] != [])
    && (forall node :: node !in groups ==> OnNode(d, n, npus, node) == [])
  }

  /** groups[key].append(npu) on a defaultdict(list) */
  function Append(groups: map<int, seq<int>>, key: int, npu: int): map<int, seq<int>> {
    groups[key := (if key in groups then groups[key] else []) + [npu]]
  }

  lemma NodeGroupsNext(d: Device, n: Nodes, npus: seq<int>, i: nat, groups: map<int, seq<int>>)
    requires i < |npus| && NodeGroups(d, n, npus[..i], groups) && NodeOf(d, n, npus[i]).Some?
    ensures NodeGroups(d, n, npus[..i + 1], Append(groups, NodeOf(d, n, npus[i]).value, npus[i]))
  {
    var node := NodeOf(d, n, npus[i]).value;
    var next := Append(groups, node, npus[i]);
    assert npus[..i + 1] == npus[..i] + [npus[i]];
    forall other ensures
      if other in next then next[other] == OnNode(d, n, npus[..i + 1], other) && next[other] != []
      else OnNode(d, n, npus[..i + 1], other) == []
    {
      OnNodeNext(d, n, npus[..i], npus[i], other);
    }
  }

  lemma OnNodeNext(d: Device, n: Nodes, npus: seq<int>, npu: int, node: int)
    ensures OnNode(d, n, npus + [npu], node)
         == OnNode(d, n, npus, node) + (if NodeOf(d, n, npu) == Some(node) then [npu] else [])
  {
    assert (npus + [npu])[..|npus|] == npus;
  }

  /** clusters[index] for index, npu in enumerate(npus) */
  method HandOut(final: Pools, clusters: seq<seq<int>>, npus: seq<int>) returns (result: Pools)
    requires |npus| <= |clusters| && Distinct(npus)
    ensures result.Keys == final.Keys + Elements(npus)
    ensures forall npu :: npu in final && npu !in npus ==> result[npu] == final[npu]
    ensures forall i :: 0 <= i < |npus| ==> result[npus[i]] == clusters[i]
  {
    result := final;
    for i := 0 to |npus|
      invariant result.Keys == final.Keys + Elements(npus[..i])
      invariant forall npu :: npu in final && npu !in npus[..i] ==> result[npu] == final[npu]
      invariant forall j :: 0 <= j < i ==> result[npus[j]] == clusters[j]
    {
      result := result[npus[i] := clusters[i]];
      assert npus[..i + 1] == npus[..i] + [npus[i]];
    }
    assert npus[..|npus|] == npus;
  }

  /** Every NPU of the node has the cluster of its rank. */
  ghost predicate Filled(d: Device, n: Nodes, uvb: seq<int>, size: nat, node: int, final: Pools)
    requires size > 0
  {
    var cpus, npus := ClusterCpus(d, n, uvb, node), NpusOf(d, n, node);
    |npus| <= |cpus| / size
    && forall i: nat :: i < |npus| ==> npus[i] in final && final[npus[i]] == Cluster(cpus, size, i)
  }

  lemma SortedOnNode(d: Device, n: Nodes, node: int)
    ensures Sort(OnNode(d, n, Candidates(d), node)) == NpusOf(d, n, node)
  {}

  lemma FitsIs(d: Device, n: Nodes, uvb: seq<int>, size: nat, node: int)
    requires size > 0
    ensures NodeFits(d, n, uvb, size, node) <==> |NpusOf(d, n, node)| <= |Clusters(ClusterCpus(d, n, uvb, node), size)|
  {
    hide Clusters, ClusterCpus, NpusOf;
  }

  lemma HandedOut(d: Device, n: Nodes, uvb: seq<int>, size: nat, node: int, before: Pools, final: Pools)
    requires size > 0 && |NpusOf(d, n, node)| <= |Clusters(ClusterCpus(d, n, uvb, node), size)|
    requires forall npu :: npu in before ==> npu in Candidates(d)
    requires final.Keys == before.Keys + Elements(NpusOf(d, n, node))
    requires var npus, clusters := NpusOf(d, n, node), Clusters(ClusterCpus(d, n, uvb, node), size);
      forall i :: 0 <= i < |npus| ==> final[npus[i]] == clusters[i]
    ensures Filled(d, n, uvb, size, node, final)
    ensures forall npu :: npu in final ==> npu in Candidates(d)
  {
    NpusOfFacts(d, n, node);
    hide NpusOf, ClusterCpus, Candidates, Cluster;
    var npus := NpusOf(d, n, node);
    forall i: nat | i < |npus| ensures npus[i] in final { assert npus[i] in npus; }
  }

  lemma FilledNext(d: Device, n: Nodes, uvb: seq<int>, size: nat, node: int, before: Pools, final: Pools)
    requires size > 0 && final.Keys == before.Keys + Elements(NpusOf(d, n, node))
    requires forall npu :: npu in before && npu !in NpusOf(d, n, node) ==> final[npu] == before[npu]
    ensures forall other :: other != node && Filled(d, n, uvb, size, other, before) ==>
      Filled(d, n, uvb, size, other, final)
  {
    NpusOfFacts(d, n, node);
    forall other | other != node && Filled(d, n, uvb, size, other, before)
      ensures Filled(d, n, uvb, size, other, final)
    {
      NpusOfFacts(d, n, other);
      var npus := NpusOf(d, n, other);
      forall i: nat | i < |npus| ensures npus[i] in final && final[npus[i]] == before[npus[i]] {
        var npu := npus[i];
        assert npu in npus;
      }
    }
  }

  /** The nodes of the groups are the nodes of the candidates. */
  lemma FitsByNode(d: Device, n: Nodes, uvb: seq<int>, size: nat, groups: map<int, seq<int>>)
    requires size > 0 && NodeGroups(d, n, Candidates(d), groups)
    requires forall npu :: npu in Candidates(d) ==> NodeOf(d, n, npu).Some?
    ensures Fits(d, n, uvb, size) <==> forall node :: node in groups ==> NodeFits(d, n, uvb, size, node)
    ensures forall npu :: npu in Candidates(d) ==> NodeOf(d, n, npu).value in groups
  {
    forall npu | npu in Candidates(d) ensures NodeOf(d, n, npu).value in groups {
      var node := NodeOf(d, n, npu).value;
      KeepFacts(Candidates(d), k => NodeOf(d, n, k) == Some(node));
      assert npu in OnNode(d, n, Candidates(d), node);
    }
    forall node | node in groups && Fits(d, n, uvb, size) ensures NodeFits(d, n, uvb, size, node) {
      KeepFacts(Candidates(d), k => NodeOf(d, n, k) == Some(node));
      var npu := groups[node][0];
      assert npu in groups[node];
      assert npu in OnNode(d, n, Candidates(d), node);
    }
  }

  /** What the two loops leave for the last step. */
  lemma LoopsDecide(d: Device, n: Nodes, uvb: seq<int>, size: nat, groups: map<int, seq<int>>, final: Pools, ok: bool)
    requires size > 0 && NodeGroups(d, n, Candidates(d), groups) && Sift(d, n, Candidates(d)) == Done
    requires ok <==> forall node :: node in groups ==> NodeFits(d, n, uvb, size, node)
    requires ok ==> forall node :: node in groups ==> Filled(d, n, uvb, size, node, final)
    requires ok ==> forall npu :: npu in final ==> npu in Candidates(d)
    ensures ok <==> Fits(d, n, uvb, size)
    ensures ok ==> forall npu :: npu in final <==> npu in Candidates(d)
    ensures ok && (forall npu :: npu in d.running ==> npu in Candidates(d)) ==>
      (map npu | npu in d.running :: final[npu]) == Pools950(d, n, uvb, size)
  {
    SiftFacts(d, n, Candidates(d));
    FitsByNode(d, n, uvb, size, groups);
    hide Sift, NodeFits, Filled, NodeGroups, Candidates, ClusterOf, NodeOf;
    assert ok <==> Fits(d, n, uvb, size);
    hide Fits, Pools950;
    if ok {
      FilledMeansClusterOf(d, n, uvb, size, groups, final);
      if forall npu :: npu in d.running ==> npu in Candidates(d) { FinalIsPools950(d, n, uvb, size, final); }
    }
  }

  lemma FinalIsPools950(d: Device, n: Nodes, uvb: seq<int>, size: nat, final: Pools)
    requires size > 0 && Fits(d, n, uvb, size) && forall npu :: npu in d.running ==> npu in Candidates(d)
    requires forall npu :: npu in Candidates(d) ==> npu in final && final[npu] == ClusterOf(d, n, uvb, size, npu)
    ensures (map npu | npu in d.running :: final[npu]) == Pools950(d, n, uvb, size)
  {
    hide Candidates, ClusterOf, NodeFits, NodeOf;
  }

  lemma FilledMeansClusterOf(d: Device, n: Nodes, uvb: seq<int>, size: nat, groups: map<int, seq<int>>, final: Pools)
    requires size > 0 && Fits(d, n, uvb, size)
    requires forall npu :: npu in Candidates(d) ==> NodeOf(d, n, npu).value in groups
    requires forall node :: node in groups ==> Filled(d, n, uvb, size, node, final)
    ensures forall npu :: npu in Candidates(d) ==> npu in final && final[npu] == ClusterOf(d, n, uvb, size, npu)
  {
    forall npu | npu in Candidates(d) ensures npu in final && final[npu] == ClusterOf(d, n, uvb, size, npu) {
      var node := NodeOf(d, n, npu).value;
      NpusOfFacts(d, n, node);
      var i := IndexOf(NpusOf(d, n, node), npu);
      assert Filled(d, n, uvb, size, node, final);
    }
  }

  /** What TopoBuild makes of the extended pools. */
  lemma BuildSteps(d: Device, n: Nodes, x: Extended)
    requires n.cpusOf != map[] && Distinct(d.allLogic) && forall npu :: npu in d.running ==> npu in d.allLogic
    requires x == ExtendAll(d, n, map[], Candidates(d))
    ensures x.raised ==> TopoBuild(d, n) == Built(x.pools, true)
    ensures !x.raised ==> forall npu :: npu in Candidates(d) ==> npu in x.pools
    ensures forall npu :: npu in d.running ==> npu in Candidates(d)
    ensures !x.raised ==> TopoBuild(d, n) == Built(PoolsOf(x.pools, Candidates(d), d.running), false)
  {
    CandidatesFacts(d);
    ExtendAllFacts(d, n, map[], Candidates(d));
  }

  lemma FinalSteps(d: Device, n: Nodes, pools: Pools, final: Pools)
    requires forall npu :: npu in Candidates(d) ==> npu in pools
    requires forall npu :: npu in d.running ==> npu in Candidates(d)
    requires forall npu :: npu in Candidates(d) ==> npu in final && final[npu] == FinalPool(pools, Candidates(d), npu)
    ensures (map npu | npu in d.running :: final[npu]) == PoolsOf(pools, Candidates(d), d.running)
  {}

  /** The dict of groups after going through `npus`. */
  function GroupMap(pools: Pools, npus: seq<int>): map<seq<int>, seq<int>> {
    if npus == [] then map[]
    else
      var before, last := GroupMap(pools, npus[..|npus| - 1]), npus[|npus| - 1];
      if last !in pools then before
      else before[pools[last] := (if pools[last] in before then before[pools[last]] else []) + [last]]
  }

  lemma {:induction false} GroupMapFacts(pools: Pools, npus: seq<int>)
    ensures forall key :: key in GroupMap(pools, npus) ==>
      GroupMap(pools, npus)[key] == Group(pools, npus, key) && Group(pools, npus, key) != []
    ensures forall key :: key !in GroupMap(pools, npus) ==> Group(pools, npus, key) == []
  {
    if npus != [] {
      GroupMapFacts(pools, npus[..|npus| - 1]);
    }
  }

  lemma InGroups(pools: Pools, npus: seq<int>, npu: int)
    requires npu in npus && npu in pools
    ensures pools[npu] in GroupMap(pools, npus)
  {}
}
