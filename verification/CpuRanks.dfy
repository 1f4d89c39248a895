/** What the Ascend 950 mode gives each NPU, by counting: the node of an NPU, the CPUs of a node
    that are cut into clusters, and the cluster of each rank. */
module CpuRanks {
  import opened Common
  import opened CpuLists
  import opened CpuSlices
  import opened CpuTopo
  import opened CpuShares
  import opened CpuClusters
  import opened CpuProgram

  // ----- lscpu -----

  /** The two maps hold exactly the rows; a CPU listed twice is on the node of its last row. */
  lemma {:induction false} NodeMapHolds(rows: seq<(int, int)>, cpu: int, node: int)
    ensures Lists(NodeMap(rows), node, cpu) <==> (cpu, node) in rows
    ensures cpu in NodeMap(rows).nodeOf <==> exists u :: (cpu, u) in rows
    ensures cpu in NodeMap(rows).nodeOf ==> (cpu, NodeMap(rows).nodeOf[cpu]) in rows
    ensures rows != [] ==> NodeMap(rows).nodeOf[rows[|rows| - 1].0] == rows[|rows| - 1].1
  {
    if rows != [] {
      var front, last := rows[..|rows| - 1], rows[|rows| - 1];
      NodeMapHolds(front, cpu, node);
      assert rows == front + [last];
      assert forall r :: r in rows <==> r in front || r == last;
    }
  }

  /** The CPUs of a node in the order of the rows. */
  function CpusUnder(rows: seq<(int, int)>, node: int): seq<int> {
    if rows == [] then [] else (if rows[0].1 == node then [rows[0].0] else []) + CpusUnder(rows[1..], node)
  }

  lemma {:induction false} CpusUnderAppend(rows: seq<(int, int)>, row: (int, int), node: int)
    ensures CpusUnder(rows + [row], node) == CpusUnder(rows, node) + if row.1 == node then [row.0] else []
  {
    if rows == [] {
      assert rows + [row] == [row] && [row][1..] == [];
    } else {
      assert (rows + [row])[0] == rows[0] && (rows + [row])[1..] == rows[1..] + [row];
      CpusUnderAppend(rows[1..], row, node);
      var head, last := if rows[0].1 == node then [rows[0].0] else [], if row.1 == node then [row.0] else [];
      var rest := CpusUnder(rows[1..], node);
      assert CpusUnder(rows + [row], node) == head + (rest + last) && CpusUnder(rows, node) == head + rest;
      hide CpusUnder;
      assert head + (rest + last) == head + rest + last;
    }
  }

  lemma {:induction false} NodeMapInOrder(rows: seq<(int, int)>, node: int)
    ensures node in NodeMap(rows).cpusOf ==> NodeMap(rows).cpusOf[node] == CpusUnder(rows, node)
    ensures node !in NodeMap(rows).cpusOf ==> CpusUnder(rows, node) == []
  {
    if rows != [] {
      var front, last := rows[..|rows| - 1], rows[|rows| - 1];
      assert rows == front + [last];
      NodeMapInOrder(front, node);
      CpusUnderAppend(front, last, node);
      hide CpusUnder;
    }
  }

  // ----- counting -----

  /** How many of the CPUs, or NPUs, come before `x`. */
  function Below(xs: set<int>, x: int): nat { |set e | e in xs && e < x| }

  lemma IndexIsBelow(xs: seq<int>, k: nat)
    requires Ascending(xs) && k < |xs|
    ensures Below(Elements(xs), xs[k]) == k
  {
    assert (set e | e in Elements(xs) && e < xs[k]) == Elements(xs[..k]);
    DistinctSize(xs[..k]);
  }

  /** The elements of a part of an ascending list, by their ranks. */
  lemma PartByRank(xs: seq<int>, a: nat, b: nat, x: int)
    requires Ascending(xs) && a <= b <= |xs|
    ensures x in xs[a..b] <==> x in xs && a <= Below(Elements(xs), x) < b
  {
    if x in xs {
      var k := IndexOf(xs, x);
      IndexIsBelow(xs, k);
      if x in xs[a..b] {
        var j :| a <= j < b && xs[j] == x;
      }
    }
  }

  // ----- the NPUs and the CPUs of a node -----

  lemma NodeOfExactly(d: Device, n: Nodes, npu: int, u: int)
    ensures NodeOf(d, n, npu) == Some(u) <==> AllOn(d, n, npu, u)
  {
    SingleNodeIs(d, n, npu, u);
  }

  /** The CPUs of node `u` that clusters are cut from: those of the cpuset, on node 0 CPU 0 only. */
  ghost predicate Usable(d: Device, n: Nodes, u: int, cpu: int) {
    Lists(n, u, cpu) && cpu in d.allowed && !(Lists(n, 0, cpu) && cpu != 0)
  }

  ghost predicate HoldsUsable(d: Device, n: Nodes, u: int, cpus: set<int>) {
    forall cpu :: cpu in cpus <==> Usable(d, n, u, cpu)
  }

  /** The candidates on node `u`. */
  ghost predicate HoldsNpus(d: Device, n: Nodes, u: int, npus: set<int>) {
    forall npu :: npu in npus <==> npu in Candidates(d) && AllOn(d, n, npu, u)
  }

  lemma SameUsable(d: Device, n: Nodes, u: int, a: set<int>, b: set<int>)
    requires HoldsUsable(d, n, u, a) && HoldsUsable(d, n, u, b)
    ensures a == b
  {
    forall cpu ensures cpu in a <==> cpu in b {}
  }

  lemma SameNpus(d: Device, n: Nodes, u: int, a: set<int>, b: set<int>)
    requires HoldsNpus(d, n, u, a) && HoldsNpus(d, n, u, b)
    ensures a == b
  {
    forall npu ensures npu in a <==> npu in b {}
  }

  lemma UvbHolds(d: Device, n: Nodes, cpu: int)
    ensures cpu in UvbPool(d, n) <==> Lists(n, 0, cpu) && cpu in d.allowed && cpu != 0
  {
    KeepFacts(if 0 in n.cpusOf then n.cpusOf[0] else [], c => c in d.allowed && c != 0);
  }

  lemma ClusterCpusHold(d: Device, n: Nodes, u: int)
    requires NumaConsistent(n)
    ensures Ascending(ClusterCpus(d, n, UvbPool(d, n), u))
    ensures HoldsUsable(d, n, u, Elements(ClusterCpus(d, n, UvbPool(d, n), u)))
  {
    var uvb := UvbPool(d, n);
    ClusterCpusFacts(d, n, uvb, u);
    var listed := if u in n.cpusOf then n.cpusOf[u] else [];
    SortFacts(listed);
    KeepFacts(Sort(listed), c => c in d.allowed && c !in uvb);
    forall cpu ensures cpu in uvb <==> Lists(n, 0, cpu) && cpu in d.allowed && cpu != 0 { UvbHolds(d, n, cpu); }
    hide UvbPool, Sort, Keep;
  }

  lemma NpusHold(d: Device, n: Nodes, u: int)
    requires Distinct(d.allLogic)
    ensures Ascending(NpusOf(d, n, u)) && HoldsNpus(d, n, u, Elements(NpusOf(d, n, u)))
  {
    NpusOfFacts(d, n, u);
    forall npu ensures NodeOf(d, n, npu) == Some(u) <==> AllOn(d, n, npu, u) { NodeOfExactly(d, n, npu, u); }
    hide NodeOf, AllOn, NpusOf, Candidates;
  }

  // ----- clusters -----

  /** Clusters are of eight physical CPUs. */
  lemma ClusterSizeIs(threadsPerCore: Option<int>)
    ensures ClusterSize(threadsPerCore) ==
            if threadsPerCore == Some(1) then Some(8) else if threadsPerCore == Some(2) then Some(16) else None
  {}

  /** The NPU that comes after r others on its node gets the CPUs from the r * size-th usable one
      on, `size` of them. */
  lemma ClusterByRank(d: Device, n: Nodes, size: nat, npu: int, u: int, cpus: set<int>, npus: set<int>, cpu: int)
    requires size > 0 && Fits(d, n, UvbPool(d, n), size) && npu in Candidates(d) && Distinct(d.allLogic)
    requires NumaConsistent(n) && AllOn(d, n, npu, u) && HoldsUsable(d, n, u, cpus) && HoldsNpus(d, n, u, npus)
    ensures cpu in ClusterOf(d, n, UvbPool(d, n), size, npu) <==>
      cpu in cpus && Below(npus, npu) * size <= Below(cpus, cpu) < Below(npus, npu) * size + size
  {
    var uvb := UvbPool(d, n);
    NodeOfExactly(d, n, npu, u);
    ClusterCpusHold(d, n, u);
    NpusHold(d, n, u);
    SameUsable(d, n, u, Elements(ClusterCpus(d, n, uvb, u)), cpus);
    SameNpus(d, n, u, Elements(NpusOf(d, n, u)), npus);
    NpusOfFacts(d, n, u);
    hide HoldsUsable, HoldsNpus, AllOn, NodeOf, ClusterCpus, NpusOf, UvbPool, Candidates, NumaConsistent;
    ClusterAt(ClusterCpus(d, n, uvb, u), NpusOf(d, n, u), size, npu, cpu);
  }

  lemma ClusterAt(all: seq<int>, group: seq<int>, size: nat, npu: int, cpu: int)
    requires Ascending(all) && Ascending(group) && npu in group && size > 0 && |group| <= |all| / size
    ensures var r := Below(Elements(group), npu);
      cpu in Cluster(all, size, IndexOf(group, npu)) <==>
      cpu in all && r * size <= Below(Elements(all), cpu) < r * size + size
  {
    var r := IndexOf(group, npu);
    IndexIsBelow(group, r);
    ClusterInside(|all|, size, r);
    PartByRank(all, r * size, r * size + size, cpu);
    hide Below;
  }

  lemma Room(k: nat, n: nat, size: nat)
    requires size > 0
    ensures k <= n / size <==> k * size <= n
  {
    var q := n / size;
    assert n == q * size + n % size;
    if k <= q { MulLe(k, q, size); } else { MulLe(q + 1, k, size); }
  }

  /** The build has a cluster for every candidate exactly when each is on one node and every node
      has `size` usable CPUs for each of its NPUs. */
  ghost predicate RoomForAll(d: Device, n: Nodes, size: nat) {
    forall npu :: npu in Candidates(d) ==> exists u :: AllOn(d, n, npu, u) && RoomOn(d, n, size, u)
  }

  ghost predicate RoomOn(d: Device, n: Nodes, size: nat, u: int) {
    forall cpus: set<int>, npus: set<int> ::
      HoldsUsable(d, n, u, cpus) && HoldsNpus(d, n, u, npus) ==> |npus| * size <= |cpus|
  }

  lemma RoomOnExactly(d: Device, n: Nodes, size: nat, u: int)
    requires size > 0 && Distinct(d.allLogic) && NumaConsistent(n)
    ensures NodeFits(d, n, UvbPool(d, n), size, u) <==> RoomOn(d, n, size, u)
  {
    var all, group := ClusterCpus(d, n, UvbPool(d, n), u), NpusOf(d, n, u);
    ClusterCpusHold(d, n, u);
    NpusHold(d, n, u);
    DistinctSize(all);
    DistinctSize(group);
    Room(|group|, |all|, size);
    hide HoldsUsable, HoldsNpus, ClusterCpus, NpusOf, UvbPool;
    forall cpus: set<int>, npus: set<int> | HoldsUsable(d, n, u, cpus) && HoldsNpus(d, n, u, npus)
      ensures cpus == Elements(all) && npus == Elements(group)
    {
      SameUsable(d, n, u, cpus, Elements(all));
      SameNpus(d, n, u, npus, Elements(group));
    }
  }

  lemma FitsExactly(d: Device, n: Nodes, size: nat)
    requires size > 0 && Distinct(d.allLogic) && NumaConsistent(n)
    ensures Fits(d, n, UvbPool(d, n), size) <==> RoomForAll(d, n, size)
  {
    forall npu, u ensures NodeOf(d, n, npu) == Some(u) <==> AllOn(d, n, npu, u) { NodeOfExactly(d, n, npu, u); }
    forall u ensures NodeFits(d, n, UvbPool(d, n), size, u) <==> RoomOn(d, n, size, u) { RoomOnExactly(d, n, size, u); }
    hide NodeOf, AllOn, NodeFits, RoomOn, Candidates, UvbPool;
    forall npu | npu in Candidates(d)
      ensures (NodeOf(d, n, npu).Some? && NodeFits(d, n, UvbPool(d, n), size, NodeOf(d, n, npu).value)) <==>
              exists u :: AllOn(d, n, npu, u) && RoomOn(d, n, size, u)
    {
      if NodeOf(d, n, npu).Some? { assert AllOn(d, n, npu, NodeOf(d, n, npu).value); }
    }
  }
}
