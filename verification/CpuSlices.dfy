/** Global-slice mode: every logical NPU gets a consecutive slice of the sorted cpuset,
    and each slice is split into roles. */
module CpuSlices {
  import opened CpuLists
  import opened Common

  const MIN_CPUS_PER_NPU: nat := 5
  const MIN_CPUS_PER_NPU_WITHOUT_IRQ: nat := 3

  /** The parsed device information the allocator works on. */
  datatype Device = Device(
    allowed: seq<int>,
    running: seq<int>,            // visible NPUs in use
    affinity: map<int, seq<int>>, // NPU to CPUs, from the topology table
    allLogic: seq<int>,           // every logical NPU of the machine
    reserveIrq: bool)             // false on Ascend 950

  function MinCpus(d: Device): nat { if d.reserveIrq then MIN_CPUS_PER_NPU else MIN_CPUS_PER_NPU_WITHOUT_IRQ }

  function TotalNpus(d: Device): nat {
    if |d.allLogic| > 0 then |d.allLogic| else if d.affinity != map[] then |d.affinity| else |d.running|
  }

  /** The machine size: the logical NPUs, or failing those the NPUs of the topology table, or
      the visible ones. */
  lemma TotalNpusIs(d: Device)
    ensures d.allLogic != [] ==> TotalNpus(d) == |d.allLogic|
    ensures d.allLogic == [] && d.affinity != map[] ==> TotalNpus(d) == |d.affinity|
    ensures d.allLogic == [] && d.affinity == map[] ==> TotalNpus(d) == |d.running|
  {}

  function SliceStart(id: nat, base: nat, extra: nat): nat { id * base + (if id < extra then id else extra) }

  /** `allowed_cpus[start:end]` of one NPU, over `total` NPUs. */
  function Slice(cpus: seq<int>, total: nat, id: nat): seq<int>
    requires id < total
  {
    var base, extra := |cpus| / total, |cpus| % total;
    var start := SliceStart(id, base, extra);
    var end := start + base + (if id < extra then 1 else 0);
    SliceBounds(|cpus|, total, id);
    cpus[start..end]
  }

  lemma SliceBounds(n: nat, total: nat, id: nat)
    requires id < total
    ensures var base, extra := n / total, n % total;
            && SliceStart(id + 1, base, extra) == SliceStart(id, base, extra) + base + (if id < extra then 1 else 0)
            && SliceStart(id + 1, base, extra) <= n
            && SliceStart(total, base, extra) == n
            && SliceStart(0, base, extra) == 0
  {
    var base, extra := n / total, n % total;
    StartMonotone(id + 1, total, base, extra);
    MulLe(id, id + 1, base);
  }

  lemma StartMonotone(i: nat, j: nat, base: nat, extra: nat)
    requires i <= j
    ensures SliceStart(i, base, extra) <= SliceStart(j, base, extra)
  {
    MulLe(i, j, base);
  }

  /** Where the slices begin and end. */
  ghost function SliceCuts(n: nat, total: nat): (cuts: seq<nat>)
    requires total > 0
    ensures |cuts| == total + 1
  {
    seq(total + 1, i requires 0 <= i => SliceStart(i, n / total, n % total))
  }

  lemma SlicesAreCuts(cpus: seq<int>, total: nat)
    requires total > 0
    ensures CutsOf(SliceCuts(|cpus|, total), |cpus|)
    ensures forall id: nat :: id < total ==> Slice(cpus, total, id) == Piece(cpus, SliceCuts(|cpus|, total), id)
  {
    var cuts := SliceCuts(|cpus|, total);
    SliceBounds(|cpus|, total, 0);
    forall i, j | 0 <= i <= j < |cuts| ensures cuts[i] <= cuts[j] {
      StartMonotone(i, j, |cpus| / total, |cpus| % total);
    }
    assert CutsOf(cuts, |cpus|);
    forall id: nat | id < total ensures Slice(cpus, total, id) == Piece(cpus, cuts, id) {
      SliceBounds(|cpus|, total, id);
    }
  }

  /** The slices in id order concatenate to the sorted cpuset. */
  lemma SlicesConcatenate(cpus: seq<int>, total: nat)
    requires total > 0
    ensures CutsOf(SliceCuts(|cpus|, total), |cpus|)
    ensures forall id: nat :: id < total ==> Slice(cpus, total, id) == Piece(cpus, SliceCuts(|cpus|, total), id)
    ensures Joined(cpus, SliceCuts(|cpus|, total), total) == cpus
  {
    SlicesAreCuts(cpus, total);
    PiecesConcatenate(cpus, SliceCuts(|cpus|, total), total);
  }

  /** Two slices differ in size by at most one, the earlier being the larger. */
  lemma SlicesBalanced(cpus: seq<int>, total: nat, i: nat, j: nat)
    requires i <= j < total
    ensures |Slice(cpus, total, j)| <= |Slice(cpus, total, i)| <= |Slice(cpus, total, j)| + 1
    ensures |Slice(cpus, total, j)| >= |cpus| / total
  {
    SliceLength(cpus, total, i);
    SliceLength(cpus, total, j);
  }

  lemma SliceLength(cpus: seq<int>, total: nat, id: nat)
    requires id < total
    ensures |Slice(cpus, total, id)| == |cpus| / total + (if id < |cpus| % total then 1 else 0)
  {
    SliceBounds(|cpus|, total, id);
    hide SliceStart;
  }

  lemma SlicesDisjoint(cpus: seq<int>, total: nat, i: nat, j: nat)
    requires Ascending(cpus) && i < total && j < total && i != j
    ensures Elements(Slice(cpus, total, i)) !! Elements(Slice(cpus, total, j))
  {
    SlicesAreCuts(cpus, total);
    PiecesDisjoint(cpus, SliceCuts(|cpus|, total), i, j);
  }

  // ----- the pool map -----

  type Pools = map<int, seq<int>>

  datatype Built = Built(pools: Pools, raised: bool)

  /** The fill loop: it stops at the first id outside the machine. */
  function Fill(pools: Pools, cpus: seq<int>, total: nat, running: seq<int>): Built
    decreases |running|
  {
    if running == [] then Built(pools, false)
    else if running[0] < 0 || running[0] >= total then Built(pools, true)
    else Fill(pools[running[0] := Slice(cpus, total, running[0])], cpus, total, running[1..])
  }

  function GlobalBuild(pools: Pools, d: Device): Built {
    var cpus := SortUnique(d.allowed);
    if d.running == [] || cpus == [] then Built(pools, false)
    else if |cpus| / TotalNpus(d) < MinCpus(d) then Built(pools, true)
    else Fill(pools, cpus, TotalNpus(d), d.running)
  }

  lemma {:induction false} FillFacts(pools: Pools, cpus: seq<int>, total: nat, running: seq<int>)
    ensures var b := Fill(pools, cpus, total, running);
      && (!b.raised <==> forall k :: k in running ==> 0 <= k < total)
      && (!b.raised ==> forall npu :: npu in running ==> npu in b.pools && b.pools[npu] == Slice(cpus, total, npu))
      && (!b.raised ==> b.pools.Keys == pools.Keys + Elements(running))
      && (!b.raised ==> forall npu :: npu in pools && npu !in running ==> b.pools[npu] == pools[npu])
    decreases |running|
  {
    if running != [] {
      var first := running[0];
      assert first in running;
      assert forall k :: k in running <==> k == first || k in running[1..];
      if 0 <= first < total {
        FillFacts(pools[first := Slice(cpus, total, first)], cpus, total, running[1..]);
      }
    }
  }

  /** A successful build from an empty map: each visible NPU has its global slice, of at
      least the minimum size. */
  lemma GlobalBuildFacts(d: Device)
    requires d.running != [] && SortUnique(d.allowed) != [] && !GlobalBuild(map[], d).raised
    ensures TotalNpus(d) > 0
    ensures GlobalBuild(map[], d).pools.Keys == Elements(d.running)
    ensures forall npu :: npu in d.running ==>
      0 <= npu < TotalNpus(d)
      && GlobalBuild(map[], d).pools[npu] == Slice(SortUnique(d.allowed), TotalNpus(d), npu)
      && |GlobalBuild(map[], d).pools[npu]| >= (if d.reserveIrq then 5 else 3)
  {
    var cpus := SortUnique(d.allowed);
    FillFacts(map[], cpus, TotalNpus(d), d.running);
    forall npu | 0 <= npu < TotalNpus(d) ensures |Slice(cpus, TotalNpus(d), npu)| >= |cpus| / TotalNpus(d) {
      SliceLength(cpus, TotalNpus(d), npu);
    }
  }

  lemma SameCpuset(xs: seq<int>, ys: seq<int>)
    requires forall z :: z in xs <==> z in ys
    ensures SortUnique(xs) == SortUnique(ys)
  {
    SortUniqueFacts(xs);
    SortUniqueFacts(ys);
    AscendingUnique(SortUnique(xs), SortUnique(ys));
  }

  /** The slice of an NPU that a successful build gives it. */
  lemma PoolOf(d: Device, npu: int)
    requires SortUnique(d.allowed) != [] && !GlobalBuild(map[], d).raised && npu in d.running
    ensures npu in GlobalBuild(map[], d).pools && 0 <= npu < TotalNpus(d)
    ensures GlobalBuild(map[], d).pools[npu] == Slice(SortUnique(d.allowed), TotalNpus(d), npu)
  {
    GlobalBuildFacts(d);
  }

  /** Two processes that share the cpuset and the machine but not the visible NPUs and
      never communicate: the same NPU gets the same CPUs, different NPUs get disjoint ones. */
  lemma GlobalPoolsAgree(d: Device, e: Device, m: int, n: int)
    requires (forall z :: z in d.allowed <==> z in e.allowed) && TotalNpus(d) == TotalNpus(e)
    requires SortUnique(d.allowed) != []
    requires !GlobalBuild(map[], d).raised && !GlobalBuild(map[], e).raised
    requires m in d.running && n in e.running
    ensures m in GlobalBuild(map[], d).pools && n in GlobalBuild(map[], e).pools
    ensures m == n ==> GlobalBuild(map[], d).pools[m] == GlobalBuild(map[], e).pools[n]
    ensures m != n ==> Elements(GlobalBuild(map[], d).pools[m]) !! Elements(GlobalBuild(map[], e).pools[n])
  {
    SameCpuset(d.allowed, e.allowed);
    SortUniqueFacts(d.allowed);
    PoolOf(d, m);
    PoolOf(e, n);
    if m != n { SlicesDisjoint(SortUnique(d.allowed), TotalNpus(d), m, n); }
  }

  // ----- roles -----

  datatype Roles = Roles(irq: seq<int>, main: seq<int>, acl: seq<int>, release: seq<int>)

  /** The split of one pool; the first two CPUs are kept for the IRQs if they are bound. */
  function RolesOf(pool: seq<int>, reserveIrq: bool): Roles
    requires |pool| >= if reserveIrq then MIN_CPUS_PER_NPU else MIN_CPUS_PER_NPU_WITHOUT_IRQ
  {
    var n := |pool|;
    if reserveIrq then Roles(pool[..2], pool[2..n - 2], [pool[n - 2]], [pool[n - 1]])
    else Roles([], pool[..n - 2], [pool[n - 2]], [pool[n - 1]])
  }

  /** The roles partition the pool in order: two CPUs for the IRQs if they are bound, one each at
      the end for acl and release, and the main role in between is never empty. */
  lemma RolesPartition(pool: seq<int>, reserveIrq: bool)
    requires Distinct(pool) && |pool| >= if reserveIrq then 5 else 3
    ensures var r := RolesOf(pool, reserveIrq);
            && r.irq + r.main + r.acl + r.release == pool
            && |r.irq| == (if reserveIrq then 2 else 0) && r.main != [] && |r.acl| == 1 && |r.release| == 1
            && Elements(r.irq) !! Elements(r.main) !! Elements(r.acl) !! Elements(r.release)
  {}
}
