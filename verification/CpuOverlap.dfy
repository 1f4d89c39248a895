/** When topology mode keeps processes apart: exactly when any two extended pools are equal or
    have no CPU in common. */
module CpuOverlap {
  import opened Common
  import opened CpuLists
  import opened CpuSlices
  import opened CpuTopo

  ghost predicate PoolsEqualOrApart(pools: Pools, npus: seq<int>)
    requires forall npu :: npu in npus ==> npu in pools
  {
    forall m, n :: m in npus && n in npus ==> pools[m] == pools[n] || Elements(pools[m]) !! Elements(pools[n])
  }

  ghost predicate FinalPoolsApart(pools: Pools, npus: seq<int>)
    requires forall npu :: npu in npus ==> npu in pools
  {
    forall m, n :: m in npus && n in npus && m != n ==>
      Elements(FinalPool(pools, npus, m)) !! Elements(FinalPool(pools, npus, n))
  }

  // ----- the NPUs of a group use up their pool -----

  lemma {:induction false} SomePiece<T>(xs: seq<T>, cuts: seq<nat>, n: nat, x: T) returns (i: nat)
    requires CutsOf(cuts, |xs|) && n < |cuts| && x in Joined(xs, cuts, n)
    ensures i < n && x in Piece(xs, cuts, i)
  {
    if x in Piece(xs, cuts, n - 1) { i := n - 1; } else { i := SomePiece(xs, cuts, n - 1, x); }
  }

  /** Every CPU of an extended pool is given to some NPU with that pool. */
  lemma PoolUsedUp(pools: Pools, npus: seq<int>, npu: int, cpu: int) returns (user: int)
    requires Distinct(npus) && npu in npus && npu in pools && cpu in pools[npu]
    ensures user in npus && user in pools && pools[user] == pools[npu] && cpu in FinalPool(pools, npus, user)
  {
    var key := pools[npu];
    var group := Group(pools, npus, key);
    GroupFacts(pools, npus, key);
    assert npu in group;
    if |group| == 1 {
      user := npu;
    } else {
      GroupPartitionsPool(pools, npus, key);
      SortFacts(key);
      var i := SomePiece(Sort(key), ShareCuts(|key|, |group|), |group|, cpu);
      user := group[i];
      assert user in group;
    }
  }

  /** The final pools are disjoint exactly when extended pools that differ are. */
  lemma ApartExactly(pools: Pools, npus: seq<int>)
    requires Distinct(npus) && forall npu :: npu in npus ==> npu in pools && Distinct(pools[npu])
    ensures FinalPoolsApart(pools, npus) <==> PoolsEqualOrApart(pools, npus)
  {
    hide FinalPool;
    if PoolsEqualOrApart(pools, npus) {
      forall m, n | m in npus && n in npus && m != n
        ensures Elements(FinalPool(pools, npus, m)) !! Elements(FinalPool(pools, npus, n))
      {
        if pools[m] == pools[n] {
          SamePoolDisjoint(pools, npus, m, n);
        } else {
          FinalPoolInside(pools, npus, m);
          FinalPoolInside(pools, npus, n);
          InsideApart(FinalPool(pools, npus, m), FinalPool(pools, npus, n), pools[m], pools[n]);
        }
      }
    }
    if FinalPoolsApart(pools, npus) {
      forall m, n | m in npus && n in npus && pools[m] != pools[n] ensures Elements(pools[m]) !! Elements(pools[n]) {
        ApartPools(pools, npus, m, n);
      }
    }
  }

  lemma InsideApart(xs: seq<int>, ys: seq<int>, us: seq<int>, vs: seq<int>)
    requires Elements(us) !! Elements(vs)
    requires (forall x :: x in xs ==> x in us) && forall y :: y in ys ==> y in vs
    ensures Elements(xs) !! Elements(ys)
  {
    forall x | x in Elements(xs) ensures x !in Elements(ys) { assert x in xs && x in Elements(us); }
  }

  lemma ApartPools(pools: Pools, npus: seq<int>, m: int, n: int)
    requires Distinct(npus) && (forall npu :: npu in npus ==> npu in pools) && FinalPoolsApart(pools, npus)
    requires m in npus && n in npus && pools[m] != pools[n]
    ensures Elements(pools[m]) !! Elements(pools[n])
  {
    hide FinalPool;
    forall cpu | cpu in Elements(pools[m]) ensures cpu !in Elements(pools[n]) {
      if cpu in pools[n] { TwoUsers(pools, npus, m, n, cpu); }
    }
  }

  /** A CPU of two different extended pools ends up with two NPUs. */
  lemma TwoUsers(pools: Pools, npus: seq<int>, m: int, n: int, cpu: int)
    requires Distinct(npus) && forall npu :: npu in npus ==> npu in pools
    requires m in npus && n in npus && pools[m] != pools[n] && cpu in pools[m] && cpu in pools[n]
    ensures !FinalPoolsApart(pools, npus)
  {
    hide FinalPool;
    var p := PoolUsedUp(pools, npus, m, cpu);
    var q := PoolUsedUp(pools, npus, n, cpu);
    assert cpu in Elements(FinalPool(pools, npus, p)) && cpu in Elements(FinalPool(pools, npus, q));
  }

  // ----- processes on one machine -----

  /** A process that sees `running` builds its pools. */
  predicate Succeeds(d: Device, nodes: Nodes, running: seq<int>)
    requires nodes.cpusOf != map[] && Distinct(d.allLogic)
  {
    (forall npu :: npu in running ==> npu in d.allLogic) && !TopoBuild(d.(running := running), nodes).raised
  }

  function PoolIn(d: Device, nodes: Nodes, running: seq<int>, npu: int): seq<int>
    requires nodes.cpusOf != map[] && Distinct(d.allLogic) && Succeeds(d, nodes, running) && npu in running
  {
    TopoEntries(d.(running := running), nodes, npu);
    TopoBuild(d.(running := running), nodes).pools[npu]
  }

  /** No two processes give a CPU to two different NPUs. */
  ghost predicate NeverShare(d: Device, nodes: Nodes)
    requires nodes.cpusOf != map[] && Distinct(d.allLogic)
  {
    forall r, s, m, n ::
      Succeeds(d, nodes, r) && Succeeds(d, nodes, s) && m in r && n in s && m != n ==>
        Elements(PoolIn(d, nodes, r, m)) !! Elements(PoolIn(d, nodes, s, n))
  }

  /** Every process on the machine works from the extended pools of `d`. */
  lemma SameStart(d: Device, nodes: Nodes, running: seq<int>)
    requires nodes.cpusOf != map[] && Distinct(d.allLogic)
    requires Succeeds(d, nodes, d.running) && Succeeds(d, nodes, running)
    ensures var x := ExtendAll(d, nodes, map[], Candidates(d));
      && !x.raised && (forall npu :: npu in Candidates(d) ==> npu in x.pools)
      && (forall npu :: npu in running ==> npu in Candidates(d))
      && forall npu :: npu in running ==> PoolIn(d, nodes, running, npu) == FinalPool(x.pools, Candidates(d), npu)
  {
    var e := d.(running := running);
    assert d.(running := d.running) == d;
    VisibleHaveBase(d, nodes);
    VisibleHaveBase(e, nodes);
    assert forall k :: Base(e, k) == Base(d, k);
    SameCandidates(d, running);
    ExtendAllIgnoresRunning(d, running, nodes, map[], Candidates(d));
    CandidatesFacts(d);
    CandidatesFacts(e);
    ExtendAllFacts(d, nodes, map[], Candidates(d));
  }

  /** A process that sees one candidate alone succeeds too. */
  lemma AloneSucceeds(d: Device, nodes: Nodes, npu: int)
    requires nodes.cpusOf != map[] && Distinct(d.allLogic) && Succeeds(d, nodes, d.running) && npu in Candidates(d)
    ensures Succeeds(d, nodes, [npu])
  {
    assert d.(running := d.running) == d;
    VisibleHaveBase(d, nodes);
    CandidatesFacts(d);
    ExtendAllFacts(d, nodes, map[], Candidates(d));
    SameCandidates(d, [npu]);
    ExtendAllIgnoresRunning(d, [npu], nodes, map[], Candidates(d));
  }

  /** Processes on one machine keep their NPUs apart, whatever each of them sees, exactly when
      any two extended pools are equal or have no CPU in common. */
  lemma NeverShareExactly(d: Device, nodes: Nodes)
    requires nodes.cpusOf != map[] && Distinct(d.allLogic) && Succeeds(d, nodes, d.running)
    requires forall npu :: npu in d.allLogic ==> Distinct(Affinity(d, npu))
    ensures forall npu :: npu in Candidates(d) ==> npu in ExtendAll(d, nodes, map[], Candidates(d)).pools
    ensures NeverShare(d, nodes) <==>
      PoolsEqualOrApart(ExtendAll(d, nodes, map[], Candidates(d)).pools, Candidates(d))
  {
    var npus, pools := Candidates(d), ExtendAll(d, nodes, map[], Candidates(d)).pools;
    SameStart(d, nodes, d.running);
    CandidatesFacts(d);
    ExtendAllFacts(d, nodes, map[], npus);
    ApartExactly(pools, npus);
    hide Succeeds, PoolIn, FinalPool, ExtendAll, Candidates, Affinity, PoolsEqualOrApart;
    if FinalPoolsApart(pools, npus) { ApartMeansNeverShare(d, nodes, pools, npus); }
    if NeverShare(d, nodes) { NeverShareMeansApart(d, nodes, pools, npus); }
  }

  lemma ApartMeansNeverShare(d: Device, nodes: Nodes, pools: Pools, npus: seq<int>)
    requires nodes.cpusOf != map[] && Distinct(d.allLogic) && Succeeds(d, nodes, d.running)
    requires npus == Candidates(d) && pools == ExtendAll(d, nodes, map[], npus).pools
    requires (forall npu :: npu in npus ==> npu in pools) && FinalPoolsApart(pools, npus)
    ensures NeverShare(d, nodes)
  {
    hide Succeeds, PoolIn, FinalPool, ExtendAll, Candidates;
    forall r, s, m, n | Succeeds(d, nodes, r) && Succeeds(d, nodes, s) && m in r && n in s && m != n
      ensures Elements(PoolIn(d, nodes, r, m)) !! Elements(PoolIn(d, nodes, s, n))
    {
      SameStart(d, nodes, r);
      SameStart(d, nodes, s);
    }
  }

  lemma NeverShareMeansApart(d: Device, nodes: Nodes, pools: Pools, npus: seq<int>)
    requires nodes.cpusOf != map[] && Distinct(d.allLogic) && Succeeds(d, nodes, d.running)
    requires npus == Candidates(d) && pools == ExtendAll(d, nodes, map[], npus).pools
    requires (forall npu :: npu in npus ==> npu in pools) && NeverShare(d, nodes)
    ensures FinalPoolsApart(pools, npus)
  {
    hide Succeeds, PoolIn, FinalPool, ExtendAll, Candidates;
    forall m, n | m in npus && n in npus && m != n
      ensures Elements(FinalPool(pools, npus, m)) !! Elements(FinalPool(pools, npus, n))
    {
      AloneSucceeds(d, nodes, m);
      AloneSucceeds(d, nodes, n);
      SameStart(d, nodes, [m]);
      SameStart(d, nodes, [n]);
      assert m in [m] && n in [n];
    }
  }

  // ----- it does fail -----

  /** Three NUMA nodes of two CPUs; NPU 0 is affine to node 0, NPU 1 to node 1. */
  ghost predicate ThreeNodes(d: Device, n: Nodes) {
    && n.cpusOf != map[] && |n.cpusOf| == 3
    && (forall node :: 0 <= node < 3 ==> node in n.cpusOf && n.cpusOf[node] == [2 * node, 2 * node + 1])
    && (forall cpu :: 0 <= cpu < 6 ==> cpu in n.nodeOf && n.nodeOf[cpu] == cpu / 2 && cpu in d.allowed)
    && d.allLogic == [0, 1] && d.running == [0, 1]
    && 0 in d.affinity && d.affinity[0] == [0, 1] && 1 in d.affinity && d.affinity[1] == [2, 3]
  }

  lemma SortedFour(a: int, b: int, c: int, d: int)
    requires a < b < c < d
    ensures SortUnique([a, b] + [c, d]) == [a, b, c, d]
  {
    SortUniqueFacts([a, b] + [c, d]);
    hide SortUnique;
    AscendingUnique(SortUnique([a, b] + [c, d]), [a, b, c, d]);
  }

  lemma KeepTwo(a: int, b: int, p: int -> bool)
    requires p(a) && p(b)
    ensures Keep([a, b], p) == [a, b]
  {
    assert [a, b][..1] == [a];
    assert [a][..0] == [];
    assert Keep([a], p) == [a];
  }

  /** A pair of CPUs on one node is extended by the pair on the next one. */
  lemma ExtendPair(d: Device, n: Nodes, a: int, b: int, x: int, y: int)
    requires n.cpusOf != map[] && a < b < x < y && x in d.allowed && y in d.allowed
    requires a in n.nodeOf && b in n.nodeOf && n.nodeOf[a] == n.nodeOf[b]
    requires var next := (n.nodeOf[a] + 1) % |n.cpusOf|; next in n.cpusOf && n.cpusOf[next] == [x, y]
    ensures ExtendNuma(d, n, [a, b]) == Extension([a, b, x, y], n, true)
  {
    KeepTwo(x, y, c => c in d.allowed);
    SortedFour(a, b, x, y);
    assert SingleNode(n, [a, b]);
    hide SortUnique, Keep;
  }

  lemma BasePair(d: Device, npu: int, a: int, b: int)
    requires npu in d.affinity && d.affinity[npu] == [a, b] && a in d.allowed && b in d.allowed
    ensures Base(d, npu) == [a, b]
  {
    KeepTwo(a, b, c => c in d.allowed);
  }

  lemma ExtendTwo(d: Device, n: Nodes, p: int, q: int, x: seq<int>, y: seq<int>)
    requires n.cpusOf != map[] && Base(d, p) != [] && Base(d, q) != []
    requires ExtendNuma(d, n, Base(d, p)) == Extension(x, n, true)
    requires ExtendNuma(d, n, Base(d, q)) == Extension(y, n, true)
    ensures ExtendAll(d, n, map[], [p, q]) == Extended(map[p := x][q := y], n, false)
  {
    hide Base, ExtendNuma;
    var first: Pools := map[p := x];
    assert [p, q][1..] == [q] && [q][1..] == [];
    assert ExtendAll(d, n, first[q := y], []) == Extended(first[q := y], n, false);
    assert ExtendAll(d, n, first, [q]) == Extended(first[q := y], n, false);
  }

  lemma ExtendBoth(d: Device, n: Nodes)
    requires ThreeNodes(d, n)
    ensures ExtendAll(d, n, map[], [0, 1]) == Extended(map[0 := [0, 1, 2, 3], 1 := [2, 3, 4, 5]], n, false)
  {
    BasePair(d, 0, 0, 1);
    BasePair(d, 1, 2, 3);
    ExtendPair(d, n, 0, 1, 2, 3);
    ExtendPair(d, n, 2, 3, 4, 5);
    hide Base, ExtendNuma, ExtendAll;
    ExtendTwo(d, n, 0, 1, [0, 1, 2, 3], [2, 3, 4, 5]);
  }

  lemma BothSucceed(d: Device, n: Nodes)
    requires ThreeNodes(d, n)
    ensures Candidates(d) == [0, 1] && Distinct(d.allLogic)
    ensures Succeeds(d, n, d.running) && Succeeds(d, n, [0]) && Succeeds(d, n, [1])
  {
    KeepTwo(0, 1, npu => IsCandidate(d, npu));
    ExtendBoth(d, n);
    assert d.(running := d.running) == d;
    hide ExtendAll, Candidates;
    assert Succeeds(d, n, d.running);
    hide Succeeds;
    AloneSucceeds(d, n, 0);
    AloneSucceeds(d, n, 1);
  }

  lemma UsesCpu2(d: Device, n: Nodes, npu: int)
    requires ThreeNodes(d, n) && Distinct(d.allLogic) && npu in {0, 1} && Succeeds(d, n, [npu])
    ensures 2 in PoolIn(d, n, [npu], npu)
  {
    BothSucceed(d, n);
    ExtendBoth(d, n);
    hide ThreeNodes, Succeeds, ExtendAll, Candidates, PoolIn;
    SameStart(d, n, [npu]);
    OwnPool(map[0 := [0, 1, 2, 3], 1 := [2, 3, 4, 5]], [0, 1], npu);
    hide FinalPool;
    assert npu in [npu];
  }

  /** A machine on which two processes that both succeed give CPU 2 to different NPUs. */
  lemma TwoProcessesShare() returns (d: Device, n: Nodes)
    ensures ThreeNodes(d, n) && Distinct(d.allLogic) && Succeeds(d, n, [0]) && Succeeds(d, n, [1])
    ensures 2 in PoolIn(d, n, [0], 0) && 2 in PoolIn(d, n, [1], 1) && !NeverShare(d, n)
  {
    d, n := Example();
    BothSucceed(d, n);
    hide ThreeNodes, Succeeds, PoolIn;
    UsesCpu2(d, n, 0);
    UsesCpu2(d, n, 1);
    assert 0 in [0] && 1 in [1];
    assert 2 in Elements(PoolIn(d, n, [0], 0)) && 2 in Elements(PoolIn(d, n, [1], 1));
  }

  lemma Example() returns (d: Device, n: Nodes)
    ensures ThreeNodes(d, n)
  {
    d := Device(Range(0, 6), [0, 1], map[0 := [0, 1], 1 := [2, 3]], [0, 1], true);
    n := Nodes(map cpu | 0 <= cpu < 6 :: cpu / 2, map node | 0 <= node < 3 :: [2 * node, 2 * node + 1]);
    assert 0 in n.cpusOf && n.cpusOf.Keys == {0, 1, 2};
    forall cpu | 0 <= cpu < 6 ensures cpu in d.allowed { assert d.allowed[cpu] == cpu; }
  }

  /** An NPU that shares its extended pool with nobody keeps it whole. */
  lemma OwnPool(pools: Pools, npus: seq<int>, npu: int)
    requires Distinct(npus) && npu in npus && npu in pools
    requires forall other :: other in npus && other in pools && pools[other] == pools[npu] ==> other == npu
    ensures FinalPool(pools, npus, npu) == pools[npu]
  {
    var group := Group(pools, npus, pools[npu]);
    GroupFacts(pools, npus, pools[npu]);
    assert npu in group;
    assert |group| > 1 ==> group[0] != group[1];
    forall i | 0 <= i < |group| ensures group[i] == npu { assert group[i] in group; }
  }
}
