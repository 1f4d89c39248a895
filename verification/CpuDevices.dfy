/** The NPU id map: running NPUs are logical NPUs of the machine. */
module CpuDevices {
  import opened Common
  import opened CpuLists

  /** npu id -> chip id -> logical id, all as the text npu-smi prints. */
  type IdMap = map<string, map<string, string>>

  predicate HasId(info: IdMap, id: nat) {
    exists npu, chip :: npu in info && chip in info[npu] && ParseNat(info[npu][chip]) == Some(id)
  }

  /** The ids of one board. */
  method BoardIds(chips: map<string, string>) returns (ids: seq<int>)
    ensures forall id: int :: id in ids <==> id >= 0 && exists chip :: chip in chips && ParseNat(chips[chip]) == Some(id)
  {
    ids := [];
    var todo := chips.Items;
    while todo != {}
      invariant todo <= chips.Items
      invariant forall id: int :: id in ids ==> id >= 0 && exists chip :: chip in chips && ParseNat(chips[chip]) == Some(id)
      invariant forall chip :: chip in chips && (chip, chips[chip]) !in todo && ParseNat(chips[chip]).Some? ==>
        ParseNat(chips[chip]).value in ids
      decreases |todo|
    {
      var item :| item in todo;
      if ParseNat(item.1).Some? { ids := ids + [ParseNat(item.1).value]; }
      todo := todo - {item};
    }
  }

  /** Every logical id of the machine, once and in order. */
  method AllLogicNpus(info: IdMap) returns (npus: seq<int>)
    ensures Ascending(npus)
    ensures forall id: int :: id in npus <==> id >= 0 && HasId(info, id)
  {
    var ids := [];
    var todo := info.Items;
    while todo != {}
      invariant todo <= info.Items
      invariant forall id: int :: id in ids ==> id >= 0 && HasId(info, id)
      invariant forall npu, chip :: npu in info && (npu, info[npu]) !in todo && chip in info[npu] ==>
        ParseNat(info[npu][chip]).None? || ParseNat(info[npu][chip]).value in ids
      decreases |todo|
    {
      var item :| item in todo;
      var board := BoardIds(item.1);
      assert item.0 in info && info[item.0] == item.1;
      ids := ids + board;
      todo := todo - {item};
    }
    SortUniqueFacts(ids);
    npus := SortUnique(ids);
  }

  /** None stands for the RuntimeErrors.  Without a chip id the board must have one chip. */
  function ResolveLogicId(info: IdMap, npu: string, chip: Option<string>): Option<nat> {
    var chips := if npu in info then info[npu] else map[];
    match chip
    case Some(c) => if c in chips then ParseNat(chips[c]) else None
    case None =>
      if |chips| != 1 then None
      else
        SingleValue(chips);
        var item :| item in chips.Items;
        ParseNat(item.1)
  }

  lemma SingleValue(chips: map<string, string>)
    requires |chips| == 1
    ensures exists item :: item in chips.Items
    ensures forall i, j :: i in chips.Items && j in chips.Items ==> i == j
  {
    var c :| c in chips;
    assert (c, chips[c]) in chips.Items;
    assert chips.Keys == {c} by {
      if d :| d in chips && d != c {
        assert {c, d} <= chips.Keys;
        SubsetSize({c, d}, chips.Keys);
      }
    }
  }

  lemma SubsetSize(small: set<string>, large: set<string>)
    requires small <= large
    ensures |small| <= |large|
  {
    assert large == small + (large - small);
  }

  /** What a process row resolves to: the entry of its chip, or the only entry of its board. */
  lemma ResolvesExactly(info: IdMap, npu: string, chip: Option<string>, id: nat)
    ensures ResolveLogicId(info, npu, chip) == Some(id) <==>
      && npu in info
      && match chip
         case Some(c) => c in info[npu] && ParseNat(info[npu][c]) == Some(id)
         case None => exists c :: info[npu].Keys == {c} && ParseNat(info[npu][c]) == Some(id)
  {
    if npu in info && chip.None? {
      var chips := info[npu];
      if |chips| == 1 {
        SingleValue(chips);
        var item :| item in chips.Items;
        assert chips.Keys == {item.0} by {
          forall c | c in chips ensures c == item.0 { assert (c, chips[c]) in chips.Items; }
        }
      } else {
        forall c ensures chips.Keys != {c} { assert |chips.Keys| == |chips|; }
      }
    }
  }

  /** A resolved id is one of the logical ids. */
  lemma ResolvedIsLogical(info: IdMap, npu: string, chip: Option<string>)
    requires ResolveLogicId(info, npu, chip).Some?
    ensures HasId(info, ResolveLogicId(info, npu, chip).value)
  {}

  /** A row of the process table whose ids are numbers. */
  datatype Row = Row(npu: string, chip: Option<string>)

  ghost predicate Runs(info: IdMap, rows: seq<Row>, visible: Option<seq<int>>, id: int) {
    && (exists i :: 0 <= i < |rows| && Resolves(info, rows[i], id))
    && (visible.Some? ==> id in visible.value)
  }

  predicate Resolves(info: IdMap, row: Row, id: int) {
    match ResolveLogicId(info, row.npu, row.chip)
    case None => false
    case Some(found) => found == id
  }

  /** The visible NPUs with a process; None stands for the RuntimeErrors. */
  method RunningNpus(info: IdMap, rows: seq<Row>, visible: Option<seq<int>>) returns (npus: Option<seq<int>>)
    ensures npus.Some? ==> Ascending(npus.value) && npus.value != []
    ensures npus.Some? ==> forall id: int :: id in npus.value <==> Runs(info, rows, visible, id)
    ensures npus.Some? ==> forall id: int :: id in npus.value ==> id >= 0 && HasId(info, id)
    ensures npus.None? <==> (exists i :: 0 <= i < |rows| && ResolveLogicId(info, rows[i].npu, rows[i].chip).None?)
                            || forall id: int :: !Runs(info, rows, visible, id)
  {
    hide ResolveLogicId, HasId;
    var running: seq<int> := [];
    for i := 0 to |rows|
      invariant forall j :: 0 <= j < i ==> ResolveLogicId(info, rows[j].npu, rows[j].chip).Some?
      invariant forall id :: id in running <==> exists j :: 0 <= j < i && Resolves(info, rows[j], id)
      invariant forall id: int :: id in running ==> id >= 0 && HasId(info, id)
    {
      var id := ResolveLogicId(info, rows[i].npu, rows[i].chip);
      if id.None? { return None; }
      ResolvedIsLogical(info, rows[i].npu, rows[i].chip);
      assert Resolves(info, rows[i], id.value);
      running := running + [id.value];
    }
    if visible.Some? {
      KeepFacts(running, id => id in visible.value);
      running := Keep(running, id => id in visible.value);
    }
    SortUniqueFacts(running);
    var sorted := SortUnique(running);
    assert forall id :: id in sorted <==> Runs(info, rows, visible, id);
    if sorted == [] { return None; }
    assert sorted[0] in sorted;
    npus := Some(sorted);
  }
}
