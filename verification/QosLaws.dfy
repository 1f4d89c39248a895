/** What an apply writes, register by register and entry by entry, in numbers and names. */
module QosLaws {
  import opened Common
  import opened QosModel
  import opened QosHistory
  import opened QosState
  import opened QosFile

  // ----- the registers -----

  const AIV_LEVELS: map<Level, int> := map[Low := 1, Middle := 3, High := 5]
  const SDMA_LEVELS: map<Level, int> := map[Low := 2, Middle := 4, High := 6]
  const PCIE_LEVELS: map<Level, int> := map[Low := 0, High := 7]

  /** `q` is the level of the weaker of two priorities. */
  predicate Weaker(q: int, levels: map<Level, int>, a: Level, b: Level) {
    && a in levels && b in levels
    && (q == levels[a] || q == levels[b]) && q <= levels[a] && q <= levels[b]
  }

  /** The level master `m` gets: 11 and 12 are AIV, 13 is SDMA, 7 is PCIEDMA. */
  predicate LevelOf(q: int, m: nat, p: Priorities) {
    && (m == 11 || m == 12 ==> Weaker(q, AIV_LEVELS, p.aivD2d, p.aivH2d))
    && (m == 13 ==> Weaker(q, SDMA_LEVELS, p.sdmaD2d, p.sdmaH2d))
    && (m == 7 ==> p.pcieH2d in PCIE_LEVELS && q == PCIE_LEVELS[p.pcieH2d])
  }

  predicate QosApplied(before: Qos, after: Qos, named: bool, m: nat, p: Priorities) {
    if named && (m == 11 || m == 12 || m == 13 || m == 7)
    then after == before.(qos := after.qos) && LevelOf(after.qos, m, p)
    else after == before
  }

  /** The bandwidth register of `mpamid` is the one the SDMA master of the device names. */
  predicate NamedBySdma(r: Registers, d: nat, mpamid: int) { (d, 13) in r.qos && r.qos[(d, 13)].mpamid == mpamid }

  /** Everything an apply of `p` to `devices` does to the registers. */
  ghost predicate Applied(before: Registers, after: Registers, devices: seq<nat>, p: Priorities) {
    && after.qos.Keys == before.qos.Keys && after.bw.Keys == before.bw.Keys && after.fuse.Keys == before.fuse.Keys
    && (forall d, m :: (d, m) in before.qos ==> QosApplied(before.qos[(d, m)], after.qos[(d, m)], d in devices, m, p))
    && (forall d, mpamid :: (d, mpamid) in before.bw ==>
          after.bw[(d, mpamid)] ==
          if d in devices && NamedBySdma(before, d, mpamid) then Bandwidth(0, 1, 0) else before.bw[(d, mpamid)])
    && (forall d :: d in before.fuse ==> after.fuse[d] == if d in devices then Fuse(1, 1, 1) else before.fuse[d])
  }

  lemma LevelRight(p: Priorities, t: Targets, m: nat)
    requires TargetsOf(p) == Some(t)
    ensures LevelOf(Target(t, m), m, p)
  {}

  /** Only a middle priority for PCIEDMA has no level. */
  lemma FailsOnlyForPcie(p: Priorities)
    ensures TargetsOf(p).None? <==> p.pcieH2d == Middle
  {}

  lemma TunedApplied(r: Registers, devices: seq<nat>, p: Priorities, t: Targets)
    requires TargetsOf(p) == Some(t)
    ensures Applied(r, Tuned(r, Devices(devices), t), devices, p)
  {
    forall m: nat { LevelRight(p, t, m); }
    hide TargetsOf, Target, LevelOf;
  }

  /** One event of a history. */
  lemma ApplyApplies(w: World, devices: seq<nat>, p: Priorities)
    ensures var after := After(w, Apply(devices, p));
      if p.pcieH2d == Middle then after == w else Applied(w.regs, after.regs, devices, p)
  {
    FailsOnlyForPcie(p);
    if TargetsOf(p).Some? { TunedApplied(w.regs, devices, p, TargetsOf(p).value); }
  }

  // ----- the state file -----

  /** The entries of a device, as lists of numbers under the names of the file. */
  ghost predicate RecordsDevice(file: Json, r: Registers, d: nat)
    requires Present(r, d)
  {
    && file.JObject?
    && {"original_qos", "original_sdma_mata", "original_fuse"} <= file.fields.Keys
    && RecordsMasters(file.fields["original_qos"], r, d)
    && (var bw := r.bw[(d, r.qos[(d, 13)].mpamid)];
        HasEntry(file.fields["original_sdma_mata"], Str(d),
                 JList([JInt(r.qos[(d, 13)].mpamid), JInt(bw.low), JInt(bw.high), JInt(bw.hardLimit)])))
    && HasEntry(file.fields["original_fuse"], Str(d),
                JList([JInt(r.fuse[d].enable), JInt(r.fuse[d].autoFuse), JInt(r.fuse[d].mode)]))
  }

  predicate HasEntry(j: Json, key: string, value: Json) { j.JObject? && key in j.fields && j.fields[key] == value }

  ghost predicate RecordsMasters(j: Json, r: Registers, d: nat)
    requires Present(r, d)
  {
    && j.JObject? && Str(d) in j.fields
    && forall m :: m in {11, 12, 13, 7} ==>
         (d, m) in r.qos && (var q := r.qos[(d, m)];
         HasEntry(j.fields[Str(d)], Str(m), JList([JInt(m), JInt(q.mpamid), JInt(q.qos), JInt(q.pmg), JInt(q.mode)])))
  }

  lemma ThreeInts(a: int, b: int, c: int)
    ensures IntItems([a, b, c]) == [JInt(a), JInt(b), JInt(c)]
  {
    assert [a, b, c][1..] == [b, c] && [b, c][1..] == [c] && [c][1..] == [];
    assert IntItems([c]) == [JInt(c)];
  }

  lemma OneMoreInt(a: int, rest: seq<int>)
    ensures IntItems([a] + rest) == [JInt(a)] + IntItems(rest)
  {
    assert ([a] + rest)[1..] == rest;
  }

  lemma FiveInts(a: int, b: int, c: int, d: int, e: int)
    ensures IntItems([b, c, d, e]) == [JInt(b), JInt(c), JInt(d), JInt(e)]
    ensures IntItems([a, b, c, d, e]) == [JInt(a), JInt(b), JInt(c), JInt(d), JInt(e)]
  {
    ThreeInts(c, d, e);
    OneMoreInt(b, [c, d, e]);
    OneMoreInt(a, [b, c, d, e]);
    assert [a] + [b, c, d, e] == [a, b, c, d, e] && [b] + [c, d, e] == [b, c, d, e];
  }

  lemma CapturedMaster(r: Registers, d: nat, m: nat)
    requires Present(r, d) && m in MASTERS
    ensures (d, m) in r.qos
    ensures var q := r.qos[(d, m)];
      HasEntry(Tuples(CaptureMasters(r, d)), Str(m),
        JList([JInt(m), JInt(q.mpamid), JInt(q.qos), JInt(q.pmg), JInt(q.mode)]))
  {
    var q := r.qos[(d, m)];
    RecordAt(MASTERS, n => QosTuple(r, d, n), m);
    FiveInts(m, q.mpamid, q.qos, q.pmg, q.mode);
  }

  lemma CapturedMastersRight(r: Registers, d: nat, j: Json)
    requires Present(r, d) && j.JObject? && Str(d) in j.fields && j.fields[Str(d)] == Tuples(CaptureMasters(r, d))
    ensures RecordsMasters(j, r, d)
  {
    forall m | m in MASTERS
      ensures (d, m) in r.qos && var q := r.qos[(d, m)];
        HasEntry(Tuples(CaptureMasters(r, d)), Str(m),
          JList([JInt(m), JInt(q.mpamid), JInt(q.qos), JInt(q.pmg), JInt(q.mode)]))
    {
      CapturedMaster(r, d, m);
    }
    hide HasEntry, CaptureMasters, Str, Tuples;
  }

  /** The entries a captured device gets. */
  lemma CapturedEntries(r: Registers, devices: seq<nat>, d: nat)
    requires Present(r, d) && d in devices
    ensures var raw, b := RawOf(Capture(r, devices)), r.bw[(d, r.qos[(d, SDMA)].mpamid)];
      && Str(d) in raw.qos && raw.qos[Str(d)] == Tuples(CaptureMasters(r, d))
      && Str(d) in raw.bw
      && raw.bw[Str(d)] == JList([JInt(r.qos[(d, SDMA)].mpamid), JInt(b.low), JInt(b.high), JInt(b.hardLimit)])
      && Str(d) in raw.fuse
      && raw.fuse[Str(d)] == JList([JInt(r.fuse[d].enable), JInt(r.fuse[d].autoFuse), JInt(r.fuse[d].mode)])
  {
    RecordAt(devices, k => Some(CaptureMasters(r, k)), d);
    RecordAt(devices, k => BwTuple(r, k), d);
    RecordAt(devices, k => FuseTuple(r, k), d);
    var mpamid := r.qos[(d, SDMA)].mpamid;
    var b, f := r.bw[(d, mpamid)], r.fuse[d];
    FiveInts(0, mpamid, b.low, b.high, b.hardLimit);
    ThreeInts(f.enable, f.autoFuse, f.mode);
    hide CaptureMasters, Str;
  }

  /** The device has no complete entry in the file yet. */
  predicate Unrecorded(file: StateFile, d: nat)
    requires Load(file).Ok?
  {
    Load(file).value.None? || !Recorded(Load(file).value.value, d)
  }

  /** An apply writes down what the registers of a device held, if nothing was recorded yet. */
  lemma NewDeviceRecorded(r: Registers, file: StateFile, devices: seq<nat>, printed: seq<string>, d: nat)
    requires Load(file).Ok? && d in devices && Present(r, d) && Unrecorded(file, d)
    ensures RecordsDevice(FileOf(NextRaw(r, file, devices), printed), r, d)
  {
    var captured := TakenFrom(r, file, devices, d);
    CapturedEntries(r, captured, d);
    var next := NextRaw(r, file, devices);
    hide Load, CaptureMasters, Capture, Str, Missing, Recorded, RawOf, Tuples, Present, NextRaw;
    CapturedMastersRight(r, d, JObject(next.qos));
  }

  /** The new entries of a device are those of a capture that includes it. */
  lemma TakenFrom(r: Registers, file: StateFile, devices: seq<nat>, d: nat) returns (captured: seq<nat>)
    requires Load(file).Ok? && d in devices && Unrecorded(file, d)
    ensures d in captured
    ensures var added, next := RawOf(Capture(r, captured)), NextRaw(r, file, devices);
      && (Str(d) in added.qos ==> Str(d) in next.qos && next.qos[Str(d)] == added.qos[Str(d)])
      && (Str(d) in added.bw ==> Str(d) in next.bw && next.bw[Str(d)] == added.bw[Str(d)])
      && (Str(d) in added.fuse ==> Str(d) in next.fuse && next.fuse[Str(d)] == added.fuse[Str(d)])
  {
    captured := if Load(file).value.None? then devices else Missing(Load(file).value.value, devices);
    if Load(file).value.Some? { MissingAt(Load(file).value.value, devices, d); }
    hide Capture, RawOf, Missing, Str;
  }

  /** Whatever the file holds for a device that is recorded is written again as it was. */
  lemma OldDeviceKept(r: Registers, file: StateFile, devices: seq<nat>, d: nat)
    requires Load(file).Ok? && !Unrecorded(file, d)
    ensures var old', next := Load(file).value.value, NextRaw(r, file, devices);
      && Recorded(next, d)
      && next.qos[Str(d)] == old'.qos[Str(d)] && next.bw[Str(d)] == old'.bw[Str(d)]
      && next.fuse[Str(d)] == old'.fuse[Str(d)]
  {
    var missing := Missing(Load(file).value.value, devices);
    MissingAt(Load(file).value.value, devices, d);
    RecordAt(missing, k => Some(CaptureMasters(r, k)), d);
    RecordAt(missing, k => BwTuple(r, k), d);
    RecordAt(missing, k => FuseTuple(r, k), d);
  }

  // ----- what the validator takes for a number -----

  /** int() of a float drops the fraction. */
  lemma TruncateDropsFraction(x: real)
    ensures x >= 0.0 ==> 0 <= Truncate(x) && Truncate(x) as real <= x < Truncate(x) as real + 1.0
    ensures x <= 0.0 ==> Truncate(x) <= 0 && Truncate(x) as real - 1.0 < x <= Truncate(x) as real
  {}

  /** A file of an older tool, without bandwidth and fuse entries, is valid. */
  lemma OldFileValid(devices: map<string, Json>, printed: seq<string>)
    requires ValidDevices(devices)
    ensures ValidState(JObject(map["original_qos" := JObject(devices), "printed_commands" := JList(StringItems(printed))]))
  {
    StringsRoundTrip(printed);
  }

  /** What int() makes of each kind of value. */
  lemma NumbersAre(n: int, x: real, s: string, items: seq<Json>, fields: map<string, Json>)
    ensures IntOf(JInt(n)) == Some(n) && IntOf(JFloat(x)) == Some(Truncate(x)) && IntOf(JString(s)) == ParseInt(s)
    ensures IntOf(JBool(true)) == Some(1) && IntOf(JBool(false)) == Some(0)
    ensures IntOf(JNull) == None && IntOf(JList(items)) == None && IntOf(JObject(fields)) == None
  {}

  lemma {:induction false} AllNumbers(items: seq<Json>)
    ensures IntsOf(items).Some? <==> forall i :: 0 <= i < |items| ==> IntOf(items[i]).Some?
  {
    if items != [] {
      AllNumbers(items[1..]);
      assert forall i :: 0 < i < |items| ==> items[i] == items[1..][i - 1];
    }
  }

  lemma {:induction false} AllStrings(items: seq<Json>)
    ensures StringsOf(items).Some? <==> forall i :: 0 <= i < |items| ==> items[i].JString?
  {
    if items != [] {
      AllStrings(items[1..]);
      assert forall i :: 0 < i < |items| ==> items[i] == items[1..][i - 1];
    }
  }

  /** A list of `len` values that are numbers. */
  predicate Numbers(j: Json, len: nat) {
    j.JList? && |j.items| == len && forall i :: 0 <= i < |j.items| ==> IntOf(j.items[i]).Some?
  }

  predicate EntriesOf(j: Json, len: nat) {
    j.JObject? && forall k :: k in j.fields ==> ParseInt(k).Some? && Numbers(j.fields[k], len)
  }

  /** The files unset accepts: five numbers for each master of each device, optionally four for
      each bandwidth and three for each fuse entry, and a list of commands. */
  predicate Acceptable(file: Json) {
    && file.JObject?
    && "original_qos" in file.fields && file.fields["original_qos"].JObject?
    && (forall d :: d in file.fields["original_qos"].fields ==>
          ParseInt(d).Some? && EntriesOf(file.fields["original_qos"].fields[d], 5))
    && ("original_sdma_mata" in file.fields ==> EntriesOf(file.fields["original_sdma_mata"], 4))
    && ("original_fuse" in file.fields ==> EntriesOf(file.fields["original_fuse"], 3))
    && "printed_commands" in file.fields && file.fields["printed_commands"].JList?
    && (forall i :: 0 <= i < |file.fields["printed_commands"].items| ==> file.fields["printed_commands"].items[i].JString?)
  }

  lemma EntriesExactly(j: Json, len: nat)
    ensures EntriesOf(j, len) <==> j.JObject? && ValidTuples(j.fields, len)
  {
    if j.JObject? {
      forall k | k in j.fields ensures TupleOf(j.fields[k], len).Some? <==> Numbers(j.fields[k], len) {
        if j.fields[k].JList? { AllNumbers(j.fields[k].items); }
      }
    }
    hide TupleOf, Numbers, ParseInt;
  }

  lemma DevicesExactly(fields: map<string, Json>)
    ensures ValidDevices(fields) <==> forall d :: d in fields ==> ParseInt(d).Some? && EntriesOf(fields[d], 5)
  {
    forall d | d in fields ensures EntriesOf(fields[d], 5) <==> ValidMasters(fields[d]) { EntriesExactly(fields[d], 5); }
    hide EntriesOf, ValidMasters, ParseInt;
  }

  lemma ValidExactly(file: Json)
    ensures ValidState(file) <==> Acceptable(file)
  {
    if file.JObject? {
      EntriesExactly(FieldOr(file, "original_sdma_mata"), 4);
      EntriesExactly(FieldOr(file, "original_fuse"), 3);
      if "original_qos" in file.fields && file.fields["original_qos"].JObject? {
        DevicesExactly(file.fields["original_qos"].fields);
      }
      if "printed_commands" in file.fields && file.fields["printed_commands"].JList? {
        AllStrings(file.fields["printed_commands"].items);
      }
    }
    hide EntriesOf, ValidDevices, ValidTuples, ParseInt, StringsOf;
  }

  /** The dict under a name; a value that is no dict counts as an empty one. */
  function DictAt(file: Json, name: string): map<string, Json>
    requires file.JObject?
  {
    if name in file.fields && file.fields[name].JObject? then file.fields[name].fields else map[]
  }

  /** What an apply takes from the file it finds. */
  lemma LoadExactly(file: StateFile)
    ensures Load(file).Err? <==> file.Holds? && !file.data.JObject?
    ensures Load(file).Ok? && Load(file).value.Some? <==>
      file.Holds? && file.data.JObject?
      && "original_qos" in file.data.fields && file.data.fields["original_qos"].JObject?
    ensures Load(file).Ok? && Load(file).value.Some? ==>
      Load(file).value.value ==
      Dicts(DictAt(file.data, "original_qos"), DictAt(file.data, "original_sdma_mata"), DictAt(file.data, "original_fuse"))
  {}
}
