/** The AI-QoS tool as code that reads and writes device registers and the state file. */
module QosProgram {
  import opened Common
  import opened QosModel
  import opened QosHistory
  import opened QosState
  import opened QosFile
  import opened QosRestore
  import opened QosLaws

  class AiqosTool {
    var qos: map<(nat, nat), Qos>
    var bw: map<(nat, int), Bandwidth>
    var fuse: map<nat, Fuse>
    var stateFile: StateFile

    function Regs(): Registers
      reads this
    {
      Registers(qos, bw, fuse)
    }

    /** The state file is absent, or is one an apply wrote. */
    ghost predicate Intact()
      reads this
    {
      IntactFile(Regs(), stateFile)
    }

    ghost function State(): World
      reads this
      requires Intact()
    {
      World(Regs(), Recording(stateFile))
    }

    constructor (qos: map<(nat, nat), Qos>, bw: map<(nat, int), Bandwidth>, fuse: map<nat, Fuse>, stateFile: StateFile)
      ensures Regs() == Registers(qos, bw, fuse) && this.stateFile == stateFile
      ensures stateFile.Absent? ==> Intact() && State() == World(Registers(qos, bw, fuse), None)
    {
      this.qos, this.bw, this.fuse, this.stateFile := qos, bw, fuse, stateFile;
    }

    // ----- reading registers -----

    method CaptureDevice(d: nat) returns (masters: map<string, seq<int>>)
      ensures masters == CaptureMasters(Regs(), d)
    {
      masters := map[];
      for j := 0 to |MASTERS|
        invariant masters == CaptureFrom(Regs(), d, MASTERS[..j])
      {
        var read := QosTuple(Regs(), d, MASTERS[j]);
        if read.Some? { masters := masters[Str(MASTERS[j]) := read.value]; }
        assert MASTERS[..j + 1][..j] == MASTERS[..j];
      }
      assert MASTERS[..|MASTERS|] == MASTERS;
    }

    method CaptureOriginalQos(devices: seq<nat>) returns (original: map<string, map<string, seq<int>>>)
      ensures original == CaptureQos(Regs(), devices)
    {
      original := map[];
      for i := 0 to |devices|
        invariant original == CaptureQos(Regs(), devices[..i])
      {
        var masters := CaptureDevice(devices[i]);
        original := original[Str(devices[i]) := masters];
        assert devices[..i + 1][..i] == devices[..i];
      }
      assert devices[..|devices|] == devices;
    }

    method CaptureOriginalBw(devices: seq<nat>) returns (out: map<string, seq<int>>)
      ensures out == CaptureBw(Regs(), devices)
    {
      out := map[];
      for i := 0 to |devices|
        invariant out == CaptureBw(Regs(), devices[..i])
      {
        var d := devices[i];
        if (d, SDMA) in qos {
          var mpamid := qos[(d, SDMA)].mpamid;
          if (d, mpamid) in bw {
            var b := bw[(d, mpamid)];
            out := out[Str(d) := [mpamid, b.low, b.high, b.hardLimit]];
          }
        }
        assert devices[..i + 1][..i] == devices[..i];
      }
      assert devices[..|devices|] == devices;
    }

    method CaptureOriginalFuse(devices: seq<nat>) returns (out: map<string, seq<int>>)
      ensures out == CaptureFuse(Regs(), devices)
    {
      out := map[];
      for i := 0 to |devices|
        invariant out == CaptureFuse(Regs(), devices[..i])
      {
        var d := devices[i];
        if d in fuse { out := out[Str(d) := [fuse[d].enable, fuse[d].autoFuse, fuse[d].mode]]; }
        assert devices[..i + 1][..i] == devices[..i];
      }
      assert devices[..|devices|] == devices;
    }

    /** Adds what the devices read to the dicts of the file, without looking into those. */
    method MergeBaseline(devices: seq<nat>, raw: RawDicts) returns (merged: RawDicts)
      ensures merged == RawMerge(Regs(), raw, devices)
    {
      var missing: seq<nat> := [];
      for i := 0 to |devices|
        invariant missing == Missing(raw, devices[..i])
      {
        if !Recorded(raw, devices[i]) { missing := missing + [devices[i]]; }
        assert devices[..i + 1][..i] == devices[..i];
      }
      assert devices[..|devices|] == devices;
      if missing == [] {
        NothingCaptured(Regs());
        return raw;
      }
      var newQos := CaptureOriginalQos(missing);
      var newBw := CaptureOriginalBw(missing);
      var newFuse := CaptureOriginalFuse(missing);
      merged := Union(raw, RawOf(Dicts(newQos, newBw, newFuse)));
    }

    // ----- apply -----

    /** One turn of the inner loop: a master that can be read is rewritten with its new level. */
    method TuneMaster(d: nat, master: nat, t: Targets)
      modifies this`qos, this`bw
      ensures qos == if (d, master) in old(qos) then
                       old(qos)[(d, master) := old(qos)[(d, master)].(qos := Target(t, master))]
                     else old(qos)
      ensures bw == if master == SDMA && (d, master) in old(qos) then
                      SetBw(old(bw), d, old(qos)[(d, master)].mpamid, APPLIED_BW)
                    else old(bw)
    {
      if (d, master) in qos {
        var read := qos[(d, master)];
        if master == SDMA { bw := SetBw(bw, d, read.mpamid, APPLIED_BW); }
        qos := qos[(d, master) := read.(qos := Target(t, master))];
      }
    }

    /** The tuning loop over one device: fuse first, then each master. */
    method TuneDevice(d: nat, t: Targets)
      modifies this`qos, this`bw, this`fuse
      ensures Regs() == Tuned(old(Regs()), {d}, t)
    {
      ghost var r := Regs();
      fuse := SetFuse(fuse, d, APPLIED_FUSE);
      TunedFirst(r, d, t);
      for j := 0 to |MASTERS|
        invariant Regs() == TunedUpto(r, d, j, t)
      {
        TunedStep(r, d, j, t);
        TuneMaster(d, MASTERS[j], t);
      }
      TunedOne(r, d, t);
    }

    /** Applies the priorities to the devices, whatever the file holds. */
    method SetQos(devices: seq<nat>, p: Priorities, printed: seq<string>) returns (failure: Option<Failure>)
      modifies this
      ensures failure == Some(AttributeError) <==> old(stateFile).Holds? && !old(stateFile).data.JObject?
      ensures failure == Some(TypeError) <==>
        !(old(stateFile).Holds? && !old(stateFile).data.JObject?) && p.pcieH2d == Middle
      ensures failure.Some? ==> Regs() == old(Regs()) && stateFile == old(stateFile)
      ensures failure.None? ==>
        && Regs() == Tuned(old(Regs()), Devices(devices), TargetsOf(p).value)
        && Applied(old(Regs()), Regs(), devices, p)
        && stateFile == Holds(FileOf(NextRaw(old(Regs()), old(stateFile), devices), printed))
      ensures old(Intact() && Allowed(State(), Apply(devices, p))) ==>
        Intact() && State() == After(old(State()), Apply(devices, p))
    {
      ghost var r, file := Regs(), stateFile;
      var loaded := Load(stateFile);
      LoadExactly(stateFile);
      if IntactFile(r, file) && !file.Absent? { LoadIntact(r, file); }
      if loaded.Err? { return Some(AttributeError); }
      var raw: RawDicts;
      if loaded.value.Some? {
        raw := MergeBaseline(devices, loaded.value.value);
      } else {
        var q := CaptureOriginalQos(devices);
        var b := CaptureOriginalBw(devices);
        var f := CaptureOriginalFuse(devices);
        raw := RawOf(Dicts(q, b, f));
      }
      var targets := TargetsOf(p);
      FailsOnlyForPcie(p);
      hide Applied, Tuned, FileOf, NextRaw, RawOf;
      if targets.None? { return Some(TypeError); }
      TuneAll(devices, targets.value);
      TunedApplied(r, devices, p, targets.value);
      stateFile := Holds(FileOf(raw, printed));
      failure := None;
      if IntactFile(r, file) && Allowed(World(r, Recording(file)), Apply(devices, p)) {
        NextIntact(r, file, devices, targets.value, printed);
      }
    }

    method TuneAll(devices: seq<nat>, t: Targets)
      modifies this`qos, this`bw, this`fuse
      ensures Regs() == Tuned(old(Regs()), Devices(devices), t)
    {
      ghost var r := Regs();
      TunedNone(r, t);
      assert devices[..0] == [];
      for i := 0 to |devices|
        invariant Regs() == Tuned(r, Devices(devices[..i]), t)
      {
        TuneDevice(devices[i], t);
        TunedNext(r, devices, i, t);
      }
      assert devices[..|devices|] == devices;
    }

    // ----- unset -----

    method RestoreBw(dict: map<string, seq<int>>)
      requires Entries(dict, BW_LEN)
      modifies this`bw
      ensures bw == BwAfter(old(bw), dict)
    {
      var todo := dict.Keys;
      BwAfterNone(bw);
      assert dict - todo == map[];
      while todo != {}
        invariant todo <= dict.Keys
        invariant bw == BwAfter(old(bw), dict - todo)
        decreases |todo|
      {
        var key :| key in todo;
        BwAfterNext(old(bw), dict, todo, key);
        bw := SetBw(bw, IdOf(key), dict[key][0], TupleBw(dict[key]));
        todo := todo - {key};
      }
      assert dict - todo == dict;
    }

    method RestoreMasters(d: int, masters: map<string, seq<int>>)
      requires forall key :: key in masters ==> ParseInt(key).Some?
      modifies this`qos
      ensures MastersBack(old(qos), qos, d, masters)
    {
      var todo := masters.Keys;
      NobodyBack(qos, d);
      assert masters - todo == map[];
      while todo != {}
        invariant todo <= masters.Keys
        invariant MastersBack(old(qos), qos, d, masters - todo)
        decreases |todo|
      {
        var key :| key in todo;
        MastersNext(old(qos), qos, d, masters, todo, key);
        qos := QosRestore.SetQos(qos, d, IdOf(key), TupleQos(masters[key]));
        todo := todo - {key};
      }
      assert masters - todo == masters;
    }

    method RestoreQos(dict: map<string, map<string, seq<int>>>)
      requires RekeyedKeys(dict) && forall d, key :: d in dict && key in dict[d] ==> ParseInt(key).Some?
      modifies this`qos
      ensures QosBack(old(qos), qos, dict)
    {
      var todo := dict.Keys;
      NobodyBack(qos, 0);
      assert dict - todo == map[];
      while todo != {}
        invariant todo <= dict.Keys
        invariant QosBack(old(qos), qos, dict - todo)
        decreases |todo|
      {
        var key :| key in todo;
        ghost var between := qos;
        RestoreMasters(IdOf(key), dict[key]);
        QosNext(old(qos), between, qos, dict, todo, key);
        todo := todo - {key};
      }
      assert dict - todo == dict;
    }

    method RestoreFuse(dict: map<string, seq<int>>)
      requires Entries(dict, FUSE_LEN)
      modifies this`fuse
      ensures fuse == FuseAfter(old(fuse), dict)
    {
      var todo := dict.Keys;
      FuseAfterNone(fuse);
      assert dict - todo == map[];
      while todo != {}
        invariant todo <= dict.Keys
        invariant fuse == FuseAfter(old(fuse), dict - todo)
        decreases |todo|
      {
        var key :| key in todo;
        FuseAfterNext(old(fuse), dict, todo, key);
        fuse := SetFuse(fuse, IdOf(key), TupleFuse(dict[key]));
        todo := todo - {key};
      }
      assert dict - todo == dict;
    }

    /** Restores what the state file holds and removes it.  False is exit(1): there is no
        state file, or it does not validate and is removed. */
    method RunUnset() returns (ok: bool)
      modifies this
      ensures stateFile.Absent?
      ensures ok <==> old(stateFile).Holds? && ValidState(old(stateFile).data)
      ensures !ok ==> Regs() == old(Regs())
      ensures ok ==> exists restore ::
        Reads(old(stateFile).data, restore) && WritesBack(old(Regs()), Regs(), restore.baseline)
      ensures old(Intact()) ==> Intact() && State() == After(old(State()), Unset)
    {
      ghost var r := Regs();
      RestoredNothing(r);
      var file := stateFile;
      stateFile := Absent;
      if !file.Holds? { return false; }
      var parsed := ParseAndValidate(file.data);
      if parsed.Err? { return false; }
      var b := parsed.value.baseline;
      ReadRestorable(file.data, parsed.value);
      RestoreBw(b.bw);
      RestoreQos(b.qos);
      RestoreFuse(b.fuse);
      assert Reads(file.data, parsed.value) && WritesBack(r, Regs(), b);
      if IntactFile(r, file) {
        CanonicalReads(file.data, parsed.value);
        SoundWritesBack(r, Regs(), b);
      }
      ok := true;
    }
  }

  lemma NothingCaptured(r: Registers)
    ensures RawOf(Capture(r, [])) == Dicts(map[], map[], map[])
  {}

  // ----- facts about tuning -----

  /** The registers when the loop over one device has come to master `j`. */
  function TunedUpto(r: Registers, d: nat, j: nat, t: Targets): Registers
    requires j <= |MASTERS|
  {
    Registers(
      map k | k in r.qos :: if k.0 == d && k.1 in MASTERS[..j] then r.qos[k].(qos := Target(t, k.1)) else r.qos[k],
      if SDMA in MASTERS[..j] && (d, SDMA) in r.qos
      then SetBw(r.bw, d, r.qos[(d, SDMA)].mpamid, APPLIED_BW) else r.bw,
      SetFuse(r.fuse, d, APPLIED_FUSE))
  }

  lemma TunedFirst(r: Registers, d: nat, t: Targets)
    ensures TunedUpto(r, d, 0, t) == r.(fuse := SetFuse(r.fuse, d, APPLIED_FUSE))
  {}

  lemma TunedStep(r: Registers, d: nat, j: nat, t: Targets)
    requires j < |MASTERS|
    ensures var before, after, m := TunedUpto(r, d, j, t), TunedUpto(r, d, j + 1, t), MASTERS[j];
      && after.fuse == before.fuse
      && after.qos == (if (d, m) in before.qos
                       then before.qos[(d, m) := before.qos[(d, m)].(qos := Target(t, m))] else before.qos)
      && after.bw == if m == SDMA && (d, m) in before.qos
                     then SetBw(before.bw, d, before.qos[(d, m)].mpamid, APPLIED_BW) else before.bw
  {
    assert MASTERS[..j + 1] == MASTERS[..j] + [MASTERS[j]];
    assert MASTERS[j] !in MASTERS[..j];
    hide Target;
  }

  lemma TunedOne(r: Registers, d: nat, t: Targets)
    ensures TunedUpto(r, d, |MASTERS|, t) == Tuned(r, {d}, t)
  {
    assert MASTERS[..|MASTERS|] == MASTERS;
    hide Target;
    var upto, tuned := TunedUpto(r, d, |MASTERS|, t), Tuned(r, {d}, t);
    assert upto.qos == tuned.qos;
    assert upto.bw == tuned.bw;
    assert upto.fuse == tuned.fuse;
  }

  lemma TunedNone(r: Registers, t: Targets)
    ensures Tuned(r, {}, t) == r
  {}

  lemma TunedTwice(r: Registers, devices: set<nat>, d: nat, t: Targets)
    ensures Tuned(Tuned(r, devices, t), {d}, t) == Tuned(r, devices + {d}, t)
  {
    var once, both := Tuned(Tuned(r, devices, t), {d}, t), Tuned(r, devices + {d}, t);
    assert once.qos == both.qos;
    assert once.bw == both.bw;
    assert once.fuse == both.fuse;
  }

  lemma TunedNext(r: Registers, devices: seq<nat>, i: nat, t: Targets)
    requires i < |devices|
    ensures Tuned(Tuned(r, Devices(devices[..i]), t), {devices[i]}, t) == Tuned(r, Devices(devices[..i + 1]), t)
  {
    TunedTwice(r, Devices(devices[..i]), devices[i], t);
    assert Devices(devices[..i + 1]) == Devices(devices[..i]) + {devices[i]};
  }
}
