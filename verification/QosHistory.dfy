/** Any history of applies, unsets and changes by others to registers the tool does not
    own: unset leaves the registers as if the tool had never run. */
module QosHistory {
  import opened Common
  import opened QosModel

  function Devices(devices: seq<nat>): set<nat> { set d | d in devices }

  lemma CapturedMasters(r: Registers, d: nat)
    requires Present(r, d)
    ensures QosComplete(r, CaptureMasters(r, d), d)
    ensures forall m :: m in MASTERS ==> TupleQos(CaptureMasters(r, d)[Str(m)]) == r.qos[(d, m)]
  {
    var read := m => QosTuple(r, d, m);
    forall m | m in MASTERS
      ensures Str(m) in Record(MASTERS, read) && Record(MASTERS, read)[Str(m)] == QosTuple(r, d, m).value
    {
      RecordAt(MASTERS, read, m);
    }
    forall k | k in Record(MASTERS, read) ensures k in set m | m in MASTERS :: Str(m) {
      RecordedUnder(MASTERS, read, k);
    }
  }

  lemma {:induction false} RecordedUnder<V>(ids: seq<nat>, read: nat -> Option<V>, k: string)
    requires k in Record(ids, read)
    ensures k in set n | n in ids :: Str(n)
  {
    var last := ids[|ids| - 1];
    assert last in ids;
    if k != Str(last) {
      RecordedUnder(ids[..|ids| - 1], read, k);
      var n :| n in ids[..|ids| - 1] && Str(n) == k;
      assert n in ids;
    }
  }

  predicate Fresh(b: Baseline, devices: seq<nat>, d: nat) { d in devices && !Recorded(b, d) }

  /** Merging captures a missing device and leaves every other entry alone. */
  lemma MergeAt(r: Registers, b: Baseline, devices: seq<nat>, d: nat)
    requires Present(r, d) || d !in devices
    ensures var m := Merge(r, b, devices); var k := Str(d);
      && (k in m.qos <==> k in b.qos || Fresh(b, devices, d))
      && (k in m.bw <==> k in b.bw || Fresh(b, devices, d))
      && (k in m.fuse <==> k in b.fuse || Fresh(b, devices, d))
      && (k in m.qos ==> m.qos[k] == if Fresh(b, devices, d) then CaptureMasters(r, d) else b.qos[k])
      && (k in m.bw ==> m.bw[k] == if Fresh(b, devices, d) then BwTuple(r, d).value else b.bw[k])
      && (k in m.fuse ==> m.fuse[k] == if Fresh(b, devices, d) then FuseTuple(r, d).value else b.fuse[k])
  {
    var missing := Missing(b, devices);
    MissingAt(b, devices, d);
    RecordAt(missing, d => Some(CaptureMasters(r, d)), d);
    RecordAt(missing, d => BwTuple(r, d), d);
    RecordAt(missing, d => FuseTuple(r, d), d);
  }

  lemma MergeKeys(r: Registers, b: Baseline, devices: seq<nat>, k: string)
    requires Sound(r, b)
    requires k in Merge(r, b, devices).qos || k in Merge(r, b, devices).bw || k in Merge(r, b, devices).fuse
    ensures IsId(k)
  {
    var missing := Missing(b, devices);
    if k !in b.qos && k !in b.bw && k !in b.fuse {
      if k in CaptureQos(r, missing) { RecordKeys(missing, d => Some(CaptureMasters(r, d)), k); }
      else if k in CaptureBw(r, missing) { RecordKeys(missing, d => BwTuple(r, d), k); }
      else { RecordKeys(missing, d => FuseTuple(r, d), k); }
    }
  }

  /** Applying keeps every mpamid, so the same bandwidth register stays named. */
  lemma TunedPresent(r: Registers, devices: set<nat>, t: Targets, d: nat)
    requires Present(r, d)
    ensures Present(Tuned(r, devices, t), d)
    ensures forall m :: m in MASTERS ==> Tuned(r, devices, t).qos[(d, m)].mpamid == r.qos[(d, m)].mpamid
  {}

  lemma ApplySoundAt(r: Registers, b: Baseline, devices: seq<nat>, t: Targets, d: nat)
    requires SoundAt(r, b, d) && (Present(r, d) || d !in devices)
    ensures SoundAt(Tuned(r, Devices(devices), t), Merge(r, b, devices), d)
  {
    MergeAt(r, b, devices, d);
    if Present(r, d) {
      TunedPresent(r, Devices(devices), t, d);
      CapturedMasters(r, d);
    }
  }

  lemma ApplySound(r: Registers, b: Baseline, devices: seq<nat>, t: Targets)
    requires Sound(r, b) && forall d :: d in devices ==> Present(r, d)
    ensures Sound(Tuned(r, Devices(devices), t), Merge(r, b, devices))
  {
    forall d: nat { ApplySoundAt(r, b, devices, t, d); }
    forall k | k in Merge(r, b, devices).qos || k in Merge(r, b, devices).bw || k in Merge(r, b, devices).fuse
      ensures IsId(k)
    {
      MergeKeys(r, b, devices, k);
    }
  }

  lemma NoOtherMaster(m: nat)
    requires m !in MASTERS
    ensures Str(m) !in set n | n in MASTERS :: Str(n)
  {
    forall n | n in MASTERS ensures Str(m) != Str(n) {
      if Str(m) == Str(n) { StrInjective(m, n); }
    }
  }

  lemma QosUntouched(r: Registers, b: Baseline, devices: seq<nat>, t: Targets, d: nat, m: nat)
    requires SoundAt(r, b, d) && (Present(r, d) || d !in devices) && (d, m) in r.qos
    ensures RestoredQos(Tuned(r, Devices(devices), t), Merge(r, b, devices), d, m) == RestoredQos(r, b, d, m)
  {
    MergeAt(r, b, devices, d);
    hide Str, Merge, TargetsOf;
    if m !in MASTERS {
      NoOtherMaster(m);
      if Present(r, d) { CapturedMasters(r, d); }
    } else if Fresh(b, devices, d) {
      CapturedMasters(r, d);
      assert RestoredQos(r, b, d, m) == r.qos[(d, m)];
    } else if d in devices {
      assert Str(m) in b.qos[Str(d)];
    } else {
      assert Tuned(r, Devices(devices), t).qos[(d, m)] == r.qos[(d, m)];
    }
  }

  lemma BwUntouched(r: Registers, b: Baseline, devices: seq<nat>, t: Targets, d: nat, p: int)
    requires SoundAt(r, b, d) && (Present(r, d) || d !in devices) && (d, p) in r.bw
    ensures RestoredBw(Tuned(r, Devices(devices), t), Merge(r, b, devices), d, p) == RestoredBw(r, b, d, p)
  {
    MergeAt(r, b, devices, d);
  }

  lemma FuseUntouched(r: Registers, b: Baseline, devices: seq<nat>, t: Targets, d: nat)
    requires SoundAt(r, b, d) && (Present(r, d) || d !in devices) && d in r.fuse
    ensures RestoredFuse(Tuned(r, Devices(devices), t), Merge(r, b, devices), d) == RestoredFuse(r, b, d)
  {
    MergeAt(r, b, devices, d);
  }

  /** One apply does not change what an unset would restore. */
  lemma ApplyKeepsRestored(r: Registers, b: Baseline, devices: seq<nat>, t: Targets)
    requires Sound(r, b) && forall d :: d in devices ==> Present(r, d)
    ensures Restored(Tuned(r, Devices(devices), t), Merge(r, b, devices)) == Restored(r, b)
  {
    var r', b' := Tuned(r, Devices(devices), t), Merge(r, b, devices);
    forall k | k in r.qos ensures RestoredQos(r', b', k.0, k.1) == RestoredQos(r, b, k.0, k.1) {
      QosUntouched(r, b, devices, t, k.0, k.1);
    }
    forall k | k in r.bw ensures RestoredBw(r', b', k.0, k.1) == RestoredBw(r, b, k.0, k.1) {
      BwUntouched(r, b, devices, t, k.0, k.1);
    }
    forall d | d in r.fuse ensures RestoredFuse(r', b', d) == RestoredFuse(r, b, d) {
      FuseUntouched(r, b, devices, t, d);
    }
    RestoredEqual(r, b, r', b');
  }

  lemma RestoredEqual(r: Registers, b: Baseline, r': Registers, b': Baseline)
    requires r'.qos.Keys == r.qos.Keys && r'.bw.Keys == r.bw.Keys && r'.fuse.Keys == r.fuse.Keys
    requires forall k :: k in r.qos ==> RestoredQos(r', b', k.0, k.1) == RestoredQos(r, b, k.0, k.1)
    requires forall k :: k in r.bw ==> RestoredBw(r', b', k.0, k.1) == RestoredBw(r, b, k.0, k.1)
    requires forall d :: d in r.fuse ==> RestoredFuse(r', b', d) == RestoredFuse(r, b, d)
    ensures Restored(r', b') == Restored(r, b)
  {}

  /** A device already in the baseline is never captured again. */
  lemma BaselineNeverOverwritten(r: Registers, b: Baseline, devices: seq<nat>, d: nat)
    requires SoundAt(r, b, d) && Str(d) in b.qos
    ensures Recorded(b, d) && Recorded(Merge(r, b, devices), d)
    ensures Merge(r, b, devices).qos[Str(d)] == b.qos[Str(d)]
    ensures Merge(r, b, devices).bw[Str(d)] == b.bw[Str(d)]
    ensures Merge(r, b, devices).fuse[Str(d)] == b.fuse[Str(d)]
  {
    MergeAt(r, b, devices, d);
  }

  // ----- histories -----

  /** `file` is the state file; None when there is none. */
  datatype World = World(regs: Registers, file: Option<Baseline>)

  datatype Event =
    | Apply(devices: seq<nat>, priorities: Priorities)
    | Unset
    | Others(change: Registers)  // other software writes these registers

  function BaselineOf(w: World): Baseline { if w.file.Some? then w.file.value else EMPTY }

  function Overlay(r: Registers, change: Registers): Registers {
    Registers(r.qos + change.qos, r.bw + change.bw, r.fuse + change.fuse)
  }

  function After(w: World, e: Event): World {
    match e
    case Apply(devices, p) =>
      (match TargetsOf(p)
       case None => w
       case Some(t) => World(Tuned(w.regs, Devices(devices), t), Some(Merge(w.regs, BaselineOf(w), devices))))
    case Unset => World(Restored(w.regs, BaselineOf(w)), None)
    case Others(change) => w.(regs := Overlay(w.regs, change))
  }

  /** An apply finds its devices; other software keeps off the registers of recorded
      devices.  A device not yet recorded may change in any way. */
  ghost predicate Allowed(w: World, e: Event) {
    match e
    case Apply(devices, _) => forall d :: d in devices ==> Present(w.regs, d)
    case Unset => true
    case Others(change) => Disjoint(BaselineOf(w), change)
  }

  ghost predicate Disjoint(b: Baseline, change: Registers) {
    && (forall k :: k in change.qos ==> Str(k.0) !in b.qos)
    && (forall k :: k in change.bw ==> Str(k.0) !in b.qos)
    && (forall d :: d in change.fuse ==> Str(d) !in b.qos)
  }

  function Run(w: World, events: seq<Event>): World
    decreases |events|
  {
    if events == [] then w else Run(After(w, events[0]), events[1..])
  }

  ghost predicate RunAllowed(w: World, events: seq<Event>)
    decreases |events|
  {
    events == [] || (Allowed(w, events[0]) && RunAllowed(After(w, events[0]), events[1..]))
  }

  /** The same history with the tool taken out. */
  function WithoutTool(r: Registers, events: seq<Event>): Registers
    decreases |events|
  {
    if events == [] then r
    else WithoutTool(if events[0].Others? then Overlay(r, events[0].change) else r, events[1..])
  }

  lemma RestoredNothing(r: Registers)
    ensures Restored(r, EMPTY) == r && Sound(r, EMPTY)
  {}

  lemma OthersKeepSound(r: Registers, b: Baseline, change: Registers)
    requires Sound(r, b) && Disjoint(b, change)
    ensures Sound(Overlay(r, change), b)
  {
    forall d: nat ensures SoundAt(Overlay(r, change), b, d) {
      assert SoundAt(r, b, d);
    }
  }

  /** Changes by others go through to what unset would leave. */
  lemma OthersCommute(r: Registers, b: Baseline, change: Registers)
    requires Sound(r, b) && Disjoint(b, change)
    ensures Restored(Overlay(r, change), b) == Overlay(Restored(r, b), change)
  {
    OthersCommuteQos(r, b, change);
    OthersCommuteBw(r, b, change);
    OthersCommuteFuse(r, b, change);
  }

  lemma OthersCommuteQos(r: Registers, b: Baseline, change: Registers)
    requires Disjoint(b, change)
    ensures Restored(Overlay(r, change), b).qos == Restored(r, b).qos + change.qos
  {
    hide Str, TupleQos, TupleBw, TupleFuse, RestoredBw, RestoredFuse;
    forall k | k in change.qos ensures RestoredQos(Overlay(r, change), b, k.0, k.1) == change.qos[k] {}
  }

  lemma OthersCommuteBw(r: Registers, b: Baseline, change: Registers)
    requires Sound(r, b) && Disjoint(b, change)
    ensures Restored(Overlay(r, change), b).bw == Restored(r, b).bw + change.bw
  {
    hide Str, TupleQos, TupleBw, TupleFuse, RestoredQos, RestoredFuse, QosComplete, Present;
    forall k | k in change.bw ensures RestoredBw(Overlay(r, change), b, k.0, k.1) == change.bw[k] {
      assert SoundAt(r, b, k.0);
    }
  }

  lemma OthersCommuteFuse(r: Registers, b: Baseline, change: Registers)
    requires Sound(r, b) && Disjoint(b, change)
    ensures Restored(Overlay(r, change), b).fuse == Restored(r, b).fuse + change.fuse
  {
    hide Str, TupleQos, TupleBw, TupleFuse, RestoredQos, RestoredBw, QosComplete, Present;
    forall d | d in change.fuse ensures RestoredFuse(Overlay(r, change), b, d) == change.fuse[d] {
      assert SoundAt(r, b, d);
    }
  }

  lemma StepInvisible(w: World, e: Event)
    requires Sound(w.regs, BaselineOf(w)) && Allowed(w, e)
    ensures var u := After(w, e);
            Sound(u.regs, BaselineOf(u))
            && Restored(u.regs, BaselineOf(u)) ==
               if e.Others? then Overlay(Restored(w.regs, BaselineOf(w)), e.change) else Restored(w.regs, BaselineOf(w))
  {
    match e
    case Apply(devices, p) =>
      if TargetsOf(p).Some? {
        ApplySound(w.regs, BaselineOf(w), devices, TargetsOf(p).value);
        ApplyKeepsRestored(w.regs, BaselineOf(w), devices, TargetsOf(p).value);
      }
    case Unset => RestoredNothing(Restored(w.regs, BaselineOf(w)));
    case Others(change) =>
      OthersKeepSound(w.regs, BaselineOf(w), change);
      OthersCommute(w.regs, BaselineOf(w), change);
  }

  lemma {:induction false} RunInvisible(w: World, events: seq<Event>)
    requires Sound(w.regs, BaselineOf(w)) && RunAllowed(w, events)
    ensures var u := Run(w, events);
            Sound(u.regs, BaselineOf(u))
            && Restored(u.regs, BaselineOf(u)) == WithoutTool(Restored(w.regs, BaselineOf(w)), events)
    decreases |events|
  {
    if events != [] {
      StepInvisible(w, events[0]);
      RunInvisible(After(w, events[0]), events[1..]);
    }
  }

  /** From a system without a state file, whatever applies and unsets follow, with any
      device lists and priorities and with others changing registers the tool has not
      recorded: a final unset leaves exactly the registers that the same history
      without the tool would have left. */
  lemma UnsetUndoesEveryHistory(r: Registers, events: seq<Event>)
    requires RunAllowed(World(r, None), events)
    ensures After(Run(World(r, None), events), Unset) == World(WithoutTool(r, events), None)
  {
    RestoredNothing(r);
    RunInvisible(World(r, None), events);
  }

  /** In particular, with no other software, every register returns to its first value. */
  lemma {:induction false} NobodyElse(r: Registers, events: seq<Event>)
    requires forall i :: 0 <= i < |events| ==> !events[i].Others?
    ensures WithoutTool(r, events) == r
  {
    if events != [] { NobodyElse(r, events[1..]); }
  }

  lemma ApplyUnsetIdentity(r: Registers, events: seq<Event>)
    requires RunAllowed(World(r, None), events)
    requires forall i :: 0 <= i < |events| ==> !events[i].Others?
    ensures After(Run(World(r, None), events), Unset).regs == r
  {
    UnsetUndoesEveryHistory(r, events);
    NobodyElse(r, events);
  }
}
