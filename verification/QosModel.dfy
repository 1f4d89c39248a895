/** What one apply and one unset of the AI-QoS tool do to the device registers and to
    the recorded baseline.  The driver is a set of register maps; a call on a register
    that exists succeeds. */
module QosModel {
  import opened Common

  datatype Qos = Qos(mpamid: int, qos: int, pmg: int, mode: int)

  datatype Bandwidth = Bandwidth(low: int, high: int, hardLimit: int)

  datatype Fuse = Fuse(enable: int, autoFuse: int, mode: int)

  /** QoS registers by (device, master), bandwidth by (device, mpamid), fuse by device. */
  datatype Registers = Registers(
    qos: map<(nat, nat), Qos>,
    bw: map<(nat, int), Bandwidth>,
    fuse: map<nat, Fuse>)

  const AIV_DATA: nat := 11
  const AIV_INS: nat := 12
  const SDMA: nat := 13
  const PCIEDMA: nat := 7
  const MASTERS: seq<nat> := [AIV_DATA, AIV_INS, SDMA, PCIEDMA]

  const APPLIED_BW := Bandwidth(0, 1, 0)
  const APPLIED_FUSE := Fuse(1, 1, 1)

  /** Every register the tool touches on device `d` can be read. */
  predicate Present(r: Registers, d: nat) {
    && (forall m :: m in MASTERS ==> (d, m) in r.qos)
    && (d, r.qos[(d, SDMA)].mpamid) in r.bw
    && d in r.fuse
  }

  // ----- priorities -----

  datatype Level = Low | Middle | High

  datatype Priorities = Priorities(aivD2d: Level, aivH2d: Level, sdmaD2d: Level, sdmaH2d: Level, pcieH2d: Level)

  datatype Targets = Targets(aiv: int, sdma: int, pcie: int)

  function AivQos(l: Level): nat { match l case Low => 1 case Middle => 3 case High => 5 }

  function SdmaQos(l: Level): nat { match l case Low => 2 case Middle => 4 case High => 6 }

  /** PCIEDMA_H2D has no "middle" row: the lookup fails before anything is written. */
  function TargetsOf(p: Priorities): Option<Targets> {
    if p.pcieH2d.Middle? then None
    else Some(Targets(Min(AivQos(p.aivD2d), AivQos(p.aivH2d)),
                      Min(SdmaQos(p.sdmaD2d), SdmaQos(p.sdmaH2d)),
                      if p.pcieH2d.Low? then 0 else 7))
  }

  function Target(t: Targets, master: nat): int {
    if master == AIV_DATA || master == AIV_INS then t.aiv else if master == SDMA then t.sdma else t.pcie
  }

  // ----- the baseline, keyed by str(id) as in the state file -----

  /** The three dicts of a state file, holding masters M and tuples T. */
  datatype Dicts<M, T> = Dicts(qos: map<string, M>, bw: map<string, T>, fuse: map<string, T>)

  type Baseline = Dicts<map<string, seq<int>>, seq<int>>

  const EMPTY: Baseline := Dicts(map[], map[], map[])

  function QosTuple(r: Registers, d: nat, m: nat): Option<seq<int>> {
    if (d, m) in r.qos then
      var q := r.qos[(d, m)];
      Some([m, q.mpamid, q.qos, q.pmg, q.mode])
    else None
  }

  function BwTuple(r: Registers, d: nat): Option<seq<int>> {
    if (d, SDMA) in r.qos && (d, r.qos[(d, SDMA)].mpamid) in r.bw then
      var mpamid := r.qos[(d, SDMA)].mpamid;
      var b := r.bw[(d, mpamid)];
      Some([mpamid, b.low, b.high, b.hardLimit])
    else None
  }

  function FuseTuple(r: Registers, d: nat): Option<seq<int>> {
    if d in r.fuse then Some([r.fuse[d].enable, r.fuse[d].autoFuse, r.fuse[d].mode]) else None
  }

  /** A dict filled by looping over `ids`: reads that fail leave no entry. */
  function Record<V>(ids: seq<nat>, read: nat -> Option<V>): map<string, V> {
    if ids == [] then map[]
    else
      var last := ids[|ids| - 1];
      var before := Record(ids[..|ids| - 1], read);
      if read(last).Some? then before[Str(last) := read(last).value] else before
  }

  function CaptureFrom(r: Registers, d: nat, masters: seq<nat>): map<string, seq<int>> {
    Record(masters, m => QosTuple(r, d, m))
  }

  function CaptureMasters(r: Registers, d: nat): map<string, seq<int>> { CaptureFrom(r, d, MASTERS) }

  function CaptureQos(r: Registers, devices: seq<nat>): map<string, map<string, seq<int>>> {
    Record(devices, d => Some(CaptureMasters(r, d)))
  }

  function CaptureBw(r: Registers, devices: seq<nat>): map<string, seq<int>> {
    Record(devices, d => BwTuple(r, d))
  }

  function CaptureFuse(r: Registers, devices: seq<nat>): map<string, seq<int>> {
    Record(devices, d => FuseTuple(r, d))
  }

  function Capture(r: Registers, devices: seq<nat>): Baseline {
    Dicts(CaptureQos(r, devices), CaptureBw(r, devices), CaptureFuse(r, devices))
  }

  predicate Recorded<M, T>(b: Dicts<M, T>, d: nat) {
    Str(d) in b.qos && Str(d) in b.bw && Str(d) in b.fuse
  }

  function Missing<M, T>(b: Dicts<M, T>, devices: seq<nat>): seq<nat> {
    if devices == [] then []
    else
      var n := |devices| - 1;
      Missing(b, devices[..n]) + (if Recorded(b, devices[n]) then [] else [devices[n]])
  }

  function Union<M, T>(b: Dicts<M, T>, added: Dicts<M, T>): Dicts<M, T> {
    Dicts(b.qos + added.qos, b.bw + added.bw, b.fuse + added.fuse)
  }

  function Merge(r: Registers, b: Baseline, devices: seq<nat>): Baseline {
    Union(b, Capture(r, Missing(b, devices)))
  }

  // ----- writing the registers -----

  function Tuned(r: Registers, devices: set<nat>, t: Targets): Registers {
    Registers(
      map k | k in r.qos :: if k.0 in devices && k.1 in MASTERS then r.qos[k].(qos := Target(t, k.1)) else r.qos[k],
      map k | k in r.bw ::
        if k.0 in devices && (k.0, SDMA) in r.qos && r.qos[(k.0, SDMA)].mpamid == k.1 then APPLIED_BW else r.bw[k],
      map d | d in r.fuse :: if d in devices then APPLIED_FUSE else r.fuse[d])
  }

  function TupleQos(t: seq<int>): Qos { if |t| == 5 then Qos(t[1], t[2], t[3], t[4]) else Qos(0, 0, 0, 0) }

  function TupleBw(t: seq<int>): Bandwidth { if |t| == 4 then Bandwidth(t[1], t[2], t[3]) else Bandwidth(0, 0, 0) }

  function TupleFuse(t: seq<int>): Fuse { if |t| == 3 then Fuse(t[0], t[1], t[2]) else Fuse(0, 0, 0) }

  /** One register after writing every value of a baseline back. */
  function RestoredQos(r: Registers, b: Baseline, d: nat, m: nat): Qos
    requires (d, m) in r.qos
  {
    if Str(d) in b.qos && Str(m) in b.qos[Str(d)] then TupleQos(b.qos[Str(d)][Str(m)]) else r.qos[(d, m)]
  }

  function RestoredBw(r: Registers, b: Baseline, d: nat, mpamid: int): Bandwidth
    requires (d, mpamid) in r.bw
  {
    if Str(d) in b.bw && |b.bw[Str(d)]| == 4 && b.bw[Str(d)][0] == mpamid then TupleBw(b.bw[Str(d)])
    else r.bw[(d, mpamid)]
  }

  function RestoredFuse(r: Registers, b: Baseline, d: nat): Fuse
    requires d in r.fuse
  {
    if Str(d) in b.fuse then TupleFuse(b.fuse[Str(d)]) else r.fuse[d]
  }

  /** The registers after writing every value of a baseline back. */
  function Restored(r: Registers, b: Baseline): Registers {
    Registers(
      map k | k in r.qos :: RestoredQos(r, b, k.0, k.1),
      map k | k in r.bw :: RestoredBw(r, b, k.0, k.1),
      map d | d in r.fuse :: RestoredFuse(r, b, d))
  }

  /** Device `d` is either not recorded at all, or it exists and was recorded in full,
      under the mpamid its registers still have. */
  predicate SoundAt(r: Registers, b: Baseline, d: nat) {
    && (Str(d) in b.qos <==> Str(d) in b.bw)
    && (Str(d) in b.qos <==> Str(d) in b.fuse)
    && (Str(d) in b.qos ==> Present(r, d) && QosComplete(r, b.qos[Str(d)], d))
    && (Str(d) in b.bw ==> Present(r, d) && |b.bw[Str(d)]| == 4 && b.bw[Str(d)][0] == r.qos[(d, SDMA)].mpamid)
    && (Str(d) in b.fuse ==> |b.fuse[Str(d)]| == 3)
  }

  predicate QosComplete(r: Registers, masters: map<string, seq<int>>, d: nat)
    requires Present(r, d)
  {
    && masters.Keys == (set m | m in MASTERS :: Str(m))
    && (forall m :: m in MASTERS ==> |masters[Str(m)]| == 5 && masters[Str(m)][1] == r.qos[(d, m)].mpamid)
  }

  /** What every apply keeps. */
  ghost predicate Sound(r: Registers, b: Baseline) {
    && (forall d: nat :: SoundAt(r, b, d))
    && (forall k :: k in b.qos || k in b.bw || k in b.fuse ==> IsId(k))
  }

  ghost predicate IsId(k: string) { exists d: nat :: k == Str(d) }

  // ----- facts about recording -----

  lemma {:induction false} RecordAt<V>(ids: seq<nat>, read: nat -> Option<V>, n: nat)
    ensures Str(n) in Record(ids, read) <==> n in ids && read(n).Some?
    ensures n in ids && read(n).Some? ==> Record(ids, read)[Str(n)] == read(n).value
  {
    if ids != [] {
      RecordAt(ids[..|ids| - 1], read, n);
      if Str(ids[|ids| - 1]) == Str(n) { StrInjective(ids[|ids| - 1], n); }
      assert n in ids <==> n in ids[..|ids| - 1] || n == ids[|ids| - 1];
    }
  }

  lemma {:induction false} RecordKeys<V>(ids: seq<nat>, read: nat -> Option<V>, k: string)
    requires k in Record(ids, read)
    ensures IsId(k)
  {
    var last := ids[|ids| - 1];
    if k != Str(last) { RecordKeys(ids[..|ids| - 1], read, k); }
  }

  lemma {:induction false} MissingAt<M, T>(b: Dicts<M, T>, devices: seq<nat>, d: nat)
    ensures d in Missing(b, devices) <==> d in devices && !Recorded(b, d)
  {
    if devices != [] {
      MissingAt(b, devices[..|devices| - 1], d);
      assert d in devices <==> d in devices[..|devices| - 1] || d == devices[|devices| - 1];
    }
  }
}
