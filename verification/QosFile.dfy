/** The state file an apply loads and writes: what stands in it is kept as it is, checked or
    not, and the captures of new devices are added. */
module QosFile {
  import opened Common
  import opened QosModel
  import opened QosHistory
  import opened QosState

  /** A file that cannot be read as JSON is corrupt. */
  datatype StateFile = Absent | Corrupt | Holds(data: Json)

  /** AttributeError: the root of the file is not a dict.  TypeError: a priority has no row. */
  datatype Failure = AttributeError | TypeError

  function DictOf(j: Json): map<string, Json> { if j.JObject? then j.fields else map[] }

  /** _load_first_apply_baseline */
  function Load(file: StateFile): Result<Option<RawDicts>, Failure> {
    match file
    case Absent => Ok(None)
    case Corrupt => Ok(None)
    case Holds(data) =>
      if !data.JObject? then Err(AttributeError)
      else if "original_qos" !in data.fields || !data.fields["original_qos"].JObject? then Ok(None)
      else Ok(Some(Dicts(data.fields["original_qos"].fields,
                         DictOf(FieldOr(data, "original_sdma_mata")),
                         DictOf(FieldOr(data, "original_fuse")))))
  }

  function RawMerge(r: Registers, raw: RawDicts, devices: seq<nat>): RawDicts {
    Union(raw, RawOf(Capture(r, Missing(raw, devices))))
  }

  /** The dicts an apply writes. */
  function NextRaw(r: Registers, file: StateFile, devices: seq<nat>): RawDicts
    requires Load(file).Ok?
  {
    match Load(file).value
    case None => RawOf(Capture(r, devices))
    case Some(raw) => RawMerge(r, raw, devices)
  }

  /** There is no file, or it is one an apply wrote. */
  ghost predicate IntactFile(r: Registers, file: StateFile) {
    file.Absent? || (file.Holds? && ValidState(file.data) && Canonical(file.data) && Sound(r, Decoded(file.data).baseline))
  }

  ghost function Recording(file: StateFile): Option<Baseline>
    requires file.Absent? || (file.Holds? && ValidState(file.data))
  {
    if file.Absent? then None else Some(Decoded(file.data).baseline)
  }

  lemma LoadIntact(r: Registers, file: StateFile)
    requires IntactFile(r, file) && !file.Absent?
    ensures Load(file).Ok? && Load(file).value.Some?
    ensures var raw := Load(file).value.value;
      ValidRaw(raw) && CanonicalRaw(raw) && DecodedRaw(raw) == Decoded(file.data).baseline
  {}

  lemma {:induction false} MissingSame<M, T>(a: Dicts<M, T>, b: Baseline, devices: seq<nat>)
    requires a.qos.Keys == b.qos.Keys && a.bw.Keys == b.bw.Keys && a.fuse.Keys == b.fuse.Keys
    ensures Missing(a, devices) == Missing(b, devices)
  {
    if devices != [] { MissingSame(a, b, devices[..|devices| - 1]); }
  }

  lemma PartWellShaped(b: Baseline, added: Baseline)
    requires WellShaped(Union(b, added))
    ensures WellShaped(added)
  {
    var all := Union(b, added);
    forall k | k in added.qos ensures all.qos[k] == added.qos[k] {}
    forall k | k in added.bw ensures all.bw[k] == added.bw[k] {}
    forall k | k in added.fuse ensures all.fuse[k] == added.fuse[k] {}
    hide IsId;
  }

  /** Merging into the raw dicts is merging into the baseline they stand for. */
  lemma RawMergeDecodes(r: Registers, raw: RawDicts, devices: seq<nat>)
    requires ValidRaw(raw) && CanonicalRaw(raw) && WellShaped(Merge(r, DecodedRaw(raw), devices))
    ensures var merged := RawMerge(r, raw, devices);
      ValidRaw(merged) && CanonicalRaw(merged) && DecodedRaw(merged) == Merge(r, DecodedRaw(raw), devices)
  {
    var b := DecodedRaw(raw);
    MissingSame(raw, b, devices);
    var added := Capture(r, Missing(b, devices));
    PartWellShaped(b, added);
    RawRoundTrip(added);
    UnionDecodes(raw, RawOf(added));
  }

  lemma {:induction false} MissingFromEmpty(devices: seq<nat>)
    ensures Missing(EMPTY, devices) == devices
  {
    if devices != [] {
      MissingFromEmpty(devices[..|devices| - 1]);
      assert devices == devices[..|devices| - 1] + [devices[|devices| - 1]];
    }
  }

  /** The first apply captures every device, which is merging into nothing. */
  lemma MergeIntoEmpty(r: Registers, devices: seq<nat>)
    ensures Merge(r, EMPTY, devices) == Capture(r, devices)
  {
    MissingFromEmpty(devices);
  }

  /** An apply on an intact file writes a file that stands for the merged baseline. */
  lemma NextDecodes(r: Registers, file: StateFile, devices: seq<nat>)
    requires IntactFile(r, file) && forall d :: d in devices ==> Present(r, d)
    ensures Load(file).Ok?
    ensures var next, b := NextRaw(r, file, devices), if file.Absent? then EMPTY else Recording(file).value;
      ValidRaw(next) && CanonicalRaw(next) && DecodedRaw(next) == Merge(r, b, devices)
  {
    var b := if file.Absent? then EMPTY else Recording(file).value;
    if file.Absent? { RestoredNothing(r); }
    var t := Targets(0, 0, 0);
    ApplySound(r, b, devices, t);
    SoundIsWellShaped(Tuned(r, Devices(devices), t), Merge(r, b, devices));
    if file.Absent? {
      MergeIntoEmpty(r, devices);
      RawRoundTrip(Capture(r, devices));
    } else {
      LoadIntact(r, file);
      RawMergeDecodes(r, Load(file).value.value, devices);
    }
  }

  /** The file after an apply is intact again and holds the merged baseline. */
  lemma NextIntact(r: Registers, file: StateFile, devices: seq<nat>, t: Targets, printed: seq<string>)
    requires IntactFile(r, file) && forall d :: d in devices ==> Present(r, d)
    ensures Load(file).Ok?
    ensures var next := Holds(FileOf(NextRaw(r, file, devices), printed));
      && IntactFile(Tuned(r, Devices(devices), t), next)
      && Recording(next).value == Merge(r, if file.Absent? then EMPTY else Recording(file).value, devices)
  {
    var b := if file.Absent? then EMPTY else Recording(file).value;
    if file.Absent? { RestoredNothing(r); }
    NextDecodes(r, file, devices);
    ApplySound(r, b, devices, t);
    FileDecodes(NextRaw(r, file, devices), printed);
  }
}
