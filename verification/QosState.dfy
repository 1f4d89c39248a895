/** The JSON state file of the AI-QoS tool and the validator unset runs on it. */
module QosState {
  import opened Common
  import opened QosModel

  datatype Json =
    | JNull
    | JBool(b: bool)
    | JInt(n: int)
    | JFloat(x: real)
    | JString(s: string)
    | JList(items: seq<Json>)
    | JObject(fields: map<string, Json>)

  const QOS_LEN: nat := 5
  const BW_LEN: nat := 4
  const FUSE_LEN: nat := 3

  // ----- writing -----

  function IntItems(xs: seq<int>): seq<Json> {
    if xs == [] then [] else [JInt(xs[0])] + IntItems(xs[1..])
  }

  function StringItems(xs: seq<string>): seq<Json> {
    if xs == [] then [] else [JString(xs[0])] + StringItems(xs[1..])
  }

  function Tuples(m: map<string, seq<int>>): Json {
    JObject(map k | k in m :: JList(IntItems(m[k])))
  }

  function DeviceFields(b: Baseline): map<string, Json> {
    map k | k in b.qos :: Tuples(b.qos[k])
  }

  /** The dicts as they stand in a file, not yet checked. */
  type RawDicts = Dicts<Json, Json>

  function RawOf(b: Baseline): RawDicts { Dicts(DeviceFields(b), Tuples(b.bw).fields, Tuples(b.fuse).fields) }

  function FileOf(raw: RawDicts, printed: seq<string>): Json {
    JObject(map[
      "original_qos" := JObject(raw.qos),
      "original_sdma_mata" := JObject(raw.bw),
      "original_fuse" := JObject(raw.fuse),
      "printed_commands" := JList(StringItems(printed))])
  }

  function ToJson(b: Baseline, printed: seq<string>): Json { FileOf(RawOf(b), printed) }

  // ----- reading -----

  /** int() of a float rounds toward zero. */
  function Truncate(x: real): int { if x >= 0.0 then x.Floor else -(-x).Floor }

  /** int(x) of one list entry. */
  function IntOf(j: Json): Option<int> {
    match j
    case JBool(b) => Some(if b then 1 else 0)
    case JInt(n) => Some(n)
    case JFloat(x) => Some(Truncate(x))
    case JString(s) => ParseInt(s)
    case _ => None
  }

  function IntsOf(items: seq<Json>): Option<seq<int>> {
    if items == [] then Some([])
    else
      var head, tail := IntOf(items[0]), IntsOf(items[1..]);
      if head.None? || tail.None? then None else Some([head.value] + tail.value)
  }

  function StringsOf(items: seq<Json>): Option<seq<string>> {
    if items == [] then Some([])
    else
      var tail := StringsOf(items[1..]);
      if !items[0].JString? || tail.None? then None else Some([items[0].s] + tail.value)
  }

  function TupleOf(j: Json, len: nat): Option<seq<int>> {
    if j.JList? && |j.items| == len then IntsOf(j.items) else None
  }

  predicate ValidTuples(fields: map<string, Json>, len: nat) {
    forall k :: k in fields ==> ParseInt(k).Some? && TupleOf(fields[k], len).Some?
  }

  function DecodedTuples(fields: map<string, Json>, len: nat): map<string, seq<int>>
    requires ValidTuples(fields, len)
  {
    map k | k in fields :: TupleOf(fields[k], len).value
  }

  /** data.get(name, {}) */
  function FieldOr(data: Json, name: string): Json
    requires data.JObject?
  {
    if name in data.fields then data.fields[name] else JObject(map[])
  }

  predicate ValidMasters(j: Json) { j.JObject? && ValidTuples(j.fields, QOS_LEN) }

  function DecodedMasters(j: Json): map<string, seq<int>>
    requires ValidMasters(j)
  {
    DecodedTuples(j.fields, QOS_LEN)
  }

  predicate ValidDevices(fields: map<string, Json>) {
    forall k :: k in fields ==> ParseInt(k).Some? && ValidMasters(fields[k])
  }

  function DecodedDevices(fields: map<string, Json>): map<string, map<string, seq<int>>>
    requires ValidDevices(fields)
  {
    map k | k in fields :: DecodedMasters(fields[k])
  }

  /** The shape unset accepts. */
  predicate ValidState(data: Json) {
    && data.JObject?
    && "original_qos" in data.fields && data.fields["original_qos"].JObject?
    && "printed_commands" in data.fields && data.fields["printed_commands"].JList?
    && StringsOf(data.fields["printed_commands"].items).Some?
    && FieldOr(data, "original_sdma_mata").JObject?
    && FieldOr(data, "original_fuse").JObject?
    && ValidDevices(data.fields["original_qos"].fields)
    && ValidTuples(FieldOr(data, "original_sdma_mata").fields, BW_LEN)
    && ValidTuples(FieldOr(data, "original_fuse").fields, FUSE_LEN)
  }

  datatype Restore = Restore(baseline: Baseline, printed: seq<string>)

  function Decoded(data: Json): Restore
    requires ValidState(data)
  {
    Restore(
      Dicts(DecodedDevices(data.fields["original_qos"].fields),
            DecodedTuples(FieldOr(data, "original_sdma_mata").fields, BW_LEN),
            DecodedTuples(FieldOr(data, "original_fuse").fields, FUSE_LEN)),
      StringsOf(data.fields["printed_commands"].items).value)
  }

  /** Every key is str() of a number, so that str(int(key)) is the key. */
  ghost predicate CanonicalKeys(fields: map<string, Json>) { forall k :: k in fields ==> IsId(k) }

  ghost predicate Canonical(data: Json)
    requires ValidState(data)
  {
    && CanonicalKeys(data.fields["original_qos"].fields)
    && CanonicalKeys(FieldOr(data, "original_sdma_mata").fields)
    && CanonicalKeys(FieldOr(data, "original_fuse").fields)
  }

  lemma IdParses(k: string)
    requires IsId(k)
    ensures ParseInt(k).Some? && IntStr(ParseInt(k).value) == k && ParseInt(k).value >= 0
  {
    var d: nat :| k == Str(d);
    assert Str(d) == IntStr(d);
    ParseIntStr(d);
  }

  /** str(int(k)), or the key as it is. */
  function NewKey(k: string, rekey: bool): string {
    if rekey && ParseInt(k).Some? then IntStr(ParseInt(k).value) else k
  }

  /** `out` is read from `fields`; when several keys stand for one number, the value of one of
      them is kept. */
  ghost predicate ReadTuples(fields: map<string, Json>, len: nat, rekey: bool, out: map<string, seq<int>>) {
    && (forall k :: k in fields ==> NewKey(k, rekey) in out)
    && forall key :: key in out ==>
         exists k :: k in fields && NewKey(k, rekey) == key && TupleOf(fields[k], len) == Some(out[key])
  }

  ghost predicate ReadDevices(fields: map<string, Json>, out: map<string, map<string, seq<int>>>) {
    && (forall k :: k in fields ==> NewKey(k, true) in out)
    && forall key :: key in out ==>
         exists k ::
           k in fields && NewKey(k, true) == key && ValidMasters(fields[k]) && DecodedMasters(fields[k]) == out[key]
  }

  /** What unset restores from a valid file. */
  ghost predicate Reads(data: Json, restore: Restore)
    requires ValidState(data)
  {
    && ReadDevices(data.fields["original_qos"].fields, restore.baseline.qos)
    && ReadTuples(FieldOr(data, "original_sdma_mata").fields, BW_LEN, true, restore.baseline.bw)
    && ReadTuples(FieldOr(data, "original_fuse").fields, FUSE_LEN, true, restore.baseline.fuse)
    && StringsOf(data.fields["printed_commands"].items) == Some(restore.printed)
  }

  lemma CanonicalTuples(fields: map<string, Json>, len: nat, rekey: bool, out: map<string, seq<int>>)
    requires ValidTuples(fields, len) && ReadTuples(fields, len, rekey, out) && (rekey ==> CanonicalKeys(fields))
    ensures out == DecodedTuples(fields, len)
  {
    forall k | k in fields ensures NewKey(k, rekey) == k { if rekey { IdParses(k); } }
    hide NewKey, TupleOf;
  }

  lemma CanonicalDevices(fields: map<string, Json>, out: map<string, map<string, seq<int>>>)
    requires ValidDevices(fields) && ReadDevices(fields, out) && CanonicalKeys(fields)
    ensures out == DecodedDevices(fields)
  {
    forall k | k in fields ensures NewKey(k, true) == k { IdParses(k); }
    hide NewKey, DecodedMasters;
  }

  /** When every key is written by str(), there is one way to read a file. */
  lemma CanonicalReads(data: Json, restore: Restore)
    requires ValidState(data) && Canonical(data) && Reads(data, restore)
    ensures restore == Decoded(data)
  {
    CanonicalDevices(data.fields["original_qos"].fields, restore.baseline.qos);
    CanonicalTuples(FieldOr(data, "original_sdma_mata").fields, BW_LEN, true, restore.baseline.bw);
    CanonicalTuples(FieldOr(data, "original_fuse").fields, FUSE_LEN, true, restore.baseline.fuse);
  }

  /** The entries outside `todo` are read. */
  ghost predicate ReadPart(fields: map<string, Json>, todo: set<string>, len: nat, rekey: bool,
                           out: map<string, seq<int>>)
  {
    ReadTuples(map k | k in fields && k !in todo :: fields[k], len, rekey, out)
  }

  lemma ReadNext(fields: map<string, Json>, todo: set<string>, len: nat, rekey: bool, out: map<string, seq<int>>, k: string)
    requires ReadPart(fields, todo, len, rekey, out) && k in fields && TupleOf(fields[k], len).Some?
    ensures ReadPart(fields, todo - {k}, len, rekey, out[NewKey(k, rekey) := TupleOf(fields[k], len).value])
  {
    hide NewKey, TupleOf;
    var before := map j | j in fields && j !in todo :: fields[j];
    var after := map j | j in fields && j !in todo - {k} :: fields[j];
    var next := out[NewKey(k, rekey) := TupleOf(fields[k], len).value];
    forall key | key in next
      ensures exists j :: j in after && NewKey(j, rekey) == key && TupleOf(after[j], len) == Some(next[key])
    {
      if key == NewKey(k, rekey) {
        assert k in after;
      } else {
        var j :| j in before && NewKey(j, rekey) == key && TupleOf(before[j], len) == Some(out[key]);
        assert j in after;
      }
    }
  }

  /** The loop over one dict of tuples; device keys are rewritten as str(int(key)). */
  method ValidateTuples(fields: map<string, Json>, len: nat, rekey: bool) returns (r: Option<map<string, seq<int>>>)
    ensures r.Some? <==> ValidTuples(fields, len)
    ensures r.Some? ==> ReadTuples(fields, len, rekey, r.value)
  {
    var out: map<string, seq<int>> := map[];
    var todo := fields.Keys;
    while todo != {}
      invariant todo <= fields.Keys
      invariant forall k :: k in fields && k !in todo ==> ParseInt(k).Some? && TupleOf(fields[k], len).Some?
      invariant ReadPart(fields, todo, len, rekey, out)
      decreases |todo|
    {
      var k :| k in todo;
      var id, tuple := ParseInt(k), TupleOf(fields[k], len);
      if id.None? || tuple.None? { return None; }
      ReadNext(fields, todo, len, rekey, out, k);
      out := out[(if rekey then IntStr(id.value) else k) := tuple.value];
      todo := todo - {k};
    }
    assert fields == map k | k in fields && k !in todo :: fields[k];
    r := Some(out);
  }

  method ValidateMasters(j: Json) returns (r: Option<map<string, seq<int>>>)
    ensures r.Some? <==> ValidMasters(j)
    ensures r.Some? ==> r.value == DecodedMasters(j)
  {
    if !j.JObject? { return None; }
    r := ValidateTuples(j.fields, QOS_LEN, false);
    if r.Some? { CanonicalTuples(j.fields, QOS_LEN, false, r.value); }
  }

  ghost predicate DevicesPart(fields: map<string, Json>, todo: set<string>, out: map<string, map<string, seq<int>>>) {
    ReadDevices(map k | k in fields && k !in todo :: fields[k], out)
  }

  lemma DevicesNext(fields: map<string, Json>, todo: set<string>, out: map<string, map<string, seq<int>>>, k: string)
    requires DevicesPart(fields, todo, out) && k in fields && ValidMasters(fields[k])
    ensures DevicesPart(fields, todo - {k}, out[NewKey(k, true) := DecodedMasters(fields[k])])
  {
    hide NewKey, ValidMasters, DecodedMasters;
    var before := map j | j in fields && j !in todo :: fields[j];
    var after := map j | j in fields && j !in todo - {k} :: fields[j];
    var next := out[NewKey(k, true) := DecodedMasters(fields[k])];
    forall key | key in next
      ensures exists j ::
        j in after && NewKey(j, true) == key && ValidMasters(after[j]) && DecodedMasters(after[j]) == next[key]
    {
      if key == NewKey(k, true) {
        assert k in after;
      } else {
        var j :|
          j in before && NewKey(j, true) == key && ValidMasters(before[j]) && DecodedMasters(before[j]) == out[key];
        assert j in after;
      }
    }
  }

  /** The loop over devices and their masters. */
  method ValidateDevices(fields: map<string, Json>) returns (r: Option<map<string, map<string, seq<int>>>>)
    ensures r.Some? <==> ValidDevices(fields)
    ensures r.Some? ==> ReadDevices(fields, r.value)
  {
    hide ParseInt, Str, ValidMasters, DecodedMasters;
    var out: map<string, map<string, seq<int>>> := map[];
    var todo := fields.Keys;
    while todo != {}
      invariant todo <= fields.Keys
      invariant forall k :: k in fields && k !in todo ==> ParseInt(k).Some? && ValidMasters(fields[k])
      invariant DevicesPart(fields, todo, out)
      decreases |todo|
    {
      var k :| k in todo;
      var id := ParseInt(k);
      if id.None? { return None; }
      var masters := ValidateMasters(fields[k]);
      if masters.None? { return None; }
      DevicesNext(fields, todo, out, k);
      out := out[IntStr(id.value) := masters.value];
      todo := todo - {k};
    }
    assert fields == map k | k in fields && k !in todo :: fields[k];
    r := Some(out);
  }

  /** Err stands for the ValueError; the checks and loops run in the order of the code. */
  method ParseAndValidate(data: Json) returns (r: Result<Restore, string>)
    ensures r.Ok? <==> ValidState(data)
    ensures r.Ok? ==> Reads(data, r.value)
  {
    if !data.JObject? { return Err("root must be object"); }
    if "original_qos" !in data.fields || !data.fields["original_qos"].JObject? { return Err("original_qos"); }
    if "printed_commands" !in data.fields || !data.fields["printed_commands"].JList? { return Err("printed_commands"); }
    var printed := StringsOf(data.fields["printed_commands"].items);
    if printed.None? { return Err("printed_commands"); }
    var bwRaw, fuseRaw := FieldOr(data, "original_sdma_mata"), FieldOr(data, "original_fuse");
    if !bwRaw.JObject? { return Err("original_sdma_mata"); }
    if !fuseRaw.JObject? { return Err("original_fuse"); }
    var qos := ValidateDevices(data.fields["original_qos"].fields);
    if qos.None? { return Err("original_qos"); }
    var bw := ValidateTuples(bwRaw.fields, BW_LEN, true);
    if bw.None? { return Err("original_sdma_mata"); }
    var fuse := ValidateTuples(fuseRaw.fields, FUSE_LEN, true);
    if fuse.None? { return Err("original_fuse"); }
    r := Ok(Restore(Dicts(qos.value, bw.value, fuse.value), printed.value));
  }

  // ----- every file an apply writes is read back as it was -----

  lemma {:induction false} IntsRoundTrip(xs: seq<int>)
    ensures |IntItems(xs)| == |xs| && IntsOf(IntItems(xs)) == Some(xs)
  {
    if xs != [] {
      IntsRoundTrip(xs[1..]);
      assert IntItems(xs)[1..] == IntItems(xs[1..]);
      assert xs == [xs[0]] + xs[1..];
    }
  }

  lemma {:induction false} StringsRoundTrip(xs: seq<string>)
    ensures StringsOf(StringItems(xs)) == Some(xs)
  {
    if xs != [] {
      StringsRoundTrip(xs[1..]);
      assert StringItems(xs)[1..] == StringItems(xs[1..]);
      assert xs == [xs[0]] + xs[1..];
    }
  }

  lemma TuplesRoundTrip(m: map<string, seq<int>>, len: nat)
    requires forall k :: k in m ==> IsId(k) && |m[k]| == len
    ensures ValidTuples(Tuples(m).fields, len) && DecodedTuples(Tuples(m).fields, len) == m
    ensures CanonicalKeys(Tuples(m).fields)
  {
    forall k | k in m ensures ParseInt(k).Some? && TupleOf(Tuples(m).fields[k], len) == Some(m[k]) {
      IdParses(k);
      IntsRoundTrip(m[k]);
    }
  }

  /** The shape of every baseline an apply can write. */
  ghost predicate WellShaped(b: Baseline) {
    && (forall d :: d in b.qos ==> IsId(d) && forall m :: m in b.qos[d] ==> IsId(m) && |b.qos[d][m]| == QOS_LEN)
    && (forall d :: d in b.bw ==> IsId(d) && |b.bw[d]| == BW_LEN)
    && (forall d :: d in b.fuse ==> IsId(d) && |b.fuse[d]| == FUSE_LEN)
  }

  predicate ValidRaw(raw: RawDicts) {
    ValidDevices(raw.qos) && ValidTuples(raw.bw, BW_LEN) && ValidTuples(raw.fuse, FUSE_LEN)
  }

  ghost predicate CanonicalRaw(raw: RawDicts) {
    CanonicalKeys(raw.qos) && CanonicalKeys(raw.bw) && CanonicalKeys(raw.fuse)
  }

  function DecodedRaw(raw: RawDicts): Baseline
    requires ValidRaw(raw)
  {
    Dicts(DecodedDevices(raw.qos), DecodedTuples(raw.bw, BW_LEN), DecodedTuples(raw.fuse, FUSE_LEN))
  }

  lemma FileDecodes(raw: RawDicts, printed: seq<string>)
    requires ValidRaw(raw) && CanonicalRaw(raw)
    ensures ValidState(FileOf(raw, printed)) && Canonical(FileOf(raw, printed))
    ensures Decoded(FileOf(raw, printed)) == Restore(DecodedRaw(raw), printed)
  {
    StringsRoundTrip(printed);
  }

  lemma RawRoundTrip(b: Baseline)
    requires WellShaped(b)
    ensures ValidRaw(RawOf(b)) && CanonicalRaw(RawOf(b)) && DecodedRaw(RawOf(b)) == b
  {
    TuplesRoundTrip(b.bw, BW_LEN);
    TuplesRoundTrip(b.fuse, FUSE_LEN);
    DevicesRoundTrip(b);
  }

  /** Adding entries to the raw dicts adds them to what the file stands for. */
  lemma UnionDecodes(raw: RawDicts, added: RawDicts)
    requires ValidRaw(raw) && CanonicalRaw(raw) && ValidRaw(added) && CanonicalRaw(added)
    ensures ValidRaw(Union(raw, added)) && CanonicalRaw(Union(raw, added))
    ensures DecodedRaw(Union(raw, added)) == Union(DecodedRaw(raw), DecodedRaw(added))
  {
    TuplesUnion(raw.bw, added.bw, BW_LEN);
    TuplesUnion(raw.fuse, added.fuse, FUSE_LEN);
    DevicesUnion(raw.qos, added.qos);
  }

  lemma TuplesUnion(fields: map<string, Json>, added: map<string, Json>, len: nat)
    requires ValidTuples(fields, len) && ValidTuples(added, len) && CanonicalKeys(fields) && CanonicalKeys(added)
    ensures ValidTuples(fields + added, len) && CanonicalKeys(fields + added)
    ensures DecodedTuples(fields + added, len) == DecodedTuples(fields, len) + DecodedTuples(added, len)
  {
    hide TupleOf, IsId, ParseInt;
  }

  lemma DevicesUnion(fields: map<string, Json>, added: map<string, Json>)
    requires ValidDevices(fields) && ValidDevices(added) && CanonicalKeys(fields) && CanonicalKeys(added)
    ensures ValidDevices(fields + added) && CanonicalKeys(fields + added)
    ensures DecodedDevices(fields + added) == DecodedDevices(fields) + DecodedDevices(added)
  {
    hide ValidMasters, DecodedMasters, IsId, ParseInt;
  }

  lemma StateRoundTrip(b: Baseline, printed: seq<string>)
    requires WellShaped(b)
    ensures ValidState(ToJson(b, printed)) && Canonical(ToJson(b, printed))
    ensures Decoded(ToJson(b, printed)) == Restore(b, printed)
  {
    RawRoundTrip(b);
    FileDecodes(RawOf(b), printed);
  }

  lemma DevicesRoundTrip(b: Baseline)
    requires WellShaped(b)
    ensures var devices := DeviceFields(b);
            ValidDevices(devices) && DecodedDevices(devices) == b.qos && CanonicalKeys(devices)
  {
    var devices := DeviceFields(b);
    forall d | d in b.qos
      ensures ParseInt(d).Some? && ValidMasters(devices[d]) && DecodedMasters(devices[d]) == b.qos[d]
    {
      IdParses(d);
      TuplesRoundTrip(b.qos[d], QOS_LEN);
    }
  }

  lemma SoundIsWellShaped(r: Registers, b: Baseline)
    requires Sound(r, b)
    ensures WellShaped(b)
  {
    forall k | k in b.qos ensures IsId(k) && forall m :: m in b.qos[k] ==> IsId(m) && |b.qos[k][m]| == QOS_LEN {
      var d: nat :| k == Str(d);
      assert SoundAt(r, b, d);
    }
    forall k | k in b.bw ensures IsId(k) && |b.bw[k]| == BW_LEN {
      var d: nat :| k == Str(d);
      assert SoundAt(r, b, d);
    }
    forall k | k in b.fuse ensures IsId(k) && |b.fuse[k]| == FUSE_LEN {
      var d: nat :| k == Str(d);
      assert SoundAt(r, b, d);
    }
  }

  /** Unset's validator accepts every file apply writes, and reads the same baseline. */
  lemma WrittenFileAccepted(r: Registers, b: Baseline, printed: seq<string>)
    requires Sound(r, b)
    ensures ValidState(ToJson(b, printed)) && Canonical(ToJson(b, printed))
    ensures Decoded(ToJson(b, printed)) == Restore(b, printed)
  {
    SoundIsWellShaped(r, b);
    StateRoundTrip(b, printed);
  }
}
