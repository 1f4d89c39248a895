/** Registers after unset has written the values of a validated file back. */
module QosRestore {
  import opened Common
  import opened QosModel
  import opened QosState

  // ----- keys of a validated dict are str(int(key)) -----

  ghost predicate Rekeyed(k: string) { ParseInt(k).Some? && IntStr(ParseInt(k).value) == k }

  function IdOf(k: string): int { if ParseInt(k).Some? then ParseInt(k).value else 0 }

  lemma RekeyedIs(k: string, n: nat)
    requires Rekeyed(k)
    ensures Str(n) == k <==> IdOf(k) == n
  {
    assert IntStr(n) == Str(n);
    ParseIntStr(n);
  }

  lemma NewKeyRekeyed(k: string)
    requires ParseInt(k).Some?
    ensures Rekeyed(NewKey(k, true))
  {
    ParseIntStr(ParseInt(k).value);
  }

  // ----- dicts of one tuple for each device -----

  ghost predicate RekeyedKeys<V>(dict: map<string, V>) { forall k :: k in dict ==> Rekeyed(k) }

  ghost predicate Entries(dict: map<string, seq<int>>, len: nat) {
    RekeyedKeys(dict) && forall k :: k in dict ==> |dict[k]| == len
  }

  lemma {:induction false} IntsLength(items: seq<Json>)
    ensures IntsOf(items).Some? ==> |IntsOf(items).value| == |items|
  {
    if items != [] { IntsLength(items[1..]); }
  }

  lemma ReadEntries(fields: map<string, Json>, len: nat, out: map<string, seq<int>>)
    requires ValidTuples(fields, len) && ReadTuples(fields, len, true, out)
    ensures Entries(out, len)
  {
    forall key | key in out ensures Rekeyed(key) && |out[key]| == len {
      var k :| k in fields && NewKey(k, true) == key && TupleOf(fields[k], len) == Some(out[key]);
      NewKeyRekeyed(k);
      IntsLength(fields[k].items);
    }
  }

  lemma ReadDeviceKeys(fields: map<string, Json>, out: map<string, map<string, seq<int>>>)
    requires ValidDevices(fields) && ReadDevices(fields, out)
    ensures RekeyedKeys(out)
  {
    forall key | key in out ensures Rekeyed(key) {
      var k :| k in fields && NewKey(k, true) == key;
      NewKeyRekeyed(k);
    }
  }

  /** What a validated file gives can be written back entry by entry. */
  lemma ReadRestorable(data: Json, restore: Restore)
    requires ValidState(data) && Reads(data, restore)
    ensures Entries(restore.baseline.bw, BW_LEN) && Entries(restore.baseline.fuse, FUSE_LEN)
    ensures RekeyedKeys(restore.baseline.qos)
    ensures forall d, key :: d in restore.baseline.qos && key in restore.baseline.qos[d] ==> ParseInt(key).Some?
  {
    ReadEntries(FieldOr(data, "original_sdma_mata").fields, BW_LEN, restore.baseline.bw);
    ReadEntries(FieldOr(data, "original_fuse").fields, FUSE_LEN, restore.baseline.fuse);
    ReadDeviceKeys(data.fields["original_qos"].fields, restore.baseline.qos);
    ReadMasterKeys(data.fields["original_qos"].fields, restore.baseline.qos);
  }

  lemma ReadMasterKeys(fields: map<string, Json>, out: map<string, map<string, seq<int>>>)
    requires ValidDevices(fields) && ReadDevices(fields, out)
    ensures forall d, key :: d in out && key in out[d] ==> ParseInt(key).Some?
  {
    forall d, key | d in out && key in out[d] ensures ParseInt(key).Some? {
      var k :| k in fields && NewKey(k, true) == d && ValidMasters(fields[k]) && DecodedMasters(fields[k]) == out[d];
    }
  }

  function BwAfter(bw: map<(nat, int), Bandwidth>, dict: map<string, seq<int>>): map<(nat, int), Bandwidth> {
    map k | k in bw :: BwAt(bw[k], dict, Str(k.0), k.1)
  }

  function BwAt(before: Bandwidth, dict: map<string, seq<int>>, device: string, mpamid: int): Bandwidth {
    if device in dict && |dict[device]| == 4 && dict[device][0] == mpamid then TupleBw(dict[device]) else before
  }

  function FuseAfter(fuse: map<nat, Fuse>, dict: map<string, seq<int>>): map<nat, Fuse> {
    map d | d in fuse :: if Str(d) in dict then TupleFuse(dict[Str(d)]) else fuse[d]
  }

  /** A write to a register that does not exist changes nothing. */
  function SetBw(bw: map<(nat, int), Bandwidth>, d: int, mpamid: int, value: Bandwidth): map<(nat, int), Bandwidth> {
    if d >= 0 && (d, mpamid) in bw then bw[(d, mpamid) := value] else bw
  }

  function SetFuse(fuse: map<nat, Fuse>, d: int, value: Fuse): map<nat, Fuse> {
    if d >= 0 && d in fuse then fuse[d := value] else fuse
  }

  function SetQos(qos: map<(nat, nat), Qos>, d: int, m: int, value: Qos): map<(nat, nat), Qos> {
    if d >= 0 && m >= 0 && (d, m) in qos then qos[(d, m) := value] else qos
  }

  lemma BwAfterNone(bw: map<(nat, int), Bandwidth>)
    ensures BwAfter(bw, map[]) == bw
  {}

  lemma FuseAfterNone(fuse: map<nat, Fuse>)
    ensures FuseAfter(fuse, map[]) == fuse
  {}

  lemma BwAfterNext(bw: map<(nat, int), Bandwidth>, dict: map<string, seq<int>>, todo: set<string>, key: string)
    requires Entries(dict, BW_LEN) && todo <= dict.Keys && key in todo
    ensures BwAfter(bw, dict - (todo - {key})) ==
            SetBw(BwAfter(bw, dict - todo), IdOf(key), dict[key][0], TupleBw(dict[key]))
  {
    var less, more := dict - todo, dict - (todo - {key});
    assert more == less[key := dict[key]];
    hide BwAt, Str;
    forall k | k in bw
      ensures BwAt(bw[k], more, Str(k.0), k.1) ==
              if k == (IdOf(key), dict[key][0]) then TupleBw(dict[key]) else BwAt(bw[k], less, Str(k.0), k.1)
    {
      BwAtNext(bw[k], less, key, dict[key], k.0, k.1);
    }
    hide IdOf, TupleBw, Rekeyed, Entries;
  }

  lemma BwAtNext(before: Bandwidth, dict: map<string, seq<int>>, key: string, tuple: seq<int>, d: nat, mpamid: int)
    requires Rekeyed(key) && |tuple| == BW_LEN && key !in dict
    ensures BwAt(before, dict[key := tuple], Str(d), mpamid) ==
            if IdOf(key) == d && tuple[0] == mpamid then TupleBw(tuple) else BwAt(before, dict, Str(d), mpamid)
  {
    RekeyedIs(key, d);
    hide IdOf, Str, Rekeyed;
  }

  lemma FuseAfterNext(fuse: map<nat, Fuse>, dict: map<string, seq<int>>, todo: set<string>, key: string)
    requires Entries(dict, FUSE_LEN) && todo <= dict.Keys && key in todo
    ensures FuseAfter(fuse, dict - (todo - {key})) ==
            SetFuse(FuseAfter(fuse, dict - todo), IdOf(key), TupleFuse(dict[key]))
  {
    forall n: nat ensures Str(n) == key <==> IdOf(key) == n { RekeyedIs(key, n); }
    hide IdOf, TupleFuse;
  }

  // ----- masters, whose keys are kept as they are -----

  ghost predicate Named(masters: map<string, seq<int>>, m: nat) { exists key :: key in masters && ParseInt(key) == Some(m) }

  /** The register of master `m` holds a value recorded for it, or is as before if there is
      none. */
  ghost predicate Back(before: Qos, after: Qos, masters: map<string, seq<int>>, m: nat) {
    if Named(masters, m)
    then exists key :: key in masters && ParseInt(key) == Some(m) && after == TupleQos(masters[key])
    else after == before
  }

  ghost predicate MastersBack(before: map<(nat, nat), Qos>, after: map<(nat, nat), Qos>, d: int,
                              masters: map<string, seq<int>>)
  {
    && after.Keys == before.Keys
    && forall k :: k in before ==> if k.0 == d then Back(before[k], after[k], masters, k.1) else after[k] == before[k]
  }

  ghost predicate QosBack(before: map<(nat, nat), Qos>, after: map<(nat, nat), Qos>,
                          dict: map<string, map<string, seq<int>>>)
  {
    && after.Keys == before.Keys
    && forall k :: k in before ==>
         if Str(k.0) in dict then Back(before[k], after[k], dict[Str(k.0)], k.1) else after[k] == before[k]
  }

  lemma BackNext(before: Qos, after: Qos, masters: map<string, seq<int>>, key: string, tuple: seq<int>, m: nat)
    requires Back(before, after, masters, m) && key !in masters && ParseInt(key).Some?
    ensures Back(before, if ParseInt(key).value == m then TupleQos(tuple) else after, masters[key := tuple], m)
  {
    hide ParseInt, TupleQos;
    var next := masters[key := tuple];
    if ParseInt(key).value == m {
      assert key in next && ParseInt(key) == Some(m);
    } else if Named(masters, m) {
      var k :| k in masters && ParseInt(k) == Some(m) && after == TupleQos(masters[k]);
      assert k in next && next[k] == masters[k];
    } else {
      assert !Named(next, m);
    }
  }

  lemma MastersNext(before: map<(nat, nat), Qos>, after: map<(nat, nat), Qos>, d: int, masters: map<string, seq<int>>,
                    todo: set<string>, key: string)
    requires todo <= masters.Keys && key in todo && ParseInt(key).Some?
    requires MastersBack(before, after, d, masters - todo)
    ensures MastersBack(before, SetQos(after, d, IdOf(key), TupleQos(masters[key])), d, masters - (todo - {key}))
  {
    var next := SetQos(after, d, IdOf(key), TupleQos(masters[key]));
    assert masters - (todo - {key}) == (masters - todo)[key := masters[key]];
    forall k | k in before && k.0 == d ensures Back(before[k], next[k], masters - (todo - {key}), k.1) {
      BackNext(before[k], after[k], masters - todo, key, masters[key], k.1);
    }
  }

  lemma NobodyBack(qos: map<(nat, nat), Qos>, d: int)
    ensures MastersBack(qos, qos, d, map[]) && QosBack(qos, qos, map[])
  {}

  lemma QosNext(before: map<(nat, nat), Qos>, between: map<(nat, nat), Qos>, after: map<(nat, nat), Qos>,
                dict: map<string, map<string, seq<int>>>, todo: set<string>, key: string)
    requires RekeyedKeys(dict) && todo <= dict.Keys && key in todo
    requires QosBack(before, between, dict - todo) && MastersBack(between, after, IdOf(key), dict[key])
    ensures QosBack(before, after, dict - (todo - {key}))
  {
    forall n: nat ensures Str(n) == key <==> IdOf(key) == n { RekeyedIs(key, n); }
    hide IdOf, Back, Rekeyed;
    var less, more := dict - todo, dict - (todo - {key});
    assert more == less[key := dict[key]];
    forall k | k in before
      ensures if Str(k.0) in more then Back(before[k], after[k], more[Str(k.0)], k.1) else after[k] == before[k]
    {}
  }

  // ----- all three dicts -----

  /** Unset has written the whole baseline back. */
  ghost predicate WritesBack(before: Registers, after: Registers, b: Baseline) {
    && after.bw == BwAfter(before.bw, b.bw)
    && after.fuse == FuseAfter(before.fuse, b.fuse)
    && QosBack(before.qos, after.qos, b.qos)
  }

  lemma BackIsRestored(r: Registers, b: Baseline, after: Qos, d: nat, m: nat)
    requires Sound(r, b) && (d, m) in r.qos && Str(d) in b.qos && Back(r.qos[(d, m)], after, b.qos[Str(d)], m)
    ensures after == RestoredQos(r, b, d, m)
  {
    var masters := b.qos[Str(d)];
    SoundIsWellShaped(r, b);
    assert Str(m) == IntStr(m);
    ParseIntStr(m);
    forall key | key in masters && ParseInt(key) == Some(m) ensures key == Str(m) {
      assert IsId(key);
      IdParses(key);
    }
    hide Sound, WellShaped, IsId, ParseInt, Str;
  }

  /** For a sound baseline there is one way to write it back. */
  lemma SoundWritesBack(before: Registers, after: Registers, b: Baseline)
    requires Sound(before, b) && WritesBack(before, after, b)
    ensures after == Restored(before, b)
  {
    forall k | k in before.qos ensures after.qos[k] == RestoredQos(before, b, k.0, k.1) {
      if Str(k.0) in b.qos { BackIsRestored(before, b, after.qos[k], k.0, k.1); }
    }
    hide Sound, Back, Str;
    assert after.qos == Restored(before, b).qos by { hide RestoredQos; }
    assert after.bw == Restored(before, b).bw by { hide TupleBw; }
    assert after.fuse == Restored(before, b).fuse by { hide TupleFuse; }
  }
}
