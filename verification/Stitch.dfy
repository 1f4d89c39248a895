/** The whole of stitching: frozen keys out, experts split, keys renamed, weights written over
    the copy of the verifier checkpoint. */
module Stitch {
  import opened Common
  import opened StitchExperts
  import opened StitchShards

  // ----- from the finetuned weights to the native ones -----

  ghost predicate SomeFused(weights: Weights) { exists p :: HasGateUp(weights, p) }

  ghost predicate Splittable(weights: Weights) { SomeFused(weights) ==> AllPaired(weights) }

  /** What is left of the finetuned weights when frozen keys are out and experts are split. */
  ghost predicate Prepared(weights: Weights, result: Weights) {
    var kept := FilterFrozen(weights);
    if SomeFused(kept) then Unfused(kept, result) else result == kept
  }

  /** Every weight under its new name; of several with one new name, one is kept. */
  ghost predicate Renamed(weights: Weights, rename: string -> string, native: Weights) {
    && (forall k :: k in weights ==> rename(k) in native)
    && forall key :: key in native ==> exists k :: k in weights && rename(k) == key && native[key] == weights[k]
  }

  ghost predicate RenamedPart(weights: Weights, rename: string -> string, native: Weights, todo: set<(string, Tensor)>) {
    && (forall k :: k in weights && (k, weights[k]) !in todo ==> rename(k) in native)
    && forall key :: key in native ==> exists k :: k in weights && rename(k) == key && native[key] == weights[k]
  }

  lemma RenamedNext(weights: Weights, rename: string -> string, native: Weights, todo: set<(string, Tensor)>, k: string)
    requires RenamedPart(weights, rename, native, todo) && k in weights
    ensures RenamedPart(weights, rename, native[rename(k) := weights[k]], todo - {(k, weights[k])})
  {
    var next := native[rename(k) := weights[k]];
    forall key | key in next ensures exists j :: j in weights && rename(j) == key && next[key] == weights[j] {
      if key == rename(k) {
        assert next[key] == weights[k];
      } else {
        assert key in native && next[key] == native[key];
      }
    }
  }

  method RenameAll(weights: Weights, rename: string -> string) returns (native: Weights)
    ensures Renamed(weights, rename, native)
  {
    native := map[];
    var todo := weights.Items;
    while todo != {}
      invariant todo <= weights.Items
      invariant RenamedPart(weights, rename, native, todo)
      decreases |todo|
    {
      var item :| item in todo;
      RenamedNext(weights, rename, native, todo, item.0);
      native := native[rename(item.0) := item.1];
      todo := todo - {item};
    }
  }

  method Prepare(weights: Weights) returns (result: Result<Weights, Error>)
    requires AreTensors(weights)
    ensures result.Ok? <==> Splittable(FilterFrozen(weights))
    ensures result.Ok? ==> Prepared(weights, result.value)
    ensures result.Err? ==> ErrorRight(FilterFrozen(weights), result.error)
  {
    hide AllPaired, Unfused, ErrorRight;
    result := Unfuse(FilterFrozen(weights));
  }

  // ----- the whole run -----

  datatype Ending = Stitched | ExpertError(error: Error) | UnknownKey(key: string) | NoFile(file: string)

  const SINGLE := "model.safetensors"

  /** The files once `native` is written. */
  ghost predicate Written(before: Shards<Tensor>, after: Shards<Tensor>, index: Option<Index>, native: Weights) {
    match index
    case Some(i) => native.Keys <= i.Keys && after == Updated(before, i, native)
    case None =>
      && "model.safetensors" in before && after.Keys == before.Keys
      && (forall file :: file in before && file != "model.safetensors" ==> after[file] == before[file])
      && after["model.safetensors"].metadata == before["model.safetensors"].metadata
      && after["model.safetensors"].tensors == before["model.safetensors"].tensors + native
  }

  ghost predicate NativeOf(weights: Weights, rename: string -> string, native: Weights) {
    exists result :: Prepared(weights, result) && Renamed(result, rename, native)
  }

  /** `sharded` tells whether the checkpoint has an index. */
  method StitchAll(c: Checkpoint<Tensor>, sharded: bool, weights: Weights, rename: string -> string)
      returns (ending: Ending)
    requires AreTensors(weights)
    modifies c`shards
    ensures ending.ExpertError? <==> !Splittable(FilterFrozen(weights))
    ensures ending.ExpertError? ==> ErrorRight(FilterFrozen(weights), ending.error) && c.shards == old(c.shards)
    ensures ending.UnknownKey? ==> sharded && ending.key !in c.index && c.shards == old(c.shards)
    ensures ending.UnknownKey? ==> exists native :: NativeOf(weights, rename, native) && ending.key in native
    ensures ending.NoFile? ==> ending.file !in c.shards && (!sharded ==> c.shards == old(c.shards))
    ensures ending.NoFile? && sharded ==> exists native, done ::
      NativeOf(weights, rename, native) && c.shards == Partly(old(c.shards), c.index, native, done)
    ensures ending.Stitched? ==>
      exists native :: NativeOf(weights, rename, native)
                       && Written(old(c.shards), c.shards, if sharded then Some(c.index) else None, native)
  {
    hide ErrorRight, Prepared, Renamed, Splittable, Updated, Routed, Partly;
    var result := Prepare(weights);
    if result.Err? { return ExpertError(result.error); }
    var native := RenameAll(result.value, rename);
    assert NativeOf(weights, rename, native);
    if sharded {
      var outcome := c.StitchSharded(native);
      match outcome
      case Done => ending := Stitched;
      case MissingKey(key) => ending := UnknownKey(key);
      case MissingFile(file) => ending := NoFile(file);
    } else if SINGLE in c.shards {
      c.StitchSingle(SINGLE, native);
      ending := Stitched;
    } else {
      ending := NoFile(SINGLE);
    }
  }

  // ----- what the checkpoint then holds -----

  ghost predicate Injective(rename: string -> string, keys: set<string>) {
    forall j, k :: j in keys && k in keys && rename(j) == rename(k) ==> j == k
  }

  /** Frozen weights are filtered out and do not come back. */
  lemma PreparedWithoutFrozen(weights: Weights, result: Weights, key: string)
    requires Prepared(weights, result) && key in {"embed_tokens.weight", "lm_head.weight"}
    ensures key !in result
  {
    hide Unfused;
    FrozenFiltered(weights, key);
    if SomeFused(FilterFrozen(weights)) { FrozenStayOut(weights, result, key); }
  }

  function NewNames(weights: Weights, rename: string -> string): set<string> { set k | k in weights :: rename(k) }

  /** `after` is `before` with exactly the weights put over it, and the frozen ones untouched. */
  ghost predicate PutOver(before: Weights, after: Weights, weights: Weights, rename: string -> string) {
    && after.Keys == before.Keys
    && (forall k :: k in weights ==> rename(k) in after && after[rename(k)] == weights[k])
    && (forall key :: key in before && key !in NewNames(weights, rename) ==> after[key] == before[key])
    && forall key :: key in {"embed_tokens.weight", "lm_head.weight"} && rename(key) in before ==>
         after[rename(key)] == before[rename(key)]
  }

  lemma NativeKeys(weights: Weights, rename: string -> string, native: Weights)
    requires Renamed(weights, rename, native)
    ensures native.Keys == NewNames(weights, rename)
  {
    forall key | key in native ensures key in NewNames(weights, rename) {
      var k :| k in weights && rename(k) == key;
    }
  }

  lemma NativeAt(weights: Weights, rename: string -> string, native: Weights, k: string)
    requires Renamed(weights, rename, native) && Injective(rename, weights.Keys + FROZEN) && k in weights
    ensures rename(k) in native && native[rename(k)] == weights[k]
  {
    var j :| j in weights && rename(j) == rename(k) && native[rename(k)] == weights[j];
  }

  lemma NotRenamed(weights: Weights, rename: string -> string, native: Weights, key: string)
    requires Renamed(weights, rename, native) && Injective(rename, weights.Keys + FROZEN)
    requires key in FROZEN && key !in weights
    ensures rename(key) !in native
  {}

  lemma OverlayIsPutOver(before: Weights, weights: Weights, rename: string -> string, native: Weights)
    requires Renamed(weights, rename, native) && Injective(rename, weights.Keys + FROZEN)
    requires native.Keys <= before.Keys && FROZEN !! weights.Keys
    ensures PutOver(before, before + native, weights, rename)
  {
    NativeKeys(weights, rename, native);
    forall k | k in weights ensures rename(k) in native && native[rename(k)] == weights[k] {
      NativeAt(weights, rename, native, k);
    }
    forall key | key in FROZEN ensures rename(key) !in native { NotRenamed(weights, rename, native, key); }
    hide Renamed, Injective, NewNames;
  }

  /** After a sharded run with a renaming that keeps names apart, the checkpoint is the old one
      with exactly the split weights put over it, and the frozen weights are the old ones. */
  lemma StitchedView(weights: Weights, result: Weights, rename: string -> string, native: Weights,
                     before: Shards<Tensor>, after: Shards<Tensor>, index: Index)
    requires Prepared(weights, result) && Renamed(result, rename, native) && Injective(rename, result.Keys + FROZEN)
    requires Consistent(before, index) && Written(before, after, Some(index), native)
    ensures Consistent(after, index)
    ensures PutOver(View(before, index), View(after, index), result, rename)
  {
    forall key | key in FROZEN ensures key !in result { PreparedWithoutFrozen(weights, result, key); }
    ViewOverridden(before, index, native);
    hide Updated, Consistent, Prepared, PutOver, Renamed, Injective;
    OverlayIsPutOver(View(before, index), result, rename, native);
  }

  /** Every part of every expert is in the checkpoint, under its new name. */
  lemma ExpertsInView(weights: Weights, result: Weights, rename: string -> string, native: Weights,
                      before: Shards<Tensor>, after: Shards<Tensor>, index: Index, p: string, i: nat, part: Part)
    requires Prepared(weights, result) && Renamed(result, rename, native) && Injective(rename, result.Keys + FROZEN)
    requires Consistent(before, index) && Written(before, after, Some(index), native)
    requires var kept := FilterFrozen(weights);
      HasGateUp(kept, p) && kept[p + GATE_UP].Stack? && i < |kept[p + GATE_UP].items|
    ensures var kept, key := FilterFrozen(weights), rename(Name(p, i, part));
      && Matching(kept, p) && Consistent(after, index) && key in index
      && View(after, index)[key] == Slice(kept[p + GATE_UP], kept[p + DOWN], i, part)
  {
    StitchedView(weights, result, rename, native, before, after, index);
    assert PrefixDone(FilterFrozen(weights), result, p);
  }

  /** The same with the names written out, before the renaming. */
  lemma ExpertsInViewAsText(weights: Weights, result: Weights, rename: string -> string, native: Weights,
                            before: Shards<Tensor>, after: Shards<Tensor>, index: Index, q: string, i: nat)
    requires Prepared(weights, result) && Renamed(result, rename, native) && Injective(rename, result.Keys + FROZEN)
    requires Consistent(before, index) && Written(before, after, Some(index), native)
    requires q != "" && q + ".experts.gate_up_proj" in FilterFrozen(weights)
    requires var gateUp := FilterFrozen(weights)[q + ".experts.gate_up_proj"]; gateUp.Stack? && i < |gateUp.items|
    ensures Consistent(after, index) && q + ".experts.down_proj" in FilterFrozen(weights)
    ensures var gateUp := FilterFrozen(weights)[q + ".experts.gate_up_proj"];
      var down := FilterFrozen(weights)[q + ".experts.down_proj"];
      var rows, name, view := gateUp.items[i], q + ".experts" + "." + Str(i), View(after, index);
      && down.Stack? && i < |down.items| && rows.Stack?
      && HasTensor(view, rename(name + ".gate_proj.weight"), Stack(rows.inner, rows.items[..|rows.items| / 2]))
      && HasTensor(view, rename(name + ".up_proj.weight"), Stack(rows.inner, rows.items[|rows.items| / 2..]))
      && HasTensor(view, rename(name + ".down_proj.weight"), down.items[i])
  {
    StitchedView(weights, result, rename, native, before, after, index);
    FusedNames(q);
    assert SomeFused(FilterFrozen(weights)) by { assert HasGateUp(FilterFrozen(weights), q + ".experts"); }
    hide Name, Str, Consistent, View, PrefixDone;
    assert ExpertAt(result, q + ".experts" + "." + Str(i), FilterFrozen(weights)[q + ".experts.gate_up_proj"].items[i],
                    FilterFrozen(weights)[q + ".experts.down_proj"].items[i]);
  }

  /** A checkpoint of one file takes the weights in the same way, and new names besides. */
  lemma StitchedSingle(weights: Weights, result: Weights, rename: string -> string, native: Weights,
                       before: Shards<Tensor>, after: Shards<Tensor>)
    requires Prepared(weights, result) && Renamed(result, rename, native) && Injective(rename, result.Keys + FROZEN)
    requires Written(before, after, None, native)
    ensures after.Keys == before.Keys && SINGLE in before
    ensures var old', new' := before[SINGLE].tensors, after[SINGLE].tensors;
      && new'.Keys == old'.Keys + NewNames(result, rename)
      && (forall k :: k in result ==> rename(k) in new' && new'[rename(k)] == result[k])
      && forall key :: key in {"embed_tokens.weight", "lm_head.weight"} && rename(key) in old' ==>
           rename(key) in new' && new'[rename(key)] == old'[rename(key)]
  {
    NativeKeys(result, rename, native);
    forall k | k in result ensures rename(k) in native && native[rename(k)] == result[k] {
      NativeAt(result, rename, native, k);
    }
    forall key | key in FROZEN ensures rename(key) !in native {
      PreparedWithoutFrozen(weights, result, key);
      NotRenamed(result, rename, native, key);
    }
    hide Renamed, Injective, NewNames, Prepared;
  }
}
