/** Writing new weights into a checkpoint of several files, or of one. */
module StitchShards {
  import opened Common

  /** One safetensors file. */
  datatype Shard<T> = Shard(metadata: string, tensors: map<string, T>)

  type Shards<T> = map<string, Shard<T>>

  type Index = map<string, string>

  /** The new weights the index sends to one file. */
  function Routed<T>(native: map<string, T>, index: Index, file: string): map<string, T> {
    map key | key in native && key in index && index[key] == file :: native[key]
  }

  /** Every file with its new weights put over the old ones. */
  function Updated<T>(shards: Shards<T>, index: Index, native: map<string, T>): Shards<T> {
    map file | file in shards :: UpdatedShard(shards[file], Routed(native, index, file))
  }

  function UpdatedShard<T>(shard: Shard<T>, news: map<string, T>): Shard<T> {
    shard.(tensors := shard.tensors + news)
  }

  /** The same files, with the metadata they had. */
  ghost predicate SameMetadata<T>(before: Shards<T>, after: Shards<T>) {
    after.Keys == before.Keys && forall file :: file in before ==> after[file].metadata == before[file].metadata
  }

  // ----- the checkpoint as one map -----

  /** Each key lives only in the file the index names. */
  ghost predicate Consistent<T>(shards: Shards<T>, index: Index) {
    && (forall key :: key in index ==> index[key] in shards && key in shards[index[key]].tensors)
    && forall file, key :: file in shards && key in shards[file].tensors ==> key in index && index[key] == file
  }

  ghost function View<T>(shards: Shards<T>, index: Index): map<string, T>
    requires Consistent(shards, index)
  {
    map key | key in index :: shards[index[key]].tensors[key]
  }

  lemma UpdatedAt<T>(shards: Shards<T>, index: Index, native: map<string, T>, file: string, key: string)
    requires Consistent(shards, index) && native.Keys <= index.Keys && file in shards
    ensures var tensors := Updated(shards, index, native)[file].tensors;
      && (key in tensors <==> key in shards[file].tensors)
      && (key in tensors ==> tensors[key] == if key in native then native[key] else shards[file].tensors[key])
  {
    assert Updated(shards, index, native)[file].tensors == shards[file].tensors + Routed(native, index, file);
    if key in native { assert key in Routed(native, index, file) <==> index[key] == file; }
  }

  lemma UpdatedConsistent<T>(shards: Shards<T>, index: Index, native: map<string, T>)
    requires Consistent(shards, index) && native.Keys <= index.Keys
    ensures Consistent(Updated(shards, index, native), index)
  {
    var after := Updated(shards, index, native);
    forall file, key | file in after ensures key in after[file].tensors <==> key in shards[file].tensors {
      UpdatedAt(shards, index, native, file, key);
    }
  }

  lemma ViewAt<T>(shards: Shards<T>, index: Index, native: map<string, T>, key: string)
    requires Consistent(shards, index) && native.Keys <= index.Keys && key in index
    requires Consistent(Updated(shards, index, native), index)
    ensures View(Updated(shards, index, native), index)[key]
         == if key in native then native[key] else View(shards, index)[key]
  {
    UpdatedAt(shards, index, native, index[key], key);
  }

  /** The sharded update is the flat one: the old view overridden by the new weights. */
  lemma ViewOverridden<T>(shards: Shards<T>, index: Index, native: map<string, T>)
    requires Consistent(shards, index) && native.Keys <= index.Keys
    ensures Consistent(Updated(shards, index, native), index)
    ensures View(Updated(shards, index, native), index) == View(shards, index) + native
    ensures View(Updated(shards, index, native), index).Keys == View(shards, index).Keys
  {
    UpdatedConsistent(shards, index, native);
    var before, after := View(shards, index), View(Updated(shards, index, native), index);
    forall key | key in index ensures after[key] == if key in native then native[key] else before[key] {
      ViewAt(shards, index, native, key);
    }
    MapsEqual(before, native, after, index.Keys);
  }

  lemma MapsEqual<T>(before: map<string, T>, native: map<string, T>, after: map<string, T>, keys: set<string>)
    requires before.Keys == after.Keys == keys && native.Keys <= keys
    requires forall key :: key in keys ==> after[key] == if key in native then native[key] else before[key]
    ensures after == before + native
  {
    assert (before + native).Keys == keys;
  }

  datatype Outcome = Done | MissingKey(key: string) | MissingFile(file: string)

  /** The files in `done` updated, the others as they were. */
  function Partly<T>(shards: Shards<T>, index: Index, native: map<string, T>, done: set<string>): Shards<T> {
    map file | file in shards ::
      if file in done then UpdatedShard(shards[file], Routed(native, index, file)) else shards[file]
  }

  lemma PartlyNext<T>(shards: Shards<T>, index: Index, native: map<string, T>, done: set<string>, file: string)
    requires file in shards && file !in done
    ensures var now := Partly(shards, index, native, done);
      now[file := UpdatedShard(now[file], Routed(native, index, file))] == Partly(shards, index, native, done + {file})
  {}

  lemma PartlyAll<T>(shards: Shards<T>, index: Index, native: map<string, T>, done: set<string>)
    requires forall file :: file in shards && file !in done ==> Routed(native, index, file) == map[]
    ensures Partly(shards, index, native, done) == Updated(shards, index, native)
  {
    forall file | file in shards && file !in done
      ensures UpdatedShard(shards[file], Routed(native, index, file)) == shards[file]
    {
      NothingRouted(shards[file], Routed(native, index, file));
    }
  }

  class Checkpoint<T(==)> {
    var shards: Shards<T>
    var index: Index

    /** The keys of the new weights by file.  Stops at the first key the index lacks. */
    method GroupByFile(native: map<string, T>) returns (groups: map<string, map<string, T>>, missing: Option<string>)
      ensures missing.Some? <==> exists key :: key in native && key !in index
      ensures missing.Some? ==> missing.value in native && missing.value !in index
      ensures missing.None? ==> forall file :: file in groups <==> Routed(native, index, file) != map[]
      ensures missing.None? ==> forall file :: file in groups ==> groups[file] == Routed(native, index, file)
    {
      groups := map[];
      var todo := native.Items;
      ghost var done: set<string> := {};
      while todo != {}
        invariant todo <= native.Items
        invariant forall key :: key in done <==> key in native && (key, native[key]) !in todo
        invariant forall key :: key in done ==> key in index
        invariant forall file :: file in groups <==> Among(native, index, file, done) != map[]
        invariant forall file :: file in groups ==> groups[file] == Among(native, index, file, done)
        decreases |todo|
      {
        var item :| item in todo;
        var (key, tensor) := item;
        assert key in native && native[key] == tensor;
        if key !in index { return groups, Some(key); }
        var file := index[key];
        forall other { AmongNext(native, index, other, done, key); }
        groups := groups[file := (if file in groups then groups[file] else map[])[key := tensor]];
        todo, done := todo - {item}, done + {key};
      }
      assert done == native.Keys;
      forall file { AmongAll(native, index, file); }
      missing := None;
    }

    /** Reads a file key by key, puts the new weights over it and writes it back. */
    method RewriteFile(file: string, news: map<string, T>)
      requires file in shards
      modifies this`shards
      ensures shards == old(shards)[file := UpdatedShard(old(shards)[file], news)]
    {
      var source := shards[file].tensors;
      var existing: map<string, T> := map[];
      var todo := source.Items;
      while todo != {}
        invariant todo <= source.Items
        invariant forall key :: key in existing <==> key in source && (key, source[key]) !in todo
        invariant forall key :: key in existing ==> existing[key] == source[key]
        invariant shards == old(shards)
        decreases |todo|
      {
        var item :| item in todo;
        existing := existing[item.0 := item.1];
        todo := todo - {item};
      }
      assert existing == source;
      existing := existing + news;
      shards := shards[file := Shard(shards[file].metadata, existing)];
    }

    /** Every key is looked up before any file is written.  A file that is not there stops
        the rewriting half-way. */
    method StitchSharded(native: map<string, T>) returns (outcome: Outcome)
      modifies this`shards
      ensures outcome.MissingKey? <==> exists key :: key in native && key !in index
      ensures outcome.MissingKey? ==> outcome.key in native && outcome.key !in index && shards == old(shards)
      ensures outcome.Done? ==> shards == Updated(old(shards), index, native)
      ensures SameMetadata(old(shards), shards)
      ensures outcome.Done? ==> forall key :: key in native ==> index[key] in shards
      ensures outcome.Done? && Consistent(old(shards), index) ==>
        Consistent(shards, index) && View(shards, index) == View(old(shards), index) + native
      ensures outcome.MissingFile? ==> outcome.file !in shards && Routed(native, index, outcome.file) != map[]
      ensures outcome.MissingFile? ==> exists done :: shards == Partly(old(shards), index, native, done)
    {
      var groups, missing := GroupByFile(native);
      if missing.Some? { return MissingKey(missing.value); }
      var todo := groups.Keys;
      ghost var before, done := shards, {};
      PartlyNone(before, index, native);
      while todo != {}
        invariant forall file :: file in done || file in todo <==> file in groups
        invariant done !! todo && done <= before.Keys
        invariant shards == Partly(before, index, native, done)
        decreases |todo|
      {
        var file :| file in todo;
        if file !in shards { return MissingFile(file); }
        PartlyNext(before, index, native, done, file);
        RewriteFile(file, groups[file]);
        todo, done := todo - {file}, done + {file};
      }
      PartlyAll(before, index, native, done);
      FilesThere(before, index, native, done);
      if Consistent(before, index) { ViewOverridden(before, index, native); }
      outcome := Done;
    }

    /** The checkpoint of one file: no key is checked. */
    method StitchSingle(file: string, native: map<string, T>)
      requires file in shards
      modifies this`shards
      ensures shards == old(shards)[file := UpdatedShard(old(shards)[file], native)]
      ensures SameMetadata(old(shards), shards)
    {
      RewriteFile(file, native);
    }
  }

  lemma FilesThere<T>(shards: Shards<T>, index: Index, native: map<string, T>, done: set<string>)
    requires native.Keys <= index.Keys && done <= shards.Keys
    requires forall file :: Routed(native, index, file) != map[] ==> file in done
    ensures forall key :: key in native ==> index[key] in shards
  {
    forall key | key in native ensures index[key] in shards {
      assert key in Routed(native, index, index[key]);
    }
  }

  lemma PartlyNone<T>(shards: Shards<T>, index: Index, native: map<string, T>)
    ensures Partly(shards, index, native, {}) == shards
  {}

  lemma NothingRouted<T>(shard: Shard<T>, news: map<string, T>)
    requires news == map[]
    ensures UpdatedShard(shard, news) == shard
  {
    assert shard.tensors + news == shard.tensors;
  }

  /** For one file the two routes agree exactly when the checkpoint knows every new key;
      otherwise the single-file route adds keys where the sharded one refuses. */
  lemma SingleAgreesWithSharded<T>(shards: Shards<T>, index: Index, file: string, native: map<string, T>)
    requires shards.Keys == {file} && Consistent(shards, index)
    ensures shards[file := UpdatedShard(shards[file], native)] == Updated(shards, index, native)
       <==> native.Keys <= index.Keys
  {
    var single, routed := shards[file].tensors + native, Routed(native, index, file);
    if native.Keys <= index.Keys {
      forall key | key in native ensures index[key] == file { assert index[key] in shards.Keys; }
      assert routed == native;
    } else {
      var key :| key in native && key !in index;
      assert key in single && key !in shards[file].tensors + routed;
      assert shards[file := UpdatedShard(shards[file], native)][file].tensors == single;
    }
  }

  /** The part of the new weights that goes to a file, among the keys seen so far. */
  function Among<T>(native: map<string, T>, index: Index, file: string, done: set<string>): map<string, T> {
    map key | key in native && key in done && key in index && index[key] == file :: native[key]
  }

  lemma AmongNext<T>(native: map<string, T>, index: Index, file: string, done: set<string>, key: string)
    requires key in native && key in index
    ensures Among(native, index, file, done + {key})
         == if index[key] == file then Among(native, index, file, done)[key := native[key]]
            else Among(native, index, file, done)
    ensures Among(native, index, file, done + {key}) != map[]
       <==> index[key] == file || Among(native, index, file, done) != map[]
  {
    if index[key] == file { assert key in Among(native, index, file, done + {key}); }
  }

  lemma AmongAll<T>(native: map<string, T>, index: Index, file: string)
    ensures Among(native, index, file, native.Keys) == Routed(native, index, file)
  {}
}
