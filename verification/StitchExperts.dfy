/** Splitting fused expert tensors into one tensor per expert and projection. */
module StitchExperts {
  import opened Common

  /** A tensor of any rank: a number, or items along the first axis that all have the shape
      `inner`, which an empty axis keeps too. */
  datatype Tensor = Scalar(value: int) | Stack(inner: seq<nat>, items: seq<Tensor>)

  function Shape(t: Tensor): seq<nat> { if t.Scalar? then [] else [|t.items|] + t.inner }

  predicate IsTensor(t: Tensor) {
    t.Stack? ==> forall i :: 0 <= i < |t.items| ==> Shape(t.items[i]) == t.inner && IsTensor(t.items[i])
  }

  /** t[i, from..to] for a tensor of rank two or more */
  function Slab(t: Tensor, i: nat, from: nat, to: nat): Tensor
    requires IsTensor(t) && t.Stack? && t.inner != [] && i < |t.items| && from <= to <= t.inner[0]
  {
    assert Shape(t.items[i]) == t.inner;
    Stack(t.items[i].inner, t.items[i].items[from..to])
  }

  type Weights = map<string, Tensor>

  const EXPERTS := ".experts"
  const GATE_UP := ".gate_up_proj"
  const DOWN := ".down_proj"

  // ----- names -----

  predicate EndsWith(s: string, suffix: string) { |suffix| <= |s| && s[|s| - |suffix|..] == suffix }

  predicate IsExperts(prefix: string) { |prefix| > |EXPERTS| && EndsWith(prefix, EXPERTS) }

  /** The group of the pattern `^(.+\.experts)<suffix>$`. */
  function FusedPrefix(key: string, suffix: string): Option<string> {
    if EndsWith(key, suffix) && IsExperts(key[..|key| - |suffix|]) then Some(key[..|key| - |suffix|]) else None
  }

  lemma FusedPrefixIs(key: string, suffix: string, prefix: string)
    ensures FusedPrefix(key, suffix) == Some(prefix) <==> key == prefix + suffix && IsExperts(prefix)
  {}

  datatype Part = Gate | Up | Down

  const WEIGHT := "_proj.weight"

  function PartName(part: Part): string {
    match part
    case Gate => ".gate"
    case Up => ".up"
    case Down => ".down"
  }

  /** `{prefix}.{i}.gate_proj.weight` and its siblings. */
  function Name(prefix: string, i: nat, part: Part): string { prefix + "." + Str(i) + PartName(part) + WEIGHT }

  lemma PlainNameInjective(p: string, i: nat, q: string, j: nat)
    requires p + "." + Str(i) == q + "." + Str(j)
    ensures p == q && i == j
  {
    var s, t := p + "." + Str(i), q + "." + Str(j);
    StrHasDigits(i);
    StrHasDigits(j);
    assert s[|p|] == '.' && t[|q|] == '.';
    assert forall k :: |p| < k < |s| ==> s[k] in Str(i);
    assert forall k :: |q| < k < |t| ==> t[k] in Str(j);
    assert |p| == |q|;
    assert s[..|p|] == p && t[..|q|] == q;
    assert s[|p| + 1..] == Str(i) && t[|q| + 1..] == Str(j);
    StrInjective(i, j);
  }

  /** No two outputs share a name, even from different prefixes. */
  lemma NameInjective(p: string, i: nat, part: Part, q: string, j: nat, other: Part)
    requires Name(p, i, part) == Name(q, j, other)
    ensures p == q && i == j && part == other
  {
    var s, t := Name(p, i, part), Name(q, j, other);
    var a, b := p + "." + Str(i), q + "." + Str(j);
    var m := |s| - |WEIGHT|;
    assert s[m - 1] == PartName(part)[|PartName(part)| - 1];
    assert t[m - 1] == PartName(other)[|PartName(other)| - 1];
    assert part == other;
    assert s[..|a|] == a && t[..|b|] == b && |a| == |b|;
    PlainNameInjective(p, i, q, j);
  }

  // ----- what unfusing must give -----

  /** Every key of the first kind, filed under its prefix. */
  ghost predicate Filed(m: map<string, Tensor>, weights: Weights, suffix: string) {
    && (forall p :: p in m <==> IsExperts(p) && p + suffix in weights)
    && forall p :: p in m ==> m[p] == weights[p + suffix]
  }

  predicate IsOther(key: string) { FusedPrefix(key, GATE_UP).None? && FusedPrefix(key, DOWN).None? }

  ghost predicate AreTensors(weights: Weights) { forall key :: key in weights ==> IsTensor(weights[key]) }

  /** A pair of fused tensors that fits together. */
  ghost predicate Pair(gateUp: Tensor, down: Tensor) {
    IsTensor(gateUp) && |Shape(gateUp)| >= 2 && |Shape(down)| >= 1 && Shape(gateUp)[0] == Shape(down)[0]
  }

  /** The part of expert `i`: the first half of the fused rows, the rest, or the down rows. */
  ghost function Slice(gateUp: Tensor, down: Tensor, i: nat, part: Part): Tensor
    requires Pair(gateUp, down) && i < |gateUp.items|
  {
    var rows := gateUp.inner[0];
    match part
    case Gate => Slab(gateUp, i, 0, rows / 2)
    case Up => Slab(gateUp, i, rows / 2, rows)
    case Down => down.items[i]
  }

  ghost predicate NamedBy(prefix: string, experts: nat, key: string) {
    exists i: nat, part: Part :: i < experts && key == Name(prefix, i, part)
  }

  /** The experts of one prefix are all in `result`. */
  ghost predicate Split(result: Weights, prefix: string, gateUp: Tensor, down: Tensor, experts: nat)
    requires Pair(gateUp, down) && experts <= |gateUp.items|
  {
    forall i: nat, part: Part :: i < experts ==>
      Name(prefix, i, part) in result && result[Name(prefix, i, part)] == Slice(gateUp, down, i, part)
  }

  // ----- the same with every name written out -----

  predicate HasTensor(weights: Weights, key: string, t: Tensor) { key in weights && weights[key] == t }

  /** One expert: the first half of the fused rows is the gate, the rest is up. */
  predicate ExpertAt(result: Weights, name: string, gateUp: Tensor, down: Tensor) {
    && gateUp.Stack?
    && HasTensor(result, name + ".gate_proj.weight", Stack(gateUp.inner, gateUp.items[..|gateUp.items| / 2]))
    && HasTensor(result, name + ".up_proj.weight", Stack(gateUp.inner, gateUp.items[|gateUp.items| / 2..]))
    && HasTensor(result, name + ".down_proj.weight", down)
  }

  ghost predicate ExpertsAt(result: Weights, prefix: string, gateUp: Tensor, down: Tensor) {
    && gateUp.Stack? && down.Stack? && |gateUp.items| == |down.items|
    && forall i: nat :: i < |gateUp.items| ==> ExpertAt(result, prefix + "." + Str(i), gateUp.items[i], down.items[i])
  }

  /** The fused tensors of every `q`.experts are written out as experts. */
  ghost predicate WrittenOut(weights: Weights, result: Weights) {
    forall q :: q != "" && q + ".experts.gate_up_proj" in weights ==>
      && q + ".experts.down_proj" in weights
      && ExpertsAt(result, q + ".experts", weights[q + ".experts.gate_up_proj"], weights[q + ".experts.down_proj"])
  }

  lemma NamesAsText(prefix: string, i: nat)
    ensures Name(prefix, i, Gate) == prefix + "." + Str(i) + ".gate_proj.weight"
    ensures Name(prefix, i, Up) == prefix + "." + Str(i) + ".up_proj.weight"
    ensures Name(prefix, i, Part.Down) == prefix + "." + Str(i) + ".down_proj.weight"
  {
    var name := prefix + "." + Str(i);
    assert name + ".gate" + WEIGHT == name + ".gate_proj.weight";
    assert name + ".up" + WEIGHT == name + ".up_proj.weight";
    assert name + ".down" + WEIGHT == name + ".down_proj.weight";
  }

  lemma SplitIsExpertsAt(result: Weights, prefix: string, gateUp: Tensor, down: Tensor)
    requires Pair(gateUp, down) && Split(result, prefix, gateUp, down, |gateUp.items|)
    ensures ExpertsAt(result, prefix, gateUp, down)
  {
    forall i: nat | i < |gateUp.items|
      ensures ExpertAt(result, prefix + "." + Str(i), gateUp.items[i], down.items[i])
    {
      NamesAsText(prefix, i);
      assert Shape(gateUp.items[i]) == gateUp.inner;
      assert result[Name(prefix, i, Gate)] == Slice(gateUp, down, i, Gate);
      assert result[Name(prefix, i, Up)] == Slice(gateUp, down, i, Up);
      assert result[Name(prefix, i, Part.Down)] == Slice(gateUp, down, i, Part.Down);
      hide Name, Str;
    }
  }

  lemma FusedNames(q: string)
    requires q != ""
    ensures IsExperts(q + ".experts")
    ensures q + ".experts" + GATE_UP == q + ".experts.gate_up_proj" && q + ".experts" + DOWN == q + ".experts.down_proj"
  {}

  lemma FusedNamesBack(prefix: string)
    requires IsExperts(prefix)
    ensures exists q :: q != "" && prefix == q + ".experts"
  {
    var q := prefix[..|prefix| - |EXPERTS|];
    assert prefix == q + ".experts";
  }

  /** The tensors that are neither of a fused pair. */
  lemma OthersAsText(key: string)
    ensures IsOther(key) <==>
      forall q :: q != "" ==> key != q + ".experts.gate_up_proj" && key != q + ".experts.down_proj"
  {
    if !IsOther(key) {
      var prefix :=
        if FusedPrefix(key, GATE_UP).Some? then FusedPrefix(key, GATE_UP).value else FusedPrefix(key, DOWN).value;
      FusedPrefixIs(key, GATE_UP, prefix);
      FusedPrefixIs(key, DOWN, prefix);
      FusedNamesBack(prefix);
      var q :| q != "" && prefix == q + ".experts";
      FusedNames(q);
    } else {
      forall q | q != "" ensures key != q + ".experts.gate_up_proj" && key != q + ".experts.down_proj" {
        FusedNames(q);
        FusedPrefixIs(key, GATE_UP, q + ".experts");
        FusedPrefixIs(key, DOWN, q + ".experts");
      }
    }
  }

  // ----- one prefix -----

  method UnfuseOne(before: Weights, prefix: string, gateUp: Tensor, down: Tensor) returns (result: Weights)
    requires Pair(gateUp, down)
    ensures Split(result, prefix, gateUp, down, |gateUp.items|) && ExpertsAt(result, prefix, gateUp, down)
    ensures forall key :: key in result <==> key in before || NamedBy(prefix, |gateUp.items|, key)
    ensures forall key :: key in before && !NamedBy(prefix, |gateUp.items|, key) ==> result[key] == before[key]
  {
    result := before;
    var half := gateUp.inner[0] / 2;
    for i := 0 to |gateUp.items|
      invariant Split(result, prefix, gateUp, down, i)
      invariant forall key :: key in result <==> key in before || NamedBy(prefix, i, key)
      invariant forall key :: key in before && !NamedBy(prefix, i, key) ==> result[key] == before[key]
    {
      ghost var was := result;
      result := result[Name(prefix, i, Gate) := Slab(gateUp, i, 0, half)];
      result := result[Name(prefix, i, Up) := Slab(gateUp, i, half, gateUp.inner[0])];
      result := result[Name(prefix, i, Part.Down) := down.items[i]];
      ExpertAdded(was, result, prefix, gateUp, down, i);
      SplitNext(was, result, prefix, gateUp, down, i);
      forall key { NamedByNext(prefix, i, key); }
    }
    SplitIsExpertsAt(result, prefix, gateUp, down);
  }

  /** `after` is `before` with the three tensors of expert `i`. */
  ghost predicate Added(before: Weights, after: Weights, prefix: string, gateUp: Tensor, down: Tensor, i: nat)
    requires Pair(gateUp, down) && i < |gateUp.items|
  {
    && (forall part: Part ::
          Name(prefix, i, part) in after && after[Name(prefix, i, part)] == Slice(gateUp, down, i, part))
    && after.Keys == before.Keys + Names(prefix, i)
    && forall key :: key in before && key !in Names(prefix, i) ==> after[key] == before[key]
  }

  /** The three names of expert `i`. */
  function Names(prefix: string, i: nat): set<string> {
    {Name(prefix, i, Gate), Name(prefix, i, Up), Name(prefix, i, Part.Down)}
  }

  lemma ExpertAdded(before: Weights, after: Weights, prefix: string, gateUp: Tensor, down: Tensor, i: nat)
    requires Pair(gateUp, down) && i < |gateUp.items|
    requires after == before[Name(prefix, i, Gate) := Slice(gateUp, down, i, Gate)]
                            [Name(prefix, i, Up) := Slice(gateUp, down, i, Up)]
                            [Name(prefix, i, Part.Down) := Slice(gateUp, down, i, Part.Down)]
    ensures Added(before, after, prefix, gateUp, down, i)
  {
    var a, b, c := Name(prefix, i, Gate), Name(prefix, i, Up), Name(prefix, i, Part.Down);
    DifferentParts(prefix, i, Gate, Up);
    DifferentParts(prefix, i, Gate, Part.Down);
    DifferentParts(prefix, i, Up, Part.Down);
    hide Name, Slice, Pair;
    ThreeAdded(before, after, a, b, c, Slice(gateUp, down, i, Gate), Slice(gateUp, down, i, Up),
               Slice(gateUp, down, i, Part.Down));
    forall part: Part
      ensures Name(prefix, i, part) in after && after[Name(prefix, i, part)] == Slice(gateUp, down, i, part)
    {
      match part case Gate => case Up => case Down =>
    }
  }

  lemma ThreeAdded(before: Weights, after: Weights, a: string, b: string, c: string, x: Tensor, y: Tensor, z: Tensor)
    requires a != b && a != c && b != c && after == before[a := x][b := y][c := z]
    ensures after.Keys == before.Keys + {a, b, c}
    ensures after[a] == x && after[b] == y && after[c] == z
    ensures forall key :: key in before && key !in {a, b, c} ==> after[key] == before[key]
  {}

  lemma DifferentParts(prefix: string, i: nat, part: Part, other: Part)
    requires part != other
    ensures Name(prefix, i, part) != Name(prefix, i, other)
  {
    if Name(prefix, i, part) == Name(prefix, i, other) { NameInjective(prefix, i, part, prefix, i, other); }
  }

  lemma NamedByNext(prefix: string, i: nat, key: string)
    ensures NamedBy(prefix, i + 1, key) <==> NamedBy(prefix, i, key) || key in Names(prefix, i)
  {
    hide Name;
    if key in Names(prefix, i) {
      var part := if key == Name(prefix, i, Gate) then Gate else if key == Name(prefix, i, Up) then Up else Part.Down;
      assert i < i + 1 && key == Name(prefix, i, part);
    }
    if NamedBy(prefix, i + 1, key) {
      var j: nat, part: Part :| j < i + 1 && key == Name(prefix, j, part);
      assert part == Gate || part == Up || part == Part.Down;
      assert j == i || NamedBy(prefix, i, key);
    }
  }

  lemma SplitNext(before: Weights, after: Weights, prefix: string, gateUp: Tensor, down: Tensor, i: nat)
    requires Pair(gateUp, down) && i < |gateUp.items|
    requires Added(before, after, prefix, gateUp, down, i) && Split(before, prefix, gateUp, down, i)
    ensures Split(after, prefix, gateUp, down, i + 1)
  {
    forall j: nat, part: Part | j < i
      ensures Name(prefix, j, part) in after && after[Name(prefix, j, part)] == Slice(gateUp, down, j, part)
    {
      forall other: Part ensures Name(prefix, j, part) != Name(prefix, i, other) {
        if Name(prefix, j, part) == Name(prefix, i, other) { NameInjective(prefix, j, part, prefix, i, other); }
      }
    }
  }

  // ----- all prefixes -----

  datatype Error = MissingDown(prefix: string) | CountMismatch(prefix: string) | IndexError(prefix: string) | Orphaned

  ghost predicate HasGateUp(weights: Weights, prefix: string) { IsExperts(prefix) && prefix + GATE_UP in weights }

  ghost predicate HasDown(weights: Weights, prefix: string) { IsExperts(prefix) && prefix + DOWN in weights }

  ghost predicate Matching(weights: Weights, prefix: string) {
    HasGateUp(weights, prefix) && HasDown(weights, prefix) && Pair(weights[prefix + GATE_UP], weights[prefix + DOWN])
  }

  ghost predicate NamedFor(weights: Weights, p: string, key: string) {
    HasGateUp(weights, p) && weights[p + GATE_UP].Stack? && NamedBy(p, |weights[p + GATE_UP].items|, key)
  }

  /** The name of an expert of some fused pair. */
  ghost predicate OutputName(weights: Weights, key: string) { exists p :: NamedFor(weights, p, key) }

  ghost predicate PrefixDone(weights: Weights, result: Weights, p: string)
  {
    Matching(weights, p) && Split(result, p, weights[p + GATE_UP], weights[p + DOWN], |weights[p + GATE_UP].items|)
  }

  /** A complete result: every expert split, every other tensor kept unless an expert takes
      its name, and nothing else. */
  ghost predicate Unfused(weights: Weights, result: Weights)
  {
    && WrittenOut(weights, result)
    && (forall p :: HasGateUp(weights, p) ==> PrefixDone(weights, result, p))
    && (forall key :: key in result <==> (key in weights && IsOther(key)) || OutputName(weights, key))
    && (forall key :: key in weights && IsOther(key) && !OutputName(weights, key) ==>
          key in result && result[key] == weights[key])
  }

  ghost predicate Others(weights: Weights, others: Weights) {
    && (forall key :: key in others <==> key in weights && IsOther(key))
    && forall key :: key in others ==> others[key] == weights[key]
  }

  /** The loop that files every tensor. */
  method FileTensors(weights: Weights) returns (others: Weights, gateUps: map<string, Tensor>, downs: map<string, Tensor>)
    ensures Filed(gateUps, weights, GATE_UP) && Filed(downs, weights, DOWN)
    ensures Others(weights, others)
  {
    others, gateUps, downs := map[], map[], map[];
    var todo := weights.Items;
    while todo != {}
      invariant todo <= weights.Items
      invariant forall key :: key in others <==> key in weights && (key, weights[key]) !in todo && IsOther(key)
      invariant forall key :: key in others ==> others[key] == weights[key]
      invariant FiledPart(gateUps, weights, todo, GATE_UP) && FiledPart(downs, weights, todo, DOWN)
      decreases |todo|
    {
      var item :| item in todo;
      var (key, tensor) := item;
      FileNext(gateUps, weights, todo, key, GATE_UP);
      FileNext(downs, weights, todo, key, DOWN);
      NotBoth(key);
      var gateUp, down := FusedPrefix(key, GATE_UP), FusedPrefix(key, DOWN);
      if gateUp.Some? {
        gateUps := gateUps[gateUp.value := tensor];
      } else if down.Some? {
        downs := downs[down.value := tensor];
      } else {
        others := others[key := tensor];
      }
      todo := todo - {item};
    }
  }

  predicate FiledSoFar(weights: Weights, todo: set<(string, Tensor)>, p: string, suffix: string) {
    IsExperts(p) && p + suffix in weights && (p + suffix, weights[p + suffix]) !in todo
  }

  ghost predicate FiledPart(m: map<string, Tensor>, weights: Weights, todo: set<(string, Tensor)>, suffix: string) {
    && (forall p :: p in m <==> FiledSoFar(weights, todo, p, suffix))
    && forall p :: p in m ==> p + suffix in weights && m[p] == weights[p + suffix]
  }

  lemma FileNext(m: map<string, Tensor>, weights: Weights, todo: set<(string, Tensor)>, key: string, suffix: string)
    requires FiledPart(m, weights, todo, suffix) && key in weights
    ensures var rest, prefix := todo - {(key, weights[key])}, FusedPrefix(key, suffix);
      FiledPart(if prefix.Some? then m[prefix.value := weights[key]] else m, weights, rest, suffix)
  {
    var rest, prefix := todo - {(key, weights[key])}, FusedPrefix(key, suffix);
    var next := if prefix.Some? then m[prefix.value := weights[key]] else m;
    forall p ensures p in next <==> FiledSoFar(weights, rest, p, suffix) { FusedPrefixIs(key, suffix, p); }
    forall p | p in next ensures p + suffix in weights && next[p] == weights[p + suffix] {
      FusedPrefixIs(key, suffix, p);
    }
  }

  lemma NotBoth(key: string)
    ensures !EndsWith(key, GATE_UP) || !EndsWith(key, DOWN)
  {
    if EndsWith(key, GATE_UP) { assert key[|key| - 6] == GATE_UP[|GATE_UP| - 6]; }
    if EndsWith(key, DOWN) { assert key[|key| - 6] == DOWN[|DOWN| - 6]; }
  }

  /** The state of the second loop: prefixes not in `todo` are done. */
  ghost predicate Progress(weights: Weights, others: Weights, result: Weights, todo: set<string>)
  {
    && (forall p :: HasGateUp(weights, p) && p !in todo ==> PrefixDone(weights, result, p))
    && (forall key :: key in result <==> key in others || NamedOutside(weights, todo, key))
    && (forall key :: key in others && !OutputName(weights, key) ==> key in result && result[key] == others[key])
  }

  ghost predicate NamedOutside(weights: Weights, todo: set<string>, key: string) {
    exists p :: p !in todo && NamedFor(weights, p, key)
  }

  lemma NamesApart(p: string, n: nat, q: string, m: nat, key: string)
    requires p != q && NamedBy(p, n, key)
    ensures !NamedBy(q, m, key)
  {
    var i: nat, part: Part :| i < n && key == Name(p, i, part);
    forall j: nat, other: Part | j < m ensures key != Name(q, j, other) {
      if key == Name(q, j, other) { NameInjective(p, i, part, q, j, other); }
    }
  }

  lemma SplitKept(before: Weights, after: Weights, p: string, gateUp: Tensor, down: Tensor, n: nat, q: string, m: nat)
    requires Pair(gateUp, down) && n <= |gateUp.items| && p != q && Split(before, p, gateUp, down, n)
    requires forall key :: key in before ==> key in after
    requires forall key :: key in before && !NamedBy(q, m, key) ==> after[key] == before[key]
    ensures Split(after, p, gateUp, down, n)
  {
    forall i: nat, part: Part | i < n
      ensures Name(p, i, part) in after && after[Name(p, i, part)] == Slice(gateUp, down, i, part)
    {
      assert NamedBy(p, n, Name(p, i, part));
      NamesApart(p, n, q, m, Name(p, i, part));
    }
  }

  lemma ProgressNext(weights: Weights, others: Weights, before: Weights, after: Weights, todo: set<string>, q: string)
    requires Progress(weights, others, before, todo)
    requires q in todo && HasGateUp(weights, q) && PrefixDone(weights, after, q)
    requires forall key :: key in after <==> key in before || NamedFor(weights, q, key)
    requires forall key :: key in before && !NamedFor(weights, q, key) ==> after[key] == before[key]
    ensures Progress(weights, others, after, todo - {q})
  {
    forall p | HasGateUp(weights, p) && p !in todo - {q} ensures PrefixDone(weights, after, p) {
      if p != q {
        assert PrefixDone(weights, before, p);
        var m := |weights[q + GATE_UP].items|;
        SplitKept(before, after, p, weights[p + GATE_UP], weights[p + DOWN], |weights[p + GATE_UP].items|, q, m);
      }
    }
    forall key
      ensures NamedOutside(weights, todo - {q}, key) <==> NamedOutside(weights, todo, key) || NamedFor(weights, q, key)
    {
      if NamedOutside(weights, todo - {q}, key) {
        var p :| p !in todo - {q} && NamedFor(weights, p, key);
        assert p == q || NamedOutside(weights, todo, key);
      }
    }
    forall key | key in others && !OutputName(weights, key) ensures key in after && after[key] == others[key] {
      assert !NamedFor(weights, q, key);
    }
  }

  /** All fused tensors come in pairs with as many experts. */
  ghost predicate AllPaired(weights: Weights)
  {
    && (forall p :: HasGateUp(weights, p) ==> Matching(weights, p))
    && forall p :: HasDown(weights, p) ==> HasGateUp(weights, p)
  }

  predicate CountsDiffer(gateUp: Tensor, down: Tensor) {
    gateUp.Stack? && down.Stack? && |gateUp.items| != |down.items|
  }

  /** A shape is asked for an axis it does not have; unequal counts are noticed before the row axis. */
  predicate TooFewAxes(gateUp: Tensor, down: Tensor) {
    gateUp.Scalar? || down.Scalar? || (|gateUp.items| == |down.items| && gateUp.inner == [])
  }

  /** What each error reports. */
  ghost predicate ErrorRight(weights: Weights, error: Error)
  {
    match error
    case MissingDown(p) => HasGateUp(weights, p) && !HasDown(weights, p)
    case CountMismatch(p) =>
      && HasGateUp(weights, p) && HasDown(weights, p)
      && CountsDiffer(weights[p + GATE_UP], weights[p + DOWN])
    case IndexError(p) =>
      && HasGateUp(weights, p) && HasDown(weights, p)
      && TooFewAxes(weights[p + GATE_UP], weights[p + DOWN])
    case Orphaned => exists p :: HasDown(weights, p) && !HasGateUp(weights, p)
  }

  /** The loop over the fused pairs, in any order. */
  method UnfuseAll(weights: Weights, others: Weights, gateUps: map<string, Tensor>, downs: map<string, Tensor>)
      returns (result: Result<Weights, Error>)
    requires AreTensors(weights) && Filed(gateUps, weights, GATE_UP) && Filed(downs, weights, DOWN)
    ensures result.Ok? ==> Progress(weights, others, result.value, {})
    ensures result.Err? ==> ErrorRight(weights, result.error)
  {
    var split, todo := others, gateUps.Keys;
    while todo != {}
      invariant todo <= gateUps.Keys
      invariant Progress(weights, others, split, todo)
      decreases |todo|
    {
      var prefix :| prefix in todo;
      if prefix !in downs { return Err(MissingDown(prefix)); }
      var gateUp, down := gateUps[prefix], downs[prefix];
      if gateUp.Scalar? || down.Scalar? { return Err(IndexError(prefix)); }
      if |down.items| != |gateUp.items| { return Err(CountMismatch(prefix)); }
      if gateUp.inner == [] { return Err(IndexError(prefix)); }
      ghost var before := split;
      split := UnfuseOne(split, prefix, gateUp, down);
      ProgressNext(weights, others, before, split, todo, prefix);
      todo := todo - {prefix};
    }
    result := Ok(split);
  }

  /** Without any fused gate_up_proj the weights come back as they are. */
  method Unfuse(weights: Weights) returns (result: Result<Weights, Error>)
    requires AreTensors(weights)
    ensures (forall p :: !HasGateUp(weights, p)) ==> result == Ok(weights)
    ensures (exists p :: HasGateUp(weights, p)) ==> (result.Ok? <==> AllPaired(weights))
    ensures (exists p :: HasGateUp(weights, p)) && result.Ok? ==> Unfused(weights, result.value)
    ensures result.Err? ==> ErrorRight(weights, result.error)
  {
    var others, gateUps, downs := FileTensors(weights);
    if gateUps == map[] { return Ok(weights); }
    assert exists p :: HasGateUp(weights, p) by {
      var p :| p in gateUps;
      assert HasGateUp(weights, p);
    }
    result := UnfuseAll(weights, others, gateUps, downs);
    if result.Err? {
      ErrorMeansUnpaired(weights, result.error);
      return;
    }
    if exists p :: p in downs && p !in gateUps {
      assert ErrorRight(weights, Orphaned) by {
        var p :| p in downs && p !in gateUps;
        assert HasDown(weights, p) && !HasGateUp(weights, p);
      }
      ErrorMeansUnpaired(weights, Orphaned);
      return Err(Orphaned);
    }
    AllDone(weights, others, result.value);
  }

  lemma ErrorMeansUnpaired(weights: Weights, error: Error)
    requires ErrorRight(weights, error)
    ensures !AllPaired(weights)
  {}

  lemma AllNamed(weights: Weights, key: string)
    ensures NamedOutside(weights, {}, key) <==> OutputName(weights, key)
  {
    hide NamedFor;
    if OutputName(weights, key) {
      var p :| NamedFor(weights, p, key);
      assert p !in {};
    }
  }

  lemma AllDone(weights: Weights, others: Weights, result: Weights)
    requires Progress(weights, others, result, {})
    requires Others(weights, others)
    requires forall p :: HasDown(weights, p) ==> HasGateUp(weights, p)
    ensures Unfused(weights, result) && AllPaired(weights)
  {
    DoneIsWrittenOut(weights, result);
    hide NamedFor, PrefixDone, IsOther, WrittenOut;
    forall key ensures NamedOutside(weights, {}, key) <==> OutputName(weights, key) { AllNamed(weights, key); }
    assert Unfused(weights, result) by { hide NamedOutside, OutputName, HasGateUp; }
    assert AllPaired(weights) by { DonePaired(weights, result); }
  }

  lemma DoneIsWrittenOut(weights: Weights, result: Weights)
    requires forall p :: HasGateUp(weights, p) ==> PrefixDone(weights, result, p)
    ensures WrittenOut(weights, result)
  {
    forall q | q != "" && q + ".experts.gate_up_proj" in weights
      ensures q + ".experts.down_proj" in weights
      ensures ExpertsAt(result, q + ".experts", weights[q + ".experts.gate_up_proj"], weights[q + ".experts.down_proj"])
    {
      FusedNames(q);
      assert PrefixDone(weights, result, q + ".experts");
      hide ExpertsAt, Split;
      SplitIsExpertsAt(result, q + ".experts", weights[q + ".experts.gate_up_proj"], weights[q + ".experts.down_proj"]);
    }
  }

  lemma DonePaired(weights: Weights, result: Weights)
    requires forall p :: HasGateUp(weights, p) ==> PrefixDone(weights, result, p)
    requires forall p :: HasDown(weights, p) ==> HasGateUp(weights, p)
    ensures AllPaired(weights)
  {
    hide Matching;
  }

  // ----- nothing is lost -----

  /** Every part of every expert of the prefix is there. */
  ghost predicate AllParts(result: Weights, prefix: string, experts: nat) {
    forall i: nat :: i < experts ==>
      var name := prefix + "." + Str(i);
      && name + ".gate_proj.weight" in result && result[name + ".gate_proj.weight"].Stack?
      && name + ".up_proj.weight" in result && result[name + ".up_proj.weight"].Stack?
      && name + ".down_proj.weight" in result
  }

  /** Gate and up rows of each expert joined again, below an axis of experts. */
  ghost function Rejoined(result: Weights, prefix: string, experts: nat, inner: seq<nat>): Tensor
    requires AllParts(result, prefix, experts)
  {
    Stack(inner, seq(experts, i requires 0 <= i < experts =>
      Joined(result[prefix + "." + Str(i) + ".gate_proj.weight"], result[prefix + "." + Str(i) + ".up_proj.weight"])))
  }

  /** Two tensors joined along the first axis. */
  function Joined(t: Tensor, u: Tensor): Tensor
    requires t.Stack? && u.Stack?
  {
    Stack(t.inner, t.items + u.items)
  }

  ghost function RejoinedDown(result: Weights, prefix: string, experts: nat, inner: seq<nat>): Tensor
    requires AllParts(result, prefix, experts)
  {
    Stack(inner, seq(experts, i requires 0 <= i < experts => result[prefix + "." + Str(i) + ".down_proj.weight"]))
  }

  /** Joining the experts rebuilds both fused tensors. */
  lemma RejoinRebuilds(weights: Weights, result: Weights, prefix: string)
    requires Unfused(weights, result) && HasGateUp(weights, prefix)
    ensures prefix + DOWN in weights && weights[prefix + GATE_UP].Stack? && weights[prefix + DOWN].Stack?
    ensures var gateUp, down := weights[prefix + GATE_UP], weights[prefix + DOWN];
      && AllParts(result, prefix, |gateUp.items|)
      && Rejoined(result, prefix, |gateUp.items|, gateUp.inner) == gateUp
      && RejoinedDown(result, prefix, |gateUp.items|, down.inner) == down
  {
    assert PrefixDone(weights, result, prefix);
    RejoinPair(result, prefix, weights[prefix + GATE_UP], weights[prefix + DOWN]);
  }

  lemma RejoinPair(result: Weights, prefix: string, gateUp: Tensor, down: Tensor)
    requires Pair(gateUp, down) && Split(result, prefix, gateUp, down, |gateUp.items|)
    ensures AllParts(result, prefix, |gateUp.items|)
    ensures Rejoined(result, prefix, |gateUp.items|, gateUp.inner) == gateUp
    ensures RejoinedDown(result, prefix, |gateUp.items|, down.inner) == down
  {
    SplitIsExpertsAt(result, prefix, gateUp, down);
    hide Split, Slice, Str;
    forall i: nat | i < |gateUp.items| ensures ExpertAt(result, prefix + "." + Str(i), gateUp.items[i], down.items[i]) {}
    var rejoined := Rejoined(result, prefix, |gateUp.items|, gateUp.inner);
    forall i: nat | i < |gateUp.items| ensures rejoined.items[i] == gateUp.items[i] { HalvesJoin(gateUp.items[i]); }
    assert rejoined.items == gateUp.items;
    assert RejoinedDown(result, prefix, |gateUp.items|, down.inner).items == down.items;
  }

  lemma HalvesJoin(t: Tensor)
    requires t.Stack?
    ensures Joined(Stack(t.inner, t.items[..|t.items| / 2]), Stack(t.inner, t.items[|t.items| / 2..])) == t
  {}

  // ----- frozen weights -----

  const FROZEN := {"embed_tokens.weight", "lm_head.weight"}

  function FilterFrozen(weights: Weights): Weights { map key | key in weights && key !in FROZEN :: weights[key] }

  /** Exactly the embeddings and the output head are filtered out. */
  lemma FrozenFiltered(weights: Weights, key: string)
    ensures key in FilterFrozen(weights) <==> key in weights && key != "embed_tokens.weight" && key != "lm_head.weight"
    ensures key in FilterFrozen(weights) ==> FilterFrozen(weights)[key] == weights[key]
  {}

  /** Frozen keys stay out: no expert gets the name of one. */
  lemma FrozenStayOut(weights: Weights, result: Weights, key: string)
    requires Unfused(FilterFrozen(weights), result)
    requires key == "embed_tokens.weight" || key == "lm_head.weight"
    ensures key !in result
  {
    forall p, i: nat, part: Part ensures Name(p, i, part) != key { NameIsNotFrozen(p, i, part, key); }
  }

  lemma NameIsNotFrozen(p: string, i: nat, part: Part, key: string)
    requires key in FROZEN
    ensures Name(p, i, part) != key
  {
    var s := Name(p, i, part);
    assert s[|s| - 8] == 'j';
    assert key[|key| - 8] != 'j';
  }
}
