/** The text forms of CPU sets: affinity masks and kernel CPU lists. */
module CpuText {
  import opened Common

  // ----- str.split on one separator, and its inverse -----

  function Split(s: string, sep: char): (parts: seq<string>)
    ensures parts != []
  {
    if s == [] then [""]
    else
      var parts, last := Split(s[..|s| - 1], sep), s[|s| - 1];
      if last == sep then parts + [""]
      else parts[..|parts| - 1] + [parts[|parts| - 1] + [last]]
  }

  function Join(parts: seq<string>, sep: char): string
    requires parts != []
  {
    if |parts| == 1 then parts[0] else Join(parts[..|parts| - 1], sep) + [sep] + parts[|parts| - 1]
  }

  lemma {:induction false} SplitPlain(s: string, sep: char)
    requires sep !in s
    ensures Split(s, sep) == [s]
  {
    if s != [] {
      SplitPlain(s[..|s| - 1], sep);
      assert s == s[..|s| - 1] + [s[|s| - 1]];
    }
  }

  lemma {:induction false} SplitAppend(a: string, b: string, sep: char)
    requires sep !in b
    ensures Split(a + [sep] + b, sep) == Split(a, sep) + [b]
  {
    var whole := a + [sep] + b;
    if b == [] {
      assert whole[..|whole| - 1] == a;
    } else {
      var front, last := b[..|b| - 1], b[|b| - 1];
      SplitAppend(a, front, sep);
      assert last in b;
      assert whole[..|whole| - 1] == a + [sep] + front;
      assert b == front + [last];
    }
  }

  lemma {:induction false} SplitJoined(parts: seq<string>, sep: char)
    requires parts != [] && forall part :: part in parts ==> sep !in part
    ensures Split(Join(parts, sep), sep) == parts
  {
    var front, last := parts[..|parts| - 1], parts[|parts| - 1];
    assert parts == front + [last];
    assert last in parts;
    if |parts| == 1 {
      SplitPlain(last, sep);
    } else {
      SplitJoined(front, sep);
      SplitAppend(Join(front, sep), last, sep);
    }
  }

  // ----- hexadecimal -----

  const HEX_DIGITS := "0123456789abcdef"

  function HexDigit(c: char): Option<nat> {
    if '0' <= c <= '9' then Some(c as int - '0' as int)
    else if 'a' <= c <= 'f' then Some(c as int - 'a' as int + 10)
    else None
  }

  function HexValue(s: string): Option<nat> {
    if s == [] then Some(0)
    else
      var front, last := HexValue(s[..|s| - 1]), HexDigit(s[|s| - 1]);
      if front.None? || last.None? then None else Some(16 * front.value + last.value)
  }

  /** Python's f"{n:x}". */
  function Hex(n: nat): string {
    if n < 16 then [HEX_DIGITS[n]] else Hex(n / 16) + [HEX_DIGITS[n % 16]]
  }

  function Zeros(n: nat): string { seq(n, i => '0') }

  /** Python's f"{n:08x}". */
  function Hex08(n: nat): string { Zeros(if |Hex(n)| < 8 then 8 - |Hex(n)| else 0) + Hex(n) }

  function Pow2(n: nat): (p: nat)
    ensures p > 0
  {
    if n == 0 then 1 else 2 * Pow2(n - 1)
  }

  lemma {:induction false} Pow2Add(m: nat, n: nat)
    ensures Pow2(m + n) == Pow2(m) * Pow2(n)
  {
    if n > 0 {
      Pow2Add(m, n - 1);
    }
  }

  lemma HexDigitFacts(d: nat)
    requires d < 16
    ensures HexDigit(HEX_DIGITS[d]) == Some(d) && HEX_DIGITS[d] != ','
  {}

  lemma {:induction false} HexFacts(n: nat, width: nat)
    requires width > 0 && n < Pow2(4 * width)
    ensures HexValue(Hex(n)) == Some(n) && |Hex(n)| <= width && ',' !in Hex(n)
  {
    if n < 16 {
      HexDigitFacts(n);
    } else {
      assert Pow2(4) == 16;
      if width > 1 {
        Pow2Add(4 * (width - 1), 4);
        HexFacts(n / 16, width - 1);
      }
      HexDigitFacts(n % 16);
      assert Hex(n)[..|Hex(n)| - 1] == Hex(n / 16);
    }
  }

  lemma {:induction false} ZerosInFront(k: nat, s: string)
    ensures HexValue(Zeros(k) + s) == HexValue(s)
  {
    var whole := Zeros(k) + s;
    if s != [] {
      ZerosInFront(k, s[..|s| - 1]);
      assert whole[..|whole| - 1] == Zeros(k) + s[..|s| - 1];
    } else if k > 0 {
      ZerosInFront(k - 1, s);
      assert whole[..|whole| - 1] == Zeros(k - 1) + s;
    }
  }

  lemma Hex08Facts(n: nat)
    requires n < Pow2(32)
    ensures |Hex08(n)| == 8 && HexValue(Hex08(n)) == Some(n) && ',' !in Hex08(n)
  {
    HexFacts(n, 8);
    ZerosInFront(8 - |Hex(n)|, Hex(n));
  }

  // ----- cpu_to_mask -----

  const MASK_BIT: nat := 32
  const GROUP: nat := 0x1_0000_0000

  lemma GroupIsPow2()
    ensures Pow2(MASK_BIT) == GROUP
  {
    assert Pow2(8) == 256;
    Pow2Add(8, 8);
    Pow2Add(16, 16);
  }

  /** The number that comma-separated 32-bit groups stand for, most significant first. */
  function ReadGroups(groups: seq<string>): Option<nat> {
    if groups == [] then Some(0)
    else
      var high, low := ReadGroups(groups[..|groups| - 1]), HexValue(groups[|groups| - 1]);
      if high.None? || low.None? then None else Some(high.value * GROUP + low.value)
  }

  /** The groups have eight digits each and read as 2 to the `exponent`. */
  ghost predicate Stands(groups: seq<string>, exponent: nat) {
    && groups != []
    && (forall group :: group in groups ==> |group| == MASK_BIT / 4 && ',' !in group)
    && ReadGroups(groups) == Some(Pow2(exponent))
  }

  lemma {:induction false} Pow2Less(m: nat, n: nat)
    requires m < n
    ensures Pow2(m) < Pow2(n)
  {
    if m + 1 < n { Pow2Less(m, n - 1); }
  }

  lemma OnlyGroup(group: string, exponent: nat)
    requires |group| == MASK_BIT / 4 && ',' !in group && HexValue(group) == Some(Pow2(exponent))
    ensures Stands([group], exponent)
  {
    assert [group][..0] == [];
    assert ReadGroups([group][..0]) == Some(0);
  }

  /** The group that holds the bit. */
  method FirstGroup(bit: nat) returns (group: string)
    requires bit < MASK_BIT
    ensures Stands([group], bit)
  {
    Pow2Less(bit, MASK_BIT);
    Hex08Facts(Pow2(bit));
    group := Hex08(Pow2(bit));
    OnlyGroup(group, bit);
  }

  lemma AppendZeros(groups: seq<string>, exponent: nat, zeros: string)
    requires Stands(groups, exponent) && |zeros| == MASK_BIT / 4 && ',' !in zeros && HexValue(zeros) == Some(0)
    ensures Stands(groups + [zeros], exponent + MASK_BIT)
    ensures Join(groups + [zeros], ',') == Join(groups, ',') + "," + zeros
  {
    ShiftGroup(exponent);
    var longer := groups + [zeros];
    assert longer[..|longer| - 1] == groups;
  }

  lemma ShiftGroup(exponent: nat)
    ensures Pow2(exponent + MASK_BIT) == Pow2(exponent) * GROUP
  {
    GroupIsPow2();
    Pow2Add(exponent, MASK_BIT);
  }

  method ZeroGroup() returns (zeros: string)
    ensures |zeros| == MASK_BIT / 4 && ',' !in zeros && HexValue(zeros) == Some(0)
  {
    zeros := Zeros(MASK_BIT / 4);
    ZerosInFront(MASK_BIT / 4, "");
    assert zeros + "" == zeros;
  }

  lemma SplitStands(groups: seq<string>, exponent: nat)
    requires Stands(groups, exponent)
    ensures Split(Join(groups, ','), ',') == groups
  {
    SplitJoined(groups, ',');
  }

  /** Read back, the mask is 2 to the power of the CPU, in groups of eight digits. */
  method CpuToMask(cpu: nat) returns (mask: string)
    ensures Stands(Split(mask, ','), cpu) && |Split(mask, ',')| == cpu / MASK_BIT + 1
  {
    var group, bit := cpu / MASK_BIT, cpu % MASK_BIT;
    mask := FirstGroup(bit);
    ghost var groups, exponent := [mask], bit;
    for k := 0 to group
      invariant exponent == bit + MASK_BIT * k && |groups| == k + 1
      invariant Stands(groups, exponent) && mask == Join(groups, ',')
    {
      var zeros := ZeroGroup();
      AppendZeros(groups, exponent, zeros);
      mask := mask + "," + zeros;
      groups, exponent := groups + [zeros], exponent + MASK_BIT;
    }
    assert exponent == cpu;
    SplitStands(groups, cpu);
  }

  // ----- expand_cpu_list -----

  /** One entry, "a" or "a-b"; None stands for the ValueError. */
  function ExpandPart(part: string): Option<seq<int>> {
    if '-' in part then
      var ends := Split(part, '-');
      if |ends| != 2 || ParseInt(ends[0]).None? || ParseInt(ends[1]).None? then None
      else Some(Range(ParseInt(ends[0]).value, ParseInt(ends[1]).value + 1))
    else if ParseInt(part).None? then None
    else Some([ParseInt(part).value])
  }

  function ExpandParts(parts: seq<string>): Option<seq<int>> {
    if parts == [] then Some([])
    else
      var front, last := ExpandParts(parts[..|parts| - 1]), ExpandPart(parts[|parts| - 1]);
      if front.None? || last.None? then None else Some(front.value + last.value)
  }

  lemma {:induction false} ExpandPartsFails(parts: seq<string>, i: nat)
    requires i < |parts| && ExpandPart(parts[i]).None?
    ensures ExpandParts(parts).None?
  {
    if i < |parts| - 1 { ExpandPartsFails(parts[..|parts| - 1], i); }
  }

  method ExpandCpuList(text: string) returns (cpus: Option<seq<int>>)
    ensures cpus == ExpandParts(Split(text, ','))
  {
    var allowed: seq<int>, parts := [], Split(text, ',');
    for i := 0 to |parts|
      invariant ExpandParts(parts[..i]) == Some(allowed)
    {
      var part := parts[i];
      assert parts[..i + 1][..i] == parts[..i];
      if '-' in part {
        var ends := Split(part, '-');
        if |ends| != 2 { ExpandPartsFails(parts, i); return None; }
        var start, end := ParseInt(ends[0]), ParseInt(ends[1]);
        if start.None? || end.None? { ExpandPartsFails(parts, i); return None; }
        allowed := allowed + Range(start.value, end.value + 1);
      } else {
        var cpu := ParseInt(part);
        if cpu.None? { ExpandPartsFails(parts, i); return None; }
        allowed := allowed + [cpu.value];
      }
    }
    assert parts[..|parts|] == parts;
    cpus := Some(allowed);
  }

  // ----- printing a CPU list as ranges -----

  /** Lengthens the last run if the id continues it, or starts a new one. */
  function AddRun(runs: seq<(nat, nat)>, id: nat): seq<(nat, nat)> {
    if runs != [] && runs[|runs| - 1].1 + 1 == id
    then runs[..|runs| - 1] + [(runs[|runs| - 1].0, id)]
    else runs + [(id, id)]
  }

  /** The runs of consecutive ids, first and last of each. */
  function Runs(cpus: seq<nat>): seq<(nat, nat)> {
    if cpus == [] then [] else AddRun(Runs(cpus[..|cpus| - 1]), cpus[|cpus| - 1])
  }

  function PrintRun(run: (nat, nat)): string {
    if run.0 == run.1 then Str(run.0) else Str(run.0) + "-" + Str(run.1)
  }

  function PrintRuns(runs: seq<(nat, nat)>): (parts: seq<string>)
    ensures |parts| == |runs|
  {
    if runs == [] then [] else PrintRuns(runs[..|runs| - 1]) + [PrintRun(runs[|runs| - 1])]
  }

  function PrintCpus(cpus: seq<nat>): string
    requires cpus != []
  {
    Join(PrintRuns(Runs(cpus)), ',')
  }

  lemma PlainNumber(n: nat)
    ensures '-' !in Str(n) && ',' !in Str(n) && ParseInt(Str(n)) == Some(n)
  {
    StrHasDigits(n);
    ParseIntStr(n);
  }

  lemma ExpandPair(start: nat, end: nat)
    ensures var part := Str(start) + "-" + Str(end);
      ',' !in part && ExpandPart(part) == Some(Range(start, end + 1))
  {
    PlainNumber(start);
    PlainNumber(end);
    ExpandEnds(Str(start), Str(end));
    hide Str, ExpandPart, ParseInt;
  }

  lemma ExpandEnds(a: string, b: string)
    requires '-' !in a && '-' !in b && ParseInt(a).Some? && ParseInt(b).Some?
    requires ',' !in a && ',' !in b
    ensures ',' !in a + "-" + b
    ensures ExpandPart(a + "-" + b) == Some(Range(ParseInt(a).value, ParseInt(b).value + 1))
  {
    hide ParseInt, Range, Strip;
    SplitPlain(a, '-');
    SplitAppend(a, b, '-');
    assert a + "-" + b == a + ['-'] + b;
    assert (a + "-" + b)[|a|] == '-';
  }

  lemma ExpandRun(run: (nat, nat))
    requires run.0 <= run.1
    ensures ',' !in PrintRun(run)
    ensures ExpandPart(PrintRun(run)) == Some(Range(run.0, run.1 + 1))
  {
    hide Str, ParseInt, Split;
    if run.0 < run.1 {
      ExpandPair(run.0, run.1);
    } else {
      PlainNumber(run.0);
      assert Range(run.0, run.1 + 1) == [run.0];
    }
  }

  ghost predicate OrderedRuns(runs: seq<(nat, nat)>) {
    forall i :: 0 <= i < |runs| ==> runs[i].0 <= runs[i].1
  }

  function Flatten(runs: seq<(nat, nat)>): seq<int> {
    if runs == [] then [] else Flatten(runs[..|runs| - 1]) + Range(runs[|runs| - 1].0, runs[|runs| - 1].1 + 1)
  }

  lemma FlattenAppend(runs: seq<(nat, nat)>, run: (nat, nat))
    ensures Flatten(runs + [run]) == Flatten(runs) + Range(run.0, run.1 + 1)
  {
    assert (runs + [run])[..|runs|] == runs;
  }

  lemma NewRun(runs: seq<(nat, nat)>, last: nat)
    requires OrderedRuns(runs)
    ensures OrderedRuns(runs + [(last, last)]) && Flatten(runs + [(last, last)]) == Flatten(runs) + [last]
  {
    FlattenAppend(runs, (last, last));
    assert Range(last, last + 1) == [last];
  }

  lemma AddRunFlattens(runs: seq<(nat, nat)>, id: nat)
    requires OrderedRuns(runs)
    ensures OrderedRuns(AddRun(runs, id)) && Flatten(AddRun(runs, id)) == Flatten(runs) + [id]
    ensures AddRun(runs, id)[|AddRun(runs, id)| - 1].1 == id
  {
    if runs != [] && runs[|runs| - 1].1 + 1 == id {
      ExtendRun(runs, id);
    } else {
      NewRun(runs, id);
    }
  }

  lemma {:induction false} RunsFlatten(cpus: seq<nat>)
    ensures OrderedRuns(Runs(cpus)) && Flatten(Runs(cpus)) == cpus
    ensures cpus != [] ==> Runs(cpus) != [] && Runs(cpus)[|Runs(cpus)| - 1].1 == cpus[|cpus| - 1]
  {
    if cpus != [] {
      hide Flatten, AddRun;
      var front, last := cpus[..|cpus| - 1], cpus[|cpus| - 1];
      RunsFlatten(front);
      AddRunFlattens(Runs(front), last);
      assert cpus == front + [last];
    }
  }

  lemma ExtendRun(runs: seq<(nat, nat)>, last: nat)
    requires runs != [] && OrderedRuns(runs) && runs[|runs| - 1].1 + 1 == last
    ensures var longer := runs[..|runs| - 1] + [(runs[|runs| - 1].0, last)];
      OrderedRuns(longer) && Flatten(longer) == Flatten(runs) + [last]
  {
    var front, run := runs[..|runs| - 1], runs[|runs| - 1];
    var before, ids := Flatten(front), Range(run.0, last);
    FlattenAppend(front, (run.0, last));
    RangeAppend(run.0, last);
    hide Flatten, Range;
    assert before + (ids + [last]) == before + ids + [last];
  }

  lemma {:induction false} ExpandPrinted(runs: seq<(nat, nat)>)
    requires OrderedRuns(runs)
    ensures ExpandParts(PrintRuns(runs)) == Some(Flatten(runs))
  {
    if runs != [] {
      var front, run := runs[..|runs| - 1], runs[|runs| - 1];
      ExpandPrinted(front);
      ExpandRun(run);
      assert PrintRuns(runs) == PrintRuns(front) + [PrintRun(run)];
      assert Flatten(runs) == Flatten(front) + Range(run.0, run.1 + 1);
      hide ExpandPart, ExpandParts, PrintRun, PrintRuns, Range, Flatten, OrderedRuns;
      ExpandOneMore(PrintRuns(front), PrintRun(run));
    }
  }

  lemma {:induction false} PrintedPlain(runs: seq<(nat, nat)>, part: string)
    requires OrderedRuns(runs) && part in PrintRuns(runs)
    ensures ',' !in part
  {
    var front, run := runs[..|runs| - 1], runs[|runs| - 1];
    ExpandRun(run);
    hide PrintRun;
    if part != PrintRun(run) { PrintedPlain(front, part); }
  }

  lemma ExpandOneMore(parts: seq<string>, part: string)
    requires ExpandParts(parts).Some? && ExpandPart(part).Some?
    ensures ExpandParts(parts + [part]) == Some(ExpandParts(parts).value + ExpandPart(part).value)
  {
    hide ExpandPart;
    assert (parts + [part])[..|parts|] == parts;
  }

  /** Reading the printed form gives the list back. */
  lemma ExpandUndoesPrint(cpus: seq<nat>)
    requires cpus != []
    ensures ExpandParts(Split(PrintCpus(cpus), ',')) == Some(cpus)
  {
    RunsFlatten(cpus);
    ExpandPrinted(Runs(cpus));
    forall part | part in PrintRuns(Runs(cpus)) ensures ',' !in part { PrintedPlain(Runs(cpus), part); }
    hide PrintRuns, ExpandParts, OrderedRuns;
    SplitJoined(PrintRuns(Runs(cpus)), ',');
  }

  lemma LastRun(cpus: seq<nat>)
    ensures cpus != [] ==> Runs(cpus) != [] && Runs(cpus)[|Runs(cpus)| - 1].1 == cpus[|cpus| - 1]
  {
    RunsFlatten(cpus);
  }

  /** For an ascending list the printed ranges are maximal: between two of them an id is
      missing. */
  lemma {:induction false} RunsAreMaximal(cpus: seq<nat>)
    requires forall i, j :: 0 <= i < j < |cpus| ==> cpus[i] < cpus[j]
    ensures forall i :: 0 <= i < |Runs(cpus)| - 1 ==> Runs(cpus)[i].1 + 1 < Runs(cpus)[i + 1].0
  {
    if cpus != [] {
      var front := cpus[..|cpus| - 1];
      RunsAreMaximal(front);
      LastRun(front);
      LastRun(cpus);
      if front != [] { assert front[|front| - 1] < cpus[|cpus| - 1]; }
    }
  }
}
