/**
 * The report printer: numbers the instructions of a function in program
 * order, renders the function, its blocks and instructions (with source
 * variable and dependencies) as an indented text appended to the module's
 * `.ll.cm` file, and prints summary counts.
 */
module Printer {
  import opened Wrappers
  import opened IR
  import opened Text
  import opened Dependence
  import opened Variables

  // ---------------------------------------------------------------------------
  // Identifiers and small formatters
  // ---------------------------------------------------------------------------

  /** `prefix.descriptor`; the descriptor is what follows the prefix and its '.'. */
  function FormatIdentifier(prefix: string, descriptor: string): (id: string)
    ensures Descriptor(prefix, id) == Some(descriptor)
  {
    var id := prefix + "." + descriptor;
    assert id[..|prefix|] == prefix && id[|prefix| + 1..] == descriptor;
    id
  }

  /** Position of the first `c` in `s`, or `|s|` when there is none. */
  function FirstIndexOf(s: string, c: char): nat
    decreases |s|
  {
    if s == "" then 0 else if s[0] == c then 0 else 1 + FirstIndexOf(s[1..], c)
  }

  /** The first separator of `a + [c] + b` is the one after `a` when `a` does not contain `c`. */
  lemma {:induction false} FirstIndexOfJoin(a: string, b: string, c: char)
    requires forall k :: 0 <= k < |a| ==> a[k] != c
    ensures FirstIndexOf(a + [c] + b, c) == |a|
    decreases |a|
  {
    if a != "" {
      assert (a + [c] + b)[1..] == a[1..] + [c] + b;
      FirstIndexOfJoin(a[1..], b, c);
    }
  }

  /** Text joined around a separator that the left part does not contain splits back uniquely. */
  lemma SeparatorSplit(a1: string, b1: string, a2: string, b2: string, c: char)
    requires forall k :: 0 <= k < |a1| ==> a1[k] != c
    requires forall k :: 0 <= k < |a2| ==> a2[k] != c
    requires a1 + [c] + b1 == a2 + [c] + b2
    ensures a1 == a2 && b1 == b2
  {
    var s := a1 + [c] + b1;
    FirstIndexOfJoin(a1, b1, c);
    FirstIndexOfJoin(a2, b2, c);
    assert a1 == s[..|a1|] == a2;
    assert b1 == s[|a1| + 1..] == b2;
  }

  /**
   * For prefixes without '.', an identifier determines both its prefix and
   * its descriptor.
   */
  lemma FormatIdentifierInjective(p1: string, d1: string, p2: string, d2: string)
    requires '.' !in p1 && '.' !in p2
    requires FormatIdentifier(p1, d1) == FormatIdentifier(p2, d2)
    ensures p1 == p2 && d1 == d2
  {
    assert FormatIdentifier(p1, d1) == p1 + ['.'] + d1;
    assert FormatIdentifier(p2, d2) == p2 + ['.'] + d2;
    SeparatorSplit(p1, d1, p2, d2, '.');
  }

  /** The descriptor of an identifier with the given prefix, if it has that prefix. */
  function Descriptor(prefix: string, id: string): Option<string> {
    if |id| > |prefix| && id[..|prefix|] == prefix && id[|prefix|] == '.' then Some(id[|prefix| + 1..]) else None
  }

  function FunctionIdentifier(f: Function): string {
    FormatIdentifier("function", f.name)
  }

  function BlockIdentifier(b: Block): string {
    FormatIdentifier("block", b.name)
  }

  /** Two functions share an identifier exactly when they share a name. */
  lemma FunctionIdentifierNames(f: Function, g: Function)
    ensures FunctionIdentifier(f) == FunctionIdentifier(g) <==> f.name == g.name
  {
    if FunctionIdentifier(f) == FunctionIdentifier(g) {
      FormatIdentifierInjective("function", f.name, "function", g.name);
    }
  }

  /** Two blocks share an identifier exactly when they share a name. */
  lemma BlockIdentifierNames(b: Block, c: Block)
    ensures BlockIdentifier(b) == BlockIdentifier(c) <==> b.name == c.name
  {
    if BlockIdentifier(b) == BlockIdentifier(c) {
      FormatIdentifierInjective("block", b.name, "block", c.name);
    }
  }

  /** Function, block and instruction identifiers never coincide: they start with different prefixes. */
  lemma IdentifierKindsDistinct(f: Function, b: Block, insts: seq<Instruction>, i: Instruction)
    requires i in insts
    ensures FunctionIdentifier(f) != BlockIdentifier(b)
    ensures FunctionIdentifier(f) != InstructionIdentifier(insts, i)
    ensures BlockIdentifier(b) != InstructionIdentifier(insts, i)
  {
    assert FunctionIdentifier(f)[0] == 'f';
    assert BlockIdentifier(b)[0] == 'b';
    assert InstructionIdentifier(insts, i)[0] == 'i';
  }

  /**
   * The position of the first occurrence of `i` in `insts`, as `std::find`
   * and `std::distance` compute it.
   */
  function IndexOf(insts: seq<Instruction>, i: Instruction): (k: nat)
    requires i in insts
    ensures k < |insts| && insts[k] == i && i !in insts[..k]
    decreases |insts|
  {
    if insts[0] == i then 0
    else
      assert i in insts[1..];
      1 + IndexOf(insts[1..], i)
  }

  /** `instruction.<k>`, where k is the position of `i` in the enumeration. */
  function InstructionIdentifier(insts: seq<Instruction>, i: Instruction): string
    requires i in insts
  {
    FormatIdentifier("instruction", NatToString(IndexOf(insts, i)))
  }

  /**
   * When no instruction object occurs twice in the enumeration, the k-th
   * enumerated instruction is `instruction.k`.
   */
  lemma EnumeratedInstructionIdentifier(insts: seq<Instruction>, k: nat)
    requires DistinctIds(insts) && k < |insts|
    ensures InstructionIdentifier(insts, insts[k]) == "instruction." + NatToString(k)
  {
    var j := IndexOf(insts, insts[k]);
    assert forall t :: 0 <= t < j ==> insts[..j][t] == insts[t];
    assert j == k;
  }

  /** In a well-formed function, the identifiers number the enumerated instructions 0, 1, 2, ... in program order. */
  lemma WellFormedInstructionIdentifiers(f: Function)
    requires WellFormed(f)
    ensures var insts := Instructions(f.blocks);
            forall k :: 0 <= k < |insts| ==> InstructionIdentifier(insts, insts[k]) == "instruction." + NatToString(k)
  {
    var insts := Instructions(f.blocks);
    forall k | 0 <= k < |insts|
      ensures InstructionIdentifier(insts, insts[k]) == "instruction." + NatToString(k)
    {
      EnumeratedInstructionIdentifier(insts, k);
    }
  }

  /** Reads the position back from an instruction identifier. */
  function ParseInstructionIdentifier(id: string): Option<nat> {
    match Descriptor("instruction", id)
    case None => None
    case Some(d) => if IsDigits(d) then Some(ParseDigits(d)) else None
  }

  /**
   * An instruction identifier names the position of the instruction in the
   * enumeration: reading it back gives an index whose entry is `i`.
   */
  lemma InstructionIdentifierRoundTrip(insts: seq<Instruction>, i: Instruction)
    requires i in insts
    ensures var k := ParseInstructionIdentifier(InstructionIdentifier(insts, i));
            k.Some? && k.value < |insts| && insts[k.value] == i
  {
    var k := IndexOf(insts, i);
    var d := NatToString(k);
    var id := InstructionIdentifier(insts, i);
    assert id == "instruction" + "." + d;
    assert id[..|"instruction"|] == "instruction";
    assert Descriptor("instruction", id) == Some(d);
    ParseNatToString(k);
  }

  /** Distinct instructions of the enumeration get distinct identifiers. */
  lemma InstructionIdentifierInjective(insts: seq<Instruction>, a: Instruction, b: Instruction)
    requires a in insts && b in insts
    requires InstructionIdentifier(insts, a) == InstructionIdentifier(insts, b)
    ensures a == b
  {
    FormatIdentifierInjective("instruction", NatToString(IndexOf(insts, a)), "instruction", NatToString(IndexOf(insts, b)));
    NatToStringInjective(IndexOf(insts, a), IndexOf(insts, b));
  }

  /**
   * The read/write direction code `<after>A<before>`: `after` describes the
   * dependent instruction (R if it may read, else W if it may write, else
   * U), `before` the instruction depended on (W if it may write, else R if
   * it may read, else U).
   */
  function FormatDepType(inst: Instruction, depInst: Instruction): (code: string)
    ensures |code| == 3 && code[1] == 'A'
    ensures code[0] == 'R' <==> inst.mayRead
    ensures code[0] == 'W' <==> !inst.mayRead && inst.mayWrite
    ensures code[0] == 'U' <==> !inst.mayRead && !inst.mayWrite
    ensures code[2] == 'W' <==> depInst.mayWrite
    ensures code[2] == 'R' <==> !depInst.mayWrite && depInst.mayRead
    ensures code[2] == 'U' <==> !depInst.mayWrite && !depInst.mayRead
  {
    var after := if inst.mayRead then "R" else if inst.mayWrite then "W" else "U";
    var before := if depInst.mayWrite then "W" else if depInst.mayRead then "R" else "U";
    after + "A" + before
  }

  /** A load depending on a store is reported as read-after-write. */
  lemma LoadAfterStoreIsRAW(load: Instruction, store: Instruction)
    requires load.mayRead && store.mayWrite
    ensures FormatDepType(load, store) == "RAW"
  {
  }

  /** ":<line>:<col>", the location text without a file name. */
  function FormatLocation(line: nat, col: nat): string {
    ":" + NatToString(line) + ":" + NatToString(col)
  }

  /** "<file>:<line>:<col>". */
  function FormatFileLocation(file: string, line: nat, col: nat): string {
    file + ":" + NatToString(line) + ":" + NatToString(col)
  }

  /** A location text gives back its line and column. */
  lemma FormatLocationInjective(l1: nat, c1: nat, l2: nat, c2: nat)
    requires FormatLocation(l1, c1) == FormatLocation(l2, c2)
    ensures l1 == l2 && c1 == c2
  {
    var a1, a2 := NatToString(l1), NatToString(l2);
    var b1, b2 := NatToString(c1), NatToString(c2);
    assert FormatLocation(l1, c1) == ":" + (a1 + [':'] + b1);
    assert FormatLocation(l2, c2) == ":" + (a2 + [':'] + b2);
    assert a1 + [':'] + b1 == FormatLocation(l1, c1)[1..] == a2 + [':'] + b2;
    SeparatorSplit(a1, b1, a2, b2, ':');
    NatToStringInjective(l1, l2);
    NatToStringInjective(c1, c2);
  }

  /** With the file name fixed, a file location text determines its line and column. */
  lemma FormatFileLocationInjective(file: string, l1: nat, c1: nat, l2: nat, c2: nat)
    ensures FormatFileLocation(file, l1, c1) == FormatFileLocation(file, l2, c2) <==> l1 == l2 && c1 == c2
  {
    var x1, x2 := FormatLocation(l1, c1), FormatLocation(l2, c2);
    assert FormatFileLocation(file, l1, c1) == file + x1;
    assert FormatFileLocation(file, l2, c2) == file + x2;
    if file + x1 == file + x2 {
      assert x1 == (file + x1)[|file|..] == (file + x2)[|file|..] == x2;
      FormatLocationInjective(l1, c1, l2, c2);
    }
  }

  function OptionalLocation(loc: Option<Location>): string {
    match loc
    case None => ""
    case Some(l) => FormatLocation(l.line, l.column)
  }

  // ---------------------------------------------------------------------------
  // Dependency lines
  // ---------------------------------------------------------------------------

  /** Every instruction a set depends on is in the enumeration. */
  predicate TargetsKnown(insts: seq<Instruction>, ps: DependencySet) {
    forall k :: 0 <= k < |ps| && ps[k].dep.target.Some? ==> ps[k].dep.target.value in insts
  }

  /** The text naming what a pair depends on: the instruction, else the block, else nothing. */
  function DependencyRef(insts: seq<Instruction>, p: DependencyPair): string
    requires p.dep.target.Some? ==> p.dep.target.value in insts
  {
    if p.dep.target.Some? then InstructionIdentifier(insts, p.dep.target.value)
    else if p.block.Some? then BlockIdentifier(p.block.value)
    else ""
  }

  function DependencyTypeCode(inst: Instruction, p: DependencyPair): string {
    if p.dep.target.Some? then FormatDepType(inst, p.dep.target.value)
    else if p.block.Some? then "Unknown"
    else ""
  }

  /** A pair that names neither an instruction nor a block. */
  predicate Silent(p: DependencyPair) {
    p.dep.target.None? && p.block.None?
  }

  /**
   * The line rendered for one pair of `inst`'s set; there is no line exactly
   * when the pair names neither an instruction nor a block.
   */
  function DependencyEntry(insts: seq<Instruction>, inst: Instruction, p: DependencyPair): (line: string)
    requires p.dep.target.Some? ==> p.dep.target.value in insts
    ensures line == "" <==> Silent(p)
  {
    var ref := DependencyRef(insts, p);
    if ref != "" then IndentLine(IndentLine("\"*" + ref + "\": \"" + DependencyTypeCode(inst, p) + "\"")) + "\n"
    else ""
  }

  /**
   * The text of a dependency line: the instruction identifier with the
   * direction code when the pair names an instruction, the block identifier
   * with "Unknown" when it names only a block.
   */
  lemma DependencyEntryForm(insts: seq<Instruction>, inst: Instruction, p: DependencyPair)
    requires p.dep.target.Some? ==> p.dep.target.value in insts
    ensures p.dep.target.Some? ==>
              DependencyEntry(insts, inst, p)
              == "    \"*" + InstructionIdentifier(insts, p.dep.target.value) + "\": \""
                 + FormatDepType(inst, p.dep.target.value) + "\"\n"
    ensures p.dep.target.None? && p.block.Some? ==>
              DependencyEntry(insts, inst, p) == "    \"*" + BlockIdentifier(p.block.value) + "\": \"Unknown\"\n"
  {
    EntryLineShape(DependencyRef(insts, p), DependencyTypeCode(inst, p));
  }

  lemma EntryLineShape(ref: string, code: string)
    ensures IndentLine(IndentLine("\"*" + ref + "\": \"" + code + "\"")) + "\n" == "    \"*" + ref + "\": \"" + code + "\"\n"
  {
    var x := "\"*" + ref + "\": \"" + code + "\"";
    assert IndentLine(IndentLine(x)) == "    " + x;
  }

  /** Every pair of a set is silent; defined from the end, as the rendered lines are. */
  predicate AllSilent(ps: DependencySet)
    decreases |ps|
  {
    ps == [] || (AllSilent(ps[..|ps| - 1]) && Silent(ps[|ps| - 1]))
  }

  /** `AllSilent` holds exactly when no pair names an instruction or a block. */
  lemma {:induction false} AllSilentMeansEveryPair(ps: DependencySet)
    ensures AllSilent(ps) <==> forall k :: 0 <= k < |ps| ==> Silent(ps[k])
    decreases |ps|
  {
    if ps != [] {
      var n := |ps| - 1;
      AllSilentMeansEveryPair(ps[..n]);
      assert forall k :: 0 <= k < n ==> ps[..n][k] == ps[k];
    }
  }

  /** The lines rendered for a set, in its order; there are none exactly when every pair is silent. */
  function DependencyEntries(insts: seq<Instruction>, inst: Instruction, ps: DependencySet): (lines: string)
    requires TargetsKnown(insts, ps)
    ensures lines == "" <==> AllSilent(ps)
    decreases |ps|
  {
    if ps == [] then ""
    else
      var rest := DependencyEntries(insts, inst, ps[..|ps| - 1]);
      var last := DependencyEntry(insts, inst, ps[|ps| - 1]);
      assert |rest + last| == |rest| + |last|;
      rest + last
  }

  /** One more pair appends its line. */
  lemma DependencyEntriesSnoc(insts: seq<Instruction>, inst: Instruction, ps: DependencySet, n: nat)
    requires n < |ps| && TargetsKnown(insts, ps)
    ensures TargetsKnown(insts, ps[..n]) && TargetsKnown(insts, ps[..n + 1])
    ensures DependencyEntries(insts, inst, ps[..n + 1])
            == DependencyEntries(insts, inst, ps[..n]) + DependencyEntry(insts, inst, ps[n])
  {
    assert ps[..n + 1][..n] == ps[..n];
  }

  /** A set renders no line exactly when none of its pairs names an instruction or a block. */
  lemma DependencyEntriesEmpty(insts: seq<Instruction>, inst: Instruction, ps: DependencySet)
    requires TargetsKnown(insts, ps)
    ensures DependencyEntries(insts, inst, ps) == "" <==> forall k :: 0 <= k < |ps| ==> Silent(ps[k])
  {
    AllSilentMeansEveryPair(ps);
  }

  /**
   * The identifier a dependency line cites for an instruction is the one
   * that instruction is listed under, and it reads back as the instruction's
   * position in the enumeration.
   */
  lemma DependencyReferenceRoundTrip(insts: seq<Instruction>, inst: Instruction, p: DependencyPair)
    requires p.dep.target.Some? && p.dep.target.value in insts
    ensures var id := InstructionIdentifier(insts, p.dep.target.value);
            var k := ParseInstructionIdentifier(id);
            && DependencyEntry(insts, inst, p) == "    \"*" + id + "\": \"" + FormatDepType(inst, p.dep.target.value) + "\"\n"
            && InstructionHeader(insts, p.dep.target.value) == "- " + id + ":\n"
            && k.Some? && k.value < |insts| && insts[k.value] == p.dep.target.value
  {
    DependencyEntryForm(insts, inst, p);
    InstructionIdentifierRoundTrip(insts, p.dep.target.value);
  }

  // ---------------------------------------------------------------------------
  // The report
  // ---------------------------------------------------------------------------

  /** An instruction can be rendered: it is enumerated and so is everything it depends on. */
  predicate InstructionRenderable(insts: seq<Instruction>, deps: DependencyMap, i: Instruction) {
    i in insts && (i in deps ==> TargetsKnown(insts, deps[i]))
  }

  predicate BlockRenderable(insts: seq<Instruction>, deps: DependencyMap, b: Block) {
    forall j :: 0 <= j < |b.insts| ==> InstructionRenderable(insts, deps, b.insts[j])
  }

  predicate BlocksRenderable(insts: seq<Instruction>, deps: DependencyMap, bs: seq<Block>) {
    forall k :: 0 <= k < |bs| ==> BlockRenderable(insts, deps, bs[k])
  }

  function InstructionHeader(insts: seq<Instruction>, i: Instruction): string
    requires i in insts
  {
    "- " + InstructionIdentifier(insts, i) + ":" + "\n"
  }

  function VariableFields(v: SourceVariable): string {
    "name: \"" + v.variable.name + "\"\nlocation: \"" + OptionalLocation(v.loc) + "\""
  }

  /** The entry of one instruction: identifier, opcode, location, source variable and dependencies. */
  function InstructionText(insts: seq<Instruction>, deps: DependencyMap, vars: SourceVariableMap, i: Instruction): string
    requires InstructionRenderable(insts, deps, i)
  {
    var fields := WithIndent("opcode: " + i.opcode + "\nlocation: \"" + OptionalLocation(i.loc) + "\"");
    var variable := if i.id in vars then WithIndent("variable:") + WithIndent(WithIndent(VariableFields(vars[i.id]))) else "";
    var dependencies := if i in deps then WithIndent("dependencies:") + DependencyEntries(insts, i, deps[i]) else "";
    InstructionHeader(insts, i) + WithIndent(fields + variable + dependencies)
  }

  function InstructionsText(insts: seq<Instruction>, deps: DependencyMap, vars: SourceVariableMap, ops: seq<Instruction>): string
    requires forall j :: 0 <= j < |ops| ==> InstructionRenderable(insts, deps, ops[j])
    decreases |ops|
  {
    if ops == [] then ""
    else InstructionsText(insts, deps, vars, ops[..|ops| - 1]) + WithIndent(InstructionText(insts, deps, vars, ops[|ops| - 1]))
  }

  /** One more instruction appends its indented entry. */
  lemma InstructionsTextSnoc(insts: seq<Instruction>, deps: DependencyMap, vars: SourceVariableMap, ops: seq<Instruction>, n: nat)
    requires n < |ops|
    requires forall j :: 0 <= j < |ops| ==> InstructionRenderable(insts, deps, ops[j])
    ensures InstructionsText(insts, deps, vars, ops[..n + 1])
            == InstructionsText(insts, deps, vars, ops[..n]) + WithIndent(InstructionText(insts, deps, vars, ops[n]))
  {
    assert ops[..n + 1][..n] == ops[..n];
  }

  function BlockText(insts: seq<Instruction>, deps: DependencyMap, vars: SourceVariableMap, b: Block): string
    requires BlockRenderable(insts, deps, b)
  {
    BlockIdentifier(b) + ":" + "\n" + InstructionsText(insts, deps, vars, b.insts)
  }

  function BlocksText(insts: seq<Instruction>, deps: DependencyMap, vars: SourceVariableMap, bs: seq<Block>): string
    requires BlocksRenderable(insts, deps, bs)
    decreases |bs|
  {
    if bs == [] then ""
    else BlocksText(insts, deps, vars, bs[..|bs| - 1]) + WithIndent(BlockText(insts, deps, vars, bs[|bs| - 1])) + "\n"
  }

  /** One more block appends its indented entry and a blank line. */
  lemma BlocksTextSnoc(insts: seq<Instruction>, deps: DependencyMap, vars: SourceVariableMap, bs: seq<Block>, n: nat)
    requires n < |bs| && BlocksRenderable(insts, deps, bs)
    ensures BlocksRenderable(insts, deps, bs[..n]) && BlocksRenderable(insts, deps, bs[..n + 1])
    ensures BlocksText(insts, deps, vars, bs[..n + 1])
            == BlocksText(insts, deps, vars, bs[..n]) + WithIndent(BlockText(insts, deps, vars, bs[n])) + "\n"
  {
    assert bs[..n + 1][..n] == bs[..n];
  }

  function FunctionFields(f: Function): string {
    var name := if f.subprogram.Some? then f.subprogram.value.name else f.name;
    var location := if f.subprogram.Some? then FormatFileLocation(f.subprogram.value.file, f.subprogram.value.line, 0) else "~";
    "name: \"" + name + "\"\nmodule: \"" + f.moduleName + "\"\nlocation: \"" + location + "\""
  }

  function FunctionText(insts: seq<Instruction>, deps: DependencyMap, vars: SourceVariableMap, f: Function): string
    requires BlocksRenderable(insts, deps, f.blocks)
  {
    FunctionIdentifier(f) + ":" + "\n" + WithIndent(FunctionFields(f)) + "\n" + BlocksText(insts, deps, vars, f.blocks)
  }

  // ---------------------------------------------------------------------------
  // Shape of the entries: an identifier line, then lines nested under it
  // ---------------------------------------------------------------------------

  /** An instruction's identifier line contains no line break: it is decimal digits after a fixed prefix. */
  lemma InstructionHeaderOneLine(insts: seq<Instruction>, i: Instruction)
    requires i in insts
    ensures '\n' !in "- " + InstructionIdentifier(insts, i) + ":"
  {
    var d := NatToString(IndexOf(insts, i));
    assert "- " + InstructionIdentifier(insts, i) + ":" == "- instruction." + d + ":";
    assert forall k :: 0 <= k < |d| ==> d[k] != '\n';
  }

  /**
   * The entry of an instruction is its identifier line followed by lines
   * that are all indented under it.
   */
  lemma InstructionTextLines(insts: seq<Instruction>, deps: DependencyMap, vars: SourceVariableMap, i: Instruction)
    requires InstructionRenderable(insts, deps, i)
    ensures var ls := Lines(InstructionText(insts, deps, vars, i));
            |ls| >= 1 && ls[0] == "- " + InstructionIdentifier(insts, i) + ":" && Indented(ls[1..])
  {
    var h := "- " + InstructionIdentifier(insts, i) + ":";
    var fields := WithIndent("opcode: " + i.opcode + "\nlocation: \"" + OptionalLocation(i.loc) + "\"");
    var variable := if i.id in vars then WithIndent("variable:") + WithIndent(WithIndent(VariableFields(vars[i.id]))) else "";
    var dependencies := if i in deps then WithIndent("dependencies:") + DependencyEntries(insts, i, deps[i]) else "";
    var nested := WithIndent(fields + variable + dependencies);
    assert InstructionText(insts, deps, vars, i) == h + "\n" + nested;
    InstructionHeaderOneLine(insts, i);
    HeaderLine(h, nested);
    WithIndentIndented(fields + variable + dependencies);
  }

  /**
   * With no instruction object enumerated twice, the entry of the k-th
   * enumerated instruction is headed `- instruction.k:`.
   */
  lemma EnumeratedInstructionEntry(insts: seq<Instruction>, deps: DependencyMap, vars: SourceVariableMap, k: nat)
    requires DistinctIds(insts) && k < |insts| && InstructionRenderable(insts, deps, insts[k])
    ensures Lines(InstructionText(insts, deps, vars, insts[k]))[0] == "- " + ("instruction." + NatToString(k)) + ":"
  {
    InstructionTextLines(insts, deps, vars, insts[k]);
    EnumeratedInstructionIdentifier(insts, k);
  }

  /** An identifier line built from a prefix and a name without line breaks has none either. */
  lemma HeaderOneLine(prefix: string, name: string)
    requires '\n' !in prefix && '\n' !in name
    ensures '\n' !in FormatIdentifier(prefix, name) + ":"
  {
    var h := FormatIdentifier(prefix, name) + ":";
    assert h == prefix + "." + name + ":";
    forall j | 0 <= j < |h|
      ensures h[j] != '\n'
    {
      if j < |prefix| {
        assert h[j] == prefix[j];
      } else if j > |prefix| && j < |h| - 1 {
        assert h[j] == name[j - |prefix| - 1];
      }
    }
  }

  /** The entries of a block's instructions are complete lines, all indented. */
  lemma {:induction false} InstructionsTextLines(insts: seq<Instruction>, deps: DependencyMap, vars: SourceVariableMap, ops: seq<Instruction>)
    requires forall j :: 0 <= j < |ops| ==> InstructionRenderable(insts, deps, ops[j])
    ensures Complete(InstructionsText(insts, deps, vars, ops)) && Indented(Lines(InstructionsText(insts, deps, vars, ops)))
    decreases |ops|
  {
    if ops != [] {
      var n := |ops| - 1;
      var front := InstructionsText(insts, deps, vars, ops[..n]);
      var entry := InstructionText(insts, deps, vars, ops[n]);
      assert InstructionsText(insts, deps, vars, ops) == front + WithIndent(entry) by {
        InstructionsTextSnoc(insts, deps, vars, ops, n);
        assert ops[..n + 1] == ops;
      }
      assert Complete(front) && Indented(Lines(front)) by {
        assert forall j :: 0 <= j < n ==> ops[..n][j] == ops[j];
        InstructionsTextLines(insts, deps, vars, ops[..n]);
      }
      assert |entry| >= |InstructionHeader(insts, ops[n])| > 0;
      AppendIndented(front, entry);
    }
  }

  /** The entry of a block is its identifier line followed by indented lines. */
  lemma BlockTextLines(insts: seq<Instruction>, deps: DependencyMap, vars: SourceVariableMap, b: Block)
    requires BlockRenderable(insts, deps, b) && '\n' !in b.name
    ensures var ls := Lines(BlockText(insts, deps, vars, b));
            |ls| >= 1 && ls[0] == BlockIdentifier(b) + ":" && Indented(ls[1..])
  {
    var h := BlockIdentifier(b) + ":";
    var nested := InstructionsText(insts, deps, vars, b.insts);
    HeaderOneLine("block", b.name);
    assert BlockText(insts, deps, vars, b) == h + "\n" + nested;
    HeaderLine(h, nested);
    InstructionsTextLines(insts, deps, vars, b.insts);
  }

  /** The entries of a function's blocks are complete lines, each indented or blank. */
  lemma {:induction false} BlocksTextLines(insts: seq<Instruction>, deps: DependencyMap, vars: SourceVariableMap, bs: seq<Block>)
    requires BlocksRenderable(insts, deps, bs)
    ensures Complete(BlocksText(insts, deps, vars, bs)) && BlankOrIndented(Lines(BlocksText(insts, deps, vars, bs)))
    decreases |bs|
  {
    if bs != [] {
      var n := |bs| - 1;
      var front := BlocksText(insts, deps, vars, bs[..n]);
      var entry := BlockText(insts, deps, vars, bs[n]);
      assert BlocksText(insts, deps, vars, bs) == front + (WithIndent(entry) + "\n") by {
        BlocksTextSnoc(insts, deps, vars, bs, n);
        assert bs[..n + 1] == bs;
        ConcatAssociative(front, WithIndent(entry), "\n");
      }
      BlocksTextLines(insts, deps, vars, bs[..n]);
      IndentedThenBlank(entry);
      AppendBlankOrIndented(front, WithIndent(entry) + "\n");
    }
  }

  /**
   * The entry of a function is its identifier line followed by lines that
   * are indented under it or blank (the blank line after the fields and
   * after each block).
   */
  lemma FunctionTextLines(insts: seq<Instruction>, deps: DependencyMap, vars: SourceVariableMap, f: Function)
    requires BlocksRenderable(insts, deps, f.blocks) && '\n' !in f.name
    ensures var ls := Lines(FunctionText(insts, deps, vars, f));
            |ls| >= 1 && ls[0] == FunctionIdentifier(f) + ":" && BlankOrIndented(ls[1..])
  {
    var h := FunctionIdentifier(f) + ":";
    var fields := WithIndent(FunctionFields(f));
    var blocks := BlocksText(insts, deps, vars, f.blocks);
    HeaderOneLine("function", f.name);
    assert FunctionText(insts, deps, vars, f) == h + "\n" + (fields + ("\n" + blocks)) by {
      HeaderRegroup(h, fields, blocks);
    }
    HeaderLine(h, fields + ("\n" + blocks));
    FunctionNestedLines(insts, deps, vars, f);
  }

  lemma HeaderRegroup(h: string, a: string, b: string)
    ensures h + "\n" + a + "\n" + b == h + "\n" + (a + ("\n" + b))
  {
    ConcatAssociative(h + "\n" + a, "\n", b);
    ConcatAssociative(h + "\n", a, "\n" + b);
  }

  /** What follows a function's identifier line: its indented fields, a blank line, then its blocks. */
  lemma FunctionNestedLines(insts: seq<Instruction>, deps: DependencyMap, vars: SourceVariableMap, f: Function)
    requires BlocksRenderable(insts, deps, f.blocks)
    ensures BlankOrIndented(Lines(WithIndent(FunctionFields(f)) + ("\n" + BlocksText(insts, deps, vars, f.blocks))))
  {
    BlocksTextLines(insts, deps, vars, f.blocks);
    assert FunctionFields(f) != "" by {
      assert FunctionFields(f)[0] == 'n';
    }
    IndentedBlankThen(FunctionFields(f), BlocksText(insts, deps, vars, f.blocks));
  }

  /** The dependencies of the function's instructions name only instructions of the function. */
  predicate DependenciesResolve(insts: seq<Instruction>, deps: DependencyMap) {
    forall i :: i in insts && i in deps ==> TargetsKnown(insts, deps[i])
  }

  /** When the enumeration is the function's own instructions, the whole function can be rendered. */
  lemma FunctionRenderable(f: Function, deps: DependencyMap)
    requires DependenciesResolve(Instructions(f.blocks), deps)
    ensures BlocksRenderable(Instructions(f.blocks), deps, f.blocks)
  {
    var insts := Instructions(f.blocks);
    forall k, j | 0 <= k < |f.blocks| && 0 <= j < |f.blocks[k].insts|
      ensures InstructionRenderable(insts, deps, f.blocks[k].insts[j])
    {
      assert f.blocks[k] in f.blocks && f.blocks[k].insts[j] in f.blocks[k].insts;
    }
  }

  // ---------------------------------------------------------------------------
  // Summary counts and output file name
  // ---------------------------------------------------------------------------

  /** The number of pairs over all sets of the map. */
  ghost function TotalDependencies(m: DependencyMap): nat
    decreases |m|
  {
    if m == map[] then 0
    else
      var k := PickKey(m);
      |m[k]| + TotalDependencies(m - {k})
  }

  ghost function PickKey(m: DependencyMap): (k: Instruction)
    requires m != map[]
    ensures k in m
  {
    MapHasKey(m);
    var k :| k in m; k
  }

  lemma MapHasKey(m: DependencyMap)
    ensures m == map[] || exists k :: k in m
  {
    if forall k :: k !in m {
      assert m.Keys == {};
    }
  }

  lemma RemoveKeySize(m: DependencyMap, k: Instruction)
    requires k in m
    ensures |m - {k}| == |m| - 1
  {
    assert (m - {k}).Keys == m.Keys - {k};
  }

  /** The total does not depend on which key is taken first. */
  lemma {:induction false} TotalRemove(m: DependencyMap, k: Instruction)
    requires k in m
    ensures TotalDependencies(m) == |m[k]| + TotalDependencies(m - {k})
    decreases |m|
  {
    var j := PickKey(m);
    if j != k {
      RemoveKeySize(m, j);
      RemoveKeySize(m, k);
      assert k in m - {j};
      TotalRemove(m - {j}, k);
      assert j in m - {k};
      TotalRemove(m - {k}, j);
      assert m - {j} - {k} == m - {k} - {j};
    }
  }

  /**
   * When every set is non-empty, as the collector keeps them, the total is
   * at least the number of instructions with dependencies, and it is zero
   * exactly when there are none.
   */
  lemma {:induction false} TotalAtLeastKeys(m: DependencyMap)
    requires SetsWellFormed(m)
    ensures TotalDependencies(m) >= |m|
    ensures TotalDependencies(m) == 0 <==> m == map[]
    decreases |m|
  {
    if m != map[] {
      var k := PickKey(m);
      RemoveKeySize(m, k);
      TotalAtLeastKeys(m - {k});
    }
  }

  /** The text of the summary, before it is indented as a whole. */
  function SummaryText(instructionCount: nat, variableCount: nat, dependentCount: nat, dependencyCount: nat, filename: string): string {
    "Instructions:    " + NatToString(instructionCount) + "\n"
    + "Variables:       " + NatToString(variableCount) + "\n"
    + "Dependencies:" + "\n"
    + WithIndent("Instructions:  " + NatToString(dependentCount))
    + WithIndent("Total:         " + NatToString(dependencyCount))
    + "\n"
    + "Written CheckMerge analysis data to file " + filename
  }

  /** Position of the last '.' in `s`, if any (`find_last_of('.')`). */
  function LastDot(s: string): (k: Option<nat>)
    ensures k.None? ==> forall j :: 0 <= j < |s| ==> s[j] != '.'
    ensures k.Some? ==> k.value < |s| && s[k.value] == '.' && forall j :: k.value < j < |s| ==> s[j] != '.'
    decreases |s|
  {
    if s == "" then None
    else if s[|s| - 1] == '.' then Some(|s| - 1)
    else LastDot(s[..|s| - 1])
  }

  /**
   * The report file name: the source file name up to, not including, its
   * last '.', followed by ".ll.cm"; a name without '.' is kept whole.
   */
  function OutputFileName(source: string): (name: string)
    ensures |name| >= 6 && name[|name| - 6..] == ".ll.cm"
    ensures var stem := name[..|name| - 6];
            && |stem| <= |source| && source[..|stem|] == stem
            && (|stem| == |source| ==> forall j :: 0 <= j < |source| ==> source[j] != '.')
            && (|stem| < |source| ==> source[|stem|] == '.' && forall j :: |stem| < j < |source| ==> source[j] != '.')
  {
    var stem := match LastDot(source) case None => source case Some(k) => source[..k];
    var name := stem + ".ll.cm";
    assert name[..|name| - 6] == stem;
    name
  }

  // ---------------------------------------------------------------------------
  // The pass
  // ---------------------------------------------------------------------------

  /** The instructions of the blocks in program order, block by block. */
  method EnumerateInstructions(blocks: seq<Block>) returns (enumerated: seq<Instruction>)
    ensures enumerated == Instructions(blocks)
  {
    enumerated := [];
    for n := 0 to |blocks|
      invariant enumerated == Instructions(blocks[..n])
    {
      assert blocks[..n + 1][..n] == blocks[..n];
      var block := blocks[n];
      for j := 0 to |block.insts|
        invariant enumerated == Instructions(blocks[..n]) + block.insts[..j]
      {
        assert block.insts[..j + 1] == block.insts[..j] + [block.insts[j]];
        enumerated := enumerated + [block.insts[j]];
      }
      assert block.insts[..|block.insts|] == block.insts;
    }
    assert blocks[..|blocks|] == blocks;
  }

  class CheckMergePrinter {
    var func: Option<Function>
    var dependencies: DependencyMap
    var variables: SourceVariableMap
    var filename: string
    /** Whether the report file is open. */
    var fileOpen: bool
    /** What has been written to the report file since it was opened. */
    var written: string
    /** The instructions of the current function in program order; an instruction's identifier is its index here. */
    var instructions: seq<Instruction>

    constructor ()
      ensures func == None && dependencies == map[] && variables == map[]
      ensures filename == "" && !fileOpen && written == "" && instructions == []
    {
      func := None;
      dependencies := map[];
      variables := map[];
      filename := "";
      fileOpen := false;
      written := "";
      instructions := [];
    }

    /**
     * Derives the report file name from the module's source file name and
     * opens it; `openSucceeded` is whether opening succeeded. The original falls off
     * the end of this non-void function, so no result is modelled.
     */
    method DoInitialization(m: Module, openSucceeded: bool)
      modifies this
      ensures filename == OutputFileName(m.sourceFileName)
      ensures fileOpen == openSucceeded && written == ""
      ensures func == old(func) && dependencies == old(dependencies) && variables == old(variables)
      ensures instructions == old(instructions)
    {
      filename := OutputFileName(m.sourceFileName);
      fileOpen := openSucceeded;
      written := "";
    }

    /** Closes the report file if it is open. */
    method DoFinalization()
      modifies this`fileOpen
      ensures !fileOpen
    {
      if fileOpen {
        fileOpen := false;
      }
    }

    /**
     * Enumerates the instructions of `f` afresh, takes over the results of
     * the two analyses and, if the report file is open, appends the
     * function's entry to it. The pass changes nothing in the IR.
     */
    method RunOnFunction(f: Function, deps: DependencyMap, vars: SourceVariableMap) returns (modified: bool)
      requires fileOpen ==> DependenciesResolve(Instructions(f.blocks), deps)
      modifies this
      ensures func == Some(f) && !modified
      ensures instructions == Instructions(f.blocks) && |instructions| == InstructionCount(f.blocks)
      ensures dependencies == deps && variables == vars
      ensures fileOpen == old(fileOpen) && filename == old(filename)
      ensures !fileOpen ==> written == old(written)
      ensures fileOpen ==> written == old(written) + FunctionText(instructions, deps, vars, f)
    {
      TakeFunction(f, deps, vars);
      if fileOpen {
        FunctionRenderable(f, deps);
        WriteFunction(f);
      }
      modified := false;
    }

    /** Records the function, enumerates its instructions afresh and takes over the analyses' results. */
    method TakeFunction(f: Function, deps: DependencyMap, vars: SourceVariableMap)
      modifies this`func, this`instructions, this`dependencies, this`variables
      ensures func == Some(f) && instructions == Instructions(f.blocks)
      ensures dependencies == deps && variables == vars
    {
      func := Some(f);
      instructions := EnumerateInstructions(f.blocks);
      dependencies := deps;
      variables := vars;
    }

    /** Appends the entry of `f` to the report file. */
    method WriteFunction(f: Function)
      requires BlocksRenderable(instructions, dependencies, f.blocks)
      modifies this`written
      ensures written == old(written) + FunctionText(instructions, dependencies, variables, f)
    {
      var text := FormatFunction(f);
      written := written + text;
    }

    /** The entry of a function: its identifier and fields, then every block. */
    method FormatFunction(f: Function) returns (out: string)
      requires BlocksRenderable(instructions, dependencies, f.blocks)
      ensures out == FunctionText(instructions, dependencies, variables, f)
    {
      var blocks := "";
      for n := 0 to |f.blocks|
        invariant blocks == BlocksText(instructions, dependencies, variables, f.blocks[..n])
      {
        BlocksTextSnoc(instructions, dependencies, variables, f.blocks, n);
        var text := FormatBasicBlock(f.blocks[n]);
        blocks := blocks + WithIndent(text) + "\n";
      }
      assert f.blocks[..|f.blocks|] == f.blocks;
      out := FunctionIdentifier(f) + ":" + "\n" + WithIndent(FunctionFields(f)) + "\n" + blocks;
    }

    /** The entry of a block: its identifier, then every instruction indented. */
    method FormatBasicBlock(b: Block) returns (out: string)
      requires BlockRenderable(instructions, dependencies, b)
      ensures out == BlockText(instructions, dependencies, variables, b)
    {
      var entries := "";
      for n := 0 to |b.insts|
        invariant entries == InstructionsText(instructions, dependencies, variables, b.insts[..n])
      {
        InstructionsTextSnoc(instructions, dependencies, variables, b.insts, n);
        var text := FormatInstruction(b.insts[n]);
        entries := entries + WithIndent(text);
      }
      assert b.insts[..|b.insts|] == b.insts;
      out := BlockIdentifier(b) + ":" + "\n" + entries;
    }

    /** The entry of one instruction. */
    method FormatInstruction(i: Instruction) returns (out: string)
      requires InstructionRenderable(instructions, dependencies, i)
      ensures out == InstructionText(instructions, dependencies, variables, i)
    {
      out := InstructionHeader(instructions, i);
      var fields := WithIndent("opcode: " + i.opcode + "\nlocation: \"" + OptionalLocation(i.loc) + "\"");
      var variable := "";
      if i.id in variables {
        variable := WithIndent("variable:") + WithIndent(WithIndent(VariableFields(variables[i.id])));
      }
      var dependencyText := "";
      if i in dependencies {
        var lines := FormatDependencies(i, dependencies[i]);
        dependencyText := WithIndent("dependencies:") + lines;
      }
      out := out + WithIndent(fields + variable + dependencyText);
    }

    /** The lines of an instruction's dependency set, one per pair that names an instruction or a block. */
    method FormatDependencies(i: Instruction, entries: DependencySet) returns (lines: string)
      requires TargetsKnown(instructions, entries)
      ensures lines == DependencyEntries(instructions, i, entries)
    {
      lines := "";
      for n := 0 to |entries|
        invariant lines == DependencyEntries(instructions, i, entries[..n])
      {
        DependencyEntriesSnoc(instructions, i, entries, n);
        var line := FormatDependency(i, entries[n]);
        lines := lines + line;
      }
      assert entries[..|entries|] == entries;
    }

    /** The line of one pair of `i`'s set; empty when the pair names neither an instruction nor a block. */
    method FormatDependency(i: Instruction, pair: DependencyPair) returns (line: string)
      requires pair.dep.target.Some? ==> pair.dep.target.value in instructions
      ensures line == DependencyEntry(instructions, i, pair)
    {
      var dependencyRef := "";
      var dependencyType := "";
      if pair.dep.target.Some? {
        dependencyRef := InstructionIdentifier(instructions, pair.dep.target.value);
        dependencyType := FormatDepType(i, pair.dep.target.value);
      } else if pair.block.Some? {
        dependencyRef := BlockIdentifier(pair.block.value);
        dependencyType := "Unknown";
      }
      line := "";
      if dependencyRef != "" {
        line := IndentLine(IndentLine("\"*" + dependencyRef + "\": \"" + dependencyType + "\"")) + "\n";
      }
    }

    /** The number of pairs over all sets, accumulated entry by entry. */
    method DependencyCount() returns (count: nat)
      ensures count == TotalDependencies(dependencies)
    {
      count := 0;
      var rest := dependencies;
      while rest != map[]
        invariant count + TotalDependencies(rest) == TotalDependencies(dependencies)
        decreases |rest|
      {
        var k :| k in rest;
        TotalRemove(rest, k);
        RemoveKeySize(rest, k);
        count := count + |rest[k]|;
        rest := rest - {k};
      }
    }

    /** The summary: instructions enumerated, variables bound, instructions with dependencies, total pairs. */
    method Print() returns (text: string)
      ensures text == WithIndent(SummaryText(|instructions|, |variables|, |dependencies|, TotalDependencies(dependencies), filename))
    {
      var dependencyCount := DependencyCount();
      var out := "Instructions:    " + NatToString(|instructions|) + "\n";
      out := out + "Variables:       " + NatToString(|variables|) + "\n";
      out := out + "Dependencies:" + "\n";
      out := out + WithIndent("Instructions:  " + NatToString(|dependencies|));
      out := out + WithIndent("Total:         " + NatToString(dependencyCount));
      out := out + "\n";
      out := out + "Written CheckMerge analysis data to file " + filename;
      text := WithIndent(out);
    }
  }
}
