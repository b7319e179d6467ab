/**
 * The dependence collector: for every instruction of a function that may
 * touch memory, it asks the memory-dependence analysis (the oracle) what the
 * instruction depends on and records the answers, classified, in a
 * per-instruction insertion-ordered set of (dependency, block) pairs.
 */
module Dependence {
  import opened Wrappers
  import opened IR
  import opened Text

  // ---------------------------------------------------------------------------
  // Data model
  // ---------------------------------------------------------------------------

  /** Kinds of dependency, in enumerator order (Clobber is 0). */
  datatype DependencyType = Clobber | Def | NonFuncLocal | Unknown

  /** The integer a kind is stored as in the 2-bit tag of the pointer-int pair. */
  function TypeTag(t: DependencyType): (tag: nat)
    ensures tag < 4
    ensures TypeOfTag(tag) == t
  {
    match t
    case Clobber => 0
    case Def => 1
    case NonFuncLocal => 2
    case Unknown => 3
  }

  function TypeOfTag(tag: nat): DependencyType
    requires tag < 4
  {
    if tag == 0 then Clobber else if tag == 1 then Def else if tag == 2 then NonFuncLocal else Unknown
  }

  /** An instruction depended on (absent when the oracle names none) and the kind. */
  datatype Dependency = Dependency(target: Option<Instruction>, kind: DependencyType)

  /** A dependency and the block it was found in; no block for block-local dependencies. */
  datatype DependencyPair = DependencyPair(dep: Dependency, block: Option<Block>)

  /** A set vector: insertion order is kept and no pair occurs twice. */
  type DependencySet = seq<DependencyPair>

  type DependencyMap = map<Instruction, DependencySet>

  predicate NoDuplicates(s: DependencySet) {
    forall a, b :: 0 <= a < b < |s| ==> s[a] != s[b]
  }

  /** What the collector keeps for every key: a non-empty, duplicate-free set. */
  predicate SetsWellFormed(m: DependencyMap) {
    forall k :: k in m ==> m[k] != [] && NoDuplicates(m[k])
  }

  /** `m[i]` with the set default-constructed (empty) when `i` is not a key. */
  function GetSet(m: DependencyMap, i: Instruction): DependencySet {
    if i in m then m[i] else []
  }

  /** Set-vector insertion: appends `p` unless it is already present. */
  function Insert(s: DependencySet, p: DependencyPair): (r: DependencySet)
    ensures NoDuplicates(s) ==> NoDuplicates(r)
    ensures forall q :: q in r <==> q in s || q == p
    ensures |s| <= |r| && r[..|s|] == s
    ensures p in s ==> r == s
  {
    if p in s then s else s + [p]
  }

  // ---------------------------------------------------------------------------
  // The oracle
  // ---------------------------------------------------------------------------

  /** A `MemDepResult`: the instruction it names (if any) and its flags. */
  datatype MemDepResult = MemDepResult(
    inst: Option<Instruction>,
    isClobber: bool,
    isDef: bool,
    isNonFuncLocal: bool,
    isNonLocal: bool)

  /** One (result, block) answer of a non-local query; the block is never null. */
  datatype NonLocalEntry = NonLocalEntry(result: MemDepResult, block: Block)

  /**
   * The memory-dependence analysis, as its answers: the dependency of an
   * instruction, and the per-block answers of the non-local query for a call
   * site and for a pointer access.
   */
  datatype Oracle = Oracle(
    dependency: Instruction -> MemDepResult,
    callDependency: Instruction -> seq<NonLocalEntry>,
    pointerDependency: Instruction -> seq<NonLocalEntry>)

  // ---------------------------------------------------------------------------
  // Classification
  // ---------------------------------------------------------------------------

  /**
   * Classifies an oracle result with three independent tests, each of which
   * overwrites the kind set by the one before: a later flag that holds wins,
   * so NonFuncLocal takes precedence over Def and Def over Clobber.
   */
  function BuildDependency(result: MemDepResult): (d: Dependency)
    ensures d.target == result.inst
    ensures d.kind == NonFuncLocal <==> result.isNonFuncLocal
    ensures d.kind == Def <==> result.isDef && !result.isNonFuncLocal
    ensures d.kind == Clobber <==> result.isClobber && !result.isDef && !result.isNonFuncLocal
    ensures d.kind == Unknown <==> !result.isClobber && !result.isDef && !result.isNonFuncLocal
  {
    var kind0 := Unknown;
    var kind1 := if result.isClobber then Clobber else kind0;
    var kind2 := if result.isDef then Def else kind1;
    var kind3 := if result.isNonFuncLocal then NonFuncLocal else kind2;
    Dependency(result.inst, kind3)
  }

  /** The pair recorded for one non-local answer: tagged with the answer's block. */
  function EntryPair(e: NonLocalEntry): (p: DependencyPair)
    ensures p.dep.target == e.result.inst && p.block == Some(e.block)
  {
    DependencyPair(BuildDependency(e.result), Some(e.block))
  }

  /** The pairs recorded for a list of non-local answers, one per answer, in order. */
  function EntryPairs(entries: seq<NonLocalEntry>): seq<DependencyPair>
    decreases |entries|
  {
    if entries == [] then [] else EntryPairs(entries[..|entries| - 1]) + [EntryPair(entries[|entries| - 1])]
  }

  /** One more answer appends its pair. */
  lemma EntryPairsSnoc(entries: seq<NonLocalEntry>, e: nat)
    requires e < |entries|
    ensures EntryPairs(entries[..e + 1]) == EntryPairs(entries[..e]) + [EntryPair(entries[e])]
  {
    assert entries[..e + 1][..e] == entries[..e];
  }

  /** The k-th recorded pair comes from the k-th answer. */
  lemma {:induction false} EntryPairsAt(entries: seq<NonLocalEntry>)
    ensures |EntryPairs(entries)| == |entries|
    ensures forall k :: 0 <= k < |entries| ==> EntryPairs(entries)[k] == EntryPair(entries[k])
    decreases |entries|
  {
    if entries != [] {
      EntryPairsAt(entries[..|entries| - 1]);
    }
  }

  /** The non-local answers consulted for `inst`: the call-site query for calls, the pointer query otherwise. */
  function NonLocalEntries(inst: Instruction, oracle: Oracle): seq<NonLocalEntry> {
    if inst.isCall then oracle.callDependency(inst) else oracle.pointerDependency(inst)
  }

  /** The pairs inserted for a memory-touching instruction, in insertion order. */
  function PairsOf(inst: Instruction, oracle: Oracle): seq<DependencyPair> {
    var result := oracle.dependency(inst);
    if !result.isNonLocal then [DependencyPair(BuildDependency(result), None)]
    else EntryPairs(NonLocalEntries(inst, oracle))
  }

  /** Inserts `ps` in order into the set of `i`; the key is created on the first insertion. */
  function InsertAll(m: DependencyMap, i: Instruction, ps: seq<DependencyPair>): DependencyMap
    decreases |ps|
  {
    if ps == [] then m
    else
      var m' := InsertAll(m, i, ps[..|ps| - 1]);
      m'[i := Insert(GetSet(m', i), ps[|ps| - 1])]
  }

  /**
   * Inserting a sequence of pairs for `i` creates the key for `i` exactly
   * when the sequence is non-empty, leaves every other key alone, adds
   * exactly the pairs of the sequence, keeps the old entries first and in
   * order, and never introduces a duplicate.
   */
  lemma {:induction false} InsertAllProperties(m: DependencyMap, i: Instruction, ps: seq<DependencyPair>)
    ensures var r := InsertAll(m, i, ps);
            && (forall k :: k in r <==> k in m || (k == i && ps != []))
            && (forall k :: k in m && k != i ==> r[k] == m[k])
            && (forall q :: q in GetSet(r, i) <==> q in GetSet(m, i) || q in ps)
            && |GetSet(m, i)| <= |GetSet(r, i)| && GetSet(r, i)[..|GetSet(m, i)|] == GetSet(m, i)
            && (NoDuplicates(GetSet(m, i)) ==> NoDuplicates(GetSet(r, i)))
            && (ps != [] ==> GetSet(r, i) != [])
    decreases |ps|
  {
    if ps != [] {
      var front := ps[..|ps| - 1];
      InsertAllProperties(m, i, front);
      assert forall q :: q in ps <==> q in front || q == ps[|ps| - 1];
      var m' := InsertAll(m, i, front);
      var s0, s1 := GetSet(m, i), GetSet(m', i);
      var s2 := GetSet(InsertAll(m, i, ps), i);
      assert s2[..|s1|] == s1;
      assert s2[..|s0|] == s2[..|s1|][..|s0|];
    }
  }

  /** Inserting one more pair after a sequence of pairs is one more set-vector insertion. */
  lemma InsertAllSnoc(m: DependencyMap, i: Instruction, ps: seq<DependencyPair>, p: DependencyPair)
    ensures InsertAll(m, i, ps + [p]) == InsertAll(m, i, ps)[i := Insert(GetSet(InsertAll(m, i, ps), i), p)]
  {
    assert (ps + [p])[..|ps|] == ps;
  }

  /** The effect of one loop iteration of the collector on instruction `inst`. */
  function CollectInstruction(m: DependencyMap, inst: Instruction, oracle: Oracle): DependencyMap {
    if !inst.MayReadOrWriteMemory() then m else InsertAll(m, inst, PairsOf(inst, oracle))
  }

  /** The collector's map after visiting `insts` in order, starting from `m`. */
  function Collect(m: DependencyMap, insts: seq<Instruction>, oracle: Oracle): (r: DependencyMap)
    ensures forall k :: k in m ==> k in r
    decreases |insts|
  {
    if insts == [] then m
    else
      var prev := Collect(m, insts[..|insts| - 1], oracle);
      CollectInstructionProperties(prev, insts[|insts| - 1], oracle);
      CollectInstruction(prev, insts[|insts| - 1], oracle)
  }

  /** Whether visiting `inst` inserts anything for it. */
  predicate Inserts(inst: Instruction, oracle: Oracle) {
    inst.MayReadOrWriteMemory() && PairsOf(inst, oracle) != []
  }

  // ---------------------------------------------------------------------------
  // Properties of the collection
  // ---------------------------------------------------------------------------

  /**
   * A local answer inserts exactly one pair: the classified result, with the
   * oracle's instruction as target and no block.
   */
  lemma LocalResultInsertsOnePair(m: DependencyMap, inst: Instruction, oracle: Oracle)
    requires inst.MayReadOrWriteMemory() && !oracle.dependency(inst).isNonLocal
    ensures var p := DependencyPair(BuildDependency(oracle.dependency(inst)), None);
            && p.dep.target == oracle.dependency(inst).inst && p.block == None
            && CollectInstruction(m, inst, oracle) == m[inst := Insert(GetSet(m, inst), p)]
  {
    var p := DependencyPair(BuildDependency(oracle.dependency(inst)), None);
    assert PairsOf(inst, oracle) == [p];
    assert [p][..0] == [];
    assert InsertAll(m, inst, [p]) == InsertAll(m, inst, [])[inst := Insert(GetSet(InsertAll(m, inst, []), inst), p)];
  }

  /**
   * A non-local answer inserts one pair per entry of the call-site query (for
   * calls) or of the pointer query (otherwise), each tagged with the entry's
   * block; an empty entry list creates no key.
   */
  lemma NonLocalResultInsertsEntries(m: DependencyMap, inst: Instruction, oracle: Oracle)
    requires inst.MayReadOrWriteMemory() && oracle.dependency(inst).isNonLocal
    ensures var r := CollectInstruction(m, inst, oracle);
            var entries := if inst.isCall then oracle.callDependency(inst) else oracle.pointerDependency(inst);
            && (inst in r <==> inst in m || entries != [])
            && forall q :: q in GetSet(r, inst) <==>
                 q in GetSet(m, inst) || exists k :: 0 <= k < |entries| && q == EntryPair(entries[k])
  {
    var entries := NonLocalEntries(inst, oracle);
    var ps := EntryPairs(entries);
    var r := InsertAll(m, inst, ps);
    assert CollectInstruction(m, inst, oracle) == r by {
      assert PairsOf(inst, oracle) == ps;
    }
    assert inst in r <==> inst in m || entries != [] by {
      InsertAllProperties(m, inst, ps);
      EntryPairsAt(entries);
    }
    assert forall q :: q in GetSet(r, inst) <==> q in GetSet(m, inst) || q in ps by {
      InsertAllProperties(m, inst, ps);
    }
    InEntryPairs(entries);
  }

  /** A pair is among the pairs recorded for a list of answers exactly when some answer yields it. */
  lemma InEntryPairs(entries: seq<NonLocalEntry>)
    ensures forall q :: q in EntryPairs(entries) <==> exists k :: 0 <= k < |entries| && q == EntryPair(entries[k])
  {
    var ps := EntryPairs(entries);
    EntryPairsAt(entries);
    forall q | q in ps ensures exists k :: 0 <= k < |entries| && q == EntryPair(entries[k]) {
      var k :| 0 <= k < |ps| && ps[k] == q;
    }
  }

  /** One visit: the frame, key and content facts of a single loop iteration. */
  lemma CollectInstructionProperties(m: DependencyMap, inst: Instruction, oracle: Oracle)
    ensures var r := CollectInstruction(m, inst, oracle);
            && (forall k :: k in r <==> k in m || (k == inst && Inserts(inst, oracle)))
            && (forall k :: k in m && k != inst ==> r[k] == m[k])
            && (forall q :: q in GetSet(r, inst) <==>
                  q in GetSet(m, inst) || (inst.MayReadOrWriteMemory() && q in PairsOf(inst, oracle)))
            && |GetSet(m, inst)| <= |GetSet(r, inst)| && GetSet(r, inst)[..|GetSet(m, inst)|] == GetSet(m, inst)
            && (SetsWellFormed(m) ==> SetsWellFormed(r))
  {
    if inst.MayReadOrWriteMemory() {
      var ps := PairsOf(inst, oracle);
      InsertAllProperties(m, inst, ps);
      var r := InsertAll(m, inst, ps);
      if SetsWellFormed(m) && inst in r {
        assert GetSet(r, inst) == r[inst];
      }
    }
  }

  /**
   * Who gets a key: an instruction is a key after the walk exactly when it
   * was one before, or it was visited, touches memory and its answer listed
   * at least one pair. In particular an instruction that touches no memory
   * never becomes a key.
   */
  lemma {:induction false} CollectKeys(m: DependencyMap, insts: seq<Instruction>, oracle: Oracle)
    ensures forall k :: k in Collect(m, insts, oracle) <==> k in m || (k in insts && Inserts(k, oracle))
    decreases |insts|
  {
    if insts != [] {
      var front := insts[..|insts| - 1];
      CollectKeys(m, front, oracle);
      CollectInstructionProperties(Collect(m, front, oracle), insts[|insts| - 1], oracle);
      assert forall k :: k in insts <==> k in front || k == insts[|insts| - 1];
    }
  }

  /** Instructions not visited keep their entry, or their absence, unchanged. */
  lemma {:induction false} CollectFrame(m: DependencyMap, insts: seq<Instruction>, oracle: Oracle, k: Instruction)
    requires k !in insts
    ensures k in Collect(m, insts, oracle) <==> k in m
    ensures k in m ==> Collect(m, insts, oracle)[k] == m[k]
    decreases |insts|
  {
    if insts != [] {
      var front := insts[..|insts| - 1];
      assert k !in front;
      CollectFrame(m, front, oracle, k);
      CollectInstructionProperties(Collect(m, front, oracle), insts[|insts| - 1], oracle);
    }
  }

  /**
   * What an instruction's set holds after the walk: the pairs it held before
   * and, if it was visited and touches memory, the pairs its answer lists.
   */
  lemma {:induction false} CollectContents(m: DependencyMap, insts: seq<Instruction>, oracle: Oracle, k: Instruction)
    ensures forall q :: q in GetSet(Collect(m, insts, oracle), k) <==>
              q in GetSet(m, k) || (k in insts && k.MayReadOrWriteMemory() && q in PairsOf(k, oracle))
    decreases |insts|
  {
    if insts != [] {
      var front := insts[..|insts| - 1];
      var last := insts[|insts| - 1];
      CollectContents(m, front, oracle, k);
      var mid := Collect(m, front, oracle);
      CollectInstructionProperties(mid, last, oracle);
      assert k in insts <==> k in front || k == last;
      if k != last {
        assert GetSet(Collect(m, insts, oracle), k) == GetSet(mid, k);
      }
    }
  }

  /**
   * Insertion order is kept: the set an instruction had before the walk is
   * a prefix of the set it has afterwards.
   */
  lemma {:induction false} CollectKeepsOrder(m: DependencyMap, insts: seq<Instruction>, oracle: Oracle, k: Instruction)
    ensures |GetSet(m, k)| <= |GetSet(Collect(m, insts, oracle), k)|
    ensures GetSet(Collect(m, insts, oracle), k)[..|GetSet(m, k)|] == GetSet(m, k)
    decreases |insts|
  {
    if insts != [] {
      var front := insts[..|insts| - 1];
      var last := insts[|insts| - 1];
      CollectKeepsOrder(m, front, oracle, k);
      var mid := Collect(m, front, oracle);
      CollectInstructionProperties(mid, last, oracle);
      var s0, s1, s2 := GetSet(m, k), GetSet(mid, k), GetSet(Collect(m, insts, oracle), k);
      if k == last {
        assert s2[..|s1|] == s1;
        assert s2[..|s0|] == s2[..|s1|][..|s0|];
      } else {
        assert s2 == s1;
      }
    }
  }

  /** Every set the collector stores stays non-empty and free of duplicates. */
  lemma {:induction false} CollectWellFormed(m: DependencyMap, insts: seq<Instruction>, oracle: Oracle)
    requires SetsWellFormed(m)
    ensures SetsWellFormed(Collect(m, insts, oracle))
    decreases |insts|
  {
    if insts != [] {
      var front := insts[..|insts| - 1];
      CollectWellFormed(m, front, oracle);
      CollectInstructionProperties(Collect(m, front, oracle), insts[|insts| - 1], oracle);
    }
  }

  /** A walk over instructions none of which touches memory leaves the map unchanged in its keys, e.g. empty stays empty. */
  lemma NoMemoryInstructionsNoKeys(insts: seq<Instruction>, oracle: Oracle)
    requires forall i :: i in insts ==> !i.MayReadOrWriteMemory()
    ensures Collect(map[], insts, oracle) == map[]
  {
    CollectKeys(map[], insts, oracle);
  }

  // ---------------------------------------------------------------------------
  // Text of the collector's own printer
  // ---------------------------------------------------------------------------

  /** Name of a dependency kind as the collector prints it. */
  function FormatDependencyType(t: DependencyType): (name: string)
    ensures ParseDependencyType(name) == Some(t)
  {
    match t
    case NonFuncLocal => "non-local"
    case Clobber => "clobber"
    case Def => "def"
    case _ => "unknown"
  }

  /** Inverse of FormatDependencyType. */
  function ParseDependencyType(s: string): Option<DependencyType> {
    if s == "non-local" then Some(NonFuncLocal)
    else if s == "clobber" then Some(Clobber)
    else if s == "def" then Some(Def)
    else if s == "unknown" then Some(Unknown)
    else None
  }

  /** "file:line:col" of the instruction's debug location, or "" when it has none. */
  function FormatDebugLoc(inst: Instruction): (s: string)
    ensures s == "" <==> inst.loc.None?
  {
    match inst.loc
    case None => ""
    case Some(l) => l.file + ":" + NatToString(l.line) + ":" + NatToString(l.column)
  }

  /**
   * "[name] opcode (address)" followed by " @ location" when there is one.
   * The instruction's machine address is a parameter.
   */
  function FormatInst(inst: Instruction, address: Instruction -> string): (text: string)
    ensures var id := "[" + inst.name + "] " + inst.opcode + " (" + address(inst) + ")";
            && |id| <= |text| && text[..|id|] == id
            && (text == id <==> inst.loc.None?)
            && (inst.loc.Some? ==> text[|id|..] == " @ " + FormatDebugLoc(inst))
  {
    var id := "[" + inst.name + "] " + inst.opcode;
    var loc := FormatDebugLoc(inst);
    if loc == "" then id + " (" + address(inst) + ")"
    else id + " (" + address(inst) + ") @ " + loc
  }

  /** The debug location of a block's first instruction. */
  function BlockDebugLoc(b: Block): string {
    if b.insts == [] then "" else FormatDebugLoc(b.insts[0])
  }

  function InstructionPart(t: Instruction, address: Instruction -> string): string {
    "Instruction " + FormatInst(t, address)
  }

  function BlockPart(b: Block): string {
    var loc := BlockDebugLoc(b);
    "Block [" + b.name + "]" + (if loc == "" then "" else " ~@ " + loc)
  }

  /**
   * The line printed for one pair: nothing exactly when it names neither an
   * instruction nor a block.
   */
  function DependencyLine(p: DependencyPair, address: Instruction -> string): (line: string)
    ensures line == "" <==> p.dep.target.None? && p.block.None?
  {
    var inst, block := p.dep.target, p.block;
    var head := if inst.Some? || block.Some? then "      Depends (" + FormatDependencyType(p.dep.kind) + ") on " else "";
    var instText := if inst.Some? then InstructionPart(inst.value, address) else "";
    var sep := if inst.Some? && block.Some? then " in " else "";
    var blockText := if block.Some? then BlockPart(block.value) else "";
    var end := if inst.Some? || block.Some? then "\n" else "";
    head + instText + sep + blockText + end
  }

  /**
   * The text of a printed line: the kind, then the instruction and the
   * block, joined by " in " only when both are present.
   */
  lemma DependencyLineForm(p: DependencyPair, address: Instruction -> string)
    ensures var head := "      Depends (" + FormatDependencyType(p.dep.kind) + ") on ";
            var line := DependencyLine(p, address);
            && (p.dep.target.Some? && p.block.Some? ==>
                  line == head + InstructionPart(p.dep.target.value, address) + " in " + BlockPart(p.block.value) + "\n")
            && (p.dep.target.Some? && p.block.None? ==>
                  line == head + InstructionPart(p.dep.target.value, address) + "\n")
            && (p.dep.target.None? && p.block.Some? ==>
                  line == head + BlockPart(p.block.value) + "\n")
  {
    var head := "      Depends (" + FormatDependencyType(p.dep.kind) + ") on ";
    if p.dep.target.Some? && p.block.None? {
      var i := InstructionPart(p.dep.target.value, address);
      assert head + i + "" + "" + "\n" == head + i + "\n";
    } else if p.dep.target.None? && p.block.Some? {
      var b := BlockPart(p.block.value);
      assert head + "" + "" + b + "\n" == head + b + "\n";
    }
  }

  /** The lines printed for a set, in its order. */
  function DependencyLines(ps: DependencySet, address: Instruction -> string): string
    decreases |ps|
  {
    if ps == [] then "" else DependencyLines(ps[..|ps| - 1], address) + DependencyLine(ps[|ps| - 1], address)
  }

  /** One more pair appends its line. */
  lemma DependencyLinesSnoc(ps: DependencySet, n: nat, address: Instruction -> string)
    requires n < |ps|
    ensures DependencyLines(ps[..n + 1], address) == DependencyLines(ps[..n], address) + DependencyLine(ps[n], address)
  {
    assert ps[..n + 1][..n] == ps[..n];
  }

  /** A set prints nothing exactly when none of its pairs names an instruction or a block. */
  lemma {:induction false} DependencyLinesEmpty(ps: DependencySet, address: Instruction -> string)
    ensures DependencyLines(ps, address) == "" <==>
            forall k :: 0 <= k < |ps| ==> ps[k].dep.target.None? && ps[k].block.None?
    decreases |ps|
  {
    if ps != [] {
      var front := ps[..|ps| - 1];
      DependencyLinesEmpty(front, address);
      assert forall k :: 0 <= k < |front| ==> front[k] == ps[k];
    }
  }

  // ---------------------------------------------------------------------------
  // The pass
  // ---------------------------------------------------------------------------

  class DependenceCollector {
    var dependencies: DependencyMap
    var func: Option<Function>

    ghost predicate Valid()
      reads this
    {
      SetsWellFormed(dependencies)
    }

    /** A new collector knows no function and no dependencies. */
    constructor ()
      ensures Valid()
      ensures func == None && dependencies == map[]
    {
      dependencies := map[];
      func := None;
    }

    /**
     * Walks every instruction of `f` in program order and records what the
     * oracle says about each one that may touch memory. The map is not
     * cleared first; the pass reports that it changed nothing in the IR.
     */
    method RunOnFunction(f: Function, oracle: Oracle) returns (modified: bool)
      requires Valid()
      modifies this
      ensures Valid()
      ensures func == Some(f) && !modified
      ensures dependencies == Collect(old(dependencies), Instructions(f.blocks), oracle)
    {
      func := Some(f);
      var insts := Instructions(f.blocks);
      ghost var start := dependencies;
      for n := 0 to |insts|
        invariant func == Some(f)
        invariant dependencies == Collect(start, insts[..n], oracle)
      {
        assert insts[..n + 1][..n] == insts[..n];
        var inst := insts[n];
        if inst.MayReadOrWriteMemory() {
          RecordDependencies(inst, oracle);
        }
      }
      assert insts[..|insts|] == insts;
      CollectWellFormed(start, insts, oracle);
      modified := false;
    }

    /** One iteration of the walk, for an instruction that may touch memory. */
    method RecordDependencies(inst: Instruction, oracle: Oracle)
      requires inst.MayReadOrWriteMemory()
      modifies this`dependencies
      ensures dependencies == InsertAll(old(dependencies), inst, PairsOf(inst, oracle))
    {
      var result := oracle.dependency(inst);
      if !result.isNonLocal {
        var dependency := BuildDependency(result);
        LocalResultInsertsOnePair(dependencies, inst, oracle);
        dependencies := dependencies[inst := Insert(GetSet(dependencies, inst), DependencyPair(dependency, None))];
      } else {
        var info := if inst.isCall then oracle.callDependency(inst) else oracle.pointerDependency(inst);
        RecordEntries(inst, info);
        assert PairsOf(inst, oracle) == EntryPairs(info);
      }
    }

    /** Records one pair per non-local answer, tagged with the answer's block. */
    method RecordEntries(inst: Instruction, info: seq<NonLocalEntry>)
      modifies this`dependencies
      ensures dependencies == InsertAll(old(dependencies), inst, EntryPairs(info))
    {
      ghost var before := dependencies;
      for e := 0 to |info|
        invariant dependencies == InsertAll(before, inst, EntryPairs(info[..e]))
      {
        EntryPairsSnoc(info, e);
        InsertAllSnoc(before, inst, EntryPairs(info[..e]), EntryPair(info[e]));
        var dependency := BuildDependency(info[e].result);
        dependencies := dependencies[inst := Insert(GetSet(dependencies, inst), DependencyPair(dependency, Some(info[e].block)))];
      }
      assert info[..|info|] == info;
    }

    /** Forgets all dependencies and the function. */
    method ReleaseMemory()
      modifies this
      ensures Valid()
      ensures dependencies == map[] && func == None
    {
      dependencies := map[];
      func := None;
    }

    /** The dependencies collected so far. */
    method GetDependencies() returns (m: DependencyMap)
      requires Valid()
      ensures m == dependencies && SetsWellFormed(m)
    {
      m := dependencies;
    }

    /** The lines the collector prints for `inst`: nothing when it has no entry. */
    method PrintInstDeps(inst: Instruction, address: Instruction -> string) returns (out: string)
      ensures out == if inst in dependencies then DependencyLines(dependencies[inst], address) else ""
    {
      out := "";
      if inst !in dependencies {
        return;
      }
      var instDependencies := dependencies[inst];
      for n := 0 to |instDependencies|
        invariant out == DependencyLines(instDependencies[..n], address)
      {
        DependencyLinesSnoc(instDependencies, n, address);
        var line := DependencyLine(instDependencies[n], address);
        out := out + line;
      }
      assert instDependencies[..|instDependencies|] == instDependencies;
    }
  }
}
