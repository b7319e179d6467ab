/**
 * The source variable mapper: scans a function for debug-info intrinsics
 * and, for each one that declares an IR value to be the address of a source
 * variable, binds that value to the variable and to the intrinsic's own
 * debug location. A later binding for the same value replaces an earlier one.
 */
module Variables {
  import opened Wrappers
  import opened IR
  import opened Text

  /** A declared local variable with the debug location of the binding intrinsic. */
  datatype SourceVariable = SourceVariable(variable: LocalVariable, loc: Option<Location>)

  /** Each IR value is bound to at most one source variable. */
  type SourceVariableMap = map<ValueRef, SourceVariable>

  /** Whether `inst` is an address-of debug intrinsic for the value `v`. */
  predicate BindsAddress(inst: Instruction, v: ValueRef) {
    inst.dbg.Some? && inst.dbg.value.isAddressOf && inst.dbg.value.location == v
  }

  /** The binding an address-of intrinsic records. */
  function BindingOf(inst: Instruction): SourceVariable
    requires inst.dbg.Some?
  {
    SourceVariable(inst.dbg.value.variable, inst.loc)
  }

  /** The effect of one loop iteration of the mapper on instruction `inst`. */
  function Bind(m: SourceVariableMap, inst: Instruction): (r: SourceVariableMap)
    ensures inst.dbg.None? || !inst.dbg.value.isAddressOf ==> r == m
    ensures forall v :: v in r <==> v in m || BindsAddress(inst, v)
    ensures forall v :: v in m && !BindsAddress(inst, v) ==> r[v] == m[v]
  {
    match inst.dbg
    case None => m
    case Some(info) =>
      if info.isAddressOf then m[info.location := SourceVariable(info.variable, inst.loc)] else m
  }

  /** The mapping after visiting `insts` in program order, starting from `m`. */
  function BindAll(m: SourceVariableMap, insts: seq<Instruction>): (r: SourceVariableMap)
    ensures forall v :: v in m ==> v in r
    decreases |insts|
  {
    if insts == [] then m else Bind(BindAll(m, insts[..|insts| - 1]), insts[|insts| - 1])
  }

  /** Whether some instruction of `insts` is an address-of intrinsic for `v`. */
  predicate BoundIn(insts: seq<Instruction>, v: ValueRef) {
    exists k :: 0 <= k < |insts| && BindsAddress(insts[k], v)
  }

  /** The values bound after the walk: those bound before and those some address-of intrinsic names. */
  lemma {:induction false} BindAllKeys(m: SourceVariableMap, insts: seq<Instruction>)
    ensures forall v :: v in BindAll(m, insts) <==> v in m || BoundIn(insts, v)
    decreases |insts|
  {
    if insts != [] {
      var front := insts[..|insts| - 1];
      BindAllKeys(m, front);
      forall v ensures BoundIn(insts, v) <==> BoundIn(front, v) || BindsAddress(insts[|insts| - 1], v) {
        if BoundIn(insts, v) {
          var k :| 0 <= k < |insts| && BindsAddress(insts[k], v);
          if k < |front| {
            assert front[k] == insts[k];
          }
        }
        if BoundIn(front, v) {
          var k :| 0 <= k < |front| && BindsAddress(front[k], v);
          assert insts[k] == front[k];
        }
      }
    }
  }

  /**
   * Last write wins: when the k-th instruction is the last address-of
   * intrinsic for `v`, the binding of `v` after the walk is the variable and
   * location of that instruction.
   */
  lemma {:induction false} LastWriteWins(m: SourceVariableMap, insts: seq<Instruction>, k: nat, v: ValueRef)
    requires k < |insts| && BindsAddress(insts[k], v)
    requires forall j :: k < j < |insts| ==> !BindsAddress(insts[j], v)
    ensures v in BindAll(m, insts) && BindAll(m, insts)[v] == BindingOf(insts[k])
    decreases |insts|
  {
    var last := |insts| - 1;
    if k < last {
      var front := insts[..last];
      assert front[k] == insts[k];
      LastWriteWins(m, front, k, v);
      assert !BindsAddress(insts[last], v);
    }
  }

  /** A value that no visited intrinsic binds keeps its binding, or its absence. */
  lemma {:induction false} UnboundValueUntouched(m: SourceVariableMap, insts: seq<Instruction>, v: ValueRef)
    requires forall k :: 0 <= k < |insts| ==> !BindsAddress(insts[k], v)
    ensures v in BindAll(m, insts) <==> v in m
    ensures v in m ==> BindAll(m, insts)[v] == m[v]
    decreases |insts|
  {
    if insts != [] {
      var front := insts[..|insts| - 1];
      assert forall k :: 0 <= k < |front| ==> front[k] == insts[k];
      UnboundValueUntouched(m, front, v);
    }
  }

  /** Instructions that are not debug intrinsics do not change the mapping. */
  lemma {:induction false} NonDebugInstructionsIgnored(m: SourceVariableMap, insts: seq<Instruction>)
    requires forall k :: 0 <= k < |insts| ==> insts[k].dbg.None?
    ensures BindAll(m, insts) == m
    decreases |insts|
  {
    if insts != [] {
      BindAllFront(m, insts);
      NonDebugInstructionsIgnored(m, insts[..|insts| - 1]);
    }
  }

  lemma BindAllFront(m: SourceVariableMap, insts: seq<Instruction>)
    requires insts != []
    ensures forall k :: 0 <= k < |insts| - 1 ==> insts[..|insts| - 1][k] == insts[k]
  {
  }

  class SourceVariableMapper {
    var mapping: SourceVariableMap

    constructor ()
      ensures mapping == map[]
    {
      mapping := map[];
    }

    /**
     * Walks every instruction of `f` in program order, binding the value of
     * each address-of debug intrinsic. The original falls off the end of
     * this non-void function, so no result is modelled.
     */
    method RunOnFunction(f: Function)
      modifies this
      ensures mapping == BindAll(old(mapping), Instructions(f.blocks))
    {
      var insts := Instructions(f.blocks);
      ghost var start := mapping;
      for n := 0 to |insts|
        invariant mapping == BindAll(start, insts[..n])
      {
        assert insts[..n + 1][..n] == insts[..n];
        var inst := insts[n];
        if inst.dbg.Some? {
          var info := inst.dbg.value;
          if info.isAddressOf {
            mapping := mapping[info.location := SourceVariable(info.variable, inst.loc)];
          }
        }
      }
      assert insts[..|insts|] == insts;
    }

    /** Forgets every binding. */
    method ReleaseMemory()
      modifies this
      ensures mapping == map[]
    {
      mapping := map[];
    }

    /** The current bindings. */
    method GetMapping() returns (m: SourceVariableMap)
      ensures m == mapping
    {
      m := mapping;
    }

    /** The header line of the printer: the number of bound values. */
    method Print() returns (found: nat, header: string)
      ensures found == |mapping|
      ensures header == "Found " + NatToString(found) + " mappings\n"
    {
      found := |mapping|;
      header := "Found " + NatToString(found) + " mappings\n";
    }
  }
}
