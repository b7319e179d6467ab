/**
 * The abstract IR the three passes walk: a function is a sequence of basic
 * blocks, a block a sequence of instructions. LLVM objects are identified by
 * address; here every instruction and block carries an `id` that stands for
 * that address, and the debug metadata the passes consult is stored on the
 * instruction or function as optional fields.
 */
module IR {
  import opened Wrappers

  /** The address of an IR value (an instruction, a stack slot, an argument, ...). */
  type ValueRef = nat

  /** A source location as a `DILocation` records it. */
  datatype Location = Location(file: string, line: nat, column: nat)

  /** A `DILocalVariable`: a local variable declared in the source. */
  datatype LocalVariable = LocalVariable(name: string)

  /**
   * What a debug-info intrinsic (`llvm.dbg.declare`, `llvm.dbg.value`, ...)
   * says: which source variable it describes, the IR value holding that
   * variable, and whether it declares the value to be the variable's address.
   */
  datatype DbgInfo = DbgInfo(variable: LocalVariable, location: ValueRef, isAddressOf: bool)

  /**
   * An instruction. `loc` is its `!dbg` attachment; `dbg` is present exactly
   * when the instruction is a debug-info intrinsic; `isCall` is whether it is
   * a call or invoke (a `CallSite`).
   */
  datatype Instruction = Instruction(
    id: ValueRef,
    name: string,
    opcode: string,
    mayRead: bool,
    mayWrite: bool,
    isCall: bool,
    loc: Option<Location>,
    dbg: Option<DbgInfo>)
  {
    predicate MayReadOrWriteMemory() {
      mayRead || mayWrite
    }
  }

  datatype Block = Block(id: ValueRef, name: string, insts: seq<Instruction>)

  /** The `DISubprogram` attached to a function. */
  datatype Subprogram = Subprogram(name: string, file: string, line: nat)

  /** A function; `moduleName` is the name of the module that contains it. */
  datatype Function = Function(
    name: string,
    moduleName: string,
    subprogram: Option<Subprogram>,
    blocks: seq<Block>)

  datatype Module = Module(name: string, sourceFileName: string)

  /** Number of instructions in a sequence of blocks. */
  function InstructionCount(blocks: seq<Block>): nat
    decreases |blocks|
  {
    if blocks == [] then 0
    else InstructionCount(blocks[..|blocks| - 1]) + |blocks[|blocks| - 1].insts|
  }

  /**
   * All instructions of the blocks in program order: the blocks in order,
   * and within each block its instructions in order.
   */
  function Instructions(blocks: seq<Block>): (r: seq<Instruction>)
    ensures |r| == InstructionCount(blocks)
    ensures forall b, i :: b in blocks && i in b.insts ==> i in r
    ensures forall i :: i in r ==> exists b :: b in blocks && i in b.insts
    decreases |blocks|
  {
    if blocks == [] then []
    else
      var front := blocks[..|blocks| - 1];
      assert forall b :: b in front ==> b in blocks;
      assert forall b :: b in blocks ==> b in front || b == blocks[|blocks| - 1];
      Instructions(front) + blocks[|blocks| - 1].insts
  }

  /** No two positions hold the same instruction object. */
  predicate DistinctIds(insts: seq<Instruction>) {
    forall a, b :: 0 <= a < b < |insts| ==> insts[a].id != insts[b].id
  }

  /** A function in which every instruction object occurs once. */
  predicate WellFormed(f: Function) {
    DistinctIds(Instructions(f.blocks))
  }
}
