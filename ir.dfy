/**
 * The compiler substrate the three passes touch, reduced to what they read
 * and write: a module is an ordered list of functions, a function an ordered
 * list of basic blocks, a block an ordered list of instructions, and an
 * instruction an opcode, its operands and a debug location. The same shapes
 * serve for LLVM IR functions and for RISC-V machine functions.
 */
module IR {

  /** A source location attached to an instruction; `NoLoc` is an empty DebugLoc. */
  datatype DebugLoc = NoLoc | Loc(line: nat, column: nat)

  datatype Opcode =
    | Checkcap               // the RISC-V CHECKCAP machine instruction
    | Call(callee: string)   // an IR call to the named function
    | Other(name: string)    // any other opcode; the passes never look inside

  datatype Operand =
    | Imm(value: int)                     // a machine immediate (`addImm`)
    | ConstInt(bits: nat, value: int)     // an IR integer constant (`getInt16`)
    | Value(id: nat)                      // any other operand

  datatype Instr = Instr(opcode: Opcode, operands: seq<Operand>, loc: DebugLoc)

  datatype Block = Block(instrs: seq<Instr>)

  datatype Function = Function(name: string, blocks: seq<Block>)
  {
    /** A function without a body: as in LLVM, one with no basic blocks. */
    predicate IsDeclaration() { blocks == [] }
  }

  /** An LLVM module: its source file name and its function list, which passes update in place. */
  class Module {
    var sourceFileName: string
    var functions: seq<Function>

    constructor (sourceFileName: string, functions: seq<Function>)
      ensures this.sourceFileName == sourceFileName && this.functions == functions
    {
      this.sourceFileName := sourceFileName;
      this.functions := functions;
    }
  }

  /** An LLVM STATISTIC counter: a process-wide tally that passes increment. */
  class Statistic {
    var value: nat

    constructor ()
      ensures value == 0
    {
      value := 0;
    }
  }

  /**
   * The number of instructions in a list of blocks: every block's
   * instructions are counted, and the count is zero only when every block
   * is empty.
   */
  function TotalInstrs(blocks: seq<Block>): (t: nat)
    ensures forall k :: 0 <= k < |blocks| ==> |blocks[k].instrs| <= t
    ensures t == 0 <==> forall k :: 0 <= k < |blocks| ==> blocks[k].instrs == []
  {
    if blocks == [] then 0
    else
      var t := |blocks[0].instrs| + TotalInstrs(blocks[1..]);
      assert forall k :: 1 <= k < |blocks| ==> blocks[k] == blocks[1..][k - 1];
      t
  }

  /** Counting the blocks of `a + b` is counting those of `a`, then those of `b`. */
  lemma {:induction false} TotalInstrsAppend(a: seq<Block>, b: seq<Block>)
    ensures TotalInstrs(a + b) == TotalInstrs(a) + TotalInstrs(b)
  {
    if a == [] {
      assert a + b == b;
    } else {
      assert (a + b)[1..] == a[1..] + b;
      TotalInstrsAppend(a[1..], b);
    }
  }

  /**
   * Inserting `i` before the first instruction of the entry block: the entry
   * block gains `i` at its head, keeps its old instructions in order after it,
   * and every other block is left as it was.
   */
  function PrependToEntry(blocks: seq<Block>, i: Instr): (r: seq<Block>)
    requires blocks != []
    ensures |r| == |blocks| && r[1..] == blocks[1..]
    ensures |r[0].instrs| == |blocks[0].instrs| + 1
    ensures r[0].instrs[0] == i && r[0].instrs[1..] == blocks[0].instrs
    ensures TotalInstrs(r) == TotalInstrs(blocks) + 1
  {
    var r := [Block([i] + blocks[0].instrs)] + blocks[1..];
    assert r[1..] == blocks[1..];
    r
  }

  /** Removes the first instruction of the entry block: the inverse of `PrependToEntry`. */
  function DropEntryHead(blocks: seq<Block>): (r: seq<Block>)
    requires blocks != [] && blocks[0].instrs != []
    ensures |r| == |blocks| && r[1..] == blocks[1..]
    ensures TotalInstrs(r) + 1 == TotalInstrs(blocks)
  {
    var r := [Block(blocks[0].instrs[1..])] + blocks[1..];
    assert r[1..] == blocks[1..];
    r
  }

  /** Prepending and then dropping the entry instruction gives back the original blocks. */
  lemma DropAfterPrepend(blocks: seq<Block>, i: Instr)
    requires blocks != []
    ensures DropEntryHead(PrependToEntry(blocks, i)) == blocks
  {
    var r := DropEntryHead(PrependToEntry(blocks, i));
    assert r[0] == blocks[0];
    assert r == [r[0]] + r[1..];
    assert blocks == [blocks[0]] + blocks[1..];
  }
}
