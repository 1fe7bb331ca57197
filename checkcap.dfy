/**
 * The RISC-V machine pass `riscv-expand-checkcap`: it places a CHECKCAP
 * instruction with immediate 23 at the head of a machine function's first
 * block, carrying the debug location of the instruction that was first,
 * counts the function's instructions afterwards, and, on the first call in
 * the process only, bumps the global `glb` by two.
 */
module MachineCheckcap {
  import opened IR

  /** The compartment id the pass always writes into CHECKCAP. */
  const CheckcapId := 23

  /** `BuildMI(..., DL, TII->get(RISCV::CHECKCAP)).addImm(23)`. */
  function CheckcapInstr(loc: DebugLoc): (i: Instr)
    ensures i.opcode == Checkcap && i.operands == [Imm(23)] && i.loc == loc
  {
    Instr(Checkcap, [Imm(CheckcapId)], loc)
  }

  /** A machine function: its name and its blocks, which the pass edits in place. */
  class MachineFunction {
    var name: string
    var blocks: seq<Block>

    constructor (name: string, blocks: seq<Block>)
      ensures this.name == name && this.blocks == blocks
    {
      this.name := name;
      this.blocks := blocks;
    }
  }

  /** The process-wide globals `int glb = 20` and `bool status = 0`. */
  class Globals {
    var glb: int
    var status: bool

    constructor ()
      ensures glb == 20 && !status
    {
      glb, status := 20, false;
    }
  }

  /**
   * The one-shot update of `(glb, status)` each call of the pass performs:
   * afterwards `status` is set, and `glb` has grown by two exactly when
   * `status` was clear before.
   */
  function OneShot(glb: int, status: bool): (r: (int, bool))
    ensures r.1
    ensures r.0 == if status then glb else glb + 2
  {
    if !status then (glb + 2, true) else (glb, status)
  }

  /** `(glb, status)` after the pass has run `n` times in a fresh process. */
  function AfterCalls(n: nat): (int, bool)
  {
    if n == 0 then (20, false) else OneShot(AfterCalls(n - 1).0, AfterCalls(n - 1).1)
  }

  /** `glb` is bumped exactly once per process: it is 22, and `status` set, after any positive number of calls. */
  lemma {:induction false} GlobalsAfterCalls(n: nat)
    ensures AfterCalls(n) == if n == 0 then (20, false) else (22, true)
  {
    if n > 0 {
      GlobalsAfterCalls(n - 1);
    }
  }

  /** The pass's counting loop: it visits every block and every instruction in it. */
  method CountInstructions(blocks: seq<Block>) returns (numInstr: nat, bb: nat)
    ensures numInstr == TotalInstrs(blocks) && bb == |blocks|
  {
    numInstr, bb := 0, 0;
    var i := 0;
    while i < |blocks|
      invariant 0 <= i <= |blocks| && bb == i
      invariant numInstr == TotalInstrs(blocks[..i])
    {
      var j := 0;
      while j < |blocks[i].instrs|
        invariant 0 <= j <= |blocks[i].instrs|
        invariant numInstr == TotalInstrs(blocks[..i]) + j
      {
        numInstr := numInstr + 1;
        j := j + 1;
      }
      bb := bb + 1;
      assert TotalInstrs([blocks[i]]) == |blocks[i].instrs| by {
        assert [blocks[i]][1..] == [];
      }
      TotalInstrsAppend(blocks[..i], [blocks[i]]);
      assert blocks[..i + 1] == blocks[..i] + [blocks[i]];
      i := i + 1;
    }
    assert blocks[..i] == blocks;
  }

  /**
   * `runOnMachineFunction`: CHECKCAP 23 becomes the first instruction, with
   * the old first instruction's debug location, and nothing else in the
   * function moves; the count it reports is the old total plus one; the
   * globals take their one-shot step. It reports the function as unmodified.
   */
  method RunOnMachineFunction(mf: MachineFunction, globals: Globals) returns (modified: bool, numInstr: nat)
    requires mf.blocks != [] && mf.blocks[0].instrs != []
    modifies mf`blocks, globals
    ensures mf.blocks == PrependToEntry(old(mf.blocks), CheckcapInstr(old(mf.blocks[0].instrs[0].loc)))
    ensures numInstr == TotalInstrs(old(mf.blocks)) + 1
    ensures (globals.glb, globals.status) == OneShot(old(globals.glb), old(globals.status))
    ensures !modified
  {
    var firstMI := mf.blocks[0].instrs[0];
    var dl := firstMI.loc;
    mf.blocks := PrependToEntry(mf.blocks, CheckcapInstr(dl));
    var bb;
    numInstr, bb := CountInstructions(mf.blocks);
    if !globals.status {
      globals.glb := globals.glb + 1;
      globals.glb := globals.glb + 1;
      globals.status := true;
    }
    modified := false;
  }
}
