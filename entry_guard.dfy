/**
 * The IR pass `hello` in Transforms/Hello: for every function with a body it
 * inserts `call @llvm.riscv.checkcap(i16 23)` before the first instruction of
 * the entry block. Fetching the intrinsic's declaration adds it to the
 * module's function list when the module does not hold it yet.
 */
module EntryGuard {
  import opened IR

  /** The name `Intrinsic::getDeclaration` gives `Intrinsic::riscv_checkcap`. */
  const CheckcapIntrinsic := "llvm.riscv.checkcap"

  /** The guard id the pass passes to every call, whatever the function. */
  const GuardId := 23

  /** The inserted call; IRBuilder gives it the debug location of the instruction it precedes. */
  function GuardCall(loc: DebugLoc): (i: Instr)
    ensures i.opcode == Call(CheckcapIntrinsic) && i.operands == [ConstInt(16, 23)] && i.loc == loc
  {
    Instr(Call(CheckcapIntrinsic), [ConstInt(16, GuardId)], loc)
  }

  /** Well-formed IR: an entry block, when there is one, holds an instruction to insert before. */
  predicate EntryAnchored(f: Function)
  {
    f.blocks != [] ==> f.blocks[0].instrs != []
  }

  predicate AllAnchored(functions: seq<Function>)
  {
    forall k :: 0 <= k < |functions| ==> EntryAnchored(functions[k])
  }

  /**
   * One function after the pass: a definition's entry block starts with the
   * guard call located where its old first instruction was, followed by its
   * old instructions; its other blocks and its name are untouched; a
   * declaration is unchanged.
   */
  function GuardFunction(f: Function): (g: Function)
    requires EntryAnchored(f)
    ensures g.name == f.name && |g.blocks| == |f.blocks| && EntryAnchored(g)
    ensures f.IsDeclaration() ==> g == f
    ensures !f.IsDeclaration() ==>
      && g.blocks[0].instrs == [GuardCall(f.blocks[0].instrs[0].loc)] + f.blocks[0].instrs
      && g.blocks[1..] == f.blocks[1..]
    ensures !f.IsDeclaration() ==> TotalInstrs(g.blocks) == TotalInstrs(f.blocks) + 1
  {
    if f.IsDeclaration() then f
    else
      var blocks := PrependToEntry(f.blocks, GuardCall(f.blocks[0].instrs[0].loc));
      assert blocks[0].instrs == [blocks[0].instrs[0]] + blocks[0].instrs[1..];
      Function(f.name, blocks)
  }

  /** Undoes the pass on one function: drops the first instruction of a definition's entry block. */
  function UnguardFunction(g: Function): Function
    requires EntryAnchored(g)
  {
    if g.IsDeclaration() then g else Function(g.name, DropEntryHead(g.blocks))
  }

  /** The pass loses nothing: removing the inserted call gives back the original function. */
  lemma UnguardAfterGuard(f: Function)
    requires EntryAnchored(f)
    ensures UnguardFunction(GuardFunction(f)) == f
  {
    if !f.IsDeclaration() {
      DropAfterPrepend(f.blocks, GuardCall(f.blocks[0].instrs[0].loc));
    }
  }

  predicate Declares(functions: seq<Function>, name: string)
  {
    exists k :: 0 <= k < |functions| && functions[k].name == name
  }

  /** The body-less function `Intrinsic::getDeclaration` adds to the module. */
  function IntrinsicDeclaration(): (d: Function)
    ensures d.name == CheckcapIntrinsic && d.IsDeclaration()
  {
    Function(CheckcapIntrinsic, [])
  }

  /**
   * The function list once the loop has fetched the intrinsic: it does so
   * only while visiting a function, so an empty module gets nothing; the
   * declaration goes at the end when it is missing.
   */
  function WithIntrinsic(functions: seq<Function>): (r: seq<Function>)
    ensures |r| >= |functions| && r[..|functions|] == functions
    ensures |r| == |functions| + (if functions != [] && !Declares(functions, CheckcapIntrinsic) then 1 else 0)
    ensures |r| > |functions| ==> r[|functions|] == IntrinsicDeclaration()
    ensures functions != [] ==> Declares(r, CheckcapIntrinsic)
  {
    if functions != [] && !Declares(functions, CheckcapIntrinsic)
    then functions + [IntrinsicDeclaration()]
    else functions
  }

  function GuardAll(functions: seq<Function>): (r: seq<Function>)
    requires AllAnchored(functions)
    ensures |r| == |functions| && AllAnchored(r)
  {
    seq(|functions|, k requires 0 <= k < |functions| => GuardFunction(functions[k]))
  }

  /** The function list after `Hello::runOnModule`. */
  function GuardModule(functions: seq<Function>): (r: seq<Function>)
    requires AllAnchored(functions)
    ensures AllAnchored(r) && |r| >= |functions|
    ensures functions != [] ==> Declares(r, CheckcapIntrinsic)
  {
    var all := WithIntrinsic(functions);
    GuardKeepsNames(all, [], CheckcapIntrinsic);
    assert all + [] == all && GuardAll(all) + [] == GuardAll(all);
    GuardAll(all)
  }

  /**
   * The module after the pass: each original function in its place, guarded
   * if it has a body and unchanged if not, then the intrinsic's declaration
   * when the module was non-empty and lacked it.
   */
  lemma GuardModuleContents(functions: seq<Function>)
    requires AllAnchored(functions)
    ensures var r := GuardModule(functions);
      && |r| == |functions| + (if functions != [] && !Declares(functions, CheckcapIntrinsic) then 1 else 0)
      && (forall k :: 0 <= k < |functions| ==> r[k] == GuardFunction(functions[k]))
      && (|r| > |functions| ==> r[|functions|] == IntrinsicDeclaration())
  {
  }

  /**
   * The pass has no idempotence guard: run twice, a definition's entry block
   * starts with two guard calls, both at the old first instruction's
   * location, ahead of its original instructions.
   */
  lemma GuardTwice(functions: seq<Function>, k: nat)
    requires AllAnchored(functions) && k < |functions| && !functions[k].IsDeclaration()
    ensures
      var f := functions[k];
      var loc := f.blocks[0].instrs[0].loc;
      && GuardModule(GuardModule(functions))[k].blocks[0].instrs
         == [GuardCall(loc), GuardCall(loc)] + f.blocks[0].instrs
      && GuardModule(GuardModule(functions))[k].blocks[1..] == f.blocks[1..]
  {
    var once := GuardModule(functions);
    var g := GuardFunction(functions[k]);
    assert once[k] == g by {
      GuardModuleContents(functions);
    }
    assert GuardModule(once)[k] == GuardFunction(g) by {
      GuardModuleContents(once);
    }
  }

  /** Guarding keeps every function's name, so it keeps what the module declares. */
  lemma GuardKeepsNames(done: seq<Function>, rest: seq<Function>, name: string)
    requires AllAnchored(done)
    ensures Declares(GuardAll(done) + rest, name) <==> Declares(done + rest, name)
  {
    var a, b := GuardAll(done) + rest, done + rest;
    assert forall k :: 0 <= k < |a| ==> a[k].name == b[k].name;
    if Declares(a, name) {
      var k :| 0 <= k < |a| && a[k].name == name;
      assert b[k].name == name;
    }
    if Declares(b, name) {
      var k :| 0 <= k < |b| && b[k].name == name;
      assert a[k].name == name;
    }
  }

  /**
   * The function list when the loop is about to visit function `i`: the
   * original list before the first visit; afterwards the first `i` functions
   * of the fetched list guarded and the rest as they were.
   */
  function Progress(orig: seq<Function>, i: nat): seq<Function>
    requires AllAnchored(orig) && i <= |WithIntrinsic(orig)|
  {
    WithIntrinsicAnchored(orig);
    var all := WithIntrinsic(orig);
    if i == 0 then orig else GuardAll(all[..i]) + all[i..]
  }

  lemma WithIntrinsicAnchored(functions: seq<Function>)
    requires AllAnchored(functions)
    ensures AllAnchored(WithIntrinsic(functions))
  {
  }

  /**
   * Fetching the intrinsic while visiting function `i`: the declaration is
   * appended on the first visit if it is missing, and is already there on
   * every later one.
   */
  lemma FetchIntrinsic(orig: seq<Function>, i: nat)
    requires AllAnchored(orig) && i <= |WithIntrinsic(orig)| && i < |Progress(orig, i)|
    ensures
      var current := Progress(orig, i);
      var all := WithIntrinsic(orig);
      && (if Declares(current, CheckcapIntrinsic) then current else current + [IntrinsicDeclaration()])
         == GuardAll(all[..i]) + all[i..]
      && i < |all| && (GuardAll(all[..i]) + all[i..])[i] == all[i] && EntryAnchored(all[i])
  {
    WithIntrinsicAnchored(orig);
    var all := WithIntrinsic(orig);
    if i == 0 {
      assert all[..0] == [] && all[0..] == all;
      assert GuardAll([]) == [];
    } else {
      GuardKeepsNames(all[..i], all[i..], CheckcapIntrinsic);
      assert all[..i] + all[i..] == all;
      if !Declares(orig, CheckcapIntrinsic) {
        assert all[|all| - 1] == IntrinsicDeclaration();
      } else {
        var k :| 0 <= k < |orig| && orig[k].name == CheckcapIntrinsic;
        assert all[k].name == CheckcapIntrinsic;
      }
    }
  }

  /** Guarding function `i` of the fetched list takes the loop to its next step. */
  lemma GuardStep(orig: seq<Function>, i: nat)
    requires AllAnchored(orig) && i < |WithIntrinsic(orig)|
    ensures
      var all := WithIntrinsic(orig);
      AllAnchored(all) &&
      (GuardAll(all[..i]) + all[i..])[i := GuardFunction(all[i])] == Progress(orig, i + 1)
  {
    WithIntrinsicAnchored(orig);
    var all := WithIntrinsic(orig);
    var lhs := (GuardAll(all[..i]) + all[i..])[i := GuardFunction(all[i])];
    var rhs := GuardAll(all[..i + 1]) + all[i + 1..];
    assert |lhs| == |rhs|;
    forall k | 0 <= k < |lhs|
      ensures lhs[k] == rhs[k]
    {
      if k < i {
        assert lhs[k] == GuardFunction(all[k]);
      } else if k > i {
        assert lhs[k] == all[k];
      }
    }
  }

  /** When the loop runs out of functions, the list is the guarded module. */
  lemma LoopExit(orig: seq<Function>, i: nat)
    requires AllAnchored(orig) && i <= |WithIntrinsic(orig)| && i >= |Progress(orig, i)|
    ensures Progress(orig, i) == GuardModule(orig)
  {
    var all := WithIntrinsic(orig);
    if i > 0 {
      assert all[..i] == all && all[i..] == [];
    }
  }

  /**
   * The inner loop over one function's blocks: the guard call goes before
   * the first instruction of the front block only, so a declaration, which
   * has no blocks, is left as it is.
   */
  method GuardEntryBlock(f: Function) returns (blocks: seq<Block>)
    requires EntryAnchored(f)
    ensures blocks == GuardFunction(f).blocks
  {
    blocks := f.blocks;
    var j := 0;
    while j < |blocks|
      invariant 0 <= j <= |blocks| == |f.blocks|
      invariant j == 0 ==> blocks == f.blocks
      invariant j > 0 ==> blocks == GuardFunction(f).blocks
    {
      if j == 0 {
        // the front block: insert before its first instruction
        var first := blocks[0].instrs[0];
        blocks := PrependToEntry(blocks, GuardCall(first.loc));
      }
      j := j + 1;
    }
  }

  /** `Intrinsic::getDeclaration`: appends the intrinsic's declaration to the module when it is missing. */
  method GetDeclaration(m: Module)
    modifies m`functions
    ensures m.functions == if Declares(old(m.functions), CheckcapIntrinsic) then old(m.functions)
                           else old(m.functions) + [IntrinsicDeclaration()]
  {
    if !Declares(m.functions, CheckcapIntrinsic) {
      m.functions := m.functions + [IntrinsicDeclaration()];
    }
  }

  /**
   * `Hello::runOnModule`: visits every function, the intrinsic's declaration
   * included once it has been added, and guards the entry block of each. It
   * reports the module as unmodified.
   */
  method RunOnModule(m: Module) returns (modified: bool)
    requires AllAnchored(m.functions)
    modifies m`functions
    ensures m.functions == GuardModule(old(m.functions))
    ensures !modified
  {
    ghost var orig := m.functions;
    var i := 0;
    while i < |m.functions|
      invariant i <= |WithIntrinsic(orig)|
      invariant m.functions == Progress(orig, i)
      decreases |WithIntrinsic(orig)| - i
    {
      FetchIntrinsic(orig, i);
      GetDeclaration(m);
      var f := m.functions[i];
      var blocks := GuardEntryBlock(f);
      assert Function(f.name, blocks) == GuardFunction(f);
      m.functions := m.functions[i := Function(f.name, blocks)];
      GuardStep(orig, i);
      i := i + 1;
    }
    LoopExit(orig, i);
    modified := false;
  }

  /** `Hello2::runOnFunction`: counts the function and reports no change. */
  method Hello2RunOnFunction(f: Function, helloCounter: Statistic) returns (modified: bool)
    modifies helloCounter
    ensures helloCounter.value == old(helloCounter.value) + 1
    ensures !modified
  {
    helloCounter.value := helloCounter.value + 1;
    modified := false;
  }
}
