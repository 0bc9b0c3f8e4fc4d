/** The part of LLVM's intermediate representation that the taint tracker looks at.
    An instruction is identified by its position: function, block, index in the block. */
module IR {
  import opened Options

  datatype Value =
    | Inst(f: nat, b: nat, k: nat)
    | Arg(f: nat, n: nat)
    | Global(g: nat)
    | FuncRef(fn: nat)
    | IntConst(width: nat, c: int)
    | OtherConst(id: nat)

  /** `callee` is what `getCalledFunction` answers: None for an indirect call. */
  datatype Instr =
    | Alloca(size: Value, isStruct: bool)
    | Load(ptr: Value)
    | Store(val: Value, ptr: Value)
    | Gep(base: Value, indices: seq<Value>)
    | Phi(incoming: seq<Value>)
    | Call(callee: Option<nat>, called: Value, args: seq<Value>)
    | Ret(result: Option<Value>)
    | Other(name: string, operands: seq<Value>)

  /** `params[n]` says whether parameter `n` has pointer type. */
  datatype Function = Function(name: string, params: seq<bool>, blocks: seq<seq<Instr>>)

  /** `casts` is `stripPointerCasts` where it changes a value; `uses` gives each value's
      use list, in whatever order LLVM keeps it. */
  datatype Module = Module(funcs: seq<Function>, casts: map<Value, Value>, uses: map<Value, seq<Value>>)

  predicate IsInst(m: Module, v: Value) {
    v.Inst? && v.f < |m.funcs| && v.b < |m.funcs[v.f].blocks| && v.k < |m.funcs[v.f].blocks[v.b]|
  }

  /** The instruction at `v`; a value that is no instruction answers no `isa` question. */
  function At(m: Module, v: Value): Instr {
    if IsInst(m, v) then m.funcs[v.f].blocks[v.b][v.k] else Other("", [])
  }

  function Opcode(i: Instr): string {
    match i
    case Alloca(_, _) => "alloca"
    case Load(_) => "load"
    case Store(_, _) => "store"
    case Gep(_, _) => "getelementptr"
    case Phi(_) => "phi"
    case Call(_, _, _) => "call"
    case Ret(_) => "ret"
    case Other(name, _) => name
  }

  function Ops(i: Instr): seq<Value> {
    match i
    case Alloca(size, _) => [size]
    case Load(ptr) => [ptr]
    case Store(val, ptr) => [val, ptr]
    case Gep(base, indices) => [base] + indices
    case Phi(incoming) => incoming
    case Call(_, called, args) => args + [called]
    case Ret(result) => if result.Some? then [result.value] else []
    case Other(_, operands) => operands
  }

  predicate IsUser(m: Module, u: Value, v: Value) {
    IsInst(m, u) && v in Ops(At(m, u))
  }

  function UseList(m: Module, v: Value): seq<Value> {
    if v in m.uses then m.uses[v] else []
  }

  function Strip(m: Module, v: Value): Value {
    if v in m.casts then m.casts[v] else v
  }

  /** Instructions and arguments live in one function; everything else is module-wide. */
  predicate IsLocal(v: Value) { v.Inst? || v.Arg? }

  function FnOf(v: Value): nat
    requires IsLocal(v)
  {
    v.f
  }

  predicate IsArg(m: Module, v: Value) {
    v.Arg? && v.f < |m.funcs| && v.n < |m.funcs[v.f].params|
  }

  predicate IsPtrArg(m: Module, v: Value) {
    IsArg(m, v) && m.funcs[v.f].params[v.n]
  }

  /** A value that exists and may be used inside function `f`. */
  predicate UsableIn(m: Module, f: nat, v: Value) {
    match v
    case Inst(g, _, _) => IsInst(m, v) && g == f
    case Arg(g, _) => IsArg(m, v) && g == f
    case _ => true
  }

  predicate IsDeclaration(f: Function) { f.blocks == [] }

  /** What LLVM's verifier guarantees, as far as the tracker depends on it. */
  ghost predicate WellFormed(m: Module) {
    && (forall u, v :: IsUser(m, u, v) ==> UsableIn(m, u.f, v))
    && (forall u, v :: u in UseList(m, v) <==> IsUser(m, u, v))
    && (forall v :: v in m.casts ==> CastOk(m, v, m.casts[v]))
    && (forall u :: IsInst(m, u) ==> InstrOk(m, At(m, u)))
  }

  ghost predicate CastOk(m: Module, v: Value, w: Value) {
    && w !in m.casts
    && (IsLocal(v) ==> UsableIn(m, FnOf(v), w))
    && (IsLocal(w) ==> IsLocal(v))
  }

  ghost predicate InstrOk(m: Module, i: Instr) {
    && (i.Store? ==> !i.ptr.IntConst?)
    && (i.Call? && i.callee.Some? ==> i.callee.value < |m.funcs|)
  }

  ghost function Insts(m: Module): set<Value> {
    set f: nat, b: nat, k: nat | f < |m.funcs| && b < |m.funcs[f].blocks| && k < |m.funcs[f].blocks[b]| :: Inst(f, b, k)
  }

  /** Everything that can be tainted. */
  ghost function Locals(m: Module): set<Value> {
    Insts(m) + set f: nat, n: nat | f < |m.funcs| && n < |m.funcs[f].params| :: Arg(f, n)
  }

  /** Every value the module mentions, with and without its casts. */
  ghost function Universe(m: Module): set<Value> {
    var vs := Locals(m) + set u, v | u in Insts(m) && v in Ops(At(m, u)) :: v;
    vs + set v | v in vs :: Strip(m, v)
  }

  lemma InstsAre(m: Module, v: Value)
    ensures v in Insts(m) <==> IsInst(m, v)
    ensures v in Locals(m) <==> IsInst(m, v) || IsArg(m, v)
  {
  }

  lemma OperandInUniverse(m: Module, u: Value, v: Value)
    requires IsUser(m, u, v)
    ensures v in Universe(m) && Strip(m, v) in Universe(m)
  {
    InstsAre(m, u);
  }

  lemma StripInUniverse(m: Module, v: Value)
    requires WellFormed(m) && v in Universe(m)
    ensures Strip(m, v) in Universe(m) && Strip(m, Strip(m, v)) == Strip(m, v)
  {
  }

  lemma StripUsable(m: Module, f: nat, v: Value)
    requires WellFormed(m) && UsableIn(m, f, v)
    ensures UsableIn(m, f, Strip(m, v))
    ensures IsLocal(Strip(m, v)) ==> IsLocal(v)
  {
  }

  // ----- program order -----

  function BlockOrder(f: nat, b: nat, n: nat): (s: seq<Value>)
    ensures |s| == n
    ensures forall k :: 0 <= k < n ==> s[k] == Inst(f, b, k)
  {
    seq(n, k requires 0 <= k => Inst(f, b, k))
  }

  /** The instructions of the first `n` blocks of function `f`, in program order. */
  function BlocksOrder(m: Module, f: nat, n: nat): seq<Value>
    requires f < |m.funcs| && n <= |m.funcs[f].blocks|
  {
    if n == 0 then [] else BlocksOrder(m, f, n - 1) + BlockOrder(f, n - 1, |m.funcs[f].blocks[n - 1]|)
  }

  function FunctionOrder(m: Module, f: nat): seq<Value>
    requires f < |m.funcs|
  {
    BlocksOrder(m, f, |m.funcs[f].blocks|)
  }

  function FunctionsOrder(m: Module, n: nat): seq<Value>
    requires n <= |m.funcs|
  {
    if n == 0 then [] else FunctionsOrder(m, n - 1) + FunctionOrder(m, n - 1)
  }

  /** All instructions of the module in the order of its nested loops over functions,
      blocks and instructions; a declaration contributes none. */
  function ProgramOrder(m: Module): seq<Value> {
    FunctionsOrder(m, |m.funcs|)
  }

  lemma {:induction false} BlocksOrderHas(m: Module, f: nat, n: nat, v: Value)
    requires f < |m.funcs| && n <= |m.funcs[f].blocks|
    ensures v in BlocksOrder(m, f, n) <==> IsInst(m, v) && v.f == f && v.b < n
  {
    if n > 0 {
      BlocksOrderHas(m, f, n - 1, v);
      var last := BlockOrder(f, n - 1, |m.funcs[f].blocks[n - 1]|);
      if IsInst(m, v) && v.f == f && v.b == n - 1 {
        assert last[v.k] == v;
      }
    }
  }

  lemma {:induction false} FunctionsOrderHas(m: Module, n: nat, v: Value)
    requires n <= |m.funcs|
    ensures v in FunctionsOrder(m, n) <==> IsInst(m, v) && v.f < n
  {
    if n > 0 {
      FunctionsOrderHas(m, n - 1, v);
      BlocksOrderHas(m, n - 1, |m.funcs[n - 1].blocks|, v);
    }
  }

  /** Program order visits exactly the module's instructions. */
  lemma ProgramOrderHas(m: Module, v: Value)
    ensures v in ProgramOrder(m) <==> IsInst(m, v)
  {
    FunctionsOrderHas(m, |m.funcs|, v);
  }

  /** Program order on instructions: function, then block, then index. */
  predicate NotAfter(u: Value, w: Value) {
    u.Inst? && w.Inst? &&
    (u.f < w.f || (u.f == w.f && (u.b < w.b || (u.b == w.b && u.k <= w.k))))
  }

  ghost predicate Sorted(s: seq<Value>) {
    forall i, j :: 0 <= i <= j < |s| ==> NotAfter(s[i], s[j])
  }

  lemma SortedConcat(s: seq<Value>, t: seq<Value>)
    requires Sorted(s) && Sorted(t) && forall u, w :: u in s && w in t ==> NotAfter(u, w)
    ensures Sorted(s + t)
  {
    forall i, j | 0 <= i <= j < |s + t| ensures NotAfter((s + t)[i], (s + t)[j]) {
      if i < |s| <= j { assert s[i] in s && t[j - |s|] in t; }
    }
  }

  lemma {:induction false} BlocksSorted(m: Module, f: nat, n: nat)
    requires f < |m.funcs| && n <= |m.funcs[f].blocks|
    ensures Sorted(BlocksOrder(m, f, n))
  {
    if n > 0 {
      BlocksSorted(m, f, n - 1);
      var last := BlockOrder(f, n - 1, |m.funcs[f].blocks[n - 1]|);
      forall u, w | u in BlocksOrder(m, f, n - 1) && w in last ensures NotAfter(u, w) {
        BlocksOrderHas(m, f, n - 1, u);
      }
      SortedConcat(BlocksOrder(m, f, n - 1), last);
    }
  }

  lemma {:induction false} FunctionsSorted(m: Module, n: nat)
    requires n <= |m.funcs|
    ensures Sorted(FunctionsOrder(m, n))
  {
    if n > 0 {
      FunctionsSorted(m, n - 1);
      BlocksSorted(m, n - 1, |m.funcs[n - 1].blocks|);
      forall u, w | u in FunctionsOrder(m, n - 1) && w in FunctionOrder(m, n - 1) ensures NotAfter(u, w) {
        FunctionsOrderHas(m, n - 1, u);
        BlocksOrderHas(m, n - 1, |m.funcs[n - 1].blocks|, w);
      }
      SortedConcat(FunctionsOrder(m, n - 1), FunctionOrder(m, n - 1));
    }
  }

  lemma ProgramOrderSorted(m: Module)
    ensures Sorted(ProgramOrder(m))
  {
    FunctionsSorted(m, |m.funcs|);
  }

  /** The number of instructions in the first `b` blocks of function `f`. */
  function Preceding(m: Module, f: nat, b: nat): nat
    requires f < |m.funcs| && b <= |m.funcs[f].blocks|
  {
    if b == 0 then 0 else Preceding(m, f, b - 1) + |m.funcs[f].blocks[b - 1]|
  }

  /** The offset of an instruction from the start of its function. */
  function Offset(m: Module, v: Value): nat
    requires IsInst(m, v)
  {
    Preceding(m, v.f, v.b) + v.k
  }

  lemma {:induction false} BlocksOrderOffset(m: Module, f: nat, n: nat, v: Value)
    requires f < |m.funcs| && n <= |m.funcs[f].blocks| && IsInst(m, v) && v.f == f && v.b < n
    ensures |BlocksOrder(m, f, n)| == Preceding(m, f, n)
    ensures Offset(m, v) < Preceding(m, f, n) && BlocksOrder(m, f, n)[Offset(m, v)] == v
  {
    BlocksOrderLength(m, f, n - 1);
    if v.b < n - 1 {
      BlocksOrderOffset(m, f, n - 1, v);
    }
  }

  lemma {:induction false} BlocksOrderLength(m: Module, f: nat, n: nat)
    requires f < |m.funcs| && n <= |m.funcs[f].blocks|
    ensures |BlocksOrder(m, f, n)| == Preceding(m, f, n)
  {
    if n > 0 { BlocksOrderLength(m, f, n - 1); }
  }

  /** In its function's order, an instruction stands exactly at its offset. */
  lemma FunctionOrderOffset(m: Module, v: Value)
    requires IsInst(m, v)
    ensures Offset(m, v) < |FunctionOrder(m, v.f)| && FunctionOrder(m, v.f)[Offset(m, v)] == v
  {
    BlocksOrderOffset(m, v.f, |m.funcs[v.f].blocks|, v);
  }
}
