/** The tracker's tables as one value, and what each step of the pass does to them. The
    engine's methods are proved to perform exactly these steps. */
module TaintState {
  import opened Options
  import opened IR
  import opened PointerOrigin
  import opened StructFields
  import opened FlowRules

  /** `done` and `pops` record the values taken off the worklist. */
  datatype State = State(
    work: seq<Value>, tainted: set<Value>, pointers: set<Value>, killed: set<Value>,
    returning: set<nat>, params: map<nat, set<nat>>, origin: map<Value, Value>,
    valueLevel: map<Value, int>, funcLevel: map<nat, int>,
    fields: map<(nat, nat), seq<int>>, done: set<Value>, pops: nat)

  const EMPTY := State([], {}, {}, {}, {}, map[], map[], map[], map[], map[], {}, 0)

  function ParamsOf(params: map<nat, set<nat>>, f: nat): set<nat> {
    if f in params then params[f] else {}
  }

  ghost predicate Holds(s: State, x: Fact) {
    match x
    case Val(v) => v in s.tainted
    case Ptr(p) => p in s.pointers
    case Returns(f) => f in s.returning
    case Param(g, n) => n in ParamsOf(s.params, g)
  }

  // ----- single updates -----

  ghost function Taint(s: State, u: Value, l: int): State {
    s.(work := s.work + [u], tainted := s.tainted + {u}, valueLevel := s.valueLevel[u := l])
  }

  /** The first instruction to mark a pointer stays its origin. */
  ghost function MarkPointer(s: State, p: Value, marker: Value): State {
    if p in s.pointers then s else s.(pointers := s.pointers + {p}, origin := s.origin[p := marker])
  }

  ghost function RecordReturn(s: State, f: nat): State { s.(returning := s.returning + {f}) }

  ghost function RecordParam(s: State, f: nat, n: nat): State {
    s.(params := s.params[f := ParamsOf(s.params, f) + {n}])
  }

  ghost function SetValueLevelIfAbsent(s: State, v: Value, l: int): State {
    if v in s.valueLevel then s else s.(valueLevel := s.valueLevel[v := l])
  }

  ghost function SetFuncLevelIfAbsent(s: State, f: nat, l: int): State {
    if f in s.funcLevel then s else s.(funcLevel := s.funcLevel[f := l])
  }

  function AddFields(known: seq<int>, new_: seq<int>): seq<int>
    decreases new_
  {
    if new_ == [] then known
    else AddFields(if new_[0] in known then known else known + [new_[0]], new_[1..])
  }

  function FieldsOf(fields: map<(nat, nat), seq<int>>, f: nat, n: nat): seq<int> {
    if (f, n) in fields then fields[(f, n)] else []
  }

  /** Remember which struct fields the address of a store through parameter `n` uses. */
  ghost function RecordFields(m: Module, s: State, f: nat, n: nat, address: Value): State {
    var used := FieldIndices(m, address);
    if used == [] then s
    else s.(fields := s.fields[(f, n) := AddFields(FieldsOf(s.fields, f, n), used)])
  }

  // ----- levels -----

  function LevelIn(valueLevel: map<Value, int>, funcLevel: map<nat, int>, v: Value): int {
    if v in valueLevel then valueLevel[v]
    else if IsLocal(v) && FnOf(v) in funcLevel then funcLevel[FnOf(v)]
    else 0
  }

  ghost function LevelOf(s: State, v: Value): int { LevelIn(s.valueLevel, s.funcLevel, v) }

  /** The level a caller of `f` gets. */
  ghost function CallerLevel(s: State, f: nat): int {
    (if f in s.funcLevel then s.funcLevel[f] else 0) + 1
  }

  /** A load takes the level of its function, if that is known. */
  ghost function EnsureLevel(s: State, u: Value): State
    requires IsLocal(u)
  {
    if FnOf(u) in s.funcLevel then SetValueLevelIfAbsent(s, u, s.funcLevel[FnOf(u)]) else s
  }

  // ----- seeding -----

  ghost function SeedArg(m: Module, cfg: Config, s: State, i: Instr, slot: Slot, a: nat): State
    requires i.Call? && a < |i.args|
  {
    if i.callee.Some? && i.args[a] == slot.const_ && cfg.interproc then
      PassDown(m, s, slot.inst, i.callee.value, a)
    else s
  }

  ghost function SeedArgs(m: Module, cfg: Config, s: State, i: Instr, slot: Slot, n: nat): State
    requires i.Call? && n <= |i.args|
  {
    if n == 0 then s else SeedArg(m, cfg, SeedArgs(m, cfg, s, i, slot, n - 1), i, slot, n - 1)
  }

  ghost function SeedStore(m: Module, s: State, i: Instr, u: Value): State
    requires i.Store? && u.Inst?
  {
    if Strip(m, i.ptr).Global? then s else
    match OriginOf(m, i.ptr)
    case Some(a) => if a.Arg? then RecordFields(m, RecordParam(s, u.f, a.n), u.f, a.n, i.ptr) else s
    case None => MarkPointer(s, Strip(m, i.ptr), u)
  }

  ghost function SeedSlot(m: Module, cfg: Config, s: State, slot: Slot): State
    requires IsInst(m, slot.inst)
  {
    if slot.inst in s.tainted then s else
      var i := At(m, slot.inst);
      var s1 := Taint(s, slot.inst, 0).(funcLevel := s.funcLevel[slot.inst.f := 0]);
      if i.Ret? && i.result == Some(slot.const_) then RecordReturn(s1, slot.inst.f)
      else if i.Store? then SeedStore(m, s1, i, slot.inst)
      else if i.Call? then SeedArgs(m, cfg, s1, i, slot, |i.args|)
      else s1
  }

  // ----- main phase -----

  ghost function Pop(s: State): State
    requires s.work != []
  {
    s.(work := s.work[..|s.work| - 1], done := s.done + {s.work[|s.work| - 1]}, pops := s.pops + 1)
  }

  /** Taint parameter `n` of defined function `f`, one level below `v`. */
  ghost function PassDown(m: Module, s: State, v: Value, f: nat, n: nat): State {
    if f < |m.funcs| && !IsDeclaration(m.funcs[f]) && n < |m.funcs[f].params| && Arg(f, n) !in s.tainted then
      var l := LevelOf(s, v) - 1;
      Taint(s, Arg(f, n), l).(funcLevel := s.funcLevel[f := l])
    else s
  }

  ghost function PassDownAll(m: Module, s: State, v: Value, fs: seq<nat>, n: nat): State
    decreases fs
  {
    if fs == [] then s else PassDownAll(m, PassDown(m, s, v, fs[0], n), v, fs[1..], n)
  }

  ghost function MainCall(m: Module, cfg: Config, s: State, v: Value, u: Value, i: Instr): State
    requires i.Call?
  {
    var at := ArgIndex(i.args, v);
    if at.None? then s
    else if i.callee.Some? then
      if i.callee.value < |m.funcs| && !IsDeclaration(m.funcs[i.callee.value]) then
        var s1 := SetValueLevelIfAbsent(s, u, LevelOf(s, v));
        if cfg.interproc then PassDown(m, s1, v, i.callee.value, at.value) else s1
      else s
    else if cfg.interproc then PassDownAll(m, s, v, Targets(cfg, u, i), at.value)
    else s
  }

  ghost function TaintUser(s: State, v: Value, u: Value): State {
    if u in s.tainted then s else Taint(s, u, LevelOf(s, v))
  }

  ghost function MainStore(m: Module, s: State, v: Value, u: Value, i: Instr): State
    requires i.Store? && u.Inst?
  {
    if Strip(m, i.ptr).Global? then s else
    match OriginOf(m, i.ptr)
    case Some(a) => if a.Arg? then RecordParam(s, u.f, a.n) else s
    case None => TaintUser(MarkPointer(s, Strip(m, i.ptr), u), v, u)
  }

  ghost function MainUser(m: Module, cfg: Config, s: State, v: Value, u: Value): State
    requires u.Inst?
  {
    var i := At(m, u);
    if i.Ret? && i.result == Some(v) then RecordReturn(s, u.f)
    else if i.Store? && i.val == v then MainStore(m, s, v, u, i)
    else TaintUser(if i.Call? then MainCall(m, cfg, s, v, u, i) else s, v, u)
  }

  /** A store of an untainted value to a tainted pointer, not before its origin in a block. */
  ghost predicate Kills(m: Module, s: State, k: Value) {
    var i := At(m, k);
    && IsInst(m, k) && i.Store? && Strip(m, i.ptr) in s.pointers && i.val !in s.tainted && k !in s.tainted
    && (Strip(m, i.ptr) in s.origin ==> var o := s.origin[Strip(m, i.ptr)]; !(SameBlock(k, o) && k.k < o.k))
  }

  // ----- load scanning -----

  /** What scanning pointer `p` does with load `l`; the main phase heeds kills. */
  ghost function ScanLoad(m: Module, s: State, heed: bool, p: Value, l: Value): State {
    if !l.Inst? || !LoadMatches(m, p, l) || l in s.tainted then s else
      var s1 := EnsureLevel(s, l);
      if (heed && AfterKill(m, s.killed, p, l)) || PrecedesOrigin(s.origin, p, l) then s1
      else s1.(work := s1.work + [l], tainted := s1.tainted + {l})
  }

  // ----- upward phase -----

  /** A call of a function that returns taint. */
  ghost function CallReturns(s: State, f: nat, c: Value): State
    requires c.Inst?
  {
    if c in s.tainted then s else
      var l := CallerLevel(s, f);
      Taint(SetFuncLevelIfAbsent(s, c.f, l), c, l)
  }

  /** Store `u` writes the address of a local variable to `g`. */
  predicate StoresAddress(m: Module, g: Value, u: Value) {
    At(m, u).Store? && At(m, u).ptr == g && At(m, Strip(m, At(m, u).val)).Alloca?
  }

  /** The stores into field address `g`: mark each local variable whose address is stored. */
  ghost function MarkStored(m: Module, s: State, g: Value, us: seq<Value>, c: Value): State
    decreases us
  {
    if us == [] then s else
      var s1 := if StoresAddress(m, g, us[0]) then MarkPointer(s, Strip(m, At(m, us[0]).val), c) else s;
      MarkStored(m, s1, g, us[1..], c)
  }

  predicate FieldAccessed(i: Instr, accessed: seq<int>)
    requires i.Gep?
  {
    accessed == [] || (if FieldOf(i).Some? then FieldOf(i).value else -1) in accessed
  }

  /** The field addresses among the users of a struct variable, filtered by `accessed`. */
  ghost function MarkFields(m: Module, s: State, us: seq<Value>, accessed: seq<int>, c: Value): State
    decreases us
  {
    if us == [] then s else
      var i := At(m, us[0]);
      var s1 := if i.Gep? && FieldAccessed(i, accessed) then MarkStored(m, s, us[0], UseList(m, us[0]), c) else s;
      MarkFields(m, s1, us[1..], accessed, c)
  }

  ghost function MarkPassed(m: Module, s: State, f: nat, n: nat, c: Value, p: Value): State
    requires c.Inst?
  {
    if p in s.pointers then s else
      var s1 := MarkPointer(SetFuncLevelIfAbsent(s, c.f, CallerLevel(s, f)), p, c);
      var i := At(m, p);
      if i.Alloca? && i.isStruct then MarkFields(m, s1, UseList(m, p), FieldsOf(s.fields, f, n), c) else s1
  }

  /** A call of a function that taints what parameter `n` points to. */
  ghost function CallTaints(m: Module, s: State, f: nat, n: nat, c: Value): State
    requires c.Inst?
  {
    var i := At(m, c);
    if !i.Call? || n >= |i.args| then s else
    match OriginOf(m, i.args[n])
    case Some(a) =>
      if !a.Arg? || a.n in ParamsOf(s.params, c.f) then s
      else SetFuncLevelIfAbsent(RecordParam(s, c.f, a.n), c.f, CallerLevel(s, f))
    case None =>
      var p := Pointed(m, i.args[n]);
      if p.Some? then MarkPassed(m, s, f, n, c, p.value) else s
  }

  ghost function UpwardStore(m: Module, s: State, v: Value, u: Value, i: Instr): State
    requires i.Store? && u.Inst?
  {
    if i.val != v then s else
      var s1 := MarkPointer(s, Strip(m, i.ptr), u);
      match OriginOf(m, i.ptr)
      case Some(a) => if a.Arg? then RecordFields(m, RecordParam(s1, u.f, a.n), u.f, a.n, i.ptr) else s1
      case None => s1
  }

  ghost function UpwardUser(m: Module, s: State, v: Value, u: Value): State
    requires u.Inst?
  {
    if u in s.tainted then s else
      var i := At(m, u);
      var s1 := TaintUser(s, v, u);
      if i.Store? then UpwardStore(m, s1, v, u, i)
      else if i.Ret? && i.result == Some(v) then RecordReturn(s1, u.f)
      else s1
  }
}
