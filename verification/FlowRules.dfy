/** The taint flow rules as a step relation on facts. Every rule has one premise, so a
    derivation is a path and "derivable" is reachability from the seeds. */
module FlowRules {
  import opened Options
  import opened IR
  import opened PointerOrigin
  import opened Reachability

  /** `indirect` resolves indirect calls to targets; it is empty when that mode is off. */
  datatype Config = Config(fn: string, opcode: string, constant: int, occurrence: nat,
                           interproc: bool, upward: bool, indirect: map<Value, seq<nat>>)

  ghost predicate ConfigOk(m: Module, cfg: Config) {
    forall c, f :: c in cfg.indirect && f in cfg.indirect[c] ==> f < |m.funcs|
  }

  /** What the tracker concludes: a value is tainted, a pointer holds taint, a function
      returns taint, a function taints what its pointer parameter points to. */
  datatype Fact = Val(v: Value) | Ptr(p: Value) | Returns(f: nat) | Param(g: nat, n: nat)

  // ----- seeds -----

  /** An operand slot of `inst` that holds the tracked constant. */
  datatype Slot = Slot(inst: Value, const_: Value)

  predicate Matches(cfg: Config, op: Value) {
    op.IntConst? && op.c == cfg.constant
  }

  predicate InScope(m: Module, cfg: Config, u: Value)
    requires IsInst(m, u)
  {
    m.funcs[u.f].name == cfg.fn && (cfg.opcode == "" || Opcode(At(m, u)) == cfg.opcode)
  }

  function SlotsIn(cfg: Config, u: Value, ops: seq<Value>): seq<Slot> {
    if ops == [] then []
    else (if Matches(cfg, ops[0]) then [Slot(u, ops[0])] else []) + SlotsIn(cfg, u, ops[1..])
  }

  function SlotsOver(m: Module, cfg: Config, us: seq<Value>): seq<Slot>
    requires forall u :: u in us ==> IsInst(m, u)
  {
    if us == [] then []
    else (if InScope(m, cfg, us[0]) then SlotsIn(cfg, us[0], Ops(At(m, us[0]))) else []) + SlotsOver(m, cfg, us[1..])
  }

  /** All matching slots of the module in program order. */
  ghost function Slots(m: Module, cfg: Config): seq<Slot> {
    assert forall u :: u in ProgramOrder(m) ==> IsInst(m, u) by {
      forall u | u in ProgramOrder(m) ensures IsInst(m, u) { ProgramOrderHas(m, u); }
    }
    SlotsOver(m, cfg, ProgramOrder(m))
  }

  /** Occurrence 0 asks for every slot, occurrence k for the k-th one. */
  ghost function Chosen(m: Module, cfg: Config): seq<Slot> {
    var slots := Slots(m, cfg);
    if cfg.occurrence == 0 then slots
    else if cfg.occurrence <= |slots| then [slots[cfg.occurrence - 1]]
    else []
  }

  /** What one seeded slot taints: the instruction itself; for a constant argument of a
      defined callee its parameter; for a returned constant the function; for a stored
      one the pointer parameter behind the address or else the local address. */
  ghost predicate SeedFact(m: Module, cfg: Config, slot: Slot, x: Fact) {
    var i := At(m, slot.inst);
    match x
    case Val(w) => w == slot.inst || (cfg.interproc && w.Arg? && SeedsArg(m, slot, w))
    case Ptr(p) => i.Store? && !p.Global? && OriginOf(m, i.ptr).None? && p == Strip(m, i.ptr)
    case Returns(f) => i.Ret? && i.result == Some(slot.const_) && f == slot.inst.f
    case Param(g, n) =>
      i.Store? && !Strip(m, i.ptr).Global? && g == slot.inst.f && OriginOf(m, i.ptr) == Some(Arg(g, n))
  }

  ghost predicate SeedsArg(m: Module, slot: Slot, w: Value)
    requires w.Arg?
  {
    var i := At(m, slot.inst);
    && i.Call? && i.callee == Some(w.f) && IsArg(m, w) && !IsDeclaration(m.funcs[w.f])
    && w.n < |i.args| && i.args[w.n] == slot.const_
  }

  /** Slot `j` is the first chosen slot of its instruction; only that one is processed. */
  ghost predicate Opens(slots: seq<Slot>, j: nat) {
    j < |slots| && forall k :: 0 <= k < j ==> slots[k].inst != slots[j].inst
  }

  ghost predicate IsSeed(m: Module, cfg: Config, x: Fact) {
    exists j: nat :: Opens(Chosen(m, cfg), j) && SeedFact(m, cfg, Chosen(m, cfg)[j], x)
  }

  // ----- uses -----

  /** A user passes taint on to itself unless the main phase stops there: at a return,
      and at a store of the value to a global or through a pointer parameter. */
  ghost predicate PassesOn(m: Module, v: Value, u: Value) {
    var i := At(m, u);
    !i.Ret? && !(i.Store? && i.val == v && (Strip(m, i.ptr).Global? || OriginOf(m, i.ptr).Some?))
  }

  /** The first argument position of `v` in a call. */
  function ArgIndex(args: seq<Value>, v: Value): (r: Option<nat>)
    ensures r.Some? <==> v in args
    ensures r.Some? ==> r.value < |args| && args[r.value] == v && v !in args[..r.value]
  {
    if args == [] then None
    else if args[0] == v then Some(0)
    else
      var rest := ArgIndex(args[1..], v);
      if rest.Some? then Some(rest.value + 1) else None
  }

  /** The functions a call may enter. */
  function Targets(cfg: Config, u: Value, i: Instr): seq<nat>
    requires i.Call?
  {
    if i.callee.Some? then [i.callee.value] else if u in cfg.indirect then cfg.indirect[u] else []
  }

  ghost predicate PassesDown(m: Module, cfg: Config, v: Value, u: Value, w: Value) {
    var i := At(m, u);
    && cfg.interproc && i.Call? && w.Arg? && IsArg(m, w) && !IsDeclaration(m.funcs[w.f])
    && w.f in Targets(cfg, u, i) && ArgIndex(i.args, v) == Some(w.n)
  }

  /** What the main phase concludes from user `u` of tainted value `v`. */
  ghost predicate MainUse(m: Module, cfg: Config, v: Value, u: Value, y: Fact) {
    var i := At(m, u);
    match y
    case Val(w) => (w == u && PassesOn(m, v, u)) || PassesDown(m, cfg, v, u, w)
    case Ptr(p) => i.Store? && i.val == v && !p.Global? && OriginOf(m, i.ptr).None? && p == Strip(m, i.ptr)
    case Returns(f) => i.Ret? && f == u.f
    case Param(g, n) =>
      i.Store? && i.val == v && !Strip(m, i.ptr).Global? && g == u.f && OriginOf(m, i.ptr) == Some(Arg(g, n))
  }

  /** What the upward phase may conclude: it stops nowhere. */
  ghost predicate UpwardUse(m: Module, v: Value, u: Value, y: Fact) {
    var i := At(m, u);
    match y
    case Val(w) => w == u
    case Ptr(p) => i.Store? && i.val == v && p == Strip(m, i.ptr)
    case Returns(f) => i.Ret? && f == u.f
    case Param(g, n) => i.Store? && i.val == v && g == u.f && OriginOf(m, i.ptr) == Some(Arg(g, n))
  }

  // ----- loads -----

  predicate SameBlock(u: Value, w: Value) {
    u.Inst? && w.Inst? && u.f == w.f && u.b == w.b
  }

  /** A load reads a pointer directly or through one getelementptr on it. */
  predicate LoadMatches(m: Module, p: Value, l: Value) {
    var i := At(m, l);
    i.Load? && (Strip(m, i.ptr) == p || ViaGep(m, Strip(m, i.ptr), p))
  }

  predicate ViaGep(m: Module, q: Value, p: Value) {
    At(m, q).Gep? && Strip(m, At(m, q).base) == p
  }

  /** The load stands before the instruction that tainted the pointer, in its block. */
  predicate PrecedesOrigin(origin: map<Value, Value>, p: Value, l: Value) {
    p in origin && SameBlock(l, origin[p]) && l.k <= origin[p].k
  }

  predicate KilledBy(m: Module, k: Value, p: Value, l: Value) {
    At(m, k).Store? && Strip(m, At(m, k).ptr) == p && SameBlock(k, l) && k.k <= l.k
  }

  ghost predicate AfterKill(m: Module, killed: set<Value>, p: Value, l: Value) {
    exists k :: k in killed && KilledBy(m, k, p, l)
  }

  ghost predicate LoadFlow(m: Module, origin: map<Value, Value>, killed: set<Value>, p: Value, l: Value) {
    && LoadMatches(m, p, l) && p in origin
    && !PrecedesOrigin(origin, p, l) && !AfterKill(m, killed, p, l)
  }

  // ----- summaries -----

  predicate DirectCall(m: Module, c: Value, f: nat) {
    IsInst(m, c) && At(m, c).Call? && At(m, c).callee == Some(f)
  }

  /** The variable whose address is passed: a local variable, or the base of a field. */
  function Pointed(m: Module, arg: Value): Option<Value> {
    match At(m, arg)
    case Alloca(_, _) => Some(arg)
    case Gep(base, _) => Some(Strip(m, base))
    case _ => None
  }

  /** Store `s` puts the address of local variable `t` into field `g` of struct variable `a`. */
  predicate FieldTarget(m: Module, a: Value, g: Value, s: Value, t: Value) {
    && At(m, a).Alloca? && At(m, a).isStruct && g in UseList(m, a) && At(m, g).Gep?
    && s in UseList(m, g) && At(m, s).Store? && At(m, s).ptr == g
    && t == Strip(m, At(m, s).val) && At(m, t).Alloca?
  }

  ghost predicate ParamFlow(m: Module, f: nat, n: nat, c: Value, y: Fact) {
    && DirectCall(m, c, f) && n < |At(m, c).args|
    && var arg := At(m, c).args[n];
       match OriginOf(m, arg)
       case Some(a) => a.Arg? && y == Param(c.f, a.n)
       case None =>
         && Pointed(m, arg).Some? && y.Ptr?
         && (y.p == Pointed(m, arg).value || exists g, s :: FieldTarget(m, Pointed(m, arg).value, g, s, y.p))
  }

  // ----- one step -----

  /** `full` adds the rules of the upward phase to those of the main phase. */
  ghost predicate Flows(m: Module, cfg: Config, full: bool, origin: map<Value, Value>, killed: set<Value>,
                        x: Fact, y: Fact) {
    match x
    case Val(v) => exists u :: IsUser(m, u, v) && (MainUse(m, cfg, v, u, y) || (full && UpwardUse(m, v, u, y)))
    case Ptr(p) => y.Val? && LoadFlow(m, origin, killed, p, y.v)
    case Returns(f) => full && y.Val? && DirectCall(m, y.v, f)
    case Param(g, n) => full && exists c :: ParamFlow(m, g, n, c, y)
  }

  ghost function Rules(m: Module, cfg: Config, full: bool, origin: map<Value, Value>, killed: set<Value>)
    : (Fact, Fact) -> bool
  {
    (x, y) => Flows(m, cfg, full, origin, killed, x, y)
  }

  ghost function Seeds(m: Module, cfg: Config): Fact -> bool { x => IsSeed(m, cfg, x) }

  /** `x` has a finite derivation from a seed. */
  ghost predicate Derivable(m: Module, cfg: Config, full: bool, origin: map<Value, Value>, killed: set<Value>,
                            x: Fact) {
    Reached(Rules(m, cfg, full, origin, killed), Seeds(m, cfg), x)
  }

  lemma SeedDerivable(m: Module, cfg: Config, full: bool, origin: map<Value, Value>, killed: set<Value>, x: Fact)
    requires IsSeed(m, cfg, x)
    ensures Derivable(m, cfg, full, origin, killed, x)
  {
    ReachedStart(Rules(m, cfg, full, origin, killed), Seeds(m, cfg), x);
  }

  lemma StepDerivable(m: Module, cfg: Config, full: bool, origin: map<Value, Value>, killed: set<Value>,
                      x: Fact, y: Fact)
    requires Derivable(m, cfg, full, origin, killed, x) && Flows(m, cfg, full, origin, killed, x, y)
    ensures Derivable(m, cfg, full, origin, killed, y)
  {
    ReachedStep(Rules(m, cfg, full, origin, killed), Seeds(m, cfg), x, y);
  }

  ghost predicate Extends(origin: map<Value, Value>, origin': map<Value, Value>) {
    forall p :: p in origin ==> p in origin' && origin'[p] == origin[p]
  }

  /** Later origins, more rules and fewer kills keep every derivation. */
  lemma DerivableMonotone(m: Module, cfg: Config, full: bool, origin: map<Value, Value>, killed: set<Value>,
                          full': bool, origin': map<Value, Value>, killed': set<Value>, x: Fact)
    requires Derivable(m, cfg, full, origin, killed, x)
    requires full ==> full'
    requires Extends(origin, origin') && killed' <= killed
    ensures Derivable(m, cfg, full', origin', killed', x)
  {
    forall a, b | Rules(m, cfg, full, origin, killed)(a, b) ensures Rules(m, cfg, full', origin', killed')(a, b) {
      match a {
        case Ptr(p) => assert LoadFlow(m, origin', killed', p, b.v);
        case _ =>
      }
    }
    ReachedMonotone(Rules(m, cfg, full, origin, killed), Seeds(m, cfg),
                    Rules(m, cfg, full', origin', killed'), Seeds(m, cfg), x);
  }
}
