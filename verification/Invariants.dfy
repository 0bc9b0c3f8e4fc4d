/** What every step of the pass keeps: the worklist discipline, write-once origins, sound
    kills, provenance of every conclusion, and levels that are heights in the call graph. */
module Invariants {
  import opened Options
  import opened IR
  import opened PointerOrigin
  import opened StructFields
  import opened FlowRules
  import opened TaintState
  import opened Reachability

  /** The phases of a run differ in the rules they follow: before the first scan no load is
      tainted; the main phase's scans heed at least the kills known at the first one; the
      upward phase adds its rules and heeds no kill. */
  datatype Phase = Draining | Scanning(heeded: set<Value>) | Upward

  ghost function Loadable(ph: Phase, s: State): map<Value, Value> { if ph.Draining? then map[] else s.origin }

  ghost function Heeded(ph: Phase): set<Value> { if ph.Scanning? then ph.heeded else {} }

  /** `x` has a derivation by the rules of the phase. */
  ghost predicate Derives(m: Module, cfg: Config, ph: Phase, s: State, x: Fact) {
    Derivable(m, cfg, ph.Upward?, Loadable(ph, s), Heeded(ph), x)
  }

  lemma SeedDerives(m: Module, cfg: Config, ph: Phase, s: State, x: Fact)
    requires IsSeed(m, cfg, x)
    ensures Derives(m, cfg, ph, s, x)
  {
    SeedDerivable(m, cfg, ph.Upward?, Loadable(ph, s), Heeded(ph), x);
  }

  lemma StepDerives(m: Module, cfg: Config, ph: Phase, s: State, x: Fact, y: Fact)
    requires Derives(m, cfg, ph, s, x) && Flows(m, cfg, ph.Upward?, Loadable(ph, s), Heeded(ph), x, y)
    ensures Derives(m, cfg, ph, s, y)
  {
    StepDerivable(m, cfg, ph.Upward?, Loadable(ph, s), Heeded(ph), x, y);
  }

  lemma DerivesGrows(m: Module, cfg: Config, ph: Phase, s: State, t: State, x: Fact)
    requires Derives(m, cfg, ph, s, x) && Extends(s.origin, t.origin)
    ensures Derives(m, cfg, ph, t, x)
  {
    DerivableMonotone(m, cfg, ph.Upward?, Loadable(ph, s), Heeded(ph), ph.Upward?, Loadable(ph, t), Heeded(ph), x);
  }

  ghost predicate NoDuplicates<T>(s: seq<T>) {
    forall i, j :: 0 <= i < j < |s| ==> s[i] != s[j]
  }

  /** A tainted value is either waiting on the worklist, once, or was taken off it, once. */
  ghost predicate Shape(m: Module, s: State) {
    && s.tainted <= Locals(m) && s.pointers <= Universe(m)
    && (forall f :: f in s.returning ==> f < |m.funcs|)
    && (forall f, n :: n in ParamsOf(s.params, f) ==> IsPtrArg(m, Arg(f, n)))
    && NoDuplicates(s.work)
    && (forall v :: v in s.work ==> v !in s.done)
    && (forall v :: v in s.tainted <==> v in s.work || v in s.done)
    && s.pops == |s.done|
  }

  /** A recorded kill writes a tainted pointer, and not before its origin in a block. */
  ghost predicate KillOk(m: Module, origin: map<Value, Value>, k: Value) {
    var i := At(m, k);
    && i.Store? && Strip(m, i.ptr) in origin
    && var o := origin[Strip(m, i.ptr)]; !(SameBlock(k, o) && k.k < o.k)
  }

  /** The tainted pointers are exactly those with an origin. */
  ghost predicate Origins(m: Module, s: State) {
    && s.pointers == s.origin.Keys
    && (forall p :: p in s.origin ==> IsInst(m, s.origin[p]))
    && (forall k :: k in s.killed ==> KillOk(m, s.origin, k))
  }

  ghost predicate Sourced(m: Module, cfg: Config, ph: Phase, s: State) {
    && (ph.Scanning? ==> ph.heeded <= s.killed)
    && forall x :: Holds(s, x) ==> Derives(m, cfg, ph, s, x)
  }

  /** Where a tainted store's value went: to a global, into a recorded pointer parameter,
      or else to a tainted pointer. */
  ghost predicate StoreLanded(m: Module, s: State, u: Value) {
    var i := At(m, u);
    && u.Inst? && i.Store?
    && (Strip(m, i.ptr).Global? ||
        match OriginOf(m, i.ptr)
        case Some(a) => a.Arg? && a.n in ParamsOf(s.params, u.f)
        case None => Strip(m, i.ptr) in s.pointers)
  }

  /** A tainted store landed, unless it is a seed or its address is tainted; the function
      of a tainted return is recorded. */
  ghost predicate Accounted(m: Module, s: State, u: Value) {
    && (At(m, u).Store? ==> At(m, u).val.IntConst? || At(m, u).ptr in s.tainted || StoreLanded(m, s, u))
    && (At(m, u).Ret? ==> u.Inst? && u.f in s.returning)
  }

  ghost predicate AllAccounted(m: Module, s: State) {
    forall u :: u in s.tainted ==> Accounted(m, s, u)
  }

  // ----- levels -----

  predicate IsSourceFn(m: Module, cfg: Config, f: nat) {
    f < |m.funcs| && m.funcs[f].name == cfg.fn
  }

  /** Function `g` contains a direct call of `f`. */
  ghost predicate Calls(m: Module, g: nat, f: nat) {
    exists c :: DirectCall(m, c, f) && c.Inst? && c.f == g
  }

  /** Function `g` contains a call that may enter `f`. */
  ghost predicate MayEnter(m: Module, cfg: Config, g: nat, f: nat) {
    exists c :: IsInst(m, c) && c.f == g && At(m, c).Call? && f in Targets(cfg, c, At(m, c))
  }

  /** A function at a height in the call graph. */
  datatype Node = Node(f: nat, l: int)

  /** One step up to a direct caller, or, with downward propagation, down into a callee. */
  ghost function Climbs(m: Module, cfg: Config): (Node, Node) -> bool {
    (a: Node, b: Node) =>
      (b.l == a.l + 1 && Calls(m, b.f, a.f)) || (b.l == a.l - 1 && cfg.interproc && MayEnter(m, cfg, a.f, b.f))
  }

  ghost function AtSource(m: Module, cfg: Config): Node -> bool {
    (n: Node) => IsSourceFn(m, cfg, n.f) && n.l == 0
  }

  /** A walk through the call graph leads from the source function to `f` with `l` more
      steps up than down. */
  ghost predicate Height(m: Module, cfg: Config, f: nat, l: int) {
    Reached(Climbs(m, cfg), AtSource(m, cfg), Node(f, l))
  }

  ghost function CallsTo(m: Module): (nat, nat) -> bool { (g: nat, f: nat) => Calls(m, g, f) }

  ghost function OnlyFn(f: nat): nat -> bool { g => g == f }

  /** A chain of exactly `l` direct calls leads from `f` down to the source function. */
  ghost predicate CallDepth(m: Module, cfg: Config, f: nat, l: int) {
    exists p, g :: Leads(CallsTo(m), OnlyFn(f), p, g) && |p| == l + 1 && IsSourceFn(m, cfg, g)
  }

  lemma CallDepthStep(m: Module, cfg: Config, f: nat, l: int, g: nat)
    requires CallDepth(m, cfg, f, l) && Calls(m, g, f)
    ensures CallDepth(m, cfg, g, l + 1)
  {
    var p, s :| Leads(CallsTo(m), OnlyFn(f), p, s) && |p| == l + 1 && IsSourceFn(m, cfg, s);
    assert CallsTo(m)(g, f);
    assert Leads(CallsTo(m), OnlyFn(g), [g] + p, s);
  }

  /** Without downward propagation a height is a call depth. */
  lemma HeightIsDepth(m: Module, cfg: Config, f: nat, l: int)
    requires !cfg.interproc && Height(m, cfg, f, l)
    ensures l >= 0 && CallDepth(m, cfg, f, l)
  {
    var deep := (n: Node) => CallDepth(m, cfg, n.f, n.l);
    forall n | AtSource(m, cfg)(n) ensures deep(n) {
      assert Leads(CallsTo(m), OnlyFn(n.f), [n.f], n.f);
    }
    forall a, b | deep(a) && Climbs(m, cfg)(a, b) ensures deep(b) {
      CallDepthStep(m, cfg, a.f, a.l, b.f);
    }
    ReachedIsLeast(Climbs(m, cfg), AtSource(m, cfg), deep, Node(f, l));
  }

  /** Levels are heights when nothing flows through module-wide memory. */
  ghost predicate LevelPremise(cfg: Config, s: State) {
    forall p :: p in s.pointers ==> IsLocal(p)
  }

  /** `l` is a height of `f`; without downward propagation it is also between 0 and `n`. */
  ghost predicate LevelOk(m: Module, cfg: Config, n: int, f: nat, l: int) {
    (cfg.interproc || 0 <= l <= n) && Height(m, cfg, f, l)
  }

  ghost predicate LevelFacts(m: Module, cfg: Config, s: State) {
    && (forall f :: f in s.funcLevel ==>
          f < |m.funcs| && LevelOk(m, cfg, |s.funcLevel| - 1, f, s.funcLevel[f]))
    && (forall v :: v in s.valueLevel ==>
          IsLocal(v) && LevelOk(m, cfg, |s.funcLevel|, FnOf(v), s.valueLevel[v]))
    && (forall v :: v in s.tainted ==> v in s.valueLevel && FnOf(v) in s.funcLevel)
    && (forall p :: p in s.pointers && IsLocal(p) ==> FnOf(p) in s.funcLevel)
    && (forall f :: f in s.returning ==> f in s.funcLevel)
    && (forall f, n :: n in ParamsOf(s.params, f) ==> f in s.funcLevel)
  }

  ghost predicate Levels(m: Module, cfg: Config, s: State) {
    LevelPremise(cfg, s) ==> LevelFacts(m, cfg, s)
  }

  // ----- what each table entry goes back to -----

  /** `o` is what tainted pointer `p`: a store of a tainted value or of the constant to it, or
      a call of a function that taints it through a pointer parameter. */
  ghost predicate MarkedBy(m: Module, cfg: Config, s: State, p: Value, o: Value) {
    || (At(m, o).Store? && Strip(m, At(m, o).ptr) == p && (At(m, o).val in s.tainted || Matches(cfg, At(m, o).val)))
    || exists f, n :: n in ParamsOf(s.params, f) && ParamFlow(m, f, n, o, Ptr(p))
  }

  /** Some store of a tainted value or of the constant through parameter `n` of `f` goes
      through struct field `i`. */
  ghost predicate FieldUsed(m: Module, cfg: Config, s: State, f: nat, n: nat, i: int) {
    exists u :: UsesField(m, cfg, s, f, n, i, u)
  }

  ghost predicate UsesField(m: Module, cfg: Config, s: State, f: nat, n: nat, i: int, u: Value) {
    && u.Inst? && u.f == f && At(m, u).Store? && (At(m, u).val in s.tainted || Matches(cfg, At(m, u).val))
    && OriginOf(m, At(m, u).ptr) == Some(Arg(f, n)) && i in FieldIndices(m, At(m, u).ptr)
  }

  ghost predicate IsSource(m: Module, cfg: Config, v: Value) {
    exists j: nat :: Opens(Chosen(m, cfg), j) && Chosen(m, cfg)[j].inst == v
  }

  /** Value `w` is passed to parameter `a` of a function entered, or is a seeded call that
      passes it the constant. */
  ghost predicate Entry(m: Module, cfg: Config, w: Value, a: Value) {
    && a.Arg?
    && ((exists u :: IsUser(m, u, w) && PassesDown(m, cfg, w, u, a))
        || (exists j: nat ::
              && Opens(Chosen(m, cfg), j) && Chosen(m, cfg)[j].inst == w
              && SeedsArg(m, Chosen(m, cfg)[j], a)))
  }

  /** Where level `l` of tainted value `v` comes from: it is a source, at level 0; it uses a
      tainted value of that level; it is a parameter entered from one level above; it is a
      call of a function that returns taint one level below; or it is a load from a tainted
      pointer, at the level of its function. */
  ghost predicate LevelFrom(m: Module, cfg: Config, ph: Phase, s: State, v: Value, l: int) {
    || (IsSource(m, cfg, v) && l == 0)
    || (exists w :: UsesAtLevel(m, s, v, w, l))
    || (cfg.interproc && exists w ::
          w in s.tainted && w in s.valueLevel && Entry(m, cfg, w, v) && l == s.valueLevel[w] - 1)
    || (ph.Upward? && exists f :: ReturnsFromLevel(m, s, v, f, l))
    || (At(m, v).Load? && v.Inst? && (exists p :: p in s.pointers && LoadMatches(m, p, v))
        && (cfg.interproc || (v.f in s.funcLevel && l == s.funcLevel[v.f])))
  }

  ghost predicate UsesAtLevel(m: Module, s: State, v: Value, w: Value, l: int) {
    w in s.tainted && IsUser(m, v, w) && w in s.valueLevel && l == s.valueLevel[w]
  }

  ghost predicate ReturnsFromLevel(m: Module, s: State, c: Value, f: nat, l: int) {
    DirectCall(m, c, f) && f in s.returning && f in s.funcLevel && l == s.funcLevel[f] + 1
  }

  /** Where level `l` of function `f` comes from: it is the source function, at level 0, or
      calls a function with a summary entry one level below. */
  ghost predicate FunctionLevelFrom(m: Module, cfg: Config, s: State, f: nat, l: int) {
    || (IsSourceFn(m, cfg, f) && l == 0)
    || exists c, g :: CallsFromLevel(m, s, f, c, g, l)
  }

  ghost predicate CallsFromLevel(m: Module, s: State, f: nat, c: Value, g: nat, l: int) {
    && DirectCall(m, c, g) && c.Inst? && c.f == f && g in s.funcLevel && l == s.funcLevel[g] + 1
    && (g in s.returning || ParamsOf(s.params, g) != {})
  }

  /** A load that got a level before it was tainted has the level of its function. */
  ghost predicate LoadAwaits(m: Module, cfg: Config, s: State, v: Value, l: int) {
    At(m, v).Load? && !cfg.interproc ==> v.Inst? && v.f in s.funcLevel && l == s.funcLevel[v.f]
  }

  ghost predicate Marks(m: Module, cfg: Config, s: State) {
    forall p :: p in s.origin ==> MarkedBy(m, cfg, s, p, s.origin[p])
  }

  ghost predicate FieldsUsed(m: Module, cfg: Config, s: State) {
    forall f, n, i :: i in FieldsOf(s.fields, f, n) ==> FieldUsed(m, cfg, s, f, n, i)
  }

  ghost predicate LevelSources(m: Module, cfg: Config, ph: Phase, s: State) {
    LevelPremise(cfg, s) ==>
      && (forall v :: v in s.tainted ==> v in s.valueLevel && LevelFrom(m, cfg, ph, s, v, s.valueLevel[v]))
      && (forall v :: v in s.valueLevel && v !in s.tainted ==> LoadAwaits(m, cfg, s, v, s.valueLevel[v]))
      && (!cfg.interproc ==> forall f :: f in s.funcLevel ==> FunctionLevelFrom(m, cfg, s, f, s.funcLevel[f]))
  }

  ghost predicate Traced(m: Module, cfg: Config, ph: Phase, s: State) {
    Marks(m, cfg, s) && FieldsUsed(m, cfg, s) && LevelSources(m, cfg, ph, s)
  }

  ghost predicate Inv(m: Module, cfg: Config, ph: Phase, s: State) {
    && Shape(m, s) && Origins(m, s) && Sourced(m, cfg, ph, s)
    && AllAccounted(m, s) && Levels(m, cfg, s) && Traced(m, cfg, ph, s)
  }

  /** The parts of the invariant, for proofs that keep it folded. */
  lemma InvParts(m: Module, cfg: Config, ph: Phase, s: State)
    requires Inv(m, cfg, ph, s)
    ensures Shape(m, s) && Origins(m, s) && Sourced(m, cfg, ph, s) && AllAccounted(m, s) && Levels(m, cfg, s)
    ensures Traced(m, cfg, ph, s)
  {
  }

  // ----- growth -----

  /** Nothing concluded is withdrawn; origins and the levels of tainted values are never
      changed, and without downward propagation neither is a function's level. */
  ghost predicate Grows(cfg: Config, s: State, t: State) {
    && s.tainted <= t.tainted && s.pointers <= t.pointers && s.killed <= t.killed
    && s.returning <= t.returning && s.done <= t.done
    && (forall f, n :: n in ParamsOf(s.params, f) ==> n in ParamsOf(t.params, f))
    && Extends(s.origin, t.origin)
    && s.funcLevel.Keys <= t.funcLevel.Keys && (forall v :: v in s.tainted && v in s.valueLevel ==>
          v in t.valueLevel && t.valueLevel[v] == s.valueLevel[v])
    && (!cfg.interproc ==> forall f :: f in s.funcLevel ==> t.funcLevel[f] == s.funcLevel[f])
  }

  lemma GrowsTransitive(cfg: Config, s: State, t: State, u: State)
    requires Grows(cfg, s, t) && Grows(cfg, t, u)
    ensures Grows(cfg, s, u)
  {
  }

  lemma GrowsReflexive(cfg: Config, s: State)
    ensures Grows(cfg, s, s)
  {
  }

  lemma GrowsTainted(cfg: Config, s: State, t: State, v: Value)
    requires Grows(cfg, s, t) && v in s.tainted
    ensures v in t.tainted
  {
  }

  lemma GrowsHolds(cfg: Config, s: State, t: State, x: Fact)
    requires Grows(cfg, s, t) && Holds(s, x)
    ensures Holds(t, x)
  {
  }
}
