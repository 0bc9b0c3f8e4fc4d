/** Each single update of the tables keeps the invariant. */
module Updates {
  import opened Options
  import opened IR
  import opened PointerOrigin
  import opened StructFields
  import opened FlowRules
  import opened TaintState
  import opened Invariants
  import opened Reachability

  // ----- what table entries go back to stays true -----

  ghost predicate KeepsFuncLevels(s: State, t: State) {
    forall f :: f in s.funcLevel ==> f in t.funcLevel && t.funcLevel[f] == s.funcLevel[f]
  }

  /** Function levels are fixed, except by downward propagation in the main phase. */
  ghost predicate LevelsFixed(cfg: Config, ph: Phase, s: State, t: State) {
    ph.Upward? || !cfg.interproc ==> KeepsFuncLevels(s, t)
  }

  lemma MarkedByGrows(m: Module, cfg: Config, s: State, t: State, p: Value, o: Value)
    requires MarkedBy(m, cfg, s, p, o) && Grows(cfg, s, t)
    ensures MarkedBy(m, cfg, t, p, o)
  {
    hide ParamFlow, ParamsOf;
  }

  lemma FieldUsedGrows(m: Module, cfg: Config, s: State, t: State, f: nat, n: nat, i: int)
    requires FieldUsed(m, cfg, s, f, n, i) && Grows(cfg, s, t)
    ensures FieldUsed(m, cfg, t, f, n, i)
  {
    var u :| UsesField(m, cfg, s, f, n, i, u);
    hide ParamsOf, OriginOf, FieldIndices;
    assert UsesField(m, cfg, t, f, n, i, u);
  }

  lemma LevelFromGrows(m: Module, cfg: Config, ph: Phase, s: State, t: State, v: Value, l: int)
    requires LevelFrom(m, cfg, ph, s, v, l) && Grows(cfg, s, t) && LevelsFixed(cfg, ph, s, t)
    ensures LevelFrom(m, cfg, ph, t, v, l)
  {
    hide ParamsOf, Entry, IsSource, DirectCall, LoadMatches, IsUser, Extends;
    if w :| UsesAtLevel(m, s, v, w, l) {
      assert UsesAtLevel(m, t, v, w, l);
    } else if f :| ph.Upward? && ReturnsFromLevel(m, s, v, f, l) {
      assert ReturnsFromLevel(m, t, v, f, l);
    }
  }

  lemma FunctionLevelFromGrows(m: Module, cfg: Config, s: State, t: State, f: nat, l: int)
    requires FunctionLevelFrom(m, cfg, s, f, l) && Grows(cfg, s, t) && KeepsFuncLevels(s, t)
    ensures FunctionLevelFrom(m, cfg, t, f, l)
  {
    hide IsSourceFn, DirectCall, Extends;
    if c, g :| CallsFromLevel(m, s, f, c, g, l) {
      assert g in t.returning || ParamsOf(t.params, g) != {} by {
        if n :| n in ParamsOf(s.params, g) { assert n in ParamsOf(t.params, g); }
      }
      assert CallsFromLevel(m, t, f, c, g, l);
    }
  }

  /** What is new goes back to something, and what was there still does. */
  lemma TracedStep(m: Module, cfg: Config, ph: Phase, s: State, t: State)
    requires Traced(m, cfg, ph, s) && Grows(cfg, s, t) && LevelsFixed(cfg, ph, s, t)
    requires forall p :: p in t.origin && p !in s.origin ==> MarkedBy(m, cfg, t, p, t.origin[p])
    requires forall f, n, i :: i in FieldsOf(t.fields, f, n) && i !in FieldsOf(s.fields, f, n) ==>
      FieldUsed(m, cfg, t, f, n, i)
    requires LevelPremise(cfg, t) ==> forall v :: v in t.tainted && v !in s.tainted ==>
      v in t.valueLevel && LevelFrom(m, cfg, ph, t, v, t.valueLevel[v])
    requires LevelPremise(cfg, t) ==> forall v :: v in t.valueLevel && v !in t.tainted ==>
      (v in s.valueLevel && t.valueLevel[v] == s.valueLevel[v]) || LoadAwaits(m, cfg, t, v, t.valueLevel[v])
    requires LevelPremise(cfg, t) && !cfg.interproc ==> forall f :: f in t.funcLevel && f !in s.funcLevel ==>
      FunctionLevelFrom(m, cfg, t, f, t.funcLevel[f])
    ensures Traced(m, cfg, ph, t)
  {
    hide MarkedBy, FieldUsed, LevelFrom, FunctionLevelFrom, ParamsOf, FieldsOf, LoadAwaits;
    forall p | p in t.origin ensures MarkedBy(m, cfg, t, p, t.origin[p]) {
      if p in s.origin { MarkedByGrows(m, cfg, s, t, p, s.origin[p]); }
    }
    forall f, n, i | i in FieldsOf(t.fields, f, n) ensures FieldUsed(m, cfg, t, f, n, i) {
      if i in FieldsOf(s.fields, f, n) { FieldUsedGrows(m, cfg, s, t, f, n, i); }
    }
    if LevelPremise(cfg, t) { LevelSourcesStep(m, cfg, ph, s, t); }
  }

  lemma LevelSourcesStep(m: Module, cfg: Config, ph: Phase, s: State, t: State)
    requires LevelSources(m, cfg, ph, s) && Grows(cfg, s, t) && LevelsFixed(cfg, ph, s, t) && LevelPremise(cfg, t)
    requires forall v :: v in t.tainted && v !in s.tainted ==>
      v in t.valueLevel && LevelFrom(m, cfg, ph, t, v, t.valueLevel[v])
    requires forall v :: v in t.valueLevel && v !in t.tainted ==>
      (v in s.valueLevel && t.valueLevel[v] == s.valueLevel[v]) || LoadAwaits(m, cfg, t, v, t.valueLevel[v])
    requires !cfg.interproc ==> forall f :: f in t.funcLevel && f !in s.funcLevel ==>
      FunctionLevelFrom(m, cfg, t, f, t.funcLevel[f])
    ensures LevelSources(m, cfg, ph, t)
  {
    hide LevelFrom, FunctionLevelFrom, ParamsOf, Extends;
    assert LevelPremise(cfg, s);
    forall v | v in t.tainted ensures v in t.valueLevel && LevelFrom(m, cfg, ph, t, v, t.valueLevel[v]) {
      if v in s.tainted { LevelFromGrows(m, cfg, ph, s, t, v, s.valueLevel[v]); }
    }
    if !cfg.interproc {
      forall f | f in t.funcLevel ensures FunctionLevelFrom(m, cfg, t, f, t.funcLevel[f]) {
        if f in s.funcLevel { FunctionLevelFromGrows(m, cfg, s, t, f, s.funcLevel[f]); }
      }
    }
  }

  // ----- the updates -----


  /** Provenance after one more conclusion `y`. */
  lemma SourcedStep(m: Module, cfg: Config, ph: Phase, s: State, t: State, y: Fact)
    requires Sourced(m, cfg, ph, s)
    requires Extends(s.origin, t.origin)
    requires forall x :: Holds(t, x) ==> Holds(s, x) || x == y
    requires s.killed <= t.killed && Derives(m, cfg, ph, s, y)
    ensures Sourced(m, cfg, ph, t)
  {
    forall x | Holds(t, x) ensures Derives(m, cfg, ph, t, x) {
      DerivesGrows(m, cfg, ph, s, t, x);
    }
  }

  lemma AccountedStep(m: Module, cfg: Config, s: State, t: State)
    requires AllAccounted(m, s) && Grows(cfg, s, t)
    requires forall u :: u in t.tainted && u !in s.tainted ==> Accounted(m, s, u)
    ensures AllAccounted(m, t)
  {
    forall u | u in t.tainted ensures Accounted(m, t, u) {
      assert Accounted(m, s, u);
    }
  }

  lemma TaintShape(m: Module, s: State, u: Value, l: int)
    requires Shape(m, s) && u in Locals(m) && u !in s.tainted
    ensures Shape(m, Taint(s, u, l))
  {
    hide Locals, Universe, ParamsOf;
  }

  lemma TaintLevels(m: Module, cfg: Config, s: State, u: Value, l: int)
    requires Levels(m, cfg, s) && IsLocal(u)
    requires LevelPremise(cfg, s) ==> FnOf(u) in s.funcLevel && LevelOk(m, cfg, |s.funcLevel|, FnOf(u), l)
    ensures Levels(m, cfg, Taint(s, u, l))
  {
    hide Height, ParamsOf;
  }

  lemma TaintTraced(m: Module, cfg: Config, ph: Phase, s: State, u: Value, l: int)
    requires Traced(m, cfg, ph, s) && u !in s.tainted
    requires LevelPremise(cfg, s) ==> LevelFrom(m, cfg, ph, s, u, l)
    ensures Traced(m, cfg, ph, Taint(s, u, l))
  {
    hide Traced, LevelFrom, MarkedBy, FieldUsed, FunctionLevelFrom, LoadAwaits, FieldsOf;
    var t := Taint(s, u, l);
    if LevelPremise(cfg, s) { LevelFromGrows(m, cfg, ph, s, t, u, l); }
    TracedStep(m, cfg, ph, s, t);
  }

  lemma TaintKeeps(m: Module, cfg: Config, ph: Phase, s: State, u: Value, l: int)
    requires Inv(m, cfg, ph, s) && u in Locals(m) && u !in s.tainted
    requires Derives(m, cfg, ph, s, Val(u))
    requires Accounted(m, s, u)
    requires LevelPremise(cfg, s) ==> FnOf(u) in s.funcLevel && LevelOk(m, cfg, |s.funcLevel|, FnOf(u), l)
    requires LevelPremise(cfg, s) ==> LevelFrom(m, cfg, ph, s, u, l)
    ensures Inv(m, cfg, ph, Taint(s, u, l)) && Grows(cfg, s, Taint(s, u, l))
  {
    hide Sourced, Derives, Height, Accounted, Shape, LevelFacts, Universe, Insts, ParamsOf, Traced, LevelFrom;
    var t := Taint(s, u, l);
    TaintTraced(m, cfg, ph, s, u, l);
    TaintShape(m, s, u, l);
    SourcedStep(m, cfg, ph, s, t, Val(u));
    AccountedStep(m, cfg, s, t);
    InstsAre(m, u);
    TaintLevels(m, cfg, s, u, l);
  }

  lemma MarkPointerShape(m: Module, s: State, p: Value, marker: Value)
    requires Shape(m, s) && Origins(m, s) && p in Universe(m) && IsInst(m, marker)
    ensures Shape(m, MarkPointer(s, p, marker)) && Origins(m, MarkPointer(s, p, marker))
  {
    hide Locals, Universe, ParamsOf, At, Strip, IsInst;
  }

  lemma MarkPointerLevels(m: Module, cfg: Config, s: State, p: Value, marker: Value)
    requires Levels(m, cfg, s)
    requires LevelPremise(cfg, s) && IsLocal(p) ==> FnOf(p) in s.funcLevel
    ensures Levels(m, cfg, MarkPointer(s, p, marker))
  {
    hide Height, ParamsOf;
    var t := MarkPointer(s, p, marker);
    assert forall q :: q in s.pointers ==> q in t.pointers;
    if LevelPremise(cfg, t) { assert LevelPremise(cfg, s); }
  }

  lemma MarkPointerGrows(m: Module, cfg: Config, s: State, p: Value, marker: Value)
    requires Origins(m, s)
    ensures Grows(cfg, s, MarkPointer(s, p, marker))
    ensures forall x :: Holds(MarkPointer(s, p, marker), x) ==> Holds(s, x) || x == Ptr(p)
  {
    hide KillOk, IsInst, ParamsOf;
  }

  lemma MarkPointerTraced(m: Module, cfg: Config, ph: Phase, s: State, p: Value, marker: Value)
    requires Traced(m, cfg, ph, s) && Origins(m, s) && MarkedBy(m, cfg, s, p, marker)
    ensures Traced(m, cfg, ph, MarkPointer(s, p, marker))
  {
    hide Traced, LevelFrom, MarkedBy, FieldUsed, FunctionLevelFrom, LoadAwaits, FieldsOf;
    var t := MarkPointer(s, p, marker);
    MarkPointerGrows(m, cfg, s, p, marker);
    MarkedByGrows(m, cfg, s, t, p, marker);
    TracedStep(m, cfg, ph, s, t);
  }

  lemma MarkPointerKeeps(m: Module, cfg: Config, ph: Phase, s: State, p: Value, marker: Value)
    requires Inv(m, cfg, ph, s) && p in Universe(m) && IsInst(m, marker)
    requires Derives(m, cfg, ph, s, Ptr(p))
    requires LevelPremise(cfg, s) && IsLocal(p) ==> FnOf(p) in s.funcLevel
    requires MarkedBy(m, cfg, s, p, marker)
    ensures Inv(m, cfg, ph, MarkPointer(s, p, marker)) && Grows(cfg, s, MarkPointer(s, p, marker))
  {
    hide Sourced, Derives, Accounted, Shape, Origins, Levels, LevelPremise, Universe, IsInst, Traced, MarkedBy;
    MarkPointerTraced(m, cfg, ph, s, p, marker);
    var t := MarkPointer(s, p, marker);
    MarkPointerGrows(m, cfg, s, p, marker);
    assert Extends(s.origin, t.origin) && s.tainted == t.tainted;
    hide MarkPointer, Extends, Holds;
    MarkPointerShape(m, s, p, marker);
    SourcedStep(m, cfg, ph, s, t, Ptr(p));
    AccountedStep(m, cfg, s, t);
    MarkPointerLevels(m, cfg, s, p, marker);
  }

  lemma RecordReturnKeeps(m: Module, cfg: Config, ph: Phase, s: State, f: nat)
    requires Inv(m, cfg, ph, s) && f < |m.funcs|
    requires Derives(m, cfg, ph, s, Returns(f))
    requires LevelPremise(cfg, s) ==> f in s.funcLevel
    ensures Inv(m, cfg, ph, RecordReturn(s, f)) && Grows(cfg, s, RecordReturn(s, f))
  {
    hide Sourced, Derives, Accounted, Height, Universe, Locals, ParamsOf, KillOk, IsInst, IsPtrArg, Traced;
    var t := RecordReturn(s, f);
    TracedStep(m, cfg, ph, s, t);
    SourcedStep(m, cfg, ph, s, t, Returns(f));
    AccountedStep(m, cfg, s, t);
  }

  lemma MarkHolds(s: State, p: Value, marker: Value, x: Fact)
    ensures Holds(MarkPointer(s, p, marker), x) <==> Holds(s, x) || x == Ptr(p)
  {
  }

  lemma RecordParamHolds(s: State, f: nat, n: nat, x: Fact)
    ensures Holds(RecordParam(s, f, n), x) <==> Holds(s, x) || x == Param(f, n)
  {
  }

  lemma RecordParamShape(m: Module, s: State, f: nat, n: nat)
    requires Shape(m, s) && Origins(m, s) && IsPtrArg(m, Arg(f, n))
    ensures Shape(m, RecordParam(s, f, n)) && Origins(m, RecordParam(s, f, n))
  {
    hide Universe, Locals, KillOk, IsInst, IsPtrArg;
  }

  lemma RecordParamLevels(m: Module, cfg: Config, s: State, f: nat, n: nat)
    requires Levels(m, cfg, s)
    requires LevelPremise(cfg, s) ==> f in s.funcLevel
    ensures Levels(m, cfg, RecordParam(s, f, n))
  {
    hide Height;
    var t := RecordParam(s, f, n);
    if LevelPremise(cfg, t) {
      assert LevelPremise(cfg, s);
      forall g: nat, k: nat | k in ParamsOf(t.params, g) ensures g in t.funcLevel {
        assert k in ParamsOf(s.params, g) || g == f;
      }
    }
  }

  lemma RecordParamKeeps(m: Module, cfg: Config, ph: Phase, s: State, f: nat, n: nat)
    requires Inv(m, cfg, ph, s) && IsPtrArg(m, Arg(f, n))
    requires Derives(m, cfg, ph, s, Param(f, n))
    requires LevelPremise(cfg, s) ==> f in s.funcLevel
    ensures Inv(m, cfg, ph, RecordParam(s, f, n)) && Grows(cfg, s, RecordParam(s, f, n))
  {
    hide Sourced, Derives, Accounted, Shape, Origins, Levels, LevelPremise, IsPtrArg, Traced;
    var t := RecordParam(s, f, n);
    TracedStep(m, cfg, ph, s, t);
    RecordParamShape(m, s, f, n);
    RecordParamLevels(m, cfg, s, f, n);
    SourcedStep(m, cfg, ph, s, t, Param(f, n));
    AccountedStep(m, cfg, s, t);
  }

  /** Updates of the two level tables and of the field table touch no conclusion. */
  ghost predicate SameConclusions(s: State, t: State) {
    t == s.(valueLevel := t.valueLevel, funcLevel := t.funcLevel, fields := t.fields)
  }

  lemma LevelUpdateShape(m: Module, s: State, t: State)
    requires Shape(m, s) && Origins(m, s) && SameConclusions(s, t)
    ensures Shape(m, t) && Origins(m, t)
  {
    hide Locals, Universe, ParamsOf, IsPtrArg, KillOk, IsInst;
  }

  lemma LevelUpdateKeeps(m: Module, cfg: Config, ph: Phase, s: State, t: State)
    requires Inv(m, cfg, ph, s) && SameConclusions(s, t)
    requires LevelPremise(cfg, s) ==> LevelFacts(m, cfg, t)
    requires s.funcLevel.Keys <= t.funcLevel.Keys && (cfg.interproc || KeepsFuncLevels(s, t))
    requires forall v :: v in s.valueLevel ==> v in t.valueLevel && t.valueLevel[v] == s.valueLevel[v]
    requires Traced(m, cfg, ph, t)
    ensures Inv(m, cfg, ph, t) && Grows(cfg, s, t)
  {
    hide Derives, Height, Accounted, LevelFacts, Shape, Origins, Traced;
    LevelUpdateShape(m, s, t);
    forall x | Holds(t, x) ensures Derives(m, cfg, ph, t, x) {
      assert Holds(s, x);
      DerivesGrows(m, cfg, ph, s, t, x);
    }
    AccountedStep(m, cfg, s, t);
  }

  lemma ValueLevelTraced(m: Module, cfg: Config, ph: Phase, s: State, v: Value, l: int)
    requires Traced(m, cfg, ph, s) && (LevelPremise(cfg, s) ==> LoadAwaits(m, cfg, s, v, l))
    ensures Traced(m, cfg, ph, SetValueLevelIfAbsent(s, v, l))
  {
    hide Traced, FunctionLevelFrom, LevelFrom, MarkedBy, FieldUsed, FieldsOf;
    TracedStep(m, cfg, ph, s, SetValueLevelIfAbsent(s, v, l));
  }

  lemma ValueLevelFacts(m: Module, cfg: Config, s: State, v: Value, l: int)
    requires LevelFacts(m, cfg, s) && IsLocal(v) && LevelOk(m, cfg, |s.funcLevel|, FnOf(v), l)
    ensures LevelFacts(m, cfg, SetValueLevelIfAbsent(s, v, l))
  {
    hide LevelOk, ParamsOf;
  }

  lemma FuncLevelFacts(m: Module, cfg: Config, s: State, f: nat, l: int)
    requires LevelFacts(m, cfg, s) && f < |m.funcs| && LevelOk(m, cfg, |s.funcLevel|, f, l)
    ensures LevelFacts(m, cfg, SetFuncLevelIfAbsent(s, f, l))
  {
    hide Height, ParamsOf;
  }

  lemma ValueLevelKeeps(m: Module, cfg: Config, ph: Phase, s: State, v: Value, l: int)
    requires Inv(m, cfg, ph, s) && IsLocal(v)
    requires LevelPremise(cfg, s) ==> LevelOk(m, cfg, |s.funcLevel|, FnOf(v), l) && LoadAwaits(m, cfg, s, v, l)
    ensures Inv(m, cfg, ph, SetValueLevelIfAbsent(s, v, l)) && Grows(cfg, s, SetValueLevelIfAbsent(s, v, l))
  {
    hide Sourced, Shape, Origins, AllAccounted, LevelFacts, LevelPremise, Traced;
    var t := SetValueLevelIfAbsent(s, v, l);
    assert Traced(m, cfg, ph, t) by { ValueLevelTraced(m, cfg, ph, s, v, l); }
    if LevelPremise(cfg, s) { ValueLevelFacts(m, cfg, s, v, l); }
    LevelUpdateKeeps(m, cfg, ph, s, t);
  }

  lemma FuncLevelTraced(m: Module, cfg: Config, ph: Phase, s: State, f: nat, l: int)
    requires Traced(m, cfg, ph, s)
    requires LevelPremise(cfg, s) && !cfg.interproc ==> FunctionLevelFrom(m, cfg, s, f, l)
    ensures Traced(m, cfg, ph, SetFuncLevelIfAbsent(s, f, l))
  {
    if f !in s.funcLevel {
      hide Traced, FunctionLevelFrom, LevelFrom, MarkedBy, FieldUsed, LoadAwaits, FieldsOf, LevelPremise;
      var t := s.(funcLevel := s.funcLevel[f := l]);
      NewFuncLevelGrows(cfg, s, f, l);
      assert LevelPremise(cfg, t) ==> LevelPremise(cfg, s) by { SamePremise(cfg, s, t); }
      if LevelPremise(cfg, s) && !cfg.interproc { FunctionLevelFromGrows(m, cfg, s, t, f, l); }
      hide Grows, KeepsFuncLevels;
      TracedStep(m, cfg, ph, s, t);
    }
  }

  lemma SamePremise(cfg: Config, s: State, t: State)
    requires s.pointers == t.pointers
    ensures LevelPremise(cfg, t) <==> LevelPremise(cfg, s)
  {
  }

  lemma NewFuncLevelGrows(cfg: Config, s: State, f: nat, l: int)
    requires f !in s.funcLevel
    ensures var t := s.(funcLevel := s.funcLevel[f := l]);
      Grows(cfg, s, t) && KeepsFuncLevels(s, t) && forall ph :: LevelsFixed(cfg, ph, s, t)
  {
  }

  lemma FuncLevelKeeps(m: Module, cfg: Config, ph: Phase, s: State, f: nat, l: int)
    requires Inv(m, cfg, ph, s) && f < |m.funcs|
    requires LevelPremise(cfg, s) ==> LevelOk(m, cfg, |s.funcLevel|, f, l)
    requires LevelPremise(cfg, s) && !cfg.interproc ==> FunctionLevelFrom(m, cfg, s, f, l)
    ensures var t := SetFuncLevelIfAbsent(s, f, l);
      Inv(m, cfg, ph, t) && Grows(cfg, s, t) && f in t.funcLevel
  {
    hide Sourced, Shape, Origins, AllAccounted, LevelFacts, LevelPremise, Traced, FunctionLevelFrom;
    var t := SetFuncLevelIfAbsent(s, f, l);
    FuncLevelTraced(m, cfg, ph, s, f, l);
    if LevelPremise(cfg, s) { FuncLevelFacts(m, cfg, s, f, l); }
    LevelUpdateKeeps(m, cfg, ph, s, t);
  }

  /** A tainted value has its level, and it is a height of its function. */
  lemma LevelOfTainted(m: Module, cfg: Config, ph: Phase, s: State, v: Value)
    requires Inv(m, cfg, ph, s) && LevelPremise(cfg, s) && v in s.tainted
    ensures IsLocal(v) && FnOf(v) in s.funcLevel
    ensures LevelOk(m, cfg, |s.funcLevel|, FnOf(v), LevelOf(s, v))
  {
    hide Sourced, Origins, AllAccounted, Height;
    InstsAre(m, v);
  }

  /** The caller of a function at height l is at height l + 1. */
  lemma CallerHeight(m: Module, cfg: Config, s: State, c: Value, f: nat)
    requires LevelFacts(m, cfg, s) && f in s.funcLevel && DirectCall(m, c, f)
    ensures LevelOk(m, cfg, |s.funcLevel|, c.f, CallerLevel(s, f))
  {
    assert LevelOk(m, cfg, |s.funcLevel| - 1, f, s.funcLevel[f]);
    hide LevelFacts;
    assert Calls(m, c.f, f);
    ReachedStep(Climbs(m, cfg), AtSource(m, cfg), Node(f, s.funcLevel[f]), Node(c.f, s.funcLevel[f] + 1));
  }

  /** A callee entered from a function at height l is at height l - 1. */
  lemma CalleeHeight(m: Module, cfg: Config, n: int, g: nat, l: int, f: nat)
    requires cfg.interproc && LevelOk(m, cfg, n, g, l) && MayEnter(m, cfg, g, f)
    ensures Height(m, cfg, f, l - 1)
  {
    ReachedStep(Climbs(m, cfg), AtSource(m, cfg), Node(g, l), Node(f, l - 1));
  }
}
