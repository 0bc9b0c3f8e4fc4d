/** The upward phase step by step: calls of functions that return taint, calls of functions
    that taint a pointer parameter, and the uses of newly tainted values. */
module UpwardSteps {
  import opened Options
  import opened IR
  import opened PointerOrigin
  import opened StructFields
  import opened FlowRules
  import opened TaintState
  import opened Invariants
  import opened Updates
  import opened MainSteps

  /** The rules only grow when the upward phase begins. */
  lemma InvForUpward(m: Module, cfg: Config, ph: Phase, s: State)
    requires Inv(m, cfg, ph, s)
    ensures Inv(m, cfg, Upward, s)
  {
    hide Derivable, Shape, Origins, AllAccounted, Levels, Marks, FieldsUsed, LevelSources;
    forall x | Holds(s, x) ensures Derives(m, cfg, Upward, s, x) {
      assert Derives(m, cfg, ph, s, x);
      DerivableMonotone(m, cfg, ph.Upward?, Loadable(ph, s), Heeded(ph), true, s.origin, {}, x);
    }
    LevelsForUpward(m, cfg, ph, s);
  }

  lemma LevelsForUpward(m: Module, cfg: Config, ph: Phase, s: State)
    requires LevelSources(m, cfg, ph, s)
    ensures LevelSources(m, cfg, Upward, s)
  {
    hide FunctionLevelFrom, LoadAwaits, UsesAtLevel, Entry, IsSource, LoadMatches;
    if LevelPremise(cfg, s) {
      forall v | v in s.tainted ensures v in s.valueLevel && LevelFrom(m, cfg, Upward, s, v, s.valueLevel[v]) {
        assert LevelFrom(m, cfg, ph, s, v, s.valueLevel[v]);
      }
    }
  }

  lemma CallReturnsKeeps(m: Module, cfg: Config, s: State, f: nat, c: Value)
    requires Inv(m, cfg, Upward, s) && f in s.returning && DirectCall(m, c, f)
    ensures var t := CallReturns(s, f, c);
      && Inv(m, cfg, Upward, t) && Grows(cfg, s, t) && c in t.tainted
      && t.returning == s.returning && t.params == s.params
  {
    hide Inv, Grows, CallerLevel, FunctionLevelFrom, LevelFrom, Height, Taint, SetFuncLevelIfAbsent;
    GrowsReflexive(cfg, s);
    if c !in s.tainted {
      var l := CallerLevel(s, f);
      ReturnLevelOk(m, cfg, s, f, c);
      FuncLevelKeeps(m, cfg, Upward, s, c.f, l);
      var s1 := SetFuncLevelIfAbsent(s, c.f, l);
      FuncLevelOnly(s, c.f, l);
      if LevelPremise(cfg, s) { LevelFromGrows(m, cfg, Upward, s, s1, c, l); }
      ReturnTaintKeeps(m, cfg, s1, f, c, l);
      GrowsTransitive(cfg, s, s1, Taint(s1, c, l));
      TaintOnly(s1, c, l);
    }
  }

  lemma FuncLevelOnly(s: State, f: nat, l: int)
    ensures var t := SetFuncLevelIfAbsent(s, f, l); t == s.(funcLevel := t.funcLevel)
    ensures var t := SetFuncLevelIfAbsent(s, f, l); KeepsFuncLevels(s, t) && |s.funcLevel| <= |t.funcLevel|
  {
  }

  lemma TaintOnly(s: State, u: Value, l: int)
    ensures var t := Taint(s, u, l); u in t.tainted && t.returning == s.returning && t.params == s.params
  {
  }

  lemma ReturnTaintKeeps(m: Module, cfg: Config, s: State, f: nat, c: Value, l: int)
    requires Inv(m, cfg, Upward, s) && f in s.returning && DirectCall(m, c, f) && c !in s.tainted && c.f in s.funcLevel
    requires LevelPremise(cfg, s) ==> LevelOk(m, cfg, |s.funcLevel|, c.f, l) && LevelFrom(m, cfg, Upward, s, c, l)
    ensures Inv(m, cfg, Upward, Taint(s, c, l)) && Grows(cfg, s, Taint(s, c, l))
  {
    hide Inv, Derives, Accounted, Height, Locals, Grows, LevelFrom, LevelPremise, Taint;
    ReturnDerives(m, cfg, s, f, c);
    InstsAre(m, c);
    NothingToAccount(m, s, c);
    TaintKeeps(m, cfg, Upward, s, c, l);
  }

  lemma ReturnLevelOk(m: Module, cfg: Config, s: State, f: nat, c: Value)
    requires Inv(m, cfg, Upward, s) && f in s.returning && DirectCall(m, c, f)
    ensures LevelPremise(cfg, s) ==>
      && LevelOk(m, cfg, |s.funcLevel|, c.f, CallerLevel(s, f))
      && FunctionLevelFrom(m, cfg, s, c.f, CallerLevel(s, f)) && LevelFrom(m, cfg, Upward, s, c, CallerLevel(s, f))
  {
    hide Shape, Origins, AllAccounted, Sourced, Height, Traced, IsSourceFn;
    if LevelPremise(cfg, s) {
      CallerHeight(m, cfg, s, c, f);
      assert CallsFromLevel(m, s, c.f, c, f, CallerLevel(s, f));
      assert ReturnsFromLevel(m, s, c, f, CallerLevel(s, f));
    }
  }

  lemma ReturnDerives(m: Module, cfg: Config, s: State, f: nat, c: Value)
    requires Inv(m, cfg, Upward, s) && f in s.returning && DirectCall(m, c, f)
    ensures Derives(m, cfg, Upward, s, Val(c))
  {
    hide Derives, Shape, Origins, AllAccounted, Levels, Traced;
    assert Holds(s, Returns(f));
    StepDerives(m, cfg, Upward, s, Returns(f), Val(c));
  }

  // ----- pointers marked at a call -----

  /** `p` may be marked as a tainted pointer at call `c`. */
  ghost predicate Markable(m: Module, cfg: Config, s: State, p: Value, c: Value) {
    && p in Universe(m) && Derives(m, cfg, Upward, s, Ptr(p)) && MarkedBy(m, cfg, s, p, c)
    && (LevelPremise(cfg, s) && IsLocal(p) ==> FnOf(p) in s.funcLevel)
  }

  lemma MarkableGrows(m: Module, cfg: Config, s: State, t: State, p: Value, c: Value)
    requires Markable(m, cfg, s, p, c) && Grows(cfg, s, t)
    ensures Markable(m, cfg, t, p, c)
  {
    hide Derives, MarkedBy, Universe;
    MarkedByGrows(m, cfg, s, t, p, c);
    DerivesGrows(m, cfg, Upward, s, t, Ptr(p));
  }

  /** Everything except the tainted pointers and their origins. */
  ghost predicate MarksOnly(s: State, t: State) {
    t == s.(pointers := t.pointers, origin := t.origin)
  }

  lemma MarkOneKeeps(m: Module, cfg: Config, s: State, p: Value, c: Value)
    requires Inv(m, cfg, Upward, s) && IsInst(m, c) && Markable(m, cfg, s, p, c)
    ensures var t := MarkPointer(s, p, c);
      Inv(m, cfg, Upward, t) && Grows(cfg, s, t) && MarksOnly(s, t) && p in t.pointers
  {
    hide Inv, Derives, Universe, Grows, MarkedBy;
    MarkPointerKeeps(m, cfg, Upward, s, p, c);
  }

  lemma {:induction false} MarkStoredKeeps(m: Module, cfg: Config, s: State, g: Value, us: seq<Value>, c: Value)
    requires Inv(m, cfg, Upward, s) && IsInst(m, c)
    requires forall u :: u in us && StoresAddress(m, g, u) ==> Markable(m, cfg, s, Strip(m, At(m, u).val), c)
    ensures var t := MarkStored(m, s, g, us, c);
      Inv(m, cfg, Upward, t) && Grows(cfg, s, t) && MarksOnly(s, t)
    decreases us
  {
    hide Inv, Markable, MarkPointer, IsInst, Strip, At, Grows;
    GrowsReflexive(cfg, s);
    if us != [] {
      var s1 := s;
      if StoresAddress(m, g, us[0]) {
        var p := Strip(m, At(m, us[0]).val);
        s1 := MarkPointer(s, p, c);
        MarkOneKeeps(m, cfg, s, p, c);
      }
      forall u | u in us[1..] && StoresAddress(m, g, u) ensures Markable(m, cfg, s1, Strip(m, At(m, u).val), c) {
        MarkableGrows(m, cfg, s, s1, Strip(m, At(m, u).val), c);
      }
      MarkStoredKeeps(m, cfg, s1, g, us[1..], c);
      GrowsTransitive(cfg, s, s1, MarkStored(m, s1, g, us[1..], c));
    }
  }

  ghost predicate StoresOf(m: Module, g: Value, u: Value, p: Value) {
    StoresAddress(m, g, u) && p == Strip(m, At(m, u).val)
  }

  lemma StoredOnce(m: Module, s: State, g: Value, u: Value, c: Value, p: Value)
    ensures p in (if StoresAddress(m, g, u) then MarkPointer(s, Strip(m, At(m, u).val), c) else s).pointers
      <==> p in s.pointers || StoresOf(m, g, u, p)
  {
    hide At, Strip;
  }

  lemma {:induction false} MarkStoredExact(m: Module, s: State, g: Value, us: seq<Value>, c: Value, p: Value)
    ensures p in MarkStored(m, s, g, us, c).pointers <==> p in s.pointers || exists u :: u in us && StoresOf(m, g, u, p)
    decreases us
  {
    hide At, Strip, MarkPointer, StoresOf;
    if us != [] {
      var s1 := if StoresAddress(m, g, us[0]) then MarkPointer(s, Strip(m, At(m, us[0]).val), c) else s;
      assert MarkStored(m, s, g, us, c) == MarkStored(m, s1, g, us[1..], c);
      hide MarkStored;
      StoredOnce(m, s, g, us[0], c, p);
      MarkStoredExact(m, s1, g, us[1..], c, p);
      assert us == [us[0]] + us[1..];
    }
  }

  /** Store `u` puts the address of local variable `p` into an accessed field of the struct. */
  ghost predicate StoredInField(m: Module, accessed: seq<int>, g: Value, p: Value) {
    && At(m, g).Gep? && FieldAccessed(At(m, g), accessed)
    && exists u :: u in UseList(m, g) && StoresOf(m, g, u, p)
  }

  /** Marking the fields of a struct taints exactly the local variables whose addresses are
      stored into the accessed fields. */
  lemma {:induction false} MarkFieldsExact(m: Module, s: State, us: seq<Value>, accessed: seq<int>, c: Value, p: Value)
    ensures p in MarkFields(m, s, us, accessed, c).pointers <==>
      p in s.pointers || exists g :: g in us && StoredInField(m, accessed, g, p)
    decreases us
  {
    hide FieldAccessed, MarkStored, StoresOf;
    if us != [] {
      var g0 := us[0];
      var s1 := s;
      if At(m, g0).Gep? && FieldAccessed(At(m, g0), accessed) {
        s1 := MarkStored(m, s, g0, UseList(m, g0), c);
        MarkStoredExact(m, s, g0, UseList(m, g0), c, p);
      }
      assert p in s1.pointers <==> p in s.pointers || StoredInField(m, accessed, g0, p);
      MarkFieldsExact(m, s1, us[1..], accessed, c, p);
      assert MarkFields(m, s, us, accessed, c) == MarkFields(m, s1, us[1..], accessed, c);
      hide StoredInField, MarkFields;
      assert us == [g0] + us[1..];
    }
  }

  /** All field targets of struct variable `a` reached through `us` may be marked. */
  ghost predicate FieldsMarkable(m: Module, cfg: Config, s: State, us: seq<Value>, c: Value) {
    forall g, u :: g in us && At(m, g).Gep? && u in UseList(m, g) && StoresAddress(m, g, u)
      ==> Markable(m, cfg, s, Strip(m, At(m, u).val), c)
  }

  lemma FieldsMarkableGrows(m: Module, cfg: Config, s: State, t: State, us: seq<Value>, c: Value)
    requires us != [] && FieldsMarkable(m, cfg, s, us, c) && Grows(cfg, s, t)
    ensures FieldsMarkable(m, cfg, t, us[1..], c)
  {
    hide Markable, Grows, Strip;
    forall g, u | g in us[1..] && At(m, g).Gep? && u in UseList(m, g) && StoresAddress(m, g, u)
      ensures Markable(m, cfg, t, Strip(m, At(m, u).val), c)
    {
      MarkableGrows(m, cfg, s, t, Strip(m, At(m, u).val), c);
    }
  }

  lemma {:induction false} MarkFieldsKeeps(m: Module, cfg: Config, s: State, us: seq<Value>, accessed: seq<int>,
                                         c: Value)
    requires Inv(m, cfg, Upward, s) && IsInst(m, c) && FieldsMarkable(m, cfg, s, us, c)
    ensures var t := MarkFields(m, s, us, accessed, c);
      Inv(m, cfg, Upward, t) && Grows(cfg, s, t) && MarksOnly(s, t)
    decreases us
  {
    hide Inv, Markable, IsInst, FieldAccessed, MarkStored, Strip, At, Grows;
    GrowsReflexive(cfg, s);
    if us != [] {
      var s1 := s;
      if At(m, us[0]).Gep? && FieldAccessed(At(m, us[0]), accessed) {
        MarkStoredKeeps(m, cfg, s, us[0], UseList(m, us[0]), c);
        s1 := MarkStored(m, s, us[0], UseList(m, us[0]), c);
      }
      FieldsMarkableGrows(m, cfg, s, s1, us, c);
      MarkFieldsKeeps(m, cfg, s1, us[1..], accessed, c);
      GrowsTransitive(cfg, s, s1, MarkFields(m, s1, us[1..], accessed, c));
    }
  }

  /** The address stored into a field of a local struct is that of a local variable of the
      same function. */
  lemma FieldTargetIsLocal(m: Module, a: Value, g: Value, u: Value, t: Value)
    requires WellFormed(m) && FieldTarget(m, a, g, u, t)
    ensures IsLocal(a) && IsLocal(t) && FnOf(a) == FnOf(t) && t in Universe(m)
  {
    assert IsUser(m, g, a) && IsUser(m, u, g) && IsUser(m, u, At(m, u).val);
    OperandFacts(m, g, a);
    OperandFacts(m, u, g);
    OperandFacts(m, u, At(m, u).val);
  }

  lemma PointedIsLocal(m: Module, c: Value, arg: Value)
    requires WellFormed(m) && IsUser(m, c, arg) && Pointed(m, arg).Some?
    ensures var p := Pointed(m, arg).value;
      p in Universe(m) && (IsLocal(p) ==> FnOf(p) == c.f)
  {
    OperandFacts(m, c, arg);
    if At(m, arg).Gep? {
      assert IsUser(m, arg, At(m, arg).base);
      OperandFacts(m, arg, At(m, arg).base);
    }
  }

  lemma MarkPassedKeeps(m: Module, cfg: Config, s: State, f: nat, n: nat, c: Value)
    requires WellFormed(m) && Inv(m, cfg, Upward, s) && n in ParamsOf(s.params, f)
    requires DirectCall(m, c, f) && n < |At(m, c).args|
    requires OriginOf(m, At(m, c).args[n]).None? && Pointed(m, At(m, c).args[n]).Some?
    ensures var p := Pointed(m, At(m, c).args[n]).value;
      var t := MarkPassed(m, s, f, n, c, p);
      && Inv(m, cfg, Upward, t) && Grows(cfg, s, t) && p in t.pointers
      && t.returning == s.returning && t.params == s.params
  {
    hide WellFormed, Inv, Derives, Height, MarkFields, Universe, Markable, ParamFlow, Pointed, Grows, FunctionLevelFrom;
    var arg := At(m, c).args[n];
    var p := Pointed(m, arg).value;
    if p in s.pointers {
      assert Grows(cfg, s, s) by { GrowsReflexive(cfg, s); }
    } else {
      CallerLevelOk(m, cfg, s, f, n, c);
      var l := CallerLevel(s, f);
      FuncLevelKeeps(m, cfg, Upward, s, c.f, l);
      var s0 := SetFuncLevelIfAbsent(s, c.f, l);
      PassedMarkable(m, cfg, s0, f, n, c);
      MarkOneKeeps(m, cfg, s0, p, c);
      var s1 := MarkPointer(s0, p, c);
      GrowsTransitive(cfg, s, s0, s1);
      if At(m, p).Alloca? && At(m, p).isStruct {
        TargetsMarkable(m, cfg, s1, f, n, c);
        var accessed := FieldsOf(s.fields, f, n);
        MarkFieldsKeeps(m, cfg, s1, UseList(m, p), accessed, c);
        GrowsTransitive(cfg, s, s1, MarkFields(m, s1, UseList(m, p), accessed, c));
        GrowsHolds(cfg, s1, MarkFields(m, s1, UseList(m, p), accessed, c), Ptr(p));
      }
    }
  }

  lemma PassedMarkable(m: Module, cfg: Config, s: State, f: nat, n: nat, c: Value)
    requires WellFormed(m) && Inv(m, cfg, Upward, s) && n in ParamsOf(s.params, f)
    requires DirectCall(m, c, f) && n < |At(m, c).args| && c.f in s.funcLevel
    requires OriginOf(m, At(m, c).args[n]).None? && Pointed(m, At(m, c).args[n]).Some?
    ensures Markable(m, cfg, s, Pointed(m, At(m, c).args[n]).value, c)
  {
    hide WellFormed, Inv, Derives, Universe, Pointed;
    var arg := At(m, c).args[n];
    assert IsUser(m, c, arg);
    PointedIsLocal(m, c, arg);
    ParamDerives(m, cfg, s, f, n, c, Ptr(Pointed(m, arg).value));
  }

  lemma TargetsMarkable(m: Module, cfg: Config, s: State, f: nat, n: nat, c: Value)
    requires WellFormed(m) && Inv(m, cfg, Upward, s) && n in ParamsOf(s.params, f)
    requires DirectCall(m, c, f) && n < |At(m, c).args| && c.f in s.funcLevel
    requires OriginOf(m, At(m, c).args[n]).None? && Pointed(m, At(m, c).args[n]).Some?
    requires var i := At(m, Pointed(m, At(m, c).args[n]).value); i.Alloca? && i.isStruct
    ensures FieldsMarkable(m, cfg, s, UseList(m, Pointed(m, At(m, c).args[n]).value), c)
  {
    hide WellFormed, Inv, Derives, Universe, Pointed;
    var arg := At(m, c).args[n];
    var p := Pointed(m, arg).value;
    assert IsUser(m, c, arg);
    PointedIsLocal(m, c, arg);
    forall g, u | g in UseList(m, p) && At(m, g).Gep? && u in UseList(m, g) && StoresAddress(m, g, u)
      ensures Markable(m, cfg, s, Strip(m, At(m, u).val), c)
    {
      var t := Strip(m, At(m, u).val);
      assert FieldTarget(m, p, g, u, t);
      FieldTargetIsLocal(m, p, g, u, t);
      ParamDerives(m, cfg, s, f, n, c, Ptr(t));
    }
  }

  lemma ParamDerives(m: Module, cfg: Config, s: State, f: nat, n: nat, c: Value, y: Fact)
    requires Inv(m, cfg, Upward, s) && n in ParamsOf(s.params, f) && ParamFlow(m, f, n, c, y)
    ensures Derives(m, cfg, Upward, s, y)
  {
    hide Derives, Shape, Origins, AllAccounted, Levels, ParamFlow, Traced;
    assert Holds(s, Param(f, n));
    StepDerives(m, cfg, Upward, s, Param(f, n), y);
  }

  lemma CallerLevelOk(m: Module, cfg: Config, s: State, f: nat, n: nat, c: Value)
    requires Inv(m, cfg, Upward, s) && n in ParamsOf(s.params, f) && DirectCall(m, c, f)
    ensures LevelPremise(cfg, s) ==>
      && LevelOk(m, cfg, |s.funcLevel|, c.f, CallerLevel(s, f)) && FunctionLevelFrom(m, cfg, s, c.f, CallerLevel(s, f))
  {
    hide Shape, Origins, AllAccounted, Sourced, Height, Traced, IsSourceFn;
    if LevelPremise(cfg, s) {
      CallerHeight(m, cfg, s, c, f);
      assert CallsFromLevel(m, s, c.f, c, f, CallerLevel(s, f));
    }
  }

  /** What a recorded parameter owes to one direct call: the caller's own pointer
      parameter is recorded, or else the variable whose address is passed is tainted. */
  ghost predicate CallSettled(m: Module, s: State, f: nat, n: nat, c: Value) {
    DirectCall(m, c, f) && n < |At(m, c).args| ==>
      var arg := At(m, c).args[n];
      match OriginOf(m, arg)
      case Some(a) => a.Arg? && a.n in ParamsOf(s.params, c.f)
      case None => Pointed(m, arg).Some? ==> Pointed(m, arg).value in s.pointers
  }

  lemma CallSettledGrows(m: Module, cfg: Config, s: State, t: State, f: nat, n: nat, c: Value)
    requires CallSettled(m, s, f, n, c) && Grows(cfg, s, t)
    ensures CallSettled(m, t, f, n, c)
  {
  }

  lemma CallTaintsKeeps(m: Module, cfg: Config, s: State, f: nat, n: nat, c: Value)
    requires WellFormed(m) && Inv(m, cfg, Upward, s) && n in ParamsOf(s.params, f) && DirectCall(m, c, f)
    ensures var t := CallTaints(m, s, f, n, c);
      && Inv(m, cfg, Upward, t) && Grows(cfg, s, t) && CallSettled(m, t, f, n, c) && t.returning == s.returning
  {
    hide WellFormed, Inv, Derives, Height, MarkPassed, Universe, FunctionLevelFrom;
    var i := At(m, c);
    if n < |i.args| {
      var arg := i.args[n];
      assert IsUser(m, c, arg);
      OperandFacts(m, c, arg);
      if OriginOf(m, arg).Some? {
        var a := OriginOf(m, arg).value;
        if a.n !in ParamsOf(s.params, c.f) {
          CallerLevelOk(m, cfg, s, f, n, c);
          ParamDerives(m, cfg, s, f, n, c, Param(c.f, a.n));
          PassThroughKeeps(m, cfg, s, c.f, a.n, CallerLevel(s, f));
        }
      } else if Pointed(m, arg).Some? {
        MarkPassedKeeps(m, cfg, s, f, n, c);
      }
    }
  }

  /** The search of a struct looks at field address `g`: no fields are known to be accessed,
      or the one it selects is among them; a field address that selects none counts as -1. */
  predicate Searched(m: Module, accessed: seq<int>, g: Value) {
    At(m, g).Gep? && match FieldOf(At(m, g))
      case Some(i) => accessed != [] ==> i in accessed
      case None => accessed != [] ==> -1 in accessed
  }

  /** Pointer `q` is newly marked by passing `p`: it is `p` itself, or local variable whose
      address is stored into a searched field of `p`. */
  ghost predicate MarkedWith(m: Module, accessed: seq<int>, p: Value, q: Value) {
    q == p || exists g, u :: FieldTarget(m, p, g, u, q) && Searched(m, accessed, g)
  }

  /** A variable that is passed and not marked yet is marked, and with it exactly the targets
      in its searched fields if it is a struct variable; one marked before is left alone. */
  lemma MarkPassedExact(m: Module, s: State, f: nat, n: nat, c: Value, p: Value, q: Value)
    requires c.Inst?
    ensures q in MarkPassed(m, s, f, n, c, p).pointers <==>
      q in s.pointers || (p !in s.pointers && MarkedWith(m, FieldsOf(s.fields, f, n), p, q))
  {
    if p !in s.pointers {
      var accessed := FieldsOf(s.fields, f, n);
      var s1 := MarkPointer(SetFuncLevelIfAbsent(s, c.f, CallerLevel(s, f)), p, c);
      assert s1.pointers == s.pointers + {p};
      if At(m, p).Alloca? && At(m, p).isStruct {
        hide MarkFields, FieldsOf, CallerLevel;
        MarkFieldsExact(m, s1, UseList(m, p), accessed, c, q);
        assert q in MarkPassed(m, s, f, n, c, p).pointers <==>
          q in MarkFields(m, s1, UseList(m, p), accessed, c).pointers;
        TargetsAre(m, accessed, p, q);
      }
    }
  }

  lemma TargetsAre(m: Module, accessed: seq<int>, p: Value, q: Value)
    requires At(m, p).Alloca? && At(m, p).isStruct
    ensures (exists g :: g in UseList(m, p) && StoredInField(m, accessed, g, q)) <==>
      exists g, u :: FieldTarget(m, p, g, u, q) && Searched(m, accessed, g)
  {
    hide At, Strip, UseList, FieldOf;
    if g :| g in UseList(m, p) && StoredInField(m, accessed, g, q) {
      var u :| u in UseList(m, g) && StoresOf(m, g, u, q);
      assert FieldTarget(m, p, g, u, q) && Searched(m, accessed, g);
    }
    if g, u :| FieldTarget(m, p, g, u, q) && Searched(m, accessed, g) {
      assert StoresOf(m, g, u, q) && StoredInField(m, accessed, g, q);
    }
  }

  /** What one recorded parameter adds at one call: the caller's own parameter behind the
      argument, or else the variable passed with what is searched in it. */
  ghost predicate CallAdds(m: Module, s: State, f: nat, n: nat, c: Value, x: Fact) {
    && c.Inst? && At(m, c).Call? && n < |At(m, c).args|
    && var arg := At(m, c).args[n];
       match OriginOf(m, arg)
       case Some(a) => a.Arg? && x == Param(c.f, a.n)
       case None =>
         && x.Ptr? && Pointed(m, arg).Some? && Pointed(m, arg).value !in s.pointers
         && MarkedWith(m, FieldsOf(s.fields, f, n), Pointed(m, arg).value, x.p)
  }

  /** A call adds that and nothing else. */
  lemma CallTaintsExact(m: Module, s: State, f: nat, n: nat, c: Value, x: Fact)
    requires c.Inst?
    ensures Holds(CallTaints(m, s, f, n, c), x) <==> Holds(s, x) || CallAdds(m, s, f, n, c, x)
  {
    hide OriginOf, MarkPassed, CallerLevel, MarkedWith, FieldsOf, Pointed;
    var i := At(m, c);
    if i.Call? && n < |i.args| && OriginOf(m, i.args[n]).None? && Pointed(m, i.args[n]).Some? {
      var p := Pointed(m, i.args[n]).value;
      MarkPassedOnly(m, s, f, n, c, p);
      if x.Ptr? { MarkPassedExact(m, s, f, n, c, p, x.p); }
    }
  }

  lemma MarkPassedOnly(m: Module, s: State, f: nat, n: nat, c: Value, p: Value)
    requires c.Inst?
    ensures var t := MarkPassed(m, s, f, n, c, p);
      t == s.(pointers := t.pointers, origin := t.origin, funcLevel := t.funcLevel)
  {
    hide MarkFields, CallerLevel;
    var s1 := MarkPointer(SetFuncLevelIfAbsent(s, c.f, CallerLevel(s, f)), p, c);
    MarkFieldsOnly(m, s1, UseList(m, p), FieldsOf(s.fields, f, n), c);
  }

  lemma {:induction false} MarkFieldsOnly(m: Module, s: State, us: seq<Value>, accessed: seq<int>, c: Value)
    ensures MarksOnly(s, MarkFields(m, s, us, accessed, c))
    decreases us
  {
    hide FieldAccessed, MarkStored;
    if us != [] {
      MarkStoredOnly(m, s, us[0], UseList(m, us[0]), c);
      var s1 := if At(m, us[0]).Gep? && FieldAccessed(At(m, us[0]), accessed)
        then MarkStored(m, s, us[0], UseList(m, us[0]), c) else s;
      MarkFieldsOnly(m, s1, us[1..], accessed, c);
    }
  }

  lemma {:induction false} MarkStoredOnly(m: Module, s: State, g: Value, us: seq<Value>, c: Value)
    ensures MarksOnly(s, MarkStored(m, s, g, us, c))
    decreases us
  {
    if us != [] {
      var s1 := if StoresAddress(m, g, us[0]) then MarkPointer(s, Strip(m, At(m, us[0]).val), c) else s;
      MarkStoredOnly(m, s1, g, us[1..], c);
    }
  }

  lemma PassThroughKeeps(m: Module, cfg: Config, s: State, g: nat, k: nat, l: int)
    requires Inv(m, cfg, Upward, s) && IsPtrArg(m, Arg(g, k))
    requires Derives(m, cfg, Upward, s, Param(g, k))
    requires LevelPremise(cfg, s) ==> LevelOk(m, cfg, |s.funcLevel|, g, l) && FunctionLevelFrom(m, cfg, s, g, l)
    ensures var t := SetFuncLevelIfAbsent(RecordParam(s, g, k), g, l);
      && Inv(m, cfg, Upward, t) && Grows(cfg, s, t)
      && k in ParamsOf(t.params, g) && t.returning == s.returning
  {
    hide Inv, Derives, Height, FunctionLevelFrom;
    FuncLevelKeeps(m, cfg, Upward, s, g, l);
    var s1 := SetFuncLevelIfAbsent(s, g, l);
    DerivesGrows(m, cfg, Upward, s, s1, Param(g, k));
    RecordParamKeeps(m, cfg, Upward, s1, g, k);
    assert RecordParam(s1, g, k) == SetFuncLevelIfAbsent(RecordParam(s, g, k), g, l);
  }

  // ----- uses in the upward phase -----

  lemma UpwardStoreKeeps(m: Module, cfg: Config, s: State, v: Value, u: Value)
    requires WellFormed(m) && Inv(m, cfg, Upward, s) && v in s.tainted
    requires IsUser(m, u, v) && At(m, u).Store? && At(m, u).val == v
    ensures var t := UpwardStore(m, s, v, u, At(m, u));
      Inv(m, cfg, Upward, t) && Grows(cfg, s, t) && Accounted(m, t, u)
  {
    hide WellFormed, Derives, Inv, Locals, Universe, Accounted, Grows, ParamsOf, FieldsUsed;
    assert Shape(m, s) && Sourced(m, cfg, Upward, s) by { InvParts(m, cfg, Upward, s); }
    UserIsLocal(m, s, v, u);
    var i := At(m, u);
    var p := Strip(m, i.ptr);
    OperandFacts(m, u, i.ptr);
    FunctionHasLevel(m, cfg, Upward, s, v);
    UseDerivable(m, cfg, Upward, s, v, u, Ptr(p));
    assert MarkedBy(m, cfg, s, p, u);
    hide Shape, Sourced, MarkedBy;
    MarkPointerKeeps(m, cfg, Upward, s, p, u);
    var s1 := MarkPointer(s, p, u);
    if OriginOf(m, i.ptr).None? {
      StoreHasLanded(m, s1, u);
    } else {
      var a := OriginOf(m, i.ptr).value;
      assert Sourced(m, cfg, Upward, s1) by { InvParts(m, cfg, Upward, s1); }
      UseDerivable(m, cfg, Upward, s1, v, u, Param(u.f, a.n));
      FunctionHasLevel(m, cfg, Upward, s1, v);
      RecordParamKeeps(m, cfg, Upward, s1, u.f, a.n);
      var s2 := RecordParam(s1, u.f, a.n);
      var s3 := RecordFields(m, s2, u.f, a.n, i.ptr);
      assert FieldsUsed(m, cfg, s2) by { InvParts(m, cfg, Upward, s2); }
      FieldsRecorded(m, cfg, s2, u);
      FieldsKeep(m, cfg, Upward, s2, s3);
      assert a.n in ParamsOf(s3.params, u.f) by { ParamRecorded(s1, u.f, a.n); }
      StoreHasLanded(m, s3, u);
      GrowsTransitive(cfg, s, s1, s2);
      GrowsTransitive(cfg, s, s2, s3);
    }
  }

  /** Recorded field indices are a set: nothing is lost, nothing is listed twice. */
  lemma {:induction false} FieldsAccumulate(known: seq<int>, used: seq<int>)
    requires NoDuplicates(known)
    ensures NoDuplicates(AddFields(known, used))
    ensures forall i :: i in AddFields(known, used) <==> i in known || i in used
    decreases used
  {
    if used != [] {
      FieldsAccumulate(if used[0] in known then known else known + [used[0]], used[1..]);
      assert used == [used[0]] + used[1..];
    }
  }

  lemma {:induction false} AddFieldsHas(known: seq<int>, used: seq<int>, i: int)
    ensures i in AddFields(known, used) <==> i in known || i in used
    decreases used
  {
    if used != [] {
      AddFieldsHas(if used[0] in known then known else known + [used[0]], used[1..], i);
      assert used == [used[0]] + used[1..];
    }
  }

  /** Recording a store through a parameter adds exactly the fields its address goes through,
      and to that parameter only. */
  lemma RecordFieldsExact(m: Module, s: State, f: nat, n: nat, address: Value, g: nat, k: nat, i: int)
    ensures i in FieldsOf(RecordFields(m, s, f, n, address).fields, g, k) <==>
      i in FieldsOf(s.fields, g, k) || (g == f && k == n && i in FieldIndices(m, address))
  {
    hide FieldIndices, AddFields;
    AddFieldsHas(FieldsOf(s.fields, f, n), FieldIndices(m, address), i);
  }

  lemma FieldsRecorded(m: Module, cfg: Config, s: State, u: Value)
    requires FieldsUsed(m, cfg, s) && u.Inst? && At(m, u).Store?
    requires At(m, u).val in s.tainted || Matches(cfg, At(m, u).val)
    requires var a := OriginOf(m, At(m, u).ptr); a.Some? && a.value.Arg? && a.value.f == u.f
    ensures FieldsUsed(m, cfg, RecordFields(m, s, u.f, OriginOf(m, At(m, u).ptr).value.n, At(m, u).ptr))
  {
    hide FieldIndices, OriginOf, RecordFields, FieldsOf, At, FieldUsed;
    var n := OriginOf(m, At(m, u).ptr).value.n;
    var t := RecordFields(m, s, u.f, n, At(m, u).ptr);
    assert t.tainted == s.tainted by { RecordFieldsOnly(m, s, u.f, n, At(m, u).ptr); }
    forall f, k, i | i in FieldsOf(t.fields, f, k) ensures FieldUsed(m, cfg, t, f, k, i) {
      RecordFieldsExact(m, s, u.f, n, At(m, u).ptr, f, k, i);
      if i in FieldsOf(s.fields, f, k) { FieldUsedLater(m, cfg, s, t, f, k, i); }
      else { FieldUsedBy(m, cfg, t, u, k, i); }
    }
  }

  lemma RecordFieldsOnly(m: Module, s: State, f: nat, n: nat, address: Value)
    ensures var t := RecordFields(m, s, f, n, address); t == s.(fields := t.fields)
  {
  }

  lemma FieldUsedLater(m: Module, cfg: Config, s: State, t: State, f: nat, n: nat, i: int)
    requires FieldUsed(m, cfg, s, f, n, i) && t.tainted == s.tainted
    ensures FieldUsed(m, cfg, t, f, n, i)
  {
    var u :| UsesField(m, cfg, s, f, n, i, u);
    assert UsesField(m, cfg, t, f, n, i, u);
  }

  lemma FieldUsedBy(m: Module, cfg: Config, t: State, u: Value, n: nat, i: int)
    requires u.Inst? && UsesField(m, cfg, t, u.f, n, i, u)
    ensures FieldUsed(m, cfg, t, u.f, n, i)
  {
  }

  lemma ParamRecorded(s: State, f: nat, n: nat)
    ensures n in ParamsOf(RecordParam(s, f, n).params, f)
  {
  }

  /** The field table plays no part in the invariant. */
  lemma FieldsKeep(m: Module, cfg: Config, ph: Phase, s: State, t: State)
    requires Inv(m, cfg, ph, s) && t == s.(fields := t.fields) && FieldsUsed(m, cfg, t)
    ensures Inv(m, cfg, ph, t) && Grows(cfg, s, t)
  {
    hide Shape, Origins, Sourced, AllAccounted, Height, ParamsOf, Traced, FieldUsed;
    TracedStep(m, cfg, ph, s, t);
    LevelUpdateKeeps(m, cfg, ph, s, t);
  }

  /** The use of `v` in `u` has been dealt with: `u` is tainted, or the main phase stopped
      there and recorded why. */
  ghost predicate UseSettled(m: Module, s: State, v: Value, u: Value) {
    var i := At(m, u);
    || u in s.tainted
    || (u.Inst? && i.Ret? && u.f in s.returning)
    || (u.Inst? && i.Store? && i.val == v && (Strip(m, i.ptr).Global?
        || (OriginOf(m, i.ptr).Some? && OriginOf(m, i.ptr).value.Arg?
          && OriginOf(m, i.ptr).value.n in ParamsOf(s.params, u.f))))
  }

  lemma UseSettledGrows(m: Module, cfg: Config, s: State, t: State, v: Value, u: Value)
    requires UseSettled(m, s, v, u) && Grows(cfg, s, t)
    ensures UseSettled(m, t, v, u)
  {
  }

  lemma MainSettlesUse(m: Module, cfg: Config, s: State, v: Value, u: Value)
    requires WellFormed(m) && IsUser(m, u, v) && UserSettled(m, cfg, s, v, u)
    ensures UseSettled(m, s, v, u)
  {
    hide WellFormed;
    var i := At(m, u);
    if i.Ret? {
      assert MainUse(m, cfg, v, u, Returns(u.f));
    } else if PassesOn(m, v, u) {
      assert MainUse(m, cfg, v, u, Val(u));
    } else if !Strip(m, i.ptr).Global? {
      assert IsUser(m, u, i.ptr);
      OperandFacts(m, u, i.ptr);
      assert MainUse(m, cfg, v, u, Param(u.f, OriginOf(m, i.ptr).value.n));
    }
  }

  lemma UpwardTaintKeeps(m: Module, cfg: Config, s: State, v: Value, u: Value)
    requires WellFormed(m) && Inv(m, cfg, Upward, s) && v in s.tainted && IsUser(m, u, v) && Accounted(m, s, u)
    ensures var t := TaintUser(s, v, u);
      Inv(m, cfg, Upward, t) && Grows(cfg, s, t) && u in t.tainted
  {
    hide WellFormed, Inv, Accounted, Derives;
    assert Sourced(m, cfg, Upward, s) by { InvParts(m, cfg, Upward, s); }
    UseDerivable(m, cfg, Upward, s, v, u, Val(u));
    TaintUserKeeps(m, cfg, Upward, s, v, u);
  }

  /** Processing one user in the upward phase: the user ends up tainted. */
  lemma UpwardUserKeeps(m: Module, cfg: Config, s: State, v: Value, u: Value)
    requires WellFormed(m) && Inv(m, cfg, Upward, s) && v in s.tainted && IsUser(m, u, v)
    ensures var t := UpwardUser(m, s, v, u);
      Inv(m, cfg, Upward, t) && Grows(cfg, s, t) && u in t.tainted
  {
    hide WellFormed, Inv, Accounted, Grows, UpwardStore, TaintUser;
    if u in s.tainted {
      GrowsReflexive(cfg, s);
    } else if At(m, u).Store? && At(m, u).val == v {
      UpwardStoreUserKeeps(m, cfg, s, v, u);
    } else {
      if At(m, u).Ret? {
        UpwardReturnKeeps(m, cfg, s, v, u);
      } else {
        OtherAccounted(m, s, v, u);
        UpwardTaintKeeps(m, cfg, s, v, u);
        if At(m, u).Store? {
          assert UpwardStore(m, TaintUser(s, v, u), v, u, At(m, u)) == TaintUser(s, v, u)
            by { StoreOfOther(m, TaintUser(s, v, u), v, u); }
        }
      }
    }
  }

  lemma RecordHolds(m: Module, s: State, f: nat, n: nat, address: Value, x: Fact)
    ensures Holds(RecordFields(m, RecordParam(s, f, n), f, n, address), x) <==> Holds(s, x) || x == Param(f, n)
  {
    hide FieldIndices, AddFields, FieldsOf;
  }

  lemma UpwardStoreExact(m: Module, s: State, v: Value, u: Value, x: Fact)
    requires WellFormed(m) && IsUser(m, u, v) && At(m, u).Store?
    ensures Holds(UpwardStore(m, s, v, u, At(m, u)), x) <==> Holds(s, x) || (!x.Val? && UpwardUse(m, v, u, x))
  {
    hide WellFormed, Universe, UsableIn, IsPtrArg, Strip, OriginOf, MarkPointer, RecordParam, RecordFields, Holds;
    var i := At(m, u);
    assert IsUser(m, u, i.ptr);
    OperandFacts(m, u, i.ptr);
    hide IsUser, IsInst;
    var p := Strip(m, i.ptr);
    MarkHolds(s, p, u, x);
    if OriginOf(m, i.ptr).Some? {
      RecordHolds(m, MarkPointer(s, p, u), u.f, OriginOf(m, i.ptr).value.n, i.ptr, x);
    }
  }

  /** Processing one user adds everything the upward phase concludes from that use, and
      nothing else; a user tainted before is skipped. */
  lemma UpwardUserExact(m: Module, s: State, v: Value, u: Value, x: Fact)
    requires WellFormed(m) && IsUser(m, u, v)
    ensures u in s.tainted ==> UpwardUser(m, s, v, u) == s
    ensures u !in s.tainted ==> (Holds(UpwardUser(m, s, v, u), x) <==> Holds(s, x) || UpwardUse(m, v, u, x))
  {
    hide WellFormed, LevelIn, UpwardStore, OriginOf, Strip;
    if u !in s.tainted && At(m, u).Store? {
      UpwardStoreExact(m, TaintUser(s, v, u), v, u, x);
    }
  }

  lemma UpwardUserOfDone(m: Module, cfg: Config, s: State, v: Value, u: Value)
    requires WellFormed(m) && Inv(m, cfg, Upward, s) && v in s.done && IsUser(m, u, v)
    ensures var t := UpwardUser(m, s, v, u);
      Inv(m, cfg, Upward, t) && Grows(cfg, s, t) && u in t.tainted
  {
    hide WellFormed, Inv, UpwardUser;
    assert v in s.tainted by { assert Shape(m, s) by { InvParts(m, cfg, Upward, s); } }
    UpwardUserKeeps(m, cfg, s, v, u);
  }

  lemma StoreOfOther(m: Module, s: State, v: Value, u: Value)
    requires u.Inst? && At(m, u).Store? && At(m, u).val != v
    ensures UpwardStore(m, s, v, u, At(m, u)) == s
  {
  }

  lemma UpwardStoreUserKeeps(m: Module, cfg: Config, s: State, v: Value, u: Value)
    requires WellFormed(m) && Inv(m, cfg, Upward, s) && v in s.tainted && IsUser(m, u, v)
    requires At(m, u).Store? && At(m, u).val == v && u !in s.tainted
    ensures var t := UpwardStore(m, TaintUser(s, v, u), v, u, At(m, u));
      Inv(m, cfg, Upward, t) && Grows(cfg, s, t) && u in t.tainted
  {
    hide WellFormed, Inv, Accounted, Grows, UpwardStore, TaintUser;
    UpwardStoreKeeps(m, cfg, s, v, u);
    var s1 := UpwardStore(m, s, v, u, At(m, u));
    StoreCommutes(m, s, v, u);
    GrowsHolds(cfg, s, s1, Val(v));
    UpwardTaintKeeps(m, cfg, s1, v, u);
    GrowsTransitive(cfg, s, s1, TaintUser(s1, v, u));
  }

  lemma OtherAccounted(m: Module, s: State, v: Value, u: Value)
    requires IsUser(m, u, v) && v in s.tainted && !At(m, u).Ret? && !(At(m, u).Store? && At(m, u).val == v)
    ensures Accounted(m, s, u)
  {
  }

  lemma UpwardReturnKeeps(m: Module, cfg: Config, s: State, v: Value, u: Value)
    requires WellFormed(m) && Inv(m, cfg, Upward, s) && v in s.tainted
    requires IsUser(m, u, v) && At(m, u).Ret? && u !in s.tainted
    ensures var t := RecordReturn(TaintUser(s, v, u), u.f);
      Inv(m, cfg, Upward, t) && Grows(cfg, s, t) && u in t.tainted
  {
    hide WellFormed, Inv, Derives, StoreLanded, TaintUser, Shape, Sourced, Grows, LevelPremise, UpwardUse;
    assert Shape(m, s) && Sourced(m, cfg, Upward, s) by { InvParts(m, cfg, Upward, s); }
    UserIsLocal(m, s, v, u);
    FunctionHasLevel(m, cfg, Upward, s, v);
    ReturnIsUse(m, cfg, v, u);
    hide MainUse;
    UseDerivable(m, cfg, Upward, s, v, u, Returns(u.f));
    RecordReturnKeeps(m, cfg, Upward, s, u.f);
    var s1 := RecordReturn(s, u.f);
    UpwardTaintKeeps(m, cfg, s1, v, u);
    GrowsTransitive(cfg, s, s1, TaintUser(s1, v, u));
    assert RecordReturn(TaintUser(s, v, u), u.f) == TaintUser(s1, v, u) by { ReturnCommutes(s, v, u); }
  }

  lemma ReturnIsUse(m: Module, cfg: Config, v: Value, u: Value)
    requires u.Inst? && At(m, u).Ret?
    ensures MainUse(m, cfg, v, u, Returns(u.f))
  {
  }

  lemma ReturnCommutes(s: State, v: Value, u: Value)
    requires u.Inst?
    ensures RecordReturn(TaintUser(s, v, u), u.f) == TaintUser(RecordReturn(s, u.f), v, u)
  {
  }

  /** Tainting the store and recording its destination do not interfere. */
  lemma StoreCommutes(m: Module, s: State, v: Value, u: Value)
    requires u.Inst? && At(m, u).Store? && At(m, u).val == v && u !in s.tainted
    ensures var i := At(m, u);
      UpwardStore(m, TaintUser(s, v, u), v, u, i) == TaintUser(UpwardStore(m, s, v, u, i), v, u)
  {
    hide TaintUser, MarkPointer, RecordParam, RecordFields, Strip, At, OriginOf;
    var i := At(m, u);
    var p := Strip(m, i.ptr);
    MarkCommutes(s, v, u, p);
    if OriginOf(m, i.ptr).Some? && OriginOf(m, i.ptr).value.Arg? {
      RecordCommutes(m, MarkPointer(s, p, u), v, u, OriginOf(m, i.ptr).value.n, i.ptr);
    }
  }

  lemma MarkCommutes(s: State, v: Value, u: Value, p: Value)
    requires u !in s.tainted
    ensures MarkPointer(TaintUser(s, v, u), p, u) == TaintUser(MarkPointer(s, p, u), v, u)
    ensures u !in MarkPointer(s, p, u).tainted
  {
    hide LevelIn;
  }

  lemma RecordCommutes(m: Module, s: State, v: Value, u: Value, n: nat, address: Value)
    requires u.Inst? && u !in s.tainted
    ensures RecordFields(m, RecordParam(TaintUser(s, v, u), u.f, n), u.f, n, address)
      == TaintUser(RecordFields(m, RecordParam(s, u.f, n), u.f, n, address), v, u)
  {
    hide LevelIn, FieldIndices, AddFields, FieldsOf, ParamsOf;
  }
}
