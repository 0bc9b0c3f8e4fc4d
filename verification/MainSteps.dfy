/** The main phase step by step: processing one user of a tainted value keeps the
    invariant and establishes every main-phase conclusion from that use. */
module MainSteps {
  import opened Options
  import opened IR
  import opened PointerOrigin
  import opened FlowRules
  import opened TaintState
  import opened Invariants
  import opened Updates

  /** Everything the main phase concludes from user `u` of `v` has been concluded. */
  ghost predicate UserSettled(m: Module, cfg: Config, s: State, v: Value, u: Value) {
    forall y :: MainUse(m, cfg, v, u, y) ==> Holds(s, y)
  }

  lemma UserSettledGrows(m: Module, cfg: Config, s: State, t: State, v: Value, u: Value)
    requires UserSettled(m, cfg, s, v, u) && Grows(cfg, s, t)
    ensures UserSettled(m, cfg, t, v, u)
  {
    forall y | MainUse(m, cfg, v, u, y) ensures Holds(t, y) { GrowsHolds(cfg, s, t, y); }
  }

  /** Users stay in the function of a tainted value. */
  lemma UserIsLocal(m: Module, s: State, v: Value, u: Value)
    requires WellFormed(m) && Shape(m, s) && v in s.tainted && IsUser(m, u, v)
    ensures IsLocal(v) && u.Inst? && FnOf(v) == u.f && u.f < |m.funcs| && u in Locals(m)
  {
    InstsAre(m, v);
    InstsAre(m, u);
  }

  lemma UseDerivable(m: Module, cfg: Config, ph: Phase, s: State, v: Value, u: Value, y: Fact)
    requires Sourced(m, cfg, ph, s) && v in s.tainted && IsUser(m, u, v)
    requires MainUse(m, cfg, v, u, y) || (ph.Upward? && UpwardUse(m, v, u, y))
    ensures Derives(m, cfg, ph, s, y)
  {
    hide Derives, MainUse, UpwardUse;
    assert Holds(s, Val(v));
    StepDerives(m, cfg, ph, s, Val(v), y);
  }

  lemma TaintUserKeeps(m: Module, cfg: Config, ph: Phase, s: State, v: Value, u: Value)
    requires WellFormed(m) && Inv(m, cfg, ph, s) && v in s.tainted && IsUser(m, u, v)
    requires Derives(m, cfg, ph, s, Val(u)) && Accounted(m, s, u)
    ensures var t := TaintUser(s, v, u);
      Inv(m, cfg, ph, t) && Grows(cfg, s, t) && u in t.tainted
  {
    hide WellFormed, Derives, Accounted, Shape, Origins, Sourced, AllAccounted, Levels, Height, Locals, IsUser, Traced;
    UserIsLocal(m, s, v, u);
    if u !in s.tainted {
      if LevelPremise(cfg, s) {
        LevelOfTainted(m, cfg, ph, s, v);
        LevelOfUser(m, cfg, ph, s, v, u);
      }
      TaintKeeps(m, cfg, ph, s, u, LevelOf(s, v));
    }
  }

  /** A user takes the level of the value it uses. */
  lemma LevelOfUser(m: Module, cfg: Config, ph: Phase, s: State, v: Value, u: Value)
    requires Inv(m, cfg, ph, s) && LevelPremise(cfg, s) && v in s.tainted && IsUser(m, u, v)
    ensures v in s.valueLevel && LevelFrom(m, cfg, ph, s, u, LevelOf(s, v))
  {
    hide Shape, Origins, Sourced, AllAccounted, Traced, Height, IsUser, ParamsOf;
    assert UsesAtLevel(m, s, u, v, s.valueLevel[v]);
  }

  // ----- downward propagation -----

  ghost predicate Enters(m: Module, f: nat, n: nat) {
    IsArg(m, Arg(f, n)) && !IsDeclaration(m.funcs[f])
  }

  lemma PassDownKeeps(m: Module, cfg: Config, ph: Phase, s: State, v: Value, f: nat, n: nat)
    requires !ph.Upward? && Inv(m, cfg, ph, s) && cfg.interproc && v in s.tainted
    requires IsLocal(v) && MayEnter(m, cfg, FnOf(v), f)
    requires Enters(m, f, n) ==> Derives(m, cfg, ph, s, Val(Arg(f, n))) && Entry(m, cfg, v, Arg(f, n))
    ensures var t := PassDown(m, s, v, f, n);
      && Inv(m, cfg, ph, t) && Grows(cfg, s, t) && (Enters(m, f, n) ==> Arg(f, n) in t.tainted)
      && (Enters(m, f, n) && Arg(f, n) !in s.tainted ==> OneBelow(s, t, v, Arg(f, n)))
  {
    hide Derives, Inv, MayEnter, Grows, Height, Entry, OneBelow, LevelOf;
    GrowsReflexive(cfg, s);
    if Enters(m, f, n) && Arg(f, n) !in s.tainted {
      hide PassDown, Enters;
      EnterKeeps(m, cfg, ph, s, v, f, n);
    }
  }

  lemma EnterKeeps(m: Module, cfg: Config, ph: Phase, s: State, v: Value, f: nat, n: nat)
    requires !ph.Upward? && Inv(m, cfg, ph, s) && cfg.interproc && v in s.tainted
    requires IsLocal(v) && MayEnter(m, cfg, FnOf(v), f) && Enters(m, f, n) && Arg(f, n) !in s.tainted
    requires Derives(m, cfg, ph, s, Val(Arg(f, n))) && Entry(m, cfg, v, Arg(f, n))
    ensures var t := PassDown(m, s, v, f, n);
      Inv(m, cfg, ph, t) && Grows(cfg, s, t) && Arg(f, n) in t.tainted && OneBelow(s, t, v, Arg(f, n))
  {
    hide Derives, Accounted, Inv, Locals, MayEnter, Grows, Height, Entry, LevelFrom, LevelOf;
    var l := LevelOf(s, v) - 1;
    var s0 := s.(funcLevel := s.funcLevel[f := l]);
    assert PassDown(m, s, v, f, n) == Taint(s0, Arg(f, n), l);
    EnteredLevelKeeps(m, cfg, ph, s, v, f);
    if LevelPremise(cfg, s) { EnteredLevelFrom(m, cfg, ph, s, s0, v, Arg(f, n)); }
    assert LevelPremise(cfg, s0) <==> LevelPremise(cfg, s);
    InstsAre(m, Arg(f, n));
    NothingToAccount(m, s0, Arg(f, n));
    DerivesGrows(m, cfg, ph, s, s0, Val(Arg(f, n)));
    hide LevelPremise;
    TaintKeeps(m, cfg, ph, s0, Arg(f, n), l);
    GrowsTransitive(cfg, s, s0, Taint(s0, Arg(f, n), l));
  }

  /** The parameter entered, and with it its function, is one level below the value passed. */
  ghost predicate OneBelow(s: State, t: State, v: Value, a: Value)
    requires a.Arg?
  {
    && a in t.valueLevel && a.f in t.funcLevel
    && t.valueLevel[a] == LevelOf(s, v) - 1 && t.funcLevel[a.f] == LevelOf(s, v) - 1
  }

  lemma EnteredLevelFrom(m: Module, cfg: Config, ph: Phase, s: State, s0: State, v: Value, a: Value)
    requires Inv(m, cfg, ph, s) && LevelPremise(cfg, s) && v in s.tainted && cfg.interproc && Entry(m, cfg, v, a)
    requires s0 == s.(funcLevel := s0.funcLevel)
    ensures LevelFrom(m, cfg, ph, s0, a, LevelOf(s, v) - 1)
  {
    hide Shape, Origins, Sourced, AllAccounted, Traced, Height, Entry, ParamsOf;
    assert v in s.valueLevel;
  }

  lemma EnteredLevelKeeps(m: Module, cfg: Config, ph: Phase, s: State, v: Value, f: nat)
    requires !ph.Upward? && Inv(m, cfg, ph, s) && cfg.interproc && v in s.tainted && f < |m.funcs|
    requires IsLocal(v) && MayEnter(m, cfg, FnOf(v), f)
    ensures var l := LevelOf(s, v) - 1; var t := s.(funcLevel := s.funcLevel[f := l]);
      Inv(m, cfg, ph, t) && Grows(cfg, s, t) && (LevelPremise(cfg, s) ==> Height(m, cfg, f, l))
  {
    hide Shape, Origins, Sourced, AllAccounted, MayEnter, Height, Traced;
    var l := LevelOf(s, v) - 1;
    EnteredTraced(m, cfg, ph, s, f, l);
    if LevelPremise(cfg, s) {
      LevelOfTainted(m, cfg, ph, s, v);
      CalleeHeight(m, cfg, |s.funcLevel|, FnOf(v), LevelOf(s, v), f);
      EnteredLevels(m, cfg, s, f, l);
    }
    hide LevelFacts;
    LevelUpdateKeeps(m, cfg, ph, s, s.(funcLevel := s.funcLevel[f := l]));
  }

  lemma EnteredTraced(m: Module, cfg: Config, ph: Phase, s: State, f: nat, l: int)
    requires Traced(m, cfg, ph, s) && !ph.Upward? && cfg.interproc
    ensures Traced(m, cfg, ph, s.(funcLevel := s.funcLevel[f := l]))
  {
    hide Traced, LevelFrom, MarkedBy, FieldUsed, FunctionLevelFrom, LoadAwaits, FieldsOf;
    TracedStep(m, cfg, ph, s, s.(funcLevel := s.funcLevel[f := l]));
  }

  lemma EnteredLevels(m: Module, cfg: Config, s: State, f: nat, l: int)
    requires LevelFacts(m, cfg, s) && cfg.interproc && f < |m.funcs| && Height(m, cfg, f, l)
    ensures LevelFacts(m, cfg, s.(funcLevel := s.funcLevel[f := l]))
  {
    hide Height, ParamsOf;
  }

  lemma NothingToAccount(m: Module, s: State, u: Value)
    requires !At(m, u).Store? && !At(m, u).Ret?
    ensures Accounted(m, s, u)
  {
  }

  lemma {:induction false} PassDownAllKeeps(m: Module, cfg: Config, ph: Phase, s: State, v: Value, fs: seq<nat>,
                                          n: nat)
    requires !ph.Upward? && Inv(m, cfg, ph, s) && cfg.interproc && v in s.tainted && IsLocal(v)
    requires forall f :: f in fs ==> MayEnter(m, cfg, FnOf(v), f)
    requires forall f :: f in fs && Enters(m, f, n) ==>
      Derives(m, cfg, ph, s, Val(Arg(f, n))) && Entry(m, cfg, v, Arg(f, n))
    ensures var t := PassDownAll(m, s, v, fs, n);
      Inv(m, cfg, ph, t) && Grows(cfg, s, t) && forall f :: f in fs && Enters(m, f, n) ==> Arg(f, n) in t.tainted
    decreases fs
  {
    hide Derives, Inv, Enters, PassDown, MayEnter, Entry, OneBelow;
    if fs != [] {
      var t := PassDown(m, s, v, fs[0], n);
      PassDownKeeps(m, cfg, ph, s, v, fs[0], n);
      forall f | f in fs[1..] && Enters(m, f, n) ensures Derives(m, cfg, ph, t, Val(Arg(f, n))) {
        DerivesGrows(m, cfg, ph, s, t, Val(Arg(f, n)));
      }
      PassDownAllKeeps(m, cfg, ph, t, v, fs[1..], n);
    }
  }

  /** The parameters a call passes `v` to have derivations. */
  lemma EnteredDerive(m: Module, cfg: Config, ph: Phase, s: State, v: Value, u: Value, n: nat)
    requires Sourced(m, cfg, ph, s) && v in s.tainted && IsUser(m, u, v) && At(m, u).Call?
    requires ArgIndex(At(m, u).args, v) == Some(n) && IsLocal(v) && u.Inst? && u.f == FnOf(v)
    ensures forall f :: f in Targets(cfg, u, At(m, u)) ==> MayEnter(m, cfg, FnOf(v), f)
    ensures forall f :: f in Targets(cfg, u, At(m, u)) && Enters(m, f, n) && cfg.interproc ==>
      Derives(m, cfg, ph, s, Val(Arg(f, n))) && Entry(m, cfg, v, Arg(f, n))
  {
    hide Derives, Sourced, ArgIndex;
    forall f | f in Targets(cfg, u, At(m, u)) && Enters(m, f, n) && cfg.interproc
      ensures Derives(m, cfg, ph, s, Val(Arg(f, n))) && Entry(m, cfg, v, Arg(f, n))
    {
      assert PassesDown(m, cfg, v, u, Arg(f, n));
      UseDerivable(m, cfg, ph, s, v, u, Val(Arg(f, n)));
    }
  }

  /** A call takes the level of the tainted value passed to it, unless it has one. */
  lemma CallLevelKeeps(m: Module, cfg: Config, ph: Phase, s: State, v: Value, u: Value)
    requires Inv(m, cfg, ph, s) && v in s.tainted && IsLocal(v) && IsLocal(u) && FnOf(u) == FnOf(v)
    requires At(m, u).Call?
    ensures var t := SetValueLevelIfAbsent(s, u, LevelOf(s, v)); Inv(m, cfg, ph, t) && Grows(cfg, s, t)
  {
    hide Inv, LevelPremise, LevelOk, LevelOf, Grows;
    if LevelPremise(cfg, s) { LevelOfTainted(m, cfg, ph, s, v); }
    ValueLevelKeeps(m, cfg, ph, s, u, LevelOf(s, v));
  }

  lemma KnownCalleeKeeps(m: Module, cfg: Config, ph: Phase, s: State, v: Value, u: Value, f: nat, n: nat)
    requires !ph.Upward? && Inv(m, cfg, ph, s) && v in s.tainted
    requires IsLocal(v) && IsLocal(u) && FnOf(u) == FnOf(v) && At(m, u).Call? && MayEnter(m, cfg, FnOf(v), f)
    requires cfg.interproc && Enters(m, f, n) ==> Derives(m, cfg, ph, s, Val(Arg(f, n))) && Entry(m, cfg, v, Arg(f, n))
    ensures var s1 := SetValueLevelIfAbsent(s, u, LevelOf(s, v)); Inv(m, cfg, ph, s1) && Grows(cfg, s, s1)
    ensures cfg.interproc ==>
      var t := PassDown(m, SetValueLevelIfAbsent(s, u, LevelOf(s, v)), v, f, n);
      Inv(m, cfg, ph, t) && Grows(cfg, s, t) && (Enters(m, f, n) ==> Arg(f, n) in t.tainted)
  {
    hide Derives, Inv, MayEnter, Entry, OneBelow, LevelOf, Grows, Enters, PassDown;
    var s1 := SetValueLevelIfAbsent(s, u, LevelOf(s, v));
    CallLevelKeeps(m, cfg, ph, s, v, u);
    if cfg.interproc {
      if Enters(m, f, n) { DerivesGrows(m, cfg, ph, s, s1, Val(Arg(f, n))); }
      PassDownKeeps(m, cfg, ph, s1, v, f, n);
      GrowsTransitive(cfg, s, s1, PassDown(m, s1, v, f, n));
    }
  }

  lemma MainCallKeeps(m: Module, cfg: Config, ph: Phase, s: State, v: Value, u: Value)
    requires WellFormed(m) && Inv(m, cfg, ph, s) && v in s.tainted && IsUser(m, u, v) && At(m, u).Call?
    requires !ph.Upward?
    ensures var t := MainCall(m, cfg, s, v, u, At(m, u));
      && Inv(m, cfg, ph, t) && Grows(cfg, s, t)
      && forall w :: PassesDown(m, cfg, v, u, w) ==> w in t.tainted
  {
    hide WellFormed, Derives, Shape, Origins, AllAccounted, Levels, Height, Locals, Traced, Entry;
    UserIsLocal(m, s, v, u);
    var i := At(m, u);
    var at := ArgIndex(i.args, v);
    if at.Some? {
      EnteredDerive(m, cfg, ph, s, v, u, at.value);
      hide Sourced, ArgIndex, PassDown, MayEnter, Grows, LevelOf;
      GrowsReflexive(cfg, s);
      if i.callee.Some? {
        KnownCalleeKeeps(m, cfg, ph, s, v, u, i.callee.value, at.value);
      } else if cfg.interproc {
        PassDownAllKeeps(m, cfg, ph, s, v, Targets(cfg, u, i), at.value);
      }
    }
  }

  // ----- one user -----

  /** What is known about the address of a store (or any other operand). */
  lemma OperandFacts(m: Module, u: Value, v: Value)
    requires WellFormed(m) && IsUser(m, u, v)
    ensures u.Inst? && v in Universe(m) && Strip(m, v) in Universe(m)
    ensures UsableIn(m, u.f, v) && UsableIn(m, u.f, Strip(m, v))
    ensures OriginOf(m, v).Some? ==>
      OriginOf(m, v).value.Arg? && OriginOf(m, v).value.f == u.f && IsPtrArg(m, OriginOf(m, v).value)
  {
    OperandInUniverse(m, u, v);
    OriginIsLocal(m, u.f, v);
    StripUsable(m, u.f, v);
  }

  lemma FunctionHasLevel(m: Module, cfg: Config, ph: Phase, s: State, v: Value)
    requires Inv(m, cfg, ph, s) && v in s.tainted
    ensures LevelPremise(cfg, s) ==> IsLocal(v) && FnOf(v) in s.funcLevel
  {
    hide Shape, Origins, Sourced, AllAccounted, Height;
    if LevelPremise(cfg, s) { LevelOfTainted(m, cfg, ph, s, v); }
  }

  lemma MainStoreKeeps(m: Module, cfg: Config, ph: Phase, s: State, v: Value, u: Value)
    requires WellFormed(m) && Inv(m, cfg, ph, s) && v in s.tainted
    requires IsUser(m, u, v) && At(m, u).Store? && At(m, u).val == v
    ensures var t := MainStore(m, s, v, u, At(m, u));
      Inv(m, cfg, ph, t) && Grows(cfg, s, t) && UserSettled(m, cfg, t, v, u)
  {
    hide WellFormed, Derives, Inv, Grows, Locals, Universe, Accounted, IsPtrArg, UsableIn, UserSettled, RecordParam;
    assert Shape(m, s) && Sourced(m, cfg, ph, s) by { InvParts(m, cfg, ph, s); }
    UserIsLocal(m, s, v, u);
    hide Shape;
    var i := At(m, u);
    var p := Strip(m, i.ptr);
    OperandFacts(m, u, i.ptr);
    FunctionHasLevel(m, cfg, ph, s, v);
    if p.Global? {
      GrowsReflexive(cfg, s);
    } else if OriginOf(m, i.ptr).Some? {
      var a := OriginOf(m, i.ptr).value;
      UseDerivable(m, cfg, ph, s, v, u, Param(u.f, a.n));
      RecordParamKeeps(m, cfg, ph, s, u.f, a.n);
    } else {
      UseDerivable(m, cfg, ph, s, v, u, Ptr(p));
      assert MarkedBy(m, cfg, s, p, u);
      MarkPointerKeeps(m, cfg, ph, s, p, u);
      var s1 := MarkPointer(s, p, u);
      assert Accounted(m, s1, u) by { StoreHasLanded(m, s1, u); }
      assert Sourced(m, cfg, ph, s1) by { InvParts(m, cfg, ph, s1); }
      UseDerivable(m, cfg, ph, s1, v, u, Val(u));
      TaintUserKeeps(m, cfg, ph, s1, v, u);
      GrowsTransitive(cfg, s, s1, TaintUser(s1, v, u));
    }
    MainStoreSettles(m, cfg, s, v, u);
  }

  lemma MainStoreSettles(m: Module, cfg: Config, s: State, v: Value, u: Value)
    requires WellFormed(m) && IsUser(m, u, v) && At(m, u).Store? && At(m, u).val == v
    ensures UserSettled(m, cfg, MainStore(m, s, v, u, At(m, u)), v, u)
  {
    hide WellFormed, LevelIn, Universe, IsPtrArg, UsableIn;
    OperandFacts(m, u, At(m, u).ptr);
    hide IsUser, IsInst;
  }

  lemma StoreHasLanded(m: Module, s: State, u: Value)
    requires u.Inst? && At(m, u).Store? && Strip(m, At(m, u).ptr) in s.pointers
    requires var a := OriginOf(m, At(m, u).ptr); a.Some? ==> a.value.Arg? && a.value.n in ParamsOf(s.params, u.f)
    ensures Accounted(m, s, u)
  {
  }

  /** Processing one user in the main phase. */
  lemma MainUserKeeps(m: Module, cfg: Config, ph: Phase, s: State, v: Value, u: Value)
    requires !ph.Upward? && WellFormed(m) && Inv(m, cfg, ph, s) && v in s.tainted && IsUser(m, u, v)
    ensures var t := MainUser(m, cfg, s, v, u);
      Inv(m, cfg, ph, t) && Grows(cfg, s, t) && UserSettled(m, cfg, t, v, u)
  {
    hide WellFormed, Derives, Shape, Origins, Sourced, AllAccounted, Levels, Traced, Locals, Universe, StoreLanded,
      MainCall, MainStore;
    UserIsLocal(m, s, v, u);
    FunctionHasLevel(m, cfg, ph, s, v);
    var i := At(m, u);
    if i.Ret? {
      UseDerivable(m, cfg, ph, s, v, u, Returns(u.f));
      RecordReturnKeeps(m, cfg, ph, s, u.f);
    } else if i.Store? && i.val == v {
      MainStoreKeeps(m, cfg, ph, s, v, u);
    } else {
      MainOtherKeeps(m, cfg, ph, s, v, u);
    }
  }

  lemma MainOtherKeeps(m: Module, cfg: Config, ph: Phase, s: State, v: Value, u: Value)
    requires !ph.Upward? && WellFormed(m) && Inv(m, cfg, ph, s) && v in s.tainted && IsUser(m, u, v)
    requires !At(m, u).Ret? && !(At(m, u).Store? && At(m, u).val == v)
    ensures var t := TaintUser(if At(m, u).Call? then MainCall(m, cfg, s, v, u, At(m, u)) else s, v, u);
      Inv(m, cfg, ph, t) && Grows(cfg, s, t) && UserSettled(m, cfg, t, v, u)
  {
    hide WellFormed, Derives, Inv, Locals, Universe, StoreLanded, MainCall, TaintUser;
    var i := At(m, u);
    var s1 := s;
    if i.Call? {
      MainCallKeeps(m, cfg, ph, s, v, u);
      s1 := MainCall(m, cfg, s, v, u, i);
    }
    assert Sourced(m, cfg, ph, s1) by { InvParts(m, cfg, ph, s1); }
    UseDerivable(m, cfg, ph, s1, v, u, Val(u));
    TaintUserKeeps(m, cfg, ph, s1, v, u);
  }

  // ----- nothing else -----

  lemma PassDownAdds(m: Module, s: State, v: Value, f: nat, n: nat)
    ensures forall x :: Holds(PassDown(m, s, v, f, n), x) ==> Holds(s, x) || (Enters(m, f, n) && x == Val(Arg(f, n)))
  {
    hide LevelIn;
  }

  lemma {:induction false} PassDownAllAdds(m: Module, s: State, v: Value, fs: seq<nat>, n: nat, x: Fact)
    requires Holds(PassDownAll(m, s, v, fs, n), x) && !Holds(s, x)
    ensures exists f :: f in fs && Enters(m, f, n) && x == Val(Arg(f, n))
    decreases fs
  {
    hide PassDown, Enters, Holds;
    if fs != [] {
      PassDownAdds(m, s, v, fs[0], n);
      if !Holds(PassDown(m, s, v, fs[0], n), x) {
        PassDownAllAdds(m, PassDown(m, s, v, fs[0], n), v, fs[1..], n, x);
      }
    }
  }

  lemma MainCallAdds(m: Module, cfg: Config, s: State, v: Value, u: Value, x: Fact)
    requires At(m, u).Call? && Holds(MainCall(m, cfg, s, v, u, At(m, u)), x) && !Holds(s, x)
    ensures x.Val? && PassesDown(m, cfg, v, u, x.v)
  {
    hide LevelIn, PassDown, PassDownAll, ArgIndex;
    var i := At(m, u);
    var at := ArgIndex(i.args, v);
    if i.callee.Some? {
      var s1 := SetValueLevelIfAbsent(s, u, LevelOf(s, v));
      assert Holds(s1, x) <==> Holds(s, x);
      PassDownAdds(m, s1, v, i.callee.value, at.value);
    } else {
      PassDownAllAdds(m, s, v, Targets(cfg, u, i), at.value, x);
    }
  }

  lemma MainStoreAdds(m: Module, cfg: Config, s: State, v: Value, u: Value, x: Fact)
    requires WellFormed(m) && IsUser(m, u, v) && At(m, u).Store? && At(m, u).val == v
    requires Holds(MainStore(m, s, v, u, At(m, u)), x) && !Holds(s, x)
    ensures MainUse(m, cfg, v, u, x)
  {
    hide WellFormed, Universe, IsPtrArg, UsableIn, OriginOf, Strip, Holds, TaintUser, MarkPointer, RecordParam;
    var i := At(m, u);
    OperandFacts(m, u, i.ptr);
    hide IsUser, IsInst;
    if OriginOf(m, i.ptr).Some? {
      RecordParamHolds(s, u.f, OriginOf(m, i.ptr).value.n, x);
    } else {
      var p := Strip(m, i.ptr);
      TaintUserAdds(MarkPointer(s, p, u), v, u, x);
      MarkHolds(s, p, u, x);
    }
  }

  lemma TaintUserAdds(s: State, v: Value, u: Value, x: Fact)
    ensures Holds(TaintUser(s, v, u), x) ==> Holds(s, x) || x == Val(u)
  {
    hide LevelIn;
  }

  lemma MainUserAdds(m: Module, cfg: Config, s: State, v: Value, u: Value, x: Fact)
    requires WellFormed(m) && IsUser(m, u, v) && Holds(MainUser(m, cfg, s, v, u), x) && !Holds(s, x)
    ensures MainUse(m, cfg, v, u, x)
  {
    hide WellFormed, MainCall, MainStore, TaintUser, OriginOf, Strip;
    var i := At(m, u);
    if i.Ret? {
    } else if i.Store? && i.val == v {
      MainStoreAdds(m, cfg, s, v, u, x);
    } else {
      var s1 := if i.Call? then MainCall(m, cfg, s, v, u, i) else s;
      TaintUserAdds(s1, v, u, x);
      if i.Call? && Holds(s1, x) { MainCallAdds(m, cfg, s, v, u, x); }
    }
  }

  /** Processing one user adds the conclusions that the main phase draws from that use, and
      no others. */
  lemma MainUserExact(m: Module, cfg: Config, ph: Phase, s: State, v: Value, u: Value, x: Fact)
    requires !ph.Upward? && WellFormed(m) && Inv(m, cfg, ph, s) && v in s.tainted && IsUser(m, u, v)
    ensures Holds(MainUser(m, cfg, s, v, u), x) <==> Holds(s, x) || MainUse(m, cfg, v, u, x)
  {
    hide WellFormed, Inv, Grows, MainUser, MainUse, Holds;
    MainUserKeeps(m, cfg, ph, s, v, u);
    GrowsHoldsIf(cfg, s, MainUser(m, cfg, s, v, u), x);
    if Holds(MainUser(m, cfg, s, v, u), x) && !Holds(s, x) { MainUserAdds(m, cfg, s, v, u, x); }
  }

  lemma GrowsHoldsIf(cfg: Config, s: State, t: State, x: Fact)
    requires Grows(cfg, s, t)
    ensures Holds(s, x) ==> Holds(t, x)
  {
  }
}
