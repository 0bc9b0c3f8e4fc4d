/** Load scanning and kill stores, step by step. */
module ScanSteps {
  import opened IR
  import opened FlowRules
  import opened TaintState
  import opened Invariants
  import opened Updates
  import opened MainSteps

  /** A load that matches a tainted pointer is tainted, or excused: it stands before the
      pointer's origin or, where kills are heeded, behind a kill. */
  ghost predicate LoadSettled(m: Module, s: State, heed: bool, p: Value, l: Value) {
    LoadMatches(m, p, l) ==>
      l in s.tainted || PrecedesOrigin(s.origin, p, l) || (heed && AfterKill(m, s.killed, p, l))
  }

  lemma LoadSettledGrows(m: Module, cfg: Config, s: State, t: State, heed: bool, p: Value, l: Value)
    requires LoadSettled(m, s, heed, p, l) && Grows(cfg, s, t)
    ensures LoadSettled(m, t, heed, p, l)
  {
  }

  /** A load from a local pointer is in the pointer's function. */
  lemma LoadIsLocal(m: Module, p: Value, l: Value)
    requires WellFormed(m) && IsInst(m, l) && LoadMatches(m, p, l) && IsLocal(p)
    ensures FnOf(p) == l.f
  {
    var q := At(m, l).ptr;
    assert IsUser(m, l, q);
    OperandFacts(m, l, q);
    if ViaGep(m, Strip(m, q), p) {
      var g := Strip(m, q);
      assert IsUser(m, g, At(m, g).base);
      OperandFacts(m, g, At(m, g).base);
    }
  }

  /** Everything but the worklist, the tainted values and their levels. */
  ghost predicate ScanOnly(s: State, t: State) {
    t == s.(work := t.work, tainted := t.tainted, valueLevel := t.valueLevel)
  }

  lemma TaintLoadKeeps(m: Module, cfg: Config, ph: Phase, s: State, p: Value, l: Value)
    requires WellFormed(m) && Inv(m, cfg, ph, s) && p in s.pointers && IsInst(m, l)
    requires LoadMatches(m, p, l) && l !in s.tainted && !PrecedesOrigin(s.origin, p, l)
    requires ph.Upward? || (ph.Scanning? && !AfterKill(m, s.killed, p, l))
    requires LevelPremise(cfg, s) ==> l in s.valueLevel && l.f in s.funcLevel
    ensures var t := s.(work := s.work + [l], tainted := s.tainted + {l});
      Inv(m, cfg, ph, t) && Grows(cfg, s, t)
  {
    hide WellFormed, Derives, Accounted, Locals, Shape, Origins, Sourced, AllAccounted, Levels, Traced,
      LevelPremise, PrecedesOrigin, AfterKill;
    InstsAre(m, l);
    assert !At(m, l).Store? && !At(m, l).Ret?;
    LoadDerives(m, cfg, ph, s, p, l);
    hide LoadMatches, At;
    var t := s.(work := s.work + [l], tainted := s.tainted + {l});
    LoadTraced(m, cfg, ph, s, p, l);
    LoadShape(m, s, l);
    SourcedStep(m, cfg, ph, s, t, Val(l));
    NothingToAccount(m, s, l);
    AccountedStep(m, cfg, s, t);
    LoadLevels(m, cfg, s, l);
  }

  lemma LoadDerives(m: Module, cfg: Config, ph: Phase, s: State, p: Value, l: Value)
    requires Origins(m, s) && Sourced(m, cfg, ph, s) && p in s.pointers
    requires LoadMatches(m, p, l) && !PrecedesOrigin(s.origin, p, l)
    requires ph.Upward? || (ph.Scanning? && !AfterKill(m, s.killed, p, l))
    ensures Derives(m, cfg, ph, s, Val(l))
  {
    hide Derives, KillOk;
    assert LoadFlow(m, Loadable(ph, s), Heeded(ph), p, l);
    assert Holds(s, Ptr(p));
    hide LoadFlow, Origins;
    StepDerives(m, cfg, ph, s, Ptr(p), Val(l));
  }

  lemma LoadTraced(m: Module, cfg: Config, ph: Phase, s: State, p: Value, l: Value)
    requires Traced(m, cfg, ph, s) && p in s.pointers && l !in s.tainted && LoadMatches(m, p, l) && l.Inst?
    requires LevelPremise(cfg, s) ==> l in s.valueLevel && l.f in s.funcLevel
    ensures Traced(m, cfg, ph, s.(work := s.work + [l], tainted := s.tainted + {l}))
  {
    hide Marks, FieldsUsed, MarkedBy, FieldUsed, FunctionLevelFrom, ViaGep;
    var t := s.(work := s.work + [l], tainted := s.tainted + {l});
    if LevelPremise(cfg, s) {
      assert LoadAwaits(m, cfg, s, l, s.valueLevel[l]);
      assert LevelFrom(m, cfg, ph, t, l, t.valueLevel[l]);
    }
    hide LevelFrom, LevelSources, LoadMatches;
    TracedStep(m, cfg, ph, s, t);
  }

  lemma LoadShape(m: Module, s: State, l: Value)
    requires Shape(m, s) && Origins(m, s) && l in Locals(m) && l !in s.tainted
    ensures var t := s.(work := s.work + [l], tainted := s.tainted + {l}); Shape(m, t) && Origins(m, t)
  {
    hide Locals, Universe, KillOk, ParamsOf;
  }

  lemma LoadLevels(m: Module, cfg: Config, s: State, l: Value)
    requires Levels(m, cfg, s) && l.Inst?
    requires LevelPremise(cfg, s) ==> l in s.valueLevel && l.f in s.funcLevel
    ensures Levels(m, cfg, s.(work := s.work + [l], tainted := s.tainted + {l}))
  {
    hide Height, ParamsOf;
  }

  lemma EnsureLevelKeeps(m: Module, cfg: Config, ph: Phase, s: State, p: Value, l: Value)
    requires WellFormed(m) && Inv(m, cfg, ph, s) && p in s.pointers && IsInst(m, l) && LoadMatches(m, p, l)
    ensures var t := EnsureLevel(s, l);
      && Inv(m, cfg, ph, t) && Grows(cfg, s, t)
      && (LevelPremise(cfg, s) ==> l in t.valueLevel && l.f in t.funcLevel)
  {
    hide WellFormed, Shape, Origins, Sourced, AllAccounted, Height, LoadMatches, Traced;
    if IsLocal(p) { LoadIsLocal(m, p, l); }
    if l.f in s.funcLevel { ValueLevelKeeps(m, cfg, ph, s, l, s.funcLevel[l.f]); }
  }

  lemma ScanLoadKeeps(m: Module, cfg: Config, ph: Phase, s: State, heed: bool, p: Value, l: Value)
    requires WellFormed(m) && Inv(m, cfg, ph, s) && p in s.pointers && IsInst(m, l)
    requires ph.Upward? || (ph.Scanning? && heed)
    ensures var t := ScanLoad(m, s, heed, p, l);
      && Inv(m, cfg, ph, t) && Grows(cfg, s, t) && ScanOnly(s, t) && LoadSettled(m, t, heed, p, l)
      && (t.work == s.work || s.tainted < t.tainted)
  {
    hide WellFormed, Shape, Origins, Sourced, AllAccounted, Levels, Traced, LoadMatches, PrecedesOrigin, AfterKill;
    if LoadMatches(m, p, l) && l !in s.tainted {
      EnsureLevelKeeps(m, cfg, ph, s, p, l);
      var s1 := EnsureLevel(s, l);
      if !((heed && AfterKill(m, s.killed, p, l)) || PrecedesOrigin(s.origin, p, l)) {
        TaintLoadKeeps(m, cfg, ph, s1, p, l);
        var t := ScanLoad(m, s, heed, p, l);
        assert l in t.tainted;
      }
    }
  }

  /** Scanning a load taints it exactly when it matches the pointer and is neither before the
      pointer's origin nor, where kills are heeded, behind a recorded kill; nothing else is
      concluded. */
  lemma ScanLoadExact(m: Module, s: State, heed: bool, p: Value, l: Value, x: Fact)
    requires p in s.pointers && s.pointers == s.origin.Keys && IsInst(m, l)
    ensures Holds(ScanLoad(m, s, heed, p, l), x) <==>
      Holds(s, x) || (x == Val(l) && LoadFlow(m, s.origin, if heed then s.killed else {}, p, l))
  {
    hide LoadMatches, PrecedesOrigin, KilledBy;
  }

  /** Each value tainted since `s` is a load from a pointer tainted then, not before its origin
      and, where kills are heeded, behind none recorded. */
  ghost predicate Scans(m: Module, s: State, t: State, heed: bool) {
    forall l :: l in t.tainted && l !in s.tainted ==>
      exists p :: p in s.pointers && LoadFlow(m, s.origin, if heed then s.killed else {}, p, l)
  }

  lemma ScanLoadScans(m: Module, s: State, heed: bool, p: Value, l: Value)
    requires p in s.pointers && s.pointers == s.origin.Keys && IsInst(m, l)
    ensures Scans(m, s, ScanLoad(m, s, heed, p, l), heed)
  {
    hide ScanLoad, LoadFlow;
    var t := ScanLoad(m, s, heed, p, l);
    forall v | v in t.tainted && v !in s.tainted
      ensures exists q :: q in s.pointers && LoadFlow(m, s.origin, if heed then s.killed else {}, q, v)
    {
      ScanLoadExact(m, s, heed, p, l, Val(v));
    }
  }

  lemma ScansTransitive(m: Module, s: State, t: State, u: State, heed: bool)
    requires Scans(m, s, t, heed) && ScanOnly(s, t) && Scans(m, t, u, heed)
    ensures Scans(m, s, u, heed)
  {
    hide LoadFlow;
  }

  lemma KillKeeps(m: Module, cfg: Config, ph: Phase, s: State, k: Value)
    requires Inv(m, cfg, ph, s) && Kills(m, s, k)
    ensures var t := s.(killed := s.killed + {k}); Inv(m, cfg, ph, t) && Grows(cfg, s, t)
  {
    hide Shape, Sourced, AllAccounted, Levels, Traced, IsInst, Strip, At;
    var t := s.(killed := s.killed + {k});
    assert KillOk(m, s.origin, k);
    assert Origins(m, t);
    hide Origins, KillOk, Kills;
    KillTouchesNothingElse(m, cfg, ph, s, t);
  }

  /** Recording kills does not change which stores are kills. */
  lemma SameKills(m: Module, s: State, t: State, k: Value)
    requires t == s.(killed := t.killed)
    ensures Kills(m, s, k) <==> Kills(m, t, k)
  {
  }

  lemma KillIsInstruction(m: Module, s: State, k: Value)
    requires Kills(m, s, k)
    ensures IsInst(m, k)
  {
  }

  lemma KillTouchesNothingElse(m: Module, cfg: Config, ph: Phase, s: State, t: State)
    requires Shape(m, s) && Sourced(m, cfg, ph, s) && AllAccounted(m, s) && Levels(m, cfg, s) && Traced(m, cfg, ph, s)
    requires t == s.(killed := t.killed) && s.killed <= t.killed
    ensures Shape(m, t) && Sourced(m, cfg, ph, t) && AllAccounted(m, t) && Levels(m, cfg, t) && Traced(m, cfg, ph, t)
  {
    hide Derives, Height, Locals, Universe, ParamsOf, IsPtrArg, Traced;
    TracedStep(m, cfg, ph, s, t);
    forall x | Holds(t, x) ensures Derives(m, cfg, ph, t, x) {
      assert Holds(s, x);
      DerivesGrows(m, cfg, ph, s, t, x);
    }
    forall u | u in t.tainted ensures Accounted(m, t, u) { assert Accounted(m, s, u); }
  }
}
