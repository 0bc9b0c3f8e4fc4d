/** Conditions on the input under which taint stays in the memory of local variables, so
    that every recorded level is a height; and a module that shows what happens without. */
module LocalMemory {
  import opened Options
  import opened IR
  import opened PointerOrigin
  import opened FlowRules
  import opened TaintState
  import opened Invariants
  import opened Updates
  import opened UpwardSteps
  import opened SeedSteps
  import opened Reachability

  // ----- which pointers may become tainted at all -----

  /** A flow step in any run: every matching load counts, wherever it stands. */
  ghost predicate MayFlow(m: Module, cfg: Config, x: Fact, y: Fact) {
    if x.Ptr? then y.Val? && LoadMatches(m, x.p, y.v) else Flows(m, cfg, cfg.upward, map[], {}, x, y)
  }

  ghost function MayRules(m: Module, cfg: Config): (Fact, Fact) -> bool { (x, y) => MayFlow(m, cfg, x, y) }

  /** The module and the configuration admit no flow of taint to module-wide memory. */
  ghost predicate NoneGlobal(m: Module, cfg: Config) {
    forall p :: Reached(MayRules(m, cfg), Seeds(m, cfg), Ptr(p)) ==> IsLocal(p)
  }

  /** Then no run taints a module-wide pointer. */
  lemma NoGlobalPointer(m: Module, cfg: Config, ph: Phase, s: State)
    requires Inv(m, cfg, ph, s) && (ph.Upward? ==> cfg.upward) && NoneGlobal(m, cfg)
    ensures LevelPremise(cfg, s)
  {
    hide Shape, Origins, AllAccounted, Levels, Traced, IsSeed;
    var rules := Rules(m, cfg, ph.Upward?, Loadable(ph, s), Heeded(ph));
    forall x, y | rules(x, y) ensures MayRules(m, cfg)(x, y) {
      hide MainUse, UpwardUse, LoadMatches, ParamFlow;
    }
    forall p | p in s.pointers ensures IsLocal(p) {
      assert Holds(s, Ptr(p)) && Derives(m, cfg, ph, s, Ptr(p));
      ReachedMonotone(rules, Seeds(m, cfg), MayRules(m, cfg), Seeds(m, cfg), Ptr(p));
    }
  }

  // ----- a condition on the instructions alone -----

  /** Stores go through local addresses; the main phase does not follow one to a global. */
  ghost predicate StoresLocally(m: Module, upward: bool) {
    forall u :: IsInst(m, u) && At(m, u).Store? ==>
      var address := Strip(m, At(m, u).ptr); IsLocal(address) || (!upward && address.Global?)
  }

  /** The field addresses passed to functions are those of local variables. */
  ghost predicate PassesLocally(m: Module) {
    forall c, n: nat :: IsInst(m, c) && At(m, c).Call? && n < |At(m, c).args| && At(m, At(m, c).args[n]).Gep? ==>
      IsLocal(Strip(m, At(m, At(m, c).args[n]).base))
  }

  ghost predicate StaysLocal(m: Module, upward: bool) {
    StoresLocally(m, upward) && (upward ==> PassesLocally(m))
  }

  ghost predicate LocalIfPointer(x: Fact) { x.Ptr? ==> IsLocal(x.p) }

  lemma SeedsStayLocal(m: Module, cfg: Config, x: Fact)
    requires StaysLocal(m, cfg.upward) && IsSeed(m, cfg, x)
    ensures LocalIfPointer(x)
  {
    ChosenAreOk(m, cfg);
  }

  lemma FlowsStayLocal(m: Module, cfg: Config, x: Fact, y: Fact)
    requires WellFormed(m) && StaysLocal(m, cfg.upward) && MayFlow(m, cfg, x, y)
    ensures LocalIfPointer(y)
  {
    hide WellFormed, LoadMatches, OriginOf;
    if x.Param? && y.Ptr? {
      var c :| ParamFlow(m, x.g, x.n, c, y);
      var p := Pointed(m, At(m, c).args[x.n]).value;
      if y.p != p {
        var g, s :| FieldTarget(m, p, g, s, y.p);
        FieldTargetIsLocal(m, p, g, s, y.p);
      }
    }
  }

  /** When stores and passed field addresses stay local, so does taint, for every choice of
      the constant. */
  lemma StaysLocalSuffices(m: Module, cfg: Config)
    requires WellFormed(m) && StaysLocal(m, cfg.upward)
    ensures NoneGlobal(m, cfg)
  {
    hide WellFormed, StaysLocal, IsSeed, MayFlow;
    forall x | IsSeed(m, cfg, x) ensures LocalIfPointer(x) { SeedsStayLocal(m, cfg, x); }
    forall x, y | MayFlow(m, cfg, x, y) ensures LocalIfPointer(y) { FlowsStayLocal(m, cfg, x, y); }
    forall p | Reached(MayRules(m, cfg), Seeds(m, cfg), Ptr(p)) ensures IsLocal(p) {
      ReachedIsLeast(MayRules(m, cfg), Seeds(m, cfg), x => LocalIfPointer(x), Ptr(p));
    }
  }

  // ----- what fails without it -----

  /** A load that becomes tainted gets a level exactly when it has one already or its
      function has one. */
  lemma LoadLevel(m: Module, s: State, heed: bool, p: Value, l: Value)
    requires l !in s.tainted && l in ScanLoad(m, s, heed, p, l).tainted
    ensures l in ScanLoad(m, s, heed, p, l).valueLevel <==> l in s.valueLevel || l.f in s.funcLevel
  {
  }

  /** A user of a tainted value without a level of its own gets the level of the value's
      function, and level 0 where that has none either. */
  lemma UserOfLevelless(s: State, v: Value, u: Value)
    requires IsLocal(v) && v !in s.valueLevel && u !in s.tainted
    ensures u in TaintUser(s, v, u).valueLevel
    ensures FnOf(v) in s.funcLevel ==> TaintUser(s, v, u).valueLevel[u] == s.funcLevel[FnOf(v)]
    ensures FnOf(v) !in s.funcLevel ==> TaintUser(s, v, u).valueLevel[u] == 0
  {
  }

  /** Function 0 returns the constant 5, its caller 1 stores the result in a global, and
      function 2, which calls and is called by none, loads it. */
  const SUM := Inst(0, 0, 0)
  const RETURN := Inst(0, 0, 1)
  const CALL := Inst(1, 0, 0)
  const STORE := Inst(1, 0, 1)
  const LOAD := Inst(2, 0, 0)
  const FIVE := IntConst(32, 5)

  const THROUGH_GLOBAL := Module(
    [Function("source", [], [[Other("add", [FIVE]), Ret(Some(SUM))]]),
     Function("caller", [], [[Call(Some(0), FuncRef(0), []), Store(CALL, Global(0))]]),
     Function("reader", [], [[Load(Global(0))]])],
    map[],
    map[FIVE := [SUM], SUM := [RETURN], FuncRef(0) := [CALL], CALL := [STORE], Global(0) := [STORE, LOAD]])

  const UPWARD := Config("source", "", 5, 0, false, true, map[])

  lemma ItsInstructions(u: Value)
    ensures IsInst(THROUGH_GLOBAL, u) <==> u in {SUM, RETURN, CALL, STORE, LOAD}
  {
  }

  lemma ItsUsers(u: Value, v: Value)
    ensures IsUser(THROUGH_GLOBAL, u, v) <==>
      (u, v) in {(SUM, FIVE), (RETURN, SUM), (CALL, FuncRef(0)), (STORE, CALL), (STORE, Global(0)), (LOAD, Global(0))}
  {
    ItsInstructions(u);
  }

  lemma ItIsWellFormed()
    ensures WellFormed(THROUGH_GLOBAL)
  {
    var m := THROUGH_GLOBAL;
    forall u, v | IsUser(m, u, v) ensures UsableIn(m, u.f, v) { ItsUsers(u, v); }
    forall u, v ensures u in UseList(m, v) <==> IsUser(m, u, v) { ItsUsers(u, v); }
    forall u | IsInst(m, u) ensures InstrOk(m, At(m, u)) { ItsInstructions(u); }
  }

  lemma ItsOrder()
    ensures ProgramOrder(THROUGH_GLOBAL) == [SUM, RETURN, CALL, STORE, LOAD]
  {
    var m := THROUGH_GLOBAL;
    assert FunctionOrder(m, 0) == [SUM, RETURN] by { assert BlocksOrder(m, 0, 0) == []; }
    assert FunctionOrder(m, 1) == [CALL, STORE] by { assert BlocksOrder(m, 1, 0) == []; }
    assert FunctionOrder(m, 2) == [LOAD] by { assert BlocksOrder(m, 2, 0) == []; }
    assert FunctionsOrder(m, 0) == [] && FunctionsOrder(m, 1) == [SUM, RETURN];
    assert FunctionsOrder(m, 2) == [SUM, RETURN, CALL, STORE];
  }

  lemma ItsSlots()
    ensures Chosen(THROUGH_GLOBAL, UPWARD) == [Slot(SUM, FIVE)]
  {
    hide ProgramOrder, Slots, InScope, SlotsIn, IsInst;
    var m, rest := THROUGH_GLOBAL, [RETURN, CALL, STORE, LOAD];
    ItsOrder();
    var order := ProgramOrder(m);
    NoSlots(rest);
    FirstInstruction();
    assert order == [SUM] + rest && order[1..] == rest;
    SlotsAre(m, UPWARD);
    assert SlotsOver(m, UPWARD, order) == [Slot(SUM, FIVE)] + SlotsOver(m, UPWARD, rest);
  }

  lemma FirstInstruction()
    ensures IsInst(THROUGH_GLOBAL, SUM) && InScope(THROUGH_GLOBAL, UPWARD, SUM)
    ensures SlotsIn(UPWARD, SUM, Ops(At(THROUGH_GLOBAL, SUM))) == [Slot(SUM, FIVE)]
  {
    assert Ops(At(THROUGH_GLOBAL, SUM)) == [FIVE];
    assert SlotsIn(UPWARD, SUM, [FIVE]) == [Slot(SUM, FIVE)];
  }

  /** The other instructions do not use the constant. */
  lemma {:induction false} NoSlots(us: seq<Value>)
    requires forall u :: u in us ==> u in {RETURN, CALL, STORE, LOAD}
    ensures (forall u :: u in us ==> IsInst(THROUGH_GLOBAL, u)) && SlotsOver(THROUGH_GLOBAL, UPWARD, us) == []
  {
    forall u | u in us ensures IsInst(THROUGH_GLOBAL, u) { ItsInstructions(u); }
    if us != [] {
      assert us[0] in us;
      assert InScope(THROUGH_GLOBAL, UPWARD, us[0]) ==> us[0] == RETURN;
      assert SlotsIn(UPWARD, RETURN, [SUM]) == [];
      assert forall u :: u in us[1..] ==> u in us;
      NoSlots(us[1..]);
    }
  }

  /** The steps of a run on it, in the order of the loops: nothing is killed or scanned in
      the main phase, and the upward phase needs one round to get to the load. */
  ghost function Seeded(): (s: State)
    ensures s.work == [SUM]
  {
    SeedSlot(THROUGH_GLOBAL, UPWARD, EMPTY, Slot(SUM, FIVE))
  }

  ghost function AfterMain(): (s: State)
    ensures s.work == [] && s.tainted == {SUM} && s.returning == {0} && s.pointers == {}
    ensures s.valueLevel.Keys == {SUM} && s.funcLevel.Keys == {0}
  {
    MainUser(THROUGH_GLOBAL, UPWARD, Pop(Seeded()), SUM, RETURN)
  }

  ghost function AfterCall(): (s: State)
    ensures s.work == [CALL] && s.tainted == {SUM, CALL} && s.pointers == {}
    ensures s.valueLevel.Keys == {SUM, CALL} && s.funcLevel.Keys == {0, 1}
  {
    CallReturns(AfterMain(), 0, CALL)
  }

  ghost function AfterStore(): (s: State)
    ensures s.work == [STORE] && s.tainted == {SUM, CALL, STORE} && Global(0) in s.pointers
    ensures s.valueLevel.Keys == {SUM, CALL, STORE} && s.funcLevel.Keys == {0, 1}
    ensures Global(0) in s.origin && s.origin[Global(0)] == STORE
  {
    NoOrigin();
    UpwardUser(THROUGH_GLOBAL, Pop(AfterCall()), CALL, STORE)
  }

  ghost function AfterLoad(): State { ScanLoad(THROUGH_GLOBAL, Pop(AfterStore()), false, Global(0), LOAD) }

  lemma NoOrigin()
    ensures OriginOf(THROUGH_GLOBAL, Global(0)).None?
  {
    ItIsWellFormed();
    OriginIsLocal(THROUGH_GLOBAL, 1, Global(0));
  }

  /** Taint flows from the constant through the call into the global. */
  lemma ItReachesTheGlobal()
    ensures !NoneGlobal(THROUGH_GLOBAL, UPWARD)
  {
    hide OriginOf, Chosen;
    var m := THROUGH_GLOBAL;
    ItsSlots();
    assert Opens(Chosen(m, UPWARD), 0) && SeedFact(m, UPWARD, Slot(SUM, FIVE), Val(SUM));
    ReachedStart(MayRules(m, UPWARD), Seeds(m, UPWARD), Val(SUM));
    assert IsUser(m, RETURN, SUM) && MainUse(m, UPWARD, SUM, RETURN, Returns(0));
    ReachedStep(MayRules(m, UPWARD), Seeds(m, UPWARD), Val(SUM), Returns(0));
    assert DirectCall(m, CALL, 0);
    ReachedStep(MayRules(m, UPWARD), Seeds(m, UPWARD), Returns(0), Val(CALL));
    assert IsUser(m, STORE, CALL) && UpwardUse(m, CALL, STORE, Ptr(Global(0)));
    ReachedStep(MayRules(m, UPWARD), Seeds(m, UPWARD), Val(CALL), Ptr(Global(0)));
  }

  /** A tainted load in a function without a level, and so without a level itself. */
  lemma LoadWithoutLevel()
    ensures WellFormed(THROUGH_GLOBAL) && !NoneGlobal(THROUGH_GLOBAL, UPWARD)
    ensures Seeded() == SeedAll(THROUGH_GLOBAL, UPWARD, |Chosen(THROUGH_GLOBAL, UPWARD)|)
    ensures var s := AfterLoad(); LOAD in s.tainted && LOAD !in s.valueLevel && LOAD.f !in s.funcLevel
  {
    hide OriginOf, WellFormed, Chosen, AfterStore, NoneGlobal;
    ItIsWellFormed();
    ItsSlots();
    assert SeedAll(THROUGH_GLOBAL, UPWARD, 1) == Seeded() by {
      assert SeedAll(THROUGH_GLOBAL, UPWARD, 0) == EMPTY;
    }
    ItReachesTheGlobal();
  }
}
