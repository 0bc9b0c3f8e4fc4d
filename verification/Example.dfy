/** Two small modules worked out by the rules: a block of loads and stores, and a function
    that stores the constant through a field of the struct its caller passes. */
module Example {
  import opened Options
  import opened IR
  import opened PointerOrigin
  import opened FlowRules
  import opened Reachability

  // ----- loads: one variable, a field of it, a store of the constant and one of another value -----

  const VARIABLE := Inst(0, 0, 0)
  const FIELD := Inst(0, 0, 1)
  const EARLY := Inst(0, 0, 2)
  const TAINTS := Inst(0, 0, 3)
  const DIRECT := Inst(0, 0, 4)
  const OF_FIELD := Inst(0, 0, 5)
  const KILLS := Inst(0, 0, 6)
  const LATE := Inst(0, 0, 7)
  const ELSEWHERE := Inst(0, 1, 0)

  const BLOCK := Module(
    [Function("f", [], [
       [Alloca(IntConst(32, 1), true), Gep(VARIABLE, [IntConst(32, 0), IntConst(32, 2)]),
        Load(VARIABLE), Store(IntConst(32, 5), VARIABLE), Load(VARIABLE), Load(FIELD),
        Store(IntConst(32, 7), VARIABLE), Load(FIELD)],
       [Load(VARIABLE)]])],
    map[], map[])

  lemma ItsLoads(l: Value)
    ensures LoadMatches(BLOCK, VARIABLE, l) <==> l in {EARLY, DIRECT, OF_FIELD, LATE, ELSEWHERE}
  {
    var m := BLOCK;
    if IsInst(m, l) {
      assert l.f == 0 && l.b in {0, 1};
      assert l.b == 0 ==> l.k in {0, 1, 2, 3, 4, 5, 6, 7};
      assert l.b == 1 ==> l.k == 0;
    }
  }

  /** Once the first store tainted the variable, the loads after it are reached, direct or
      through the field, in the same block or another; the load before it is not. With the
      second store recorded as a kill, the load behind it in the block is not either. */
  lemma LoadsReached(l: Value)
    ensures LoadFlow(BLOCK, map[VARIABLE := TAINTS], {}, VARIABLE, l) <==> l in {DIRECT, OF_FIELD, LATE, ELSEWHERE}
    ensures LoadFlow(BLOCK, map[VARIABLE := TAINTS], {KILLS}, VARIABLE, l) <==> l in {DIRECT, OF_FIELD, ELSEWHERE}
  {
    hide LoadMatches;
    ItsLoads(l);
    if l in {EARLY, DIRECT, OF_FIELD, LATE, ELSEWHERE} {
      assert KilledBy(BLOCK, KILLS, VARIABLE, l) <==> l == LATE;
      assert AfterKill(BLOCK, {KILLS}, VARIABLE, l) <==> l == LATE;
      assert !AfterKill(BLOCK, {}, VARIABLE, l);
    }
  }

  // ----- summaries: the struct's only field holds the address of another variable -----

  const PARAMETER := Arg(0, 0)
  const FIELD_OF_PARAMETER := Inst(0, 0, 0)
  const STORED_ADDRESS := Inst(0, 0, 1)
  const STORE := Inst(0, 0, 2)
  const TARGET := Inst(1, 0, 0)
  const STRUCT := Inst(1, 0, 1)
  const FIELD_OF_STRUCT := Inst(1, 0, 2)
  const SETS_FIELD := Inst(1, 0, 3)
  const CALL := Inst(1, 0, 4)
  const RELOAD := Inst(1, 0, 5)
  const RETURN := Inst(1, 0, 6)

  const BY_FIELD := Module(
    [Function("callee", [true],
       [[Gep(PARAMETER, [IntConst(32, 0), IntConst(32, 0)]), Load(FIELD_OF_PARAMETER),
         Store(IntConst(32, 5), STORED_ADDRESS)]]),
     Function("caller", [],
       [[Alloca(IntConst(32, 1), false), Alloca(IntConst(32, 1), true),
         Gep(STRUCT, [IntConst(32, 0), IntConst(32, 0)]), Store(TARGET, FIELD_OF_STRUCT),
         Call(Some(0), FuncRef(0), [STRUCT]), Load(TARGET), Ret(Some(RELOAD))]])],
    map[],
    map[PARAMETER := [FIELD_OF_PARAMETER], FIELD_OF_PARAMETER := [STORED_ADDRESS], STORED_ADDRESS := [STORE],
        TARGET := [SETS_FIELD, RELOAD], STRUCT := [FIELD_OF_STRUCT, CALL], FIELD_OF_STRUCT := [SETS_FIELD],
        RELOAD := [RETURN], FuncRef(0) := [CALL], IntConst(32, 5) := [STORE],
        IntConst(32, 0) := [FIELD_OF_PARAMETER, FIELD_OF_STRUCT], IntConst(32, 1) := [TARGET, STRUCT]])

  const ANY := Config("callee", "store", 5, 0, false, true, map[])

  lemma ItsInstructions(u: Value)
    ensures IsInst(BY_FIELD, u) <==> u in {FIELD_OF_PARAMETER, STORED_ADDRESS, STORE, TARGET, STRUCT,
      FIELD_OF_STRUCT, SETS_FIELD, CALL, RELOAD, RETURN}
  {
    if IsInst(BY_FIELD, u) {
      assert u.f in {0, 1} && u.b == 0;
      assert u.f == 0 ==> u.k in {0, 1, 2};
      assert u.f == 1 ==> u.k in {0, 1, 2, 3, 4, 5, 6};
    }
  }

  lemma ItsUsers(u: Value, v: Value)
    ensures IsUser(BY_FIELD, u, v) <==> u in UseList(BY_FIELD, v)
    ensures IsUser(BY_FIELD, u, v) ==> u.Inst? && UsableIn(BY_FIELD, u.f, v)
  {
    ItsInstructions(u);
  }

  lemma ItIsWellFormed()
    ensures WellFormed(BY_FIELD)
  {
    var m := BY_FIELD;
    hide IsUser, UseList, UsableIn, InstrOk;
    forall u, v | IsUser(m, u, v) ensures u.Inst? && UsableIn(m, u.f, v) { ItsUsers(u, v); }
    forall u, v ensures u in UseList(m, v) <==> IsUser(m, u, v) { ItsUsers(u, v); }
    forall u | IsInst(m, u) ensures InstrOk(m, At(m, u)) { ItsInstruction(u); }
  }

  lemma ItsInstruction(u: Value)
    requires IsInst(BY_FIELD, u)
    ensures InstrOk(BY_FIELD, At(BY_FIELD, u))
  {
    ItsInstructions(u);
  }

  lemma ItsPath()
    ensures Originates(BY_FIELD, STORED_ADDRESS, PARAMETER)
  {
    var m := BY_FIELD;
    ReachedStart(Derivation(m), Only(STORED_ADDRESS), STORED_ADDRESS);
    ReachedStep(Derivation(m), Only(STORED_ADDRESS), STORED_ADDRESS, FIELD_OF_PARAMETER);
    ReachedStep(Derivation(m), Only(STORED_ADDRESS), FIELD_OF_PARAMETER, PARAMETER);
    assert Strip(m, PARAMETER) == PARAMETER;
  }

  /** The address stored through comes from the parameter; the struct does not. */
  lemma ItsOrigins()
    ensures OriginOf(BY_FIELD, STORED_ADDRESS) == Some(PARAMETER) && OriginOf(BY_FIELD, STRUCT) == None
  {
    var m := BY_FIELD;
    ItIsWellFormed();
    assert UsableIn(m, 0, STORED_ADDRESS) && UsableIn(m, 1, STRUCT) && IsUser(m, STORE, STORED_ADDRESS);
    assert forall a: Value :: a.Arg? && IsPtrArg(m, a) ==> a == PARAMETER;
    hide WellFormed, OriginOf, Originates, Universe, IsUser, UsableIn, IsPtrArg;
    OperandInUniverse(m, STORE, STORED_ADDRESS);
    OriginIsLocal(m, 0, STORED_ADDRESS);
    OriginIsLocal(m, 1, STRUCT);
    OriginExact(m, STORED_ADDRESS);
    ItsPath();
  }

  /** The constant seeds the store and the parameter; the parameter's summary taints, at the
      call, the struct and the variable its field points to; the load of that variable is
      reached, and its use in the return makes the caller return taint. */
  lemma SummaryWorks(y: Fact)
    ensures SeedFact(BY_FIELD, ANY, Slot(STORE, IntConst(32, 5)), y) <==> y in {Val(STORE), Param(0, 0)}
    ensures ParamFlow(BY_FIELD, 0, 0, CALL, y) <==> y in {Ptr(STRUCT), Ptr(TARGET)}
    ensures LoadFlow(BY_FIELD, map[TARGET := CALL], {}, TARGET, RELOAD)
    ensures MainUse(BY_FIELD, ANY, RELOAD, RETURN, y) <==> y == Returns(1)
  {
    hide OriginOf;
    ItsOrigins();
    assert FieldTarget(BY_FIELD, STRUCT, FIELD_OF_STRUCT, SETS_FIELD, TARGET);
  }
}
