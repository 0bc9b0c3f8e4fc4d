/** Seeding: the chosen operand slots are processed in program order, and afterwards the
    tables hold the seed facts and nothing else. */
module SeedSteps {
  import opened Options
  import opened IR
  import opened PointerOrigin
  import opened StructFields
  import opened FlowRules
  import opened TaintState
  import opened Invariants
  import opened Updates
  import opened MainSteps
  import opened UpwardSteps
  import opened Reachability

  ghost predicate SlotOk(m: Module, cfg: Config, slot: Slot) {
    && IsInst(m, slot.inst) && InScope(m, cfg, slot.inst)
    && slot.const_ in Ops(At(m, slot.inst)) && Matches(cfg, slot.const_)
  }

  /** A slot that is chosen and the first one of its instruction. */
  ghost predicate Picked(m: Module, cfg: Config, slot: Slot) {
    exists j: nat :: Opens(Chosen(m, cfg), j) && Chosen(m, cfg)[j] == slot
  }

  lemma {:induction false} SlotsInAre(cfg: Config, u: Value, ops: seq<Value>, slot: Slot)
    requires slot in SlotsIn(cfg, u, ops)
    ensures slot.inst == u && slot.const_ in ops && Matches(cfg, slot.const_)
  {
    if slot in SlotsIn(cfg, u, ops[1..]) { SlotsInAre(cfg, u, ops[1..], slot); }
  }

  lemma {:induction false} SlotsOverAre(m: Module, cfg: Config, us: seq<Value>, slot: Slot)
    requires forall u :: u in us ==> IsInst(m, u)
    requires slot in SlotsOver(m, cfg, us)
    ensures SlotOk(m, cfg, slot)
  {
    if slot in SlotsOver(m, cfg, us[1..]) {
      SlotsOverAre(m, cfg, us[1..], slot);
    } else {
      SlotsInAre(cfg, us[0], Ops(At(m, us[0])), slot);
    }
  }

  lemma ChosenAreOk(m: Module, cfg: Config)
    ensures forall j :: 0 <= j < |Chosen(m, cfg)| ==> SlotOk(m, cfg, Chosen(m, cfg)[j])
  {
    forall u | u in ProgramOrder(m) ensures IsInst(m, u) { ProgramOrderHas(m, u); }
    forall j | 0 <= j < |Chosen(m, cfg)| ensures SlotOk(m, cfg, Chosen(m, cfg)[j]) {
      SlotsOverAre(m, cfg, ProgramOrder(m), Chosen(m, cfg)[j]);
    }
  }

  /** The tables after the first `n` chosen slots. */
  ghost function SeedAll(m: Module, cfg: Config, n: nat): State
    requires n <= |Chosen(m, cfg)|
  {
    if n == 0 then EMPTY
    else
      ChosenAreOk(m, cfg);
      SeedSlot(m, cfg, SeedAll(m, cfg, n - 1), Chosen(m, cfg)[n - 1])
  }

  /** Without downward propagation every level set while seeding is 0. */
  ghost predicate LevelsZero(cfg: Config, s: State) {
    !cfg.interproc ==> forall f :: f in s.funcLevel ==> s.funcLevel[f] == 0
  }

  // ----- one slot -----

  /** `t` holds what `s` holds and the facts of one slot. */
  ghost predicate AddsSlot(m: Module, cfg: Config, s: State, t: State, slot: Slot) {
    forall x :: Holds(t, x) <==> Holds(s, x) || SeedFact(m, cfg, slot, x)
  }

  /** The seeded instruction, tainted at level 0; a return also records its function. */
  ghost function Source(m: Module, s: State, u: Value): State
    requires u.Inst?
  {
    var t := Taint(s, u, 0).(funcLevel := s.funcLevel[u.f := 0]);
    if At(m, u).Ret? then RecordReturn(t, u.f) else t
  }

  lemma PickedDerives(m: Module, cfg: Config, s: State, slot: Slot, x: Fact)
    requires Picked(m, cfg, slot) && SeedFact(m, cfg, slot, x)
    ensures Derives(m, cfg, Draining, s, x)
  {
    hide Chosen, SeedFact, Derives;
    assert IsSeed(m, cfg, x);
    SeedDerives(m, cfg, Draining, s, x);
  }

  lemma SourceKeeps(m: Module, cfg: Config, s: State, slot: Slot)
    requires WellFormed(m) && Inv(m, cfg, Draining, s) && LevelsZero(cfg, s)
    requires SlotOk(m, cfg, slot) && Picked(m, cfg, slot) && slot.inst !in s.tainted
    ensures var t := Source(m, s, slot.inst);
      Inv(m, cfg, Draining, t) && Grows(cfg, s, t) && LevelsZero(cfg, t)
      && (LevelPremise(cfg, t) ==> slot.inst.f in t.funcLevel)
  {
    hide WellFormed, Derives, Accounted, Locals, Universe, Height, Inv, Grows, Picked, LevelPremise, Ops, Matches;
    var u := slot.inst;
    var s0 := s.(funcLevel := s.funcLevel[u.f := 0]);
    SourceLevelKeeps(m, cfg, s, u.f);
    var s1 := if At(m, u).Ret? then RecordReturn(s0, u.f) else s0;
    if At(m, u).Ret? {
      ReturnSeeded(m, cfg, s0, slot);
    } else {
      GrowsReflexive(cfg, s0);
    }
    GrowsTransitive(cfg, s, s0, s1);
    SourceTaintKeeps(m, cfg, s1, slot);
    GrowsTransitive(cfg, s, s1, Taint(s1, u, 0));
    assert Source(m, s, u) == Taint(s1, u, 0);
  }

  /** A constant that is returned is the only operand. */
  lemma ReturnSeeded(m: Module, cfg: Config, s: State, slot: Slot)
    requires Inv(m, cfg, Draining, s) && SlotOk(m, cfg, slot) && Picked(m, cfg, slot) && At(m, slot.inst).Ret?
    requires slot.inst.f in s.funcLevel
    ensures var t := RecordReturn(s, slot.inst.f); Inv(m, cfg, Draining, t) && Grows(cfg, s, t)
  {
    hide Inv, Derives, Picked, Grows, LevelPremise;
    PickedDerives(m, cfg, s, slot, Returns(slot.inst.f));
    RecordReturnKeeps(m, cfg, Draining, s, slot.inst.f);
  }

  lemma SourceTaintKeeps(m: Module, cfg: Config, s: State, slot: Slot)
    requires WellFormed(m) && Inv(m, cfg, Draining, s) && slot.inst !in s.tainted
    requires SlotOk(m, cfg, slot) && Picked(m, cfg, slot) && slot.inst.f in s.funcLevel
    requires At(m, slot.inst).Ret? ==> slot.inst.f in s.returning
    ensures var t := Taint(s, slot.inst, 0); Inv(m, cfg, Draining, t) && Grows(cfg, s, t)
  {
    hide WellFormed, Inv, Derives, Grows, LevelPremise, Accounted, Insts, LevelOk;
    var u := slot.inst;
    PickedDerives(m, cfg, s, slot, Val(u));
    assert LevelFrom(m, cfg, Draining, s, u, 0) by { assert IsSource(m, cfg, u); }
    hide LevelFrom;
    InstsAre(m, u);
    SeedAccounted(m, cfg, s, slot);
    assert LevelOk(m, cfg, |s.funcLevel|, u.f, 0) by { SourceLevelOk(m, cfg, |s.funcLevel|, u.f); }
    TaintKeeps(m, cfg, Draining, s, u, 0);
  }

  lemma SourceLevelOk(m: Module, cfg: Config, n: nat, f: nat)
    requires IsSourceFn(m, cfg, f)
    ensures LevelOk(m, cfg, n, f, 0)
  {
    SourceHeight(m, cfg, f);
  }

  lemma SourceLevelKeeps(m: Module, cfg: Config, s: State, f: nat)
    requires Inv(m, cfg, Draining, s) && LevelsZero(cfg, s) && IsSourceFn(m, cfg, f)
    ensures var t := s.(funcLevel := s.funcLevel[f := 0]); Inv(m, cfg, Draining, t) && Grows(cfg, s, t)
  {
    hide Shape, Origins, Sourced, AllAccounted, Height, Traced;
    SourceHeight(m, cfg, f);
    SourceLevels(m, cfg, s, f);
    hide Levels, LevelFacts;
    SourceTraced(m, cfg, s, f);
    LevelUpdateKeeps(m, cfg, Draining, s, s.(funcLevel := s.funcLevel[f := 0]));
  }

  lemma SourceTraced(m: Module, cfg: Config, s: State, f: nat)
    requires Traced(m, cfg, Draining, s) && LevelsZero(cfg, s) && IsSourceFn(m, cfg, f)
    ensures Traced(m, cfg, Draining, s.(funcLevel := s.funcLevel[f := 0]))
  {
    var t := s.(funcLevel := s.funcLevel[f := 0]);
    assert FunctionLevelFrom(m, cfg, t, f, 0);
    hide Traced, FunctionLevelFrom, LevelFrom, MarkedBy, FieldUsed, LoadAwaits, IsSourceFn;
    TracedStep(m, cfg, Draining, s, t);
  }

  lemma SourceLevels(m: Module, cfg: Config, s: State, f: nat)
    requires Levels(m, cfg, s) && LevelsZero(cfg, s) && IsSourceFn(m, cfg, f) && Height(m, cfg, f, 0)
    ensures LevelPremise(cfg, s) ==> LevelFacts(m, cfg, s.(funcLevel := s.funcLevel[f := 0]))
  {
    hide Height, ParamsOf;
  }

  lemma SourceHeight(m: Module, cfg: Config, f: nat)
    requires IsSourceFn(m, cfg, f)
    ensures Height(m, cfg, f, 0)
  {
    ReachedStart(Climbs(m, cfg), AtSource(m, cfg), Node(f, 0));
  }

  lemma SeedAccounted(m: Module, cfg: Config, s: State, slot: Slot)
    requires WellFormed(m) && SlotOk(m, cfg, slot)
    requires At(m, slot.inst).Ret? ==> slot.inst.f in s.returning
    ensures Accounted(m, s, slot.inst)
  {
    assert InstrOk(m, At(m, slot.inst));
  }

  lemma SeedStoreKeeps(m: Module, cfg: Config, s: State, slot: Slot)
    requires WellFormed(m) && Inv(m, cfg, Draining, s) && SlotOk(m, cfg, slot) && At(m, slot.inst).Store?
    requires slot.inst in s.tainted && slot.inst.f in s.funcLevel && Picked(m, cfg, slot)
    ensures var t := SeedStore(m, s, At(m, slot.inst), slot.inst);
      Inv(m, cfg, Draining, t) && Grows(cfg, s, t) && t.funcLevel == s.funcLevel && AddsSlot(m, cfg, s, t, slot)
  {
    ConstantIsStored(m, cfg, slot);
    hide WellFormed, Derives, Inv, Locals, Universe, Grows, LevelPremise, Strip, OriginOf, AddsSlot, ParamsOf,
      FieldsUsed, Matches, SlotOk, RecordFields, RecordParam, MarkPointer, Picked;
    var i := At(m, slot.inst);
    OperandFacts(m, slot.inst, i.ptr);
    GrowsReflexive(cfg, s);
    SeedStoreAdds(m, cfg, s, slot);
    if Strip(m, i.ptr).Global? {
    } else if OriginOf(m, i.ptr).Some? {
      SeedParamKeeps(m, cfg, s, slot);
    } else {
      SeedMarkKeeps(m, cfg, s, slot);
    }
  }

  lemma SeedMarkKeeps(m: Module, cfg: Config, s: State, slot: Slot)
    requires Inv(m, cfg, Draining, s) && IsInst(m, slot.inst) && At(m, slot.inst).Store? && Picked(m, cfg, slot)
    requires slot.inst.f in s.funcLevel && Matches(cfg, At(m, slot.inst).val)
    requires OriginOf(m, At(m, slot.inst).ptr).None?
    requires var p := Strip(m, At(m, slot.inst).ptr);
      !p.Global? && p in Universe(m) && (IsLocal(p) ==> FnOf(p) == slot.inst.f)
    ensures var t := MarkPointer(s, Strip(m, At(m, slot.inst).ptr), slot.inst);
      Inv(m, cfg, Draining, t) && Grows(cfg, s, t) && t.funcLevel == s.funcLevel
  {
    hide Derives, Inv, Grows, LevelPremise, Strip, OriginOf, Matches, Picked, Universe, MarkPointer;
    var p := Strip(m, At(m, slot.inst).ptr);
    PickedDerives(m, cfg, s, slot, Ptr(p));
    assert MarkedBy(m, cfg, s, p, slot.inst);
    hide MarkedBy;
    MarkPointerKeeps(m, cfg, Draining, s, p, slot.inst);
    MarkLeavesLevels(s, p, slot.inst);
  }

  lemma MarkLeavesLevels(s: State, p: Value, marker: Value)
    ensures MarkPointer(s, p, marker).funcLevel == s.funcLevel
  {
  }

  lemma SeedParamKeeps(m: Module, cfg: Config, s: State, slot: Slot)
    requires Inv(m, cfg, Draining, s) && IsInst(m, slot.inst) && At(m, slot.inst).Store? && Picked(m, cfg, slot)
    requires slot.inst.f in s.funcLevel && Matches(cfg, At(m, slot.inst).val)
    requires !Strip(m, At(m, slot.inst).ptr).Global?
    requires var a := OriginOf(m, At(m, slot.inst).ptr);
      a.Some? && a.value.Arg? && a.value.f == slot.inst.f && IsPtrArg(m, a.value)
    ensures var n := OriginOf(m, At(m, slot.inst).ptr).value.n;
      var t := RecordFields(m, RecordParam(s, slot.inst.f, n), slot.inst.f, n, At(m, slot.inst).ptr);
      Inv(m, cfg, Draining, t) && Grows(cfg, s, t) && t.funcLevel == s.funcLevel
  {
    hide Derives, Inv, Grows, LevelPremise, Strip, OriginOf, ParamsOf, FieldsUsed, Matches, Picked, RecordFields,
      IsPtrArg;
    var u, address := slot.inst, At(m, slot.inst).ptr;
    var n := OriginOf(m, address).value.n;
    PickedDerives(m, cfg, s, slot, Param(u.f, n));
    RecordParamKeeps(m, cfg, Draining, s, u.f, n);
    var s1 := RecordParam(s, u.f, n);
    var t := RecordFields(m, s1, u.f, n, address);
    assert FieldsUsed(m, cfg, s1) by { InvParts(m, cfg, Draining, s1); }
    FieldsRecorded(m, cfg, s1, u);
    RecordFieldsOnly(m, s1, u.f, n, address);
    FieldsKeep(m, cfg, Draining, s1, t);
    GrowsTransitive(cfg, s, s1, t);
  }

  /** A seeded store stores the constant; addresses are no integers. */
  lemma ConstantIsStored(m: Module, cfg: Config, slot: Slot)
    requires WellFormed(m) && SlotOk(m, cfg, slot) && At(m, slot.inst).Store?
    ensures IsUser(m, slot.inst, At(m, slot.inst).ptr) && Matches(cfg, At(m, slot.inst).val)
  {
    assert InstrOk(m, At(m, slot.inst));
  }

  lemma SeedStoreAdds(m: Module, cfg: Config, s: State, slot: Slot)
    requires WellFormed(m) && SlotOk(m, cfg, slot) && At(m, slot.inst).Store? && slot.inst in s.tainted
    ensures AddsSlot(m, cfg, s, SeedStore(m, s, At(m, slot.inst), slot.inst), slot)
  {
    hide WellFormed, Strip, OriginOf, At, FieldIndices, AddFields, FieldsOf, UsableIn, IsPtrArg, Universe, Matches,
      InScope;
    var i := At(m, slot.inst);
    assert IsUser(m, slot.inst, i.ptr);
    OperandFacts(m, slot.inst, i.ptr);
    hide IsUser, IsInst, Ops;
    var t := SeedStore(m, s, i, slot.inst);
    forall x ensures Holds(t, x) <==> Holds(s, x) || SeedFact(m, cfg, slot, x) {
      match x
      case Val(_) =>
      case Ptr(_) =>
      case Returns(_) =>
      case Param(g, n) =>
    }
  }

  /** The parameter seeded by argument position `a`, if that position seeds one. */
  ghost predicate SeedsAt(m: Module, cfg: Config, slot: Slot, a: nat, w: Value) {
    cfg.interproc && w.Arg? && w.n == a && SeedsArg(m, slot, w)
  }

  lemma {:induction false} SeedArgsKeeps(m: Module, cfg: Config, s: State, slot: Slot, n: nat)
    requires WellFormed(m) && Inv(m, cfg, Draining, s) && At(m, slot.inst).Call? && n <= |At(m, slot.inst).args|
    requires Picked(m, cfg, slot)
    requires slot.inst in s.tainted
    ensures var t := SeedArgs(m, cfg, s, At(m, slot.inst), slot, n);
      && Inv(m, cfg, Draining, t) && Grows(cfg, s, t) && t.origin == s.origin
      && t.pointers == s.pointers && t.params == s.params && t.returning == s.returning
      && (!cfg.interproc ==> t == s)
      && forall w :: w in t.tainted <==> w in s.tainted || exists a: nat :: a < n && SeedsAt(m, cfg, slot, a, w)
  {
    hide WellFormed, Derives, Inv, Grows;
    if n == 0 {
      GrowsReflexive(cfg, s);
    } else {
      SeedArgsKeeps(m, cfg, s, slot, n - 1);
      var s1 := SeedArgs(m, cfg, s, At(m, slot.inst), slot, n - 1);
      SeedArgKeeps(m, cfg, s1, slot, n - 1);
      var t := SeedArgs(m, cfg, s, At(m, slot.inst), slot, n);
      GrowsTransitive(cfg, s, s1, t);
      hide SeedArgs, SeedArg, SeedsAt;
      forall w ensures w in t.tainted <==> w in s.tainted || exists a: nat :: a < n && SeedsAt(m, cfg, slot, a, w) {
        assert w in t.tainted <==> w in s1.tainted || SeedsAt(m, cfg, slot, n - 1, w);
      }
    }
  }

  lemma SeedArgKeeps(m: Module, cfg: Config, s: State, slot: Slot, a: nat)
    requires WellFormed(m) && Inv(m, cfg, Draining, s) && At(m, slot.inst).Call? && a < |At(m, slot.inst).args|
    requires Picked(m, cfg, slot)
    requires slot.inst in s.tainted
    ensures var t := SeedArg(m, cfg, s, At(m, slot.inst), slot, a);
      && Inv(m, cfg, Draining, t) && Grows(cfg, s, t) && t.origin == s.origin
      && t.pointers == s.pointers && t.params == s.params && t.returning == s.returning
      && (!cfg.interproc ==> t == s)
      && forall w :: w in t.tainted <==> w in s.tainted || SeedsAt(m, cfg, slot, a, w)
  {
    hide WellFormed, Derives, Inv, Grows;
    GrowsReflexive(cfg, s);
    var i := At(m, slot.inst);
    if i.callee.Some? && i.args[a] == slot.const_ && cfg.interproc {
      var f := i.callee.value;
      assert MayEnter(m, cfg, slot.inst.f, f);
      if Enters(m, f, a) {
        PickedDerives(m, cfg, s, slot, Val(Arg(f, a)));
        PickedEnters(m, cfg, slot, Arg(f, a));
      }
      PassDownKeeps(m, cfg, Draining, s, slot.inst, f, a);
    }
  }

  lemma PickedEnters(m: Module, cfg: Config, slot: Slot, a: Value)
    requires Picked(m, cfg, slot) && a.Arg? && SeedsArg(m, slot, a)
    ensures Entry(m, cfg, slot.inst, a)
  {
    hide Chosen;
  }

  lemma SeedSlotKeeps(m: Module, cfg: Config, s: State, slot: Slot)
    requires WellFormed(m) && Inv(m, cfg, Draining, s) && LevelsZero(cfg, s) && SlotOk(m, cfg, slot)
    requires slot.inst !in s.tainted && Picked(m, cfg, slot)
    ensures var t := SeedSlot(m, cfg, s, slot);
      Inv(m, cfg, Draining, t) && LevelsZero(cfg, t) && AddsSlot(m, cfg, s, t, slot)
  {
    hide WellFormed, Derives, Inv, Grows, Picked;
    var u := slot.inst;
    var i := At(m, u);
    SourceKeeps(m, cfg, s, slot);
    var s1 := Source(m, s, u);
    if i.Store? {
      hide SeedStore;
      SeedStoreKeeps(m, cfg, s1, slot);
      StoreSeedsOnce(m, cfg, s, s1, SeedStore(m, s1, i, u), slot);
    } else if i.Call? {
      SeedArgsKeeps(m, cfg, s1, slot, |i.args|);
      CallSeeds(m, cfg, s, s1, slot);
    }
  }

  lemma StoreSeedsOnce(m: Module, cfg: Config, s: State, s1: State, t: State, slot: Slot)
    requires AddsSlot(m, cfg, s1, t, slot)
    requires forall x :: Holds(s1, x) <==> Holds(s, x) || x == Val(slot.inst)
    ensures AddsSlot(m, cfg, s, t, slot)
  {
    assert SeedFact(m, cfg, slot, Val(slot.inst));
  }

  lemma CallSeeds(m: Module, cfg: Config, s: State, s1: State, slot: Slot)
    requires IsInst(m, slot.inst) && At(m, slot.inst).Call?
    requires forall x :: Holds(s1, x) <==> Holds(s, x) || x == Val(slot.inst)
    requires var i := At(m, slot.inst); var t := SeedArgs(m, cfg, s1, i, slot, |i.args|);
      && t.pointers == s1.pointers && t.params == s1.params && t.returning == s1.returning
      && forall w :: w in t.tainted <==> w in s1.tainted || exists a: nat :: a < |i.args| && SeedsAt(m, cfg, slot, a, w)
    ensures AddsSlot(m, cfg, s, SeedArgs(m, cfg, s1, At(m, slot.inst), slot, |At(m, slot.inst).args|), slot)
  {
    hide SeedArgs;
    var i := At(m, slot.inst);
    var t := SeedArgs(m, cfg, s1, i, slot, |i.args|);
    forall x ensures Holds(t, x) <==> Holds(s, x) || SeedFact(m, cfg, slot, x) {
      match x
      case Val(w) =>
        assert Holds(s1, x) <==> Holds(s, x) || x == Val(slot.inst);
        if w.Arg? && SeedsArg(m, slot, w) && cfg.interproc { assert SeedsAt(m, cfg, slot, w.n, w); }
      case _ => assert Holds(s1, x) <==> Holds(s, x);
    }
  }

  // ----- all slots -----

  lemma {:induction false} FirstSlotOpens(slots: seq<Slot>, j: nat) returns (k: nat)
    requires j < |slots|
    ensures k <= j && Opens(slots, k) && slots[k].inst == slots[j].inst
  {
    if Opens(slots, j) {
      k := j;
    } else {
      var i :| 0 <= i < j && slots[i].inst == slots[j].inst;
      k := FirstSlotOpens(slots, i);
    }
  }

  ghost predicate SeededBy(m: Module, cfg: Config, n: nat, x: Fact) {
    exists j: nat :: j < n && Opens(Chosen(m, cfg), j) && SeedFact(m, cfg, Chosen(m, cfg)[j], x)
  }

  /** A slot's instruction is tainted already exactly when an earlier slot has it. */
  lemma TaintedMeansEarlier(m: Module, cfg: Config, s: State, n: nat)
    requires n < |Chosen(m, cfg)| && IsInst(m, Chosen(m, cfg)[n].inst)
    requires forall x :: Holds(s, x) <==> SeededBy(m, cfg, n, x)
    ensures Chosen(m, cfg)[n].inst in s.tainted <==> !Opens(Chosen(m, cfg), n)
  {
    hide Chosen;
    var slots := Chosen(m, cfg);
    var u := slots[n].inst;
    assert u in s.tainted <==> Holds(s, Val(u));
    if !Opens(slots, n) {
      var k := FirstSlotOpens(slots, n);
      assert SeedFact(m, cfg, slots[k], Val(u));
      assert SeededBy(m, cfg, n, Val(u));
    }
  }

  /** One more chosen slot is seeded, unless an earlier one has its instruction. */
  lemma SeedNextKeeps(m: Module, cfg: Config, s: State, n: nat)
    requires WellFormed(m) && n < |Chosen(m, cfg)| && SlotOk(m, cfg, Chosen(m, cfg)[n])
    requires Inv(m, cfg, Draining, s) && LevelsZero(cfg, s) && forall x :: Holds(s, x) <==> SeededBy(m, cfg, n, x)
    ensures var t := SeedSlot(m, cfg, s, Chosen(m, cfg)[n]);
      && Inv(m, cfg, Draining, t) && LevelsZero(cfg, t)
      && forall x :: Holds(t, x) <==> SeededBy(m, cfg, n + 1, x)
  {
    hide WellFormed, Inv, SeedFact, Chosen, SeedSlot, SeededBy, LevelsZero, AddsSlot;
    var slot := Chosen(m, cfg)[n];
    TaintedMeansEarlier(m, cfg, s, n);
    if Opens(Chosen(m, cfg), n) {
      SeedSlotKeeps(m, cfg, s, slot);
      OneMore(m, cfg, s, SeedSlot(m, cfg, s, slot), n);
    } else {
      AlreadySeeded(m, cfg, s, slot);
      SameSeeds(m, cfg, n);
    }
  }

  lemma {:induction false} SeedAllKeeps(m: Module, cfg: Config, n: nat)
    requires WellFormed(m) && n <= |Chosen(m, cfg)|
    ensures var t := SeedAll(m, cfg, n);
      && Inv(m, cfg, Draining, t) && LevelsZero(cfg, t)
      && forall x :: Holds(t, x) <==> SeededBy(m, cfg, n, x)
  {
    hide WellFormed, Inv, SeedFact, Chosen, SeedSlot, Holds;
    if n == 0 {
      EmptyKeeps(m, cfg);
    } else {
      SeedAllKeeps(m, cfg, n - 1);
      ChosenAreOk(m, cfg);
      SeedNextKeeps(m, cfg, SeedAll(m, cfg, n - 1), n - 1);
    }
  }

  lemma AlreadySeeded(m: Module, cfg: Config, s: State, slot: Slot)
    requires IsInst(m, slot.inst) && slot.inst in s.tainted
    ensures SeedSlot(m, cfg, s, slot) == s
  {
  }

  lemma SameSeeds(m: Module, cfg: Config, n: nat)
    requires !Opens(Chosen(m, cfg), n)
    ensures forall x :: SeededBy(m, cfg, n, x) <==> SeededBy(m, cfg, n + 1, x)
  {
    hide SeedFact, Chosen;
  }

  lemma OneMore(m: Module, cfg: Config, s: State, t: State, n: nat)
    requires n < |Chosen(m, cfg)| && Opens(Chosen(m, cfg), n)
    requires forall x :: Holds(s, x) <==> SeededBy(m, cfg, n, x)
    requires AddsSlot(m, cfg, s, t, Chosen(m, cfg)[n])
    ensures forall x :: Holds(t, x) <==> SeededBy(m, cfg, n + 1, x)
  {
    hide SeedFact, Chosen, Holds;
  }

  lemma EmptyKeeps(m: Module, cfg: Config)
    ensures Inv(m, cfg, Draining, EMPTY) && forall x :: !Holds(EMPTY, x)
  {
    hide Derives, Height;
  }

  /** After seeding the tables hold exactly the seed facts. */
  lemma {:induction false} SeedingIsExact(m: Module, cfg: Config)
    requires WellFormed(m)
    ensures var s := SeedAll(m, cfg, |Chosen(m, cfg)|);
      Inv(m, cfg, Draining, s) && forall x :: Holds(s, x) <==> IsSeed(m, cfg, x)
  {
    hide WellFormed, Inv, SeedFact, Chosen, SeedAll;
    SeedAllKeeps(m, cfg, |Chosen(m, cfg)|);
  }

  /** The tables while the scan for slots is under way and `met` are the slots met: with
      occurrence 0 all of them are seeded, otherwise the chosen one is still ahead. */
  ghost predicate SeededSoFar(m: Module, cfg: Config, s: State, met: seq<Slot>) {
    if cfg.occurrence == 0 then |met| <= |Chosen(m, cfg)| && s == SeedAll(m, cfg, |met|)
    else |met| < cfg.occurrence && s == EMPTY
  }

  lemma NoneMet(m: Module, cfg: Config)
    ensures SeededSoFar(m, cfg, EMPTY, [])
  {
    hide Chosen;
    assert SeedAll(m, cfg, 0) == EMPTY;
  }

  lemma SlotsAre(m: Module, cfg: Config)
    requires forall u :: u in ProgramOrder(m) ==> IsInst(m, u)
    ensures Slots(m, cfg) == SlotsOver(m, cfg, ProgramOrder(m))
  {
  }

  lemma SlotMet(m: Module, cfg: Config, s: State, met: seq<Slot>, slot: Slot)
    requires SeededSoFar(m, cfg, s, met) && |met| < |Slots(m, cfg)| && Slots(m, cfg)[|met|] == slot
    requires IsInst(m, slot.inst)
    ensures cfg.occurrence == 0 ==> SeededSoFar(m, cfg, SeedSlot(m, cfg, s, slot), met + [slot])
    ensures cfg.occurrence == |met| + 1 ==> SeedSlot(m, cfg, s, slot) == SeedAll(m, cfg, |Chosen(m, cfg)|)
    ensures cfg.occurrence != 0 && cfg.occurrence != |met| + 1 ==> SeededSoFar(m, cfg, s, met + [slot])
  {
    hide SeedSlot, Slots;
    if cfg.occurrence == |met| + 1 {
      assert Chosen(m, cfg) == [slot];
      assert SeedAll(m, cfg, 0) == EMPTY;
    }
  }

  lemma AllMet(m: Module, cfg: Config, s: State, met: seq<Slot>)
    requires SeededSoFar(m, cfg, s, met) && met == Slots(m, cfg)
    ensures s == SeedAll(m, cfg, |Chosen(m, cfg)|)
  {
    hide SeedSlot, Slots;
  }
}
