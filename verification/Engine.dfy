/** The taint tracker itself: the tables as mutable fields, the loops of the pass over them,
    and what a run guarantees. */
module Engine {
  import opened Options
  import opened IR
  import opened PointerOrigin
  import opened StructFields
  import opened FlowRules
  import opened TaintState
  import opened Invariants
  import opened Updates
  import opened MainSteps
  import opened ScanSteps
  import opened UpwardSteps
  import opened SeedSteps
  import opened Closure
  import opened Orders
  import opened Progress
  import opened Span
  import opened LocalMemory

  lemma OriginsAre(m: Module, cfg: Config, ph: Phase, s: State)
    requires Inv(m, cfg, ph, s)
    ensures Origins(m, s) && s.pointers == s.origin.Keys && forall p :: p in s.origin ==> IsInst(m, s.origin[p])
  {
    hide Shape, Sourced, AllAccounted, Levels, Traced, KillOk;
  }

  lemma NothingScanned(m: Module, s: State, heed: bool)
    ensures Scans(m, s, s, heed)
  {
  }

  lemma NothingDone(m: Module, cfg: Config, s: State)
    requires s.done == {}
    ensures DoneMain(m, cfg, s, {})
  {
  }

  /** A scan leaves no store to be recorded: it only adds tainted values. */
  lemma RecordedAfterScan(m: Module, cfg: Config, ph: Phase, s1: State, s2: State, s3: State)
    requires Inv(m, cfg, ph, s2) && s2 == s1.(killed := s2.killed) && ScanOnly(s2, s3) && Grows(cfg, s2, s3)
    requires forall k :: k in s2.killed <==> k in s1.killed || Overwrites(m, s1, k)
    ensures KillsRecorded(m, s3)
  {
    hide Inv, IsInst;
  }

  lemma TaintedAreLocal(m: Module, cfg: Config, s: State)
    requires Inv(m, cfg, Upward, s)
    ensures forall v :: v in s.tainted ==> IsLocal(v) && (v.Inst? ==> IsInst(m, v))
  {
    hide Origins, Sourced, AllAccounted, Levels, Traced;
    forall v | v in s.tainted ensures IsLocal(v) && (v.Inst? ==> IsInst(m, v)) { InstsAre(m, v); }
  }

  /** The reported level is a height of each function reported. */
  ghost predicate ReportedHeight(m: Module, cfg: Config, r: Report) {
    && (r.Spans? ==> forall f :: f in r.ranges ==> Height(m, cfg, f, r.level))
    && (r.ArgumentsOnly? ==> forall f :: f in r.functions ==> Height(m, cfg, f, r.level))
  }

  /** It is a call depth of each of them, and at most the number of functions. */
  ghost predicate ReportedDepth(m: Module, cfg: Config, r: Report) {
    && (!r.NoLevel? ==> 0 <= r.level <= |m.funcs|)
    && (r.Spans? ==> forall f :: f in r.ranges ==> CallDepth(m, cfg, f, r.level))
    && (r.ArgumentsOnly? ==> forall f :: f in r.functions ==> CallDepth(m, cfg, f, r.level))
  }

  lemma ReportedLevels(m: Module, cfg: Config, s: State, r: Report)
    requires Inv(m, cfg, Upward, s) && LevelPremise(cfg, s)
    requires ReportOk(m, s.tainted, s.valueLevel, r)
    ensures ReportedHeight(m, cfg, r)
  {
    hide Inv, LevelPremise, Height, FullSum, SpanSum, PositionsOk, Visits;
    LevelsAreHeights(m, cfg, Upward, s);
    if r.Spans? {
      forall f | f in r.ranges ensures Height(m, cfg, f, r.level) {
        var first := r.ranges[f].0;
        assert IsSpan(Marked(s.tainted, s.valueLevel, r.level), f, first, r.ranges[f].1);
        assert first in s.tainted;
      }
    } else if r.ArgumentsOnly? {
      forall f | f in r.functions ensures Height(m, cfg, f, r.level) {
        assert OwnsArgument(s.tainted, s.valueLevel, r.level, f);
      }
    }
  }

  /** Without downward propagation there is a report exactly when something is tainted, and
      its level is a call depth. */
  lemma ReportedDepths(m: Module, cfg: Config, s: State, r: Report)
    requires Inv(m, cfg, Upward, s) && LevelPremise(cfg, s) && !cfg.interproc
    requires ReportOk(m, s.tainted, s.valueLevel, r)
    ensures ReportedDepth(m, cfg, r) && (r.NoLevel? <==> s.tainted == {})
  {
    hide Inv, LevelPremise, CallDepth, Height, SpansOk, ArgumentsOk;
    LevelsAreCallDepths(m, cfg, Upward, s);
    ReportedLevels(m, cfg, s, r);
    assert forall v :: v in s.tainted ==> Counted(s.tainted, s.valueLevel, v);
    if !r.NoLevel? {
      var v :| AtLevel(s.tainted, s.valueLevel, r.level, v);
      assert v in s.tainted;
    }
    if !r.NoLevel? {
      forall f | Height(m, cfg, f, r.level) ensures CallDepth(m, cfg, f, r.level) {
        HeightIsDepth(m, cfg, f, r.level);
      }
    }
  }

  class TaintTracker {
    const m: Module
    const cfg: Config

    var worklist: seq<Value>
    var taintedValues: set<Value>
    var taintedPointers: set<Value>
    var killedStores: set<Value>
    var functionsReturningTaint: set<nat>
    var functionsTaintingPointerParams: map<nat, set<nat>>
    var pointerTaintOrigin: map<Value, Value>
    var valueLevel: map<Value, int>
    var functionLevel: map<nat, int>
    var paramFieldAccess: map<(nat, nat), seq<int>>

    /** The values taken off the worklist, and how often that happened. */
    ghost var done: set<Value>
    ghost var pops: nat

    ghost function St(): State
      reads this
    {
      State(worklist, taintedValues, taintedPointers, killedStores, functionsReturningTaint,
            functionsTaintingPointerParams, pointerTaintOrigin, valueLevel, functionLevel,
            paramFieldAccess, done, pops)
    }

    constructor (m: Module, cfg: Config)
      ensures this.m == m && this.cfg == cfg && St() == EMPTY
    {
      this.m, this.cfg := m, cfg;
      worklist := [];
      taintedValues, taintedPointers, killedStores, functionsReturningTaint := {}, {}, {}, {};
      functionsTaintingPointerParams, pointerTaintOrigin := map[], map[];
      valueLevel, functionLevel, paramFieldAccess := map[], map[], map[];
      done, pops := {}, 0;
    }

    // ----- levels -----

    function GetLevel(v: Value): int
      reads this
    {
      LevelIn(valueLevel, functionLevel, v)
    }

    method EnsureLevelSet(u: Value)
      requires u.Inst?
      modifies `valueLevel
      ensures St() == EnsureLevel(old(St()), u)
    {
      if u !in valueLevel && u.f in functionLevel {
        valueLevel := valueLevel[u := functionLevel[u.f]];
      }
    }

    // ----- seeding -----

    method SeedArguments(slot: Slot)
      requires WellFormed(m) && IsInst(m, slot.inst) && At(m, slot.inst).Call?
      modifies `worklist, `taintedValues, `valueLevel, `functionLevel
      ensures St() == SeedArgs(m, cfg, old(St()), At(m, slot.inst), slot, |At(m, slot.inst).args|)
    {
      hide PassDown;
      var i := At(m, slot.inst);
      assert InstrOk(m, i);
      hide WellFormed;
      for a := 0 to |i.args|
        invariant St() == SeedArgs(m, cfg, old(St()), i, slot, a)
      {
        if i.callee.Some? && i.args[a] == slot.const_ && cfg.interproc {
          var _ := PropagateDown(slot.inst, i.callee.value, a);
        }
      }
    }

    method SeedStoreTarget(u: Value)
      requires WellFormed(m) && IsInst(m, u) && At(m, u).Store?
      modifies `taintedPointers, `pointerTaintOrigin, `functionsTaintingPointerParams, `paramFieldAccess
      ensures St() == SeedStore(m, old(St()), At(m, u), u)
    {
      hide Universe, RecordFields, RecordParam;
      var i := At(m, u);
      assert IsUser(m, u, i.ptr);
      OperandFacts(m, u, i.ptr);
      hide WellFormed;
      var p := Strip(m, i.ptr);
      if p.Global? { return; }
      var param := GetPointerParameterOrigin(m, i.ptr);
      if param.Some? {
        var _ := RecordParamStore(u.f, param.value.n, i.ptr);
      } else {
        var _ := MarkTainted(p, u);
      }
    }

    method SeedOne(slot: Slot)
      requires WellFormed(m) && IsInst(m, slot.inst)
      modifies `worklist, `taintedValues, `valueLevel, `functionLevel, `taintedPointers, `pointerTaintOrigin,
               `functionsTaintingPointerParams, `paramFieldAccess, `functionsReturningTaint
      ensures St() == SeedSlot(m, cfg, old(St()), slot)
    {
      hide WellFormed, SeedStore, SeedArgs;
      var u := slot.inst;
      if u in taintedValues { return; }
      taintedValues := taintedValues + {u};
      worklist := worklist + [u];
      functionLevel := functionLevel[u.f := 0];
      valueLevel := valueLevel[u := 0];
      var i := At(m, u);
      if i.Ret? {
        if i.result == Some(slot.const_) {
          functionsReturningTaint := functionsReturningTaint + {u.f};
        }
      } else if i.Store? {
        SeedStoreTarget(u);
      } else if i.Call? {
        SeedArguments(slot);
      }
    }

    /** The matching operand slots of one instruction; answers whether to stop there. */
    method SeedInstruction(u: Value, occurrence0: nat, ghost met0: seq<Slot>, ghost rest: seq<Slot>)
      returns (occurrence: nat, found: bool)
      requires WellFormed(m) && IsInst(m, u) && InScope(m, cfg, u) && occurrence0 == |met0|
      requires Slots(m, cfg) == met0 + SlotsIn(cfg, u, Ops(At(m, u))) + rest && SeededSoFar(m, cfg, St(), met0)
      modifies `worklist, `taintedValues, `valueLevel, `functionLevel, `taintedPointers, `pointerTaintOrigin,
               `functionsTaintingPointerParams, `paramFieldAccess, `functionsReturningTaint
      ensures found ==> St() == SeedAll(m, cfg, |Chosen(m, cfg)|)
      ensures !found ==> SeededSoFar(m, cfg, St(), met0 + SlotsIn(cfg, u, Ops(At(m, u))))
      ensures !found ==> occurrence == |met0| + |SlotsIn(cfg, u, Ops(At(m, u)))|
    {
      hide WellFormed, SeedSlot, SeededSoFar, Chosen, SeedAll, Slots, Matches, Ops, At;
      occurrence := occurrence0;
      ghost var met := met0;
      var ops := Ops(At(m, u));
      for k := 0 to |ops|
        invariant met0 + SlotsIn(cfg, u, ops) == met + SlotsIn(cfg, u, ops[k..])
        invariant occurrence == |met| && SeededSoFar(m, cfg, St(), met)
      {
        assert ops[k..][1..] == ops[k + 1..];
        if Matches(cfg, ops[k]) {
          var slot := Slot(u, ops[k]);
          assert Slots(m, cfg) == met + [slot] + SlotsIn(cfg, u, ops[k + 1..]) + rest;
          SlotMet(m, cfg, St(), met, slot);
          occurrence := occurrence + 1;
          met := met + [slot];
          if cfg.occurrence == 0 || occurrence == cfg.occurrence {
            SeedOne(slot);
            if cfg.occurrence != 0 { return occurrence, true; }
          }
        }
      }
      found := false;
      assert ops[|ops|..] == [] && met == met0 + SlotsIn(cfg, u, ops);
    }

    /** Walk the instructions in program order until the chosen occurrence is found. */
    method SeedWalk(order: seq<Value>)
      requires WellFormed(m) && St() == EMPTY && forall u :: u in order ==> IsInst(m, u)
      requires Slots(m, cfg) == SlotsOver(m, cfg, order)
      modifies `worklist, `taintedValues, `valueLevel, `functionLevel, `taintedPointers, `pointerTaintOrigin,
               `functionsTaintingPointerParams, `paramFieldAccess, `functionsReturningTaint
      ensures St() == SeedAll(m, cfg, |Chosen(m, cfg)|)
    {
      hide WellFormed, SeedSlot, Chosen, SeedAll, Slots, InScope, Ops, At, IsInst;
      NoneMet(m, cfg);
      hide SeededSoFar;
      var currentOccurrence, found := 0, false;
      ghost var met: seq<Slot> := [];
      for i := 0 to |order|
        invariant Slots(m, cfg) == met + SlotsOver(m, cfg, order[i..])
        invariant currentOccurrence == |met| && SeededSoFar(m, cfg, St(), met)
      {
        var u := order[i];
        assert u in order && order[i..][1..] == order[i + 1..];
        if InScope(m, cfg, u) {
          ghost var here := SlotsIn(cfg, u, Ops(At(m, u)));
          currentOccurrence, found := SeedInstruction(u, currentOccurrence, met, SlotsOver(m, cfg, order[i + 1..]));
          if found { return; }
          met := met + here;
        }
      }
      assert order[|order|..] == [] && met == Slots(m, cfg);
      AllMet(m, cfg, St(), met);
    }

    /** Find the chosen occurrence of the constant, or all of them, and taint from there. */
    method Seed()
      requires WellFormed(m) && St() == EMPTY
      modifies `worklist, `taintedValues, `valueLevel, `functionLevel, `taintedPointers, `pointerTaintOrigin,
               `functionsTaintingPointerParams, `paramFieldAccess, `functionsReturningTaint
      ensures St() == SeedAll(m, cfg, |Chosen(m, cfg)|)
      ensures Inv(m, cfg, Draining, St()) && forall x :: Holds(St(), x) <==> IsSeed(m, cfg, x)
    {
      hide WellFormed, IsSeed, Inv, Holds, Chosen, SeedAll, Slots, SlotsOver;
      SeedingIsExact(m, cfg);
      var order := ProgramOrder(m);
      forall u | u in order ensures IsInst(m, u) { ProgramOrderHas(m, u); }
      SlotsAre(m, cfg);
      SeedWalk(order);
    }

    // ----- main phase: one user -----

    method PropagateDown(v: Value, f: nat, n: nat) returns (changed: bool)
      requires f < |m.funcs|
      modifies `worklist, `taintedValues, `valueLevel, `functionLevel
      ensures St() == PassDown(m, old(St()), v, f, n)
      ensures changed ==> Larger(old(St()), St())
    {
      changed := false;
      if !IsDeclaration(m.funcs[f]) && n < |m.funcs[f].params| {
        var param := Arg(f, n);
        if param !in taintedValues {
          var newLevel := GetLevel(v) - 1;
          taintedValues := taintedValues + {param};
          valueLevel := valueLevel[param := newLevel];
          functionLevel := functionLevel[f := newLevel];
          worklist := worklist + [param];
          changed := true;
          assert param in taintedValues;
        }
      }
    }

    method PropagateDownAll(v: Value, fs: seq<nat>, n: nat) returns (changed: bool)
      requires forall f :: f in fs ==> f < |m.funcs|
      modifies `worklist, `taintedValues, `valueLevel, `functionLevel
      ensures St() == PassDownAll(m, old(St()), v, fs, n)
      ensures old(taintedValues) <= taintedValues && taintedPointers == old(taintedPointers)
      ensures changed ==> Larger(old(St()), St())
    {
      changed := false;
      for i := 0 to |fs|
        invariant PassDownAll(m, old(St()), v, fs, n) == PassDownAll(m, St(), v, fs[i..], n)
        invariant old(taintedValues) <= taintedValues && taintedPointers == old(taintedPointers)
        invariant changed ==> Larger(old(St()), St())
      {
        assert fs[i..][1..] == fs[i + 1..] && fs[i] in fs;
        var c := PropagateDown(v, fs[i], n);
        changed := changed || c;
      }
    }

    method ProcessCall(v: Value, u: Value) returns (changed: bool)
      requires WellFormed(m) && ConfigOk(m, cfg) && IsInst(m, u) && At(m, u).Call?
      modifies `worklist, `taintedValues, `valueLevel, `functionLevel
      ensures St() == MainCall(m, cfg, old(St()), v, u, At(m, u))
      ensures changed ==> Larger(old(St()), St())
    {
      changed := false;
      var i := At(m, u);
      assert InstrOk(m, i);
      hide WellFormed, PassDown, PassDownAll;
      var argIdx := ArgIndex(i.args, v);
      if argIdx.Some? {
        if i.callee.Some? {
          var callee := i.callee.value;
          if !IsDeclaration(m.funcs[callee]) {
            if u !in valueLevel { valueLevel := valueLevel[u := GetLevel(v)]; }
            if cfg.interproc {
              changed := PropagateDown(v, callee, argIdx.value);
            }
          }
        } else if cfg.interproc {
          var targets := Targets(cfg, u, i);
          changed := PropagateDownAll(v, targets, argIdx.value);
        }
      }
    }

    method PropagateTaint(v: Value, u: Value)
      modifies `worklist, `taintedValues, `valueLevel
      ensures St() == TaintUser(old(St()), v, u)
      ensures old(taintedValues) <= taintedValues && taintedPointers == old(taintedPointers)
    {
      if u !in taintedValues {
        taintedValues := taintedValues + {u};
        valueLevel := valueLevel[u := GetLevel(v)];
        worklist := worklist + [u];
      }
    }

    method MarkTainted(p: Value, marker: Value) returns (fresh_: bool)
      modifies `taintedPointers, `pointerTaintOrigin
      ensures St() == MarkPointer(old(St()), p, marker)
      ensures fresh_ <==> p !in old(taintedPointers)
    {
      fresh_ := p !in taintedPointers;
      if fresh_ {
        taintedPointers := taintedPointers + {p};
        pointerTaintOrigin := pointerTaintOrigin[p := marker];
      }
    }

    method InsertParam(f: nat, n: nat) returns (fresh_: bool)
      modifies `functionsTaintingPointerParams
      ensures St() == RecordParam(old(St()), f, n)
      ensures fresh_ <==> n !in ParamsOf(old(functionsTaintingPointerParams), f)
    {
      var known := ParamsOf(functionsTaintingPointerParams, f);
      fresh_ := n !in known;
      functionsTaintingPointerParams := functionsTaintingPointerParams[f := known + {n}];
    }

    method ProcessStore(v: Value, u: Value) returns (changed: bool)
      requires WellFormed(m) && IsInst(m, u) && At(m, u).Store?
      modifies `worklist, `taintedValues, `valueLevel, `taintedPointers, `pointerTaintOrigin,
        `functionsTaintingPointerParams
      ensures St() == MainStore(m, old(St()), v, u, At(m, u))
      ensures changed ==> Larger(old(St()), St())
    {
      changed := false;
      var i := At(m, u);
      var p := Strip(m, i.ptr);
      assert IsUser(m, u, i.ptr);
      OperandFacts(m, u, i.ptr);
      hide WellFormed;
      if p.Global? { return; }
      var param := GetPointerParameterOrigin(m, i.ptr);
      if param.Some? {
        var _ := InsertParam(u.f, param.value.n);
        return;
      }
      changed := MarkTainted(p, u);
      assert changed ==> p in taintedPointers;
      PropagateTaint(v, u);
    }

    method ProcessUser(v: Value, u: Value) returns (changed: bool)
      requires WellFormed(m) && ConfigOk(m, cfg) && IsUser(m, u, v)
      modifies `worklist, `taintedValues, `valueLevel, `functionLevel, `taintedPointers, `pointerTaintOrigin,
        `functionsReturningTaint, `functionsTaintingPointerParams
      ensures St() == MainUser(m, cfg, old(St()), v, u)
      ensures changed ==> Larger(old(St()), St())
    {
      changed := false;
      var i := At(m, u);
      hide WellFormed, ConfigOk, MainStore, MainCall, TaintUser;
      if i.Ret? && i.result == Some(v) {
        functionsReturningTaint := functionsReturningTaint + {u.f};
      } else if i.Store? && i.val == v {
        changed := ProcessStore(v, u);
      } else {
        if i.Call? { changed := ProcessCall(v, u); }
        PropagateTaint(v, u);
      }
    }

    // ----- main phase: the worklist -----

    method PopWorklist() returns (v: Value)
      requires worklist != []
      modifies `worklist, `done, `pops
      ensures St() == Pop(old(St())) && v == old(worklist)[|old(worklist)| - 1]
    {
      v := worklist[|worklist| - 1];
      worklist := worklist[..|worklist| - 1];
      done := done + {v};
      pops := pops + 1;
    }

    method ProcessUses(v: Value, ghost ph: Phase) returns (changed: bool)
      requires WellFormed(m) && ConfigOk(m, cfg) && !ph.Upward? && Inv(m, cfg, ph, St()) && v in done
      requires DoneMain(m, cfg, St(), {v})
      modifies this
      ensures Inv(m, cfg, ph, St()) && Grows(cfg, old(St()), St())
      ensures DoneMain(m, cfg, St(), {}) && done == old(done) && killedStores == old(killedStores)
      ensures changed ==> Larger(old(St()), St())
    {
      hide Inv, UserSettled, MainUser;
      changed := false;
      var users := AnyOrder(UseList(m, v));
      assert forall u :: u in users <==> IsUser(m, u, v);
      hide WellFormed, ConfigOk;
      GrowsReflexive(cfg, St());
      for i := 0 to |users|
        invariant Inv(m, cfg, ph, St()) && Grows(cfg, old(St()), St()) && v in done && done == old(done)
        invariant killedStores == old(killedStores)
        invariant DoneMain(m, cfg, St(), {v})
        invariant forall j :: 0 <= j < i ==> UserSettled(m, cfg, St(), v, users[j])
        invariant changed ==> Larger(old(St()), St())
      {
        ghost var s := St();
        assert users[i] in users;
        assert v in taintedValues by { assert Shape(m, s) by { InvParts(m, cfg, ph, s); } }
        MainUserKeeps(m, cfg, ph, s, v, users[i]);
        var c := ProcessUser(v, users[i]);
        changed := changed || c;
        GrowsTransitive(cfg, old(St()), s, St());
        DoneMainGrows(m, cfg, s, St(), {v});
        forall j | 0 <= j < i + 1 ensures UserSettled(m, cfg, St(), v, users[j]) {
          if j < i { UserSettledGrows(m, cfg, s, St(), v, users[j]); }
        }
      }
    }

    method DrainWorklist(ghost ph: Phase) returns (changed: bool)
      requires WellFormed(m) && ConfigOk(m, cfg) && !ph.Upward?
      requires Inv(m, cfg, ph, St()) && DoneMain(m, cfg, St(), {})
      modifies this
      ensures Inv(m, cfg, ph, St()) && Grows(cfg, old(St()), St())
      ensures DoneMain(m, cfg, St(), {}) && worklist == [] && killedStores == old(killedStores)
      ensures changed ==> Larger(old(St()), St())
    {
      hide WellFormed, ConfigOk, Inv, DoneMain, Grows, Locals, Larger;
      changed := false;
      GrowsReflexive(cfg, St());
      while worklist != []
        invariant Inv(m, cfg, ph, St()) && Grows(cfg, old(St()), St()) && DoneMain(m, cfg, St(), {})
        invariant killedStores == old(killedStores)
        invariant changed ==> Larger(old(St()), St())
        decreases Locals(m) - done
      {
        ghost var s := St();
        PopKeeps(m, cfg, ph, s);
        PopShrinks(m, cfg, ph, s);
        var v := PopWorklist();
        ghost var s1 := St();
        DoneMainPop(m, cfg, s);
        GrowsTransitive(cfg, old(St()), s, s1);
        var c := ProcessUses(v, ph);
        if changed || c { LargerLater(cfg, old(St()), s, s1, St()); }
        changed := changed || c;
        GrowsTransitive(cfg, old(St()), s1, St());
      }
    }

    // ----- main phase: kills and loads -----

    /** Walks the block the two instructions share: is `first` met no later than `second`? */
    method MetNoLater(first: Value, second: Value) returns (met: bool)
      requires IsInst(m, first) && IsInst(m, second) && SameBlock(first, second)
      ensures met <==> first.k <= second.k
    {
      var found := false;
      for k := 0 to |m.funcs[first.f].blocks[first.b]|
        invariant found <==> first.k < k
        invariant second.k < k ==> second.k < first.k
      {
        if k == first.k { found := true; }
        if k == second.k && found { return true; }
      }
      met := false;
    }

    method IsLoadBeforeTaintOrigin(l: Value, p: Value) returns (before: bool)
      requires IsInst(m, l) && (p in pointerTaintOrigin ==> IsInst(m, pointerTaintOrigin[p]))
      ensures before == PrecedesOrigin(pointerTaintOrigin, p, l)
    {
      if p !in pointerTaintOrigin { return false; }
      var origin := pointerTaintOrigin[p];
      if !SameBlock(l, origin) { return false; }
      before := MetNoLater(l, origin);
    }

    method IsAfterKill(l: Value, p: Value) returns (after: bool)
      requires IsInst(m, l)
      ensures after == AfterKill(m, killedStores, p, l)
    {
      after := false;
      var kills := AnySetOrder(killedStores);
      for i := 0 to |kills|
        invariant after <==> exists j :: 0 <= j < i && KilledBy(m, kills[j], p, l)
      {
        var k := kills[i];
        var i := At(m, k);
        if i.Store? && Strip(m, i.ptr) == p && SameBlock(k, l) {
          var met := MetNoLater(k, l);
          if met { after := true; }
        }
      }
      assert AfterKill(m, killedStores, p, l) ==> after by {
        if AfterKill(m, killedStores, p, l) {
          var k :| k in killedStores && KilledBy(m, k, p, l);
          assert k in kills;
        }
      }
    }

    method IsKillStore(k: Value) returns (kills: bool)
      requires IsInst(m, k) && forall p :: p in pointerTaintOrigin ==> IsInst(m, pointerTaintOrigin[p])
      ensures kills == Kills(m, St(), k)
    {
      var i := At(m, k);
      if !i.Store? { return false; }
      var p := Strip(m, i.ptr);
      if p !in taintedPointers || i.val in taintedValues || k in taintedValues { return false; }
      kills := true;
      if p in pointerTaintOrigin && SameBlock(k, pointerTaintOrigin[p]) {
        kills := MetNoLater(pointerTaintOrigin[p], k);
      }
    }

    method IdentifyKillStores(ghost ph: Phase)
      requires WellFormed(m) && Inv(m, cfg, ph, St())
      modifies `killedStores
      ensures Inv(m, cfg, ph, St()) && Grows(cfg, old(St()), St())
      ensures forall k :: k in killedStores <==> k in old(killedStores) || Kills(m, old(St()), k)
    {
      hide Inv, WellFormed, Grows, Kills;
      var order := ProgramOrder(m);
      GrowsReflexive(cfg, St());
      for i := 0 to |order|
        invariant Inv(m, cfg, ph, St()) && Grows(cfg, old(St()), St())
        invariant forall k :: k in killedStores <==>
          k in old(killedStores) || (k in order[..i] && Kills(m, old(St()), k))
      {
        var k := order[i];
        assert k in order && order[..i + 1] == order[..i] + [k];
        ProgramOrderHas(m, k);
        AddKill(k, old(St()), ph);
      }
      assert order[..|order|] == order;
      forall k | Kills(m, old(St()), k) ensures k in order {
        KillIsInstruction(m, old(St()), k);
        ProgramOrderHas(m, k);
      }
    }

    /** Record one store if it is a kill; the tables that decide it have not changed. */
    method AddKill(k: Value, ghost before: State, ghost ph: Phase)
      requires Inv(m, cfg, ph, St()) && IsInst(m, k) && St() == before.(killed := killedStores)
      requires Grows(cfg, before, St())
      modifies `killedStores
      ensures Inv(m, cfg, ph, St()) && Grows(cfg, before, St())
      ensures killedStores == old(killedStores) + if Kills(m, before, k) then {k} else {}
    {
      hide Inv, Grows, Kills, IsInst;
      ghost var s := St();
      assert forall p :: p in pointerTaintOrigin ==> IsInst(m, pointerTaintOrigin[p]) by { InvParts(m, cfg, ph, s); }
      SameKills(m, before, s, k);
      var kills := IsKillStore(k);
      if kills {
        KillKeeps(m, cfg, ph, s, k);
        killedStores := killedStores + {k};
        assert St() == s.(killed := s.killed + {k});
        GrowsTransitive(cfg, before, s, St());
      }
    }

    method ScanOneLoad(p: Value, l: Value, heed: bool) returns (changed: bool)
      requires IsInst(m, l) && forall q :: q in pointerTaintOrigin ==> IsInst(m, pointerTaintOrigin[q])
      modifies `worklist, `taintedValues, `valueLevel
      ensures St() == ScanLoad(m, old(St()), heed, p, l)
      ensures changed <==> worklist != old(worklist)
    {
      changed := false;
      if !LoadMatches(m, p, l) || l in taintedValues { return; }
      if heed {
        var afterKill := IsAfterKill(l, p);
        if afterKill {
          EnsureLevelSet(l);
          return;
        }
      }
      var before := IsLoadBeforeTaintOrigin(l, p);
      EnsureLevelSet(l);
      if before { return; }
      taintedValues := taintedValues + {l};
      worklist := worklist + [l];
      changed := true;
    }

    method ScanLoadsFromPointer(p: Value, heed: bool, ghost ph: Phase) returns (changed: bool)
      requires WellFormed(m) && Inv(m, cfg, ph, St()) && p in taintedPointers
      requires ph.Upward? || (ph.Scanning? && heed)
      modifies `worklist, `taintedValues, `valueLevel
      ensures Inv(m, cfg, ph, St()) && Grows(cfg, old(St()), St()) && ScanOnly(old(St()), St())
      ensures forall l :: IsInst(m, l) ==> LoadSettled(m, St(), heed, p, l)
      ensures Scans(m, old(St()), St(), heed)
      ensures if changed then old(taintedValues) < taintedValues else worklist == old(worklist)
    {
      hide WellFormed, Inv, LoadSettled, ScanLoad, Scans;
      changed := false;
      var order := ProgramOrder(m);
      GrowsReflexive(cfg, St());
      NothingScanned(m, St(), heed);
      for i := 0 to |order|
        invariant Inv(m, cfg, ph, St()) && Grows(cfg, old(St()), St()) && ScanOnly(old(St()), St())
        invariant forall j :: 0 <= j < i ==> LoadSettled(m, St(), heed, p, order[j])
        invariant Scans(m, old(St()), St(), heed)
        invariant if changed then old(taintedValues) < taintedValues else worklist == old(worklist)
      {
        ghost var s := St();
        var l := order[i];
        assert l in order;
        ProgramOrderHas(m, l);
        OriginsAre(m, cfg, ph, s);
        ScanLoadKeeps(m, cfg, ph, s, heed, p, l);
        ScanLoadScans(m, s, heed, p, l);
        var c := ScanOneLoad(p, l, heed);
        changed := changed || c;
        GrowsTransitive(cfg, old(St()), s, St());
        ScansTransitive(m, old(St()), s, St(), heed);
        forall j | 0 <= j < i ensures LoadSettled(m, St(), heed, p, order[j]) {
          LoadSettledGrows(m, cfg, s, St(), heed, p, order[j]);
        }
      }
      forall l | IsInst(m, l) ensures LoadSettled(m, St(), heed, p, l) {
        ProgramOrderHas(m, l);
      }
    }

    method ScanLoads(ps: seq<Value>, heed: bool, ghost ph: Phase) returns (changed: bool)
      requires WellFormed(m) && Inv(m, cfg, ph, St()) && forall p :: p in ps ==> p in taintedPointers
      requires ph.Upward? || (ph.Scanning? && heed)
      modifies `worklist, `taintedValues, `valueLevel
      ensures Inv(m, cfg, ph, St()) && Grows(cfg, old(St()), St()) && ScanOnly(old(St()), St())
      ensures forall p, l :: p in ps && IsInst(m, l) ==> LoadSettled(m, St(), heed, p, l)
      ensures Scans(m, old(St()), St(), heed)
      ensures if changed then old(taintedValues) < taintedValues else worklist == old(worklist)
    {
      hide WellFormed, Inv, LoadSettled, Scans;
      changed := false;
      GrowsReflexive(cfg, St());
      NothingScanned(m, St(), heed);
      for i := 0 to |ps|
        invariant Inv(m, cfg, ph, St()) && Grows(cfg, old(St()), St()) && ScanOnly(old(St()), St())
        invariant forall j, l :: 0 <= j < i && IsInst(m, l) ==> LoadSettled(m, St(), heed, ps[j], l)
        invariant Scans(m, old(St()), St(), heed)
        invariant if changed then old(taintedValues) < taintedValues else worklist == old(worklist)
      {
        ghost var s := St();
        assert ps[i] in ps;
        var c := ScanLoadsFromPointer(ps[i], heed, ph);
        changed := changed || c;
        GrowsTransitive(cfg, old(St()), s, St());
        ScansTransitive(m, old(St()), s, St(), heed);
        forall j, l | 0 <= j < i && IsInst(m, l) ensures LoadSettled(m, St(), heed, ps[j], l) {
          LoadSettledGrows(m, cfg, s, St(), heed, ps[j], l);
        }
      }
    }

    /** The tainted pointers not scanned yet, in some order. */
    method PointersToScan(scanned: set<Value>) returns (ps: seq<Value>)
      ensures forall p :: p in ps <==> p in taintedPointers && p !in scanned
    {
      ps := AnySetOrder(taintedPointers - scanned);
    }

    /** One round: drain the worklist, record kills, scan the loads of new pointers. `drained`
        is the state when the worklist is empty. */
    method MainRound(scanned0: set<Value>, ghost ph0: Phase)
      returns (changed: bool, scanned: set<Value>, ghost ph: Phase, ghost drained: State)
      requires WellFormed(m) && ConfigOk(m, cfg) && !ph0.Upward? && Inv(m, cfg, ph0, St())
      requires DoneMain(m, cfg, St(), {}) && Scanned(m, St(), true, scanned0)
      modifies this
      ensures Inv(m, cfg, ph, St()) && Grows(cfg, old(St()), drained) && Grows(cfg, drained, St())
      ensures Grows(cfg, old(St()), St())
      ensures DoneMain(m, cfg, St(), {}) && Scanned(m, St(), true, scanned) && taintedPointers <= scanned
      ensures if changed then Larger(old(St()), St()) else worklist == []
      // the sweep records exactly the stores that overwrite taint in the drained state
      ensures Inv(m, cfg, ph0, drained) && drained.work == [] && DoneMain(m, cfg, drained, {})
      ensures drained.killed == old(killedStores)
      ensures forall k :: k in killedStores <==> k in drained.killed || Overwrites(m, drained, k)
      ensures KillsRecorded(m, St())
      // the scan heeds all of them
      ensures Scans(m, drained.(killed := killedStores), St(), true)
      ensures ph == if ph0.Draining? then Scanning(killedStores) else ph0
    {
      hide WellFormed, ConfigOk, Inv, LoadSettled, UserSettled, Kills, Scans, Overwrites, KillsRecorded;
      ghost var s := St();
      changed := DrainWorklist(ph0);
      ghost var s1 := St();
      drained := s1;
      IdentifyKillStores(ph0);
      ghost var s2 := St();
      OriginsAre(m, cfg, ph0, s1);
      KillsOverwrite(m, s1);
      DoneMainGrows(m, cfg, s1, s2, {});
      ph := ph0;
      if ph0.Draining? {
        ScanningBegins(m, cfg, s2);
        ph := Scanning(killedStores);
      }
      var ps := PointersToScan(scanned0);
      var c := ScanLoads(ps, true, ph);
      DoneMainGrows(m, cfg, s2, St(), {});
      assert KillsRecorded(m, St()) by { RecordedAfterScan(m, cfg, ph, s1, s2, St()); }
      assert changed || c ==> Larger(s, St());
      changed := changed || c;
      GrowsTransitive(cfg, s1, s2, St());
      GrowsTransitive(cfg, s, s1, St());
      ScannedGrows(m, cfg, s, St(), true, scanned0);
      scanned := scanned0 + taintedPointers;
    }

    /** Rounds until nothing changes. Afterwards the tables are closed under the main-phase
        rules, and all stores that overwrite taint are recorded. `first` is the state when the
        worklist is first empty, and `heeded` are the stores that overwrite taint then. */
    method MainPhase() returns (ghost rounds: nat, ghost first: State, ghost heeded: set<Value>)
      requires WellFormed(m) && ConfigOk(m, cfg) && Inv(m, cfg, Draining, St()) && done == {} && killedStores == {}
      modifies this
      ensures Inv(m, cfg, Scanning(heeded), St()) && Grows(cfg, old(St()), St())
      ensures DoneMain(m, cfg, St(), {}) && worklist == [] && MainClosed(m, cfg, St())
      ensures KillsRecorded(m, St())
      ensures FirstDrained(m, cfg, first, heeded) && Grows(cfg, old(St()), first) && Grows(cfg, first, St())
      ensures rounds <= 1 + |Locals(m) - old(taintedValues)| + |Universe(m) - old(taintedPointers)|
    {
      hide WellFormed, ConfigOk, Inv, LoadSettled, UserSettled, Locals, Universe, Grows, Scans, KillsRecorded,
        Overwrites, DoneMain;
      rounds := 0;
      var scanned := {};
      var changed := true;
      ghost var ph: Phase := Draining;
      first, heeded := St(), {};
      GrowsReflexive(cfg, St());
      NothingDone(m, cfg, St());
      while changed
        invariant Inv(m, cfg, ph, St()) && Grows(cfg, old(St()), St())
        invariant DoneMain(m, cfg, St(), {}) && Scanned(m, St(), true, scanned)
        invariant !changed ==> worklist == [] && taintedPointers <= scanned && KillsRecorded(m, St())
        invariant if ph.Draining? then changed && killedStores == {}
          else ph == Scanning(heeded) && FirstDrained(m, cfg, first, heeded)
        invariant Grows(cfg, old(St()), first) && Grows(cfg, first, St())
        invariant rounds + Open(m, St()) + (if changed then 1 else 0) <= 1 + Open(m, old(St()))
        decreases Open(m, St()), changed
      {
        ghost var s, before := St(), ph;
        rounds := rounds + 1;
        ghost var drained;
        changed, scanned, ph, drained := MainRound(scanned, ph);
        if before.Draining? {
          first, heeded := drained, killedStores;
          GrowsTransitive(cfg, old(St()), s, first);
        } else {
          GrowsTransitive(cfg, first, s, St());
        }
        GrowsTransitive(cfg, old(St()), s, St());
        OpenShrinks(m, cfg, ph, s, St());
      }
      MainAtRest(m, cfg, ph, St());
    }

    // ----- upward phase -----

    method ReturnTaintedCall(f: nat, c: Value)
      requires c.Inst?
      modifies `worklist, `taintedValues, `valueLevel, `functionLevel
      ensures St() == CallReturns(old(St()), f, c)
    {
      if c !in taintedValues {
        var newLevel := (if f in functionLevel then functionLevel[f] else 0) + 1;
        valueLevel := valueLevel[c := newLevel];
        if c.f !in functionLevel { functionLevel := functionLevel[c.f := newLevel]; }
        taintedValues := taintedValues + {c};
        worklist := worklist + [c];
      }
    }

    /** Step 5a: taint every direct call of a function that returns taint. */
    method TaintCallsReturning()
      requires WellFormed(m) && Inv(m, cfg, Upward, St()) && DoneUses(m, St(), {})
      modifies `worklist, `taintedValues, `valueLevel, `functionLevel
      ensures Inv(m, cfg, Upward, St()) && Grows(cfg, old(St()), St()) && DoneUses(m, St(), {})
      ensures ReturnsSettled(m, St(), functionsReturningTaint)
    {
      hide WellFormed, Inv;
      var fs := AnySetOrder(functionsReturningTaint);
      GrowsReflexive(cfg, St());
      for i := 0 to |fs|
        invariant Inv(m, cfg, Upward, St()) && Grows(cfg, old(St()), St())
        invariant forall j, c :: 0 <= j < i && DirectCall(m, c, fs[j]) ==> c in taintedValues
      {
        ghost var s := St();
        assert fs[i] in fs;
        TaintCallsOf(fs[i]);
        GrowsTransitive(cfg, old(St()), s, St());
      }
      DoneUsesGrows(m, cfg, old(St()), St(), {});
    }

    method TaintCallsOf(f: nat)
      requires WellFormed(m) && Inv(m, cfg, Upward, St()) && f in functionsReturningTaint
      modifies `worklist, `taintedValues, `valueLevel, `functionLevel
      ensures Inv(m, cfg, Upward, St()) && Grows(cfg, old(St()), St())
      ensures forall c :: DirectCall(m, c, f) ==> c in taintedValues
    {
      hide WellFormed, Inv, Grows;
      var order := ProgramOrder(m);
      GrowsReflexive(cfg, St());
      for i := 0 to |order|
        invariant Inv(m, cfg, Upward, St()) && Grows(cfg, old(St()), St())
        invariant forall j :: 0 <= j < i && DirectCall(m, order[j], f) ==> order[j] in taintedValues
      {
        ghost var s := St();
        var c := order[i];
        assert c in order;
        ProgramOrderHas(m, c);
        var instr := At(m, c);
        if instr.Call? && instr.callee == Some(f) {
          CallReturnsKeeps(m, cfg, s, f, c);
          ReturnTaintedCall(f, c);
          GrowsTransitive(cfg, old(St()), s, St());
          forall j | 0 <= j < i && DirectCall(m, order[j], f) ensures order[j] in taintedValues {
            GrowsHolds(cfg, s, St(), Val(order[j]));
          }
        }
      }
      forall c | DirectCall(m, c, f) ensures c in taintedValues {
        ProgramOrderHas(m, c);
      }
    }

    method MarkStoredAddresses(g: Value, c: Value)
      modifies `taintedPointers, `pointerTaintOrigin
      ensures St() == MarkStored(m, old(St()), g, UseList(m, g), c)
    {
      var users := UseList(m, g);
      for i := 0 to |users|
        invariant MarkStored(m, old(St()), g, users, c) == MarkStored(m, St(), g, users[i..], c)
      {
        assert users[i..][1..] == users[i + 1..];
        var instr := At(m, users[i]);
        if instr.Store? && instr.ptr == g {
          var stored := Strip(m, instr.val);
          if At(m, stored).Alloca? {
            var _ := MarkTainted(stored, c);
          }
        }
      }
    }

    method MarkStructFields(p: Value, accessed: seq<int>, c: Value)
      modifies `taintedPointers, `pointerTaintOrigin
      ensures St() == MarkFields(m, old(St()), UseList(m, p), accessed, c)
    {
      hide MarkStored;
      var users := UseList(m, p);
      for i := 0 to |users|
        invariant MarkFields(m, old(St()), users, accessed, c) == MarkFields(m, St(), users[i..], accessed, c)
      {
        assert users[i..][1..] == users[i + 1..];
        var instr := At(m, users[i]);
        if instr.Gep? {
          var own := FieldOf(instr);
          var fieldIdx := if own.Some? then own.value else -1;
          if accessed == [] || fieldIdx in accessed {
            MarkStoredAddresses(users[i], c);
          }
        }
      }
    }

    method MarkPassedVariable(f: nat, n: nat, c: Value, p: Value)
      requires c.Inst?
      modifies `taintedPointers, `pointerTaintOrigin, `functionLevel
      ensures St() == MarkPassed(m, old(St()), f, n, c, p)
    {
      hide MarkFields;
      if p in taintedPointers { return; }
      var newLevel := (if f in functionLevel then functionLevel[f] else 0) + 1;
      if c.f !in functionLevel { functionLevel := functionLevel[c.f := newLevel]; }
      var _ := MarkTainted(p, c);
      var instr := At(m, p);
      if instr.Alloca? && instr.isStruct {
        MarkStructFields(p, FieldsOf(paramFieldAccess, f, n), c);
      }
    }

    /** One parameter at one call site of a function that taints it. */
    method TaintArgument(f: nat, n: nat, c: Value) returns (discovered: bool)
      requires WellFormed(m) && DirectCall(m, c, f)
      modifies `taintedPointers, `pointerTaintOrigin, `functionLevel, `functionsTaintingPointerParams
      ensures St() == CallTaints(m, old(St()), f, n, c)
      ensures forall x :: Holds(St(), x) <==> Holds(old(St()), x) || CallAdds(m, old(St()), f, n, c, x)
      ensures Discovered(discovered, old(St()), St())
    {
      forall x ensures Holds(CallTaints(m, St(), f, n, c), x) <==> Holds(St(), x) || CallAdds(m, St(), f, n, c, x) {
        CallTaintsExact(m, St(), f, n, c, x);
      }
      hide WellFormed, MarkPassed, Universe, UsableIn, IsPtrArg, Strip, OriginOf, Originates;
      discovered := false;
      var instr := At(m, c);
      if n >= |instr.args| { return; }
      var arg := instr.args[n];
      assert IsUser(m, c, arg);
      OperandFacts(m, c, arg);
      var param := GetPointerParameterOrigin(m, arg);
      if param.Some? {
        var known := ParamsOf(functionsTaintingPointerParams, c.f);
        if param.value.n !in known {
          var _ := InsertParam(c.f, param.value.n);
          discovered := true;
          var newLevel := (if f in functionLevel then functionLevel[f] else 0) + 1;
          if c.f !in functionLevel { functionLevel := functionLevel[c.f := newLevel]; }
          assert param.value.n in ParamsOf(functionsTaintingPointerParams, c.f);
        }
        return;
      }
      var p := Pointed(m, arg);
      if p.Some? { MarkPassedVariable(f, n, c, p.value); }
    }

    method TaintArgumentsAt(f: nat, ns: set<nat>, c: Value) returns (discovered: bool)
      requires WellFormed(m) && Inv(m, cfg, Upward, St()) && DirectCall(m, c, f)
      requires forall n :: n in ns ==> n in ParamsOf(functionsTaintingPointerParams, f)
      modifies `taintedPointers, `pointerTaintOrigin, `functionLevel, `functionsTaintingPointerParams
      ensures Inv(m, cfg, Upward, St()) && Grows(cfg, old(St()), St())
      ensures forall n :: n in ns ==> CallSettled(m, St(), f, n, c)
      ensures Discovered(discovered, old(St()), St())
    {
      hide WellFormed, Inv, Grows, CallSettled, CallTaints, DirectCall, Discovered;
      discovered := false;
      GrowsReflexive(cfg, St());
      NothingDiscovered(St());
      var params := AnySetOrder(ns);
      for i := 0 to |params|
        invariant Inv(m, cfg, Upward, St()) && Grows(cfg, old(St()), St())
        invariant forall j :: 0 <= j < i ==> CallSettled(m, St(), f, params[j], c)
        invariant Discovered(discovered, old(St()), St())
      {
        ghost var s := St();
        var n := params[i];
        assert n in params;
        GrowsHolds(cfg, old(St()), s, Param(f, n));
        CallTaintsKeeps(m, cfg, s, f, n, c);
        var d := TaintArgument(f, n, c);
        DiscoveredChain(cfg, old(St()), s, St(), discovered, d);
        discovered := discovered || d;
        forall j | 0 <= j < i ensures CallSettled(m, St(), f, params[j], c) {
          CallSettledGrows(m, cfg, s, St(), f, params[j], c);
        }
      }
    }

    method TaintArgumentsOf(f: nat, ns: set<nat>) returns (discovered: bool)
      requires WellFormed(m) && Inv(m, cfg, Upward, St())
      requires forall n :: n in ns ==> n in ParamsOf(functionsTaintingPointerParams, f)
      modifies `taintedPointers, `pointerTaintOrigin, `functionLevel, `functionsTaintingPointerParams
      ensures Inv(m, cfg, Upward, St()) && Grows(cfg, old(St()), St())
      ensures forall n, c :: n in ns && DirectCall(m, c, f) ==> CallSettled(m, St(), f, n, c)
      ensures Discovered(discovered, old(St()), St())
    {
      hide WellFormed, Inv, Grows, CallSettled, Discovered;
      discovered := false;
      GrowsReflexive(cfg, St());
      NothingDiscovered(St());
      var order := ProgramOrder(m);
      for i := 0 to |order|
        invariant Inv(m, cfg, Upward, St()) && Grows(cfg, old(St()), St())
        invariant forall j, n :: 0 <= j < i && n in ns && DirectCall(m, order[j], f) ==>
          CallSettled(m, St(), f, n, order[j])
        invariant Discovered(discovered, old(St()), St())
      {
        ghost var s := St();
        var c := order[i];
        assert c in order;
        ProgramOrderHas(m, c);
        var instr := At(m, c);
        if instr.Call? && instr.callee == Some(f) {
          forall n | n in ns ensures n in ParamsOf(functionsTaintingPointerParams, f) {
            GrowsHolds(cfg, old(St()), s, Param(f, n));
          }
          var d := TaintArgumentsAt(f, ns, c);
          DiscoveredChain(cfg, old(St()), s, St(), discovered, d);
          discovered := discovered || d;
          forall j, n | 0 <= j < i && n in ns && DirectCall(m, order[j], f)
            ensures CallSettled(m, St(), f, n, order[j])
          {
            CallSettledGrows(m, cfg, s, St(), f, n, order[j]);
          }
        }
      }
      forall n, c | n in ns && DirectCall(m, c, f) ensures CallSettled(m, St(), f, n, c) {
        ProgramOrderHas(m, c);
      }
    }

    /** Step 5b: at every direct call of a function that taints pointer parameters, record
        the caller's own parameter or mark the variable whose address is passed. */
    method TaintArguments() returns (discovered: bool)
      requires WellFormed(m) && Inv(m, cfg, Upward, St()) && DoneUses(m, St(), {})
      modifies `taintedPointers, `pointerTaintOrigin, `functionLevel, `functionsTaintingPointerParams
      ensures Inv(m, cfg, Upward, St()) && Grows(cfg, old(St()), St()) && DoneUses(m, St(), {})
      ensures ParamsSettled(m, St(), old(functionsTaintingPointerParams))
      ensures Discovered(discovered, old(St()), St())
    {
      hide WellFormed, Inv, Grows, CallSettled, Discovered;
      discovered := false;
      GrowsReflexive(cfg, St());
      NothingDiscovered(St());
      var snapshot := functionsTaintingPointerParams;
      var fs := AnySetOrder(snapshot.Keys);
      for i := 0 to |fs|
        invariant Inv(m, cfg, Upward, St()) && Grows(cfg, old(St()), St())
        invariant forall j, n, c :: 0 <= j < i && n in ParamsOf(snapshot, fs[j]) && DirectCall(m, c, fs[j]) ==>
          CallSettled(m, St(), fs[j], n, c)
        invariant Discovered(discovered, old(St()), St())
      {
        ghost var s := St();
        var f := fs[i];
        assert f in fs;
        forall n | n in snapshot[f] ensures n in ParamsOf(functionsTaintingPointerParams, f) {
          GrowsHolds(cfg, old(St()), s, Param(f, n));
        }
        var d := TaintArgumentsOf(f, snapshot[f]);
        DiscoveredChain(cfg, old(St()), s, St(), discovered, d);
        discovered := discovered || d;
        forall j, n, c | 0 <= j < i && n in ParamsOf(snapshot, fs[j]) && DirectCall(m, c, fs[j])
          ensures CallSettled(m, St(), fs[j], n, c)
        {
          CallSettledGrows(m, cfg, s, St(), fs[j], n, c);
        }
      }
      forall f, n, c | n in ParamsOf(snapshot, f) && DirectCall(m, c, f) ensures CallSettled(m, St(), f, n, c) {
        assert f in fs;
      }
      DoneUsesGrows(m, cfg, old(St()), St(), {});
    }

    // ----- upward phase: uses -----

    method AddAccessedFields(f: nat, n: nat, used: seq<int>)
      modifies `paramFieldAccess
      ensures paramFieldAccess ==
        old(paramFieldAccess)[(f, n) := AddFields(FieldsOf(old(paramFieldAccess), f, n), used)]
    {
      var known := FieldsOf(paramFieldAccess, f, n);
      for i := 0 to |used|
        invariant AddFields(FieldsOf(old(paramFieldAccess), f, n), used) == AddFields(known, used[i..])
      {
        assert used[i..][1..] == used[i + 1..];
        if used[i] !in known { known := known + [used[i]]; }
      }
      paramFieldAccess := paramFieldAccess[(f, n) := known];
    }

    method RecordParamStore(f: nat, n: nat, address: Value) returns (discovered: bool)
      requires WellFormed(m) && address in Universe(m)
      modifies `functionsTaintingPointerParams, `paramFieldAccess
      ensures St() == RecordFields(m, RecordParam(old(St()), f, n), f, n, address)
      ensures Discovered(discovered, old(St()), St())
    {
      hide WellFormed, Universe, AddFields, FieldsOf;
      discovered := InsertParam(f, n);
      if discovered {
        assert n in ParamsOf(functionsTaintingPointerParams, f)
          && n !in ParamsOf(old(functionsTaintingPointerParams), f);
      } else {
        assert ParamsOf(functionsTaintingPointerParams, f) == ParamsOf(old(functionsTaintingPointerParams), f);
        assert functionsTaintingPointerParams == old(functionsTaintingPointerParams);
      }
      var used := ExtractStructFieldIndices(m, address);
      if used != [] {
        AddAccessedFields(f, n, used);
      }
    }

    method ProcessStoreForTaint(v: Value, u: Value) returns (discovered: bool)
      requires WellFormed(m) && IsInst(m, u) && At(m, u).Store?
      modifies `taintedPointers, `pointerTaintOrigin, `functionsTaintingPointerParams, `paramFieldAccess
      ensures St() == UpwardStore(m, old(St()), v, u, At(m, u))
      ensures Discovered(discovered, old(St()), St())
    {
      discovered := false;
      var i := At(m, u);
      if i.val != v { return; }
      assert IsUser(m, u, i.ptr);
      OperandFacts(m, u, i.ptr);
      hide WellFormed, Universe, RecordFields, RecordParam;
      var _ := MarkTainted(Strip(m, i.ptr), u);
      var param := GetPointerParameterOrigin(m, i.ptr);
      if param.Some? {
        discovered := RecordParamStore(u.f, param.value.n, i.ptr);
      }
    }

    method ProcessUserUpward(v: Value, u: Value) returns (discovered: bool)
      requires WellFormed(m) && IsInst(m, u)
      modifies `worklist, `taintedValues, `valueLevel, `taintedPointers, `pointerTaintOrigin,
               `functionsTaintingPointerParams, `paramFieldAccess, `functionsReturningTaint
      ensures St() == UpwardUser(m, old(St()), v, u)
      ensures Discovered(discovered, old(St()), St())
    {
      hide WellFormed, UpwardStore;
      discovered := false;
      if u in taintedValues { return; }
      PropagateTaint(v, u);
      var i := At(m, u);
      if i.Store? {
        discovered := ProcessStoreForTaint(v, u);
      } else if i.Ret? && i.result == Some(v) {
        discovered := u.f !in functionsReturningTaint;
        functionsReturningTaint := functionsReturningTaint + {u.f};
        if discovered { assert u.f in functionsReturningTaint; }
      }
    }

    method ProcessUsesUpward(v: Value) returns (discovered: bool)
      requires WellFormed(m) && Inv(m, cfg, Upward, St()) && v in done && DoneUses(m, St(), {v})
      modifies this
      ensures Inv(m, cfg, Upward, St()) && Grows(cfg, old(St()), St()) && DoneUses(m, St(), {})
      ensures Discovered(discovered, old(St()), St()) && done == old(done)
    {
      hide Inv, UpwardUser, Discovered, Grows, UseSettled, DoneUses, Holds;
      var users := AnyOrder(UseList(m, v));
      assert forall u :: u in users <==> IsUser(m, u, v);
      hide WellFormed;
      discovered := false;
      GrowsReflexive(cfg, St());
      NothingDiscovered(St());
      for i := 0 to |users|
        invariant Inv(m, cfg, Upward, St()) && Grows(cfg, old(St()), St())
        invariant done == old(done) && forall j :: 0 <= j < i ==> users[j] in taintedValues
        invariant Discovered(discovered, old(St()), St())
      {
        ghost var s := St();
        assert users[i] in users;
        UpwardUserOfDone(m, cfg, s, v, users[i]);
        var d := ProcessUserUpward(v, users[i]);
        DiscoveredChain(cfg, old(St()), s, St(), discovered, d);
        discovered := discovered || d;
        forall j | 0 <= j < i + 1 ensures users[j] in taintedValues {
          if j < i { GrowsTainted(cfg, s, St(), users[j]); }
        }
      }
      DoneUsesGrows(m, cfg, old(St()), St(), {v});
      forall u | IsUser(m, u, v) ensures u in taintedValues {
        assert u in users;
      }
      DoneUsesClose(m, St(), v);
    }

    method DrainWorklistUpward() returns (discovered: bool)
      requires WellFormed(m) && Inv(m, cfg, Upward, St()) && DoneUses(m, St(), {})
      modifies this
      ensures Inv(m, cfg, Upward, St()) && Grows(cfg, old(St()), St()) && DoneUses(m, St(), {}) && worklist == []
      ensures Discovered(discovered, old(St()), St())
    {
      hide WellFormed, Inv, DoneUses, Discovered, Grows, Locals;
      discovered := false;
      GrowsReflexive(cfg, St());
      NothingDiscovered(St());
      while worklist != []
        invariant Inv(m, cfg, Upward, St()) && Grows(cfg, old(St()), St()) && DoneUses(m, St(), {})
        invariant Discovered(discovered, old(St()), St())
        decreases Locals(m) - done
      {
        ghost var s := St();
        PopKeeps(m, cfg, Upward, s);
        PopShrinks(m, cfg, Upward, s);
        var v := PopWorklist();
        ghost var s1 := St();
        DoneUsesPop(m, s);
        assert Discovered(false, s, s1) by { PopDiscoversNothing(s); }
        GrowsTransitive(cfg, old(St()), s, s1);
        DiscoveredChain(cfg, old(St()), s, s1, discovered, false);
        var d := ProcessUsesUpward(v);
        DiscoveredChain(cfg, old(St()), s1, St(), discovered, d);
        discovered := discovered || d;
      }
    }

    /** Process uses and scan loads, without heeding kills, until no pointer is left. */
    method PropagateUpward(scanned0: set<Value>) returns (discovered: bool, scanned: set<Value>)
      requires WellFormed(m) && Inv(m, cfg, Upward, St()) && DoneUses(m, St(), {}) && Scanned(m, St(), false, scanned0)
      modifies this
      ensures Inv(m, cfg, Upward, St()) && Grows(cfg, old(St()), St()) && DoneUses(m, St(), {})
      ensures worklist == [] && Scanned(m, St(), false, scanned) && scanned == taintedPointers
      ensures Discovered(discovered, old(St()), St())
    {
      hide WellFormed, Inv, UseSettled, LoadSettled, Discovered, Universe, Grows;
      discovered, scanned := false, scanned0;
      GrowsReflexive(cfg, St());
      NothingDiscovered(St());
      while true
        invariant Inv(m, cfg, Upward, St()) && Grows(cfg, old(St()), St()) && DoneUses(m, St(), {})
        invariant Scanned(m, St(), false, scanned)
        invariant Discovered(discovered, old(St()), St())
        decreases Universe(m) - scanned
      {
        ghost var s := St();
        var d := DrainWorklistUpward();
        ghost var s1 := St();
        DiscoveredChain(cfg, old(St()), s, s1, discovered, d);
        discovered := discovered || d;
        ScannedGrows(m, cfg, s, s1, false, scanned);
        var ps := PointersToScan(scanned);
        if ps == [] {
          assert scanned == taintedPointers by { AllScanned(scanned, taintedPointers, ps); }
          break;
        }
        var _ := ScanLoads(ps, false, Upward);
        DoneUsesGrows(m, cfg, s1, St(), {});
        ScannedGrows(m, cfg, s1, St(), false, scanned);
        assert Discovered(false, s1, St()) by { ScanDiscoversNothing(s1, St()); }
        DiscoveredChain(cfg, old(St()), s1, St(), discovered, false);
        assert taintedPointers <= Universe(m) by { InvParts(m, cfg, Upward, St()); }
        assert ps[0] in ps;
        scanned := scanned + taintedPointers;
      }
    }

    /** One iteration: call sites of the summary entries, then their consequences. */
    method UpwardRound(scanned0: set<Value>) returns (discovered: bool, scanned: set<Value>)
      requires WellFormed(m) && Inv(m, cfg, Upward, St()) && DoneUses(m, St(), {}) && Scanned(m, St(), false, scanned0)
      modifies this
      ensures Inv(m, cfg, Upward, St()) && Grows(cfg, old(St()), St()) && DoneUses(m, St(), {})
      ensures worklist == [] && Scanned(m, St(), false, scanned) && scanned == taintedPointers
      ensures Discovered(discovered, old(St()), St())
      ensures !discovered ==> ReturnsSettled(m, St(), functionsReturningTaint)
      ensures !discovered ==> ParamsSettled(m, St(), functionsTaintingPointerParams)
    {
      hide WellFormed, Inv, UseSettled, LoadSettled, CallSettled, Discovered, DirectCall;
      ghost var s := St();
      var oldReturningSize, oldParamsSize := |functionsReturningTaint|, |functionsTaintingPointerParams|;
      TaintCallsReturning();
      ghost var s1 := St();
      ScannedGrows(m, cfg, s, s1, false, scanned0);
      var d := TaintArguments();
      ghost var s2 := St();
      ScannedGrows(m, cfg, s1, s2, false, scanned0);
      discovered, scanned := PropagateUpward(scanned0);
      ghost var s3 := St();
      TaintingDiscoversNothing(s, s1);
      DiscoveredChain(cfg, s, s1, s2, false, d);
      DiscoveredChain(cfg, s, s2, s3, d, discovered);
      discovered := discovered || d;
      if |functionsReturningTaint| > oldReturningSize || |functionsTaintingPointerParams| > oldParamsSize {
        SizesTell(s, s3, discovered);
        discovered := true;
      }
      if !discovered {
        SummariesAtRest(m, cfg, s1, s2, s3);
      }
    }

    /** The callee-to-caller phase: repeat until an iteration adds no summary entry. */
    method UpwardPhase() returns (ghost rounds: nat)
      requires WellFormed(m) && Inv(m, cfg, Upward, St()) && DoneUses(m, St(), {}) && worklist == []
      modifies this
      ensures Inv(m, cfg, Upward, St()) && Grows(cfg, old(St()), St())
      ensures worklist == [] && UpwardClosed(m, St())
      ensures rounds <= 1 + Missing(m, old(St()))
    {
      hide WellFormed, Inv, UseSettled, LoadSettled, CallSettled, Discovered, Missing, DirectCall, Grows;
      rounds := 0;
      var scanned := {};
      var discovered := true;
      GrowsReflexive(cfg, St());
      MissingNatural(m, cfg, St());
      while discovered
        invariant Inv(m, cfg, Upward, St()) && Grows(cfg, old(St()), St()) && DoneUses(m, St(), {})
        invariant worklist == [] && Scanned(m, St(), false, scanned)
        invariant !discovered ==> scanned == taintedPointers
        invariant !discovered ==> ReturnsSettled(m, St(), functionsReturningTaint)
        invariant !discovered ==> ParamsSettled(m, St(), functionsTaintingPointerParams)
        invariant 0 <= Missing(m, St())
        invariant rounds + Missing(m, St()) + (if discovered then 1 else 0) <= 1 + Missing(m, old(St()))
        decreases Missing(m, St()), discovered
      {
        ghost var s := St();
        rounds := rounds + 1;
        discovered, scanned := UpwardRound(scanned);
        GrowsTransitive(cfg, old(St()), s, St());
        assert Shape(m, St()) by { InvParts(m, cfg, Upward, St()); }
        MissingShrinks(m, cfg, s, St(), discovered);
      }
      UpwardAtRest(m, cfg, St());
    }

    /** The whole pass. `first` is the state when the worklist is first empty, `heeded` the
        stores that overwrite taint then, and `rested` the state after the main phase. */
    method Run() returns (ghost first: State, ghost heeded: set<Value>, ghost rested: State,
                          ghost mainRounds: nat, ghost upwardRounds: nat)
      requires WellFormed(m) && ConfigOk(m, cfg) && St() == EMPTY
      modifies this
      // before any load is scanned, the tables hold what derives without loads
      ensures FirstDrained(m, cfg, first, heeded) && Grows(cfg, first, rested)
      ensures forall x :: Holds(first, x) <==> Derivable(m, cfg, false, map[], {}, x)
      // the main phase lies between the two least fixed points, and misses no kill
      ensures Inv(m, cfg, Scanning(heeded), rested) && MainClosed(m, cfg, rested)
      ensures KillsRecorded(m, rested) && heeded <= rested.killed
      ensures forall x :: Derivable(m, cfg, false, rested.origin, rested.killed, x) ==> Holds(rested, x)
      ensures forall x :: Holds(rested, x) ==> Derivable(m, cfg, false, rested.origin, heeded, x)
      ensures (forall x :: Holds(rested, x) <==> Derivable(m, cfg, false, rested.origin, {}, x)) <==>
        NoLoadLost(m, rested)
      // every conclusion of the pass has a derivation from a seed, and every seed is kept
      ensures Inv(m, cfg, Upward, St()) && Grows(cfg, rested, St())
      ensures forall x :: Holds(St(), x) ==> Derivable(m, cfg, true, pointerTaintOrigin, {}, x)
      ensures forall x :: IsSeed(m, cfg, x) ==> Holds(St(), x)
      // every origin is what tainted its pointer, and every recorded field was stored through
      ensures Marks(m, cfg, St()) && FieldsUsed(m, cfg, St())
      // every tainted value was taken off the worklist, once
      ensures worklist == [] && done == taintedValues && pops == |taintedValues|
      // every use is dealt with; the upward phase settles loads and summaries too
      ensures forall v, u :: v in taintedValues && IsUser(m, u, v) ==> UseSettled(m, St(), v, u)
      ensures UpwardRuns(cfg, rested) ==> UpwardClosed(m, St())
      ensures !UpwardRuns(cfg, rested) ==> St() == rested
      ensures cfg.upward ==> ReturnsSettled(m, St(), functionsReturningTaint)
      ensures cfg.upward ==> ParamsSettled(m, St(), functionsTaintingPointerParams)
      // when the input admits no flow to module-wide memory, no module-wide pointer is tainted
      ensures NoneGlobal(m, cfg) ==> LevelPremise(cfg, St())
      // both phases end within these numbers of rounds
      ensures mainRounds <= 1 + |Locals(m)| + |Universe(m)|
      ensures upwardRounds <= 1 + Missing(m, rested)
    {
      hide WellFormed, ConfigOk, Inv, Holds, IsSeed, Grows, DoneMain, DoneUses, MainClosed, UpwardClosed, UseSettled,
           Derivable, Missing, ReturnsSettled, ParamsSettled, Locals, Universe, NoLoadLost, NoneGlobal, LevelPremise,
           KillsRecorded, Overwrites, Marks, FieldsUsed, LevelSources;
      upwardRounds := 0;
      Seed();
      ghost var seeded := St();
      mainRounds, first, heeded := MainPhase();
      RoundsFromScratch(m, seeded);
      rested := St();
      SeedsKept(m, cfg, seeded, first);
      DrainedIsExact(m, cfg, first);
      SeedsKept(m, cfg, seeded, rested);
      MainSandwich(m, cfg, heeded, rested);
      MainExact(m, cfg, heeded, rested);
      InvForUpward(m, cfg, Scanning(heeded), rested);
      DoneMainToUses(m, cfg, rested);
      if cfg.upward && (functionsReturningTaint != {} || functionsTaintingPointerParams != map[]) {
        upwardRounds := UpwardPhase();
        SeedsKept(m, cfg, rested, St());
        assert UpwardClosed(m, St());
      } else {
        GrowsReflexive(cfg, rested);
        UsesAtRest(m, cfg, rested);
        if cfg.upward { NoSummaries(m, rested); }
        assert 0 <= Missing(m, rested) by { MissingNatural(m, cfg, rested); }
      }
      UpwardClosedParts(m, St());
      AllPopped(m, cfg, St());
      InvParts(m, cfg, Upward, St());
      if NoneGlobal(m, cfg) {
        NoGlobalPointer(m, cfg, if cfg.upward then Upward else Scanning(heeded), St());
      }
    }

    /** The pass with its final report. */
    method RunAndReport() returns (r: Report)
      requires WellFormed(m) && ConfigOk(m, cfg) && St() == EMPTY
      modifies this
      ensures Inv(m, cfg, Upward, St()) && ReportOk(m, taintedValues, valueLevel, r)
      // when no module-wide pointer is tainted, levels are heights and go back to a source
      ensures NoneGlobal(m, cfg) ==> LevelPremise(cfg, St())
      ensures LevelPremise(cfg, St()) ==> 
        HeightsOk(m, cfg, St()) && LevelSources(m, cfg, Upward, St()) && ReportedHeight(m, cfg, r)
      // and, without downward propagation, call depths; a report is missing only without taint
      ensures LevelPremise(cfg, St()) && !cfg.interproc ==>
        && DepthsOk(m, cfg, St()) && ReportedDepth(m, cfg, r)
        && (r.NoLevel? <==> taintedValues == {})
    {
      hide WellFormed, ConfigOk, Inv, UpwardClosed, MainClosed, Derivable, Locals, Universe, Grows, UseSettled, Holds,
           ReturnsSettled, ParamsSettled, LevelPremise, UpwardRuns, IsSeed, Missing, NoneGlobal, ReportOk,
           HeightsOk, DepthsOk, ReportedHeight, ReportedDepth, KillsRecorded, Overwrites, FirstDrained, Marks,
           FieldsUsed, LevelSources, NoLoadLost;
      var first, heeded, rested, mainRounds, upwardRounds := Run();
      InvParts(m, cfg, Upward, St());
      TaintedAreLocal(m, cfg, St());
      r := FinalReport(m, taintedValues, valueLevel);
      if LevelPremise(cfg, St()) {
        LevelsAreHeights(m, cfg, Upward, St());
        ReportedLevels(m, cfg, St(), r);
        if !cfg.interproc {
          LevelsAreCallDepths(m, cfg, Upward, St());
          ReportedDepths(m, cfg, St(), r);
        }
      }
    }
  }
}
