/** What the tables say when the two phases have come to rest. */
module Closure {
  import opened Options
  import opened IR
  import opened PointerOrigin
  import opened FlowRules
  import opened TaintState
  import opened Invariants
  import opened Updates
  import opened MainSteps
  import opened ScanSteps
  import opened UpwardSteps
  import opened Reachability

  // ----- progress of the main phase -----

  /** Every user of every processed value, except `but`, has been dealt with. */
  ghost predicate DoneMain(m: Module, cfg: Config, s: State, but: set<Value>) {
    forall v, u :: v in s.done && v !in but && IsUser(m, u, v) ==> UserSettled(m, cfg, s, v, u)
  }

  lemma DoneMainGrows(m: Module, cfg: Config, s: State, t: State, but: set<Value>)
    requires DoneMain(m, cfg, s, but) && Grows(cfg, s, t) && t.done == s.done
    ensures DoneMain(m, cfg, t, but)
  {
    hide Grows, UserSettled;
    forall v, u | v in t.done && v !in but && IsUser(m, u, v) ensures UserSettled(m, cfg, t, v, u) {
      UserSettledGrows(m, cfg, s, t, v, u);
    }
  }

  lemma DoneMainPop(m: Module, cfg: Config, s: State)
    requires s.work != [] && DoneMain(m, cfg, s, {})
    ensures DoneMain(m, cfg, Pop(s), {s.work[|s.work| - 1]})
  {
    hide UserSettled;
    var t := Pop(s);
    forall v, u | v in t.done && v != s.work[|s.work| - 1] && IsUser(m, u, v) ensures UserSettled(m, cfg, t, v, u) {
      assert UserSettled(m, cfg, s, v, u);
      SettledByFacts(m, cfg, s, t, v, u);
    }
  }

  lemma SettledByFacts(m: Module, cfg: Config, s: State, t: State, v: Value, u: Value)
    requires UserSettled(m, cfg, s, v, u) && forall x :: Holds(s, x) ==> Holds(t, x)
    ensures UserSettled(m, cfg, t, v, u)
  {
    hide MainUse;
  }

  /** The loads of every scanned pointer are settled. */
  ghost predicate Scanned(m: Module, s: State, heed: bool, ps: set<Value>) {
    && ps <= s.pointers
    && forall p, l :: p in ps && IsInst(m, l) ==> LoadSettled(m, s, heed, p, l)
  }

  lemma ScannedGrows(m: Module, cfg: Config, s: State, t: State, heed: bool, ps: set<Value>)
    requires Scanned(m, s, heed, ps) && Grows(cfg, s, t)
    ensures Scanned(m, t, heed, ps)
  {
    hide LoadSettled;
    forall p, l | p in ps && IsInst(m, l) ensures LoadSettled(m, t, heed, p, l) {
      LoadSettledGrows(m, cfg, s, t, heed, p, l);
    }
  }

  lemma PopKeeps(m: Module, cfg: Config, ph: Phase, s: State)
    requires Inv(m, cfg, ph, s) && s.work != []
    ensures var t := Pop(s); Inv(m, cfg, ph, t) && Grows(cfg, s, t) && s.work[|s.work| - 1] in t.tainted
  {
    hide Origins, Derives, Accounted, LevelFacts, Locals, Universe, ParamsOf, IsPtrArg, LevelPremise, Traced;
    var t := Pop(s);
    var v := s.work[|s.work| - 1];
    PopShape(m, s);
    hide Shape;
    forall x | Holds(t, x) ensures Derives(m, cfg, ph, t, x) {
      assert Holds(s, x);
      DerivesGrows(m, cfg, ph, s, t, x);
    }
    SameButQueue(m, cfg, s, t);
    assert v in s.work;
    PopTraced(m, cfg, ph, s);
  }

  lemma PopTraced(m: Module, cfg: Config, ph: Phase, s: State)
    requires s.work != [] && Traced(m, cfg, ph, s)
    ensures Traced(m, cfg, ph, Pop(s))
  {
    hide Traced, LevelFrom, MarkedBy, FieldUsed, FunctionLevelFrom, LoadAwaits, FieldsOf;
    TracedStep(m, cfg, ph, s, Pop(s));
  }

  /** The worklist is a stack: what was pushed last is taken off first. */
  lemma LastInFirstOut(s: State, u: Value, l: int)
    ensures Pop(Taint(s, u, l)) == Taint(s, u, l).(work := s.work, done := s.done + {u}, pops := s.pops + 1)
  {
  }

  lemma PopShape(m: Module, s: State)
    requires Shape(m, s) && s.work != []
    ensures Shape(m, Pop(s)) && s.work[|s.work| - 1] in s.tainted && s.work[|s.work| - 1] !in s.done
  {
    hide Locals, Universe, ParamsOf, IsPtrArg;
    var t := Pop(s);
    var v := s.work[|s.work| - 1];
    assert s.work == t.work + [v];
  }

  lemma SameButQueue(m: Module, cfg: Config, s: State, t: State)
    requires t == s.(work := t.work, done := t.done, pops := t.pops)
    requires Origins(m, s) && AllAccounted(m, s) && Levels(m, cfg, s)
    ensures Origins(m, t) && AllAccounted(m, t) && Levels(m, cfg, t)
  {
    hide KillOk, Height, ParamsOf, IsInst;
    forall u | u in t.tainted ensures Accounted(m, t, u) {
      assert Accounted(m, s, u);
      hide OriginOf, Strip;
    }
  }

  // ----- the main phase at rest -----

  /** Closed under the main-phase rules, with loads excused by origins and kills. */
  ghost predicate MainClosed(m: Module, cfg: Config, s: State) {
    forall x, y :: Holds(s, x) && Flows(m, cfg, false, s.origin, s.killed, x, y) ==> Holds(s, y)
  }

  lemma MainAtRest(m: Module, cfg: Config, ph: Phase, s: State)
    requires Inv(m, cfg, ph, s) && s.work == []
    requires DoneMain(m, cfg, s, {}) && Scanned(m, s, true, s.pointers)
    ensures MainClosed(m, cfg, s)
  {
    forall x, y | Holds(s, x) && Flows(m, cfg, false, s.origin, s.killed, x, y) ensures Holds(s, y) {
      hide Sourced, AllAccounted, Levels, MainUse;
      match x
      case Val(v) =>
        var u :| IsUser(m, u, v) && MainUse(m, cfg, v, u, y);
        assert v in s.done;
        assert UserSettled(m, cfg, s, v, u);
      case Ptr(p) =>
        assert LoadSettled(m, s, true, p, y.v);
      case _ =>
    }
  }

  lemma DrainedIsClosed(m: Module, cfg: Config, s: State, x: Fact, y: Fact)
    requires Shape(m, s) && s.work == [] && DoneMain(m, cfg, s, {})
    requires Holds(s, x) && Flows(m, cfg, false, map[], {}, x, y)
    ensures Holds(s, y)
  {
    hide MainUse, LoadMatches, Locals, Universe, IsUser;
    if x.Val? {
      var u :| IsUser(m, u, x.v) && MainUse(m, cfg, x.v, u, y);
      assert UserSettled(m, cfg, s, x.v, u);
    }
  }

  /** Until the first scan the tables hold exactly what derives without any load. */
  lemma DrainedIsExact(m: Module, cfg: Config, s: State)
    requires Inv(m, cfg, Draining, s) && s.work == [] && DoneMain(m, cfg, s, {})
    requires forall x :: IsSeed(m, cfg, x) ==> Holds(s, x)
    ensures forall x :: Holds(s, x) <==> Derivable(m, cfg, false, map[], {}, x)
  {
    hide Shape, Origins, AllAccounted, Levels, Traced, DoneMain, IsSeed, Flows;
    forall x, y | Holds(s, x) && Flows(m, cfg, false, map[], {}, x, y) ensures Holds(s, y) {
      DrainedIsClosed(m, cfg, s, x, y);
    }
    forall x | Derivable(m, cfg, false, map[], {}, x) ensures Holds(s, x) {
      ReachedIsLeast(Rules(m, cfg, false, map[], {}), Seeds(m, cfg), y => Holds(s, y), x);
    }
    forall x | Holds(s, x) ensures Derivable(m, cfg, false, map[], {}, x) {
      assert Derives(m, cfg, Draining, s, x);
    }
  }

  /** Store `k` overwrites the taint in a tainted pointer: it puts an untainted value there, is
      not tainted itself, and does not stand before what tainted the pointer in one block. */
  ghost predicate Overwrites(m: Module, s: State, k: Value) {
    && IsInst(m, k) && At(m, k).Store?
    && k !in s.tainted && At(m, k).val !in s.tainted
    && exists p :: p in s.origin && p == Strip(m, At(m, k).ptr) && !(SameBlock(k, s.origin[p]) && k.k < s.origin[p].k)
  }

  lemma KillsOverwrite(m: Module, s: State)
    requires Origins(m, s)
    ensures forall k :: Kills(m, s, k) <==> Overwrites(m, s, k)
  {
    hide KillOk, IsInst;
  }

  /** Every store that overwrites taint is recorded. */
  ghost predicate KillsRecorded(m: Module, s: State) {
    forall k :: Overwrites(m, s, k) ==> k in s.killed
  }

  /** What derives without loads derives with any. */
  lemma NoLoadsDerive(m: Module, cfg: Config, origin: map<Value, Value>, killed: set<Value>, x: Fact)
    requires Derivable(m, cfg, false, map[], {}, x)
    ensures Derivable(m, cfg, false, origin, killed, x)
  {
    forall a, b | Rules(m, cfg, false, map[], {})(a, b) ensures Rules(m, cfg, false, origin, killed)(a, b) {
      hide MainUse;
    }
    ReachedMonotone(Rules(m, cfg, false, map[], {}), Seeds(m, cfg), Rules(m, cfg, false, origin, killed),
      Seeds(m, cfg), x);
  }

  /** The first scan heeds the kills recorded so far. */
  lemma ScanningBegins(m: Module, cfg: Config, s: State)
    requires Inv(m, cfg, Draining, s)
    ensures Inv(m, cfg, Scanning(s.killed), s)
  {
    hide Shape, Origins, AllAccounted, Levels, Marks, FieldsUsed, Derivable, FunctionLevelFrom, LoadAwaits;
    forall x | Holds(s, x) ensures Derives(m, cfg, Scanning(s.killed), s, x) {
      assert Derives(m, cfg, Draining, s, x);
      NoLoadsDerive(m, cfg, s.origin, s.killed, x);
    }
  }

  /** `first` is the state when the worklist is first empty, and `heeded` are the stores that
      overwrite taint then. */
  ghost predicate FirstDrained(m: Module, cfg: Config, first: State, heeded: set<Value>) {
    && Inv(m, cfg, Draining, first) && first.work == [] && DoneMain(m, cfg, first, {})
    && forall k :: k in heeded <==> Overwrites(m, first, k)
  }

  /** The main phase at rest lies between two least fixed points of its rules: the one with
      loads excused by origins and all recorded kills, and the one with loads excused by
      origins and the kills heeded from the first scan on. */
  lemma MainSandwich(m: Module, cfg: Config, heeded: set<Value>, s: State)
    requires Inv(m, cfg, Scanning(heeded), s) && MainClosed(m, cfg, s)
    requires forall x :: IsSeed(m, cfg, x) ==> Holds(s, x)
    ensures heeded <= s.killed
    ensures forall x :: Derivable(m, cfg, false, s.origin, s.killed, x) ==> Holds(s, x)
    ensures forall x :: Holds(s, x) ==> Derivable(m, cfg, false, s.origin, heeded, x)
  {
    hide Shape, Origins, AllAccounted, Levels, Traced, IsSeed, Flows;
    forall x | Holds(s, x) ensures Derivable(m, cfg, false, s.origin, heeded, x) {
      assert Derives(m, cfg, Scanning(heeded), s, x);
    }
    forall x | Derivable(m, cfg, false, s.origin, s.killed, x) ensures Holds(s, x) {
      ReachedIsLeast(Rules(m, cfg, false, s.origin, s.killed), Seeds(m, cfg), y => Holds(s, y), x);
    }
  }

  /** Load `l` of tainted pointer `p` stays untainted only because of a kill. */
  ghost predicate LostToKill(m: Module, s: State, p: Value, l: Value) {
    && p in s.pointers && LoadMatches(m, p, l) && l !in s.tainted
    && !PrecedesOrigin(s.origin, p, l) && AfterKill(m, s.killed, p, l)
  }

  ghost predicate NoLoadLost(m: Module, s: State) {
    forall p, l :: !LostToKill(m, s, p, l)
  }

  /** The main phase reaches the least fixed point with loads excused by origins alone
      exactly when no load was lost to a kill. */
  lemma MainExact(m: Module, cfg: Config, heeded: set<Value>, s: State)
    requires Inv(m, cfg, Scanning(heeded), s) && MainClosed(m, cfg, s)
    requires forall x :: IsSeed(m, cfg, x) ==> Holds(s, x)
    ensures (forall x :: Holds(s, x) <==> Derivable(m, cfg, false, s.origin, {}, x)) <==> NoLoadLost(m, s)
  {
    hide Shape, AllAccounted, Levels, Traced, IsSeed, Derivable, AfterKill, LoadMatches, PrecedesOrigin;
    forall x | Holds(s, x) ensures Derivable(m, cfg, false, s.origin, {}, x) {
      assert Derives(m, cfg, Scanning(heeded), s, x);
      DerivableMonotone(m, cfg, false, s.origin, heeded, false, s.origin, {}, x);
    }
    if NoLoadLost(m, s) {
      forall x, y | Holds(s, x) && Flows(m, cfg, false, s.origin, {}, x, y) ensures Holds(s, y) {
        if x.Ptr? { assert !LostToKill(m, s, x.p, y.v); }
        assert Flows(m, cfg, false, s.origin, s.killed, x, y) || (x.Ptr? && y.v in s.tainted);
      }
      forall x | Derivable(m, cfg, false, s.origin, {}, x) ensures Holds(s, x) {
        hide Flows;
        DerivableClosed(m, cfg, s, x);
      }
    } else {
      var p, l :| LostToKill(m, s, p, l);
      assert Holds(s, Ptr(p)) && !Holds(s, Val(l));
      NoKills(m, p, l);
      StepDerivable(m, cfg, false, s.origin, {}, Ptr(p), Val(l));
    }
  }

  lemma NoKills(m: Module, p: Value, l: Value)
    ensures !AfterKill(m, {}, p, l)
  {
  }

  lemma DerivableClosed(m: Module, cfg: Config, s: State, x: Fact)
    requires forall y :: IsSeed(m, cfg, y) ==> Holds(s, y)
    requires forall y, z :: Holds(s, y) && Flows(m, cfg, false, s.origin, {}, y, z) ==> Holds(s, z)
    requires Derivable(m, cfg, false, s.origin, {}, x)
    ensures Holds(s, x)
  {
    hide IsSeed, Flows;
    ReachedIsLeast(Rules(m, cfg, false, s.origin, {}), Seeds(m, cfg), y => Holds(s, y), x);
  }

  // ----- progress of the upward phase -----

  ghost predicate DoneUses(m: Module, s: State, but: set<Value>) {
    forall v, u :: v in s.done && v !in but && IsUser(m, u, v) ==> UseSettled(m, s, v, u)
  }

  lemma DoneUsesGrows(m: Module, cfg: Config, s: State, t: State, but: set<Value>)
    requires DoneUses(m, s, but) && Grows(cfg, s, t) && t.done == s.done
    ensures DoneUses(m, t, but)
  {
    hide Grows, UseSettled;
    forall v, u | v in t.done && v !in but && IsUser(m, u, v) ensures UseSettled(m, t, v, u) {
      UseSettledGrows(m, cfg, s, t, v, u);
    }
  }

  lemma DoneUsesPop(m: Module, s: State)
    requires s.work != [] && DoneUses(m, s, {})
    ensures DoneUses(m, Pop(s), {s.work[|s.work| - 1]})
  {
    hide OriginOf, Strip;
    var t := Pop(s);
    forall v, u | v in t.done && v != s.work[|s.work| - 1] && IsUser(m, u, v) ensures UseSettled(m, t, v, u) {
      assert UseSettled(m, s, v, u);
    }
  }

  lemma DoneUsesClose(m: Module, s: State, v: Value)
    requires DoneUses(m, s, {v}) && forall u :: IsUser(m, u, v) ==> u in s.tainted
    ensures DoneUses(m, s, {})
  {
  }

  lemma DoneMainToUses(m: Module, cfg: Config, s: State)
    requires WellFormed(m) && DoneMain(m, cfg, s, {})
    ensures DoneUses(m, s, {})
  {
    hide WellFormed, UserSettled, UseSettled;
    forall v, u | v in s.done && IsUser(m, u, v) ensures UseSettled(m, s, v, u) {
      MainSettlesUse(m, cfg, s, v, u);
    }
  }

  ghost predicate ReturnsSettled(m: Module, s: State, fs: set<nat>) {
    forall f, c :: f in fs && DirectCall(m, c, f) ==> c in s.tainted
  }

  ghost predicate ParamsSettled(m: Module, s: State, params: map<nat, set<nat>>) {
    forall f, n, c :: n in ParamsOf(params, f) && DirectCall(m, c, f) ==> CallSettled(m, s, f, n, c)
  }

  lemma ParamsSettledGrows(m: Module, cfg: Config, s: State, t: State, params: map<nat, set<nat>>)
    requires ParamsSettled(m, s, params) && Grows(cfg, s, t)
    ensures ParamsSettled(m, t, params)
  {
    hide CallSettled, Grows;
    forall f, n, c | n in ParamsOf(params, f) && DirectCall(m, c, f) ensures CallSettled(m, t, f, n, c) {
      CallSettledGrows(m, cfg, s, t, f, n, c);
    }
  }

  // ----- the whole pass at rest -----

  /** The upward phase at rest: every use is dealt with, every matching load is tainted
      unless it stands before the pointer's origin in its block, every direct call of a
      function that returns taint is tainted, and every direct call of a function that
      taints a pointer parameter is accounted for. */
  ghost predicate UpwardClosed(m: Module, s: State) {
    && (forall v, u :: v in s.tainted && IsUser(m, u, v) ==> UseSettled(m, s, v, u))
    && (forall p, l :: p in s.pointers && IsInst(m, l) ==> LoadSettled(m, s, false, p, l))
    && ReturnsSettled(m, s, s.returning)
    && ParamsSettled(m, s, s.params)
  }

  lemma UpwardAtRest(m: Module, cfg: Config, s: State)
    requires Inv(m, cfg, Upward, s) && s.work == []
    requires DoneUses(m, s, {}) && Scanned(m, s, false, s.pointers)
    requires ReturnsSettled(m, s, s.returning) && ParamsSettled(m, s, s.params)
    ensures UpwardClosed(m, s)
  {
    hide UseSettled, LoadSettled, ReturnsSettled, ParamsSettled, Sourced, AllAccounted, Levels, Origins, Traced;
    forall v, u | v in s.tainted && IsUser(m, u, v) ensures UseSettled(m, s, v, u) {
      assert v in s.done;
    }
  }

  /** A store of a tainted value landed, unless its address is tainted too. */
  lemma StoresLand(m: Module, cfg: Config, s: State, v: Value, u: Value)
    requires WellFormed(m) && Inv(m, cfg, Upward, s) && UpwardClosed(m, s)
    requires v in s.tainted && IsUser(m, u, v) && At(m, u).Store? && At(m, u).val == v
    ensures StoreLanded(m, s, u) || At(m, u).ptr in s.tainted
  {
    hide WellFormed, Sourced, Levels, Origins, Traced, StoreLanded, ReturnsSettled, ParamsSettled, LoadSettled;
    InstsAre(m, v);
    assert UseSettled(m, s, v, u);
    if u in s.tainted {
      assert Accounted(m, s, u);
    } else {
      assert StoreLanded(m, s, u) by { SettledStoreLanded(m, s, v, u); }
    }
  }

  lemma SettledStoreLanded(m: Module, s: State, v: Value, u: Value)
    requires UseSettled(m, s, v, u) && u !in s.tainted && At(m, u).Store? && At(m, u).val == v
    ensures StoreLanded(m, s, u)
  {
  }

  /** The rules that hold to the end: those of the main phase without downward propagation
      and without stores through the addresses in `skip`, and the two summaries. */
  ghost predicate CoreFlows(m: Module, cfg: Config, origin: map<Value, Value>, skip: set<Value>, x: Fact, y: Fact) {
    match x
    case Val(v) => exists u :: IsUser(m, u, v) && CoreUse(m, v, u, skip, y)
    case Ptr(p) => y.Val? && LoadFlow(m, origin, {}, p, y.v)
    case Returns(f) => y.Val? && DirectCall(m, y.v, f)
    case Param(g, n) => exists c :: ParamFlow(m, g, n, c, y) && (y.Ptr? ==> Pointed(m, At(m, c).args[n]) == Some(y.p))
  }

  ghost predicate CoreUse(m: Module, v: Value, u: Value, skip: set<Value>, y: Fact) {
    var i := At(m, u);
    match y
    case Val(w) => w == u && PassesOn(m, v, u)
    case Ptr(p) =>
      && i.Store? && i.val == v && i.ptr !in skip
      && !p.Global? && OriginOf(m, i.ptr).None? && p == Strip(m, i.ptr)
    case Returns(f) => i.Ret? && f == u.f
    case Param(g, n) =>
      && i.Store? && i.val == v && i.ptr !in skip
      && !Strip(m, i.ptr).Global? && g == u.f && OriginOf(m, i.ptr) == Some(Arg(g, n))
  }

  ghost function CoreRules(m: Module, cfg: Config, origin: map<Value, Value>, skip: set<Value>): (Fact, Fact) -> bool {
    (x, y) => CoreFlows(m, cfg, origin, skip, x, y)
  }

  lemma CoreUseHolds(m: Module, cfg: Config, s: State, v: Value, u: Value, y: Fact)
    requires WellFormed(m) && Inv(m, cfg, Upward, s) && UpwardClosed(m, s)
    requires v in s.tainted && IsUser(m, u, v) && CoreUse(m, v, u, s.tainted, y)
    ensures Holds(s, y)
  {
    hide WellFormed, Sourced, Levels, Origins, Traced, ReturnsSettled, ParamsSettled, LoadSettled, Locals, Universe;
    var i := At(m, u);
    assert UseSettled(m, s, v, u);
    if y.Ptr? || y.Param? {
      StoresLand(m, cfg, s, v, u);
    } else if u in s.tainted {
      assert Accounted(m, s, u);
    }
  }

  /** At rest, the pass has everything the core rules derive when loads are excused by
      origins alone and stores by a tainted address; and everything it has, the full rules
      derive. */
  lemma WholePassSandwich(m: Module, cfg: Config, s: State)
    requires WellFormed(m) && Inv(m, cfg, Upward, s) && UpwardClosed(m, s)
    requires forall x :: IsSeed(m, cfg, x) ==> Holds(s, x)
    ensures forall x :: Reached(CoreRules(m, cfg, s.origin, s.tainted), Seeds(m, cfg), x) ==> Holds(s, x)
    ensures forall x :: Holds(s, x) ==> Derivable(m, cfg, true, s.origin, {}, x)
  {
    hide WellFormed, Inv, Derivable, IsSeed, UpwardClosed, CoreFlows;
    assert Sourced(m, cfg, Upward, s) by { InvParts(m, cfg, Upward, s); }
    forall x | Holds(s, x) ensures Derivable(m, cfg, true, s.origin, {}, x) { assert Derives(m, cfg, Upward, s, x); }
    forall x, y | Holds(s, x) && CoreFlows(m, cfg, s.origin, s.tainted, x, y) ensures Holds(s, y) {
      CoreStepHolds(m, cfg, s, x, y);
    }
    forall x | Reached(CoreRules(m, cfg, s.origin, s.tainted), Seeds(m, cfg), x) ensures Holds(s, x) {
      ReachedIsLeast(CoreRules(m, cfg, s.origin, s.tainted), Seeds(m, cfg), y => Holds(s, y), x);
    }
  }

  lemma CoreStepHolds(m: Module, cfg: Config, s: State, x: Fact, y: Fact)
    requires WellFormed(m) && Inv(m, cfg, Upward, s) && UpwardClosed(m, s)
    requires Holds(s, x) && CoreFlows(m, cfg, s.origin, s.tainted, x, y)
    ensures Holds(s, y)
  {
    hide WellFormed, Inv, CoreUse, LoadFlow, UpwardClosed;
    match x
    case Val(v) =>
      var u :| IsUser(m, u, v) && CoreUse(m, v, u, s.tainted, y);
      CoreUseHolds(m, cfg, s, v, u, y);
    case Ptr(p) => LoadHolds(m, s, p, y.v);
    case Returns(f) => ReturnHolds(m, s, f, y.v);
    case Param(g, n) =>
      var c :| ParamFlow(m, g, n, c, y) && (y.Ptr? ==> Pointed(m, At(m, c).args[n]) == Some(y.p));
      ParamHolds(m, s, g, n, c, y);
  }

  lemma LoadHolds(m: Module, s: State, p: Value, l: Value)
    requires UpwardClosed(m, s) && p in s.pointers && LoadFlow(m, s.origin, {}, p, l)
    ensures l in s.tainted
  {
    assert LoadSettled(m, s, false, p, l);
  }

  lemma ReturnHolds(m: Module, s: State, f: nat, c: Value)
    requires UpwardClosed(m, s) && f in s.returning && DirectCall(m, c, f)
    ensures c in s.tainted
  {
  }

  lemma ParamHolds(m: Module, s: State, f: nat, n: nat, c: Value, y: Fact)
    requires UpwardClosed(m, s) && n in ParamsOf(s.params, f) && ParamFlow(m, f, n, c, y)
    requires y.Ptr? ==> Pointed(m, At(m, c).args[n]) == Some(y.p)
    ensures Holds(s, y)
  {
    assert CallSettled(m, s, f, n, c);
  }

  // ----- levels at rest -----

  lemma FunctionsCounted(n: nat, fs: set<nat>)
    requires forall f :: f in fs ==> f < n
    ensures |fs| <= n
    decreases n
  {
    if n > 0 {
      FunctionsCounted(n - 1, fs - {n - 1});
      assert |fs| <= |fs - {n - 1}| + 1;
    } else {
      assert fs == {};
    }
  }

  /** Every recorded level is a height: a walk in the call graph leads from the source
      function to that function with as many more steps up to callers than down into
      callees. Every tainted value has a level. */
  ghost predicate HeightsOk(m: Module, cfg: Config, s: State) {
    && (forall f :: f in s.funcLevel ==> Height(m, cfg, f, s.funcLevel[f]))
    && (forall v :: v in s.tainted ==>
          IsLocal(v) && v in s.valueLevel && Height(m, cfg, FnOf(v), s.valueLevel[v]))
  }

  /** Every recorded level is a call depth: there is a chain of exactly that many direct
      calls down to the source function, and no level exceeds the number of functions. */
  ghost predicate DepthsOk(m: Module, cfg: Config, s: State) {
    && (forall f :: f in s.funcLevel ==>
          0 <= s.funcLevel[f] < |m.funcs| && CallDepth(m, cfg, f, s.funcLevel[f]))
    && (forall v :: v in s.tainted ==>
          && IsLocal(v) && v in s.valueLevel && 0 <= s.valueLevel[v] <= |m.funcs|
          && CallDepth(m, cfg, FnOf(v), s.valueLevel[v]))
  }

  /** Levels are heights when nothing flows through module-wide memory. */
  lemma LevelsAreHeights(m: Module, cfg: Config, ph: Phase, s: State)
    requires Inv(m, cfg, ph, s) && LevelPremise(cfg, s)
    ensures HeightsOk(m, cfg, s)
  {
    hide Shape, Origins, Sourced, AllAccounted, Traced, Height;
  }

  /** Without downward propagation they are call depths. */
  lemma LevelsAreCallDepths(m: Module, cfg: Config, ph: Phase, s: State)
    requires Inv(m, cfg, ph, s) && LevelPremise(cfg, s) && !cfg.interproc
    ensures DepthsOk(m, cfg, s)
  {
    hide Shape, Origins, Sourced, AllAccounted, Traced, CallDepth, Height;
    FunctionsCounted(|m.funcs|, s.funcLevel.Keys);
    assert |s.funcLevel.Keys| == |s.funcLevel|;
    forall f, l | Height(m, cfg, f, l) ensures CallDepth(m, cfg, f, l) { HeightIsDepth(m, cfg, f, l); }
  }

  // ----- how a run ends -----

  /** The upward phase runs when it is asked for and there is a summary to start from. */
  ghost predicate UpwardRuns(cfg: Config, s: State) {
    cfg.upward && (s.returning != {} || s.params != map[])
  }

  lemma SeedsKept(m: Module, cfg: Config, s: State, t: State)
    requires Grows(cfg, s, t) && forall x :: IsSeed(m, cfg, x) ==> Holds(s, x)
    ensures forall x :: IsSeed(m, cfg, x) ==> Holds(t, x)
  {
    hide Grows, IsSeed, Holds;
    forall x | IsSeed(m, cfg, x) ensures Holds(t, x) { GrowsHolds(cfg, s, t, x); }
  }

  lemma UsesAtRest(m: Module, cfg: Config, s: State)
    requires Inv(m, cfg, Upward, s) && s.work == [] && DoneUses(m, s, {})
    ensures forall v, u :: v in s.tainted && IsUser(m, u, v) ==> UseSettled(m, s, v, u)
  {
    hide UseSettled, Sourced, AllAccounted, Levels, Origins, Traced;
  }

  lemma NoSummaries(m: Module, s: State)
    requires s.returning == {} && s.params == map[]
    ensures ReturnsSettled(m, s, s.returning) && ParamsSettled(m, s, s.params)
  {
  }

  lemma UpwardClosedParts(m: Module, s: State)
    ensures UpwardClosed(m, s) ==>
      && (forall v, u :: v in s.tainted && IsUser(m, u, v) ==> UseSettled(m, s, v, u))
      && ReturnsSettled(m, s, s.returning) && ParamsSettled(m, s, s.params)
  {
    hide UseSettled, ReturnsSettled, ParamsSettled, LoadSettled;
  }

  lemma AllPopped(m: Module, cfg: Config, s: State)
    requires Inv(m, cfg, Upward, s) && s.work == []
    ensures s.done == s.tainted && s.pops == |s.tainted|
    ensures forall x :: Holds(s, x) ==> Derivable(m, cfg, true, s.origin, {}, x)
  {
    hide Derivable, AllAccounted, Levels, Origins, Traced;
    forall x | Holds(s, x) ensures Derivable(m, cfg, true, s.origin, {}, x) { assert Derives(m, cfg, Upward, s, x); }
  }
}
