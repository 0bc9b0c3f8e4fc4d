/** Measures of progress: what a step adds, and how much can still be added. */
module Progress {
  import opened IR
  import opened FlowRules
  import opened TaintState
  import opened Invariants
  import opened Updates
  import opened ScanSteps
  import opened Closure

  /** Something new was concluded: a value or a pointer. */
  ghost predicate Larger(s: State, t: State) {
    s.tainted < t.tainted || s.pointers < t.pointers
  }

  /** A summary entry was added. */
  ghost predicate NewSummary(s: State, t: State) {
    || s.returning < t.returning
    || exists f, n :: n in ParamsOf(t.params, f) && n !in ParamsOf(s.params, f)
  }

  ghost predicate SameSummary(s: State, t: State) {
    s.returning == t.returning && s.params == t.params
  }

  /** What a step's answer means: a new summary entry, or none. */
  ghost predicate Discovered(found: bool, s: State, t: State) {
    if found then NewSummary(s, t) else SameSummary(s, t)
  }

  lemma NothingDiscovered(s: State)
    ensures Discovered(false, s, s)
  {
  }

  lemma AllScanned<T>(scanned: set<T>, all: set<T>, rest: seq<T>)
    requires scanned <= all && rest == [] && forall x :: x in rest <==> x in all && x !in scanned
    ensures scanned == all
  {
    forall x | x in all ensures x in scanned { assert x !in rest; }
  }

  lemma ScanDiscoversNothing(s: State, t: State)
    requires ScanOnly(s, t)
    ensures Discovered(false, s, t)
  {
  }

  lemma TaintingDiscoversNothing(s: State, t: State)
    requires s.returning == t.returning && s.params == t.params
    ensures Discovered(false, s, t)
  {
  }

  /** Comparing table sizes never contradicts the steps' own answers. */
  lemma SizesTell(s: State, t: State, found: bool)
    requires Discovered(found, s, t) && (|t.returning| > |s.returning| || |t.params| > |s.params|)
    ensures found
  {
  }

  /** An iteration that added no entry has visited the call sites of all entries. */
  lemma SummariesAtRest(m: Module, cfg: Config, s1: State, s2: State, s3: State)
    requires Grows(cfg, s1, s2) && Grows(cfg, s2, s3)
    requires Discovered(false, s1, s2) && Discovered(false, s2, s3)
    requires ReturnsSettled(m, s1, s1.returning) && ParamsSettled(m, s2, s1.params)
    ensures ReturnsSettled(m, s3, s3.returning) && ParamsSettled(m, s3, s3.params)
  {
    ParamsSettledGrows(m, cfg, s2, s3, s1.params);
  }

  lemma DiscoveredChain(cfg: Config, s: State, t: State, u: State, d1: bool, d2: bool)
    requires Grows(cfg, s, t) && Grows(cfg, t, u) && Discovered(d1, s, t) && Discovered(d2, t, u)
    ensures Grows(cfg, s, u) && Discovered(d1 || d2, s, u)
  {
  }

  /** Values and pointers still to be concluded become fewer. */
  lemma MeasureShrinks(m: Module, s: State, t: State)
    requires s.tainted <= t.tainted <= Locals(m) && s.pointers <= t.pointers <= Universe(m)
    ensures |Locals(m) - t.tainted| <= |Locals(m) - s.tainted|
    ensures |Universe(m) - t.pointers| <= |Universe(m) - s.pointers|
    ensures Larger(s, t) ==>
      |Locals(m) - t.tainted| + |Universe(m) - t.pointers| < |Locals(m) - s.tainted| + |Universe(m) - s.pointers|
  {
    hide Locals, Universe;
    FewerLeft(Locals(m), s.tainted, t.tainted);
    FewerLeft(Universe(m), s.pointers, t.pointers);
  }

  /** How many values and pointers can still be concluded. */
  ghost function Open(m: Module, s: State): nat {
    |Locals(m) - s.tainted| + |Universe(m) - s.pointers|
  }

  lemma OpenShrinks(m: Module, cfg: Config, ph: Phase, s: State, t: State)
    requires Inv(m, cfg, ph, t) && Grows(cfg, s, t)
    ensures Open(m, t) <= Open(m, s) && (Larger(s, t) ==> Open(m, t) < Open(m, s))
  {
    hide Inv, Locals, Universe;
    assert t.tainted <= Locals(m) && t.pointers <= Universe(m) by { InvParts(m, cfg, ph, t); }
    MeasureShrinks(m, s, t);
  }

  /** Taking a value off the worklist leaves fewer values to be taken off. */
  lemma PopShrinks(m: Module, cfg: Config, ph: Phase, s: State)
    requires Inv(m, cfg, ph, s) && s.work != []
    ensures Locals(m) - Pop(s).done < Locals(m) - s.done
  {
    hide Inv, Locals;
    assert Shape(m, s) by { InvParts(m, cfg, ph, s); }
    var v := s.work[|s.work| - 1];
    assert v in s.work && v in Locals(m) - s.done;
  }

  lemma PopDiscoversNothing(s: State)
    requires s.work != []
    ensures Discovered(false, s, Pop(s))
  {
  }

  lemma LargerLater(cfg: Config, s: State, t: State, t1: State, u: State)
    requires Grows(cfg, s, t) && Grows(cfg, t, t1) && Grows(cfg, t1, u) && (Larger(s, t) || Larger(t1, u))
    ensures Larger(s, u)
  {
    hide Extends, ParamsOf;
  }

  lemma FewerLeft<T>(all: set<T>, a: set<T>, b: set<T>)
    requires a <= b <= all
    ensures |all - b| <= |all - a| && (a < b ==> |all - b| < |all - a|)
  {
    assert all - a == (all - b) + (b - a);
    assert (all - b) !! (b - a);
    if a < b {
      var x :| x in b && x !in a;
      assert x in b - a;
    }
  }

  // ----- summary entries still missing -----

  /** The pointer parameters of all functions; only these are ever recorded. */
  ghost function ParamSlots(m: Module): set<(nat, nat)> {
    set f: nat, n: nat | f < |m.funcs| && n < |m.funcs[f].params| && m.funcs[f].params[n] :: (f, n)
  }

  ghost function Recorded(s: State): set<(nat, nat)> {
    set f, n | f in s.params.Keys && n in s.params[f] :: (f, n)
  }

  /** Functions not known to return taint, plus pointer parameters not recorded. */
  ghost function Missing(m: Module, s: State): int {
    |m.funcs| - |s.returning| + |ParamSlots(m) - Recorded(s)|
  }

  lemma MissingShrinks(m: Module, cfg: Config, s: State, t: State, found: bool)
    requires Shape(m, t) && Grows(cfg, s, t) && Discovered(found, s, t)
    ensures 0 <= Missing(m, t) <= Missing(m, s) && (found ==> Missing(m, t) < Missing(m, s))
  {
    hide Locals, Universe, Extends, Recorded, ParamSlots, ParamsOf;
    RecordedAre(m, s, t);
    FunctionsCounted(|m.funcs|, t.returning);
    hide Shape;
    SubsetSizes(s.returning, t.returning);
    hide Grows;
    FewerLeft(ParamSlots(m), Recorded(s), Recorded(t));
    if found && !(s.returning < t.returning) {
      var f: nat, n: nat :| n in ParamsOf(t.params, f) && n !in ParamsOf(s.params, f);
      RecordedHas(s, f, n);
      RecordedHas(t, f, n);
    }
  }

  lemma RecordedHas(s: State, f: nat, n: nat)
    ensures (f, n) in Recorded(s) <==> n in ParamsOf(s.params, f)
  {
  }

  lemma SubsetSizes<T>(a: set<T>, b: set<T>)
    requires a <= b
    ensures |a| <= |b| && (a < b ==> |a| < |b|)
  {
    FewerLeft(b, {}, a);
    assert b - {} == b;
    assert |b| == |a| + |b - a|;
    if a < b {
      var x :| x in b && x !in a;
      assert x in b - a;
    }
  }

  lemma RecordedAre(m: Module, s: State, t: State)
    requires Shape(m, t) && forall f, n :: n in ParamsOf(s.params, f) ==> n in ParamsOf(t.params, f)
    ensures Recorded(s) <= Recorded(t) <= ParamSlots(m)
  {
    hide Locals, Universe;
    forall x | x in Recorded(s) ensures x in Recorded(t) {
      assert x.1 in ParamsOf(s.params, x.0);
    }
    forall x | x in Recorded(t) ensures x in ParamSlots(m) {
      assert x.1 in ParamsOf(t.params, x.0);
    }
  }

  lemma MissingNatural(m: Module, cfg: Config, s: State)
    requires Inv(m, cfg, Upward, s)
    ensures 0 <= Missing(m, s)
  {
    hide Inv;
    assert Shape(m, s) by { InvParts(m, cfg, Upward, s); }
    GrowsReflexive(cfg, s);
    NothingDiscovered(s);
    MissingShrinks(m, cfg, s, s, false);
  }

  lemma RoundsFromScratch(m: Module, s: State)
    ensures |Locals(m) - s.tainted| <= |Locals(m)| && |Universe(m) - s.pointers| <= |Universe(m)|
  {
    hide Locals, Universe;
    SubsetSizes(Locals(m) - s.tainted, Locals(m));
    SubsetSizes(Universe(m) - s.pointers, Universe(m));
  }
}
