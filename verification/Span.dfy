/** The safe span: the largest level among tainted values, the tightest interval of tainted
    instructions at that level in each function, and the instruction counts. */
module Span {
  import opened Options
  import opened IR
  import opened Orders

  const INT_MIN: int := -0x8000_0000

  type Ranges = map<nat, (Value, Value)>

  // ----- the largest level -----

  /** The level of `v` takes part: it is recorded and `v` is actually tainted. */
  predicate Counted(tainted: set<Value>, valueLevel: map<Value, int>, v: Value) {
    v in tainted && v in valueLevel
  }

  predicate AtLevel(tainted: set<Value>, valueLevel: map<Value, int>, level: int, v: Value) {
    Counted(tainted, valueLevel, v) && valueLevel[v] == level
  }

  method FindMaxLevel(tainted: set<Value>, valueLevel: map<Value, int>) returns (maxLevel: int)
    ensures maxLevel >= INT_MIN
    ensures forall v :: Counted(tainted, valueLevel, v) ==> valueLevel[v] <= maxLevel
    ensures maxLevel > INT_MIN ==> exists v :: AtLevel(tainted, valueLevel, maxLevel, v)
  {
    maxLevel := INT_MIN;
    var vs := AnySetOrder(valueLevel.Keys);
    for i := 0 to |vs|
      invariant maxLevel >= INT_MIN
      invariant forall j :: 0 <= j < i && Counted(tainted, valueLevel, vs[j]) ==> valueLevel[vs[j]] <= maxLevel
      invariant maxLevel > INT_MIN ==> exists v :: AtLevel(tainted, valueLevel, maxLevel, v)
    {
      var v := vs[i];
      assert v in vs;
      if v in tainted && valueLevel[v] > maxLevel {
        maxLevel := valueLevel[v];
        assert AtLevel(tainted, valueLevel, maxLevel, v);
      }
    }
    forall v | Counted(tainted, valueLevel, v) ensures valueLevel[v] <= maxLevel {
      assert v in vs;
    }
  }

  // ----- values at the largest level -----

  /** The functions that own a value satisfying the level. */
  ghost predicate Owns(tainted: set<Value>, valueLevel: map<Value, int>, level: int, f: nat, v: Value) {
    AtLevel(tainted, valueLevel, level, v) && IsLocal(v) && FnOf(v) == f
  }

  ghost function OwnedIn(tainted: set<Value>, valueLevel: map<Value, int>, level: int, f: nat,
                         vs: set<Value>): set<Value> {
    set v | v in vs && Owns(tainted, valueLevel, level, f, v)
  }

  /** `counts` counts, for each function, its values among `vs` at the level. */
  ghost predicate CountsAre(tainted: set<Value>, valueLevel: map<Value, int>, level: int, vs: set<Value>,
                            counts: map<nat, nat>) {
    && (forall f :: f in counts ==> counts[f] == |OwnedIn(tainted, valueLevel, level, f, vs)|)
    && (forall f :: f in counts <==> OwnedIn(tainted, valueLevel, level, f, vs) != {})
  }

  lemma CountMore(tainted: set<Value>, valueLevel: map<Value, int>, level: int, vs: set<Value>,
                  counts: map<nat, nat>, v: Value)
    requires CountsAre(tainted, valueLevel, level, vs, counts) && v !in vs
    ensures AtLevel(tainted, valueLevel, level, v) && IsLocal(v) ==>
      CountsAre(tainted, valueLevel, level, vs + {v},
        counts[FnOf(v) := (if FnOf(v) in counts then counts[FnOf(v)] else 0) + 1])
    ensures !(AtLevel(tainted, valueLevel, level, v) && IsLocal(v)) ==>
      CountsAre(tainted, valueLevel, level, vs + {v}, counts)
  {
    hide AtLevel;
    forall f {
      OwnedMore(tainted, valueLevel, level, f, vs, v);
    }
    hide OwnedIn;
  }

  lemma OwnedMore(tainted: set<Value>, valueLevel: map<Value, int>, level: int, f: nat, vs: set<Value>, v: Value)
    requires v !in vs
    ensures var before := OwnedIn(tainted, valueLevel, level, f, vs);
      var after := OwnedIn(tainted, valueLevel, level, f, vs + {v});
      if Owns(tainted, valueLevel, level, f, v) then after != {} && |after| == |before| + 1 else after == before
  {
    var before := OwnedIn(tainted, valueLevel, level, f, vs);
    var after := OwnedIn(tainted, valueLevel, level, f, vs + {v});
    if Owns(tainted, valueLevel, level, f, v) {
      assert after == before + {v};
    } else {
      assert after == before;
    }
  }

  method CollectAtLevel(tainted: set<Value>, valueLevel: map<Value, int>, level: int)
    returns (insts: seq<Value>, args: seq<Value>, counts: map<nat, nat>)
    ensures forall v :: v in insts <==> v.Inst? && AtLevel(tainted, valueLevel, level, v)
    ensures forall v :: v in args <==> v.Arg? && AtLevel(tainted, valueLevel, level, v)
    ensures CountsAre(tainted, valueLevel, level, tainted, counts)
  {
    insts, args, counts := [], [], map[];
    var vs := AnySetOrder(valueLevel.Keys);
    ghost var seen: set<Value> := {};
    hide CountsAre;
    assert CountsAre(tainted, valueLevel, level, seen, counts) by { NothingCounted(tainted, valueLevel, level); }
    for i := 0 to |vs|
      invariant forall v :: v in seen <==> v in vs[..i]
      invariant forall v :: v in insts <==> v.Inst? && v in seen && AtLevel(tainted, valueLevel, level, v)
      invariant forall v :: v in args <==> v.Arg? && v in seen && AtLevel(tainted, valueLevel, level, v)
      invariant CountsAre(tainted, valueLevel, level, seen, counts)
    {
      var v := vs[i];
      assert v in vs && vs[..i + 1] == vs[..i] + [v];
      assert v !in seen;
      CountMore(tainted, valueLevel, level, seen, counts, v);
      seen := seen + {v};
      if v in tainted && valueLevel[v] == level {
        if v.Inst? {
          insts := insts + [v];
          counts := counts[v.f := (if v.f in counts then counts[v.f] else 0) + 1];
        } else if v.Arg? {
          args := args + [v];
          counts := counts[v.f := (if v.f in counts then counts[v.f] else 0) + 1];
        }
      }
    }
    assert vs[..|vs|] == vs;
    assert CountsAre(tainted, valueLevel, level, tainted, counts)
      by { SameOwned(tainted, valueLevel, level, seen, counts); }
  }

  lemma NothingCounted(tainted: set<Value>, valueLevel: map<Value, int>, level: int)
    ensures CountsAre(tainted, valueLevel, level, {}, map[])
  {
  }

  lemma SameOwned(tainted: set<Value>, valueLevel: map<Value, int>, level: int, seen: set<Value>, counts: map<nat, nat>)
    requires CountsAre(tainted, valueLevel, level, seen, counts)
    requires forall v :: v in seen <==> v in valueLevel
    ensures CountsAre(tainted, valueLevel, level, tainted, counts)
  {
    forall f ensures OwnedIn(tainted, valueLevel, level, f, seen) == OwnedIn(tainted, valueLevel, level, f, tainted) {
    }
  }

  // ----- the tightest interval -----

  /** `first` and `last` are marked instructions of function `f`, and every marked
      instruction of `f` lies between them. */
  ghost predicate IsSpan(marked: set<Value>, f: nat, first: Value, last: Value) {
    && first in marked && first.Inst? && first.f == f
    && last in marked && last.Inst? && last.f == f
    && forall v :: v in marked && v.Inst? && v.f == f ==> NotAfter(first, v) && NotAfter(v, last)
  }

  /** One tightest interval for each function with a marked instruction, and no other. */
  ghost predicate AreSpans(marked: set<Value>, ranges: Ranges) {
    && (forall f :: f in ranges ==> IsSpan(marked, f, ranges[f].0, ranges[f].1))
    && (forall v :: v in marked && v.Inst? ==> v.f in ranges)
  }

  /** There is only one way to be the tightest intervals. */
  lemma SpansUnique(marked: set<Value>, r1: Ranges, r2: Ranges)
    requires AreSpans(marked, r1) && AreSpans(marked, r2)
    ensures r1 == r2
  {
    assert r1.Keys == r2.Keys by {
      forall f | f in r1 ensures f in r2 { assert r1[f].0 in marked; }
      forall f | f in r2 ensures f in r1 { assert r2[f].0 in marked; }
    }
    forall f | f in r1 ensures r1[f] == r2[f] {
      assert IsSpan(marked, f, r1[f].0, r1[f].1) && IsSpan(marked, f, r2[f].0, r2[f].1);
    }
  }

  function Extend(ranges: Ranges, u: Value): Ranges
    requires u.Inst?
  {
    if u.f in ranges then ranges[u.f := (ranges[u.f].0, u)] else ranges[u.f := (u, u)]
  }

  lemma ExtendKeeps(seen: set<Value>, ranges: Ranges, u: Value)
    requires AreSpans(seen, ranges) && u.Inst? && forall v :: v in seen ==> NotAfter(v, u)
    ensures AreSpans(seen + {u}, Extend(ranges, u))
  {
  }

  /** Compare one instruction with every collected one. */
  method MatchEach(u: Value, insts: seq<Value>, earliest0: Option<Value>, latest0: Option<Value>, ranges0: Ranges)
    returns (earliest: Option<Value>, latest: Option<Value>, ranges: Ranges)
    requires u.Inst?
    ensures u !in insts ==> earliest == earliest0 && latest == latest0 && ranges == ranges0
    ensures u in insts ==>
      earliest == (if earliest0.None? then Some(u) else earliest0) && latest == Some(u) && ranges == Extend(ranges0, u)
  {
    earliest, latest, ranges := earliest0, latest0, ranges0;
    for j := 0 to |insts|
      invariant u !in insts[..j] ==> earliest == earliest0 && latest == latest0 && ranges == ranges0
      invariant u in insts[..j] ==>
        earliest == (if earliest0.None? then Some(u) else earliest0) && latest == Some(u)
          && ranges == Extend(ranges0, u)
    {
      assert insts[..j + 1] == insts[..j] + [insts[j]];
      if u == insts[j] {
        if earliest.None? { earliest := Some(u); }
        latest := Some(u);
        if u.f !in ranges {
          ranges := ranges[u.f := (u, u)];
        } else {
          ranges := ranges[u.f := (ranges[u.f].0, u)];
        }
      }
    }
    assert insts[..|insts|] == insts;
  }

  /** First scan: compare every instruction with every collected one. */
  method EarliestLatest(m: Module, insts: seq<Value>, ghost marked: set<Value>)
    returns (earliest: Option<Value>, latest: Option<Value>, ranges: Ranges)
    requires forall v :: v in insts <==> v in marked
    requires forall v :: v in marked ==> IsInst(m, v)
    ensures AreSpans(marked, ranges)
    ensures insts != [] ==> earliest.Some? && latest.Some? && earliest.value in insts && latest.value in insts
    ensures forall v :: v in insts ==>
      earliest.Some? && latest.Some? && NotAfter(earliest.value, v) && NotAfter(v, latest.value)
  {
    earliest, latest, ranges := None, None, map[];
    var order := ProgramOrder(m);
    ProgramOrderSorted(m);
    ghost var seen: set<Value> := {};
    for i := 0 to |order|
      invariant forall v :: v in seen <==> v in insts && v in order[..i]
      invariant AreSpans(seen, ranges)
      invariant (earliest.Some? <==> seen != {}) && (latest.Some? <==> seen != {})
      invariant seen != {} ==> earliest.value in seen && latest.value in seen
      invariant forall v :: v in seen ==> NotAfter(earliest.value, v) && NotAfter(v, latest.value)
    {
      var u := order[i];
      assert order[..i + 1] == order[..i] + [u];
      assert u.Inst? by { assert NotAfter(u, u); }
      forall v | v in seen ensures NotAfter(v, u) {
        assert v in order[..i];
      }
      ghost var r0 := ranges;
      earliest, latest, ranges := MatchEach(u, insts, earliest, latest, ranges);
      if u in insts {
        ExtendKeeps(seen, r0, u);
        seen := seen + {u};
      }
    }
    assert order[..|order|] == order;
    forall v | v in insts ensures v in seen { ProgramOrderHas(m, v); }
    assert seen == marked;
    if insts != [] { assert insts[0] in seen; }
  }

  /** `visited` are the functions with a tainted value that has a level. */
  ghost predicate Visits(tainted: set<Value>, valueLevel: map<Value, int>, visited: set<nat>) {
    forall f :: f in visited <==> exists v :: Counted(tainted, valueLevel, v) && IsLocal(v) && FnOf(v) == f
  }

  /** The functions with a tainted value that has a level. */
  method VisitedFunctions(tainted: set<Value>, valueLevel: map<Value, int>) returns (visited: set<nat>)
    ensures Visits(tainted, valueLevel, visited)
  {
    visited := {};
    var vs := AnySetOrder(valueLevel.Keys);
    for i := 0 to |vs|
      invariant forall f :: f in visited <==>
        exists j :: 0 <= j < i && Counted(tainted, valueLevel, vs[j]) && IsLocal(vs[j]) && FnOf(vs[j]) == f
    {
      var v := vs[i];
      assert v in vs;
      if v in tainted && IsLocal(v) { visited := visited + {FnOf(v)}; }
    }
    forall v | Counted(tainted, valueLevel, v) && IsLocal(v) ensures FnOf(v) in visited {
      assert v in vs;
    }
  }

  /** Second scan: inside one function, test the tables at every instruction. */
  method FirstLast(m: Module, f: nat, tainted: set<Value>, valueLevel: map<Value, int>, level: int)
    returns (first: Option<Value>, last: Option<Value>)
    requires f < |m.funcs| && forall v :: v in tainted && v.Inst? ==> IsInst(m, v)
    ensures first.Some? <==> last.Some?
    ensures first.Some? ==> IsSpan(Marked(tainted, valueLevel, level), f, first.value, last.value)
    ensures first.None? ==> forall v :: v in Marked(tainted, valueLevel, level) ==> v.f != f
  {
    first, last := None, None;
    var order := FunctionOrder(m, f);
    BlocksSorted(m, f, |m.funcs[f].blocks|);
    ghost var seen: set<Value> := {};
    for i := 0 to |order|
      invariant forall v :: v in seen <==> v in order[..i] && AtLevel(tainted, valueLevel, level, v)
      invariant (first.Some? <==> seen != {}) && (last.Some? <==> seen != {})
      invariant seen != {} ==> first.value in seen && last.value in seen
      invariant forall v :: v in seen ==> NotAfter(first.value, v) && NotAfter(v, last.value)
    {
      var u := order[i];
      assert order[..i + 1] == order[..i] + [u];
      assert NotAfter(u, u);
      forall v | v in seen ensures NotAfter(v, u) { assert v in order[..i]; }
      if u in tainted && u in valueLevel && valueLevel[u] == level {
        if first.None? { first := Some(u); }
        last := Some(u);
        seen := seen + {u};
      }
    }
    assert order[..|order|] == order;
    forall v ensures v in seen <==> v in Marked(tainted, valueLevel, level) && v.Inst? && v.f == f {
      BlocksOrderHas(m, f, |m.funcs[f].blocks|, v);
    }
  }

  /** The tainted instructions at a level. */
  ghost function Marked(tainted: set<Value>, valueLevel: map<Value, int>, level: int): set<Value> {
    set v | v in tainted && v.Inst? && AtLevel(tainted, valueLevel, level, v)
  }

  method MaxLevelRanges(m: Module, tainted: set<Value>, valueLevel: map<Value, int>, level: int, visited: set<nat>,
                        counts: map<nat, nat>)
    returns (ranges: Ranges)
    requires forall v :: v in tainted && v.Inst? ==> IsInst(m, v)
    requires Visits(tainted, valueLevel, visited) && CountsAre(tainted, valueLevel, level, tainted, counts)
    ensures AreSpans(Marked(tainted, valueLevel, level), ranges) && ranges.Keys <= visited
  {
    ranges := map[];
    CountedAreVisited(tainted, valueLevel, level, counts);
    hide CountsAre;
    for f := 0 to |m.funcs|
      invariant forall g :: g in ranges ==>
        g in visited && IsSpan(Marked(tainted, valueLevel, level), g, ranges[g].0, ranges[g].1)
      invariant forall v :: v in Marked(tainted, valueLevel, level) && v.f < f ==> v.f in ranges
    {
      if !IsDeclaration(m.funcs[f]) && f in visited && f in counts {
        var first, last := FirstLast(m, f, tainted, valueLevel, level);
        if first.Some? && last.Some? { ranges := ranges[f := (first.value, last.value)]; }
      }
    }
  }

  // ----- instruction counts -----

  /** Counts from `first` to `last`, both included: the difference of their offsets. */
  method CountSpan(m: Module, f: nat, first: Value, last: Value) returns (count: nat)
    requires IsInst(m, first) && IsInst(m, last) && first.f == f && last.f == f && NotAfter(first, last)
    ensures count == Offset(m, last) - Offset(m, first) + 1
  {
    count := 0;
    var inRange := false;
    var order := FunctionOrder(m, f);
    FunctionOrderOffset(m, first);
    FunctionOrderOffset(m, last);
    OffsetMonotone(m, first, last);
    for i := 0 to |order|
      invariant i <= Offset(m, last)
      invariant inRange <==> Offset(m, first) < i
      invariant count == if inRange then i - Offset(m, first) else 0
    {
      OffsetInjective(m, f, i, first);
      OffsetInjective(m, f, i, last);
      if order[i] == first { inRange := true; }
      if inRange { count := count + 1; }
      if order[i] == last { return; }
    }
  }

  lemma {:induction false} PrecedingMonotone(m: Module, f: nat, b: nat, c: nat)
    requires f < |m.funcs| && b < c <= |m.funcs[f].blocks|
    ensures Preceding(m, f, b) + |m.funcs[f].blocks[b]| <= Preceding(m, f, c)
  {
    if b < c - 1 { PrecedingMonotone(m, f, b, c - 1); }
  }

  lemma OffsetMonotone(m: Module, u: Value, w: Value)
    requires IsInst(m, u) && IsInst(m, w) && u.f == w.f && NotAfter(u, w)
    ensures Offset(m, u) <= Offset(m, w) && (u != w ==> Offset(m, u) < Offset(m, w))
  {
    if u.b < w.b { PrecedingMonotone(m, u.f, u.b, w.b); }
  }

  lemma OffsetInjective(m: Module, f: nat, i: nat, v: Value)
    requires f < |m.funcs| && i < |FunctionOrder(m, f)| && IsInst(m, v) && v.f == f
    ensures FunctionOrder(m, f)[i] == v <==> i == Offset(m, v)
  {
    FunctionOrderOffset(m, v);
    var u := FunctionOrder(m, f)[i];
    if u == v && i != Offset(m, v) {
      DistinctInstructions(m, f, |m.funcs[f].blocks|, i, Offset(m, v));
    }
  }

  lemma {:induction false} DistinctInstructions(m: Module, f: nat, n: nat, i: nat, j: nat)
    requires f < |m.funcs| && n <= |m.funcs[f].blocks|
    requires i < |BlocksOrder(m, f, n)| && j < |BlocksOrder(m, f, n)| && i != j
    ensures BlocksOrder(m, f, n)[i] != BlocksOrder(m, f, n)[j]
  {
    var before := BlocksOrder(m, f, n - 1);
    var last := BlockOrder(f, n - 1, |m.funcs[f].blocks[n - 1]|);
    if i < |before| && j < |before| {
      DistinctInstructions(m, f, n - 1, i, j);
    } else if i < |before| {
      BlocksOrderHas(m, f, n - 1, before[i]);
    } else if j < |before| {
      BlocksOrderHas(m, f, n - 1, before[j]);
    }
  }

  /** The contribution of the first `n` functions to the two instruction counts. */
  function SpanSum(m: Module, ranges: Ranges, n: nat): int
    requires n <= |m.funcs| && forall f :: f in ranges ==> IsInst(m, ranges[f].0) && IsInst(m, ranges[f].1)
  {
    if n == 0 then 0
    else
      var own := if n - 1 in ranges then Offset(m, ranges[n - 1].1) - Offset(m, ranges[n - 1].0) + 1 else 0;
      SpanSum(m, ranges, n - 1) + own
  }

  /** The number of instructions of the functions in `fs`, among the first `n`. */
  function FullSum(m: Module, fs: set<nat>, n: nat): nat
    requires n <= |m.funcs|
  {
    if n == 0 then 0
    else
      var own := if n - 1 in fs then Preceding(m, n - 1, |m.funcs[n - 1].blocks|) else 0;
      FullSum(m, fs, n - 1) + own
  }

  // ----- what the counts are sizes of -----

  /** The instructions inside the intervals. */
  ghost function Covered(m: Module, ranges: Ranges): set<Value> { CoveredBelow(m, ranges, |m.funcs|) }

  ghost function CoveredBelow(m: Module, ranges: Ranges, n: nat): set<Value> {
    set v: Value | v in Insts(m) && v.Inst? && v.f < n && v.f in ranges
      && NotAfter(ranges[v.f].0, v) && NotAfter(v, ranges[v.f].1)
  }

  /** The instructions of the functions in `fs`. */
  ghost function InstsOf(m: Module, fs: set<nat>): set<Value> { InstsBelow(m, fs, |m.funcs|) }

  ghost function InstsBelow(m: Module, fs: set<nat>, n: nat): set<Value> {
    set v: Value | v in Insts(m) && v.Inst? && v.f < n && v.f in fs
  }

  lemma {:induction false} DistinctSize(s: seq<Value>)
    requires forall i, j :: 0 <= i < j < |s| ==> s[i] != s[j]
    ensures |set v | v in s| == |s|
  {
    if s != [] {
      var front, last := s[..|s| - 1], s[|s| - 1];
      DistinctSize(front);
      assert s == front + [last];
      assert (set v | v in s) == (set v | v in front) + {last};
    }
  }

  /** Order in a function is order of offsets. */
  lemma OffsetsOrder(m: Module, u: Value, w: Value)
    requires IsInst(m, u) && IsInst(m, w) && u.f == w.f
    ensures NotAfter(u, w) <==> Offset(m, u) <= Offset(m, w)
  {
    if NotAfter(u, w) { OffsetMonotone(m, u, w); } else { OffsetMonotone(m, w, u); }
  }

  /** There are as many instructions from `first` to `last` as counted. */
  lemma BetweenSize(m: Module, first: Value, last: Value)
    requires IsInst(m, first) && IsInst(m, last) && first.f == last.f && NotAfter(first, last)
    ensures |set v: Value | v in Insts(m) && v.Inst? && v.f == first.f && NotAfter(first, v) && NotAfter(v, last)|
      == Offset(m, last) - Offset(m, first) + 1
  {
    var f := first.f;
    var order := FunctionOrder(m, f);
    FunctionOrderOffset(m, last);
    OffsetMonotone(m, first, last);
    var a, b := Offset(m, first), Offset(m, last) + 1;
    var slice := order[a..b];
    forall i, j | 0 <= i < j < |slice| ensures slice[i] != slice[j] {
      DistinctInstructions(m, f, |m.funcs[f].blocks|, a + i, a + j);
    }
    DistinctSize(slice);
    hide FunctionOrder, Offset;
    forall v ensures v in slice <==> IsInst(m, v) && v.f == f && NotAfter(first, v) && NotAfter(v, last) {
      SliceHas(m, first, last, v);
    }
    forall v ensures v in Insts(m) <==> IsInst(m, v) { InstsAre(m, v); }
    assert (set v | v in slice) ==
      set v: Value | v in Insts(m) && v.Inst? && v.f == f && NotAfter(first, v) && NotAfter(v, last);
  }

  lemma SliceHas(m: Module, first: Value, last: Value, v: Value)
    requires IsInst(m, first) && IsInst(m, last) && first.f == last.f && NotAfter(first, last)
    ensures Offset(m, first) <= Offset(m, last) < |FunctionOrder(m, first.f)|
    ensures v in FunctionOrder(m, first.f)[Offset(m, first)..Offset(m, last) + 1] <==>
      IsInst(m, v) && v.f == first.f && NotAfter(first, v) && NotAfter(v, last)
  {
    var f := first.f;
    var order := FunctionOrder(m, f);
    FunctionOrderOffset(m, last);
    OffsetMonotone(m, first, last);
    var a, b := Offset(m, first), Offset(m, last) + 1;
    BlocksOrderHas(m, f, |m.funcs[f].blocks|, v);
    assert v in order[a..b] ==> v in order;
    if IsInst(m, v) && v.f == f {
      FunctionOrderOffset(m, v);
      OffsetsOrder(m, first, v);
      OffsetsOrder(m, v, last);
      if a <= Offset(m, v) < b { assert order[a..b][Offset(m, v) - a] == v; }
      if v in order[a..b] {
        var i :| 0 <= i < |order[a..b]| && order[a..b][i] == v;
        OffsetInjective(m, f, a + i, v);
      }
    }
  }

  lemma {:induction false} SpanSumIsSize(m: Module, ranges: Ranges, n: nat)
    requires n <= |m.funcs| && SpansInside(m, ranges)
    ensures SpanSum(m, ranges, n) == |CoveredBelow(m, ranges, n)|
  {
    hide Insts, NotAfter, Offset, IsInst;
    if n > 0 {
      SpanSumIsSize(m, ranges, n - 1);
      var before, now := CoveredBelow(m, ranges, n - 1), CoveredBelow(m, ranges, n);
      if n - 1 in ranges {
        var first, last := ranges[n - 1].0, ranges[n - 1].1;
        BetweenSize(m, first, last);
        var own := set v: Value | v in Insts(m) && v.Inst? && v.f == n - 1 && NotAfter(first, v) && NotAfter(v, last);
        assert now == before + own;
        DisjointSize(before, own);
      } else {
        assert now == before;
      }
    }
  }

  /** The ends of each interval are instructions of its function, in order. */
  ghost predicate SpansInside(m: Module, ranges: Ranges) {
    forall f :: f in ranges ==>
      && IsInst(m, ranges[f].0) && IsInst(m, ranges[f].1) && ranges[f].0.f == f && ranges[f].1.f == f
      && NotAfter(ranges[f].0, ranges[f].1)
  }

  lemma FunctionSize(m: Module, f: nat)
    requires f < |m.funcs|
    ensures |set v: Value | v in Insts(m) && v.Inst? && v.f == f| == Preceding(m, f, |m.funcs[f].blocks|)
  {
    var order := FunctionOrder(m, f);
    BlocksOrderLength(m, f, |m.funcs[f].blocks|);
    forall i, j | 0 <= i < j < |order| ensures order[i] != order[j] {
      DistinctInstructions(m, f, |m.funcs[f].blocks|, i, j);
    }
    DistinctSize(order);
    hide FunctionOrder;
    forall v ensures v in order <==> v in Insts(m) && v.Inst? && v.f == f {
      OrderHas(m, f, v);
    }
    assert (set v | v in order) == set v: Value | v in Insts(m) && v.Inst? && v.f == f;
  }

  lemma OrderHas(m: Module, f: nat, v: Value)
    requires f < |m.funcs|
    ensures v in FunctionOrder(m, f) <==> v in Insts(m) && v.Inst? && v.f == f
  {
    BlocksOrderHas(m, f, |m.funcs[f].blocks|, v);
    InstsAre(m, v);
  }

  lemma FullStep(m: Module, fs: set<nat>, n: nat)
    requires 0 < n && n - 1 in fs
    ensures |InstsBelow(m, fs, n)| ==
      |InstsBelow(m, fs, n - 1)| + |set v: Value | v in Insts(m) && v.Inst? && v.f == n - 1|
  {
    hide Insts;
    var before, own := InstsBelow(m, fs, n - 1), set v: Value | v in Insts(m) && v.Inst? && v.f == n - 1;
    assert InstsBelow(m, fs, n) == before + own;
    DisjointSize(before, own);
  }

  lemma DisjointSize<T>(a: set<T>, b: set<T>)
    requires a !! b
    ensures |a + b| == |a| + |b|
  {
  }

  lemma {:induction false} FullSumIsSize(m: Module, fs: set<nat>, n: nat)
    requires n <= |m.funcs|
    ensures FullSum(m, fs, n) == |InstsBelow(m, fs, n)|
  {
    hide Insts, Preceding;
    if n > 0 {
      FullSumIsSize(m, fs, n - 1);
      var before, now := InstsBelow(m, fs, n - 1), InstsBelow(m, fs, n);
      if n - 1 in fs {
        FunctionSize(m, n - 1);
        FullStep(m, fs, n);
      } else {
        assert now == before;
      }
    }
  }

  /** The two counts together never exceed the size of the visited functions. */
  lemma {:induction false} CountsWithinVisited(m: Module, visited: set<nat>, ranges: Ranges, n: nat)
    requires n <= |m.funcs| && ranges.Keys <= visited
    requires forall f :: f in ranges ==>
      IsInst(m, ranges[f].0) && IsInst(m, ranges[f].1) && ranges[f].0.f == f && ranges[f].1.f == f
    ensures SpanSum(m, ranges, n) + FullSum(m, visited - ranges.Keys, n) <= FullSum(m, visited, n)
  {
    if n > 0 {
      CountsWithinVisited(m, visited, ranges, n - 1);
      if n - 1 in ranges {
        var last := ranges[n - 1].1;
        FunctionOrderOffset(m, last);
        BlocksOrderLength(m, n - 1, |m.funcs[n - 1].blocks|);
      }
    }
  }

  method CountAll(m: Module, f: nat) returns (count: nat)
    requires f < |m.funcs|
    ensures count == Preceding(m, f, |m.funcs[f].blocks|)
  {
    count := 0;
    for b := 0 to |m.funcs[f].blocks|
      invariant count == Preceding(m, f, b)
    {
      for k := 0 to |m.funcs[f].blocks[b]|
        invariant count == Preceding(m, f, b) + k
      {
        count := count + 1;
      }
    }
  }

  method CountInstructions(m: Module, visited: set<nat>, ranges: Ranges, ghost marked: set<Value>)
    returns (spanCount: nat, otherCount: nat)
    requires AreSpans(marked, ranges) && ranges.Keys <= visited && forall v :: v in marked ==> IsInst(m, v)
    ensures spanCount == SpanSum(m, ranges, |m.funcs|)
    ensures otherCount == FullSum(m, visited - ranges.Keys, |m.funcs|)
  {
    spanCount, otherCount := 0, 0;
    for f := 0 to |m.funcs|
      invariant spanCount == SpanSum(m, ranges, f) && otherCount == FullSum(m, visited - ranges.Keys, f)
    {
      if !IsDeclaration(m.funcs[f]) && f in visited {
        if f in ranges {
          var c := CountSpan(m, f, ranges[f].0, ranges[f].1);
          spanCount := spanCount + c;
        } else {
          var c := CountAll(m, f);
          otherCount := otherCount + c;
        }
      }
    }
  }

  /** With arguments only at the largest level, whole functions are counted. */
  method CountFunctions(m: Module, visited: set<nat>, atLevel: set<nat>) returns (count: nat, otherCount: nat)
    requires atLevel <= visited
    ensures count == FullSum(m, atLevel, |m.funcs|) && otherCount == FullSum(m, visited - atLevel, |m.funcs|)
  {
    count, otherCount := 0, 0;
    for f := 0 to |m.funcs|
      invariant count == FullSum(m, atLevel, f) && otherCount == FullSum(m, visited - atLevel, f)
    {
      if !IsDeclaration(m.funcs[f]) && f in visited {
        var c := CountAll(m, f);
        if f in atLevel { count := count + c; } else { otherCount := otherCount + c; }
      }
    }
  }

  /** Walk the blocks of `f` and note where the two instructions stand. */
  method Locate(m: Module, f: nat, first: Value, last: Value)
    returns (startBlock: nat, startIndex: nat, endBlock: nat, endIndex: nat)
    requires IsInst(m, first) && IsInst(m, last) && first.f == f && last.f == f
    ensures Inst(f, startBlock, startIndex) == first && Inst(f, endBlock, endIndex) == last
  {
    startBlock, startIndex, endBlock, endIndex := 0, 0, 0, 0;
    for b := 0 to |m.funcs[f].blocks|
      invariant first.b < b ==> Inst(f, startBlock, startIndex) == first
      invariant last.b < b ==> Inst(f, endBlock, endIndex) == last
    {
      for k := 0 to |m.funcs[f].blocks[b]|
        invariant first.b < b || (first.b == b && first.k < k) ==> Inst(f, startBlock, startIndex) == first
        invariant last.b < b || (last.b == b && last.k < k) ==> Inst(f, endBlock, endIndex) == last
      {
        if Inst(f, b, k) == first { startBlock, startIndex := b, k; }
        if Inst(f, b, k) == last { endBlock, endIndex := b, k; }
      }
    }
  }

  /** The printed positions decode to the ends of the intervals. */
  ghost predicate PositionsOk(ranges: Ranges, positions: map<nat, (nat, nat, nat, nat)>) {
    && positions.Keys == ranges.Keys
    && forall f :: f in positions ==>
         var p := positions[f]; Inst(f, p.0, p.1) == ranges[f].0 && Inst(f, p.2, p.3) == ranges[f].1
  }

  method LocateAll(m: Module, ranges: Ranges, ghost marked: set<Value>)
    returns (positions: map<nat, (nat, nat, nat, nat)>)
    requires AreSpans(marked, ranges) && forall v :: v in marked ==> IsInst(m, v)
    ensures PositionsOk(ranges, positions)
  {
    positions := map[];
    var fs := AnySetOrder(ranges.Keys);
    for i := 0 to |fs|
      invariant forall f :: f in positions <==> f in fs[..i]
      invariant forall f :: f in positions ==> f in ranges
      invariant forall f :: f in positions ==>
        var p := positions[f]; Inst(f, p.0, p.1) == ranges[f].0 && Inst(f, p.2, p.3) == ranges[f].1
    {
      var f := fs[i];
      assert f in fs && fs[..i + 1] == fs[..i] + [f];
      var sb, si, eb, ei := Locate(m, f, ranges[f].0, ranges[f].1);
      positions := positions[f := (sb, si, eb, ei)];
    }
    assert fs[..|fs|] == fs;
  }

  // ----- the report -----

  /** `perFunction` is the result of the first scan, `ranges` that of the second. */
  datatype Report =
    | NoLevel
    | Spans(level: int, visited: set<nat>, perFunction: Ranges, ranges: Ranges,
            positions: map<nat, (nat, nat, nat, nat)>, spanCount: nat, otherCount: nat, otherFunctions: int)
    | ArgumentsOnly(level: int, visited: set<nat>, functions: set<nat>, count: nat, otherCount: nat,
                    otherFunctions: int)

  /** The level is the largest one, and it occurs. */
  ghost predicate IsMaxLevel(tainted: set<Value>, valueLevel: map<Value, int>, level: int) {
    && (forall v :: Counted(tainted, valueLevel, v) ==> valueLevel[v] <= level)
    && exists v :: AtLevel(tainted, valueLevel, level, v)
  }

  /** The two scans agree on the tightest intervals, the counts are the numbers of instructions
      in them and in the other visited functions, and the functions with an interval are among
      those visited. */
  ghost predicate SpansOk(m: Module, tainted: set<Value>, valueLevel: map<Value, int>, r: Report)
    requires r.Spans?
  {
    var marked := Marked(tainted, valueLevel, r.level);
    && marked != {} && AreSpans(marked, r.ranges) && r.perFunction == r.ranges
    && Visits(tainted, valueLevel, r.visited) && r.ranges.Keys <= r.visited
    && (forall f :: f in r.ranges ==> IsInst(m, r.ranges[f].0) && IsInst(m, r.ranges[f].1))
    && PositionsOk(r.ranges, r.positions)
    && r.spanCount == |Covered(m, r.ranges)| && r.otherCount == |InstsOf(m, r.visited - r.ranges.Keys)|
    && r.otherFunctions == |r.visited - r.ranges.Keys|
  }

  /** With arguments only at the largest level, exactly the functions that own one of them
      are counted, whole. */
  ghost predicate ArgumentsOk(m: Module, tainted: set<Value>, valueLevel: map<Value, int>, r: Report)
    requires r.ArgumentsOnly?
  {
    && Marked(tainted, valueLevel, r.level) == {}
    && Visits(tainted, valueLevel, r.visited) && r.functions <= r.visited
    && (forall f :: f in r.functions <==> OwnsArgument(tainted, valueLevel, r.level, f))
    && r.count == |InstsOf(m, r.functions)| && r.otherCount == |InstsOf(m, r.visited - r.functions)|
    && r.otherFunctions == |r.visited - r.functions|
  }

  ghost predicate OwnsArgument(tainted: set<Value>, valueLevel: map<Value, int>, level: int, f: nat) {
    exists v: Value :: v.Arg? && v.f == f && AtLevel(tainted, valueLevel, level, v)
  }

  /** There is no level exactly when no tainted value has one above the least integer;
      otherwise the level is the largest, and the rest of the report is right for it. */
  ghost predicate ReportOk(m: Module, tainted: set<Value>, valueLevel: map<Value, int>, r: Report) {
    && (r.NoLevel? <==> forall v :: Counted(tainted, valueLevel, v) ==> valueLevel[v] <= INT_MIN)
    && (!r.NoLevel? ==> IsMaxLevel(tainted, valueLevel, r.level))
    && (r.Spans? ==> SpansOk(m, tainted, valueLevel, r))
    && (r.ArgumentsOnly? ==> ArgumentsOk(m, tainted, valueLevel, r))
  }

  method SpanReport(m: Module, tainted: set<Value>, valueLevel: map<Value, int>, level: int,
                    insts: seq<Value>, counts: map<nat, nat>, visited: set<nat>) returns (r: Report)
    requires forall v :: v in tainted && v.Inst? ==> IsInst(m, v)
    requires insts != [] && forall v :: v in insts <==> v.Inst? && AtLevel(tainted, valueLevel, level, v)
    requires CountsAre(tainted, valueLevel, level, tainted, counts) && Visits(tainted, valueLevel, visited)
    ensures r.Spans? && r.level == level && SpansOk(m, tainted, valueLevel, r)
  {
    hide CountsAre, Visits, AreSpans, SpansOk, SpanSum, FullSum, NotAfter, PositionsOk;
    ghost var marked := Marked(tainted, valueLevel, level);
    assert forall v :: v in insts <==> v in marked;
    assert insts[0] in insts;
    assert forall v :: v in marked ==> IsInst(m, v);
    hide Marked, AtLevel, IsInst;
    var earliest, latest, perFunction := EarliestLatest(m, insts, marked);
    var ranges := MaxLevelRanges(m, tainted, valueLevel, level, visited, counts);
    SpansUnique(marked, perFunction, ranges);
    var spanCount, otherCount := CountInstructions(m, visited, ranges, marked);
    assert SpansInside(m, ranges) by { SpansAreInside(m, marked, ranges); }
    SpanSumIsSize(m, ranges, |m.funcs|);
    FullSumIsSize(m, visited - ranges.Keys, |m.funcs|);
    DifferenceSize(visited, ranges.Keys);
    SpanEndsExist(m, marked, ranges);
    var positions := LocateAll(m, ranges, marked);
    r := Spans(level, visited, perFunction, ranges, positions, spanCount, otherCount, |visited| - |ranges|);
    Assemble(m, tainted, valueLevel, r);
  }

  lemma Assemble(m: Module, tainted: set<Value>, valueLevel: map<Value, int>, r: Report)
    requires r.Spans? && var marked := Marked(tainted, valueLevel, r.level); marked != {} && AreSpans(marked, r.ranges)
    requires PositionsOk(r.ranges, r.positions)
    requires r.perFunction == r.ranges && Visits(tainted, valueLevel, r.visited) && r.ranges.Keys <= r.visited
    requires forall f :: f in r.ranges ==> IsInst(m, r.ranges[f].0) && IsInst(m, r.ranges[f].1)
    requires r.spanCount == |Covered(m, r.ranges)| && r.otherCount == |InstsOf(m, r.visited - r.ranges.Keys)|
    requires r.otherFunctions == |r.visited - r.ranges.Keys|
    ensures SpansOk(m, tainted, valueLevel, r)
  {
    hide Visits, AreSpans, Covered, InstsOf, Marked, PositionsOk, IsInst;
  }

  lemma SpansAreInside(m: Module, marked: set<Value>, ranges: Ranges)
    requires AreSpans(marked, ranges) && forall v :: v in marked ==> IsInst(m, v)
    ensures SpansInside(m, ranges)
  {
  }

  lemma SpanEndsExist(m: Module, marked: set<Value>, ranges: Ranges)
    requires AreSpans(marked, ranges) && forall v :: v in marked ==> IsInst(m, v)
    ensures forall f :: f in ranges ==> IsInst(m, ranges[f].0) && IsInst(m, ranges[f].1)
  {
  }

  method ArgumentsReport(m: Module, tainted: set<Value>, valueLevel: map<Value, int>, level: int,
                         counts: map<nat, nat>, visited: set<nat>) returns (r: Report)
    requires forall v: Value :: !(v.Inst? && AtLevel(tainted, valueLevel, level, v))
    requires CountsAre(tainted, valueLevel, level, tainted, counts) && Visits(tainted, valueLevel, visited)
    ensures r.ArgumentsOnly? && r.level == level && ArgumentsOk(m, tainted, valueLevel, r)
  {
    hide CountsAre, Visits, FullSum, OwnsArgument;
    NoneMarked(tainted, valueLevel, level);
    CountsVisited(tainted, valueLevel, level, counts, visited);
    DifferenceSize(visited, counts.Keys);
    ArgumentOwners(tainted, valueLevel, level, counts);
    var count, otherCount := CountFunctions(m, visited, counts.Keys);
    FullSumIsSize(m, counts.Keys, |m.funcs|);
    FullSumIsSize(m, visited - counts.Keys, |m.funcs|);
    r := ArgumentsOnly(level, visited, counts.Keys, count, otherCount, |visited| - |counts|);
  }

  method FinalReport(m: Module, tainted: set<Value>, valueLevel: map<Value, int>) returns (r: Report)
    requires forall v :: v in tainted ==> IsLocal(v) && (v.Inst? ==> IsInst(m, v))
    ensures ReportOk(m, tainted, valueLevel, r)
  {
    hide CountsAre, Visits, SpansOk, ArgumentsOk;
    var level := FindMaxLevel(tainted, valueLevel);
    if level == INT_MIN { return NoLevel; }
    var insts, args, counts := CollectAtLevel(tainted, valueLevel, level);
    var visited := VisitedFunctions(tainted, valueLevel);
    if insts != [] {
      r := SpanReport(m, tainted, valueLevel, level, insts, counts, visited);
    } else {
      assert forall v: Value :: v !in insts;
      r := ArgumentsReport(m, tainted, valueLevel, level, counts, visited);
    }
  }

  lemma NoneMarked(tainted: set<Value>, valueLevel: map<Value, int>, level: int)
    requires forall v: Value :: !(v.Inst? && AtLevel(tainted, valueLevel, level, v))
    ensures Marked(tainted, valueLevel, level) == {}
  {
  }

  lemma CountsVisited(tainted: set<Value>, valueLevel: map<Value, int>, level: int, counts: map<nat, nat>,
                      visited: set<nat>)
    requires CountsAre(tainted, valueLevel, level, tainted, counts) && Visits(tainted, valueLevel, visited)
    ensures counts.Keys <= visited
  {
    CountedAreVisited(tainted, valueLevel, level, counts);
  }

  /** Without instructions at the level, the counted functions are those with an argument
      at it. */
  lemma ArgumentOwners(tainted: set<Value>, valueLevel: map<Value, int>, level: int, counts: map<nat, nat>)
    requires CountsAre(tainted, valueLevel, level, tainted, counts)
    requires Marked(tainted, valueLevel, level) == {}
    ensures forall f :: f in counts.Keys <==> OwnsArgument(tainted, valueLevel, level, f)
  {
    CountedAreVisited(tainted, valueLevel, level, counts);
    forall f | f in counts.Keys ensures OwnsArgument(tainted, valueLevel, level, f) {
      var v :| v in OwnedIn(tainted, valueLevel, level, f, tainted);
      assert v !in Marked(tainted, valueLevel, level);
    }
  }

  lemma CountedAreVisited(tainted: set<Value>, valueLevel: map<Value, int>, level: int, counts: map<nat, nat>)
    requires CountsAre(tainted, valueLevel, level, tainted, counts)
    ensures forall f :: f in counts ==> exists v :: Counted(tainted, valueLevel, v) && IsLocal(v) && FnOf(v) == f
    ensures forall v :: AtLevel(tainted, valueLevel, level, v) && IsLocal(v) ==> FnOf(v) in counts
  {
    forall v | AtLevel(tainted, valueLevel, level, v) && IsLocal(v) ensures FnOf(v) in counts {
      assert v in OwnedIn(tainted, valueLevel, level, FnOf(v), tainted);
    }
    forall f | f in counts ensures exists v :: Counted(tainted, valueLevel, v) && IsLocal(v) && FnOf(v) == f {
      var v :| v in OwnedIn(tainted, valueLevel, level, f, tainted);
    }
  }

  lemma DifferenceSize(a: set<nat>, b: set<nat>)
    requires b <= a
    ensures |a| - |b| == |a - b|
  {
    assert a == (a - b) + b;
  }
}
