/** Offsets from a base symbol, and the relocation to the greatest symbol below the span. */
module Relocation {
  import opened Options
  import opened Listings
  import opened Symbols
  import opened AddressLookup

  // ----- the best base -----

  function BestBaseUpTo(nm: seq<NmLine>, n: nat, limit: nat): Option<Sym>
    requires n <= |nm|
  {
    if n == 0 then None
    else
      var best := BestBaseUpTo(nm, n - 1, limit);
      var l := nm[n - 1];
      if IsText(l) && l.addr < limit && (best.None? || l.addr > best.value.addr) then Some(Sym(l.name, l.addr))
      else best
  }

  function BestBase(nm: seq<NmLine>, limit: nat): Option<Sym> { BestBaseUpTo(nm, |nm|, limit) }

  predicate TextBelow(nm: seq<NmLine>, i: nat, limit: nat)
    requires i < |nm|
  {
    IsText(nm[i]) && nm[i].addr < limit
  }

  /** The base is the first text symbol with the greatest address strictly below the limit;
      there is none exactly when no text symbol lies below. */
  lemma {:induction false} BestBaseIsGreatest(nm: seq<NmLine>, n: nat, limit: nat)
    requires n <= |nm|
    ensures match BestBaseUpTo(nm, n, limit)
      case Some(s) =>
        && (exists i :: 0 <= i < n && TextBelow(nm, i, limit) && Sym(nm[i].name, nm[i].addr) == s
              && forall j :: 0 <= j < i && TextBelow(nm, j, limit) ==> nm[j].addr < s.addr)
        && forall j :: 0 <= j < n && TextBelow(nm, j, limit) ==> nm[j].addr <= s.addr
      case None => forall j :: 0 <= j < n ==> !TextBelow(nm, j, limit)
  {
    if n > 0 { BestBaseIsGreatest(nm, n - 1, limit); }
  }

  method FindBestBaseAddressBelowSpan(nm: seq<NmLine>, limit: nat) returns (best: Option<Sym>)
    ensures best == BestBase(nm, limit)
  {
    best := None;
    for i := 0 to |nm|
      invariant best == BestBaseUpTo(nm, i, limit)
    {
      var l := nm[i];
      if l.Symbol? && l.kind in ["T", "t"] {
        if l.addr < limit {
          if best.None? || l.addr > best.value.addr { best := Some(Sym(l.name, l.addr)); }
        }
      }
    }
  }

  // ----- one result -----

  /** The two ends of a span in the source, as reported by the pass. */
  datatype Query = Query(function_: string, earliestFile: string, earliestLine: int, earliestFunc: string,
                         latestFile: string, latestLine: int, latestFunc: string)

  datatype Side = Missing | Side(addr: nat, base: Option<nat>, symbol: string, offset: Option<int>)

  function SideOf(p: Place): Side {
    match p
    case Nowhere => Missing
    case Place(addr, base, symbol) =>
      Side(addr, base, symbol, if base.Some? then Some(addr - base.value) else None)
  }

  /** The symbols consulted for relocation. */
  function RelocationSymbols(env: Env, fn: string): seq<NmLine> {
    if env.homes == [] || env.moduleNm == [] || fn == "" then env.nm
    else
      match FindSymbolBinary(env.homes, fn)
      case None => env.nm
      case Some(h) =>
        var nm := Get(env.moduleNm, h.moduleName);
        if h.moduleName != "" && nm.Some? then nm.value else env.nm
  }

  predicate OffsetOk(s: Side) { s.Side? && s.offset.Some? && s.offset.value >= 0 }

  /** An offset is negative, or a base is missing. */
  predicate NeedsRelocation(e: Side, l: Side)
    requires e.Side? && l.Side?
  {
    || (e.offset.Some? && e.offset.value < 0) || (l.offset.Some? && l.offset.value < 0)
    || e.base.None? || l.base.None?
  }

  function Rebase(s: Side, base: Sym): Side
    requires s.Side?
  {
    s.(base := Some(base.addr), symbol := base.name, offset := Some(s.addr - base.addr))
  }

  function Lower(a: nat, b: nat): nat { if a <= b then a else b }

  /** Both ends found: relocate them together. One end found without a base: relocate it. */
  function Relocate(nm: seq<NmLine>, e: Side, l: Side): (Side, Side) {
    if e.Side? && l.Side? then
      if NeedsRelocation(e, l) then
        match BestBase(nm, Lower(e.addr, l.addr))
        case Some(base) => (Rebase(e, base), Rebase(l, base))
        case None => (e, l)
      else (e, l)
    else if e.Side? && e.base.None? then
      match BestBase(nm, e.addr)
      case Some(base) => (Rebase(e, base), l)
      case None => (e, l)
    else if l.Side? && l.base.None? then
      match BestBase(nm, l.addr)
      case Some(base) => (e, Rebase(l, base))
      case None => (e, l)
    else (e, l)
  }

  predicate SameSource(q: Query) {
    q.earliestFile == q.latestFile && q.earliestLine == q.latestLine && q.earliestFunc == q.latestFunc
  }

  function Ends(env: Env, q: Query): (Side, Side) {
    if SameSource(q) then
      match RangeLookup(env, q.earliestFile, q.earliestLine, q.earliestFunc)
      case NoRange => (Missing, Missing)
      case Range(start, end, base, symbol) => (SideOf(Place(start, base, symbol)), SideOf(Place(end, base, symbol)))
    else
      (SideOf(LineLookup(env, q.earliestFile, q.earliestLine, q.earliestFunc)),
       SideOf(LineLookup(env, q.latestFile, q.latestLine, q.latestFunc)))
  }

  /** The end of a range, with its base. */
  function EndOf(r: Range): Place {
    match r
    case NoRange => Nowhere
    case Range(_, end, base, symbol) => Place(end, base, symbol)
  }

  /** The earlier end is always where its line is looked up; so is the later end, except that
      within one line it is the end of the line's range, found exactly when the start is. */
  lemma EndsAreLookups(env: Env, q: Query)
    ensures Ends(env, q).0 == SideOf(LineLookup(env, q.earliestFile, q.earliestLine, q.earliestFunc))
    ensures !SameSource(q) ==> Ends(env, q).1 == SideOf(LineLookup(env, q.latestFile, q.latestLine, q.latestFunc))
    ensures SameSource(q) ==>
      && Ends(env, q).1 == SideOf(EndOf(RangeLookup(env, q.latestFile, q.latestLine, q.latestFunc)))
      && (Ends(env, q).0.Missing? <==> Ends(env, q).1.Missing?)
  {
    hide LineLookup, RangeLookup;
    LookupsAgree(env, q.earliestFile, q.earliestLine, q.earliestFunc);
  }

  /** Relocation consults the symbols that the lookup of the function consults; the exceptions
      are a query without a function, for which it is the kernel's, and an unnamed module or
      one without a file. */
  lemma RelocationSymbolsAre(env: Env, fn: string)
    ensures var home := FindSymbolBinary(env.homes, fn);
      && (fn == "" || home.None? ==> RelocationSymbols(env, fn) == env.nm)
      && (fn != "" && (home.Some? ==> home.value.moduleName != "" && home.value.path != "") ==>
            RelocationSymbols(env, fn) == ActualFor(env, fn).nm)
      && (fn != "" && home.Some? && home.value.moduleName == "" ==> RelocationSymbols(env, fn) == env.nm)
      && (fn != "" && home.Some? && home.value.moduleName != "" ==>
            IsEntry(env.moduleNm, home.value.moduleName, env.nm, RelocationSymbols(env, fn)))
  {
    hide IsEntry;
    var home := FindSymbolBinary(env.homes, fn);
    if home.Some? { GetIsEntry(env.moduleNm, home.value.moduleName, env.nm); }
    assert env.moduleNm == [] && home.Some? ==> Get(env.moduleNm, home.value.moduleName).None?;
  }

  method RelocateEnds(nm: seq<NmLine>, earliest0: Side, latest0: Side) returns (earliest: Side, latest: Side)
    ensures (earliest, latest) == Relocate(nm, earliest0, latest0)
  {
    hide BestBase;
    earliest, latest := earliest0, latest0;
    if earliest.Side? && latest.Side? {
      var minAddr := if earliest.addr <= latest.addr then earliest.addr else latest.addr;
      var needsRelocation := false;
      if earliest.offset.Some? && earliest.offset.value < 0 { needsRelocation := true; }
      if latest.offset.Some? && latest.offset.value < 0 { needsRelocation := true; }
      if earliest.base.None? || latest.base.None? { needsRelocation := true; }
      if needsRelocation {
        var base := FindBestBaseAddressBelowSpan(nm, minAddr);
        if base.Some? {
          var b := base.value;
          earliest := earliest.(base := Some(b.addr), symbol := b.name, offset := Some(earliest.addr - b.addr));
          latest := latest.(base := Some(b.addr), symbol := b.name, offset := Some(latest.addr - b.addr));
        }
      }
    } else if earliest.Side? && earliest.base.None? {
      var base := FindBestBaseAddressBelowSpan(nm, earliest.addr);
      if base.Some? {
        var b := base.value;
        earliest := earliest.(base := Some(b.addr), symbol := b.name, offset := Some(earliest.addr - b.addr));
      }
    } else if latest.Side? && latest.base.None? {
      var base := FindBestBaseAddressBelowSpan(nm, latest.addr);
      if base.Some? {
        var b := base.value;
        latest := latest.(base := Some(b.addr), symbol := b.name, offset := Some(latest.addr - b.addr));
      }
    }
  }

  method ProcessSingleResult(env: Env, q: Query) returns (earliest: Side, latest: Side)
    ensures (earliest, latest) ==
      (var ends := Ends(env, q); Relocate(RelocationSymbols(env, q.function_), ends.0, ends.1))
  {
    hide RangeLookup, LineLookup, Relocate;
    earliest, latest := Missing, Missing;
    if q.earliestFile == q.latestFile && q.earliestLine == q.latestLine && q.earliestFunc == q.latestFunc {
      var r := FindAddressRangeForSingleLine(env, q.earliestFile, q.earliestLine, q.earliestFunc);
      if r.Range? {
        earliest := SideOf(Place(r.start, r.base, r.symbol));
        latest := SideOf(Place(r.end, r.base, r.symbol));
      }
    } else {
      var e := FindAddressForLine(env, q.earliestFile, q.earliestLine, q.earliestFunc);
      var l := FindAddressForLine(env, q.latestFile, q.latestLine, q.latestFunc);
      earliest, latest := SideOf(e), SideOf(l);
    }
    earliest, latest := RelocateEnds(RelocationSymbols(env, q.function_), earliest, latest);
  }

  // ----- what relocation guarantees -----

  /** A side as the lookups deliver it: the offset, if any, is the distance to the base. */
  predicate Consistent(s: Side) {
    s.Side? ==> s.offset == if s.base.Some? then Some(s.addr - s.base.value) else None
  }

  lemma EndsConsistent(env: Env, q: Query)
    ensures Consistent(Ends(env, q).0) && Consistent(Ends(env, q).1)
  {
    hide RangeLookup, LineLookup;
  }

  /** With both ends found, both offsets are present and not negative exactly when no
      relocation is needed or a text symbol lies strictly below the lower end. */
  lemma OffsetsNonNegative(nm: seq<NmLine>, e: Side, l: Side)
    requires e.Side? && l.Side? && Consistent(e) && Consistent(l)
    ensures var r := Relocate(nm, e, l);
      (OffsetOk(r.0) && OffsetOk(r.1)) <==>
        (!NeedsRelocation(e, l) || exists i :: 0 <= i < |nm| && TextBelow(nm, i, Lower(e.addr, l.addr)))
  {
    hide BestBaseUpTo, IsText;
    BestBaseIsGreatest(nm, |nm|, Lower(e.addr, l.addr));
  }

  /** After relocation both ends share one base, the greatest text symbol strictly below the
      span, and their offsets keep the distance of the two addresses. */
  lemma RelocatedBase(nm: seq<NmLine>, e: Side, l: Side)
    requires e.Side? && l.Side? && NeedsRelocation(e, l)
    requires exists i :: 0 <= i < |nm| && TextBelow(nm, i, Lower(e.addr, l.addr))
    ensures var r := Relocate(nm, e, l);
      && r.0.Side? && r.1.Side? && r.0.addr == e.addr && r.1.addr == l.addr
      && r.0.base.Some? && r.0.base == r.1.base && r.0.symbol == r.1.symbol
      && r.0.base.value < e.addr && r.0.base.value < l.addr
      && (forall j :: 0 <= j < |nm| && TextBelow(nm, j, Lower(e.addr, l.addr)) ==> nm[j].addr <= r.0.base.value)
      && (exists i ::
            && 0 <= i < |nm| && TextBelow(nm, i, Lower(e.addr, l.addr))
            && nm[i].addr == r.0.base.value && nm[i].name == r.0.symbol)
      && r.0.offset.Some? && r.1.offset.Some? && r.1.offset.value - r.0.offset.value == l.addr - e.addr
  {
    hide BestBaseUpTo, IsText;
    BestBaseIsGreatest(nm, |nm|, Lower(e.addr, l.addr));
  }

  /** An end alone: with a text symbol below it, its offset is present and not negative
      unless a negative offset was there from the start, which is not relocated. */
  lemma SingleEndOffset(nm: seq<NmLine>, e: Side)
    requires e.Side? && Consistent(e)
    ensures OffsetOk(Relocate(nm, e, Missing).0) <==>
      if e.base.Some? then e.base.value <= e.addr else exists i :: 0 <= i < |nm| && TextBelow(nm, i, e.addr)
    ensures Relocate(nm, e, Missing).0 == Relocate(nm, Missing, e).1
  {
    hide BestBaseUpTo, IsText;
    BestBaseIsGreatest(nm, |nm|, e.addr);
  }

  /** An end alone and without a base gets the greatest text symbol strictly below it. */
  lemma RelocatedAlone(nm: seq<NmLine>, e: Side)
    requires e.Side? && e.base.None? && exists i :: 0 <= i < |nm| && TextBelow(nm, i, e.addr)
    ensures var r := Relocate(nm, e, Missing).0;
      && r.Side? && r.addr == e.addr && r.base.Some? && r.offset == Some(e.addr - r.base.value)
      && (forall j :: 0 <= j < |nm| && TextBelow(nm, j, e.addr) ==> nm[j].addr <= r.base.value)
      && (exists i :: 0 <= i < |nm| && TextBelow(nm, i, e.addr) && nm[i].addr == r.base.value && nm[i].name == r.symbol)
  {
    hide BestBaseUpTo, IsText;
    BestBaseIsGreatest(nm, |nm|, e.addr);
  }

  /** Nothing is relocated without need, or without a text symbol to relocate to. */
  lemma UnchangedOtherwise(nm: seq<NmLine>, e: Side, l: Side)
    ensures e.Side? && l.Side? && !NeedsRelocation(e, l) ==> Relocate(nm, e, l) == (e, l)
    ensures e.Side? && l.Side? && (forall i :: 0 <= i < |nm| ==> !TextBelow(nm, i, Lower(e.addr, l.addr))) ==>
      Relocate(nm, e, l) == (e, l)
    ensures e.Side? && (e.base.Some? || forall i :: 0 <= i < |nm| ==> !TextBelow(nm, i, e.addr)) ==>
      Relocate(nm, e, Missing) == (e, Missing)
    ensures Relocate(nm, Missing, Missing) == (Missing, Missing)
  {
    hide BestBaseUpTo, IsText;
    if e.Side? {
      BestBaseIsGreatest(nm, |nm|, e.addr);
      if l.Side? { BestBaseIsGreatest(nm, |nm|, Lower(e.addr, l.addr)); }
    }
  }

  // ----- whole results -----

  /** For every query whose two ends are found: the reported offsets are present and not
      negative exactly when the looked-up ones need no relocation or a text symbol lies
      strictly below the span. */
  lemma ReportedOffsets(env: Env, q: Query)
    requires var ends := Ends(env, q); ends.0.Side? && ends.1.Side?
    ensures var ends := Ends(env, q); var nm := RelocationSymbols(env, q.function_);
      var r := Relocate(nm, ends.0, ends.1);
      (OffsetOk(r.0) && OffsetOk(r.1)) <==>
        (!NeedsRelocation(ends.0, ends.1) ||
         exists i :: 0 <= i < |nm| && TextBelow(nm, i, Lower(ends.0.addr, ends.1.addr)))
  {
    hide Ends, Relocate, RelocationSymbols;
    EndsConsistent(env, q);
    var ends := Ends(env, q);
    OffsetsNonNegative(RelocationSymbols(env, q.function_), ends.0, ends.1);
  }

  /** A function found by containment starts at or below every address of its line. */
  lemma {:induction false} ModuleHitAboveBase(env: Env, modules: seq<(string, seq<ElfLine>)>, source: string,
                                            number: int)
    ensures var hit := InModules(env, modules, source, number);
      hit.Some? ==> hit.value.addrs != [] && forall a :: a in hit.value.addrs ==> hit.value.base <= a
  {
    if modules != [] {
      var name, elf := modules[0].0, modules[0].1;
      hide Mentions, PathOf, FunctionForLine;
      if Considered(env, name, elf, source) {
        SearchGuarantee(elf, Get(env.moduleNm, name).value, source, number);
      }
      ModuleHitAboveBase(env, modules[1..], source, number);
    }
  }

  lemma MismatchAboveBase(env: Env, a: Actual, source: string, number: int)
    ensures var hit := InliningMismatch(env, a, source, number);
      hit.Some? ==> hit.value.addrs != [] && forall x :: x in hit.value.addrs ==> hit.value.base <= x
  {
    hide FunctionForLine, InModules;
    SearchGuarantee(a.elf, a.nm, source, number);
    ModuleHitAboveBase(env, env.moduleElf, source, number);
  }

  /** A single-line span in a function found by containment is reported as looked up: both
      ends lie at or above the base, so nothing is relocated. */
  lemma MismatchNeedsNoRelocation(env: Env, q: Query)
    requires SameSource(q) && var a := ActualFor(env, q.earliestFunc);
      && a.nm != [] && FuncSymbol(a.nm, q.earliestFunc).None?
      && InliningMismatch(env, a, q.earliestFile, q.earliestLine).Some?
    ensures var ends := Ends(env, q);
      && ends.0.Side? && ends.1.Side? && OffsetOk(ends.0) && OffsetOk(ends.1)
      && !NeedsRelocation(ends.0, ends.1)
      && Relocate(RelocationSymbols(env, q.function_), ends.0, ends.1) == ends
  {
    hide InliningMismatch, RelocationSymbols, FuncSymbol, BestBase, CandidateAddresses, LineLookup;
    var a := ActualFor(env, q.earliestFunc);
    MismatchAboveBase(env, a, q.earliestFile, q.earliestLine);
    var hit := InliningMismatch(env, a, q.earliestFile, q.earliestLine).value;
    assert hit.addrs[0] in hit.addrs && hit.addrs[|hit.addrs| - 1] in hit.addrs;
  }
}
