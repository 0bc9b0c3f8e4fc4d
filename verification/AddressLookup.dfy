/** From a source line to an address: the single-address lookup, its near-copy that returns
    a range, and the agreement of the two. */
module AddressLookup {
  import opened Options
  import opened Listings
  import opened NearbyLines
  import opened Symbols

  datatype Binary = Vmlinux | ModuleFile(path: string)

  /** The module a symbol lives in. */
  datatype Home = Home(symbol: string, moduleName: string, path: string)

  /** Everything the lookups consult: the kernel's listings, those of the modules in
      dictionary order, and the disassembly of a function of a binary. */
  datatype Env = Env(nm: seq<NmLine>, elf: seq<ElfLine>, homes: seq<Home>,
                     moduleNm: seq<(string, seq<NmLine>)>, moduleElf: seq<(string, seq<ElfLine>)>,
                     objdump: (Binary, nat) -> seq<DumpLine>)

  function Get<V>(dict: seq<(string, V)>, key: string): Option<V> {
    if dict == [] then None else if dict[0].0 == key then Some(dict[0].1) else Get(dict[1..], key)
  }

  function HomeOf(homes: seq<Home>, symbol: string): Option<Home> {
    if homes == [] then None else if homes[0].symbol == symbol then Some(homes[0]) else HomeOf(homes[1..], symbol)
  }

  /** The module of a function, also under its compiler-made names. */
  function FindSymbolBinary(homes: seq<Home>, fn: string): Option<Home> {
    if HomeOf(homes, fn).Some? then HomeOf(homes, fn)
    else if HomeOf(homes, fn + ".part.0").Some? then HomeOf(homes, fn + ".part.0")
    else HomeOf(homes, fn + ".isra.0")
  }

  /** The first home in the dictionary's order with that symbol. */
  ghost predicate IsHome(homes: seq<Home>, symbol: string, h: Home) {
    exists i ::
      && 0 <= i < |homes| && homes[i] == h && h.symbol == symbol
      && forall j :: 0 <= j < i ==> homes[j].symbol != symbol
  }

  ghost predicate HasHome(homes: seq<Home>, symbol: string) {
    exists i :: 0 <= i < |homes| && homes[i].symbol == symbol
  }

  lemma {:induction false} HomeOfIsFirst(homes: seq<Home>, symbol: string)
    ensures match HomeOf(homes, symbol)
      case Some(h) => IsHome(homes, symbol, h)
      case None => !HasHome(homes, symbol)
  {
    if homes != [] && homes[0].symbol != symbol {
      HomeOfIsFirst(homes[1..], symbol);
      assert forall i :: 0 < i < |homes| ==> homes[i] == homes[1..][i - 1];
      if HomeOf(homes, symbol).Some? {
        var h := HomeOf(homes, symbol).value;
        var i :| 0 <= i < |homes[1..]| && homes[1..][i] == h
          && forall j :: 0 <= j < i ==> homes[1..][j].symbol != symbol;
        assert homes[i + 1] == h;
      }
    }
  }

  /** The names a function may have been compiled to, in order of preference. */
  function Variants(fn: string): seq<string> { [fn, fn + ".part.0", fn + ".isra.0"] }

  /** The home found is that of the first variant that has one; there is none exactly when no
      variant has one. */
  lemma HomeIsPreferred(homes: seq<Home>, fn: string)
    ensures match FindSymbolBinary(homes, fn)
      case Some(h) => exists k ::
        && 0 <= k < 3 && IsHome(homes, Variants(fn)[k], h)
        && forall j :: 0 <= j < k ==> !HasHome(homes, Variants(fn)[j])
      case None => forall j :: 0 <= j < 3 ==> !HasHome(homes, Variants(fn)[j])
  {
    hide HomeOf, IsHome, HasHome;
    forall j | 0 <= j < 3
      ensures match HomeOf(homes, Variants(fn)[j])
        case Some(h) => IsHome(homes, Variants(fn)[j], h)
        case None => !HasHome(homes, Variants(fn)[j])
    {
      HomeOfIsFirst(homes, Variants(fn)[j]);
    }
    assert Variants(fn)[0] == fn && Variants(fn)[1] == fn + ".part.0" && Variants(fn)[2] == fn + ".isra.0";
  }

  datatype Actual = Actual(binary: Binary, nm: seq<NmLine>, elf: seq<ElfLine>)

  function ActualFor(env: Env, fn: string): Actual {
    if env.homes == [] || env.moduleNm == [] then Actual(Vmlinux, env.nm, env.elf)
    else
      match FindSymbolBinary(env.homes, fn)
      case None => Actual(Vmlinux, env.nm, env.elf)
      case Some(h) =>
        if h.path == "" then Actual(Vmlinux, env.nm, env.elf)
        else
          var nm := Get(env.moduleNm, h.moduleName);
          var elf := Get(env.moduleElf, h.moduleName);
          Actual(ModuleFile(h.path), if nm.Some? then nm.value else env.nm, if elf.Some? then elf.value else env.elf)
  }

  /** `v` is the entry of a dictionary for `key`, or the default without one. */
  ghost predicate IsEntry<V(!new)>(dict: seq<(string, V)>, key: string, default: V, v: V) {
    || (v == default && forall i :: 0 <= i < |dict| ==> dict[i].0 != key)
    || exists i :: 0 <= i < |dict| && dict[i] == (key, v) && forall j :: 0 <= j < i ==> dict[j].0 != key
  }

  lemma {:induction false} GetIsEntry<V(!new)>(dict: seq<(string, V)>, key: string, default: V)
    ensures var v := Get(dict, key); IsEntry(dict, key, default, if v.Some? then v.value else default)
  {
    if dict != [] && dict[0].0 != key {
      GetIsEntry(dict[1..], key, default);
      var v := if Get(dict, key).Some? then Get(dict, key).value else default;
      assert forall i :: 0 < i < |dict| ==> dict[i] == dict[1..][i - 1];
      if !(v == default && forall i :: 0 <= i < |dict[1..]| ==> dict[1..][i].0 != key) {
        var i :| 0 <= i < |dict[1..]| && dict[1..][i] == (key, v) && forall j :: 0 <= j < i ==> dict[1..][j].0 != key;
        assert dict[i + 1] == (key, v);
      }
    }
  }

  /** A function with a home in a module that has a file is looked up in that file, with the
      module's listings or else the kernel's; any other function in the kernel. */
  lemma ActualIsHome(env: Env, fn: string)
    ensures var a := ActualFor(env, fn);
      match FindSymbolBinary(env.homes, fn)
      case Some(h) =>
        if h.path != "" && env.moduleNm != [] then
          && a.binary == ModuleFile(h.path)
          && IsEntry(env.moduleNm, h.moduleName, env.nm, a.nm) && IsEntry(env.moduleElf, h.moduleName, env.elf, a.elf)
        else a == Actual(Vmlinux, env.nm, env.elf)
      case None => a == Actual(Vmlinux, env.nm, env.elf)
  {
    hide IsEntry;
    var h := FindSymbolBinary(env.homes, fn);
    if h.Some? {
      GetIsEntry(env.moduleNm, h.value.moduleName, env.nm);
      GetIsEntry(env.moduleElf, h.value.moduleName, env.elf);
    }
  }

  predicate NamesFunction(name: string, fn: string) {
    name == fn || StartsWith(name, fn + ".")
  }

  /** The first symbol with the function's name, or that name and a suffix. */
  function FuncSymbol(nm: seq<NmLine>, fn: string): Option<Sym> {
    if nm == [] then None
    else if nm[0].Symbol? && NamesFunction(nm[0].name, fn) then Some(Sym(nm[0].name, nm[0].addr))
    else FuncSymbol(nm[1..], fn)
  }

  /** Line `i` names the function, or a part of it that the compiler split off. */
  ghost predicate IsPart(nm: seq<NmLine>, i: nat, fn: string)
    requires i < |nm|
  {
    nm[i].Symbol? && (nm[i].name == fn || exists suffix: string :: nm[i].name == fn + "." + suffix)
  }

  /** The symbol found is the first such line, and there is none exactly when no line is. */
  lemma {:induction false} FuncSymbolIsFirst(nm: seq<NmLine>, fn: string)
    ensures match FuncSymbol(nm, fn)
      case Some(s) => exists i ::
        && 0 <= i < |nm| && IsPart(nm, i, fn) && nm[i].Symbol?
        && s == Sym(nm[i].name, nm[i].addr) && forall j :: 0 <= j < i ==> !IsPart(nm, j, fn)
      case None => forall j :: 0 <= j < |nm| ==> !IsPart(nm, j, fn)
  {
    if nm != [] {
      if nm[0].Symbol? { NamesArePrefixes(nm[0].name, fn); }
      hide NamesFunction;
      FuncSymbolIsFirst(nm[1..], fn);
      assert forall j :: 0 < j < |nm| ==> (IsPart(nm, j, fn) <==> IsPart(nm[1..], j - 1, fn));
      hide IsPart;
      if !IsPart(nm, 0, fn) && FuncSymbol(nm, fn).Some? {
        var s := FuncSymbol(nm, fn).value;
        var i :| 0 <= i < |nm[1..]| && IsPart(nm[1..], i, fn) && nm[1..][i].Symbol?
          && s == Sym(nm[1..][i].name, nm[1..][i].addr) && forall j :: 0 <= j < i ==> !IsPart(nm[1..], j, fn);
        assert IsPart(nm, i + 1, fn);
        forall j | 0 <= j < i + 1 ensures !IsPart(nm, j, fn) {
          if j > 0 { assert IsPart(nm, j, fn) <==> IsPart(nm[1..], j - 1, fn); }
        }
      }
    }
  }

  lemma NamesArePrefixes(name: string, fn: string)
    ensures NamesFunction(name, fn) <==> name == fn || exists suffix: string :: name == fn + "." + suffix
  {
    if StartsWith(name, fn + ".") { assert name == fn + "." + name[|fn| + 1..]; }
  }

  method FindFuncSymbol(nm: seq<NmLine>, fn: string) returns (r: Option<Sym>)
    ensures r == FuncSymbol(nm, fn)
  {
    for i := 0 to |nm|
      invariant FuncSymbol(nm, fn) == FuncSymbol(nm[i..], fn)
    {
      assert nm[i..][1..] == nm[i + 1..];
      if nm[i].Symbol? && NamesFunction(nm[i].name, fn) { return Some(Sym(nm[i].name, nm[i].addr)); }
    }
    r := None;
  }

  // ----- searching the modules -----

  predicate LineMentions(l: ElfLine, filename: string) {
    match l
    case Header(dir) => Contains(dir, filename)
    case Row(file, _, _) => Contains(file, filename)
    case OtherElf(text) => Contains(text, filename)
  }

  predicate Mentions(elf: seq<ElfLine>, filename: string) {
    exists i :: 0 <= i < |elf| && LineMentions(elf[i], filename)
  }

  /** The path of the first symbol of a module. */
  function PathOf(homes: seq<Home>, moduleName: string): string {
    if homes == [] then ""
    else if homes[0].moduleName == moduleName then homes[0].path
    else PathOf(homes[1..], moduleName)
  }

  /** Whether the search looks into a module at all. */
  predicate Considered(env: Env, name: string, elf: seq<ElfLine>, source: string) {
    Mentions(elf, BaseName(source)) && Get(env.moduleNm, name).Some? && PathOf(env.homes, name) != ""
  }

  function InModules(env: Env, modules: seq<(string, seq<ElfLine>)>, source: string, number: int): Option<Hit> {
    if modules == [] then None
    else
      var name, elf := modules[0].0, modules[0].1;
      if !Considered(env, name, elf, source) then InModules(env, modules[1..], source, number)
      else
        var hit := FunctionForLine(elf, Get(env.moduleNm, name).value, source, number);
        if hit.Some? then hit else InModules(env, modules[1..], source, number)
  }

  method SearchModules(env: Env, source: string, number: int) returns (r: Option<Hit>)
    ensures r == InModules(env, env.moduleElf, source, number)
  {
    var modules := env.moduleElf;
    for i := 0 to |modules|
      invariant InModules(env, modules, source, number) == InModules(env, modules[i..], source, number)
    {
      assert modules[i..][1..] == modules[i + 1..];
      var name, elf := modules[i].0, modules[i].1;
      if Mentions(elf, BaseName(source)) {
        var nm := Get(env.moduleNm, name);
        if nm.Some? {
          if PathOf(env.homes, name) != "" {
            r := FindFunctionForSourceLine(elf, nm.value, source, number);
            if r.Some? { return; }
          }
        }
      }
    }
    r := None;
  }

  /** The path is that of the module's first symbol in the dictionary. */
  lemma {:induction false} PathIsFirst(homes: seq<Home>, moduleName: string)
    ensures PathOf(homes, moduleName) != "" <==> exists i ::
      && 0 <= i < |homes| && homes[i].moduleName == moduleName && homes[i].path != ""
      && forall j :: 0 <= j < i ==> homes[j].moduleName != moduleName
  {
    if homes != [] && homes[0].moduleName != moduleName {
      PathIsFirst(homes[1..], moduleName);
      assert forall i :: 0 < i < |homes| ==> homes[i] == homes[1..][i - 1];
      if PathOf(homes, moduleName) != "" {
        var i :| 0 <= i < |homes[1..]| && homes[1..][i].moduleName == moduleName && homes[1..][i].path != ""
          && forall j :: 0 <= j < i ==> homes[1..][j].moduleName != moduleName;
        assert homes[i + 1].moduleName == moduleName;
      }
    }
  }

  /** A module is looked into exactly when its line table mentions the file, its symbols are
      cached and its first symbol has a path. */
  lemma ConsideredIs(env: Env, name: string, elf: seq<ElfLine>, source: string)
    ensures Considered(env, name, elf, source) <==>
      && (exists i :: 0 <= i < |elf| && LineMentions(elf[i], BaseName(source)))
      && (exists i :: 0 <= i < |env.moduleNm| && env.moduleNm[i].0 == name)
      && (exists i ::
            && 0 <= i < |env.homes| && env.homes[i].moduleName == name && env.homes[i].path != ""
            && forall j :: 0 <= j < i ==> env.homes[j].moduleName != name)
  {
    hide LineMentions, BaseName, PathOf;
    PathIsFirst(env.homes, name);
    HasEntry(env.moduleNm, name);
  }

  lemma {:induction false} HasEntry<V>(dict: seq<(string, V)>, key: string)
    ensures Get(dict, key).Some? <==> exists i :: 0 <= i < |dict| && dict[i].0 == key
  {
    if dict != [] && dict[0].0 != key {
      HasEntry(dict[1..], key);
      assert forall i :: 0 < i < |dict| ==> dict[i] == dict[1..][i - 1];
      if i :| 0 <= i < |dict[1..]| && dict[1..][i].0 == key { assert dict[i + 1].0 == key; }
    }
  }

  /** What one module answers. */
  function ModuleHit(env: Env, name: string, elf: seq<ElfLine>, source: string, number: int): Option<Hit> {
    if Considered(env, name, elf, source) then FunctionForLine(elf, Get(env.moduleNm, name).value, source, number)
    else None
  }

  /** The search answers as the first module that has an answer. */
  lemma {:induction false} FirstModule(env: Env, modules: seq<(string, seq<ElfLine>)>, source: string, number: int)
    ensures match InModules(env, modules, source, number)
      case Some(hit) => exists k ::
        && 0 <= k < |modules| && ModuleHit(env, modules[k].0, modules[k].1, source, number) == Some(hit)
        && forall j :: 0 <= j < k ==> ModuleHit(env, modules[j].0, modules[j].1, source, number) == None
      case None => forall j :: 0 <= j < |modules| ==> ModuleHit(env, modules[j].0, modules[j].1, source, number) == None
  {
    hide Considered, FunctionForLine;
    if modules != [] {
      FirstModule(env, modules[1..], source, number);
      hide ModuleHit;
      assert forall j :: 0 < j < |modules| ==> modules[j] == modules[1..][j - 1];
      var first := ModuleHit(env, modules[0].0, modules[0].1, source, number);
      if first == None && InModules(env, modules, source, number).Some? {
        var hit := InModules(env, modules, source, number).value;
        var k :| 0 <= k < |modules[1..]|
          && ModuleHit(env, modules[1..][k].0, modules[1..][k].1, source, number) == Some(hit)
          && forall j :: 0 <= j < k ==> ModuleHit(env, modules[1..][j].0, modules[1..][j].1, source, number) == None;
        assert ModuleHit(env, modules[k + 1].0, modules[k + 1].1, source, number) == Some(hit);
      }
    }
  }

  /** The function of a source line when the reported function is not in the symbol table. */
  function InliningMismatch(env: Env, a: Actual, source: string, number: int): Option<Hit> {
    var hit := FunctionForLine(a.elf, a.nm, source, number);
    if hit.Some? then hit
    else if env.moduleElf != [] && env.homes != [] then InModules(env, env.moduleElf, source, number)
    else None
  }

  /** The function's own listings answer first, then the modules in order. */
  lemma MismatchIsFirst(env: Env, a: Actual, source: string, number: int)
    ensures var own := FunctionForLine(a.elf, a.nm, source, number);
      && (own.Some? ==> InliningMismatch(env, a, source, number) == own)
      && (own.None? && env.homes != [] ==>
            match InliningMismatch(env, a, source, number)
            case Some(hit) => exists k ::
              && 0 <= k < |env.moduleElf|
              && ModuleHit(env, env.moduleElf[k].0, env.moduleElf[k].1, source, number) == Some(hit)
              && forall j :: 0 <= j < k ==>
                   ModuleHit(env, env.moduleElf[j].0, env.moduleElf[j].1, source, number) == None
            case None => forall j :: 0 <= j < |env.moduleElf| ==>
              ModuleHit(env, env.moduleElf[j].0, env.moduleElf[j].1, source, number) == None)
      && (own.None? && env.homes == [] ==> InliningMismatch(env, a, source, number) == None)
  {
    hide FunctionForLine, ModuleHit, InModules;
    FirstModule(env, env.moduleElf, source, number);
  }

  // ----- the two lookups -----

  /** `base` is None when only the line table knew the line. */
  datatype Place = Nowhere | Place(addr: nat, base: Option<nat>, symbol: string)
  datatype Range = NoRange | Range(start: nat, end: nat, base: Option<nat>, symbol: string)

  method FindAddressForLine(env: Env, source: string, number: int, fn: string) returns (r: Place)
    ensures r == LineLookup(env, source, number, fn)
  {
    var a := ActualFor(env, fn);
    if a.nm == [] { return Nowhere; }
    var func := FindFuncSymbol(a.nm, fn);
    if func.None? {
      var hit := FindFunctionForSourceLine(a.elf, a.nm, source, number);
      if hit.None? && env.moduleElf != [] && env.homes != [] {
        hit := SearchModules(env, source, number);
      }
      if hit.Some? && hit.value.addrs != [] {
        return Place(hit.value.addrs[0], Some(hit.value.base), hit.value.name);
      }
      var cands := FindCandidates(a.elf, source, number);
      if cands != [] { return Place(cands[0], None, fn); }
      return Nowhere;
    }
    var dump := env.objdump(a.binary, func.value.addr);
    var addresses := ScanListing(dump, source, number);
    if addresses != [] { return Place(addresses[0], Some(func.value.addr), func.value.name); }
    var nearby := TryNearbyLines(dump, source, number);
    if nearby.Some? && nearby.value.0 != 0 && nearby.value.1 != [] {
      return Place(nearby.value.1[0], Some(func.value.addr), func.value.name);
    }
    var cands := FindCandidates(a.elf, source, number);
    if cands != [] { return Place(cands[0], Some(func.value.addr), func.value.name); }
    r := Nowhere;
  }

  function LineLookup(env: Env, source: string, number: int, fn: string): Place {
    var a := ActualFor(env, fn);
    if a.nm == [] then Nowhere
    else
      match FuncSymbol(a.nm, fn)
      case None => LineLookupElsewhere(env, a, source, number, fn)
      case Some(f) => LineLookupInside(env.objdump(a.binary, f.addr), a.elf, f, source, number)
  }

  function LineLookupElsewhere(env: Env, a: Actual, source: string, number: int, fn: string): Place {
    var hit := InliningMismatch(env, a, source, number);
    if hit.Some? && hit.value.addrs != [] then Place(hit.value.addrs[0], Some(hit.value.base), hit.value.name)
    else
      var cands := CandidateAddresses(a.elf, source, number);
      if cands != [] then Place(cands[0], None, fn) else Nowhere
  }

  function LineLookupInside(dump: seq<DumpLine>, elf: seq<ElfLine>, f: Sym, source: string, number: int): Place {
    var exact := LineAddresses(dump, source, number);
    if exact != [] then Place(exact[0], Some(f.addr), f.name)
    else
      var nearby := Nearby(dump, source, number);
      if nearby.Some? && nearby.value.0 != 0 && nearby.value.1 != [] then
        Place(nearby.value.1[0], Some(f.addr), f.name)
      else
        var cands := CandidateAddresses(elf, source, number);
        if cands != [] then Place(cands[0], Some(f.addr), f.name) else Nowhere
  }

  method FindAddressRangeForSingleLine(env: Env, source: string, number: int, fn: string) returns (r: Range)
    ensures r == RangeLookup(env, source, number, fn)
  {
    var a := ActualFor(env, fn);
    if a.nm == [] { return NoRange; }
    var func := FindFuncSymbol(a.nm, fn);
    if func.None? {
      var hit := FindFunctionForSourceLine(a.elf, a.nm, source, number);
      if hit.None? && env.moduleElf != [] && env.homes != [] {
        hit := SearchModules(env, source, number);
      }
      if hit.Some? && hit.value.addrs != [] {
        var found := hit.value.addrs;
        return Range(found[0], found[|found| - 1], Some(hit.value.base), hit.value.name);
      }
      var cands := FindCandidates(a.elf, source, number);
      if cands != [] { return Range(cands[0], cands[0], None, fn); }
      return NoRange;
    }
    var dump := env.objdump(a.binary, func.value.addr);
    var addresses := ScanListing(dump, source, number);
    if addresses != [] {
      return Range(addresses[0], addresses[|addresses| - 1], Some(func.value.addr), func.value.name);
    }
    var nearby := TryNearbyLines(dump, source, number);
    if nearby.Some? && nearby.value.0 != 0 && nearby.value.1 != [] {
      addresses := nearby.value.1;
      return Range(addresses[0], addresses[|addresses| - 1], Some(func.value.addr), func.value.name);
    }
    var cands := FindCandidates(a.elf, source, number);
    if cands != [] { return Range(cands[0], cands[0], Some(func.value.addr), func.value.name); }
    r := NoRange;
  }

  function RangeLookup(env: Env, source: string, number: int, fn: string): Range {
    var a := ActualFor(env, fn);
    if a.nm == [] then NoRange
    else
      match FuncSymbol(a.nm, fn)
      case None => RangeLookupElsewhere(env, a, source, number, fn)
      case Some(f) => RangeLookupInside(env.objdump(a.binary, f.addr), a.elf, f, source, number)
  }

  function RangeLookupElsewhere(env: Env, a: Actual, source: string, number: int, fn: string): Range {
    var hit := InliningMismatch(env, a, source, number);
    if hit.Some? && hit.value.addrs != [] then
      var found := hit.value.addrs;
      Range(found[0], found[|found| - 1], Some(hit.value.base), hit.value.name)
    else
      var cands := CandidateAddresses(a.elf, source, number);
      if cands != [] then Range(cands[0], cands[0], None, fn) else NoRange
  }

  function RangeLookupInside(dump: seq<DumpLine>, elf: seq<ElfLine>, f: Sym, source: string, number: int): Range {
    var exact := LineAddresses(dump, source, number);
    if exact != [] then Range(exact[0], exact[|exact| - 1], Some(f.addr), f.name)
    else
      var nearby := Nearby(dump, source, number);
      if nearby.Some? && nearby.value.0 != 0 && nearby.value.1 != [] then
        Range(nearby.value.1[0], nearby.value.1[|nearby.value.1| - 1], Some(f.addr), f.name)
      else
        var cands := CandidateAddresses(elf, source, number);
        if cands != [] then Range(cands[0], cands[0], Some(f.addr), f.name) else NoRange
  }

  // ----- agreement -----

  /** The range without its end. */
  function StartOf(r: Range): Place {
    match r
    case NoRange => Nowhere
    case Range(start, _, base, symbol) => Place(start, base, symbol)
  }

  /** For all inputs, the single-address lookup gives the start, base and symbol of the
      range lookup. */
  lemma LookupsAgree(env: Env, source: string, number: int, fn: string)
    ensures LineLookup(env, source, number, fn) == StartOf(RangeLookup(env, source, number, fn))
  {
    var a := ActualFor(env, fn);
    hide InliningMismatch, CandidateAddresses, LineAddresses, Nearby;
    assert LineLookupElsewhere(env, a, source, number, fn) == StartOf(RangeLookupElsewhere(env, a, source, number, fn));
    var f := FuncSymbol(a.nm, fn);
    if f.Some? {
      var dump := env.objdump(a.binary, f.value.addr);
      assert LineLookupInside(dump, a.elf, f.value, source, number) ==
        StartOf(RangeLookupInside(dump, a.elf, f.value, source, number));
    }
  }

  /** Line `line` is the one the lookup inside a function settles on: the wanted line if it
      has instructions, else the nearest within 3, the lower one of two equally near. */
  ghost predicate IsBestLine(dump: seq<DumpLine>, source: string, number: int, line: int) {
    && LineAddresses(dump, source, line) != []
    && (line == number || (LineAddresses(dump, source, number) == [] && IsNearest(dump, source, number, line)))
  }

  /** Instruction `i` is the first one of a line in the listing, and `p` its place, with the
      function's start as base. */
  ghost predicate IsPlaceOf(dump: seq<DumpLine>, i: nat, f: Sym, source: string, line: int, p: Place)
    requires i < |dump|
  {
    dump[i].Insn? && IsFirst(dump, i, source, line) && p == Place(dump[i].addr, Some(f.addr), f.name)
  }

  /** For a function of the symbol table, if the wanted line or one within 3 of it has
      instructions in the function's listing, the lookup answers with the first instruction
      of the best such line. */
  lemma NearestLineRefinement(env: Env, source: string, number: int, fn: string, near: int)
    requires var a := ActualFor(env, fn); var f := FuncSymbol(a.nm, fn);
      f.Some? && LineAddresses(env.objdump(a.binary, f.value.addr), source, near) != []
    requires near == number || Eligible(number, near)
    ensures var a := ActualFor(env, fn); var f := FuncSymbol(a.nm, fn).value;
      var dump := env.objdump(a.binary, f.addr);
      exists line, i :: 0 <= i < |dump| && IsBestLine(dump, source, number, line)
        && IsPlaceOf(dump, i, f, source, line, LineLookup(env, source, number, fn))
  {
    hide LineAddresses, CandidateAddresses, Nearby, ActualFor, IsFirst;
    var a := ActualFor(env, fn);
    var f := FuncSymbol(a.nm, fn).value;
    var dump := env.objdump(a.binary, f.addr);
    assert LineLookup(env, source, number, fn) == LineLookupInside(dump, a.elf, f, source, number);
    var best := number;
    if LineAddresses(dump, source, number) == [] {
      NearbyIsNearest(dump, source, number);
      best := Nearby(dump, source, number).value.0;
    }
    assert IsBestLine(dump, source, number, best);
    var i := FirstAddress(dump, source, best);
    assert IsPlaceOf(dump, i, f, source, best, LineLookup(env, source, number, fn));
  }

  /** The range of a line: from its first instruction to its last, with the function's start
      as base. */
  ghost predicate IsRangeOf(dump: seq<DumpLine>, i: nat, k: nat, f: Sym, source: string, line: int, r: Range)
    requires i < |dump| && k < |dump|
  {
    && dump[i].Insn? && IsFirst(dump, i, source, line) && dump[k].Insn? && IsLast(dump, k, source, line)
    && r == Range(dump[i].addr, dump[k].addr, Some(f.addr), f.name)
  }

  /** For a function of the symbol table the range is that of the best line, from its first
      instruction in the listing to its last. */
  lemma RangeRefinement(env: Env, source: string, number: int, fn: string, near: int)
    requires var a := ActualFor(env, fn); var f := FuncSymbol(a.nm, fn);
      f.Some? && LineAddresses(env.objdump(a.binary, f.value.addr), source, near) != []
    requires near == number || Eligible(number, near)
    ensures var a := ActualFor(env, fn); var f := FuncSymbol(a.nm, fn).value;
      var dump := env.objdump(a.binary, f.addr);
      exists line, i, k :: 0 <= i < |dump| && 0 <= k < |dump| && IsBestLine(dump, source, number, line)
        && IsRangeOf(dump, i, k, f, source, line, RangeLookup(env, source, number, fn))
  {
    hide LineAddresses, CandidateAddresses, Nearby, ActualFor, IsFirst, IsLast;
    var a := ActualFor(env, fn);
    var f := FuncSymbol(a.nm, fn).value;
    var dump := env.objdump(a.binary, f.addr);
    assert RangeLookup(env, source, number, fn) == RangeLookupInside(dump, a.elf, f, source, number);
    var best := number;
    if LineAddresses(dump, source, number) == [] {
      NearbyIsNearest(dump, source, number);
      best := Nearby(dump, source, number).value.0;
    }
    assert IsBestLine(dump, source, number, best);
    var i := FirstAddress(dump, source, best);
    var k := LastAddress(dump, source, best);
    assert IsRangeOf(dump, i, k, f, source, best, RangeLookup(env, source, number, fn));
  }

  /** Row `i` is the first candidate row of the line table. */
  ghost predicate IsFirstRow(elf: seq<ElfLine>, i: nat, source: string, number: int)
    requires i < |elf|
  {
    IsCandidate(elf, i, source, number) && forall j :: 0 <= j < i ==> !IsCandidate(elf, j, source, number)
  }

  lemma FirstRow(elf: seq<ElfLine>, source: string, number: int) returns (i: nat)
    requires CandidateAddresses(elf, source, number) != []
    ensures i < |elf| && elf[i].Row? && IsFirstRow(elf, i, source, number)
    ensures CandidateAddresses(elf, source, number)[0] == elf[i].addr
  {
    hide IsCandidate;
    var at := CandidatesInOrder(elf, |elf|, source, number);
    i := at[0];
    assert forall j :: 0 <= j < |elf| && IsCandidate(elf, j, source, number) ==>
      exists k :: 0 <= k < |at| && at[k] == j;
  }

  lemma NoRows(elf: seq<ElfLine>, source: string, number: int)
    requires CandidateAddresses(elf, source, number) == []
    ensures forall i :: 0 <= i < |elf| ==> !IsCandidate(elf, i, source, number)
  {
    hide IsCandidate;
    var at := CandidatesInOrder(elf, |elf|, source, number);
    assert at == [];
  }

  /** The answer of the line table alone: the first candidate row, as a range of one address,
      and nothing exactly when there is no such row. */
  ghost predicate IsRowRange(elf: seq<ElfLine>, source: string, number: int, base: Option<nat>, symbol: string,
                             r: Range) {
    if r.NoRange? then forall i :: 0 <= i < |elf| ==> !IsCandidate(elf, i, source, number)
    else exists i ::
      && 0 <= i < |elf| && elf[i].Row? && IsFirstRow(elf, i, source, number)
      && r == Range(elf[i].addr, elf[i].addr, base, symbol)
  }

  lemma RowRange(elf: seq<ElfLine>, source: string, number: int, base: Option<nat>, symbol: string)
    ensures var cands := CandidateAddresses(elf, source, number);
      IsRowRange(elf, source, number, base, symbol,
                 if cands != [] then Range(cands[0], cands[0], base, symbol) else NoRange)
  {
    hide IsCandidate;
    if CandidateAddresses(elf, source, number) != [] {
      var i := FirstRow(elf, source, number);
    } else {
      NoRows(elf, source, number);
    }
  }

  /** Without an instruction of the line, or of one within 3, the line table answers. */
  lemma FallbackRange(env: Env, source: string, number: int, fn: string)
    requires var a := ActualFor(env, fn); var f := FuncSymbol(a.nm, fn);
      f.Some? && var dump := env.objdump(a.binary, f.value.addr);
      forall l :: l == number || Eligible(number, l) ==> LineAddresses(dump, source, l) == []
    ensures var a := ActualFor(env, fn); var f := FuncSymbol(a.nm, fn).value;
      IsRowRange(a.elf, source, number, Some(f.addr), f.name, RangeLookup(env, source, number, fn))
  {
    hide LineAddresses, CandidateAddresses, Nearby, ActualFor, IsRowRange;
    var a := ActualFor(env, fn);
    var f := FuncSymbol(a.nm, fn).value;
    var dump := env.objdump(a.binary, f.addr);
    NearbyIsNearest(dump, source, number);
    RowRange(a.elf, source, number, Some(f.addr), f.name);
  }

  /** `start` and `end` are the first and the last candidate that belong to the function. */
  ghost predicate AreEnds(cands: seq<nat>, sorted: seq<Sym>, name: string, start: nat, end: nat) {
    exists i, k :: 0 <= i < |cands| && 0 <= k < |cands| && start == cands[i] && end == cands[k]
      && Owns(sorted, cands[i], name) && Owns(sorted, cands[k], name)
      && (forall j :: 0 <= j < i ==> !Owns(sorted, cands[j], name))
      && (forall j :: k < j < |cands| ==> !Owns(sorted, cands[j], name))
  }

  lemma OwedEnds(cands: seq<nat>, sorted: seq<Sym>, name: string)
    requires Ascending(sorted) && Owed(sorted, cands, name) != []
    ensures var owed := Owed(sorted, cands, name); AreEnds(cands, sorted, name, owed[0], owed[|owed| - 1])
  {
    hide Owns, Owed;
    var at := OwedInOrder(sorted, cands, name);
    assert forall j :: 0 <= j < |cands| && Owns(sorted, cands[j], name) ==> exists k :: 0 <= k < |at| && at[k] == j;
    var i, k := at[0], at[|at| - 1];
    assert Owns(sorted, cands[i], name) && Owns(sorted, cands[k], name);
  }

  /** The listings one of which knows the function of a line: the function's own, else those
      of the modules. */
  ghost predicate Consulted(env: Env, a: Actual, elf: seq<ElfLine>, nm: seq<NmLine>) {
    || (elf == a.elf && nm == a.nm)
    || exists k ::
      && 0 <= k < |env.moduleElf| && env.moduleElf[k].1 == elf
      && Get(env.moduleNm, env.moduleElf[k].0) == Some(nm)
  }

  lemma MismatchConsults(env: Env, a: Actual, source: string, number: int) returns (elf: seq<ElfLine>, nm: seq<NmLine>)
    requires InliningMismatch(env, a, source, number).Some?
    ensures Consulted(env, a, elf, nm)
    ensures FunctionForLine(elf, nm, source, number) == InliningMismatch(env, a, source, number)
  {
    hide FunctionForLine, Mentions, PathOf;
    elf, nm := a.elf, a.nm;
    if FunctionForLine(elf, nm, source, number) == None {
      var hit := InliningMismatch(env, a, source, number);
      FirstModule(env, env.moduleElf, source, number);
      var k :| 0 <= k < |env.moduleElf|
        && ModuleHit(env, env.moduleElf[k].0, env.moduleElf[k].1, source, number) == hit;
      elf, nm := env.moduleElf[k].1, Get(env.moduleNm, env.moduleElf[k].0).value;
    }
  }

  /** For a function that is not in its symbol table, the range runs from the first to the
      last address of the line in the function that contains most of them, with that
      function's start as base; without such a function the line table answers alone. */
  lemma ContainmentRange(env: Env, source: string, number: int, fn: string)
    requires var a := ActualFor(env, fn); a.nm != [] && FuncSymbol(a.nm, fn).None?
    ensures var a := ActualFor(env, fn);
      match InliningMismatch(env, a, source, number)
      case Some(hit) =>
        exists elf, nm, start, end ::
          && Consulted(env, a, elf, nm) && FunctionForLine(elf, nm, source, number) == Some(hit)
          && AreEnds(CandidateAddresses(elf, source, number), SortSyms(Table(nm, |nm|)), hit.name, start, end)
          && RangeLookup(env, source, number, fn) == Range(start, end, Some(hit.base), hit.name)
      case None => IsRowRange(a.elf, source, number, None, fn, RangeLookup(env, source, number, fn))
  {
    hide InliningMismatch, CandidateAddresses, ActualFor, IsRowRange, FunctionForLine, Consulted, AreEnds, SortSyms,
      Table, Owed, FuncSymbol;
    var a := ActualFor(env, fn);
    RowRange(a.elf, source, number, None, fn);
    if InliningMismatch(env, a, source, number).Some? {
      var elf, nm := MismatchConsults(env, a, source, number);
      var hit := InliningMismatch(env, a, source, number).value;
      SearchGuarantee(elf, nm, source, number);
      SortKeeps(Table(nm, |nm|));
      var cands, sorted := CandidateAddresses(elf, source, number), SortSyms(Table(nm, |nm|));
      OwedEnds(cands, sorted, hit.name);
      var owed := Owed(sorted, cands, hit.name);
      assert AreEnds(cands, sorted, hit.name, owed[0], owed[|owed| - 1]);
      assert RangeLookup(env, source, number, fn) == Range(owed[0], owed[|owed| - 1], Some(hit.base), hit.name);
    }
  }

  /** There is only one best line. */
  lemma BestLineUnique(dump: seq<DumpLine>, source: string, number: int, l1: int, l2: int)
    requires IsBestLine(dump, source, number, l1) && IsBestLine(dump, source, number, l2)
    ensures l1 == l2
  {
    hide LineAddresses;
    assert l1 == l2 || Sooner(number, l1, l2) || Sooner(number, l2, l1);
  }
}
