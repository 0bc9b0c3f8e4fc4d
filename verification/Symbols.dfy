/** Which function contains an address: predecessor search in the sorted symbol table. */
module Symbols {
  import opened Options
  import opened Listings

  datatype Sym = Sym(name: string, addr: nat)

  // ----- candidate addresses from the line table -----

  /** The directory in force before line `i`. */
  function DirAt(elf: seq<ElfLine>, i: nat): Option<string>
    requires i <= |elf|
  {
    if i == 0 then None
    else if elf[i - 1].Header? then Some(elf[i - 1].dir)
    else DirAt(elf, i - 1)
  }

  /** Line `k` is the last header above line `i`, whatever lies between. */
  ghost predicate LastHeader(elf: seq<ElfLine>, k: int, i: nat)
    requires i <= |elf|
  {
    0 <= k < i && elf[k].Header? && forall j :: k < j < i ==> !elf[j].Header?
  }

  lemma {:induction false} DirIsLast(elf: seq<ElfLine>, i: nat)
    requires i <= |elf|
    ensures match DirAt(elf, i)
      case Some(dir) => exists k :: LastHeader(elf, k, i) && elf[k] == Header(dir)
      case None => forall k :: !LastHeader(elf, k, i)
  {
    if i > 0 {
      if elf[i - 1].Header? {
        assert LastHeader(elf, i - 1, i);
      } else {
        DirIsLast(elf, i - 1);
        assert forall k :: LastHeader(elf, k, i) <==> LastHeader(elf, k, i - 1);
      }
    }
  }

  /** Row `i` is for the wanted line of the wanted file, in a compatible directory. */
  predicate IsCandidate(elf: seq<ElfLine>, i: nat, source: string, number: int)
    requires i < |elf|
  {
    && elf[i].Row? && elf[i].line == number && elf[i].file == BaseName(source)
    && var dir := DirAt(elf, i);
       dir.None? || Contains(NormalizePath(dir.value), NormalizePath(source)) || Contains(dir.value, BaseName(source))
  }

  /** Without the carried state: the row names the line and the base name of the file, and the
      last header above, if there is one, contains the path or the base name. */
  lemma CandidateIs(elf: seq<ElfLine>, i: nat, source: string, number: int)
    requires i < |elf|
    ensures IsCandidate(elf, i, source, number) <==>
      && elf[i].Row? && elf[i].line == number && elf[i].file == BaseName(source)
      && forall k :: LastHeader(elf, k, i) ==> MayHold(elf[k], source)
  {
    hide Contains, NormalizePath, BaseName, MayHold;
    DirIsLast(elf, i);
    if k :| LastHeader(elf, k, i) {
      assert forall l :: LastHeader(elf, l, i) ==> l == k;
      MayHoldIs(elf[k], source);
    }
  }

  ghost predicate MayHold(l: ElfLine, source: string) {
    && l.Header?
    && ((exists a, b :: NormalizePath(l.dir) == a + NormalizePath(source) + b)
        || (exists a, b :: l.dir == a + BaseName(source) + b))
  }

  lemma MayHoldIs(l: ElfLine, source: string)
    requires l.Header?
    ensures MayHold(l, source) <==>
      Contains(NormalizePath(l.dir), NormalizePath(source)) || Contains(l.dir, BaseName(source))
  {
    hide Contains, NormalizePath, BaseName;
    ContainsIs(NormalizePath(l.dir), NormalizePath(source));
    ContainsIs(l.dir, BaseName(source));
  }

  function CandidatesUpTo(elf: seq<ElfLine>, n: nat, source: string, number: int): seq<nat>
    requires n <= |elf|
  {
    if n == 0 then []
    else
      var front := CandidatesUpTo(elf, n - 1, source, number);
      if IsCandidate(elf, n - 1, source, number) then front + [elf[n - 1].addr] else front
  }

  function CandidateAddresses(elf: seq<ElfLine>, source: string, number: int): seq<nat> {
    CandidatesUpTo(elf, |elf|, source, number)
  }

  /** The candidate addresses are those of all candidate rows, once each and in listing
      order; `at` are the rows. */
  lemma {:induction false} CandidatesInOrder(elf: seq<ElfLine>, n: nat, source: string, number: int)
    returns (at: seq<nat>)
    requires n <= |elf|
    ensures forall k :: 0 <= k < |at| ==> at[k] < n && IsCandidate(elf, at[k], source, number)
    ensures forall k, l :: 0 <= k < l < |at| ==> at[k] < at[l]
    ensures forall i :: 0 <= i < n && IsCandidate(elf, i, source, number) ==> i in at
    ensures |at| == |CandidatesUpTo(elf, n, source, number)|
    ensures forall k :: 0 <= k < |at| ==>
      elf[at[k]].Row? && CandidatesUpTo(elf, n, source, number)[k] == elf[at[k]].addr
  {
    at := [];
    if n > 0 {
      assert IsCandidate(elf, n - 1, source, number) ==> elf[n - 1].Row?;
      hide IsCandidate;
      at := CandidatesInOrder(elf, n - 1, source, number);
      if IsCandidate(elf, n - 1, source, number) { at := at + [n - 1]; }
    }
  }

  method FindCandidates(elf: seq<ElfLine>, source: string, number: int) returns (cands: seq<nat>)
    ensures cands == CandidateAddresses(elf, source, number)
  {
    cands := [];
    var currentDir: Option<string> := None;
    var filename := BaseName(source);
    for i := 0 to |elf|
      invariant cands == CandidatesUpTo(elf, i, source, number) && currentDir == DirAt(elf, i)
    {
      match elf[i]
      case Header(dir) => currentDir := Some(dir);
      case Row(file, line, addr) =>
        if line == number && file == filename {
          if currentDir.Some? {
            if Contains(NormalizePath(currentDir.value), NormalizePath(source))
              || Contains(currentDir.value, filename) {
              cands := cands + [addr];
            }
          } else {
            cands := cands + [addr];
          }
        }
      case OtherElf(_) =>
    }
  }

  // ----- the symbol table as a dictionary -----

  function Position(table: seq<Sym>, name: string): (r: nat)
    ensures r <= |table| && (r < |table| ==> table[r].name == name)
    ensures forall j :: 0 <= j < r ==> table[j].name != name
  {
    if table == [] || table[0].name == name then 0 else
      var r := Position(table[1..], name);
      r + 1
  }

  /** Insertion keeps the first position of a name and its last address. */
  function Put(table: seq<Sym>, name: string, addr: nat): seq<Sym> {
    var i := Position(table, name);
    if i < |table| then table[i := Sym(name, addr)] else table + [Sym(name, addr)]
  }

  function Table(nm: seq<NmLine>, n: nat): seq<Sym>
    requires n <= |nm|
  {
    if n == 0 then []
    else if IsText(nm[n - 1]) then Put(Table(nm, n - 1), nm[n - 1].name, nm[n - 1].addr)
    else Table(nm, n - 1)
  }

  /** `s` is the last text symbol of its name among the first `n` lines. */
  ghost predicate IsLatest(nm: seq<NmLine>, n: nat, s: Sym)
    requires n <= |nm|
  {
    exists k :: 0 <= k < n && IsText(nm[k]) && nm[k].name == s.name && nm[k].addr == s.addr
      && forall l :: k < l < n && IsText(nm[l]) ==> nm[l].name != s.name
  }

  /** The dictionary holds the last address of each text symbol, and nothing else. */
  lemma {:induction false} TableIsLatest(nm: seq<NmLine>, n: nat, s: Sym)
    requires n <= |nm|
    ensures s in Table(nm, n) <==> IsLatest(nm, n, s)
  {
    if n > 0 {
      TableIsLatest(nm, n - 1, s);
      TableUnique(nm, n - 1);
      var l := nm[n - 1];
      if IsText(l) {
        PutContents(Table(nm, n - 1), l.name, l.addr, s);
        hide Table, Put;
        if s == Sym(l.name, l.addr) { assert IsText(nm[n - 1]); }
      }
    }
  }

  lemma PutContents(table: seq<Sym>, name: string, addr: nat, s: Sym)
    requires UniqueNames(table)
    ensures s in Put(table, name, addr) <==> s == Sym(name, addr) || (s in table && s.name != name)
  {
    var i := Position(table, name);
    if i < |table| {
      assert Put(table, name, addr)[i] == Sym(name, addr);
      if s in table && s.name != name {
        var j :| 0 <= j < |table| && table[j] == s;
        assert Put(table, name, addr)[j] == s;
      }
    }
  }

  /** A name keeps the place of its first occurrence. */
  lemma TableKeepsPlaces(nm: seq<NmLine>, n: nat, i: nat)
    requires n < |nm| && i < |Table(nm, n)|
    ensures i < |Table(nm, n + 1)| && Table(nm, n + 1)[i].name == Table(nm, n)[i].name
    ensures |Table(nm, n + 1)| <= |Table(nm, n)| + 1
  {
  }

  ghost predicate UniqueNames(table: seq<Sym>) {
    forall i, j :: 0 <= i < j < |table| ==> table[i].name != table[j].name
  }

  lemma PutUnique(table: seq<Sym>, name: string, addr: nat)
    requires UniqueNames(table)
    ensures UniqueNames(Put(table, name, addr))
  {
  }

  lemma {:induction false} TableUnique(nm: seq<NmLine>, n: nat)
    requires n <= |nm|
    ensures UniqueNames(Table(nm, n))
  {
    if n > 0 {
      TableUnique(nm, n - 1);
      if IsText(nm[n - 1]) { PutUnique(Table(nm, n - 1), nm[n - 1].name, nm[n - 1].addr); }
    }
  }

  method BuildTable(nm: seq<NmLine>) returns (table: seq<Sym>)
    ensures table == Table(nm, |nm|)
  {
    table := [];
    for n := 0 to |nm|
      invariant table == Table(nm, n)
    {
      if IsText(nm[n]) { table := Put(table, nm[n].name, nm[n].addr); }
    }
  }

  // ----- sorting by address -----

  /** Insert behind every entry with an address not above that of `s`. */
  function InsertSym(sorted: seq<Sym>, s: Sym): seq<Sym> {
    if sorted == [] then [s]
    else if sorted[|sorted| - 1].addr <= s.addr then sorted + [s]
    else InsertSym(sorted[..|sorted| - 1], s) + [sorted[|sorted| - 1]]
  }

  /** `sorted(items, key=address)`: stable. */
  function SortSyms(table: seq<Sym>): seq<Sym> {
    if table == [] then [] else InsertSym(SortSyms(table[..|table| - 1]), table[|table| - 1])
  }

  ghost predicate Ascending(t: seq<Sym>) {
    forall i, j :: 0 <= i < j < |t| ==> t[i].addr <= t[j].addr
  }

  lemma {:induction false} InsertContents(sorted: seq<Sym>, s: Sym)
    ensures multiset(InsertSym(sorted, s)) == multiset(sorted) + multiset{s}
  {
    if sorted != [] && sorted[|sorted| - 1].addr > s.addr {
      var front, last := sorted[..|sorted| - 1], sorted[|sorted| - 1];
      assert sorted == front + [last];
      InsertContents(front, s);
    }
  }

  /** Every address in `t` is at most `bound`. */
  ghost predicate AtMost(t: seq<Sym>, bound: nat) {
    forall i :: 0 <= i < |t| ==> t[i].addr <= bound
  }

  lemma {:induction false} InsertAtMost(sorted: seq<Sym>, s: Sym, bound: nat)
    requires AtMost(sorted, bound) && s.addr <= bound
    ensures AtMost(InsertSym(sorted, s), bound)
  {
    if sorted != [] && sorted[|sorted| - 1].addr > s.addr {
      InsertAtMost(sorted[..|sorted| - 1], s, bound);
    }
  }

  lemma AppendAscending(t: seq<Sym>, last: Sym)
    requires Ascending(t) && AtMost(t, last.addr)
    ensures Ascending(t + [last])
  {
  }

  lemma {:induction false} InsertKeeps(sorted: seq<Sym>, s: Sym)
    requires Ascending(sorted)
    ensures Ascending(InsertSym(sorted, s))
  {
    if sorted == [] {
    } else if sorted[|sorted| - 1].addr <= s.addr {
      AppendAscending(sorted, s);
    } else {
      var front, last := sorted[..|sorted| - 1], sorted[|sorted| - 1];
      InsertKeeps(front, s);
      InsertAtMost(front, s, last.addr);
      hide Ascending, AtMost;
      AppendAscending(InsertSym(front, s), last);
    }
  }

  lemma {:induction false} SortKeeps(table: seq<Sym>)
    ensures Ascending(SortSyms(table)) && multiset(SortSyms(table)) == multiset(table)
  {
    if table != [] {
      var front := table[..|table| - 1];
      assert table == front + [table[|table| - 1]];
      SortKeeps(front);
      hide Ascending, InsertSym;
      InsertKeeps(SortSyms(front), table[|table| - 1]);
      InsertContents(SortSyms(front), table[|table| - 1]);
    }
  }

  /** The entries with one address, in order. */
  function With(t: seq<Sym>, addr: nat): seq<Sym> {
    if t == [] then [] else With(t[..|t| - 1], addr) + if t[|t| - 1].addr == addr then [t[|t| - 1]] else []
  }

  /** Sorting is stable: entries with equal addresses keep the order of the table. */
  lemma {:induction false} SortIsStable(table: seq<Sym>, addr: nat)
    ensures With(SortSyms(table), addr) == With(table, addr)
  {
    if table != [] {
      SortIsStable(table[..|table| - 1], addr);
      SortKeeps(table[..|table| - 1]);
      InsertIsStable(SortSyms(table[..|table| - 1]), table[|table| - 1], addr);
    }
  }

  lemma {:induction false} InsertIsStable(sorted: seq<Sym>, s: Sym, addr: nat)
    requires Ascending(sorted)
    ensures With(InsertSym(sorted, s), addr) == With(sorted, addr) + if s.addr == addr then [s] else []
  {
    var n := |sorted|;
    if n == 0 || sorted[n - 1].addr <= s.addr {
      assert (sorted + [s])[..n] == sorted;
    } else {
      var front, last := sorted[..n - 1], sorted[n - 1];
      InsertIsStable(front, s, addr);
      assert (InsertSym(front, s) + [last])[..|InsertSym(front, s)|] == InsertSym(front, s);
    }
  }

  // ----- containment -----

  /** The index of the function an address belongs to, if any. */
  function Containing(sorted: seq<Sym>, addr: nat): Option<nat> {
    ContainingFrom(sorted, addr, 0)
  }

  function ContainingFrom(sorted: seq<Sym>, addr: nat, i: nat): Option<nat>
    requires i <= |sorted|
    decreases |sorted| - i
  {
    if i == |sorted| then (if sorted == [] then None else Some(|sorted| - 1))
    else if sorted[i].addr > addr then (if i > 0 then Some(i - 1) else None)
    else ContainingFrom(sorted, addr, i + 1)
  }

  /** The containing function has the greatest start not above the address; there is none
      exactly when the address is below every start. */
  lemma ContainingIsPredecessor(sorted: seq<Sym>, addr: nat)
    requires Ascending(sorted)
    ensures match Containing(sorted, addr)
      case Some(k) => k < |sorted| && sorted[k].addr <= addr && forall j :: k < j < |sorted| ==> addr < sorted[j].addr
      case None => forall j :: 0 <= j < |sorted| ==> addr < sorted[j].addr
  {
    ContainingFromIs(sorted, addr, 0);
  }

  lemma {:induction false} ContainingFromIs(sorted: seq<Sym>, addr: nat, i: nat)
    requires Ascending(sorted) && i <= |sorted| && forall j :: 0 <= j < i ==> sorted[j].addr <= addr
    ensures match ContainingFrom(sorted, addr, i)
      case Some(k) => k < |sorted| && sorted[k].addr <= addr && forall j :: k < j < |sorted| ==> addr < sorted[j].addr
      case None => forall j :: 0 <= j < |sorted| ==> addr < sorted[j].addr
    decreases |sorted| - i
  {
    if i < |sorted| && sorted[i].addr <= addr {
      ContainingFromIs(sorted, addr, i + 1);
    } else if i < |sorted| {
      forall j | i <= j < |sorted| ensures addr < sorted[j].addr {
        assert sorted[i].addr <= sorted[j].addr;
      }
    }
  }

  // ----- crediting -----

  /** Found functions in order of discovery, each with its addresses. */
  type Credits = seq<(string, seq<nat>)>

  function CreditOne(found: Credits, name: string, addr: nat): Credits {
    if found == [] then [(name, [addr])]
    else if found[0].0 == name then [(name, found[0].1 + [addr])] + found[1..]
    else [found[0]] + CreditOne(found[1..], name, addr)
  }

  function Credit(sorted: seq<Sym>, cands: seq<nat>): Credits {
    if cands == [] then []
    else
      var front := Credit(sorted, cands[..|cands| - 1]);
      var addr := cands[|cands| - 1];
      match Containing(sorted, addr)
      case Some(k) => if k < |sorted| then CreditOne(front, sorted[k].name, addr) else front
      case None => front
  }

  /** The candidates a function is owed: those it contains, in order. */
  function Owed(sorted: seq<Sym>, cands: seq<nat>, name: string): seq<nat> {
    if cands == [] then []
    else
      var front := Owed(sorted, cands[..|cands| - 1], name);
      var k := Containing(sorted, cands[|cands| - 1]);
      if k.Some? && k.value < |sorted| && sorted[k.value].name == name then front + [cands[|cands| - 1]] else front
  }

  /** The addresses credited to a function so far. */
  function CreditedTo(found: Credits, name: string): seq<nat> {
    if found == [] then []
    else if found[0].0 == name then found[0].1
    else CreditedTo(found[1..], name)
  }

  lemma {:induction false} CreditOneIs(found: Credits, name: string, addr: nat, other: string)
    ensures CreditedTo(CreditOne(found, name, addr), other) ==
      CreditedTo(found, other) + if other == name then [addr] else []
  {
    if found != [] && found[0].0 != name {
      var t := CreditOne(found[1..], name, addr);
      assert CreditOne(found, name, addr)[1..] == t;
      CreditOneIs(found[1..], name, addr, other);
    }
  }

  /** Each function is credited with exactly the candidates it contains, in order. */
  lemma {:induction false} CreditIsOwed(sorted: seq<Sym>, cands: seq<nat>, name: string)
    requires Ascending(sorted)
    ensures CreditedTo(Credit(sorted, cands), name) == Owed(sorted, cands, name)
  {
    if cands != [] {
      var front := Credit(sorted, cands[..|cands| - 1]);
      var addr := cands[|cands| - 1];
      CreditIsOwed(sorted, cands[..|cands| - 1], name);
      ContainingIsPredecessor(sorted, addr);
      match Containing(sorted, addr)
      case Some(k) => CreditOneIs(front, sorted[k].name, addr, name);
      case None =>
    }
  }

  predicate Listed(found: Credits, name: string) {
    found != [] && (found[0].0 == name || Listed(found[1..], name))
  }

  /** One entry for each function, none of them empty. */
  predicate Entries(found: Credits) {
    found == [] || (found[0].1 != [] && !Listed(found[1..], found[0].0) && Entries(found[1..]))
  }

  lemma {:induction false} CreditOneListed(found: Credits, name: string, addr: nat, other: string)
    ensures Listed(CreditOne(found, name, addr), other) <==> Listed(found, other) || other == name
  {
    if found != [] && found[0].0 != name {
      assert CreditOne(found, name, addr)[1..] == CreditOne(found[1..], name, addr);
      CreditOneListed(found[1..], name, addr, other);
    } else if found != [] {
      assert CreditOne(found, name, addr)[1..] == found[1..];
    }
  }

  lemma {:induction false} CreditOneEntries(found: Credits, name: string, addr: nat)
    requires Entries(found)
    ensures Entries(CreditOne(found, name, addr))
  {
    if found != [] && found[0].0 != name {
      assert CreditOne(found, name, addr)[1..] == CreditOne(found[1..], name, addr);
      CreditOneListed(found[1..], name, addr, found[0].0);
      CreditOneEntries(found[1..], name, addr);
    } else if found != [] {
      assert CreditOne(found, name, addr)[1..] == found[1..];
    }
  }

  lemma {:induction false} CreditEntries(sorted: seq<Sym>, cands: seq<nat>)
    ensures Entries(Credit(sorted, cands))
  {
    if cands != [] {
      CreditEntries(sorted, cands[..|cands| - 1]);
      var k := Containing(sorted, cands[|cands| - 1]);
      if k.Some? && k.value < |sorted| {
        CreditOneEntries(Credit(sorted, cands[..|cands| - 1]), sorted[k.value].name, cands[|cands| - 1]);
      }
    }
  }

  lemma {:induction false} EntryIsCredited(found: Credits, i: nat)
    requires Entries(found) && i < |found|
    ensures CreditedTo(found, found[i].0) == found[i].1
  {
    if i > 0 {
      ListedAt(found[1..], i - 1);
      EntryIsCredited(found[1..], i - 1);
    }
  }

  lemma {:induction false} ListedAt(found: Credits, i: nat)
    requires i < |found|
    ensures Listed(found, found[i].0)
  {
    if i > 0 { ListedAt(found[1..], i - 1); }
  }

  lemma {:induction false} CreditedIsEntry(found: Credits, name: string)
    requires CreditedTo(found, name) != []
    ensures exists i :: 0 <= i < |found| && found[i].0 == name && found[i].1 == CreditedTo(found, name)
  {
    if found[0].0 != name {
      CreditedIsEntry(found[1..], name);
      var i :| 0 <= i < |found[1..]| && found[1..][i].0 == name && found[1..][i].1 == CreditedTo(found, name);
      assert found[i + 1].0 == name;
    }
  }

  method CreditAll(sorted: seq<Sym>, cands: seq<nat>) returns (found: Credits)
    requires Ascending(sorted)
    ensures found == Credit(sorted, cands)
  {
    found := [];
    for n := 0 to |cands|
      invariant found == Credit(sorted, cands[..n])
    {
      assert cands[..n + 1][..n] == cands[..n];
      var addr := cands[n];
      ContainingIsPredecessor(sorted, addr);
      var i := 0;
      while i < |sorted| && sorted[i].addr <= addr
        invariant i <= |sorted| && Containing(sorted, addr) == ContainingFrom(sorted, addr, i)
      {
        i := i + 1;
      }
      if i < |sorted| {
        if i > 0 { found := CreditOne(found, sorted[i - 1].name, addr); }
      } else if sorted != [] {
        found := CreditOne(found, sorted[|sorted| - 1].name, addr);
      }
    }
    assert cands[..|cands|] == cands;
  }

  // ----- the best function -----

  /** `max(found, key=len)`: the first entry with the most addresses. */
  function Best(found: Credits): nat
    requires found != []
  {
    if |found| == 1 then 0 else
      var b := Best(found[..|found| - 1]);
      if b < |found| - 1 && |found[|found| - 1].1| > |found[b].1| then |found| - 1 else b
  }

  lemma {:induction false} BestIsMaximal(found: Credits)
    requires found != []
    ensures Best(found) < |found|
    ensures forall i :: 0 <= i < |found| ==> |found[i].1| <= |found[Best(found)].1|
    ensures forall i :: 0 <= i < Best(found) ==> |found[i].1| < |found[Best(found)].1|
  {
    if |found| > 1 {
      BestIsMaximal(found[..|found| - 1]);
      forall i | 0 <= i < |found| - 1 ensures found[..|found| - 1][i] == found[i] {
      }
    }
  }

  method PickBest(found: Credits) returns (b: nat)
    requires found != []
    ensures b == Best(found) && b < |found|
  {
    b := 0;
    for i := 1 to |found|
      invariant b == Best(found[..i]) && b < i
    {
      assert found[..i + 1][..i] == found[..i];
      if |found[i].1| > |found[b].1| { b := i; }
    }
    assert found[..|found|] == found;
  }

  // ----- the search -----

  datatype Hit = Hit(name: string, base: nat, addrs: seq<nat>)

  function BaseOf(table: seq<Sym>, name: string): nat {
    var i := Position(table, name);
    if i < |table| then table[i].addr else 0
  }

  /** The function containing most of the addresses of a source line. */
  function FunctionForLine(elf: seq<ElfLine>, nm: seq<NmLine>, source: string, number: int): Option<Hit> {
    var cands := CandidateAddresses(elf, source, number);
    if cands == [] then None else
      var table := Table(nm, |nm|);
      var found := Credit(SortSyms(table), cands);
      if found == [] then None else
        var b := Best(found);
        if b < |found| then Some(Hit(found[b].0, BaseOf(table, found[b].0), found[b].1)) else None
  }

  method FindFunctionForSourceLine(elf: seq<ElfLine>, nm: seq<NmLine>, source: string, number: int)
    returns (r: Option<Hit>)
    ensures r == FunctionForLine(elf, nm, source, number)
  {
    var cands := FindCandidates(elf, source, number);
    if cands == [] { return None; }
    var table := BuildTable(nm);
    var sorted := SortSyms(table);
    SortKeeps(table);
    var found := CreditAll(sorted, cands);
    if found == [] { return None; }
    var b := PickBest(found);
    r := Some(Hit(found[b].0, BaseOf(table, found[b].0), found[b].1));
  }

  // ----- to which function an address belongs -----

  /** Entry `k` is the last start not above `addr`. */
  ghost predicate BelongsAt(sorted: seq<Sym>, addr: nat, k: nat) {
    k < |sorted| && sorted[k].addr <= addr && forall j :: k < j < |sorted| ==> addr < sorted[j].addr
  }

  /** Text symbol `s` is the start nearest below `addr`, the last of equal starts in sorted
      order: the function the address belongs to. */
  ghost predicate BelongsTo(sorted: seq<Sym>, addr: nat, s: Sym) {
    exists k: nat :: BelongsAt(sorted, addr, k) && sorted[k] == s
  }

  lemma BelongsAtOnce(sorted: seq<Sym>, addr: nat, k: nat, l: nat)
    requires BelongsAt(sorted, addr, k) && BelongsAt(sorted, addr, l)
    ensures k == l
  {
  }

  lemma ContainingBelongs(sorted: seq<Sym>, addr: nat)
    requires Ascending(sorted)
    ensures Containing(sorted, addr).Some? ==> BelongsAt(sorted, addr, Containing(sorted, addr).value)
    ensures Containing(sorted, addr).None? ==> forall s :: s in sorted ==> addr < s.addr
  {
    ContainingIsPredecessor(sorted, addr);
  }

  /** Every address at or above the lowest start belongs to exactly one function, the one
      with the greatest start not above it; an address below belongs to none. */
  lemma ContainmentIsAPartition(nm: seq<NmLine>, addr: nat)
    ensures var sorted := SortSyms(Table(nm, |nm|));
      && ((exists s :: s in sorted && s.addr <= addr) <==> exists s :: BelongsTo(sorted, addr, s))
      && (forall s, t :: BelongsTo(sorted, addr, s) && BelongsTo(sorted, addr, t) ==> s == t)
      && (forall s, t :: BelongsTo(sorted, addr, s) && t in sorted && t.addr <= addr ==> t.addr <= s.addr)
  {
    hide Table, SortSyms, Containing;
    var sorted := SortSyms(Table(nm, |nm|));
    SortKeeps(Table(nm, |nm|));
    ContainingBelongs(sorted, addr);
    if Containing(sorted, addr).Some? {
      assert BelongsTo(sorted, addr, sorted[Containing(sorted, addr).value]);
    }
    forall s, t | BelongsTo(sorted, addr, s) && BelongsTo(sorted, addr, t) ensures s == t {
      var k: nat :| BelongsAt(sorted, addr, k) && sorted[k] == s;
      var l: nat :| BelongsAt(sorted, addr, l) && sorted[l] == t;
      BelongsAtOnce(sorted, addr, k, l);
    }
    forall s, t | BelongsTo(sorted, addr, s) && t in sorted && t.addr <= addr ensures t.addr <= s.addr {
      BelongsGreatest(sorted, addr, s, t);
    }
  }

  lemma BelongsGreatest(sorted: seq<Sym>, addr: nat, s: Sym, t: Sym)
    requires Ascending(sorted) && BelongsTo(sorted, addr, s) && t in sorted && t.addr <= addr
    ensures t.addr <= s.addr
  {
    var k: nat :| BelongsAt(sorted, addr, k) && sorted[k] == s;
    var j :| 0 <= j < |sorted| && sorted[j] == t;
    assert j <= k;
  }

  /** The address belongs to the function of that name. */
  ghost predicate Owns(sorted: seq<Sym>, addr: nat, name: string) {
    exists s: Sym :: s.name == name && BelongsTo(sorted, addr, s)
  }

  lemma OwnsIs(sorted: seq<Sym>, addr: nat, name: string)
    requires Ascending(sorted)
    ensures Owns(sorted, addr, name) <==>
      var k := Containing(sorted, addr); k.Some? && k.value < |sorted| && sorted[k.value].name == name
  {
    hide Containing;
    ContainingBelongs(sorted, addr);
    match Containing(sorted, addr)
    case Some(k) =>
      assert BelongsTo(sorted, addr, sorted[k]);
      forall s | BelongsTo(sorted, addr, s) ensures s == sorted[k] {
        var l: nat :| BelongsAt(sorted, addr, l) && sorted[l] == s;
        BelongsAtOnce(sorted, addr, k, l);
      }
    case None => NoneBelow(sorted, addr);
  }

  lemma NoneBelow(sorted: seq<Sym>, addr: nat)
    requires forall s :: s in sorted ==> addr < s.addr
    ensures forall s :: !BelongsTo(sorted, addr, s)
  {
    assert forall k: nat :: k < |sorted| ==> addr < sorted[k].addr;
  }

  /** A function is owed the candidates that belong to it, once each and in order; `at` are
      their positions. */
  lemma {:induction false} OwedInOrder(sorted: seq<Sym>, cands: seq<nat>, name: string) returns (at: seq<nat>)
    requires Ascending(sorted)
    ensures forall k :: 0 <= k < |at| ==> at[k] < |cands| && Owns(sorted, cands[at[k]], name)
    ensures forall k, l :: 0 <= k < l < |at| ==> at[k] < at[l]
    ensures forall i :: 0 <= i < |cands| && Owns(sorted, cands[i], name) ==> i in at
    ensures |at| == |Owed(sorted, cands, name)|
    ensures forall k :: 0 <= k < |at| ==> Owed(sorted, cands, name)[k] == cands[at[k]]
  {
    hide Owns, Containing;
    at := [];
    if cands != [] {
      var n := |cands| - 1;
      var front := cands[..n];
      at := OwedInOrder(sorted, front, name);
      assert Owed(sorted, cands, name) ==
        Owed(sorted, front, name) + if Owns(sorted, cands[n], name) then [cands[n]] else [] by {
        OwnsIs(sorted, cands[n], name);
      }
      hide Owed;
      if Owns(sorted, cands[n], name) { at := at + [n]; }
    }
  }

  // ----- ties -----

  /** A candidate of `name` comes before every candidate of `other`. */
  ghost predicate Earlier(sorted: seq<Sym>, cands: seq<nat>, name: string, other: string) {
    exists i ::
      && 0 <= i < |cands| && Owns(sorted, cands[i], name)
      && forall j :: 0 <= j <= i ==> !Owns(sorted, cands[j], other)
  }

  lemma EarlierGrows(sorted: seq<Sym>, cands: seq<nat>, addr: nat, name: string, other: string)
    requires Earlier(sorted, cands, name, other)
    ensures Earlier(sorted, cands + [addr], name, other)
  {
    hide Owns;
    var more := cands + [addr];
    var i :| 0 <= i < |cands| && Owns(sorted, cands[i], name)
      && forall j :: 0 <= j <= i ==> !Owns(sorted, cands[j], other);
    assert Owns(sorted, more[i], name) && forall j :: 0 <= j <= i ==> !Owns(sorted, more[j], other);
  }

  lemma {:induction false} CreditOnePlaces(found: Credits, name: string, addr: nat, i: nat)
    requires i < |CreditOne(found, name, addr)|
    ensures i < |found| ==> CreditOne(found, name, addr)[i].0 == found[i].0
    ensures i >= |found| ==> i == |found| && CreditOne(found, name, addr)[i].0 == name && !Listed(found, name)
  {
    if found != [] && found[0].0 != name {
      var rest := CreditOne(found[1..], name, addr);
      assert CreditOne(found, name, addr) == [found[0]] + rest;
      if i > 0 { CreditOnePlaces(found[1..], name, addr, i - 1); }
    }
  }

  lemma {:induction false} NotListed(found: Credits, name: string)
    requires !Listed(found, name)
    ensures CreditedTo(found, name) == []
  {
    if found != [] { NotListed(found[1..], name); }
  }

  /** Functions are found in the order of their first candidates. */
  lemma {:induction false} FoundInOrder(sorted: seq<Sym>, cands: seq<nat>, a: nat, b: nat)
    requires Ascending(sorted) && a < b < |Credit(sorted, cands)|
    ensures Earlier(sorted, cands, Credit(sorted, cands)[a].0, Credit(sorted, cands)[b].0)
  {
    var n := |cands| - 1;
    var front := Credit(sorted, cands[..n]);
    assert cands == cands[..n] + [cands[n]];
    var k := Containing(sorted, cands[n]);
    var name, other := Credit(sorted, cands)[a].0, Credit(sorted, cands)[b].0;
    if k.Some? && k.value < |sorted| {
      CreditOnePlaces(front, sorted[k.value].name, cands[n], a);
      CreditOnePlaces(front, sorted[k.value].name, cands[n], b);
    }
    hide Owns;
    if b < |front| {
      FoundInOrder(sorted, cands[..n], a, b);
    } else {
      FirstOfAll(sorted, cands[..n], name, other, a);
    }
    EarlierGrows(sorted, cands[..n], cands[n], name, other);
  }

  lemma FirstOfAll(sorted: seq<Sym>, cands: seq<nat>, name: string, other: string, a: nat)
    requires Ascending(sorted) && a < |Credit(sorted, cands)| && Credit(sorted, cands)[a].0 == name
    requires !Listed(Credit(sorted, cands), other)
    ensures Earlier(sorted, cands, name, other)
  {
    hide Owns, Owed, Credit;
    var found := Credit(sorted, cands);
    CreditEntries(sorted, cands);
    NotListed(found, other);
    CreditIsOwed(sorted, cands, other);
    var none := OwedInOrder(sorted, cands, other);
    EntryIsCredited(found, a);
    CreditIsOwed(sorted, cands, name);
    EntryNotEmpty(found, a);
    var at := OwedInOrder(sorted, cands, name);
    assert Owns(sorted, cands[at[0]], name);
  }

  lemma {:induction false} EntryNotEmpty(found: Credits, i: nat)
    requires Entries(found) && i < |found|
    ensures found[i].1 != []
  {
    if i > 0 { EntryNotEmpty(found[1..], i - 1); }
  }

  // ----- what the search guarantees -----

  /** The function answered is a text symbol, at its last start in the listing, that contains
      at least as many of the line's addresses as any other, and of equal ones comes first;
      the addresses answered are all those it contains, and none lies below its base. There
      is no answer exactly when no address of the line is at or above the lowest start. */
  lemma SearchGuarantee(elf: seq<ElfLine>, nm: seq<NmLine>, source: string, number: int)
    ensures var cands := CandidateAddresses(elf, source, number);
      var sorted := SortSyms(Table(nm, |nm|));
      match FunctionForLine(elf, nm, source, number)
      case Some(hit) =>
        && hit.addrs != [] && hit.addrs == Owed(sorted, cands, hit.name)
        && Sym(hit.name, hit.base) in sorted && IsLatest(nm, |nm|, Sym(hit.name, hit.base))
        && (forall name :: |Owed(sorted, cands, name)| <= |hit.addrs|)
        && (forall name :: name != hit.name && |Owed(sorted, cands, name)| == |hit.addrs| ==>
              Earlier(sorted, cands, hit.name, name))
        && (forall a :: a in hit.addrs ==> hit.base <= a)
      case None => forall a, s :: a in cands && s in sorted ==> a < s.addr
  {
    hide Earlier, IsLatest, Ascending;
    var cands := CandidateAddresses(elf, source, number);
    var table := Table(nm, |nm|);
    var sorted := SortSyms(table);
    SortKeeps(table);
    var found := Credit(sorted, cands);
    CreditEntries(sorted, cands);
    if cands != [] && found != [] {
      BestIsMaximal(found);
      var b := Best(found);
      var hit := FunctionForLine(elf, nm, source, number).value;
      EntryIsCredited(found, b);
      CreditIsOwed(sorted, cands, hit.name);
      forall name ensures |Owed(sorted, cands, name)| <= |hit.addrs| {
        CreditIsOwed(sorted, cands, name);
        if Owed(sorted, cands, name) != [] { CreditedIsEntry(found, name); }
      }
      TiesAreEarlier(sorted, cands);
      BaseIsStart(nm, cands, hit.name);
      assert Sym(hit.name, hit.base) in multiset(sorted);
      TableIsLatest(nm, |nm|, Sym(hit.name, hit.base));
    } else {
      NothingOwed(sorted, cands);
    }
  }

  /** Of functions with equally many candidates the first one found is answered. */
  lemma TiesAreEarlier(sorted: seq<Sym>, cands: seq<nat>)
    requires Ascending(sorted) && Credit(sorted, cands) != []
    ensures var found := Credit(sorted, cands); var b := Best(found);
      b < |found| && forall name :: name != found[b].0 && |Owed(sorted, cands, name)| == |found[b].1| ==>
        Earlier(sorted, cands, found[b].0, name)
  {
    hide Credit, Owed, Earlier, Ascending, Best;
    var found := Credit(sorted, cands);
    var b := Best(found);
    BestIsMaximal(found);
    CreditEntries(sorted, cands);
    EntryNotEmpty(found, b);
    forall name | name != found[b].0 && |Owed(sorted, cands, name)| == |found[b].1|
      ensures Earlier(sorted, cands, found[b].0, name)
    {
      CreditIsOwed(sorted, cands, name);
      CreditedIsEntry(found, name);
      var i :| 0 <= i < |found| && found[i].0 == name && found[i].1 == CreditedTo(found, name);
      FoundInOrder(sorted, cands, b, i);
    }
  }

  lemma BaseIsStart(nm: seq<NmLine>, cands: seq<nat>, name: string)
    requires var sorted := SortSyms(Table(nm, |nm|)); Owed(sorted, cands, name) != []
    ensures var sorted := SortSyms(Table(nm, |nm|));
      && Sym(name, BaseOf(Table(nm, |nm|), name)) in sorted
      && forall a :: a in Owed(sorted, cands, name) ==> BaseOf(Table(nm, |nm|), name) <= a
  {
    var table := Table(nm, |nm|);
    var sorted := SortSyms(table);
    SortKeeps(table);
    TableUnique(nm, |nm|);
    forall a | a in Owed(sorted, cands, name)
      ensures BaseOf(table, name) <= a && Sym(name, BaseOf(table, name)) in sorted
    {
      var at := OwedInOrder(sorted, cands, name);
      var s: Sym :| s.name == name && BelongsTo(sorted, a, s);
      assert s in multiset(sorted);
      assert s in table;
      var i :| 0 <= i < |table| && table[i] == s;
      assert Position(table, name) == i;
    }
    assert Owed(sorted, cands, name)[0] in Owed(sorted, cands, name);
  }

  lemma {:induction false} NothingOwed(sorted: seq<Sym>, cands: seq<nat>)
    requires Ascending(sorted) && Credit(sorted, cands) == []
    ensures forall a, s :: a in cands && s in sorted ==> a < s.addr
  {
    if cands != [] {
      var c := cands[|cands| - 1];
      assert cands == cands[..|cands| - 1] + [c];
      ContainingIsPredecessor(sorted, c);
      NothingOwed(sorted, cands[..|cands| - 1]);
    }
  }
}
