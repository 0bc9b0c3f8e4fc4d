/** Addresses of a source line in a disassembly, and the search of neighbouring lines. */
module NearbyLines {
  import opened Options
  import opened Listings

  /** The source reference in force before line `i`: the last one above it. */
  function Carried(dump: seq<DumpLine>, i: nat): Option<(string, int)>
    requires i <= |dump|
  {
    if i == 0 then None
    else if dump[i - 1].SourceRef? then Some((dump[i - 1].path, dump[i - 1].number))
    else Carried(dump, i - 1)
  }

  /** Line `k` is the last source reference above line `i`, whatever lies between. */
  ghost predicate LastReference(dump: seq<DumpLine>, k: int, i: nat)
    requires i <= |dump|
  {
    0 <= k < i && dump[k].SourceRef? && forall j :: k < j < i ==> !dump[j].SourceRef?
  }

  lemma {:induction false} CarriedIsLast(dump: seq<DumpLine>, i: nat)
    requires i <= |dump|
    ensures match Carried(dump, i)
      case Some(at) => exists k :: LastReference(dump, k, i) && dump[k] == SourceRef(at.0, at.1)
      case None => forall k :: !LastReference(dump, k, i)
  {
    if i > 0 {
      if dump[i - 1].SourceRef? {
        assert LastReference(dump, i - 1, i);
      } else {
        CarriedIsLast(dump, i - 1);
        assert forall k :: LastReference(dump, k, i) <==> LastReference(dump, k, i - 1);
      }
    }
  }

  /** Line `i` is an instruction of source line `number` of `source`. A reference with an
      empty path or line 0 is not in force. */
  predicate InsnOf(dump: seq<DumpLine>, i: nat, source: string, number: int)
    requires i < |dump|
  {
    && dump[i].Insn?
    && var at := Carried(dump, i);
       at.Some? && at.value.0 != "" && at.value.1 != 0 && PathsMatch(at.value.0, source) && at.value.1 == number
  }

  /** Without the carried state: the last source reference above has a path and line `number`,
      not 0, and one of the two paths, normalised, ends with the other. */
  lemma InsnOfIs(dump: seq<DumpLine>, i: nat, source: string, number: int)
    requires i < |dump|
    ensures InsnOf(dump, i, source, number) <==>
      dump[i].Insn? && number != 0 && exists k :: LastReference(dump, k, i) && RefersTo(dump[k], source, number)
  {
    hide PathsMatch, RefersTo;
    CarriedIsLast(dump, i);
    if k :| LastReference(dump, k, i) {
      assert forall l :: LastReference(dump, l, i) ==> l == k;
      RefersToIs(dump[k], source, number);
    }
  }

  ghost predicate RefersTo(l: DumpLine, source: string, number: int) {
    && l.SourceRef? && l.path != "" && l.number == number
    && ((exists a :: NormalizePath(l.path) == a + NormalizePath(source))
        || (exists a :: NormalizePath(source) == a + NormalizePath(l.path)))
  }

  lemma RefersToIs(l: DumpLine, source: string, number: int)
    requires l.SourceRef?
    ensures RefersTo(l, source, number) <==> l.path != "" && l.number == number && PathsMatch(l.path, source)
  {
    EndsWithIs(NormalizePath(l.path), NormalizePath(source));
    EndsWithIs(NormalizePath(source), NormalizePath(l.path));
    hide EndsWith, NormalizePath;
  }

  /** The addresses of a source line among the first `n` lines, in listing order. */
  function AddressesAt(dump: seq<DumpLine>, n: nat, source: string, number: int): (r: seq<nat>)
    requires n <= |dump|
    ensures r != [] <==> exists i :: 0 <= i < n && InsnOf(dump, i, source, number)
  {
    if n == 0 then []
    else
      var front := AddressesAt(dump, n - 1, source, number);
      if InsnOf(dump, n - 1, source, number) then front + [dump[n - 1].addr] else front
  }

  function LineAddresses(dump: seq<DumpLine>, source: string, number: int): seq<nat> {
    AddressesAt(dump, |dump|, source, number)
  }

  ghost predicate IsFirst(dump: seq<DumpLine>, i: nat, source: string, number: int)
    requires i < |dump|
  {
    InsnOf(dump, i, source, number) && forall j :: 0 <= j < i ==> !InsnOf(dump, j, source, number)
  }

  /** `at` are the positions of the instructions of a line among the first `n`, ascending. */
  ghost predicate ArePositions(dump: seq<DumpLine>, n: nat, source: string, number: int, at: seq<nat>)
    requires n <= |dump|
  {
    && (forall k :: 0 <= k < |at| ==> at[k] < n && InsnOf(dump, at[k], source, number))
    && (forall k, l :: 0 <= k < l < |at| ==> at[k] < at[l])
    && (forall i :: 0 <= i < n && InsnOf(dump, i, source, number) ==> i in at)
  }

  /** The addresses of a line are those of all its instructions, once each and in listing
      order. */
  lemma {:induction false} AddressesInOrder(dump: seq<DumpLine>, n: nat, source: string, number: int)
    returns (at: seq<nat>)
    requires n <= |dump|
    ensures ArePositions(dump, n, source, number, at) && |at| == |AddressesAt(dump, n, source, number)|
    ensures forall k :: 0 <= k < |at| ==> AddressesAt(dump, n, source, number)[k] == dump[at[k]].addr
  {
    hide InsnOf;
    at := [];
    if n > 0 {
      at := AddressesInOrder(dump, n - 1, source, number);
      if InsnOf(dump, n - 1, source, number) { at := at + [n - 1]; }
    }
  }

  /** The first address of a line is that of its first instruction in the listing. */
  lemma FirstAddress(dump: seq<DumpLine>, source: string, number: int) returns (i: nat)
    requires LineAddresses(dump, source, number) != []
    ensures i < |dump| && dump[i].Insn? && IsFirst(dump, i, source, number)
    ensures LineAddresses(dump, source, number)[0] == dump[i].addr
  {
    var at := AddressesInOrder(dump, |dump|, source, number);
    i := at[0];
    assert dump[i].Insn?;
    hide InsnOf;
    assert forall j :: 0 <= j < |dump| && InsnOf(dump, j, source, number) ==> exists k :: 0 <= k < |at| && at[k] == j;
  }

  ghost predicate IsLast(dump: seq<DumpLine>, i: nat, source: string, number: int)
    requires i < |dump|
  {
    InsnOf(dump, i, source, number) && forall j :: i < j < |dump| ==> !InsnOf(dump, j, source, number)
  }

  /** The last address of a line is that of its last instruction in the listing. */
  lemma LastAddress(dump: seq<DumpLine>, source: string, number: int) returns (i: nat)
    requires LineAddresses(dump, source, number) != []
    ensures i < |dump| && dump[i].Insn? && IsLast(dump, i, source, number)
    ensures var addresses := LineAddresses(dump, source, number); addresses[|addresses| - 1] == dump[i].addr
  {
    var at := AddressesInOrder(dump, |dump|, source, number);
    i := at[|at| - 1];
    assert dump[i].Insn?;
    hide InsnOf;
    assert forall j :: 0 <= j < |dump| && InsnOf(dump, j, source, number) ==> exists k :: 0 <= k < |at| && at[k] == j;
  }

  /** The listing loop, with the current file and line carried from line to line. */
  method ScanListing(dump: seq<DumpLine>, source: string, number: int) returns (addresses: seq<nat>)
    ensures addresses == LineAddresses(dump, source, number)
  {
    addresses := [];
    var currentFile: Option<string>, currentLine := None, 0;
    for i := 0 to |dump|
      invariant addresses == AddressesAt(dump, i, source, number)
      invariant Carried(dump, i) == if currentFile.Some? then Some((currentFile.value, currentLine)) else None
    {
      match dump[i]
      case SourceRef(path, n) => currentFile, currentLine := Some(path), n;
      case Insn(addr) =>
        if currentFile.Some? && currentFile.value != "" && currentLine != 0 {
          if PathsMatch(currentFile.value, source) && currentLine == number {
            addresses := addresses + [addr];
          }
        }
      case OtherDump =>
    }
  }

  function Distance(a: int, b: int): nat { if a < b then b - a else a - b }

  /** `line` is tried before `other`: it is nearer to `target`, or as near and lower. */
  predicate Sooner(target: int, line: int, other: int) {
    Distance(line, target) < Distance(other, target)
      || (Distance(line, target) == Distance(other, target) && line < other)
  }

  /** A line the search may answer with: positive, different from the target, within 3. */
  predicate Eligible(target: int, line: int) {
    0 < line && 1 <= Distance(line, target) <= 3
  }

  ghost predicate IsNearest(dump: seq<DumpLine>, source: string, target: int, line: int) {
    && Eligible(target, line) && LineAddresses(dump, source, line) != []
    && forall l :: Eligible(target, l) && Sooner(target, l, line) ==> LineAddresses(dump, source, l) == []
  }

  /** What the search of nearby lines answers, as a function: the candidates in turn. */
  function TryLines(dump: seq<DumpLine>, source: string, lines: seq<int>): Option<(int, seq<nat>)> {
    if lines == [] then None
    else if lines[0] > 0 && LineAddresses(dump, source, lines[0]) != [] then
      Some((lines[0], LineAddresses(dump, source, lines[0])))
    else TryLines(dump, source, lines[1..])
  }

  function Candidates(target: int): seq<int> {
    [target - 1, target + 1, target - 2, target + 2, target - 3, target + 3]
  }

  function Nearby(dump: seq<DumpLine>, source: string, target: int): Option<(int, seq<nat>)> {
    TryLines(dump, source, Candidates(target))
  }

  /** The search answers with the nearest line that has instructions, the lower one of two
      equally near, and with nothing exactly when no line within 3 has any. */
  lemma NearbyIsNearest(dump: seq<DumpLine>, source: string, target: int)
    ensures match Nearby(dump, source, target)
      case Some((line, addresses)) =>
        IsNearest(dump, source, target, line) && addresses == LineAddresses(dump, source, line)
      case None => forall l :: Eligible(target, l) ==> LineAddresses(dump, source, l) == []
  {
    hide LineAddresses;
    TryLinesInOrder(dump, source, Candidates(target));
    forall l | Eligible(target, l) ensures exists i :: 0 <= i < 6 && Candidates(target)[i] == l {
      var d := Distance(l, target);
      assert Candidates(target)[if l < target then 2 * d - 2 else 2 * d - 1] == l;
    }
  }

  lemma {:induction false} TryLinesInOrder(dump: seq<DumpLine>, source: string, lines: seq<int>)
    ensures match TryLines(dump, source, lines)
      case Some((line, addresses)) =>
        && addresses == LineAddresses(dump, source, line) && addresses != []
        && exists i :: 0 <= i < |lines| && lines[i] == line && line > 0
             && forall j :: 0 <= j < i && lines[j] > 0 ==> LineAddresses(dump, source, lines[j]) == []
      case None => forall j :: 0 <= j < |lines| && lines[j] > 0 ==> LineAddresses(dump, source, lines[j]) == []
  {
    if lines != [] {
      TryLinesInOrder(dump, source, lines[1..]);
      if !(lines[0] > 0 && LineAddresses(dump, source, lines[0]) != []) {
        var r := TryLines(dump, source, lines[1..]);
        if r.Some? {
          var i :| 0 <= i < |lines[1..]| && lines[1..][i] == r.value.0
            && forall j :: 0 <= j < i && lines[1..][j] > 0 ==> LineAddresses(dump, source, lines[1..][j]) == [];
          assert lines[i + 1] == r.value.0;
          forall j | 0 <= j < i + 1 && lines[j] > 0 ensures LineAddresses(dump, source, lines[j]) == [] {
            if j > 0 { assert lines[j] == lines[1..][j - 1]; }
          }
        } else {
          forall j | 0 <= j < |lines| && lines[j] > 0 ensures LineAddresses(dump, source, lines[j]) == [] {
            if j > 0 { assert lines[j] == lines[1..][j - 1]; }
          }
        }
      }
    }
  }

  method TryNearbyLines(dump: seq<DumpLine>, source: string, target: int) returns (r: Option<(int, seq<nat>)>)
    ensures r == Nearby(dump, source, target)
  {
    var offsets: seq<int> := [];
    for i := 1 to 4
      invariant offsets == Candidates(target)[..2 * (i - 1)]
    {
      offsets := offsets + [target - i, target + i];
    }
    assert offsets == Candidates(target);
    for k := 0 to |offsets|
      invariant TryLines(dump, source, offsets) == TryLines(dump, source, offsets[k..])
    {
      assert offsets[k..][1..] == offsets[k + 1..];
      if offsets[k] > 0 {
        var addresses := ScanListing(dump, source, offsets[k]);
        if addresses != [] { return Some((offsets[k], addresses)); }
      }
    }
    r := None;
  }
}
