/** The text of a source location: what the pass prints between the angle brackets and what
    the address mapper reads back. */
module Location {
  import opened Options

  // ----- decimal numerals -----

  function Digit(n: nat): char
    requires n < 10
  {
    '0' + n as char
  }

  function Decimal(n: nat): (s: string)
    ensures s != [] && forall i :: 0 <= i < |s| ==> '0' <= s[i] <= '9'
  {
    if n < 10 then [Digit(n)] else Decimal(n / 10) + [Digit(n % 10)]
  }

  /** Reads a non-empty string of decimal digits; anything else raises ValueError. */
  function ParseInt(s: string): Option<nat> {
    if s == [] then None
    else
      var c := s[|s| - 1];
      if !('0' <= c <= '9') then None
      else if |s| == 1 then Some((c - '0') as nat)
      else
        var front := ParseInt(s[..|s| - 1]);
        if front.Some? then Some(front.value * 10 + (c - '0') as nat) else None
  }

  lemma {:induction false} ParseDecimal(n: nat)
    ensures ParseInt(Decimal(n)) == Some(n)
  {
    if n >= 10 {
      ParseDecimal(n / 10);
      var s := Decimal(n);
      assert s[..|s| - 1] == Decimal(n / 10) && s[|s| - 1] == Digit(n % 10);
    }
  }

  // ----- printing -----

  /** The text of a debug location with a line; the column is left out when it is 0. */
  function Print(file: string, line: nat, column: nat): string {
    file + ":" + Decimal(line) + if column != 0 then ":" + Decimal(column) else ""
  }

  // ----- reading -----

  /** The position of the last colon among the first `n` characters. */
  function LastColonBelow(s: string, n: nat): (r: Option<nat>)
    requires n <= |s|
    ensures r.Some? ==> r.value < n && s[r.value] == ':'
  {
    if n == 0 then None
    else if s[n - 1] == ':' then Some(n - 1)
    else LastColonBelow(s, n - 1)
  }

  function LastColon(s: string): (r: Option<nat>)
    ensures r.Some? ==> r.value < |s| && s[r.value] == ':'
  {
    LastColonBelow(s, |s|)
  }

  /** At most two splits at colons, counted from the right. */
  function SplitFromRight(s: string): (parts: seq<string>)
    ensures 1 <= |parts| <= 3
  {
    match LastColon(s)
    case None => [s]
    case Some(i) =>
      match LastColon(s[..i])
      case None => [s[..i], s[i + 1..]]
      case Some(j) => [s[..j], s[j + 1..i], s[i + 1..]]
  }

  datatype Parsed = Parsed(file: string, line: nat) | NoLocation | ValueError

  function ParseLocation(loc: string): Parsed {
    var parts := SplitFromRight(loc);
    if |parts| >= 2 then
      var n := ParseInt(parts[1]);
      if n.Some? then Parsed(parts[0], n.value) else ValueError
    else NoLocation
  }

  // ----- round trip -----

  lemma {:induction false} LastColonIs(s: string, n: nat, i: nat)
    requires i < n <= |s| && s[i] == ':' && forall j :: i < j < n ==> s[j] != ':'
    ensures LastColonBelow(s, n) == Some(i)
  {
    if i < n - 1 { LastColonIs(s, n - 1, i); }
  }

  lemma {:induction false} LastColonFound(s: string, n: nat)
    requires n <= |s|
    ensures LastColonBelow(s, n).None? ==> forall j :: 0 <= j < n ==> s[j] != ':'
  {
    if n > 0 { LastColonFound(s, n - 1); }
  }

  lemma LastColonBefore(a: string, b: string)
    requires ':' !in b
    ensures LastColon(a + ":" + b) == Some(|a|)
  {
    var s := a + ":" + b;
    forall j | |a| < j < |s| ensures s[j] != ':' { assert s[j] == b[j - |a| - 1]; }
    LastColonIs(s, |s|, |a|);
  }

  lemma NoColonInDecimal(n: nat)
    ensures ':' !in Decimal(n)
  {
  }

  lemma SplitWithColumn(file: string, l: string, c: string)
    requires ':' !in l && ':' !in c
    ensures SplitFromRight(file + ":" + l + ":" + c) == [file, l, c]
  {
    var head := file + ":" + l;
    var s := head + ":" + c;
    LastColonBefore(head, c);
    assert s[..|head|] == head && s[|head| + 1..] == c;
    LastColonBefore(file, l);
    assert head[..|file|] == file && head[|file| + 1..|head|] == l;
    assert s[..|file|] == file && s[|file| + 1..|head|] == l;
  }

  /** Without a column the split is right exactly when the file name has no colon. */
  lemma SplitWithoutColumn(file: string, l: string)
    requires ':' !in l
    ensures ':' !in file ==> SplitFromRight(file + ":" + l) == [file, l]
    ensures ':' in file ==> |SplitFromRight(file + ":" + l)[0]| < |file|
  {
    var s := file + ":" + l;
    LastColonBefore(file, l);
    assert s[..|file|] == file && s[|file| + 1..] == l;
    LastColonFound(file, |file|);
    assert LastColon(file).Some? ==> ':' in file;
  }

  /** Reading a printed location gives back file and line exactly when a column was printed
      or the file name contains no colon. */
  lemma RoundTrip(file: string, line: nat, column: nat)
    ensures ParseLocation(Print(file, line, column)) == Parsed(file, line) <==> column != 0 || ':' !in file
  {
    hide SplitFromRight, ParseInt, Decimal;
    var l, c := Decimal(line), Decimal(column);
    NoColonInDecimal(line);
    NoColonInDecimal(column);
    ParseDecimal(line);
    if column != 0 {
      assert Print(file, line, column) == file + ":" + l + ":" + c;
      SplitWithColumn(file, l, c);
    } else {
      assert Print(file, line, column) == file + ":" + l;
      SplitWithoutColumn(file, l);
    }
  }

  /** A printed column is read back too, and line and column have no leading zeros. */
  lemma ColumnRoundTrip(file: string, line: nat, column: nat)
    ensures column != 0 ==> SplitFromRight(Print(file, line, column)) == [file, Decimal(line), Decimal(column)]
    ensures ParseInt(Decimal(line)) == Some(line) && ParseInt(Decimal(column)) == Some(column)
    ensures (Decimal(line)[0] == '0' <==> line == 0) && (Decimal(column)[0] == '0' <==> column == 0)
  {
    hide SplitFromRight, ParseInt;
    ParseDecimal(line);
    ParseDecimal(column);
    NoLeadingZero(line);
    NoLeadingZero(column);
    if column != 0 {
      NoColonInDecimal(line);
      NoColonInDecimal(column);
      assert Print(file, line, column) == file + ":" + Decimal(line) + ":" + Decimal(column);
      SplitWithColumn(file, Decimal(line), Decimal(column));
    }
  }

  lemma {:induction false} NoLeadingZero(n: nat)
    ensures Decimal(n)[0] == '0' <==> n == 0
  {
    if n >= 10 { NoLeadingZero(n / 10); }
  }

  // ----- the whole way: from debug information through the report to file and line -----

  datatype DebugLoc = NoDebugLoc | DebugLoc(file: string, line: nat, column: nat)

  predicate HasLine(d: DebugLoc) { d.DebugLoc? && d.line != 0 }

  const UNKNOWN := " <UNKNOWN>"

  /** The instruction whose location stands in for instruction `k`: the first of the next
      ten in the block that has a line. */
  ghost predicate StandsIn(block: seq<DebugLoc>, k: nat, j: nat) {
    && k < j <= k + 10 && j < |block| && HasLine(block[j])
    && forall i :: k < i < j ==> !HasLine(block[i])
  }

  /** The location text of instruction `k` of a block. */
  method GetDebugLoc(block: seq<DebugLoc>, k: nat, approx: bool) returns (text: string)
    requires k < |block|
    ensures HasLine(block[k]) ==> text == " <" + Print(block[k].file, block[k].line, block[k].column) + ">"
    ensures !HasLine(block[k]) && !approx ==> text == UNKNOWN
    ensures forall j: nat :: !HasLine(block[k]) && approx && StandsIn(block, k, j) ==>
      text == " <" + Print(block[j].file, block[j].line, block[j].column) + "> (approx)"
    ensures !HasLine(block[k]) && approx && (forall j: nat :: !StandsIn(block, k, j)) ==> text == UNKNOWN
  {
    var own := block[k];
    if HasLine(own) { return " <" + Print(own.file, own.line, own.column) + ">"; }
    if !approx { return UNKNOWN; }
    var foundCurrent, lookahead := false, 0;
    for i := 0 to |block|
      invariant foundCurrent <==> k < i
      invariant lookahead == if foundCurrent then i - k - 1 else 0
      invariant lookahead <= 10
      invariant forall j :: k < j < i ==> !HasLine(block[j])
    {
      if !foundCurrent {
        if i == k { foundCurrent := true; }
      } else {
        if lookahead >= 10 { break; }
        lookahead := lookahead + 1;
        var next := block[i];
        if HasLine(next) {
          assert StandsIn(block, k, i);
          return " <" + Print(next.file, next.line, next.column) + "> (approx)";
        }
      }
    }
    text := UNKNOWN;
  }

  /** The first position of `c` from `i` on, or the length. */
  function IndexFrom(s: string, c: char, i: nat): (r: nat)
    requires i <= |s|
    ensures i <= r <= |s|
    decreases |s| - i
  {
    if i == |s| || s[i] == c then i else IndexFrom(s, c, i + 1)
  }

  /** The text between the first opening bracket and the next closing one. */
  function Bracketed(text: string): Option<string> {
    var i := IndexFrom(text, '<', 0);
    if i == |text| then None else
      var j := IndexFrom(text, '>', i + 1);
      if j == i + 1 || j == |text| then None else Some(text[i + 1..j])
  }

  lemma BracketedText(inside: string, suffix: string)
    requires inside != "" && '>' !in inside
    ensures Bracketed(" <" + inside + ">" + suffix) == Some(inside)
  {
    var text := " <" + inside + ">" + suffix;
    IndexIs(text, '<', 0, 1);
    forall j | 2 <= j < 2 + |inside| ensures text[j] != '>' { assert text[j] == inside[j - 2]; }
    IndexIs(text, '>', 2, 2 + |inside|);
    assert text[2..2 + |inside|] == inside;
  }

  lemma {:induction false} IndexIs(s: string, c: char, i: nat, k: nat)
    requires i <= k < |s| && s[k] == c && forall j :: i <= j < k ==> s[j] != c
    ensures IndexFrom(s, c, i) == k
    decreases |s| - i
  {
    if i < k { IndexIs(s, c, i + 1, k); }
  }

  /** The file read is never longer than the text it is read from. */
  lemma ReadFileFits(loc: string)
    ensures ParseLocation(loc).Parsed? ==> |ParseLocation(loc).file| <= |loc|
  {
    hide ParseInt;
  }

  /** A closing bracket in the file name ends the text before the name does. */
  lemma BracketedTooSoon(file: string, rest: string)
    requires '>' in file
    ensures var inside := Bracketed(" <" + file + rest); inside.Some? ==> |inside.value| < |file|
  {
    var text := " <" + file + rest;
    IndexIs(text, '<', 0, 1);
    IndexFound(file, '>', 0);
    var k := IndexFrom(file, '>', 0);
    forall j | 2 <= j < 2 + k ensures text[j] != '>' { assert text[j] == file[j - 2]; }
    IndexIs(text, '>', 2, 2 + k);
  }

  lemma {:induction false} IndexFound(s: string, c: char, i: nat)
    requires i <= |s|
    ensures var k := IndexFrom(s, c, i); (k < |s| ==> s[k] == c) && forall j :: i <= j < k ==> s[j] != c
    decreases |s| - i
  {
    if i < |s| && s[i] != c { IndexFound(s, c, i + 1); }
  }

  /** A location printed for an instruction, own or approximate, is read back as its file
      and line exactly when the file name has no closing bracket, and a column was printed
      or the file name contains no colon. */
  lemma ReportRoundTrip(d: DebugLoc, suffix: string)
    requires HasLine(d)
    ensures var inside := Bracketed(" <" + Print(d.file, d.line, d.column) + ">" + suffix);
      (inside.Some? && ParseLocation(inside.value) == Parsed(d.file, d.line)) <==>
        ('>' !in d.file && (d.column != 0 || ':' !in d.file))
  {
    hide ParseLocation, Bracketed;
    var inside := Print(d.file, d.line, d.column);
    var text := " <" + inside + ">" + suffix;
    if '>' in d.file {
      var rest := inside[|d.file|..] + ">" + suffix;
      assert text == " <" + d.file + rest;
      BracketedTooSoon(d.file, rest);
      if Bracketed(text).Some? { ReadFileFits(Bracketed(text).value); }
    } else {
      assert '>' !in Decimal(d.line) && '>' !in Decimal(d.column);
      BracketedText(inside, suffix);
      RoundTrip(d.file, d.line, d.column);
    }
  }

  /** A file name with a colon and no column: the reader takes the wrong pieces. */
  lemma ColonWithoutColumn()
    ensures ParseLocation(Print("a:1", 2, 0)) == Parsed("a", 1)
  {
    SplitWithColumn("a", "1", "2");
    assert Print("a:1", 2, 0) == "a" + ":" + "1" + ":" + "2" by { assert Decimal(2) == "2"; }
    assert ParseInt("1") == Some(1);
  }
}
