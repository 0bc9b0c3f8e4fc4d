/** The tools' output as parsed records, and how the mapper compares source paths. */
module Listings {

  // ----- records -----

  /** A line of nm: a symbol, or anything else. */
  datatype NmLine = Symbol(addr: nat, kind: string, name: string) | OtherNm

  /** A line of readelf's line table: a directory header (without its final colon), a row
      with an address, or anything else. */
  datatype ElfLine = Header(dir: string) | Row(file: string, line: int, addr: nat) | OtherElf(text: string)

  /** A line of objdump: a source reference, an instruction, or anything else. */
  datatype DumpLine = SourceRef(path: string, number: int) | Insn(addr: nat) | OtherDump

  predicate IsText(l: NmLine) { l.Symbol? && l.kind in ["T", "t"] }

  // ----- strings -----

  predicate EndsWith(s: string, t: string) {
    |t| <= |s| && s[|s| - |t|..] == t
  }

  predicate StartsWith(s: string, t: string) { t <= s }

  predicate Contains(s: string, t: string) {
    StartsWith(s, t) || (s != "" && Contains(s[1..], t))
  }

  /** `lstrip('./')`: drop all leading dots and slashes. */
  function NormalizePath(path: string): string {
    if path != [] && path[0] in "./" then NormalizePath(path[1..]) else path
  }

  /** The part after the last slash. */
  function BaseName(path: string): string {
    if path == [] then ""
    else if path[|path| - 1] == '/' then ""
    else BaseName(path[..|path| - 1]) + [path[|path| - 1]]
  }

  lemma {:induction false} Contained(a: string, t: string, b: string)
    ensures Contains(a + t + b, t)
  {
    if a == "" {
      assert a + t + b == t + b;
    } else {
      Contained(a[1..], t, b);
      assert (a + t + b)[1..] == a[1..] + t + b;
    }
  }

  /** Containment is what it says. */
  lemma {:induction false} ContainsIs(s: string, t: string)
    ensures Contains(s, t) <==> exists a, b :: s == a + t + b
  {
    if Contains(s, t) {
      if StartsWith(s, t) {
        assert s == "" + t + s[|t|..];
      } else {
        ContainsIs(s[1..], t);
        var a, b :| s[1..] == a + t + b;
        assert s == ([s[0]] + a) + t + b;
      }
    }
    forall a, b | s == a + t + b ensures Contains(s, t) { Contained(a, t, b); }
  }

  /** Exactly the leading dots and slashes are dropped. */
  lemma {:induction false} NormalizedPath(path: string)
    ensures exists n ::
      && 0 <= n <= |path| && NormalizePath(path) == path[n..]
      && (forall i :: 0 <= i < n ==> path[i] in "./") && (n < |path| ==> path[n] !in "./")
  {
    if path != [] && path[0] in "./" {
      NormalizedPath(path[1..]);
      var n :| 0 <= n <= |path[1..]| && NormalizePath(path[1..]) == path[1..][n..]
        && (forall i :: 0 <= i < n ==> path[1..][i] in "./") && (n < |path[1..]| ==> path[1..][n] !in "./");
      assert path[1..][n..] == path[n + 1..];
      forall i | 0 <= i < n + 1 ensures path[i] in "./" {
        if i > 0 { assert path[i] == path[1..][i - 1]; }
      }
      assert n + 1 < |path| ==> path[n + 1] == path[1..][n];
    } else {
      assert path[0..] == path;
    }
  }

  /** The base name has no slash, and what precedes it is empty or ends with one. */
  lemma {:induction false} BaseNameIs(path: string) returns (dir: string)
    ensures path == dir + BaseName(path) && '/' !in BaseName(path)
    ensures dir == "" || dir[|dir| - 1] == '/'
  {
    if path == "" || path[|path| - 1] == '/' {
      dir := path;
    } else {
      dir := BaseNameIs(path[..|path| - 1]);
      assert path == path[..|path| - 1] + [path[|path| - 1]];
    }
  }

  lemma EndsWithIs(s: string, t: string)
    ensures EndsWith(s, t) <==> exists a :: s == a + t
  {
    if EndsWith(s, t) { assert s == s[..|s| - |t|] + t; }
  }

  /** A listed path and the wanted one match when either ends with the other. */
  predicate PathsMatch(listed: string, wanted: string) {
    var a, b := NormalizePath(listed), NormalizePath(wanted);
    EndsWith(a, b) || EndsWith(b, a)
  }
}
