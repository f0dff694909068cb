/**
 * The widget id the dashboard derives from a typed widget name: the name
 * lower-cased, with every maximal run of `\s` characters replaced by one '-'.
 *
 * `\s` is the ECMAScript WhiteSpace and LineTerminator set, which is finite
 * and written out in full. Lower-casing is modelled on ASCII letters only.
 */
module Slug {

  /** The characters matched by the JavaScript regular-expression class `\s`. */
  predicate IsSpace(c: char) {
    || c == '\t' || c == '\n' || c == '\U{B}' || c == '\U{C}' || c == '\r' || c == ' '
    || c == '\U{A0}' || c == '\U{1680}' || ('\U{2000}' <= c <= '\U{200A}')
    || c == '\U{2028}' || c == '\U{2029}' || c == '\U{202F}' || c == '\U{205F}'
    || c == '\U{3000}' || c == '\U{FEFF}'
  }

  /** The ECMAScript WhiteSpace and LineTerminator code points, listed one by one. */
  const SpaceTable: set<char> := {
    '\t', '\n', '\U{B}', '\U{C}', '\r', ' ', '\U{A0}', '\U{1680}',
    '\U{2000}', '\U{2001}', '\U{2002}', '\U{2003}', '\U{2004}', '\U{2005}',
    '\U{2006}', '\U{2007}', '\U{2008}', '\U{2009}', '\U{200A}',
    '\U{2028}', '\U{2029}', '\U{202F}', '\U{205F}', '\U{3000}', '\U{FEFF}'
  }

  /** IsSpace accepts exactly the listed code points. */
  lemma IsSpaceTable(c: char)
    ensures IsSpace(c) <==> c in SpaceTable
  {
    if '\U{2000}' <= c <= '\U{200A}' {
      var k := c as int - 0x2000;
      assert 0 <= k <= 10;
      assert c == (0x2000 + k) as char;
    }
  }

  predicate NoSpace(s: string) {
    forall i :: 0 <= i < |s| ==> !IsSpace(s[i])
  }

  predicate IsUpperAscii(c: char) {
    'A' <= c <= 'Z'
  }

  /** `toLowerCase` on one character, restricted to the ASCII letters. */
  function Lower(c: char): (r: char)
    ensures IsSpace(r) <==> IsSpace(c)
    ensures !IsUpperAscii(r)
    ensures IsUpperAscii(c) ==> 'a' <= r <= 'z' && r as int == c as int + 32
    ensures !IsUpperAscii(c) ==> r == c
  {
    if IsUpperAscii(c) then (c as int - 'A' as int + 'a' as int) as char else c
  }

  /** A string with no upper-case ASCII letter left. */
  predicate IsLower(s: string) {
    forall i :: 0 <= i < |s| ==> !IsUpperAscii(s[i])
  }

  /**
   * `toLowerCase` on a whole string: no upper-case ASCII letter is left, whitespace
   * stays exactly where it was, and a string already in lower case is unchanged.
   */
  function LowerAll(s: string): (r: string)
    ensures |r| == |s|
    ensures forall i :: 0 <= i < |s| ==> r[i] == Lower(s[i])
    ensures IsLower(r)
    ensures forall i :: 0 <= i < |s| ==> (IsSpace(r[i]) <==> IsSpace(s[i]))
    ensures IsLower(s) ==> r == s
  {
    seq(|s|, i requires 0 <= i < |s| => Lower(s[i]))
  }

  /** Skips the leading run of whitespace, the part one `\s+` match consumes. */
  function DropSpaces(s: string): (r: string)
    ensures |r| <= |s|
    ensures s != [] && IsSpace(s[0]) ==> |r| < |s|
    ensures r == [] || !IsSpace(r[0])
    decreases |s|
  {
    if s != [] && IsSpace(s[0]) then DropSpaces(s[1..]) else s
  }

  /** Every character of `s` is whitespace. */
  predicate AllSpace(s: string) {
    forall i :: 0 <= i < |s| ==> IsSpace(s[i])
  }

  /** What DropSpaces skips is whitespace only, and what it keeps is the rest of the input unchanged. */
  lemma {:induction false} DropSpacesSplit(s: string)
    ensures s == s[..|s| - |DropSpaces(s)|] + DropSpaces(s)
    ensures AllSpace(s[..|s| - |DropSpaces(s)|])
    decreases |s|
  {
    if s != [] && IsSpace(s[0]) {
      var t := s[1..];
      var r := DropSpaces(t);
      DropSpacesSplit(t);
      assert DropSpaces(s) == r;
      var p := t[..|t| - |r|];
      assert s[..|s| - |r|] == [s[0]] + p;
      assert s == [s[0]] + t;
      ConcatAssoc([s[0]], p, r);
    }
  }

  /** The widget id for a widget name: lower-cased, each maximal whitespace run replaced by one '-'. */
  function Slugify(s: string): (r: string)
    ensures |r| <= |s|
    ensures r == [] <==> s == []
    decreases |s|
  {
    if s == [] then []
    else if IsSpace(s[0]) then "-" + Slugify(DropSpaces(s))
    else [Lower(s[0])] + Slugify(s[1..])
  }

  /** What is still to be emitted for the rest `t` of the input, given whether a whitespace run is open. */
  function Pending(t: string, inRun: bool): string {
    if inRun then Slugify(DropSpaces(t)) else Slugify(t)
  }

  /**
   * What the scan emits for one character `c`, and whether a whitespace run is
   * open afterwards: a whitespace character emits '-' only when it opens a run.
   */
  function Emit(c: char, inRun: bool): (string, bool) {
    if IsSpace(c) then (if inRun then "" else "-", true) else ([Lower(c)], false)
  }

  /** One step of the scan: consuming the next character moves its output from pending to emitted. */
  lemma ScanStep(s: string, i: int, r: string, inRun: bool)
    requires 0 <= i < |s|
    requires r + Pending(s[i..], inRun) == Slugify(s)
    ensures (r + Emit(s[i], inRun).0) + Pending(s[i + 1..], Emit(s[i], inRun).1) == Slugify(s)
  {
    var t := s[i..];
    assert t[0] == s[i] && t[1..] == s[i + 1..];
    var (piece, nextRun) := Emit(s[i], inRun);
    var rest := Pending(t[1..], nextRun);
    if IsSpace(t[0]) {
      assert DropSpaces(t) == DropSpaces(t[1..]);
      if !inRun {
        assert Slugify(t) == "-" + Slugify(DropSpaces(t));
      }
    } else {
      assert DropSpaces(t) == t;
      assert Slugify(t) == [Lower(t[0])] + Slugify(t[1..]);
    }
    assert Pending(t, inRun) == piece + rest;
    ConcatAssoc(r, piece, rest);
  }

  lemma ConcatAssoc<T>(a: seq<T>, b: seq<T>, c: seq<T>)
    ensures (a + b) + c == a + (b + c)
  {
  }

  /** The global regular-expression replacement as a left-to-right scan over the name. */
  method SlugScan(s: string) returns (r: string)
    ensures r == Slugify(s)
  {
    r := [];
    var i := 0;
    var inRun := false;
    while i < |s|
      invariant 0 <= i <= |s|
      invariant r + Pending(s[i..], inRun) == Slugify(s)
    {
      ScanStep(s, i, r, inRun);
      var (piece, nextRun) := Emit(s[i], inRun);
      r := r + piece;
      inRun := nextRun;
      i := i + 1;
    }
    assert s[i..] == [];
  }

  /** An id holds no whitespace and no upper-case ASCII letter. */
  lemma {:induction false} SlugifyClean(s: string)
    ensures NoSpace(Slugify(s)) && IsLower(Slugify(s))
    decreases |s|
  {
    if s != [] {
      if IsSpace(s[0]) {
        SlugifyClean(DropSpaces(s));
      } else {
        SlugifyClean(s[1..]);
      }
    }
  }

  /** A non-empty name made only of whitespace becomes the single id "-". */
  lemma SlugifyAllSpace(s: string)
    requires s != []
    requires AllSpace(s)
    ensures Slugify(s) == "-"
  {
    DropSpacesSplit(s);
  }

  /** A whitespace-free name yields just its lower-case form. */
  lemma {:induction false} SlugifyNoSpace(s: string)
    requires NoSpace(s)
    ensures Slugify(s) == LowerAll(s)
    decreases |s|
  {
    if s != [] {
      SlugifyNoSpace(s[1..]);
      assert LowerAll(s) == [Lower(s[0])] + LowerAll(s[1..]);
    }
  }

  /** Slugifying an id again changes nothing: re-entering an id as a name gives the same id. */
  lemma SlugifyIdempotent(s: string)
    ensures Slugify(Slugify(s)) == Slugify(s)
  {
    var r := Slugify(s);
    SlugifyClean(s);
    SlugifyNoSpace(r);
    assert LowerAll(r) == r;
  }

  lemma {:induction false} DropSpacesAppendEmpty(a: string, b: string)
    requires DropSpaces(a) == []
    ensures DropSpaces(a + b) == DropSpaces(b)
    decreases |a|
  {
    if a != [] {
      assert IsSpace(a[0]) && DropSpaces(a[1..]) == [];
      assert (a + b)[0] == a[0] && (a + b)[1..] == a[1..] + b;
      DropSpacesAppendEmpty(a[1..], b);
    } else {
      assert a + b == b;
    }
  }

  /** When nothing is left after the leading run, the input was all whitespace. */
  lemma {:induction false} DropSpacesEmpty(a: string)
    requires a != [] && DropSpaces(a) == []
    ensures IsSpace(a[|a| - 1])
    decreases |a|
  {
    if a[1..] != [] {
      DropSpacesEmpty(a[1..]);
    }
  }

  /** When something is left after the leading run, it ends as the input does. */
  lemma {:induction false} DropSpacesLast(a: string)
    requires DropSpaces(a) != []
    ensures var d := DropSpaces(a); d[|d| - 1] == a[|a| - 1]
    decreases |a|
  {
    if IsSpace(a[0]) {
      DropSpacesLast(a[1..]);
    }
  }

  lemma {:induction false} DropSpacesAppendNonEmpty(a: string, b: string)
    requires DropSpaces(a) != []
    ensures DropSpaces(a + b) == DropSpaces(a) + b
    decreases |a|
  {
    if a != [] && IsSpace(a[0]) {
      assert (a + b)[1..] == a[1..] + b;
      DropSpacesAppendNonEmpty(a[1..], b);
    }
  }

  /**
   * Slugify works piecewise: cutting the name where no whitespace run is
   * split cuts the id at the matching place.
   */
  lemma {:induction false} SlugifyAppend(a: string, b: string)
    requires a == [] || b == [] || !IsSpace(a[|a| - 1]) || !IsSpace(b[0])
    ensures Slugify(a + b) == Slugify(a) + Slugify(b)
    decreases |a|, 1
  {
    if a == [] {
      assert a + b == b;
    } else if b == [] {
      assert a + b == a;
    } else if !IsSpace(a[0]) {
      assert (a + b)[0] == a[0] && (a + b)[1..] == a[1..] + b;
      SlugifyAppend(a[1..], b);
      assert Slugify(a + b) == [Lower(a[0])] + Slugify(a[1..] + b);
      ConcatAssoc([Lower(a[0])], Slugify(a[1..]), Slugify(b));
    } else {
      SlugifyAppendSpaceHead(a, b);
    }
  }

  /** The case of SlugifyAppend where the name opens with a whitespace run. */
  lemma {:induction false} SlugifyAppendSpaceHead(a: string, b: string)
    requires a != [] && b != [] && IsSpace(a[0])
    requires !IsSpace(a[|a| - 1]) || !IsSpace(b[0])
    ensures Slugify(a + b) == Slugify(a) + Slugify(b)
    decreases |a|, 0
  {
    assert (a + b)[0] == a[0];
    var d := DropSpaces(a);
    if d == [] {
      DropSpacesEmpty(a);
      DropSpacesAppendEmpty(a, b);
      assert DropSpaces(b) == b;
      assert Slugify(a) == "-";
    } else {
      DropSpacesAppendNonEmpty(a, b);
      DropSpacesLast(a);
      SlugifyAppend(d, b);
      assert Slugify(a + b) == "-" + Slugify(d + b);
      ConcatAssoc("-", Slugify(d), Slugify(b));
    }
  }

}
