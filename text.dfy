/**
 * The handful of Python string operations the archiving script uses to read
 * command output: `str.split(c)`, `str.splitlines()`, `str.rstrip()`,
 * `str.startswith(p)` and the substring test `t in s`. Strings are sequences
 * of Unicode code points, as Python 3 `str` values are.
 */
module Text {

  /** `s.startswith(p)` */
  predicate StartsWith(s: string, p: string) {
    |p| <= |s| && s[..|p|] == p
  }

  /** `t in s` for strings: `t` occurs as a contiguous piece of `s`. */
  predicate Contains(s: string, t: string)
    decreases |s|
  {
    StartsWith(s, t) || (s != [] && Contains(s[1..], t))
  }

  /** A one-character needle occurs in `s` exactly when that character does. */
  lemma {:induction false} ContainsChar(s: string, c: char)
    ensures Contains(s, [c]) <==> c in s
    decreases |s|
  {
    if s != [] {
      ContainsChar(s[1..], c);
      assert s == [s[0]] + s[1..];
    }
  }

  // ---------------------------------------------------------------------------
  // str.split(sep) with a one-character separator

  /**
   * `s.split(sep)`: the pieces between separators, including empty pieces at
   * either end; the empty string yields one empty piece.
   */
  function Split(s: string, sep: char): (pieces: seq<string>)
    ensures |pieces| >= 1
    ensures forall p | p in pieces :: sep !in p
    decreases |s|
  {
    if s == [] then [[]]
    else
      var rest := Split(s[1..], sep);
      if s[0] == sep then [[]] + rest
      else [[s[0]] + rest[0]] + rest[1..]
  }

  /** `sep.join(pieces)`, the inverse of `Split`. */
  function Join(pieces: seq<string>, sep: char): string
    requires |pieces| >= 1
    decreases |pieces|
  {
    if |pieces| == 1 then pieces[0] else pieces[0] + [sep] + Join(pieces[1..], sep)
  }

  /** Joining the pieces back with the separator gives the original string. */
  lemma {:induction false} JoinSplit(s: string, sep: char)
    ensures Join(Split(s, sep), sep) == s
    decreases |s|
  {
    if s != [] {
      var rest := Split(s[1..], sep);
      JoinSplit(s[1..], sep);
      if s[0] == sep {
        assert ([[]] + rest)[1..] == rest;
      } else if |rest| > 1 {
        assert ([[s[0]] + rest[0]] + rest[1..])[1..] == rest[1..];
      }
    }
  }

  /** A string without the separator is a single piece. */
  lemma {:induction false} SplitWithoutSeparator(p: string, sep: char)
    requires sep !in p
    ensures Split(p, sep) == [p]
    decreases |p|
  {
    if p != [] {
      SplitWithoutSeparator(p[1..], sep);
      assert [p[0]] + p[1..] == p;
    }
  }

  /** A separator-free head followed by the separator splits off as one piece. */
  lemma {:induction false} SplitCons(p: string, sep: char, t: string)
    requires sep !in p
    ensures Split(p + [sep] + t, sep) == [p] + Split(t, sep)
    decreases |p|
  {
    if p == [] {
      assert ([] + [sep] + t)[1..] == t;
    } else {
      SplitCons(p[1..], sep, t);
      assert (p + [sep] + t)[1..] == p[1..] + [sep] + t;
      assert [p[0]] + p[1..] == p;
    }
  }

  /** Splitting a join of separator-free pieces gives the pieces back. */
  lemma {:induction false} SplitJoin(pieces: seq<string>, sep: char)
    requires |pieces| >= 1
    requires forall p | p in pieces :: sep !in p
    ensures Split(Join(pieces, sep), sep) == pieces
    decreases |pieces|
  {
    if |pieces| == 1 {
      SplitWithoutSeparator(pieces[0], sep);
    } else {
      assert pieces[0] in pieces;
      SplitJoin(pieces[1..], sep);
      SplitCons(pieces[0], sep, Join(pieces[1..], sep));
      assert [pieces[0]] + pieces[1..] == pieces;
    }
  }

  /** There is one more piece than there are separators in the string. */
  lemma {:induction false} SplitCount(s: string, sep: char)
    ensures |Split(s, sep)| == multiset(s)[sep] + 1
    decreases |s|
  {
    if s != [] {
      SplitCount(s[1..], sep);
      assert s == [s[0]] + s[1..];
      assert multiset(s) == multiset([s[0]]) + multiset(s[1..]);
    }
  }

  /** A string that ends with the separator has an empty last piece, and so at least two pieces. */
  lemma {:induction false} SplitTrailingSeparator(s: string, sep: char)
    requires s != [] && s[|s| - 1] == sep
    ensures var pieces := Split(s, sep); |pieces| >= 2 && pieces[|pieces| - 1] == []
    decreases |s|
  {
    var rest := Split(s[1..], sep);
    if |s| == 1 {
      assert s[1..] == [];
    } else {
      SplitTrailingSeparator(s[1..], sep);
      var last := rest[|rest| - 1];
      if s[0] == sep {
        assert Split(s, sep) == [[]] + rest;
      } else {
        assert Split(s, sep) == [[s[0]] + rest[0]] + rest[1..];
        assert rest[1..][|rest| - 2] == last;
      }
    }
  }

  // ---------------------------------------------------------------------------
  // str.splitlines()

  /**
   * The line boundaries of Python's `str.splitlines`: line feed, line
   * tabulation, form feed and carriage return (U+000A to U+000D), the file,
   * group and record separators (U+001C to U+001E), next line, and the line
   * and paragraph separators.
   */
  predicate IsLineBreak(c: char) {
    ('\n' <= c <= '\r') || ('\U{001C}' <= c <= '\U{001E}') || c == '\U{0085}' || c == '\U{2028}' || c == '\U{2029}'
  }

  predicate NoLineBreak(s: string) {
    forall i | 0 <= i < |s| :: !IsLineBreak(s[i])
  }

  /** The width of the boundary at the head of `s`: two for `\r\n`, else one. */
  function BreakWidth(s: string): (w: nat)
    requires s != [] && IsLineBreak(s[0])
    ensures 1 <= w <= |s|
  {
    if s[0] == '\r' && |s| > 1 && s[1] == '\n' then 2 else 1
  }

  /** Puts `c` in front of the first line (starting one if there is none). */
  function PrependToFirst(c: char, lines: seq<string>): seq<string> {
    if lines == [] then [[c]] else [[c] + lines[0]] + lines[1..]
  }

  /**
   * `s.splitlines()`: the lines of `s` without their boundaries; `\r\n` is
   * one boundary, and a final boundary does not start an empty last line.
   */
  function SplitLines(s: string): seq<string>
    decreases |s|
  {
    if s == [] then []
    else if IsLineBreak(s[0]) then [[]] + SplitLines(s[BreakWidth(s)..])
    else PrependToFirst(s[0], SplitLines(s[1..]))
  }

  /** Only the empty text has no lines. */
  lemma SplitLinesEmpty(s: string)
    ensures SplitLines(s) == [] <==> s == []
  {
  }

  /** No line that `SplitLines` yields contains a boundary character. */
  lemma {:induction false} SplitLinesHaveNoBreaks(s: string)
    ensures forall l | l in SplitLines(s) :: NoLineBreak(l)
    decreases |s|
  {
    if s != [] {
      if IsLineBreak(s[0]) {
        SplitLinesHaveNoBreaks(s[BreakWidth(s)..]);
      } else {
        var rest := SplitLines(s[1..]);
        SplitLinesHaveNoBreaks(s[1..]);
        if rest != [] {
          assert rest[0] in rest;
          var first := [s[0]] + rest[0];
          assert NoLineBreak(first) by {
            forall i | 0 <= i < |first| ensures !IsLineBreak(first[i]) {
              if i > 0 { assert first[i] == rest[0][i - 1]; }
            }
          }
        }
      }
    }
  }

  /** The text is empty or its last character is a line boundary. */
  predicate LineTerminated(s: string) {
    s == [] || IsLineBreak(s[|s| - 1])
  }

  /**
   * Lines of a line-terminated text are kept when more text follows, unless
   * a final `\r` would merge with a leading `\n` into one `\r\n` boundary.
   */
  lemma {:induction false} SplitLinesAppend(a: string, b: string)
    requires LineTerminated(a)
    requires a != [] && a[|a| - 1] == '\r' ==> b == [] || b[0] != '\n'
    ensures SplitLines(a + b) == SplitLines(a) + SplitLines(b)
    decreases |a|
  {
    if a == [] {
      assert a + b == b;
    } else if IsLineBreak(a[0]) {
      var a' := a[BreakWidth(a)..];
      assert a' == [] || a'[|a'| - 1] == a[|a| - 1];
      calc {
        SplitLines(a + b);
      == { SplitLinesAppendBreak(a, b); }
        [[]] + SplitLines(a' + b);
      == { SplitLinesAppend(a', b); }
        [[]] + (SplitLines(a') + SplitLines(b));
      ==
        SplitLines(a) + SplitLines(b);
      }
    } else {
      var a' := a[1..];
      assert a' != [] && a'[|a'| - 1] == a[|a| - 1];
      SplitLinesEmpty(a');
      calc {
        SplitLines(a + b);
      == { SplitLinesAppendChar(a, b); }
        PrependToFirst(a[0], SplitLines(a' + b));
      == { SplitLinesAppend(a', b); }
        PrependToFirst(a[0], SplitLines(a') + SplitLines(b));
      == { PrependToFirstAppend(a[0], SplitLines(a'), SplitLines(b)); }
        SplitLines(a) + SplitLines(b);
      }
    }
  }

  /** A boundary that opens `a` opens `a + b` too. */
  lemma SplitLinesAppendBreak(a: string, b: string)
    requires a != [] && IsLineBreak(a[0])
    requires a[0] == '\r' && |a| == 1 ==> b == [] || b[0] != '\n'
    ensures SplitLines(a + b) == [[]] + SplitLines(a[BreakWidth(a)..] + b)
  {
    var ab := a + b;
    assert ab[0] == a[0];
    if a[0] == '\r' && |a| > 1 && a[1] == '\n' {
      assert ab[1] == a[1];
      assert ab[2..] == a[2..] + b;
    } else {
      assert |a| > 1 ==> ab[1] == a[1];
      assert |a| == 1 && b != [] ==> ab[1] == b[0];
      assert ab[1..] == a[1..] + b;
    }
  }

  /** A character that opens `a` opens `a + b` too. */
  lemma SplitLinesAppendChar(a: string, b: string)
    requires a != [] && !IsLineBreak(a[0])
    ensures SplitLines(a + b) == PrependToFirst(a[0], SplitLines(a[1..] + b))
  {
    var ab := a + b;
    assert ab[0] == a[0];
    assert ab[1..] == a[1..] + b;
  }

  lemma PrependToFirstAppend(c: char, x: seq<string>, y: seq<string>)
    requires x != []
    ensures PrependToFirst(c, x + y) == PrependToFirst(c, x) + y
  {
    assert (x + y)[0] == x[0] && (x + y)[1..] == x[1..] + y;
  }

  /** A break-free, non-empty line followed by `\n` is that single line. */
  lemma {:induction false} SplitLinesOneLine(line: string)
    requires line != [] && NoLineBreak(line)
    ensures SplitLines(line + "\n") == [line]
    decreases |line|
  {
    var s := line + "\n";
    assert s[0] == line[0] && !IsLineBreak(s[0]);
    assert s[1..] == line[1..] + "\n";
    assert SplitLines(s) == PrependToFirst(line[0], SplitLines(s[1..]));
    if |line| > 1 {
      SplitLinesOneLine(line[1..]);
      assert [line[0]] + line[1..] == line;
    } else {
      assert s[1..] == "\n";
      assert SplitLines("\n") == [[]] + SplitLines([]);
      assert [line[0]] + [] == line;
    }
  }

  // ---------------------------------------------------------------------------
  // str.rstrip()

  /** The characters Python's `str.isspace` accepts. */
  predicate IsSpace(c: char) {
    ('\t' <= c <= '\r') || ('\U{001C}' <= c <= '\U{001F}') || c == ' '
    || c == '\U{0085}' || c == '\U{00A0}' || c == '\U{1680}'
    || ('\U{2000}' <= c <= '\U{200A}') || c == '\U{2028}' || c == '\U{2029}'
    || c == '\U{202F}' || c == '\U{205F}' || c == '\U{3000}'
  }

  /**
   * `s.rstrip()`: the longest prefix of `s` that does not end in whitespace;
   * everything after it is whitespace.
   */
  function RStrip(s: string): (r: string)
    ensures |r| <= |s| && r == s[..|r|]
    ensures forall i | |r| <= i < |s| :: IsSpace(s[i])
    ensures r == [] || !IsSpace(r[|r| - 1])
    decreases |s|
  {
    if s == [] || !IsSpace(s[|s| - 1]) then s else RStrip(s[..|s| - 1])
  }

  /** Stripping trailing whitespace never removes a non-space character. */
  lemma RStripKeepsNonSpace(s: string, c: char)
    requires !IsSpace(c)
    ensures c in RStrip(s) <==> c in s
  {
    var r := RStrip(s);
    if c in s {
      var i :| 0 <= i < |s| && s[i] == c;
      assert r[i] == c;
    }
  }
}
