/** The two Python string methods the execution contexts apply to command
    output and paths: `str.splitlines()` and `str.replace(old, new)`. */
module PyStrings {

  /** The characters `str.splitlines()` treats as line boundaries (`\r\n`
      counts as one boundary, see SplitLines). */
  predicate IsLineBreak(c: char)
  {
    c == '\n' || c == '\r' || c == '\U{000B}' || c == '\U{000C}' ||
    c == '\U{001C}' || c == '\U{001D}' || c == '\U{001E}' || c == '\U{0085}' ||
    c == '\U{2028}' || c == '\U{2029}'
  }

  /** The position of the first line boundary of `s`, or `|s|`. */
  function LineEnd(s: string): (k: nat)
    ensures k <= |s|
  {
    if s == [] || IsLineBreak(s[0]) then 0 else 1 + LineEnd(s[1..])
  }

  /** LineEnd stops at the first boundary: none comes before it. */
  lemma {:induction false} LineEndIsFirstBreak(s: string)
    ensures NoBreaks(s[..LineEnd(s)])
    ensures LineEnd(s) < |s| ==> IsLineBreak(s[LineEnd(s)])
    decreases |s|
  {
    if s != [] && !IsLineBreak(s[0]) {
      LineEndIsFirstBreak(s[1..]);
      assert s[..LineEnd(s)] == [s[0]] + s[1..][..LineEnd(s[1..])];
    }
  }

  /** A boundary at `n` with none before it is where the first line ends. */
  lemma LineEndAt(s: string, n: nat)
    requires n < |s| && IsLineBreak(s[n]) && NoBreaks(s[..n])
    ensures LineEnd(s) == n
  {
    LineEndIsFirstBreak(s);
  }

  /** `s.splitlines()`: the lines of `s` without their boundaries; a final
      boundary does not open an empty last line. */
  function SplitLines(s: string): seq<string>
    decreases |s|
  {
    if s == [] then []
    else
      var k := LineEnd(s);
      if k == |s| then [s]
      else
        [s[..k]] + SplitLines(s[k + BreakLength(s, k)..])
  }

  /** The length of the boundary at `k`: `\r\n` is one boundary of two
      characters. */
  function BreakLength(s: string, k: nat): (n: nat)
    requires k < |s|
    ensures 1 <= n && k + n <= |s|
  {
    if s[k] == '\r' && k + 1 < |s| && s[k + 1] == '\n' then 2 else 1
  }

  /** The lines one after the other, without separators. */
  function Flatten(lines: seq<string>): string
  {
    if lines == [] then [] else lines[0] + Flatten(lines[1..])
  }

  /** Every line terminated by `\n`, as a command prints them. */
  function JoinLines(lines: seq<string>): string
  {
    if lines == [] then [] else lines[0] + "\n" + JoinLines(lines[1..])
  }

  /** `s` without its line-boundary characters. */
  function StripBreaks(s: string): string
  {
    if s == [] then []
    else if IsLineBreak(s[0]) then StripBreaks(s[1..])
    else [s[0]] + StripBreaks(s[1..])
  }

  predicate NoBreaks(s: string)
  {
    forall j :: 0 <= j < |s| ==> !IsLineBreak(s[j])
  }

  lemma {:induction false} StripBreaksAppend(a: string, b: string)
    ensures StripBreaks(a + b) == StripBreaks(a) + StripBreaks(b)
    decreases |a|
  {
    if a == [] {
      assert a + b == b;
    } else {
      assert (a + b)[0] == a[0];
      assert (a + b)[1..] == a[1..] + b;
      StripBreaksAppend(a[1..], b);
    }
  }

  lemma StripBreaksSplit(s: string, i: nat)
    requires i <= |s|
    ensures StripBreaks(s) == StripBreaks(s[..i]) + StripBreaks(s[i..])
  {
    calc {
      StripBreaks(s);
      { assert s == s[..i] + s[i..]; }
      StripBreaks(s[..i] + s[i..]);
      { StripBreaksAppend(s[..i], s[i..]); }
      StripBreaks(s[..i]) + StripBreaks(s[i..]);
    }
  }

  lemma {:induction false} StripBreaksKeeps(s: string)
    requires NoBreaks(s)
    ensures StripBreaks(s) == s
    decreases |s|
  {
    if s != [] {
      StripBreaksKeeps(s[1..]);
    }
  }

  lemma FlattenCons(line: string, lines: seq<string>)
    ensures Flatten([line] + lines) == line + Flatten(lines)
  {
    assert ([line] + lines)[1..] == lines;
  }

  /** A boundary strips to nothing. */
  lemma StripBreaksOfBoundary(s: string, k: nat)
    requires k < |s| && IsLineBreak(s[k])
    ensures StripBreaks(s[k..]) == StripBreaks(s[k + BreakLength(s, k)..])
  {
    assert s[k..][1..] == s[k + 1..];
    if BreakLength(s, k) == 2 {
      assert s[k + 1..][1..] == s[k + 2..];
    }
  }

  /** One step of `splitlines()`: the first line, then the lines after the
      first boundary. */
  lemma SplitLinesUnfold(s: string, k: nat)
    requires s != [] && k == LineEnd(s) && k < |s|
    ensures SplitLines(s) == [s[..k]] + SplitLines(s[k + BreakLength(s, k)..])
  {
  }

  /** No line of `s.splitlines()` holds a boundary. */
  lemma {:induction false} SplitLinesNoBreaks(s: string)
    ensures forall i :: 0 <= i < |SplitLines(s)| ==> NoBreaks(SplitLines(s)[i])
    decreases |s|
  {
    if s != [] {
      LineEndIsFirstBreak(s);
      var k := LineEnd(s);
      if k < |s| {
        SplitLinesNoBreaks(s[k + BreakLength(s, k)..]);
      }
    }
  }

  /** Stripping the boundaries of `s` keeps a first line `s[..k]` free of
      boundaries and strips what follows the boundary at `k`. */
  lemma StripBreaksStep(s: string, k: nat)
    requires k < |s| && IsLineBreak(s[k]) && NoBreaks(s[..k])
    ensures StripBreaks(s) == s[..k] + StripBreaks(s[k + BreakLength(s, k)..])
  {
    StripBreaksSplit(s, k);
    StripBreaksKeeps(s[..k]);
    StripBreaksOfBoundary(s, k);
  }

  /** The lines of `s.splitlines()` hold exactly the characters of `s` other
      than line boundaries, in their order: splitting loses no content. */
  lemma {:induction false} SplitLinesKeepsText(s: string)
    ensures Flatten(SplitLines(s)) == StripBreaks(s)
    decreases |s|
  {
    if s != [] {
      var k := LineEnd(s);
      LineEndIsFirstBreak(s);
      if k == |s| {
        assert s[..k] == s;
        StripBreaksKeeps(s);
        assert SplitLines(s) == [s];
        FlattenCons(s, []);
      } else {
        var rest := s[k + BreakLength(s, k)..];
        SplitLinesUnfold(s, k);
        FlattenCons(s[..k], SplitLines(rest));
        StripBreaksStep(s, k);
        SplitLinesKeepsText(rest);
      }
    }
  }

  /** The joined text is the first line, its `\n`, then the other lines
      joined. */
  lemma JoinLinesHead(lines: seq<string>)
    requires lines != []
    ensures |lines[0]| < |JoinLines(lines)|
    ensures JoinLines(lines)[..|lines[0]|] == lines[0]
    ensures JoinLines(lines)[|lines[0]|] == '\n'
    ensures JoinLines(lines)[|lines[0]| + 1..] == JoinLines(lines[1..])
  {
    assert JoinLines(lines) == lines[0] + ("\n" + JoinLines(lines[1..]));
  }

  /** Splitting undoes joining: lines that hold no boundary come back from
      `splitlines()` unchanged once each is terminated by `\n`. */
  lemma {:induction false} SplitJoinRoundTrip(lines: seq<string>)
    requires forall i :: 0 <= i < |lines| ==> NoBreaks(lines[i])
    ensures SplitLines(JoinLines(lines)) == lines
    decreases |lines|
  {
    if lines != [] {
      var s, n := JoinLines(lines), |lines[0]|;
      JoinLinesHead(lines);
      LineEndAt(s, n);
      assert BreakLength(s, n) == 1;
      SplitLinesUnfold(s, n);
      SplitJoinRoundTrip(lines[1..]);
      assert [lines[0]] + lines[1..] == lines;
    }
  }

  /** `pat` stands in `s` at position `i`. */
  predicate OccursAt(s: string, pat: string, i: int)
  {
    0 <= i && i + |pat| <= |s| && s[i..i + |pat|] == pat
  }

  /** `s` has `pat` as a substring. */
  predicate Occurs(s: string, pat: string)
  {
    exists i :: 0 <= i <= |s| && OccursAt(s, pat, i)
  }

  /** `s.replace(pat, repl)`: every non-overlapping occurrence of `pat`, left to
      right, is replaced by `repl`. */
  function Replace(s: string, pat: string, repl: string): string
    requires pat != []
    decreases |s|
  {
    if |s| < |pat| then s
    else if s[..|pat|] == pat then repl + Replace(s[|pat|..], pat, repl)
    else [s[0]] + Replace(s[1..], pat, repl)
  }

  /** A prefix in which no occurrence of `pat` starts is copied as it is,
      and the scan resumes right after it. */
  lemma {:induction false} ReplacePrefix(a: string, rest: string, pat: string, repl: string)
    requires pat != []
    requires forall i :: 0 <= i < |a| ==> !OccursAt(a + rest, pat, i)
    ensures Replace(a + rest, pat, repl) == a + Replace(rest, pat, repl)
    decreases |a|
  {
    if a == [] {
      assert a + rest == rest;
    } else {
      var s := a + rest;
      assert s[1..] == a[1..] + rest;
      forall i | 0 <= i < |a[1..]| ensures !OccursAt(a[1..] + rest, pat, i) {
        assert !OccursAt(s, pat, i + 1);
        if i + |pat| <= |s| - 1 {
          assert s[1..][i..i + |pat|] == s[i + 1..i + 1 + |pat|];
        }
      }
      ReplacePrefix(a[1..], rest, pat, repl);
      if |s| >= |pat| {
        assert !OccursAt(s, pat, 0);
        assert s[0..0 + |pat|] == s[..|pat|];
        assert [s[0]] + (a[1..] + Replace(rest, pat, repl)) == a + Replace(rest, pat, repl);
      } else {
        assert |rest| < |pat|;
      }
    }
  }

  /** A text without the first character of `pat` is left as it is. */
  lemma {:induction false} ReplaceWithoutLead(s: string, pat: string, repl: string)
    requires pat != []
    requires forall i :: 0 <= i < |s| ==> s[i] != pat[0]
    ensures Replace(s, pat, repl) == s
    decreases |s|
  {
    if |s| >= |pat| {
      assert s[..|pat|][0] == s[0];
      ReplaceWithoutLead(s[1..], pat, repl);
    }
  }

  /** An occurrence of `pat` at the start of the scan is replaced. */
  lemma ReplaceAtStart(pat: string, b: string, repl: string)
    requires pat != []
    ensures Replace(pat + b, pat, repl) == repl + Replace(b, pat, repl)
  {
    assert (pat + b)[..|pat|] == pat;
    assert (pat + b)[|pat|..] == b;
  }

  /** `s` without the character `c`. */
  function Drop(s: string, c: char): string
  {
    if s == [] then []
    else if s[0] == c then Drop(s[1..], c)
    else [s[0]] + Drop(s[1..], c)
  }

  lemma {:induction false} DropAppend(a: string, b: string, c: char)
    ensures Drop(a + b, c) == Drop(a, c) + Drop(b, c)
    decreases |a|
  {
    if a == [] {
      assert a + b == b;
    } else {
      assert (a + b)[0] == a[0];
      assert (a + b)[1..] == a[1..] + b;
      DropAppend(a[1..], b, c);
    }
  }

  /** A text without `pat` is left as it is. */
  lemma {:induction false} ReplaceAbsent(s: string, pat: string, repl: string)
    requires pat != []
    requires !Occurs(s, pat)
    ensures Replace(s, pat, repl) == s
    decreases |s|
  {
    if |s| >= |pat| {
      assert s[0..0 + |pat|] == s[..|pat|];
      assert !OccursAt(s, pat, 0);
      forall i | 0 <= i && i + |pat| <= |s| - 1 ensures !OccursAt(s[1..], pat, i) {
        assert s[1..][i..i + |pat|] == s[i + 1..i + 1 + |pat|];
        assert !OccursAt(s, pat, i + 1);
      }
      ReplaceAbsent(s[1..], pat, repl);
    }
  }

  /** When the replacement is no longer than `pat`, the text does not grow,
      and it shrinks as soon as `pat` occurs. */
  lemma {:induction false} ReplaceShrinks(s: string, pat: string, repl: string)
    requires pat != [] && |repl| < |pat|
    ensures |Replace(s, pat, repl)| <= |s|
    ensures Occurs(s, pat) ==> |Replace(s, pat, repl)| < |s|
    decreases |s|
  {
    if |s| >= |pat| {
      if s[..|pat|] == pat {
        ReplaceShrinks(s[|pat|..], pat, repl);
      } else {
        ReplaceShrinks(s[1..], pat, repl);
        assert s[0..0 + |pat|] == s[..|pat|];
        if Occurs(s, pat) {
          var i :| 0 <= i <= |s| && OccursAt(s, pat, i);
          if i > 0 {
            assert s[1..][i - 1..i - 1 + |pat|] == s[i..i + |pat|];
            assert OccursAt(s[1..], pat, i - 1);
          }
        }
      }
    }
  }

  /** If `pat` and `repl` differ only in occurrences of `c`, replacing changes
      nothing but occurrences of `c`. */
  lemma {:induction false} ReplaceOnlyTouches(s: string, pat: string, repl: string, c: char)
    requires pat != []
    requires Drop(pat, c) == Drop(repl, c)
    ensures Drop(Replace(s, pat, repl), c) == Drop(s, c)
    decreases |s|
  {
    if |s| >= |pat| {
      if s[..|pat|] == pat {
        ReplaceOnlyTouches(s[|pat|..], pat, repl, c);
        DropAppend(repl, Replace(s[|pat|..], pat, repl), c);
        assert s == pat + s[|pat|..];
        DropAppend(pat, s[|pat|..], c);
      } else {
        ReplaceOnlyTouches(s[1..], pat, repl, c);
        DropAppend([s[0]], Replace(s[1..], pat, repl), c);
        assert s == [s[0]] + s[1..];
        DropAppend([s[0]], s[1..], c);
      }
    }
  }
}
