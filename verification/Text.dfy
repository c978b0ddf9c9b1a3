/** The string operations the fact file format rests on: whitespace, lines and words. */
module Text {

  // ------------------------------------------------------------- characters

  /** Line boundaries of `str.splitlines`. */
  predicate IsBreak(c: char) {
    var n := c as int;
    (0x0A <= n <= 0x0D) || (0x1C <= n <= 0x1E) || n == 0x85 || n == 0x2028 || n == 0x2029
  }

  /** Whitespace of `str.strip` and of the pattern `\s`; every line boundary is one. */
  predicate IsSpace(c: char) {
    var n := c as int;
    || (0x09 <= n <= 0x0D) || (0x1C <= n <= 0x20) || n == 0x85 || n == 0xA0 || n == 0x1680
    || (0x2000 <= n <= 0x200A) || n == 0x2028 || n == 0x2029 || n == 0x202F || n == 0x205F || n == 0x3000
  }

  /** The number of bytes in UTF-8. */
  function Utf8Length(s: string): nat {
    if s == [] then 0
    else
      var n := s[0] as int;
      (if n < 0x80 then 1 else if n < 0x800 then 2 else if n < 0x10000 then 3 else 4) + Utf8Length(s[1..])
  }

  // --------------------------------------------------------------- stripping

  function LStrip(s: string): string { if s != [] && IsSpace(s[0]) then LStrip(s[1..]) else s }

  function RStrip(s: string): string { if s != [] && IsSpace(s[|s| - 1]) then RStrip(s[..|s| - 1]) else s }

  function Strip(s: string): string { RStrip(LStrip(s)) }

  /** Neither end is whitespace. */
  predicate Trimmed(s: string) { s == [] || (!IsSpace(s[0]) && !IsSpace(s[|s| - 1])) }

  lemma {:induction false} RStripKeepsFirst(s: string)
    requires s != [] && !IsSpace(s[0])
    ensures RStrip(s) != [] && RStrip(s)[0] == s[0] && !IsSpace(RStrip(s)[|RStrip(s)| - 1])
    decreases |s|
  {
    if IsSpace(s[|s| - 1]) { RStripKeepsFirst(s[..|s| - 1]); }
  }

  lemma {:induction false} LStripFirst(s: string)
    ensures LStrip(s) == [] || !IsSpace(LStrip(s)[0])
  {
    if s != [] && IsSpace(s[0]) { LStripFirst(s[1..]); }
  }

  lemma StripIsTrimmed(s: string)
    ensures Trimmed(Strip(s))
  {
    LStripFirst(s);
    if LStrip(s) != [] { RStripKeepsFirst(LStrip(s)); }
  }

  lemma TrimmedStrips(s: string)
    requires Trimmed(s)
    ensures Strip(s) == s
  {}

  /** A line that starts with a visible character keeps it when stripped. */
  lemma StripKeepsFirst(s: string)
    requires s != [] && !IsSpace(s[0])
    ensures Strip(s) != [] && Strip(s)[0] == s[0]
  {
    RStripKeepsFirst(s);
  }

  lemma StripPrefix(c: char, s: string)
    requires IsSpace(c)
    ensures Strip([c] + s) == Strip(s)
  {
    assert ([c] + s)[1..] == s;
  }

  lemma {:induction false} StripSuffix(s: string, c: char)
    requires IsSpace(c)
    ensures Strip(s + [c]) == Strip(s)
    decreases |s|
  {
    if s == [] {
      assert [] + [c] == [c] && [c][1..] == [];
    } else if IsSpace(s[0]) {
      assert (s + [c])[1..] == s[1..] + [c];
      StripSuffix(s[1..], c);
    } else {
      assert (s + [c])[..|s|] == s;
    }
  }

  // ------------------------------------------------------------------ words

  /** Maximal runs of visible characters. */
  function Words(s: string): (r: seq<string>)
    ensures s != [] && !IsSpace(s[0]) ==> r != []
  {
    if s == [] then []
    else if IsSpace(s[0]) then Words(s[1..])
    else if |s| == 1 || IsSpace(s[1]) then [[s[0]]] + Words(s[1..])
    else [[s[0]] + Words(s[1..])[0]] + Words(s[1..])[1..]
  }

  /** Words do not run across a whitespace boundary. */
  lemma {:induction false} WordsConcat(a: string, b: string)
    requires a == [] || b == [] || IsSpace(a[|a| - 1]) || IsSpace(b[0])
    ensures Words(a + b) == Words(a) + Words(b)
    decreases |a|
  {
    if a == [] {
      assert a + b == b;
    } else if b == [] {
      assert a + b == a;
    } else {
      assert (a + b)[1..] == a[1..] + b;
      WordsConcat(a[1..], b);
      if |a| > 1 { assert (a + b)[1] == a[1]; }
    }
  }

  lemma {:induction false} WordsOfLStrip(s: string)
    ensures Words(LStrip(s)) == Words(s)
  {
    if s != [] && IsSpace(s[0]) { WordsOfLStrip(s[1..]); }
  }

  lemma {:induction false} WordsOfRStrip(s: string)
    ensures Words(RStrip(s)) == Words(s)
    decreases |s|
  {
    if s != [] && IsSpace(s[|s| - 1]) {
      WordsOfRStrip(s[..|s| - 1]);
      assert s == s[..|s| - 1] + [s[|s| - 1]];
      WordsConcat(s[..|s| - 1], [s[|s| - 1]]);
    }
  }

  lemma WordsOfStrip(s: string)
    ensures Words(Strip(s)) == Words(s)
  {
    WordsOfLStrip(s);
    WordsOfRStrip(LStrip(s));
  }

  // ---------------------------------------------------------- normalisation

  /** `re.sub(r"\s+", " ", s)`. */
  function Collapse(s: string): string {
    if s == [] then []
    else if !IsSpace(s[0]) then [s[0]] + Collapse(s[1..])
    else if |s| > 1 && IsSpace(s[1]) then Collapse(s[1..])
    else [' '] + Collapse(s[1..])
  }

  /** The whitespace-stable form that is hashed. */
  function Normalize(s: string): string { Strip(Collapse(s)) }

  function Join(parts: seq<string>, sep: string): string {
    if parts == [] then [] else if |parts| == 1 then parts[0] else parts[0] + sep + Join(parts[1..], sep)
  }

  lemma RStripCons(c: char, s: string)
    requires RStrip(s) != []
    ensures RStrip([c] + s) == [c] + RStrip(s)
    decreases |s|
  {
    if IsSpace(s[|s| - 1]) {
      assert ([c] + s)[..|s|] == [c] + s[..|s| - 1];
      RStripCons(c, s[..|s| - 1]);
    }
  }

  lemma {:induction false} CollapseFirst(s: string)
    requires s != []
    ensures Collapse(s) != [] && (!IsSpace(s[0]) ==> Collapse(s)[0] == s[0])
  {
    if IsSpace(s[0]) && |s| > 1 && IsSpace(s[1]) { CollapseFirst(s[1..]); }
  }

  lemma {:induction false} CollapseSpaces(s: string)
    requires s != [] && IsSpace(s[0])
    ensures Collapse(s) == [' '] + Collapse(LStrip(s))
  {
    if |s| > 1 && IsSpace(s[1]) { CollapseSpaces(s[1..]); }
  }

  /** Stripping a visible character followed by at most one space and a trimmed-left text. */
  lemma StripAfter(c: char, gap: string, s: string)
    requires !IsSpace(c) && (gap == [] || gap == [' ']) && (s == [] || !IsSpace(s[0]))
    ensures Strip([c] + gap + s) == if s == [] then [c] else [c] + gap + Strip(s)
  {
    if s == [] {
      assert [c] + gap + s == if gap == [] then [c] else [c] + [' '];
      TrimmedStrips([c]);
      StripSuffix([c], ' ');
    } else {
      RStripKeepsFirst(s);
      if gap == [' '] {
        RStripCons(' ', s);
        assert [c] + gap + s == [c] + ([' '] + s);
        RStripCons(c, [' '] + s);
      } else {
        assert [c] + gap + s == [c] + s;
        RStripCons(c, s);
      }
    }
  }

  lemma JoinCons(c: char, parts: seq<string>)
    requires parts != []
    ensures Join([[c] + parts[0]] + parts[1..], " ") == [c] + Join(parts, " ")
  {
    var q := [[c] + parts[0]] + parts[1..];
    assert q[1..] == parts[1..];
    if |parts| > 1 {
      assert [c] + parts[0] + " " + Join(parts[1..], " ") == [c] + (parts[0] + " " + Join(parts[1..], " "));
    }
  }

  /** Normalising is joining the words by single spaces, so it depends on the words alone. */
  lemma {:induction false} NormalizeIsWords(s: string)
    ensures Normalize(s) == Join(Words(s), " ")
    decreases |s|
  {
    if s == [] {
    } else if IsSpace(s[0]) {
      NormalizeIsWords(s[1..]);
      if !(|s| > 1 && IsSpace(s[1])) { StripPrefix(' ', Collapse(s[1..])); }
    } else {
      var t := s[1..];
      if t == [] || !IsSpace(t[0]) {
        NormalizeIsWords(t);
        if t != [] { CollapseFirst(t); JoinCons(s[0], Words(t)); }
        assert [s[0]] + [] + Collapse(t) == [s[0]] + Collapse(t);
        StripAfter(s[0], [], Collapse(t));
      } else {
        var u := LStrip(t);
        LStripFirst(t);
        LStripShorter(t);
        CollapseSpaces(t);
        WordsOfLStrip(t);
        NormalizeIsWords(u);
        if u != [] { CollapseFirst(u); }
        assert [s[0]] + [' '] + Collapse(u) == [s[0]] + ([' '] + Collapse(u));
        StripAfter(s[0], [' '], Collapse(u));
        assert ([[s[0]]] + Words(t))[1..] == Words(t);
      }
    }
  }

  lemma {:induction false} LStripShorter(s: string)
    ensures |LStrip(s)| <= |s|
  {
    if s != [] && IsSpace(s[0]) { LStripShorter(s[1..]); }
  }

  // ------------------------------------------------------------------ lines

  function AfterBreak(s: string): string
    requires s != []
  {
    if s[0] == '\r' && |s| > 1 && s[1] == '\n' then s[2..] else s[1..]
  }

  /** `str.splitlines`: no line for what follows the last boundary if that is empty. */
  function SplitLines(s: string): (r: seq<string>)
    ensures s != [] ==> r != []
  {
    if s == [] then []
    else if IsBreak(s[0]) then [[]] + SplitLines(AfterBreak(s))
    else if |s| == 1 then [s]
    else [[s[0]] + SplitLines(s[1..])[0]] + SplitLines(s[1..])[1..]
  }

  /** The lines an element contributes to newline-joined text. */
  function LinesOf(s: string): seq<string> { if s == [] then [[]] else SplitLines(s) }

  predicate EndsVisibly(s: string) { s == [] || !IsBreak(s[|s| - 1]) }

  lemma {:induction false} SplitAtNewline(s: string, rest: string)
    requires EndsVisibly(s)
    ensures SplitLines(s + ['\n'] + rest) == LinesOf(s) + SplitLines(rest)
    decreases |s|
  {
    if s == [] {
      assert (s + ['\n'] + rest)[1..] == rest;
    } else if IsBreak(s[0]) {
      SplitAtNewlineBreak(s, rest);
    } else {
      SplitAtNewlineVisible(s, rest);
    }
  }

  lemma {:induction false} SplitAtNewlineBreak(s: string, rest: string)
    requires EndsVisibly(s) && s != [] && IsBreak(s[0])
    ensures SplitLines(s + ['\n'] + rest) == LinesOf(s) + SplitLines(rest)
    decreases |s|, 0
  {
    var t, full := AfterBreak(s), s + ['\n'] + rest;
    assert |s| > 1 && (s[1] == '\n' ==> |s| > 2);
    assert full[0] == s[0] && full[1] == s[1];
    assert AfterBreak(full) == t + ['\n'] + rest;
    calc {
      SplitLines(full);
      [[]] + SplitLines(AfterBreak(full));
      { SplitAtNewline(t, rest); }
      [[]] + (SplitLines(t) + SplitLines(rest));
      ([[]] + SplitLines(t)) + SplitLines(rest);
      SplitLines(s) + SplitLines(rest);
    }
  }

  lemma HeadOfConcat(c: char, a: seq<string>, b: seq<string>)
    requires a != []
    ensures [[c] + (a + b)[0]] + (a + b)[1..] == ([[c] + a[0]] + a[1..]) + b
  {}

  lemma {:induction false} SplitAtNewlineVisible(s: string, rest: string)
    requires EndsVisibly(s) && s != [] && !IsBreak(s[0])
    ensures SplitLines(s + ['\n'] + rest) == LinesOf(s) + SplitLines(rest)
    decreases |s|, 0
  {
    var t, full := s[1..], s + ['\n'] + rest;
    assert full[0] == s[0] && full[1..] == t + ['\n'] + rest;
    calc {
      SplitLines(full);
      [[s[0]] + SplitLines(full[1..])[0]] + SplitLines(full[1..])[1..];
      { SplitAtNewline(t, rest); }
      [[s[0]] + (LinesOf(t) + SplitLines(rest))[0]] + (LinesOf(t) + SplitLines(rest))[1..];
      { HeadOfConcat(s[0], LinesOf(t), SplitLines(rest)); }
      ([[s[0]] + LinesOf(t)[0]] + LinesOf(t)[1..]) + SplitLines(rest);
      { LinesOfVisible(s); }
      LinesOf(s) + SplitLines(rest);
    }
  }

  lemma LinesOfVisible(s: string)
    requires s != [] && !IsBreak(s[0])
    ensures LinesOf(s) == [[s[0]] + LinesOf(s[1..])[0]] + LinesOf(s[1..])[1..]
  {
    if |s| == 1 { assert [s[0]] + [] == s; }
  }

  /** Newline-terminated elements. */
  function Unlines(parts: seq<string>): string {
    if parts == [] then [] else parts[0] + ['\n'] + Unlines(parts[1..])
  }

  function AllLines(parts: seq<string>): seq<string> {
    if parts == [] then [] else LinesOf(parts[0]) + AllLines(parts[1..])
  }

  lemma {:induction false} SplitUnlines(parts: seq<string>)
    requires forall i :: 0 <= i < |parts| ==> EndsVisibly(parts[i])
    ensures SplitLines(Unlines(parts)) == AllLines(parts)
  {
    if parts != [] {
      SplitUnlines(parts[1..]);
      SplitAtNewline(parts[0], Unlines(parts[1..]));
    }
  }

  /** A part without boundaries is one line. */
  lemma {:induction false} OneLine(s: string)
    requires forall i :: 0 <= i < |s| ==> !IsBreak(s[i])
    ensures LinesOf(s) == [s]
  {
    if |s| > 1 {
      OneLine(s[1..]);
      assert [s[0]] + s[1..] == s;
    }
  }

  function FlatWords(lines: seq<string>): seq<string> {
    if lines == [] then [] else Words(lines[0]) + FlatWords(lines[1..])
  }

  lemma {:induction false} FlatWordsConcat(a: seq<string>, b: seq<string>)
    ensures FlatWords(a + b) == FlatWords(a) + FlatWords(b)
  {
    if a == [] {
      assert a + b == b;
    } else {
      assert (a + b)[1..] == a[1..] + b;
      FlatWordsConcat(a[1..], b);
    }
  }

  /** Splitting into lines loses no word and joins none. */
  lemma {:induction false} WordsOfLines(s: string)
    ensures FlatWords(SplitLines(s)) == Words(s)
    decreases |s|
  {
    if s == [] {
    } else if IsBreak(s[0]) {
      WordsOfLines(AfterBreak(s));
      assert ([[]] + SplitLines(AfterBreak(s)))[1..] == SplitLines(AfterBreak(s));
    } else if |s| > 1 {
      var t := s[1..];
      var lines := SplitLines(t);
      WordsOfLines(t);
      var first := [s[0]] + lines[0];
      assert SplitLines(s)[1..] == lines[1..];
      FirstLineStart(t);
      WordsOfFirst(s[0], lines[0], lines[1..], t);
    }
  }

  lemma FirstLineStart(s: string)
    requires s != []
    ensures SplitLines(s)[0] == [] <==> IsBreak(s[0])
    ensures !IsBreak(s[0]) ==> SplitLines(s)[0][0] == s[0]
  {}

  /** A visible character joins the first word, or is a word of its own. */
  function ConsWord(c: char, joined: bool, words: seq<string>): seq<string>
    requires joined ==> words != []
  {
    if joined then [[c] + words[0]] + words[1..] else [[c]] + words
  }

  lemma WordsCons(c: char, s: string)
    ensures Words([c] + s) == if IsSpace(c) then Words(s) else ConsWord(c, s != [] && !IsSpace(s[0]), Words(s))
  {
    assert ([c] + s)[1..] == s;
  }

  lemma ConsWordConcat(c: char, joined: bool, a: seq<string>, b: seq<string>)
    requires joined ==> a != []
    ensures ConsWord(c, joined, a) + b == ConsWord(c, joined, a + b)
  {}

  lemma WordsOfFirst(c: char, first: string, rest: seq<string>, t: string)
    requires t != [] && Words(t) == Words(first) + FlatWords(rest)
    requires first == [] <==> IsBreak(t[0])
    requires first != [] ==> first[0] == t[0]
    ensures Words([c] + first) + FlatWords(rest) == Words([c] + t)
  {
    var joined := first != [] && !IsSpace(first[0]);
    WordsCons(c, first);
    WordsCons(c, t);
    if IsSpace(c) { return; }
    calc {
      Words([c] + first) + FlatWords(rest);
      ConsWord(c, joined, Words(first)) + FlatWords(rest);
      { ConsWordConcat(c, joined, Words(first), FlatWords(rest)); }
      ConsWord(c, joined, Words(first) + FlatWords(rest));
      ConsWord(c, t != [] && !IsSpace(t[0]), Words(t));
      Words([c] + t);
    }
  }

  lemma WordsAcross(a: string, sep: char, b: string)
    requires IsSpace(sep)
    ensures Words(a + [sep] + b) == Words(a) + Words(b)
  {
    WordsConcat(a, [sep]);
    WordsConcat(a + [sep], b);
    WordsCons(sep, []);
    assert [sep] + [] == [sep];
  }

  lemma {:induction false} WordsOfJoin(parts: seq<string>, sep: char)
    requires IsSpace(sep)
    ensures Words(Join(parts, [sep])) == FlatWords(parts)
  {
    if |parts| == 1 {
      assert FlatWords(parts[1..]) == [];
    } else if |parts| > 1 {
      WordsOfJoin(parts[1..], sep);
      WordsAcross(parts[0], sep, Join(parts[1..], [sep]));
    }
  }

  // ------------------------------------------------- headings inside a text

  /** Some line of `s`, stripped, is `h`. */
  ghost predicate HasLine(s: string, h: string) {
    exists i :: 0 <= i < |SplitLines(s)| && Strip(SplitLines(s)[i]) == h
  }

  lemma LStripHasLine(c: char, s: string, h: string)
    requires IsSpace(c) && HasLine(s, h)
    ensures HasLine([c] + s, h)
  {
    var t := [c] + s;
    var a, b := SplitLines(s), SplitLines(t);
    var i :| 0 <= i < |a| && Strip(a[i]) == h;
    assert t[1..] == s;
    if IsBreak(c) {
      if c == '\r' && s[0] == '\n' {
        assert t[2..] == s[1..];
        assert a == [[]] + SplitLines(s[1..]) && b == a;
        assert Strip(b[i]) == h;
      } else {
        assert b == [[]] + a;
        assert b[i + 1] == a[i];
      }
    } else {
      assert b == [[c] + a[0]] + a[1..];
      StripPrefix(c, a[0]);
      assert Strip(b[i]) == h;
    }
  }

  /** Appending one character extends the last line or adds one. */
  lemma {:induction false} SplitPush(s: string, c: char)
    requires IsSpace(c)
    ensures |SplitLines(s)| <= |SplitLines(s + [c])|
    ensures forall i :: 0 <= i < |SplitLines(s)| ==>
      SplitLines(s + [c])[i] == SplitLines(s)[i] || SplitLines(s + [c])[i] == SplitLines(s)[i] + [c]
    decreases |s|
  {
    if s != [] {
      var t := s + [c];
      assert t[0] == s[0];
      if IsBreak(s[0]) {
        if |s| == 1 {
          assert SplitLines(s) == [[]];
        } else {
          assert AfterBreak(t) == AfterBreak(s) + [c];
          SplitPush(AfterBreak(s), c);
        }
      } else if |s| == 1 {
        assert t[1..] == [c];
      } else {
        assert t[1..] == s[1..] + [c];
        SplitPush(s[1..], c);
      }
    }
  }

  lemma RStripHasLine(s: string, c: char, h: string)
    requires IsSpace(c) && HasLine(s, h)
    ensures HasLine(s + [c], h)
  {
    SplitPush(s, c);
    var i :| 0 <= i < |SplitLines(s)| && Strip(SplitLines(s)[i]) == h;
    StripSuffix(SplitLines(s)[i], c);
    assert Strip(SplitLines(s + [c])[i]) == h;
  }

  /** Stripping a text introduces no new line. */
  lemma {:induction false} StripHasLine(s: string, h: string)
    requires HasLine(Strip(s), h)
    ensures HasLine(s, h)
    decreases |s|
  {
    if s == [] {
    } else if IsSpace(s[0]) {
      StripHasLine(s[1..], h);
      LStripHasLine(s[0], s[1..], h);
      assert s == [s[0]] + s[1..];
    } else if IsSpace(s[|s| - 1]) {
      var t := s[..|s| - 1];
      assert s == t + [s[|s| - 1]];
      StripSuffix(t, s[|s| - 1]);
      StripHasLine(t, h);
      RStripHasLine(t, s[|s| - 1], h);
    } else {
      TrimmedStrips(s);
    }
  }
}
