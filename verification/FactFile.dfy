/** The fact file: markdown with frontmatter that must re-hash to its own name. */
module FactFile {
  import opened Wrappers
  import opened Text

  type Glossary = map<string, string>

  /** The structured bibliography, by name. */
  type Refs = seq<Name>

  /** JSON, treated as an injective one-line codec. */
  datatype Codec = Codec(encode: Glossary -> string, decode: string -> Option<Glossary>,
                         encodeRefs: Refs -> string, decodeRefs: string -> Option<Refs>)

  predicate SingleLine(s: string) { forall i :: 0 <= i < |s| ==> !IsBreak(s[i]) }

  predicate OneWord(s: string) { SingleLine(s) && Trimmed(s) && s != [] }

  ghost predicate OneLineCodec(c: Codec) {
    && (forall g :: c.decode(c.encode(g)) == Some(g) && OneWord(c.encode(g)))
    && (forall r :: c.decodeRefs(c.encodeRefs(r)) == Some(r) && OneWord(c.encodeRefs(r)))
  }

  datatype Fact =
    Fact(id: string, problem: string, author: string, preds: seq<string>, statement: string, proof: string,
                       glossary: Glossary, intuition: string, identity: string, refs: Refs)

  /** Ids are built from letters, digits, dots, dashes and underscores. */
  predicate IsIdChar(c: char) {
    'a' <= c <= 'z' || 'A' <= c <= 'Z' || '0' <= c <= '9' || c == '.' || c == '_' || c == '-'
  }

  predicate IsId(s: string) { s != [] && forall i :: 0 <= i < |s| ==> IsIdChar(s[i]) }

  /** A full identity is a digest in lower-case hexadecimal. */
  predicate IsDigest(s: string) { |s| == 64 && forall i :: 0 <= i < |s| ==> '0' <= s[i] <= '9' || 'a' <= s[i] <= 'f' }

  function Lower(s: string): (r: string)
    ensures |r| == |s|
  {
    if s == [] then [] else [if 'A' <= s[0] <= 'Z' then (s[0] as int + 32) as char else s[0]] + Lower(s[1..])
  }

  function Heading(line: string): string { Lower(Strip(line)) }

  /** The same letter, the first of them possibly a capital. */
  ghost predicate SameLetter(x: char, y: char) { x == y || ('A' <= x <= 'Z' && x as int + 32 == y as int) }

  lemma {:induction false} LowerAt(s: string, k: nat)
    requires k < |s|
    ensures Lower(s)[k] == if 'A' <= s[k] <= 'Z' then (s[k] as int + 32) as char else s[k]
  {
    if k > 0 { LowerAt(s[1..], k - 1); }
  }

  /** A line is a heading exactly if it says so, in letters of either case, between whitespace. */
  lemma HeadingIgnoresCase(line: string, h: string)
    requires forall i :: 0 <= i < |h| ==> !('A' <= h[i] <= 'Z')
    ensures Heading(line) == h <==>
      |Strip(line)| == |h| && forall i :: 0 <= i < |h| ==> SameLetter(Strip(line)[i], h[i])
  {
    forall i | 0 <= i < |Strip(line)| && |Strip(line)| == |h|
      ensures Heading(line)[i] == h[i] <==> SameLetter(Strip(line)[i], h[i])
    {
      LowerAt(Strip(line), i);
    }
  }

  const STATEMENT := "## statement"
  const PROOF := "## proof"
  const INTUITION := "## intuition"
  const FENCE := "---"

  ghost predicate HasHeading(s: string, h: string) {
    exists i :: 0 <= i < |SplitLines(s)| && Heading(SplitLines(s)[i]) == h
  }

  /** What `add` checks before it writes a fact. */
  ghost predicate Accepted(f: Fact) {
    && IsId(f.id) && (forall i :: 0 <= i < |f.preds| ==> IsId(f.preds[i]))
    && f.problem != [] && Trimmed(f.problem) && SingleLine(f.problem) && SingleLine(f.author)
    && (f.identity == [] || IsDigest(f.identity))
    && !HasHeading(f.statement, PROOF) && !HasHeading(f.intuition, INTUITION)
  }

  // ---------------------------------------------------------------- printing

  function HasIntuition(f: Fact): bool { Strip(f.intuition) != [] }

  function Field(key: string, value: string): string { key + " " + value }

  function Header(f: Fact, c: Codec): seq<string> {
    [ Field("fact_id:", f.id),
      Field("problem_id:", f.problem),
      Field("author:", f.author),
      Field("predecessors:", "[" + Join(f.preds, ", ") + "]"),
      Field("has_intuition:", if HasIntuition(f) then "true" else "false"),
      Field("glossary_introduces:", c.encode(f.glossary)) ]
    + (if f.identity == [] then [] else [Field("fact_identity:", f.identity)])
    + [Field("external_refs:", c.encodeRefs(f.refs))]
  }

  function Section(heading: string, body: seq<string>): seq<string> { ["", heading] + body }

  /** The layout of a fact file, over the pieces that are joined and over the lines they become. */
  function Document(fence: string, head: seq<string>, statement: seq<string>, proof: seq<string>,
                    tail: seq<string>): seq<string> {
    [fence] + head + [fence] + statement + proof + tail
  }

  function Tail(f: Fact): seq<string> {
    if HasIntuition(f) then Section(INTUITION, [Strip(f.intuition)]) else []
  }

  function Parts(f: Fact, c: Codec): seq<string> {
    Document(FENCE, Header(f, c), Section(STATEMENT, [Strip(f.statement)]), Section(PROOF, [Strip(f.proof)]), Tail(f))
  }

  /** `serialize_fact`. */
  function Serialize(f: Fact, c: Codec): string { Join(Parts(f, c) + [""], "\n") }

  // ----------------------------------------------------------------- parsing

  datatype Front =
    Front(id: string, problem: string, preds: seq<string>, glossary: Glossary, identity: Option<string>, refs: Refs)

  const BLANK := Front("", "", [], map[], None, [])

  predicate StartsWith(s: string, prefix: string) { |prefix| <= |s| && s[..|prefix|] == prefix }

  function SplitOn(s: string, sep: char): (r: seq<string>)
    ensures r != []
  {
    if s == [] then [[]]
    else if s[0] == sep then [[]] + SplitOn(s[1..], sep)
    else [[s[0]] + SplitOn(s[1..], sep)[0]] + SplitOn(s[1..], sep)[1..]
  }

  /** Stripped entries, without the blank ones. */
  function Entries(parts: seq<string>): seq<string> {
    if parts == [] then [] else (if Strip(parts[0]) == [] then [] else [Strip(parts[0])]) + Entries(parts[1..])
  }

  function Value(line: string, key: string): string
    requires StartsWith(line, key)
  {
    Strip(line[|key|..])
  }

  /** The bracketed list of a `predecessors:` line, if it is one. */
  function PredecessorList(line: string): Option<seq<string>> {
    if StartsWith(Strip(line), "predecessors:") then Bracketed(Value(Strip(line), "predecessors:")) else None
  }

  function Bracketed(r: string): Option<seq<string>> {
    if |r| >= 2 && r[0] == '[' && r[|r| - 1] == ']' then Some(Entries(SplitOn(r[1..|r| - 1], ','))) else None
  }

  function ReadLine(st: Front, line: string, c: Codec): Front {
    if StartsWith(line, "fact_id:") then st.(id := Value(line, "fact_id:"))
    else if StartsWith(line, "problem_id:") then st.(problem := Value(line, "problem_id:"))
    else if PredecessorList(line).Some? then st.(preds := PredecessorList(line).value)
    else if StartsWith(Strip(line), "glossary_introduces:") then
      (match c.decode(Value(Strip(line), "glossary_introduces:"))
       case None => st
       case Some(g) => st.(glossary := g))
    else if StartsWith(Strip(line), "external_refs:") then
      st.(refs := c.decodeRefs(Value(Strip(line), "external_refs:")).GetOr([]))
    else if StartsWith(line, "fact_identity:") then st.(identity := Some(Value(line, "fact_identity:")))
    else st
  }

  function ReadLines(st: Front, lines: seq<string>, c: Codec): Front
    decreases |lines|
  {
    if lines == [] || Strip(lines[0]) == FENCE then st else ReadLines(ReadLine(st, lines[0], c), lines[1..], c)
  }

  function FrontOf(lines: seq<string>, c: Codec): Front {
    if lines == [] then BLANK
    else ReadLines(ReadLine(BLANK, lines[0], c), lines[1..], c)
  }

  /** `parse_frontmatter`, as the loop it is. */
  method ParseFrontmatter(text: string, c: Codec) returns (st: Front)
    ensures st == FrontOf(SplitLines(text), c)
  {
    st := BLANK;
    var lines := SplitLines(text);
    for i := 0 to |lines|
      invariant i == 0 ==> st == BLANK
      invariant i > 0 ==> FrontOf(lines, c) == ReadLines(st, lines[i..], c)
    {
      if i > 0 && Strip(lines[i]) == FENCE { return; }
      if i > 0 { assert lines[i..][1..] == lines[i + 1..]; }
      st := ReadLine(st, lines[i], c);
    }
  }

  // ------------------------------------------------- what a header line says

  ghost function IdIn(line: string): Option<string> {
    if StartsWith(line, "fact_id:") then Some(Strip(line[8..])) else None
  }

  ghost function ProblemIn(line: string): Option<string> {
    if StartsWith(line, "problem_id:") then Some(Strip(line[11..])) else None
  }

  ghost function IdentityIn(line: string): Option<string> {
    if StartsWith(line, "fact_identity:") then Some(Strip(line[14..])) else None
  }

  ghost function GlossaryIn(line: string, c: Codec): Option<Glossary> {
    if StartsWith(Strip(line), "glossary_introduces:") then c.decode(Strip(Strip(line)[20..])) else None
  }

  /** A bibliography that does not decode still counts, as an empty one. */
  ghost function RefsIn(line: string, c: Codec): Option<Refs> {
    if StartsWith(Strip(line), "external_refs:") then
      match c.decodeRefs(Strip(Strip(line)[14..])) { case None => Some([]) case Some(refs) => Some(refs) }
    else None
  }

  ghost predicate Silent<T>(read: string -> Option<T>, lines: seq<string>) {
    forall i :: 0 <= i < |lines| ==> read(lines[i]).None?
  }

  /** What the last of the lines that say something says. */
  ghost function Last<T>(read: string -> Option<T>, lines: seq<string>): (r: Option<T>)
    ensures r.None? <==> Silent(read, lines)
    ensures forall k :: 0 <= k < |lines| && read(lines[k]).Some? && Silent(read, lines[k + 1..]) ==> r == read(lines[k])
  {
    if lines == [] then None
    else
      var later := Last(read, lines[1..]);
      assert forall k :: 0 < k < |lines| ==> lines[k] == lines[1..][k - 1] && lines[k + 1..] == lines[1..][k..];
      if later.Some? then later else read(lines[0])
  }

  /** The lines before the first fence. */
  ghost function UpToFence(lines: seq<string>): seq<string> {
    if lines == [] || Strip(lines[0]) == FENCE then [] else [lines[0]] + UpToFence(lines[1..])
  }

  /** The first line, whatever it is, and those up to the next fence. */
  ghost function HeaderOf(lines: seq<string>): seq<string> {
    if lines == [] then [] else [lines[0]] + UpToFence(lines[1..])
  }

  /** The fields of `lines`, each read on its own, where `st` has those of an absent field. */
  ghost function Fields(st: Front, lines: seq<string>, c: Codec): Front {
    Front(Last(IdIn, lines).GetOr(st.id), Last(ProblemIn, lines).GetOr(st.problem),
          Last(PredecessorList, lines).GetOr(st.preds), Last(line => GlossaryIn(line, c), lines).GetOr(st.glossary),
          if Last(IdentityIn, lines).Some? then Last(IdentityIn, lines) else st.identity,
          Last(line => RefsIn(line, c), lines).GetOr(st.refs))
  }

  /** Stripping a line that starts with a letter leaves its start alone. */
  lemma {:induction false} RStripIsPrefix(s: string)
    ensures RStrip(s) <= s
    decreases |s|
  {
    if s != [] && IsSpace(s[|s| - 1]) { RStripIsPrefix(s[..|s| - 1]); }
  }

  lemma StripIsPrefix(line: string)
    requires line != [] && !IsSpace(line[0])
    ensures Strip(line) <= line
  {
    RStripIsPrefix(line);
  }

  /** A line that has one of the keys has no other. */
  lemma OneKey(line: string)
    ensures StartsWith(line, "fact_id:") ==>
      !StartsWith(line, "problem_id:") && !StartsWith(line, "fact_identity:") && !Indented(line)
    ensures StartsWith(line, "problem_id:") ==> !StartsWith(line, "fact_identity:") && !Indented(line)
    ensures StartsWith(line, "fact_identity:") ==> !Indented(line)
    ensures StartsWith(Strip(line), "predecessors:") ==>
      !StartsWith(Strip(line), "glossary_introduces:") && !StartsWith(Strip(line), "external_refs:")
    ensures StartsWith(Strip(line), "glossary_introduces:") ==> !StartsWith(Strip(line), "external_refs:")
  {
    var s := Strip(line);
    if line != [] && !IsSpace(line[0]) {
      StripIsPrefix(line);
      assert |s| > 2 ==> s[0] == line[0] && s[1] == line[1] && s[2] == line[2];
    }
    KeyAt(line, "fact_id:", 0); KeyAt(line, "fact_id:", 7);
    KeyAt(line, "problem_id:", 0); KeyAt(line, "problem_id:", 2);
    KeyAt(line, "fact_identity:", 0); KeyAt(line, "fact_identity:", 7);
    KeyAt(s, "predecessors:", 0); KeyAt(s, "predecessors:", 2);
    KeyAt(s, "glossary_introduces:", 0);
    KeyAt(s, "external_refs:", 0);
  }

  lemma KeyAt(s: string, key: string, k: nat)
    requires k < |key|
    ensures StartsWith(s, key) ==> s[k] == key[k]
  {
    if StartsWith(s, key) { assert s[k] == s[..|key|][k]; }
  }

  /** Keys that may stand after whitespace. */
  ghost predicate Indented(line: string) {
    || StartsWith(Strip(line), "predecessors:") || StartsWith(Strip(line), "glossary_introduces:")
    || StartsWith(Strip(line), "external_refs:")
  }

  lemma LastOfOne<T>(read: string -> Option<T>, line: string)
    ensures Last(read, [line]) == read(line)
  {
    assert [line][1..] == [];
  }

  /** One line sets at most one field. */
  lemma OneField(st: Front, line: string, c: Codec)
    ensures ReadLine(st, line, c) == Fields(st, [line], c)
  {
    OneKey(line);
    LastOfOne(IdIn, line);
    LastOfOne(ProblemIn, line);
    LastOfOne(PredecessorList, line);
    LastOfOne((l: string) => GlossaryIn(l, c), line);
    LastOfOne(IdentityIn, line);
    LastOfOne((l: string) => RefsIn(l, c), line);
  }

  lemma {:induction false} LastOfCons<T>(read: string -> Option<T>, line: string, lines: seq<string>)
    ensures Last(read, [line] + lines) == (if Last(read, lines).Some? then Last(read, lines) else Last(read, [line]))
  {
    assert ([line] + lines)[1..] == lines && [line][1..] == [];
  }

  lemma FieldsOfCons(st: Front, line: string, lines: seq<string>, c: Codec)
    ensures Fields(st, [line] + lines, c) == Fields(Fields(st, [line], c), lines, c)
  {
    LastOfCons(IdIn, line, lines);
    LastOfCons(ProblemIn, line, lines);
    LastOfCons(PredecessorList, line, lines);
    LastOfCons((l: string) => GlossaryIn(l, c), line, lines);
    LastOfCons(IdentityIn, line, lines);
    LastOfCons((l: string) => RefsIn(l, c), line, lines);
  }

  lemma {:induction false} FieldsUpToFence(st: Front, lines: seq<string>, c: Codec)
    ensures ReadLines(st, lines, c) == Fields(st, UpToFence(lines), c)
    decreases |lines|
  {
    if lines != [] && Strip(lines[0]) != FENCE {
      OneField(st, lines[0], c);
      FieldsUpToFence(ReadLine(st, lines[0], c), lines[1..], c);
      FieldsOfCons(st, lines[0], UpToFence(lines[1..]), c);
    }
  }

  /** Of each field the last occurrence in the header counts, independently of the others; what follows the closing
      fence never does. */
  lemma LastOccurrenceWins(lines: seq<string>, c: Codec)
    ensures FrontOf(lines, c) == Fields(BLANK, HeaderOf(lines), c)
  {
    if lines != [] {
      OneField(BLANK, lines[0], c);
      FieldsUpToFence(ReadLine(BLANK, lines[0], c), lines[1..], c);
      FieldsOfCons(BLANK, lines[0], UpToFence(lines[1..]), c);
    }
  }

  function AfterHeading(lines: seq<string>, h: string): seq<string> {
    if lines == [] then [] else if Heading(lines[0]) == h then lines[1..] else AfterHeading(lines[1..], h)
  }

  function UpTo(lines: seq<string>, h: string): seq<string> {
    if lines == [] || Heading(lines[0]) == h then [] else [lines[0]] + UpTo(lines[1..], h)
  }

  function StatementSpec(lines: seq<string>): string {
    Strip(Join(Entries(UpTo(AfterHeading(lines, STATEMENT), PROOF)), " "))
  }

  /** What the scan will have collected at the end, from its state before `rest`. */
  ghost function Collected(inside: bool, out: seq<string>, rest: seq<string>): seq<string> {
    if inside then out + Entries(UpTo(rest, PROOF)) else Entries(UpTo(AfterHeading(rest, STATEMENT), PROOF))
  }

  lemma CollectedStep(inside: bool, out: seq<string>, rest: seq<string>)
    requires rest != [] && (!inside ==> out == [])
    ensures !inside ==> Collected(inside, out, rest) == Collected(Heading(rest[0]) == STATEMENT, [], rest[1..])
    ensures inside && Heading(rest[0]) == PROOF ==> Collected(inside, out, rest) == out
    ensures inside && Heading(rest[0]) != PROOF ==>
      Collected(inside, out, rest) == Collected(true, if Strip(rest[0]) == [] then out else out + [Strip(rest[0])],
                                                rest[1..])
  {
    if inside && Heading(rest[0]) != PROOF {
      var more := UpTo(rest[1..], PROOF);
      assert ([rest[0]] + more)[1..] == more;
    }
  }

  /** `statement_of`. */
  method StatementOf(text: string) returns (r: string)
    ensures r == StatementSpec(SplitLines(text))
  {
    var lines := SplitLines(text);
    var out := CollectStatement(lines);
    r := Strip(Join(out, " "));
  }

  method CollectStatement(lines: seq<string>) returns (out: seq<string>)
    ensures out == Entries(UpTo(AfterHeading(lines, STATEMENT), PROOF))
  {
    out := [];
    var inside := false;
    for i := 0 to |lines|
      invariant !inside ==> out == []
      invariant Collected(false, [], lines) == Collected(inside, out, lines[i..])
    {
      assert lines[i..][1..] == lines[i + 1..];
      CollectedStep(inside, out, lines[i..]);
      if !inside {
        inside := Heading(lines[i]) == STATEMENT;
      } else {
        if Heading(lines[i]) == PROOF { return; }
        if Strip(lines[i]) != [] { out := out + [Strip(lines[i])]; }
      }
    }
  }

  // ----------------------------------------------------------------- proofs

  /** Whether the frontmatter announces an intuition section. */
  function Flag(lines: seq<string>): Option<bool> {
    if lines == [] || Strip(lines[0]) == FENCE then None
    else if StartsWith(lines[0], "has_intuition:") then Some(Lower(Value(lines[0], "has_intuition:")) == "true")
    else Flag(lines[1..])
  }

  function IntuitionFlag(lines: seq<string>): Option<bool> {
    if lines == [] then None
    else if StartsWith(lines[0], "has_intuition:") then Some(Lower(Value(lines[0], "has_intuition:")) == "true")
    else Flag(lines[1..])
  }

  /** Everything before the first, or the last, line with heading `h`; all of it if there is none. */
  function BeforeFirst(lines: seq<string>, h: string): seq<string> { UpTo(lines, h) }

  function LastIndex(lines: seq<string>, h: string): Option<nat> {
    if lines == [] then None
    else if Heading(lines[|lines| - 1]) == h then Some(|lines| - 1)
    else LastIndex(lines[..|lines| - 1], h)
  }

  lemma {:induction false} LastIndexIs(lines: seq<string>, h: string, k: int)
    requires -1 <= k < |lines| && (k >= 0 ==> Heading(lines[k]) == h)
    requires forall i :: k < i < |lines| ==> Heading(lines[i]) != h
    ensures LastIndex(lines, h) == if k < 0 then None else Some(k)
    decreases |lines|
  {
    if k < |lines| - 1 { LastIndexIs(lines[..|lines| - 1], h, k); }
  }

  lemma {:induction false} UpToIs(lines: seq<string>, h: string, k: nat)
    requires k <= |lines| && (k < |lines| ==> Heading(lines[k]) == h)
    requires forall i :: 0 <= i < k ==> Heading(lines[i]) != h
    ensures UpTo(lines, h) == lines[..k]
    decreases |lines|
  {
    if k > 0 {
      UpToIs(lines[1..], h, k - 1);
      assert lines[..k] == [lines[0]] + lines[1..][..k - 1];
    }
  }

  function BeforeLast(lines: seq<string>, h: string): seq<string> {
    match LastIndex(lines, h)
    case None => lines
    case Some(k) => assert k <= |lines| by { LastIndexInRange(lines, h); } lines[..k]
  }

  lemma {:induction false} LastIndexInRange(lines: seq<string>, h: string)
    ensures LastIndex(lines, h).Some? ==> LastIndex(lines, h).value < |lines|
    decreases |lines|
  {
    if lines != [] && Heading(lines[|lines| - 1]) != h { LastIndexInRange(lines[..|lines| - 1], h); }
  }

  function ProofSpec(lines: seq<string>): string {
    var out := AfterHeading(lines, PROOF);
    var kept :=
      match IntuitionFlag(lines)
      case Some(true) => BeforeLast(out, INTUITION)
      case None => BeforeFirst(out, INTUITION)
      case Some(false) => out;
    Strip(Join(kept, "\n"))
  }

  /** `_proof_of`. */
  method ProofOf(text: string) returns (r: string)
    ensures r == ProofSpec(SplitLines(text))
  {
    var lines := SplitLines(text);
    var flag := FindFlag(lines);
    var out := CollectAfter(lines, PROOF);
    var headings := HeadingIndices(out, INTUITION);
    if headings != [] && flag == Some(true) {
      LastIndexIs(out, INTUITION, headings[|headings| - 1]);
      out := out[..headings[|headings| - 1]];
    } else if headings != [] && flag == None {
      UpToIs(out, INTUITION, headings[0]);
      out := out[..headings[0]];
    } else if headings == [] {
      LastIndexIs(out, INTUITION, -1);
      UpToIs(out, INTUITION, |out|);
      assert out[..|out|] == out;
    }
    r := Strip(Join(out, "\n"));
  }

  /** Indices of all lines with heading `h`, in order. */
  method HeadingIndices(lines: seq<string>, h: string) returns (r: seq<nat>)
    ensures forall i :: 0 <= i < |r| ==> r[i] < |lines| && Heading(lines[r[i]]) == h
    ensures r == [] ==> forall i :: 0 <= i < |lines| ==> Heading(lines[i]) != h
    ensures r != [] ==> forall i :: 0 <= i < |lines| && (i < r[0] || r[|r| - 1] < i) ==> Heading(lines[i]) != h
  {
    r := [];
    for k := 0 to |lines|
      invariant forall i :: 0 <= i < |r| ==> r[i] < k && Heading(lines[r[i]]) == h
      invariant r == [] ==> forall i :: 0 <= i < k ==> Heading(lines[i]) != h
      invariant r != [] ==> forall i :: 0 <= i < k && (i < r[0] || r[|r| - 1] < i) ==> Heading(lines[i]) != h
    {
      if Heading(lines[k]) == h { r := r + [k]; }
    }
  }

  method FindFlag(lines: seq<string>) returns (flag: Option<bool>)
    ensures flag == IntuitionFlag(lines)
  {
    for i := 0 to |lines|
      invariant i > 0 ==> IntuitionFlag(lines) == Flag(lines[i..])
    {
      if i > 0 && Strip(lines[i]) == FENCE { return None; }
      if StartsWith(lines[i], "has_intuition:") { return Some(Lower(Value(lines[i], "has_intuition:")) == "true"); }
      if i > 0 { assert lines[i..][1..] == lines[i + 1..]; }
    }
    return None;
  }

  method CollectAfter(lines: seq<string>, h: string) returns (out: seq<string>)
    ensures out == AfterHeading(lines, h)
  {
    out := [];
    var inside := false;
    for i := 0 to |lines|
      invariant !inside ==> out == [] && AfterHeading(lines, h) == AfterHeading(lines[i..], h)
      invariant inside ==> AfterHeading(lines, h) == out + lines[i..]
    {
      assert lines[i..] == [lines[i]] + lines[i + 1..];
      if !inside { inside := Heading(lines[i]) == h; }
      else { out := out + [lines[i]]; }
    }
  }
}
