/** Printing a fact and reading it back: the stored text re-hashes to its own name. */
module FactRoundTrip {
  import opened Wrappers
  import opened Text
  import opened FactFile

  // ------------------------------------------------- the lines of a printed fact

  lemma {:induction false} JoinIsUnlines(parts: seq<string>)
    ensures Join(parts + [""], "\n") == Unlines(parts)
  {
    if parts != [] {
      JoinIsUnlines(parts[1..]);
      assert (parts + [""])[1..] == parts[1..] + [""];
    }
  }

  lemma {:induction false} AllLinesConcat(a: seq<string>, b: seq<string>)
    ensures AllLines(a + b) == AllLines(a) + AllLines(b)
  {
    if a == [] {
      assert a + b == b;
    } else {
      assert (a + b)[1..] == a[1..] + b;
      AllLinesConcat(a[1..], b);
    }
  }

  lemma {:induction false} SingleLines(parts: seq<string>)
    requires forall i :: 0 <= i < |parts| ==> SingleLine(parts[i])
    ensures AllLines(parts) == parts
  {
    if parts != [] {
      OneLine(parts[0]);
      SingleLines(parts[1..]);
    }
  }

  lemma {:induction false} JoinSingleLine(parts: seq<string>)
    requires forall i :: 0 <= i < |parts| ==> IsId(parts[i])
    ensures SingleLine(Join(parts, ", "))
  {
    if |parts| > 1 { JoinSingleLine(parts[1..]); }
  }

  function FirstHalf(f: Fact): seq<string> {
    [ Field("fact_id:", f.id),
      Field("problem_id:", f.problem),
      Field("author:", f.author),
      Field("predecessors:", "[" + Join(f.preds, ", ") + "]"),
      Field("has_intuition:", if HasIntuition(f) then "true" else "false") ]
  }

  function SecondHalf(f: Fact, c: Codec): seq<string> {
    [Field("glossary_introduces:", c.encode(f.glossary))]
    + (if f.identity == [] then [] else [Field("fact_identity:", f.identity)])
    + [Field("external_refs:", c.encodeRefs(f.refs))]
  }

  lemma HeaderSplit(f: Fact, c: Codec)
    ensures Header(f, c) == FirstHalf(f) + SecondHalf(f, c)
  {}

  /** A header line: on one line, starting with a letter. */
  predicate Plain(line: string) { SingleLine(line) && line != [] && 'a' <= line[0] <= 'z' }

  lemma FieldIsPlain(key: string, value: string)
    requires Plain(key) && SingleLine(value)
    ensures Plain(Field(key, value)) && Field(key, value)[0] == key[0]
  {}

  predicate AllPlain(lines: seq<string>) { forall i :: 0 <= i < |lines| ==> Plain(lines[i]) }

  lemma FirstIsPlain(f: Fact)
    requires Accepted(f)
    ensures AllPlain(FirstHalf(f)) && forall i :: 0 <= i < 4 ==> FirstHalf(f)[i][0] != 'h'
  {
    FieldIsPlain("fact_id:", f.id);
    FieldIsPlain("problem_id:", f.problem);
    FieldIsPlain("author:", f.author);
    JoinSingleLine(f.preds);
    FieldIsPlain("predecessors:", "[" + Join(f.preds, ", ") + "]");
    FieldIsPlain("has_intuition:", if HasIntuition(f) then "true" else "false");
  }

  lemma SecondIsPlain(f: Fact, c: Codec)
    requires Accepted(f) && OneLineCodec(c)
    ensures AllPlain(SecondHalf(f, c))
  {
    assert SingleLine(c.encode(f.glossary));
    FieldIsPlain("glossary_introduces:", c.encode(f.glossary));
    FieldIsPlain("fact_identity:", f.identity);
    assert SingleLine(c.encodeRefs(f.refs));
    FieldIsPlain("external_refs:", c.encodeRefs(f.refs));
  }

  lemma HeaderIsPlain(f: Fact, c: Codec)
    requires Accepted(f) && OneLineCodec(c)
    ensures AllPlain(Header(f, c))
  {
    FirstIsPlain(f);
    SecondIsPlain(f, c);
    HeaderSplit(f, c);
  }

  function TailLines(f: Fact): seq<string> {
    if HasIntuition(f) then Section(INTUITION, LinesOf(Strip(f.intuition))) else []
  }

  function Lines(f: Fact, c: Codec): seq<string> {
    Document(FENCE, Header(f, c), Section(STATEMENT, LinesOf(Strip(f.statement))),
             Section(PROOF, LinesOf(Strip(f.proof))), TailLines(f))
  }

  lemma SectionLines(h: string, body: string)
    requires SingleLine(h)
    ensures AllLines(Section(h, [body])) == Section(h, LinesOf(body))
  {
    AllLinesConcat(["", h], [body]);
    SingleLines(["", h]);
    assert AllLines([body]) == LinesOf(body) + AllLines([body][1..]);
  }

  lemma DocumentLines(fence: string, head: seq<string>, s: seq<string>, p: seq<string>, t: seq<string>)
    requires SingleLine(fence) && AllLines(head) == head
    ensures AllLines(Document(fence, head, s, p, t)) == Document(fence, head, AllLines(s), AllLines(p), AllLines(t))
  {
    SingleLines([fence]);
    AllLinesConcat([fence], head);
    AllLinesConcat([fence] + head, [fence]);
    AllLinesConcat([fence] + head + [fence], s);
    AllLinesConcat([fence] + head + [fence] + s, p);
    AllLinesConcat([fence] + head + [fence] + s + p, t);
  }

  predicate Visible(parts: seq<string>) { forall i :: 0 <= i < |parts| ==> EndsVisibly(parts[i]) }

  lemma SectionIsVisible(h: string, body: string)
    requires SingleLine(h)
    ensures Visible(Section(h, [Strip(body)]))
  {
    StripIsTrimmed(body);
  }

  lemma DocumentIsVisible(fence: string, head: seq<string>, s: seq<string>, p: seq<string>, t: seq<string>)
    requires SingleLine(fence) && Visible(head) && Visible(s) && Visible(p) && Visible(t)
    ensures Visible(Document(fence, head, s, p, t))
  {
    assert Visible([fence] + head + [fence]);
    assert Visible([fence] + head + [fence] + s);
    assert Visible([fence] + head + [fence] + s + p);
  }

  lemma PartsAreVisible(f: Fact, c: Codec)
    requires Accepted(f) && OneLineCodec(c)
    ensures Visible(Parts(f, c))
  {
    HeaderIsPlain(f, c);
    SectionIsVisible(STATEMENT, f.statement);
    SectionIsVisible(PROOF, f.proof);
    SectionIsVisible(INTUITION, f.intuition);
    DocumentIsVisible(FENCE, Header(f, c), Section(STATEMENT, [Strip(f.statement)]), Section(PROOF, [Strip(f.proof)]),
                      Tail(f));
  }

  /** The printed text splits back into exactly the lines that were put in. */
  lemma PrintedLines(f: Fact, c: Codec)
    requires Accepted(f) && OneLineCodec(c)
    ensures SplitLines(Serialize(f, c)) == Lines(f, c)
  {
    JoinIsUnlines(Parts(f, c));
    PartsAreVisible(f, c);
    SplitUnlines(Parts(f, c));
    PartsLines(f, c);
  }

  lemma PartsLines(f: Fact, c: Codec)
    requires Accepted(f) && OneLineCodec(c)
    ensures AllLines(Parts(f, c)) == Lines(f, c)
  {
    HeaderIsPlain(f, c);
    TailIsLines(f);
    FenceHeading();
    StatementHeading();
    ProofHeading();
    TextsBecomeLines(FENCE, Header(f, c), STATEMENT, Strip(f.statement), PROOF, Strip(f.proof), Tail(f));
  }

  lemma TailIsLines(f: Fact)
    ensures AllLines(Tail(f)) == TailLines(f)
  {
    if HasIntuition(f) {
      IntuitionHeading();
      SectionLines(INTUITION, Strip(f.intuition));
    }
  }

  lemma TextsBecomeLines(fence: string, head: seq<string>, st: string, s: string, pr: string, p: string, t: seq<string>)
    requires SingleLine(fence) && AllPlain(head) && SingleLine(st) && SingleLine(pr)
    ensures AllLines(Document(fence, head, Section(st, [s]), Section(pr, [p]), t))
         == Document(fence, head, Section(st, LinesOf(s)), Section(pr, LinesOf(p)), AllLines(t))
  {
    SingleLines(head);
    SectionLines(st, s);
    SectionLines(pr, p);
    DocumentLines(fence, head, Section(st, [s]), Section(pr, [p]), t);
  }

  // --------------------------------------------------------- reading the header

  /** What reading the printed frontmatter must give. */
  function FrontFor(f: Fact): Front {
    Front(f.id, f.problem, f.preds, f.glossary, if f.identity == [] then None else Some(f.identity), f.refs)
  }

  lemma FieldValue(key: string, value: string)
    requires Trimmed(value)
    ensures StartsWith(Field(key, value), key)
    ensures Value(Field(key, value), key) == value
  {
    assert Field(key, value)[..|key|] == key;
    assert Field(key, value)[|key|..] == [' '] + value;
    StripPrefix(' ', value);
    TrimmedStrips(value);
  }

  lemma FieldStrips(key: string, value: string)
    requires Plain(key) && Trimmed(value) && value != []
    ensures Strip(Field(key, value)) == Field(key, value)
  {
    TrimmedStrips(Field(key, value));
  }

  lemma {:induction false} SplitOnConcat(s: string, rest: string)
    requires forall i :: 0 <= i < |s| ==> s[i] != ','
    ensures SplitOn(s + [','] + rest, ',') == [s] + SplitOn(rest, ',')
  {
    var full := s + [','] + rest;
    if s == [] {
      assert full[1..] == rest;
    } else {
      assert full[0] == s[0] && full[1..] == s[1..] + [','] + rest;
      SplitOnConcat(s[1..], rest);
      assert [s[0]] + s[1..] == s;
    }
  }

  lemma {:induction false} SplitOnNone(s: string)
    requires forall i :: 0 <= i < |s| ==> s[i] != ','
    ensures SplitOn(s, ',') == [s]
  {
    if s != [] {
      SplitOnNone(s[1..]);
      assert [s[0]] + s[1..] == s;
    }
  }

  /** A comma-joined list of ids, after at most one blank, splits back into the ids. */
  lemma {:induction false} EntriesOfJoin(ids: seq<string>, gap: string)
    requires ids != [] && forall i :: 0 <= i < |ids| ==> IsId(ids[i])
    requires gap == [] || gap == [' ']
    ensures Entries(SplitOn(gap + Join(ids, ", "), ',')) == ids
    decreases |ids|
  {
    var first := gap + ids[0];
    StripEntry(gap, ids[0]);
    if |ids| == 1 {
      SplitOnNone(first);
      assert Entries([first]) == [ids[0]] + Entries([first][1..]);
    } else {
      var rest := Join(ids[1..], ", ");
      assert gap + Join(ids, ", ") == first + [','] + ([' '] + rest);
      SplitOnConcat(first, [' '] + rest);
      EntriesOfJoin(ids[1..], [' ']);
      assert ([first] + SplitOn([' '] + rest, ','))[1..] == SplitOn([' '] + rest, ',');
    }
  }

  lemma StripEntry(gap: string, id: string)
    requires IsId(id) && (gap == [] || gap == [' '])
    ensures Strip(gap + id) == id
    ensures forall i :: 0 <= i < |gap + id| ==> (gap + id)[i] != ','
  {
    if gap == [] { assert gap + id == id; } else { StripPrefix(' ', id); }
    TrimmedStrips(id);
  }

  lemma BracketedIds(ids: seq<string>)
    requires forall i :: 0 <= i < |ids| ==> IsId(ids[i])
    ensures Bracketed("[" + Join(ids, ", ") + "]") == Some(ids)
  {
    var j := Join(ids, ", ");
    var r := "[" + j + "]";
    assert r[1..|r| - 1] == j;
    if ids == [] {
      assert Entries([""]) == [] + Entries([""][1..]);
    } else {
      EntriesOfJoin(ids, []);
      assert [] + j == j;
    }
  }

  lemma Differs(line: string, p: string, k: nat)
    requires k < |p| && (k < |line| ==> p[k] != line[k])
    ensures !StartsWith(line, p)
  {
    assert |p| <= |line| ==> line[..|p|][k] == line[k];
  }

  lemma OtherFirst(line: string, p: string)
    requires line != [] && p != [] && !IsSpace(line[0]) && p[0] != line[0]
    ensures !StartsWith(line, p) && !StartsWith(Strip(line), p)
  {
    StripKeepsFirst(line);
    Differs(line, p, 0);
    Differs(Strip(line), p, 0);
  }

  /** A line of another field is skipped. */
  lemma Skipped(st: Front, line: string, c: Codec)
    requires line != [] && !IsSpace(line[0]) && line[0] != 'f' && line[0] != 'p' && line[0] != 'g' && line[0] != 'e'
    ensures ReadLine(st, line, c) == st
  {
    OtherFirst(line, "fact_id:");
    OtherFirst(line, "problem_id:");
    OtherFirst(line, "predecessors:");
    OtherFirst(line, "glossary_introduces:");
    OtherFirst(line, "external_refs:");
    OtherFirst(line, "fact_identity:");
  }

  lemma ReadsId(st: Front, id: string, c: Codec)
    requires Trimmed(id)
    ensures ReadLine(st, Field("fact_id:", id), c) == st.(id := id)
  {
    FieldValue("fact_id:", id);
  }

  lemma ReadsProblem(st: Front, p: string, c: Codec)
    requires Trimmed(p)
    ensures ReadLine(st, Field("problem_id:", p), c) == st.(problem := p)
  {
    FieldValue("problem_id:", p);
    OtherFirst(Field("problem_id:", p), "fact_id:");
  }

  lemma ReadsPreds(st: Front, ids: seq<string>, c: Codec)
    requires forall i :: 0 <= i < |ids| ==> IsId(ids[i])
    ensures ReadLine(st, Field("predecessors:", "[" + Join(ids, ", ") + "]"), c) == st.(preds := ids)
  {
    var value := "[" + Join(ids, ", ") + "]";
    ReadsList(st, "predecessors:", value, c);
    BracketedIds(ids);
  }

  lemma ReadsList(st: Front, key: string, value: string, c: Codec)
    requires key == "predecessors:" && Trimmed(value) && value != [] && Bracketed(value).Some?
    ensures ReadLine(st, Field(key, value), c) == st.(preds := Bracketed(value).value)
  {
    var line := Field(key, value);
    FieldValue(key, value);
    FieldStrips(key, value);
    OtherFirst(line, "fact_id:");
    assert key[2] == 'e';
    Differs(line, "problem_id:", 2);
  }

  lemma ReadsGlossary(st: Front, g: Glossary, c: Codec)
    requires OneLineCodec(c)
    ensures ReadLine(st, Field("glossary_introduces:", c.encode(g)), c) == st.(glossary := g)
  {
    var line := Field("glossary_introduces:", c.encode(g));
    FieldValue("glossary_introduces:", c.encode(g));
    FieldStrips("glossary_introduces:", c.encode(g));
    OtherFirst(line, "fact_id:");
    OtherFirst(line, "problem_id:");
    OtherFirst(line, "predecessors:");
  }

  lemma ReadsRefs(st: Front, refs: Refs, c: Codec)
    requires OneLineCodec(c)
    ensures ReadLine(st, Field("external_refs:", c.encodeRefs(refs)), c) == st.(refs := refs)
  {
    var line := Field("external_refs:", c.encodeRefs(refs));
    FieldValue("external_refs:", c.encodeRefs(refs));
    FieldStrips("external_refs:", c.encodeRefs(refs));
    OtherFirst(line, "fact_id:");
    OtherFirst(line, "problem_id:");
    OtherFirst(line, "predecessors:");
    OtherFirst(line, "glossary_introduces:");
  }

  lemma ReadsIdentity(st: Front, d: string, c: Codec)
    requires Trimmed(d)
    ensures ReadLine(st, Field("fact_identity:", d), c) == st.(identity := Some(d))
  {
    var line := Field("fact_identity:", d);
    FieldValue("fact_identity:", d);
    Differs(line, "fact_id:", 7);
    OtherFirst(line, "problem_id:");
    OtherFirst(line, "predecessors:");
    OtherFirst(line, "glossary_introduces:");
    OtherFirst(line, "external_refs:");
  }

  /** Reading all of `lines`, without looking for the closing fence. */
  function ReadAll(st: Front, lines: seq<string>, c: Codec): Front
    decreases |lines|
  {
    if lines == [] then st else ReadAll(ReadLine(st, lines[0], c), lines[1..], c)
  }

  lemma {:induction false} ReadAllConcat(st: Front, a: seq<string>, b: seq<string>, c: Codec)
    ensures ReadAll(st, a + b, c) == ReadAll(ReadAll(st, a, c), b, c)
    decreases |a|
  {
    if a == [] {
      assert a + b == b;
    } else {
      assert (a + b)[1..] == a[1..] + b;
      ReadAllConcat(ReadLine(st, a[0], c), a[1..], b, c);
    }
  }

  lemma PlainIsNoFence(line: string, h: string)
    requires Plain(line) && h != [] && h[0] < 'a'
    ensures Strip(line) != h && Strip(line) != [] && Heading(line) != h
  {
    StripKeepsFirst(line);
    assert Lower(Strip(line))[0] == line[0];
  }

  lemma {:induction false} ReadsToFence(st: Front, lines: seq<string>, fence: string, rest: seq<string>, c: Codec)
    requires fence == FENCE && AllPlain(lines)
    ensures ReadLines(st, lines + [fence] + rest, c) == ReadAll(st, lines, c)
    decreases |lines|
  {
    var all := lines + [fence] + rest;
    if lines == [] {
      assert all[0] == fence;
      TrimmedStrips(fence);
    } else {
      PlainIsNoFence(lines[0], fence);
      assert all[0] == lines[0] && all[1..] == lines[1..] + [fence] + rest;
      ReadsToFence(ReadLine(st, lines[0], c), lines[1..], fence, rest, c);
    }
  }

  lemma ReadOne(st: Front, a: string, rest: seq<string>, c: Codec)
    ensures ReadAll(st, [a] + rest, c) == ReadAll(ReadLine(st, a, c), rest, c)
  {
    assert ([a] + rest)[1..] == rest;
  }

  lemma ReadFive(st: Front, a: string, b: string, d: string, e: string, g: string, rest: seq<string>, c: Codec)
    ensures ReadAll(st, [a, b, d, e, g] + rest, c)
         == ReadAll(ReadLine(ReadLine(ReadLine(ReadLine(ReadLine(st, a, c), b, c), d, c), e, c), g, c), rest, c)
  {
    var s1 := ReadLine(st, a, c);
    var s2 := ReadLine(s1, b, c);
    var s3 := ReadLine(s2, d, c);
    ReadOne(st, a, [b, d, e, g] + rest, c);
    ReadOne(s1, b, [d, e, g] + rest, c);
    ReadOne(s2, d, [e, g] + rest, c);
    ReadOne(s3, e, [g] + rest, c);
    ReadOne(ReadLine(s3, e, c), g, rest, c);
    assert [a, b, d, e, g] + rest == [a] + ([b, d, e, g] + rest);
    assert [b, d, e, g] + rest == [b] + ([d, e, g] + rest);
    assert [d, e, g] + rest == [d] + ([e, g] + rest);
    assert [e, g] + rest == [e] + ([g] + rest);
  }

  lemma IdIsTrimmed(s: string)
    requires s == [] || IsId(s) || IsDigest(s)
    ensures Trimmed(s)
  {}

  lemma ReadsFirstHalf(st: Front, f: Fact, c: Codec)
    requires Accepted(f)
    ensures ReadAll(st, Header(f, c), c) == ReadAll(st.(id := f.id, problem := f.problem, preds := f.preds),
                                                    SecondHalf(f, c), c)
  {
    var s1 := st.(id := f.id);
    var s2 := s1.(problem := f.problem);
    var s3 := s2.(preds := f.preds);
    var author := Field("author:", f.author);
    var flag := Field("has_intuition:", if HasIntuition(f) then "true" else "false");
    IdIsTrimmed(f.id);
    ReadsId(st, f.id, c);
    ReadsProblem(s1, f.problem, c);
    Skipped(s2, author, c);
    ReadsPreds(s2, f.preds, c);
    Skipped(s3, flag, c);
    HeaderSplit(f, c);
    ReadFive(st, Field("fact_id:", f.id), Field("problem_id:", f.problem), author,
             Field("predecessors:", "[" + Join(f.preds, ", ") + "]"), flag, SecondHalf(f, c), c);
  }

  lemma ReadsSecondHalf(st: Front, f: Fact, c: Codec)
    requires Accepted(f) && OneLineCodec(c) && st.identity == None
    ensures ReadAll(st, SecondHalf(f, c), c)
         == st.(glossary := f.glossary, identity := if f.identity == [] then None else Some(f.identity), refs := f.refs)
  {
    var refs := Field("external_refs:", c.encodeRefs(f.refs));
    var g := Field("glossary_introduces:", c.encode(f.glossary));
    var s1 := st.(glossary := f.glossary);
    ReadsGlossary(st, f.glossary, c);
    if f.identity == [] {
      assert SecondHalf(f, c) == [g] + ([refs] + []);
      ReadOne(st, g, [refs] + [], c);
      ReadsRefs(s1, f.refs, c);
      ReadOne(s1, refs, [], c);
    } else {
      var d := Field("fact_identity:", f.identity);
      assert SecondHalf(f, c) == [g] + ([d] + ([refs] + []));
      ReadOne(st, g, [d] + ([refs] + []), c);
      IdIsTrimmed(f.identity);
      ReadsIdentity(s1, f.identity, c);
      ReadOne(s1, d, [refs] + [], c);
      var s2 := s1.(identity := Some(f.identity));
      ReadsRefs(s2, f.refs, c);
      ReadOne(s2, refs, [], c);
    }
  }

  /** The frontmatter of a printed fact reads back as the fact's own fields, whatever the body holds. */
  lemma FrontRoundTrip(f: Fact, c: Codec)
    requires Accepted(f) && OneLineCodec(c)
    ensures FrontOf(Lines(f, c), c) == FrontFor(f)
  {
    var blank := BLANK;
    HeaderIsPlain(f, c);
    FrontOfDocument(blank, FENCE, Header(f, c), Section(STATEMENT, LinesOf(Strip(f.statement))),
                    Section(PROOF, LinesOf(Strip(f.proof))), TailLines(f), c);
    ReadsFirstHalf(blank, f, c);
    ReadsSecondHalf(blank.(id := f.id, problem := f.problem, preds := f.preds), f, c);
  }

  lemma FrontOfDocument(blank: Front, fence: string, head: seq<string>, s: seq<string>, p: seq<string>, t: seq<string>,
                        c: Codec)
    requires fence == FENCE && blank == BLANK
    requires AllPlain(head)
    ensures FrontOf(Document(fence, head, s, p, t), c) == ReadAll(blank, head, c)
  {
    var lines := Document(fence, head, s, p, t);
    assert lines[0] == fence && lines[1..] == head + [fence] + (s + p + t);
    Skipped(blank, fence, c);
    ReadsToFence(blank, head, fence, s + p + t, c);
  }

  // ------------------------------------------------ statement and proof sections

  predicate Lacks(lines: seq<string>, h: string) { forall i :: 0 <= i < |lines| ==> Heading(lines[i]) != h }

  lemma {:induction false} AfterHeadingIs(before: seq<string>, h: string, rest: seq<string>)
    requires Lacks(before, h) && Heading(h) == h
    ensures AfterHeading(before + [h] + rest, h) == rest
  {
    var all := before + [h] + rest;
    if before == [] {
      assert all[1..] == rest;
    } else {
      assert all[0] == before[0] && all[1..] == before[1..] + [h] + rest;
      AfterHeadingIs(before[1..], h, rest);
    }
  }

  /** Stripping a text introduces no heading. */
  lemma StripHasHeading(s: string, h: string)
    requires HasHeading(Strip(s), h)
    ensures HasHeading(s, h)
  {
    var i :| 0 <= i < |SplitLines(Strip(s))| && Heading(SplitLines(Strip(s))[i]) == h;
    var spelled := Strip(SplitLines(Strip(s))[i]);
    assert HasLine(Strip(s), spelled);
    StripHasLine(s, spelled);
    var k :| 0 <= k < |SplitLines(s)| && Strip(SplitLines(s)[k]) == spelled;
    assert Heading(SplitLines(s)[k]) == h;
  }

  lemma NoHeadingInside(s: string, h: string)
    requires !HasHeading(s, h) && h != []
    ensures Lacks(LinesOf(Strip(s)), h)
  {
    if HasHeading(Strip(s), h) { StripHasHeading(s, h); }
  }

  predicate HeadingChar(c: char) { c == '#' || c == ' ' || c == '-' || 'a' <= c <= 'z' }

  lemma FixedHeading(h: string)
    requires h != [] && Trimmed(h) && forall i :: 0 <= i < |h| ==> HeadingChar(h[i])
    ensures Heading(h) == h && SingleLine(h)
  {
    TrimmedStrips(h);
    LowerFixes(h);
  }

  lemma {:induction false} LowerFixes(s: string)
    requires forall i :: 0 <= i < |s| ==> !('A' <= s[i] <= 'Z')
    ensures Lower(s) == s
  {
    if s != [] { LowerFixes(s[1..]); }
  }

  lemma {:induction false} FlatWordsOfEntries(lines: seq<string>)
    ensures FlatWords(Entries(lines)) == FlatWords(lines)
  {
    if lines != [] {
      FlatWordsOfEntries(lines[1..]);
      WordsOfStrip(lines[0]);
      var head := if Strip(lines[0]) == [] then [] else [Strip(lines[0])];
      FlatWordsConcat(head, Entries(lines[1..]));
      if head != [] { assert FlatWords(head) == Words(lines[0]) + FlatWords(head[1..]); }
    }
  }

  lemma SameWordsNormalize(a: string, b: string)
    requires Words(a) == Words(b)
    ensures Normalize(a) == Normalize(b)
  {
    NormalizeIsWords(a);
    NormalizeIsWords(b);
  }

  lemma WordsOfLinesOf(s: string)
    ensures FlatWords(LinesOf(Strip(s))) == Words(s)
  {
    WordsOfStrip(s);
    WordsOfLines(Strip(s));
    if Strip(s) == [] { assert FlatWords([[]]) == Words([]) + FlatWords([[]][1..]); }
  }

  lemma BlankAddsNothing(lines: seq<string>)
    ensures FlatWords(lines + [""]) == FlatWords(lines)
  {
    FlatWordsConcat(lines, [""]);
    assert FlatWords([""]) == Words("") + FlatWords([""][1..]);
  }

  predicate IsHeading(h: string) { h != [] && h[0] == '#' && SingleLine(h) && Heading(h) == h }

  lemma HeadLacks(fence: string, head: seq<string>, h: string)
    requires IsHeading(h) && Heading(fence) != h && AllPlain(head)
    ensures Lacks([fence] + head + [fence] + [""], h)
  {
    var all := [fence] + head + [fence] + [""];
    assert Heading("") == "";
    forall i | 0 <= i < |all| ensures Heading(all[i]) != h {
      if 1 <= i <= |head| { assert all[i] == head[i - 1]; PlainIsNoFence(all[i], h); }
    }
  }

  /** The lines between the two headings are the statement's. */
  lemma StatementInDocument(fence: string, head: seq<string>, st: string, s: seq<string>, pr: string, p: seq<string>,
                            t: seq<string>)
    requires IsHeading(st) && IsHeading(pr) && Heading(fence) != st && AllPlain(head)
    requires Lacks(s, pr)
    ensures UpTo(AfterHeading(Document(fence, head, Section(st, s), Section(pr, p), t), st), pr) == s + [""]
  {
    var before, rest := [fence] + head + [fence] + [""], s + [""] + [pr] + (p + t);
    HeadLacks(fence, head, st);
    assert Document(fence, head, Section(st, s), Section(pr, p), t) == before + [st] + rest;
    AfterHeadingIs(before, st, rest);
    var k := |s| + 1;
    assert Heading("") == "" && rest[|s|] == "" && rest[k] == pr;
    assert forall i :: 0 <= i < |s| ==> rest[i] == s[i];
    UpToIs(rest, pr, k);
    assert rest[..k] == s + [""];
  }

  /** Everything after the first proof heading is the proof and what follows it. */
  lemma ProofInDocument(fence: string, head: seq<string>, st: string, s: seq<string>, pr: string, p: seq<string>,
                        t: seq<string>)
    requires IsHeading(st) && IsHeading(pr) && st != pr && Heading(fence) != pr && AllPlain(head)
    requires Lacks(s, pr)
    ensures AfterHeading(Document(fence, head, Section(st, s), Section(pr, p), t), pr) == p + t
  {
    var before := [fence] + head + [fence] + [""];
    var more := before + ([st] + s + [""]);
    HeadLacks(fence, head, pr);
    assert Heading("") == "";
    assert Lacks([st] + s + [""], pr);
    assert Document(fence, head, Section(st, s), Section(pr, p), t) == more + [pr] + (p + t);
    AfterHeadingIs(more, pr, p + t);
  }

  lemma FenceHeading()
    ensures Heading(FENCE) == FENCE && SingleLine(FENCE)
  {
    FixedHeading(FENCE);
  }

  lemma StatementHeading()
    ensures IsHeading(STATEMENT)
  {
    FixedHeading(STATEMENT);
  }

  lemma ProofHeading()
    ensures IsHeading(PROOF)
  {
    FixedHeading(PROOF);
  }

  lemma IntuitionHeading()
    ensures IsHeading(INTUITION)
  {
    FixedHeading(INTUITION);
  }

  lemma HeadingsDiffer()
    ensures STATEMENT != PROOF && FENCE != STATEMENT && FENCE != PROOF
  {
    assert STATEMENT[3] == 's' && PROOF[3] == 'p' && FENCE[0] == '-' && PROOF[0] == '#' && STATEMENT[0] == '#';
  }

  lemma StatementLines(f: Fact, c: Codec)
    requires Accepted(f) && OneLineCodec(c)
    ensures UpTo(AfterHeading(Lines(f, c), STATEMENT), PROOF) == LinesOf(Strip(f.statement)) + [""]
  {
    FenceHeading();
    StatementHeading();
    ProofHeading();
    HeadingsDiffer();
    HeaderIsPlain(f, c);
    NoHeadingInside(f.statement, PROOF);
    StatementInDocument(FENCE, Header(f, c), STATEMENT, LinesOf(Strip(f.statement)), PROOF, LinesOf(Strip(f.proof)),
                        TailLines(f));
  }

  lemma StatementRoundTrip(f: Fact, c: Codec)
    requires Accepted(f) && OneLineCodec(c)
    ensures Normalize(StatementSpec(Lines(f, c))) == Normalize(f.statement)
  {
    var inner := LinesOf(Strip(f.statement)) + [""];
    StatementLines(f, c);
    WordsOfStrip(Join(Entries(inner), " "));
    WordsOfJoin(Entries(inner), ' ');
    FlatWordsOfEntries(inner);
    BlankAddsNothing(LinesOf(Strip(f.statement)));
    WordsOfLinesOf(f.statement);
    SameWordsNormalize(StatementSpec(Lines(f, c)), f.statement);
  }

  lemma AfterProof(f: Fact, c: Codec)
    requires Accepted(f) && OneLineCodec(c)
    ensures AfterHeading(Lines(f, c), PROOF) == LinesOf(Strip(f.proof)) + TailLines(f)
  {
    FenceHeading();
    StatementHeading();
    ProofHeading();
    HeadingsDiffer();
    HeaderIsPlain(f, c);
    NoHeadingInside(f.statement, PROOF);
    ProofInDocument(FENCE, Header(f, c), STATEMENT, LinesOf(Strip(f.statement)), PROOF, LinesOf(Strip(f.proof)),
                    TailLines(f));
  }

  lemma {:induction false} FlagAt(lines: seq<string>, k: nat)
    requires k < |lines| && StartsWith(lines[k], "has_intuition:")
    requires forall i :: 0 <= i < k ==> Plain(lines[i]) && lines[i][0] != 'h'
    requires Plain(lines[k])
    ensures Flag(lines) == Some(Lower(Value(lines[k], "has_intuition:")) == "true")
    decreases k
  {
    PlainIsNoFence(lines[0], FENCE);
    if k > 0 {
      OtherFirst(lines[0], "has_intuition:");
      FlagAt(lines[1..], k - 1);
    }
  }

  /** The printed flag tells whether an intuition section follows the proof. */
  lemma FlagRoundTrip(f: Fact, c: Codec)
    requires Accepted(f) && OneLineCodec(c)
    ensures IntuitionFlag(Lines(f, c)) == Some(HasIntuition(f))
  {
    var value := if HasIntuition(f) then "true" else "false";
    HeaderIsPlain(f, c);
    HeaderSplit(f, c);
    FirstIsPlain(f);
    FieldValue("has_intuition:", value);
    FlagInDocument(FENCE, Header(f, c), Section(STATEMENT, LinesOf(Strip(f.statement))),
                   Section(PROOF, LinesOf(Strip(f.proof))), TailLines(f));
    LowerFixes(value);
  }

  lemma FlagInDocument(fence: string, head: seq<string>, s: seq<string>, p: seq<string>, t: seq<string>)
    requires fence == FENCE && |head| > 4 && StartsWith(head[4], "has_intuition:")
    requires AllPlain(head) && forall i :: 0 <= i < 4 ==> head[i] != [] && head[i][0] != 'h'
    ensures IntuitionFlag(Document(fence, head, s, p, t)) == Some(Lower(Value(head[4], "has_intuition:")) == "true")
  {
    var lines := Document(fence, head, s, p, t);
    assert lines[0] == fence && lines[1..] == head + ([fence] + s + p + t);
    OtherFirst(fence, "has_intuition:");
    FlagAt(head + ([fence] + s + p + t), 4);
  }

  /** Only the last heading ends the proof, so it may hold such headings itself. */
  lemma BeforeTail(p: seq<string>, h: string, rest: seq<string>)
    requires Heading(h) == h && Lacks(rest, h)
    ensures BeforeLast(p + Section(h, rest), h) == p + [""]
  {
    BeforeLastHeading(p + [""], h, rest);
    assert p + Section(h, rest) == (p + [""]) + ([h] + rest);
  }

  lemma BeforeLastHeading(before: seq<string>, h: string, rest: seq<string>)
    requires Heading(h) == h && Lacks(rest, h)
    ensures BeforeLast(before + ([h] + rest), h) == before
  {
    var out, k := before + ([h] + rest), |before|;
    assert out[k] == h;
    forall i | k < i < |out| ensures Heading(out[i]) != h { assert out[i] == rest[i - k - 1]; }
    LastIndexIs(out, h, k);
    assert out[..k] == before;
  }

  lemma ProofLines(f: Fact, c: Codec)
    requires Accepted(f) && OneLineCodec(c)
    ensures ProofSpec(Lines(f, c))
         == Strip(Join(if HasIntuition(f) then LinesOf(Strip(f.proof)) + [""] else LinesOf(Strip(f.proof)), "\n"))
  {
    var proof := LinesOf(Strip(f.proof));
    AfterProof(f, c);
    FlagRoundTrip(f, c);
    if HasIntuition(f) {
      IntuitionHeading();
      NoHeadingInside(f.intuition, INTUITION);
      BeforeTail(proof, INTUITION, LinesOf(Strip(f.intuition)));
    } else {
      assert proof + [] == proof;
    }
  }

  lemma ProofRoundTrip(f: Fact, c: Codec)
    requires Accepted(f) && OneLineCodec(c)
    ensures Normalize(ProofSpec(Lines(f, c))) == Normalize(f.proof)
  {
    var proof := LinesOf(Strip(f.proof));
    var kept := if HasIntuition(f) then proof + [""] else proof;
    ProofLines(f, c);
    WordsOfStrip(Join(kept, "\n"));
    WordsOfJoin(kept, '\n');
    BlankAddsNothing(proof);
    WordsOfLinesOf(f.proof);
    SameWordsNormalize(ProofSpec(Lines(f, c)), f.proof);
  }

  // ------------------------------------------------------------ the content id

  /** What `compute_fact_id` hashes; the predecessors are sorted first, so only their multiset matters. */
  datatype Content =
    Content(problem: string, preds: multiset<string>, glossary: Glossary, statement: string, proof: string)

  function ContentOf(problem: string, preds: seq<string>, glossary: Glossary, statement: string,
                     proof: string): Content {
    Content(problem, multiset(preds), glossary, Normalize(statement), Normalize(proof))
  }

  /** Every accepted fact, printed, reads back as itself: same frontmatter, same hashed content. */
  lemma RoundTrip(f: Fact, c: Codec)
    requires Accepted(f) && OneLineCodec(c)
    ensures var lines := SplitLines(Serialize(f, c));
      && FrontOf(lines, c) == FrontFor(f)
      && Normalize(StatementSpec(lines)) == Normalize(f.statement)
      && Normalize(ProofSpec(lines)) == Normalize(f.proof)
  {
    PrintedLines(f, c);
    FrontRoundTrip(f, c);
    StatementRoundTrip(f, c);
    ProofRoundTrip(f, c);
  }

  /** `_validate_fact_integrity` of an active content-addressed file, with `hash` for the digest; `revoked` tells
      whether the revoked store holds the id too. */
  method ValidateIntegrity(id: string, text: string, c: Codec, hash: Content -> string, revoked: bool)
    returns (ok: bool)
    ensures ok <==>
      var lines := SplitLines(text);
      var front := FrontOf(lines, c);
      && !revoked && front.id == id && front.problem != [] && (front.identity.Some? ==> IsDigest(front.identity.value))
      && hash(ContentOf(front.problem, front.preds, front.glossary, StatementSpec(lines), ProofSpec(lines))) == id
  {
    var front := ParseFrontmatter(text, c);
    if revoked || front.id != id || front.problem == [] { return false; }
    if front.identity.Some? && !IsDigest(front.identity.value) { return false; }
    var statement := StatementOf(text);
    var proof := ProofOf(text);
    return hash(ContentOf(front.problem, front.preds, front.glossary, statement, proof)) == id;
  }

  /** Write, then read: what `add` prints under its content id always validates under that id and no other. */
  method WriteThenValidate(f: Fact, name: string, c: Codec, hash: Content -> string) returns (ok: bool)
    requires Accepted(f) && OneLineCodec(c)
    requires f.id == hash(ContentOf(f.problem, f.preds, f.glossary, f.statement, f.proof))
    ensures ok <==> name == f.id
  {
    RoundTrip(f, c);
    ok := ValidateIntegrity(name, Serialize(f, c), c, hash, false);
  }

  /** Printing is injective up to what is hashed. */
  lemma SameTextSameContent(f: Fact, g: Fact, c: Codec)
    requires Accepted(f) && Accepted(g) && OneLineCodec(c) && Serialize(f, c) == Serialize(g, c)
    ensures f.id == g.id && f.identity == g.identity
    ensures ContentOf(f.problem, f.preds, f.glossary, f.statement, f.proof)
         == ContentOf(g.problem, g.preds, g.glossary, g.statement, g.proof)
  {
    RoundTrip(f, c);
    RoundTrip(g, c);
  }
}
