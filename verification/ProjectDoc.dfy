/**
 * Project documents (ADR 0039): Markdown split on ATX headings into a preamble
 * and sections, and written back. The grammar stands on any heading recogniser
 * `hd` that reads written headings back; `ParseDoc` is it with HEADING_RE.
 */
module ProjectDoc {
  import opened Options
  import opened Text
  import opened Headings

  datatype Section = Section(level: nat, title: string, body: string)
  datatype Doc = Doc(preamble: string, sections: seq<Section>)
  type Recogniser = string -> Option<Heading>

  // ---- parsing -------------------------------------------------------------

  /** Where the line loop stands: preamble lines, finished sections, the open one. */
  datatype Parse = Parse(pre: seq<string>, done: seq<Section>, cur: Option<Section>)

  function Finalized(cur: Option<Section>): seq<Section> {
    if cur.None? then [] else [cur.value.(body := TrimNewlines(cur.value.body))]
  }

  /** A line into an open body: no newline is put before the first text of it. */
  function Appended(body: string, line: string): string {
    body + (if |body| > 0 then "\n" else "") + line
  }

  function Step(hd: Recogniser, p: Parse, line: string): Parse {
    match hd(line)
    case Some(h) => Parse(p.pre, p.done + Finalized(p.cur), Some(Section(h.level, h.title, "")))
    case None =>
      if p.cur.None? then p.(pre := p.pre + [line])
      else p.(cur := Some(p.cur.value.(body := Appended(p.cur.value.body, line))))
  }

  function Run(hd: Recogniser, p: Parse, lines: seq<string>): Parse
    decreases |lines|
  {
    if lines == [] then p else Run(hd, Step(hd, p, lines[0]), lines[1..])
  }

  const START := Parse([], [], None)

  function Finish(p: Parse): Doc {
    Doc(TrimNewlines(Join(p.pre, "\n")), p.done + Finalized(p.cur))
  }

  function ParseWith(hd: Recogniser, markdown: string): Doc { Finish(Run(hd, START, Split(Crlf(markdown), '\n'))) }

  /** `parseProjectDoc`. */
  function ParseDoc(markdown: string): Doc { ParseWith(HeadingOf, markdown) }

  lemma {:induction false} RunConcat(hd: Recogniser, p: Parse, a: seq<string>, b: seq<string>)
    ensures Run(hd, p, a + b) == Run(hd, Run(hd, p, a), b)
    decreases |a|
  {
    if a == [] {
      assert a + b == b;
    } else {
      assert (a + b)[1..] == a[1..] + b;
      RunConcat(hd, Step(hd, p, a[0]), a[1..], b);
    }
  }

  /** The loop over the lines. */
  method ParseProjectDoc(hd: Recogniser, markdown: string) returns (doc: Doc)
    ensures doc == ParseWith(hd, markdown)
  {
    var lines := Split(Crlf(markdown), '\n');
    var preambleLines: seq<string> := [];
    var sections: seq<Section> := [];
    var current: Option<Section> := None;
    for i := 0 to |lines|
      invariant Parse(preambleLines, sections, current) == Run(hd, START, lines[..i])
    {
      var line := lines[i];
      assert lines[..i + 1] == lines[..i] + [line];
      RunConcat(hd, START, lines[..i], [line]);
      var found := hd(line);
      if found.Some? {
        if current.Some? { sections := sections + [current.value.(body := TrimNewlines(current.value.body))]; }
        current := Some(Section(found.value.level, found.value.title, ""));
      } else if current.None? {
        preambleLines := preambleLines + [line];
      } else {
        current := Some(current.value.(body := current.value.body + (if |current.value.body| > 0 then "\n" else "") + line));
      }
    }
    assert lines[..|lines|] == lines;
    if current.Some? { sections := sections + [current.value.(body := TrimNewlines(current.value.body))]; }
    doc := Doc(TrimNewlines(Join(preambleLines, "\n")), sections);
  }

  // ---- printing ------------------------------------------------------------

  function SectionText(s: Section): string {
    if s.body == "" then HeadingLine(s.level, s.title) else HeadingLine(s.level, s.title) + "\n\n" + s.body
  }

  function SectionTexts(ss: seq<Section>): (r: seq<string>)
    ensures |r| == |ss|
  {
    if ss == [] then [] else [SectionText(ss[0])] + SectionTexts(ss[1..])
  }

  /** `serializeProjectDoc`. */
  function Serialize(d: Doc): string {
    Join((if d.preamble == "" then [] else [d.preamble]) + SectionTexts(d.sections), "\n\n")
  }

  // ---- documents that read back --------------------------------------------

  predicate NoHeadings(hd: Recogniser, body: string) {
    var lines := Split(body, '\n');
    forall i :: 0 <= i < |lines| ==> hd(lines[i]).None?
  }

  /** Text that can stand between headings: no outer newline, no heading line, no carriage return. */
  predicate BodyOk(hd: Recogniser, body: string) { NoOuterNewlines(body) && NoHeadings(hd, body) && '\r' !in body }

  predicate SectionOk(hd: Recogniser, s: Section) { 1 <= s.level <= 6 && TitleOk(s.title) && BodyOk(hd, s.body) }

  predicate DocOk(hd: Recogniser, d: Doc) {
    BodyOk(hd, d.preamble) && SectionsOk(hd, d.sections)
  }

  // ---- print, then parse ---------------------------------------------------

  /** A run of plain lines into an open section appends them. */
  function AppendedAll(body: string, lines: seq<string>): string
    decreases |lines|
  {
    if lines == [] then body else AppendedAll(Appended(body, lines[0]), lines[1..])
  }

  lemma {:induction false} RunPlainLines(hd: Recogniser, p: Parse, lines: seq<string>)
    requires p.cur.Some? && forall i :: 0 <= i < |lines| ==> hd(lines[i]).None?
    ensures Run(hd, p, lines) == p.(cur := Some(p.cur.value.(body := AppendedAll(p.cur.value.body, lines))))
    decreases |lines|
  {
    if lines != [] { RunPlainLines(hd, Step(hd, p, lines[0]), lines[1..]); }
  }

  lemma {:induction false} AppendedIsJoin(body: string, lines: seq<string>)
    requires body != "" && lines != []
    ensures AppendedAll(body, lines) == body + "\n" + Join(lines, "\n")
    decreases |lines|
  {
    var next := Appended(body, lines[0]);
    if |lines| == 1 {
      assert lines[1..] == [];
    } else {
      AppendedIsJoin(next, lines[1..]);
    }
  }

  /** The lines of a body without a leading newline, into an empty body, give the body. */
  lemma AppendedBody(body: string)
    requires body != "" && body[0] != '\n'
    ensures AppendedAll("", Split(body, '\n')) == body
  {
    var lines := Split(body, '\n');
    JoinSplit(body, '\n');
    assert lines[0] != "";
    assert Appended("", lines[0]) == lines[0];
    if |lines| > 1 { AppendedIsJoin(lines[0], lines[1..]); } else { assert lines[1..] == []; }
  }

  /** The lines of one section, read at any point, open that section with its body. */
  lemma RunSection(hd: Recogniser, p: Parse, s: Section)
    requires Recognises(hd) && SectionOk(hd, s)
    ensures Run(hd, p, Split(SectionText(s), '\n')) == Parse(p.pre, p.done + Finalized(p.cur), Some(s))
  {
    var head := HeadingLine(s.level, s.title);
    assert hd(head) == Some(Heading(s.level, s.title));
    assert '\n' !in head;
    SplitPlain(head, '\n');
    var begun := Parse(p.pre, p.done + Finalized(p.cur), Some(Section(s.level, s.title, "")));
    assert Run(hd, p, [head]) == begun by { assert [head][1..] == []; }
    if s.body != "" {
      var lines := Split(s.body, '\n');
      assert SectionText(s) == head + ['\n'] + (['\n'] + s.body);
      SplitAt(head, '\n', ['\n'] + s.body);
      SplitAt("", '\n', s.body);
      assert "" + ['\n'] + s.body == ['\n'] + s.body;
      RunConcat(hd, p, [head], [""] + lines);
      assert Run(hd, begun, [""] + lines) == Run(hd, begun, lines) by {
        assert ([""] + lines)[1..] == lines;
        assert Step(hd, begun, "") == begun;
      }
      RunPlainLines(hd, begun, lines);
      AppendedBody(s.body);
    }
  }

  lemma RunOne(hd: Recogniser, p: Parse, line: string)
    ensures Run(hd, p, [line]) == Step(hd, p, line)
  {
    assert [line][1..] == [];
  }

  lemma TrimsOneNewline(s: string)
    requires NoOuterNewlines(s) && s != ""
    ensures TrimNewlines(s + "\n") == s
  {
    assert DropFirst(s + "\n") == s + "\n";
    assert (s + "\n")[..|s|] == s;
    assert DropLast(s) == s;
  }

  /** An empty line after a section only adds a newline the next heading trims. */
  lemma SeparatorTrims(hd: Recogniser, p: Parse, s: Section)
    requires Recognises(hd) && SectionOk(hd, s) && p.cur == Some(s)
    ensures var q := Run(hd, p, [""]); q.pre == p.pre && q.done == p.done && Finalized(q.cur) == [s] && Finalized(p.cur) == [s]
  {
    RunOne(hd, p, "");
    if s.body != "" {
      assert Appended(s.body, "") == s.body + "\n";
      TrimsOneNewline(s.body);
    }
  }

  /** Reading a text, then an empty line, then another text. */
  lemma RunAcross(hd: Recogniser, p: Parse, a: string, b: string)
    ensures Run(hd, p, Split(a + "\n\n" + b, '\n')) == Run(hd, Run(hd, Run(hd, p, Split(a, '\n')), [""]), Split(b, '\n'))
  {
    SplitAcross(a, b);
    RunConcat(hd, p, Split(a, '\n'), [""] + Split(b, '\n'));
    RunConcat(hd, Run(hd, p, Split(a, '\n')), [""], Split(b, '\n'));
  }

  /** Reading a section and the text after it: r is where the parser stands in between. */
  lemma RunSectionThen(hd: Recogniser, p: Parse, s: Section, rest: string) returns (r: Parse)
    requires Recognises(hd) && SectionOk(hd, s)
    ensures r.pre == p.pre && r.done == p.done + Finalized(p.cur) && Finalized(r.cur) == [s]
    ensures Run(hd, p, Split(SectionText(s) + "\n\n" + rest, '\n')) == Run(hd, r, Split(rest, '\n'))
  {
    RunSection(hd, p, s);
    RunAcross(hd, p, SectionText(s), rest);
    var q := Run(hd, p, Split(SectionText(s), '\n'));
    SeparatorTrims(hd, q, s);
    r := Run(hd, q, [""]);
  }

  lemma FrontOfTail<T>(pre: seq<T>, ss: seq<T>)
    requires |ss| >= 2
    ensures pre + [ss[0]] + ss[1..][..|ss[1..]| - 1] == pre + ss[..|ss| - 1] && ss[1..][|ss[1..]| - 1] == ss[|ss| - 1]
  {
  }

  /** The document of a parser that stands in the last of these sections. */
  lemma FinishSections(hd: Recogniser, pre: seq<string>, ss: seq<Section>)
    requires ss != [] && SectionsOk(hd, ss)
    ensures Finish(Parse(pre, [] + Finalized(None) + ss[..|ss| - 1], Some(ss[|ss| - 1]))) == Doc(TrimNewlines(Join(pre, "\n")), ss)
  {
    assert SectionOk(hd, ss[|ss| - 1]);
    assert Finalized(Some(ss[|ss| - 1])) == [ss[|ss| - 1]];
    assert [] + Finalized(None) + ss[..|ss| - 1] + [ss[|ss| - 1]] == ss;
  }

  predicate SectionsOk(hd: Recogniser, ss: seq<Section>) { forall i :: 0 <= i < |ss| ==> SectionOk(hd, ss[i]) }

  lemma {:induction false} RunSections(hd: Recogniser, p: Parse, ss: seq<Section>)
    requires Recognises(hd) && ss != [] && SectionsOk(hd, ss)
    ensures Run(hd, p, Split(Join(SectionTexts(ss), "\n\n"), '\n')) ==
            Parse(p.pre, p.done + Finalized(p.cur) + ss[..|ss| - 1], Some(ss[|ss| - 1]))
    decreases |ss|
  {
    if |ss| == 1 {
      RunSection(hd, p, ss[0]);
      assert p.done + Finalized(p.cur) + ss[..0] == p.done + Finalized(p.cur);
    } else {
      var tail := ss[1..];
      assert SectionTexts(ss)[1..] == SectionTexts(tail);
      var r := RunSectionThen(hd, p, ss[0], Join(SectionTexts(tail), "\n\n"));
      RunSections(hd, r, tail);
      FrontOfTail(r.done, ss);
    }
  }

  lemma SplitAcross(a: string, b: string)
    ensures Split(a + "\n\n" + b, '\n') == Split(a, '\n') + ([""] + Split(b, '\n'))
  {
    assert a + "\n\n" + b == a + ['\n'] + (['\n'] + b);
    SplitAt(a, '\n', ['\n'] + b);
    SplitAt("", '\n', b);
    assert "" + ['\n'] + b == ['\n'] + b;
  }

  lemma {:induction false} RunPreamble(hd: Recogniser, pre: seq<string>, lines: seq<string>)
    requires forall i :: 0 <= i < |lines| ==> hd(lines[i]).None?
    ensures Run(hd, Parse(pre, [], None), lines) == Parse(pre + lines, [], None)
    decreases |lines|
  {
    if lines != [] {
      RunPreamble(hd, pre + [lines[0]], lines[1..]);
      assert pre + [lines[0]] + lines[1..] == pre + lines;
    } else {
      assert pre + lines == pre;
    }
  }

  lemma PrintThenParseWith(hd: Recogniser, d: Doc)
    requires Recognises(hd) && DocOk(hd, d)
    ensures ParseWith(hd, Serialize(d)) == d
  {
    SerializePlain(hd, d);
    CrlfPlain(Serialize(d));
    if d.preamble != "" {
      PreambleThenParse(hd, d);
    } else if d.sections == [] {
      assert Serialize(d) == "" && Split("", '\n') == [""];
      RunOne(hd, START, "");
      assert [] + [""] == [""];
      assert Finish(Parse([""], [], None)).sections == [];
    } else {
      assert [] + SectionTexts(d.sections) == SectionTexts(d.sections);
      RunSections(hd, START, d.sections);
      FinishSections(hd, [], d.sections);
    }
  }

  lemma PreambleThenParse(hd: Recogniser, d: Doc)
    requires Recognises(hd) && DocOk(hd, d) && d.preamble != "" && '\r' !in Serialize(d)
    ensures ParseWith(hd, Serialize(d)) == d
  {
    var ss, lines := d.sections, Split(d.preamble, '\n');
    CrlfPlain(Serialize(d));
    JoinSplit(d.preamble, '\n');
    if ss == [] {
      assert Serialize(d) == d.preamble;
      RunPreamble(hd, [], lines);
      assert [] + lines == lines;
      assert Finish(Parse(lines, [], None)) == d;
    } else {
      var rest := Join(SectionTexts(ss), "\n\n");
      assert ([d.preamble] + SectionTexts(ss))[1..] == SectionTexts(ss);
      PreambleAndRest(hd, d.preamble, rest);
      RunSections(hd, Parse(lines + [""], [], None), ss);
      FinishSections(hd, lines + [""], ss);
      JoinSnoc(lines, "", "\n");
      assert Join(lines + [""], "\n") == d.preamble + "\n";
      TrimsOneNewline(d.preamble);
    }
  }

  lemma PreambleAndRest(hd: Recogniser, pre: string, rest: string)
    requires Recognises(hd) && NoHeadings(hd, pre)
    ensures Run(hd, START, Split(pre + "\n\n" + rest, '\n')) == Run(hd, Parse(Split(pre, '\n') + [""], [], None), Split(rest, '\n'))
  {
    RunAcross(hd, START, pre, rest);
    RunPreamble(hd, [], Split(pre, '\n'));
    assert [] + Split(pre, '\n') == Split(pre, '\n');
    RunOne(hd, Parse(Split(pre, '\n'), [], None), "");
  }

  lemma {:induction false} JoinPlain(ls: seq<string>, sep: string, c: char)
    requires c !in sep && forall l :: l in ls ==> c !in l
    ensures c !in Join(ls, sep)
  {
    if |ls| > 1 { JoinPlain(ls[1..], sep, c); }
  }

  lemma {:induction false} TextsPlain(hd: Recogniser, ss: seq<Section>)
    requires Recognises(hd) && SectionsOk(hd, ss)
    ensures forall l :: l in SectionTexts(ss) ==> '\r' !in l
  {
    if ss != [] {
      assert SectionOk(hd, ss[0]);
      TextsPlain(hd, ss[1..]);
    }
  }

  lemma SerializePlain(hd: Recogniser, d: Doc)
    requires Recognises(hd) && DocOk(hd, d)
    ensures '\r' !in Serialize(d)
  {
    TextsPlain(hd, d.sections);
    JoinPlain((if d.preamble == "" then [] else [d.preamble]) + SectionTexts(d.sections), "\n\n", '\r');
  }

  // ---- parse, then print, then parse ---------------------------------------

  predicate PlainLines(hd: Recogniser, lines: seq<string>) {
    forall i :: 0 <= i < |lines| ==> hd(lines[i]).None? && '\n' !in lines[i] && '\r' !in lines[i]
  }

  /** The text read so far could stand in a well-formed document once trimmed. */
  predicate RawOk(hd: Recogniser, body: string) { NoHeadings(hd, body) && '\r' !in body }

  predicate ParseOk(hd: Recogniser, p: Parse) {
    && PlainLines(hd, p.pre)
    && (forall i :: 0 <= i < |p.done| ==> SectionOk(hd, p.done[i]))
    && (p.cur.Some? ==> 1 <= p.cur.value.level <= 6 && TitleOk(p.cur.value.title) && RawOk(hd, p.cur.value.body))
  }

  lemma {:induction false} DropFirstLines(hd: Recogniser, s: string)
    requires NoHeadings(hd, s)
    ensures NoHeadings(hd, DropFirst(s)) && forall c :: c in DropFirst(s) ==> c in s
  {
    if s != "" && s[0] == '\n' {
      assert Split(s, '\n') == [""] + Split(s[1..], '\n');
      forall i | 0 <= i < |Split(s[1..], '\n')| ensures hd(Split(s[1..], '\n')[i]).None? {
        assert Split(s, '\n')[i + 1] == Split(s[1..], '\n')[i];
      }
      DropFirstLines(hd, s[1..]);
    }
  }

  lemma {:induction false} DropLastLines(hd: Recogniser, s: string)
    requires NoHeadings(hd, s)
    ensures NoHeadings(hd, DropLast(s)) && forall c :: c in DropLast(s) ==> c in s
  {
    if s != "" && s[|s| - 1] == '\n' {
      var t := s[..|s| - 1];
      assert s == t + ['\n'] + "";
      SplitAt(t, '\n', "");
      forall i | 0 <= i < |Split(t, '\n')| ensures hd(Split(t, '\n')[i]).None? {
        assert Split(s, '\n')[i] == Split(t, '\n')[i];
      }
      DropLastLines(hd, t);
    }
  }

  lemma TrimmedOk(hd: Recogniser, s: string)
    requires RawOk(hd, s)
    ensures BodyOk(hd, TrimNewlines(s))
  {
    DropFirstLines(hd, s);
    DropLastLines(hd, DropFirst(s));
  }

  lemma AppendedOk(hd: Recogniser, body: string, line: string)
    requires RawOk(hd, body) && hd(line).None? && '\n' !in line && '\r' !in line
    ensures RawOk(hd, Appended(body, line))
  {
    SplitPlain(line, '\n');
    if body != "" {
      assert Appended(body, line) == body + ['\n'] + line;
      SplitAt(body, '\n', line);
    } else {
      assert Appended(body, line) == line;
    }
  }

  lemma {:induction false} RunOk(hd: Recogniser, p: Parse, lines: seq<string>)
    requires Recognises(hd) && ParseOk(hd, p) && forall i :: 0 <= i < |lines| ==> '\n' !in lines[i] && '\r' !in lines[i]
    ensures ParseOk(hd, Run(hd, p, lines))
    decreases |lines|
  {
    if lines != [] {
      var line := lines[0];
      if p.cur.Some? {
        TrimmedOk(hd, p.cur.value.body);
        if hd(line).None? { AppendedOk(hd, p.cur.value.body, line); }
      }
      if hd(line).Some? {
      }
      RunOk(hd, Step(hd, p, line), lines[1..]);
    }
  }

  lemma {:induction false} JoinOfPlainLines(hd: Recogniser, lines: seq<string>)
    requires Recognises(hd) && PlainLines(hd, lines)
    ensures RawOk(hd, Join(lines, "\n"))
  {
    if lines == [] {
    } else {
      SplitJoin(lines, '\n');
      JoinPlain(lines, "\n", '\r');
    }
  }

  lemma {:induction false} SplitMembers(s: string, c: char, x: char)
    requires x !in s
    ensures forall l :: l in Split(s, c) ==> x !in l
  {
    if s != "" { SplitMembers(s[1..], c, x); }
  }

  /** What parsing yields is always well-formed, for a text without carriage returns. */
  lemma ParsedIsOkWith(hd: Recogniser, markdown: string)
    requires Recognises(hd) && '\r' !in markdown
    ensures DocOk(hd, ParseWith(hd, markdown))
  {
    CrlfPlain(markdown);
    var lines := Split(markdown, '\n');
    SplitMembers(markdown, '\n', '\r');
    RunOk(hd, START, lines);
    var p := Run(hd, START, lines);
    JoinOfPlainLines(hd, p.pre);
    TrimmedOk(hd, Join(p.pre, "\n"));
    if p.cur.Some? { TrimmedOk(hd, p.cur.value.body); }
  }

  // ---- the grammar of project documents ------------------------------------

  /** Every well-formed document survives print-then-parse. */
  lemma PrintThenParse(d: Doc)
    requires DocOk(HeadingOf, d)
    ensures ParseDoc(Serialize(d)) == d
  {
    HeadingOfRecognises();
    PrintThenParseWith(HeadingOf, d);
  }

  /** Parsing a text without carriage returns gives a well-formed document, and printing that one parses to it again. */
  lemma ParsePrintParse(markdown: string)
    requires '\r' !in markdown
    ensures DocOk(HeadingOf, ParseDoc(markdown))
    ensures ParseDoc(Serialize(ParseDoc(markdown))) == ParseDoc(markdown)
  {
    HeadingOfRecognises();
    ParsedIsOkWith(HeadingOf, markdown);
    PrintThenParse(ParseDoc(markdown));
  }
}
