/** ATX heading lines as the project documents recognise and write them. */
module Headings {
  import opened Options
  import opened Text

  // ---- heading lines -------------------------------------------------------

  /** How many of the first characters of s are c, at most `most`. */
  function CountLeading(s: string, c: char, most: nat): (n: nat)
    ensures n <= |s| && n <= most
    ensures forall i :: 0 <= i < n ==> s[i] == c
    ensures n < most && n < |s| ==> s[n] != c
  {
    if most == 0 || s == "" || s[0] != c then 0 else 1 + CountLeading(s[1..], c, most - 1)
  }

  function DropBlanks(s: string): (r: string)
    ensures |r| <= |s| && r == s[|s| - |r|..]
    ensures r != "" ==> !IsBlank(r[0])
  {
    if s != "" && IsBlank(s[0]) then DropBlanks(s[1..]) else s
  }

  function DropLastBlanks(s: string): (r: string)
    ensures |r| <= |s| && r == s[..|r|]
    ensures r != "" ==> !IsBlank(r[|r| - 1])
    ensures s != "" && !IsBlank(s[0]) ==> r != ""
  {
    if s != "" && IsBlank(s[|s| - 1]) then DropLastBlanks(s[..|s| - 1]) else s
  }

  predicate NoTerminator(s: string) { forall i :: 0 <= i < |s| ==> !IsTerminator(s[i]) }

  datatype Heading = Heading(level: nat, title: string)

  /** HEADING_RE: up to 3 spaces, 1 to 6 hashes, blanks, a title from its first non-space on, blanks. */
  function HeadingOf(line: string): (h: Option<Heading>) {
    var rest := line[CountLeading(line, ' ', 3)..];
    var level := CountLeading(rest, '#', 6);
    var after := rest[level..];
    var text := DropLastBlanks(DropBlanks(after));
    if level >= 1 && after != "" && IsBlank(after[0]) && text != "" && !IsSpace(text[0]) && NoTerminator(text)
    then Some(Heading(level, Trim(text))) else None
  }

  predicate TitleOk(t: string) {
    t != "" && !IsSpace(t[0]) && !IsSpace(t[|t| - 1]) && NoTerminator(t)
  }

  function Hashes(n: nat): (s: string)
    ensures |s| == n && forall i :: 0 <= i < n ==> s[i] == '#'
  {
    if n == 0 then "" else "#" + Hashes(n - 1)
  }

  function HeadingLine(level: nat, title: string): string { Hashes(level) + " " + title }

  lemma {:induction false} TrimRightKeepsFront(s: string)
    requires s != "" && !IsSpace(s[0])
    ensures TrimRight(s) != "" && TrimRight(s)[0] == s[0]
  {
    if IsSpace(s[|s| - 1]) { TrimRightKeepsFront(s[..|s| - 1]); }
  }

  lemma HeadingTitleOk(line: string)
    requires HeadingOf(line).Some?
    ensures 1 <= HeadingOf(line).value.level <= 6 && TitleOk(HeadingOf(line).value.title)
  {
    var rest := line[CountLeading(line, ' ', 3)..];
    var after := rest[CountLeading(rest, '#', 6)..];
    var text := DropLastBlanks(DropBlanks(after));
    assert TrimLeft(text) == text;
    TrimRightKeepsFront(text);
  }

  /** A written heading reads back. */
  lemma HeadingReadsBack(level: nat, title: string)
    requires 1 <= level <= 6 && TitleOk(title)
    ensures HeadingOf(HeadingLine(level, title)) == Some(Heading(level, title))
  {
    var line := HeadingLine(level, title);
    assert line == line[..0] + Hashes(level) + " " + title + "";
    MatchedIsHeading(line, 0, level, " ", title, "");
  }

  /** A heading recogniser the document grammar can stand on. */
  ghost predicate Recognises(hd: string -> Option<Heading>) {
    && hd("").None?
    && (forall level, title :: 1 <= level <= 6 && TitleOk(title) ==> hd(HeadingLine(level, title)) == Some(Heading(level, title)))
    && (forall line :: hd(line).Some? ==> 1 <= hd(line).value.level <= 6 && TitleOk(hd(line).value.title))
  }

  /** HEADING_RE is one. */
  lemma HeadingOfRecognises()
    ensures Recognises(HeadingOf)
  {
    forall level, title | 1 <= level <= 6 && TitleOk(title) ensures HeadingOf(HeadingLine(level, title)) == Some(Heading(level, title)) {
      HeadingReadsBack(level, title);
    }
    forall line | HeadingOf(line).Some? ensures 1 <= HeadingOf(line).value.level <= 6 && TitleOk(HeadingOf(line).value.title) {
      HeadingTitleOk(line);
    }
  }

  // ---- exactly the lines of the pattern ------------------------------------

  predicate AllBlank(s: string) { forall i :: 0 <= i < |s| ==> IsBlank(s[i]) }

  /** HEADING_RE on this line, with what its parts match. */
  predicate Matches(line: string, indent: nat, level: nat, gap: string, text: string, tail: string) {
    && indent <= |line| && line == line[..indent] + Hashes(level) + gap + text + tail
    && indent <= 3 && (forall i :: 0 <= i < indent ==> line[i] == ' ')
    && 1 <= level <= 6 && gap != "" && AllBlank(gap) && AllBlank(tail)
    && text != "" && !IsSpace(text[0]) && !IsBlank(text[|text| - 1]) && NoTerminator(text)
  }

  lemma {:induction false} DropBlanksOver(gap: string, rest: string)
    requires AllBlank(gap) && (rest != "" ==> !IsBlank(rest[0]))
    ensures DropBlanks(gap + rest) == rest
  {
    if gap == "" {
      assert gap + rest == rest;
    } else {
      assert (gap + rest)[1..] == gap[1..] + rest;
      DropBlanksOver(gap[1..], rest);
    }
  }

  lemma {:induction false} DropLastBlanksOver(text: string, tail: string)
    requires AllBlank(tail) && (text != "" ==> !IsBlank(text[|text| - 1]))
    ensures DropLastBlanks(text + tail) == text
    decreases |tail|
  {
    if tail == "" {
      assert text + tail == text;
    } else {
      var m := |tail| - 1;
      assert (text + tail)[..|text + tail| - 1] == text + tail[..m];
      DropLastBlanksOver(text, tail[..m]);
    }
  }

  lemma {:induction false} DroppedAreBlank(s: string)
    ensures AllBlank(s[..|s| - |DropBlanks(s)|])
  {
    if s != "" && IsBlank(s[0]) {
      DroppedAreBlank(s[1..]);
      var k := |s[1..]| - |DropBlanks(s[1..])|;
      assert s[..k + 1] == [s[0]] + s[1..][..k];
    }
  }

  lemma {:induction false} DroppedLastAreBlank(s: string)
    ensures AllBlank(s[|DropLastBlanks(s)|..])
    decreases |s|
  {
    if s != "" && IsBlank(s[|s| - 1]) {
      DroppedLastAreBlank(s[..|s| - 1]);
      var k := |DropLastBlanks(s[..|s| - 1])|;
      assert s[k..] == s[..|s| - 1][k..] + [s[|s| - 1]];
    }
  }

  /** A line of the pattern is recognised, with the number of its hashes and its trimmed text. */
  lemma MatchedIsHeading(line: string, indent: nat, level: nat, gap: string, text: string, tail: string)
    requires Matches(line, indent, level, gap, text, tail)
    ensures HeadingOf(line) == Some(Heading(level, Trim(text)))
  {
    var n := CountLeading(line, ' ', 3);
    assert line[indent] == '#';
    assert n == indent;
    var rest := line[indent..];
    assert rest == Hashes(level) + (gap + (text + tail));
    assert rest[level] == gap[0];
    assert CountLeading(rest, '#', 6) == level;
    var after := rest[level..];
    assert after == gap + (text + tail);
    assert (text + tail)[0] == text[0];
    DropBlanksOver(gap, text + tail);
    DropLastBlanksOver(text, tail);
  }

  lemma LeadingHashes(rest: string)
    ensures rest[..CountLeading(rest, '#', 6)] == Hashes(CountLeading(rest, '#', 6))
  {
  }

  lemma PutTogether(line: string, indent: nat, hashes: string, gap: string, text: string, tail: string, after: string)
    requires indent <= |line| && line[indent..] == hashes + after && after == gap + (text + tail)
    ensures line == line[..indent] + hashes + gap + text + tail
  {
    assert line == line[..indent] + line[indent..];
    assert line[..indent] + hashes + gap + text + tail == line[..indent] + (hashes + (gap + (text + tail)));
  }

  lemma GapOf(after: string) returns (gap: string)
    ensures after == gap + DropBlanks(after) && AllBlank(gap)
    ensures after != "" && IsBlank(after[0]) ==> gap != ""
  {
    var k := |after| - |DropBlanks(after)|;
    gap := after[..k];
    DroppedAreBlank(after);
    assert after == after[..k] + after[k..];
  }

  lemma TailOf(body: string) returns (tail: string)
    ensures body == DropLastBlanks(body) + tail && AllBlank(tail)
  {
    var k := |DropLastBlanks(body)|;
    tail := body[k..];
    DroppedLastAreBlank(body);
    assert body == body[..k] + body[k..];
  }

  /** What a recognised line is made of, as the recogniser takes it apart. */
  lemma HeadingParts(line: string) returns (indent: nat, level: nat, after: string)
    requires HeadingOf(line).Some?
    ensures indent == CountLeading(line, ' ', 3) && level == CountLeading(line[indent..], '#', 6) && after == line[indent..][level..]
    ensures level >= 1 && after != "" && IsBlank(after[0])
    ensures var text := DropLastBlanks(DropBlanks(after));
      text != "" && !IsSpace(text[0]) && NoTerminator(text) && HeadingOf(line).value == Heading(level, Trim(text))
  {
    indent := CountLeading(line, ' ', 3);
    level := CountLeading(line[indent..], '#', 6);
    after := line[indent..][level..];
  }

  lemma HashesThen(line: string, indent: nat, level: nat, after: string)
    requires indent <= |line| && level == CountLeading(line[indent..], '#', 6) && after == line[indent..][level..]
    ensures line[indent..] == Hashes(level) + after
  {
    var rest := line[indent..];
    LeadingHashes(rest);
    assert rest == rest[..level] + rest[level..];
  }

  /** A recognised line is one of the pattern. */
  lemma HeadingMatches(line: string) returns (indent: nat, level: nat, gap: string, text: string, tail: string)
    requires HeadingOf(line).Some?
    ensures Matches(line, indent, level, gap, text, tail) && HeadingOf(line).value == Heading(level, Trim(text))
  {
    var after;
    indent, level, after := HeadingParts(line);
    gap := GapOf(after);
    tail := TailOf(DropBlanks(after));
    text := DropLastBlanks(DropBlanks(after));
    HashesThen(line, indent, level, after);
    PutTogether(line, indent, Hashes(level), gap, text, tail, after);
    PartsMatch(line, indent, level, gap, text, tail);
  }

  lemma PartsMatch(line: string, indent: nat, level: nat, gap: string, text: string, tail: string)
    requires indent == CountLeading(line, ' ', 3) && line == line[..indent] + Hashes(level) + gap + text + tail
    requires 1 <= level <= 6 && gap != "" && AllBlank(gap) && AllBlank(tail)
    requires text != "" && !IsSpace(text[0]) && !IsBlank(text[|text| - 1]) && NoTerminator(text)
    ensures Matches(line, indent, level, gap, text, tail)
  {
  }

  /** HEADING_RE in both directions. */
  lemma HeadingIff(line: string, h: Heading)
    ensures HeadingOf(line) == Some(h) <==>
      exists indent: nat, gap: string, text: string, tail: string :: Matches(line, indent, h.level, gap, text, tail) && h.title == Trim(text)
  {
    if HeadingOf(line) == Some(h) {
      var indent, level, gap, text, tail := HeadingMatches(line);
      assert Matches(line, indent, h.level, gap, text, tail);
    }
    if indent: nat, gap: string, text: string, tail: string :| Matches(line, indent, h.level, gap, text, tail) && h.title == Trim(text) {
      MatchedIsHeading(line, indent, h.level, gap, text, tail);
    }
  }
}
