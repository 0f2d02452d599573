/**
 * The rule hosted text must meet, and what it is for: an update whose texts
 * meet it leaves a document that reads back after it is printed.
 */
module ProjectTextRule {
  import opened Options
  import opened Text
  import opened Headings
  import opened ProjectDoc
  import opened ProjectMerge

  /** A line that starts as a heading: up to 3 spaces, 1 to 6 hashes, blanks, a non-space. */
  predicate Opens(line: string) {
    OpensHashes(line[CountLeading(line, ' ', 3)..])
  }

  predicate OpensHashes(rest: string) {
    var level := CountLeading(rest, '#', 6);
    level >= 1 && OpensAfter(rest[level..])
  }

  predicate OpensAfter(after: string) {
    var text := DropBlanks(after);
    after != "" && IsBlank(after[0]) && text != "" && !IsSpace(text[0])
  }

  type Opener = string -> bool

  /** No line of these opens a heading. */
  predicate Quiet(opens: Opener, lines: seq<string>) { forall i :: 0 <= i < |lines| ==> !opens(lines[i]) }

  /** `projectTextError` finds neither a carriage return nor a heading line. */
  predicate TextOk(text: string) { '\r' !in text && Quiet(Opens, Split(text, '\n')) }

  /** Nor in any line but the first. */
  predicate TailOk(opens: Opener, text: string) { '\r' !in text && Quiet(opens, Split(text, '\n')[1..]) }

  /** A line that opens a heading still does when it goes on. */
  ghost predicate Lasting(opens: Opener) { forall s: string, x: char :: opens(s) ==> opens(s + [x]) }

  lemma DropLastBlanksKeepsFront(s: string)
    requires s != "" && !IsBlank(s[0])
    ensures DropLastBlanks(s) != "" && DropLastBlanks(s)[0] == s[0]
  {
  }

  /** What the rule's pattern matches at the start of a line: up to 3 spaces, 1 to 6 hashes, blanks, and a non-space. */
  predicate OpensWith(line: string, indent: nat, level: nat, gap: string, rest: string) {
    && indent <= |line| && line == line[..indent] + Hashes(level) + gap + rest
    && indent <= 3 && (forall i :: 0 <= i < indent ==> line[i] == ' ')
    && 1 <= level <= 6 && gap != "" && AllBlank(gap) && rest != "" && !IsSpace(rest[0])
  }

  lemma OpensWithOpens(line: string, indent: nat, level: nat, gap: string, rest: string)
    requires OpensWith(line, indent, level, gap, rest)
    ensures Opens(line)
  {
    assert line[indent] == '#';
    assert CountLeading(line, ' ', 3) == indent;
    var from := line[indent..];
    assert from == Hashes(level) + (gap + rest);
    assert from[level] == gap[0];
    assert CountLeading(from, '#', 6) == level;
    assert from[level..] == gap + rest;
    DropBlanksOver(gap, rest);
  }

  lemma OpeningIs(line: string) returns (indent: nat, level: nat, after: string)
    requires Opens(line)
    ensures indent == CountLeading(line, ' ', 3) && level == CountLeading(line[indent..], '#', 6) && after == line[indent..][level..]
    ensures level >= 1 && after != "" && IsBlank(after[0]) && DropBlanks(after) != "" && !IsSpace(DropBlanks(after)[0])
  {
    indent := CountLeading(line, ' ', 3);
    level := CountLeading(line[indent..], '#', 6);
    after := line[indent..][level..];
  }

  lemma PutBefore(line: string, indent: nat, hashes: string, gap: string, rest: string, after: string)
    requires indent <= |line| && line[indent..] == hashes + after && after == gap + rest
    ensures line == line[..indent] + hashes + gap + rest
  {
    assert line == line[..indent] + line[indent..];
    assert line[..indent] + hashes + gap + rest == line[..indent] + (hashes + (gap + rest));
  }

  lemma OpeningParts(line: string) returns (indent: nat, level: nat, gap: string, rest: string)
    requires Opens(line)
    ensures OpensWith(line, indent, level, gap, rest)
  {
    var after;
    indent, level, after := OpeningIs(line);
    gap := GapOf(after);
    rest := DropBlanks(after);
    HashesThen(line, indent, level, after);
    PutBefore(line, indent, Hashes(level), gap, rest, after);
    OpeningFits(line, indent, level, gap, rest);
  }

  lemma OpeningFits(line: string, indent: nat, level: nat, gap: string, rest: string)
    requires indent == CountLeading(line, ' ', 3) && line == line[..indent] + Hashes(level) + gap + rest
    requires 1 <= level <= 6 && gap != "" && AllBlank(gap) && rest != "" && !IsSpace(rest[0])
    ensures OpensWith(line, indent, level, gap, rest)
  {
  }

  /** The rule's pattern in both directions. */
  lemma OpensIff(line: string)
    ensures Opens(line) <==> exists indent: nat, level: nat, gap: string, rest: string :: OpensWith(line, indent, level, gap, rest)
  {
    if Opens(line) {
      var indent, level, gap, rest := OpeningParts(line);
    }
    if indent: nat, level: nat, gap: string, rest: string :| OpensWith(line, indent, level, gap, rest) { OpensWithOpens(line, indent, level, gap, rest); }
  }

  /** The rule refuses every line that HEADING_RE would take for a heading. */
  lemma HeadingOpens(line: string)
    requires HeadingOf(line).Some?
    ensures Opens(line)
  {
    var rest := line[CountLeading(line, ' ', 3)..];
    var after := rest[CountLeading(rest, '#', 6)..];
    var text := DropBlanks(after);
    if text == "" {
      assert DropLastBlanks(text) == "";
    } else {
      DropLastBlanksKeepsFront(text);
    }
  }

  lemma QuietNoHeadings(text: string)
    requires TextOk(text)
    ensures RawOk(HeadingOf, text)
  {
    var lines := Split(text, '\n');
    forall i | 0 <= i < |lines| ensures HeadingOf(lines[i]).None? {
      if HeadingOf(lines[i]).Some? { HeadingOpens(lines[i]); }
    }
  }

  // ---- a shorter line opens nothing either ---------------------------------

  lemma {:induction false} CountLeadingSnoc(s: string, c: char, most: nat, x: char)
    requires CountLeading(s, c, most) < |s|
    ensures CountLeading(s + [x], c, most) == CountLeading(s, c, most)
  {
    if most > 0 && s[0] == c {
      assert (s + [x])[1..] == s[1..] + [x];
      CountLeadingSnoc(s[1..], c, most - 1, x);
    }
  }

  lemma {:induction false} DropBlanksSnoc(s: string, x: char)
    requires DropBlanks(s) != ""
    ensures DropBlanks(s + [x]) == DropBlanks(s) + [x]
  {
    if IsBlank(s[0]) {
      assert (s + [x])[1..] == s[1..] + [x];
      DropBlanksSnoc(s[1..], x);
    }
  }

  lemma OpensAfterSnoc(after: string, x: char)
    requires OpensAfter(after)
    ensures OpensAfter(after + [x])
  {
    DropBlanksSnoc(after, x);
  }

  lemma DropSnoc(s: string, n: nat, x: char)
    requires n <= |s|
    ensures (s + [x])[n..] == s[n..] + [x]
  {
  }

  lemma OpensHashesSnoc(rest: string, x: char)
    requires OpensHashes(rest)
    ensures OpensHashes(rest + [x])
  {
    var level := CountLeading(rest, '#', 6);
    CountLeadingSnoc(rest, '#', 6, x);
    DropSnoc(rest, level, x);
    OpensAfterSnoc(rest[level..], x);
  }

  lemma OpensSnoc(s: string, x: char)
    requires Opens(s)
    ensures Opens(s + [x])
  {
    var n := CountLeading(s, ' ', 3);
    CountLeadingSnoc(s, ' ', 3, x);
    DropSnoc(s, n, x);
    OpensHashesSnoc(s[n..], x);
  }

  lemma OpensLasts()
    ensures Lasting(Opens)
  {
    forall s: string, x: char | Opens(s) ensures Opens(s + [x]) { OpensSnoc(s, x); }
  }

  // ---- trimming and stripping keep the later lines quiet -------------------

  lemma TailOfRest(opens: Opener, s: string)
    requires s != "" && TailOk(opens, s)
    ensures TailOk(opens, s[1..])
  {
    var r := Split(s[1..], '\n');
    if s[0] == '\n' {
      assert Split(s, '\n')[1..] == r;
      assert Quiet(opens, r);
    } else {
      assert Split(s, '\n')[1..] == r[1..];
    }
  }

  function LastGrown(ls: seq<string>, x: char): seq<string>
    requires ls != []
  {
    ls[..|ls| - 1] + [ls[|ls| - 1] + [x]]
  }

  /** One more character goes to the last line. */
  lemma {:induction false} SplitSnoc(s: string, x: char)
    requires x != '\n'
    ensures Split(s + [x], '\n') == LastGrown(Split(s, '\n'), x)
  {
    if s == "" {
      assert s + [x] == [x];
      SplitPlain([x], '\n');
    } else {
      SplitSnoc(s[1..], x);
      assert (s + [x])[1..] == s[1..] + [x];
      var r := Split(s[1..], '\n');
      if s[0] == '\n' {
        assert [""] + LastGrown(r, x) == LastGrown([""] + r, x);
      } else {
        GrownLater(r, [s[0]], x);
      }
    }
  }

  lemma GrownLater(r: seq<string>, a: string, x: char)
    requires r != []
    ensures [a + LastGrown(r, x)[0]] + LastGrown(r, x)[1..] == LastGrown([a + r[0]] + r[1..], x)
  {
    if |r| == 1 { assert a + (r[0] + [x]) == a + r[0] + [x]; }
  }

  lemma Lasts(opens: Opener, s: string, x: char)
    requires Lasting(opens)
    ensures opens(s) ==> opens(s + [x])
  {
  }

  lemma QuietShrunk(opens: Opener, ls: seq<string>, x: char)
    requires Lasting(opens) && ls != [] && Quiet(opens, LastGrown(ls, x)[1..])
    ensures Quiet(opens, ls[1..])
  {
    var g := LastGrown(ls, x);
    forall i | 0 <= i < |ls[1..]| ensures !opens(ls[1..][i]) {
      assert g[1..][i] == g[i + 1];
      if i + 1 < |ls| - 1 {
        assert g[i + 1] == ls[i + 1];
      } else {
        Lasts(opens, ls[i + 1], x);
      }
    }
  }

  lemma QuietFront(opens: Opener, ls: seq<string>, l: string)
    requires ls != [] && Quiet(opens, (ls + [l])[1..])
    ensures Quiet(opens, ls[1..])
  {
    assert (ls + [l])[1..] == ls[1..] + [l];
    forall i | 0 <= i < |ls[1..]| ensures !opens(ls[1..][i]) { assert (ls[1..] + [l])[i] == ls[1..][i]; }
  }

  lemma TailOfFront(opens: Opener, s: string, x: char)
    requires Lasting(opens) && TailOk(opens, s + [x])
    ensures TailOk(opens, s)
  {
    if x == '\n' {
      SplitAt(s, '\n', "");
      assert s + ['\n'] + "" == s + [x];
      QuietFront(opens, Split(s, '\n'), "");
    } else {
      SplitSnoc(s, x);
      QuietShrunk(opens, Split(s, '\n'), x);
    }
    assert forall c :: c in s ==> c in s + [x];
  }

  lemma {:induction false} TailOfSuffix(opens: Opener, s: string, k: nat)
    requires k <= |s| && TailOk(opens, s)
    ensures TailOk(opens, s[k..])
  {
    if k > 0 {
      TailOfRest(opens, s);
      TailOfSuffix(opens, s[1..], k - 1);
      assert s[1..][k - 1..] == s[k..];
    } else {
      assert s[0..] == s;
    }
  }

  lemma {:induction false} TailOfPrefix(opens: Opener, s: string, k: nat)
    requires Lasting(opens) && k <= |s| && TailOk(opens, s)
    ensures TailOk(opens, s[..k])
    decreases |s|
  {
    if k < |s| {
      assert s[..|s| - 1] + [s[|s| - 1]] == s;
      TailOfFront(opens, s[..|s| - 1], s[|s| - 1]);
      TailOfPrefix(opens, s[..|s| - 1], k);
      assert s[..|s| - 1][..k] == s[..k];
    } else {
      assert s[..k] == s;
    }
  }

  lemma TailOfTrim(opens: Opener, s: string)
    requires Lasting(opens) && TailOk(opens, s)
    ensures TailOk(opens, Trim(s))
  {
    var l := TrimLeft(s);
    TailOfSuffix(opens, s, |s| - |l|);
    TailOfPrefix(opens, l, |TrimRight(l)|);
  }

  lemma {:induction false} TailOfStripped(opens: Opener, s: string)
    requires Lasting(opens) && TailOk(opens, s)
    ensures TailOk(opens, Stripped(s))
    decreases |s|
  {
    if StampLength(s).Some? {
      TailOfSuffix(opens, s, StampLength(s).value);
      TailOfTrim(opens, s[StampLength(s).value..]);
      TailOfStripped(opens, Trim(s[StampLength(s).value..]));
    }
  }

  lemma {:induction false} SplitPrefixed(a: string, s: string)
    requires '\n' !in a
    ensures Split(a + s, '\n') == [a + Split(s, '\n')[0]] + Split(s, '\n')[1..]
  {
    if a == "" {
      assert a + s == s && a + Split(s, '\n')[0] == Split(s, '\n')[0];
    } else {
      assert (a + s)[1..] == a[1..] + s;
      SplitPrefixed(a[1..], s);
      var r := Split(a[1..] + s, '\n');
      assert r[1..] == Split(s, '\n')[1..];
      assert [a[0]] + r[0] == a + Split(s, '\n')[0];
    }
  }

  predicate NoneHeads(hd: Recogniser, lines: seq<string>) { forall i :: 0 <= i < |lines| ==> hd(lines[i]).None? }

  lemma FirstThenRest(hd: Recogniser, first: string, rest: seq<string>)
    requires hd(first).None? && NoneHeads(hd, rest)
    ensures NoneHeads(hd, [first] + rest)
  {
  }

  lemma QuietLines(lines: seq<string>)
    requires Quiet(Opens, lines)
    ensures NoneHeads(HeadingOf, lines)
  {
    forall i | 0 <= i < |lines| ensures HeadingOf(lines[i]).None? {
      if HeadingOf(lines[i]).Some? { HeadingOpens(lines[i]); }
    }
  }

  lemma HeadsOfText(hd: Recogniser, text: string, lines: seq<string>)
    requires Split(text, '\n') == lines && NoneHeads(hd, lines) && '\r' !in text
    ensures RawOk(hd, text)
  {
  }

  /** A text that starts with a dash and goes on quietly holds no heading. */
  lemma DashThenQuiet(a: string, x: string)
    requires a != "" && a[0] == '-' && '\n' !in a && '\r' !in a && TailOk(Opens, x)
    ensures RawOk(HeadingOf, a + x)
  {
    SplitPrefixed(a, x);
    var first, rest := a + Split(x, '\n')[0], Split(x, '\n')[1..];
    DashOpensNothing(first);
    QuietLines(rest);
    FirstThenRest(HeadingOf, first, rest);
    HeadsOfText(HeadingOf, a + x, [first] + rest);
  }

  /** What follows a dash at the start of the line is never a heading. */
  lemma BulletText(date: string, x: string)
    requires IsDate(date) && TailOk(Opens, x)
    ensures RawOk(HeadingOf, "- " + date + " - " + x)
  {
    DashThenQuiet("- " + date + " - ", x);
  }

  lemma DashOpensNothing(line: string)
    requires line != "" && line[0] == '-'
    ensures HeadingOf(line).None?
  {
    assert line[0..] == line;
  }

  /** A dated bullet over text that meets the rule can stand in a document. */
  lemma BulletOk(date: string, text: string)
    requires IsDate(date) && TextOk(text)
    ensures BodyOk(HeadingOf, DatedBullet(date, text))
  {
    OpensLasts();
    TailOfTrim(Opens, text);
    TailOfStripped(Opens, Trim(text));
    BulletText(date, Stripped(Trim(text)));
    StrippedIsTrimmed(Trim(text));
    BulletEnds(date, Stripped(Trim(text)));
  }

  // ---- the merged document -------------------------------------------------

  lemma BodyOfOk(hd: Recogniser, ss: seq<Section>, t: string)
    requires Recognises(hd) && SectionsOk(hd, ss)
    ensures BodyOk(hd, BodyOf(ss, t))
  {
    if HasTitle(ss, t) {
      assert SectionOk(hd, ss[FirstIndex(ss, t)]);
    } else {
      EmptyBodyOk(hd);
    }
  }

  lemma EmptyBodyOk(hd: Recogniser)
    requires Recognises(hd)
    ensures BodyOk(hd, "")
  {
    SplitPlain("", '\n');
  }

  lemma WithBodyOk(hd: Recogniser, ss: seq<Section>, title: string, body: string)
    requires SectionsOk(hd, ss) && RawOk(hd, body) && TitleOk(title)
    ensures SectionsOk(hd, WithBody(ss, title, body))
  {
    TrimmedOk(hd, body);
  }

  lemma InsertedOk(hd: Recogniser, ss: seq<Section>, at: nat, title: string)
    requires Recognises(hd) && SectionsOk(hd, ss) && at <= |ss| && TitleOk(title)
    ensures SectionsOk(hd, Inserted(ss, at, Section(2, title, "")))
  {
    EmptyBodyOk(hd);
    var s := Section(2, title, "");
    assert SectionOk(hd, s);
    forall j | 0 <= j < |ss| + 1 ensures SectionOk(hd, Inserted(ss, at, s)[j]) { InsertedAt(ss, at, s, j); }
  }

  ghost predicate TitlesOk(heads: seq<string>) { |heads| == 5 && forall k :: 0 <= k < |heads| ==> TitleOk(heads[k]) }

  lemma {:induction false} EnsuredFromOk(hd: Recogniser, heads: seq<string>, ss: seq<Section>, k: nat)
    requires Recognises(hd) && SectionsOk(hd, ss) && TitlesOk(heads) && k <= |heads|
    ensures SectionsOk(hd, EnsuredFrom(heads, ss, k))
    decreases |heads| - k
  {
    if k < |heads| {
      if !HasTitle(ss, heads[k]) { InsertedOk(hd, ss, InsertionIndex(heads, ss, k), heads[k]); }
      EnsuredFromOk(hd, heads, Ensured(heads, ss, k), k + 1);
    }
  }

  lemma JoinedRawOk(hd: Recogniser, a: string, b: string)
    requires RawOk(hd, a) && RawOk(hd, b)
    ensures RawOk(hd, a + "\n" + b)
  {
    SplitAt(a, '\n', b);
    assert a + ['\n'] + b == a + "\n" + b;
  }

  lemma MaybeSetOk(hd: Recogniser, ss: seq<Section>, title: string, body: Option<string>)
    requires SectionsOk(hd, ss) && TitleOk(title) && (body.Some? ==> RawOk(hd, body.value))
    ensures SectionsOk(hd, MaybeSet(ss, title, body))
  {
    if body.Some? { WithBodyOk(hd, ss, title, body.value); }
  }

  lemma WithDecisionOk(hd: Recogniser, ss: seq<Section>, title: string, line: Option<string>)
    requires Recognises(hd) && SectionsOk(hd, ss) && TitleOk(title) && (line.Some? ==> RawOk(hd, line.value))
    ensures SectionsOk(hd, WithDecision(ss, title, line))
  {
    if line.Some? {
      BodyOfOk(hd, ss, title);
      JoinedRawOk(hd, BodyOf(ss, title), line.value);
      MaybeSetOk(hd, ss, title, Some(Below(BodyOf(ss, title), line.value)));
    }
  }

  lemma WithLogEntryOk(hd: Recogniser, ss: seq<Section>, title: string, line: Option<string>)
    requires Recognises(hd) && SectionsOk(hd, ss) && TitleOk(title) && (line.Some? ==> RawOk(hd, line.value))
    ensures SectionsOk(hd, WithLogEntry(ss, title, line))
  {
    if line.Some? {
      BodyOfOk(hd, ss, title);
      JoinedRawOk(hd, line.value, BodyOf(ss, title));
      MaybeSetOk(hd, ss, title, Some(Above(BodyOf(ss, title), line.value)));
    }
  }

  ghost predicate GivenOk(hd: Recogniser, body: Option<string>) { body.Some? ==> RawOk(hd, body.value) }

  lemma MergedSectionsOk(hd: Recogniser, heads: seq<string>, bullet: string -> string, ss: seq<Section>, u: Update)
    requires Recognises(hd) && SectionsOk(hd, ss) && TitlesOk(heads)
    requires GivenOk(hd, u.whatWhy) && GivenOk(hd, u.status) && GivenOk(hd, u.nextActions)
    requires GivenOk(hd, Bulleted(bullet, u.decision)) && GivenOk(hd, Bulleted(bullet, u.logEntry))
    ensures SectionsOk(hd, MergedSections(heads, bullet, ss, u))
  {
    EnsuredFromOk(hd, heads, ss, 0);
    var a := EnsuredFrom(heads, ss, 0);
    MaybeSetOk(hd, a, heads[0], u.whatWhy);
    var b0 := MaybeSet(a, heads[0], u.whatWhy);
    MaybeSetOk(hd, b0, heads[1], u.status);
    var b1 := MaybeSet(b0, heads[1], u.status);
    MaybeSetOk(hd, b1, heads[2], u.nextActions);
    var b := MaybeSet(b1, heads[2], u.nextActions);
    WithDecisionOk(hd, b, heads[3], Bulleted(bullet, u.decision));
    WithLogEntryOk(hd, WithDecision(b, heads[3], Bulleted(bullet, u.decision)), heads[4], Bulleted(bullet, u.logEntry));
  }

  predicate GivenTextOk(text: Option<string>) { text.Some? ==> TextOk(text.value) }

  predicate UpdateOk(u: Update) {
    GivenTextOk(u.whatWhy) && GivenTextOk(u.status) && GivenTextOk(u.nextActions) && GivenTextOk(u.decision) && GivenTextOk(u.logEntry)
  }

  lemma GivenTextRaw(text: Option<string>)
    requires GivenTextOk(text)
    ensures GivenOk(HeadingOf, text)
  {
    if text.Some? { QuietNoHeadings(text.value); }
  }

  lemma GivenBulletRaw(date: string, text: Option<string>)
    requires IsDate(date) && GivenTextOk(text)
    ensures GivenOk(HeadingOf, Bulleted(t => DatedBullet(date, t), text))
  {
    if text.Some? { BulletOk(date, text.value); }
  }

  lemma HeadingTitlesOk()
    ensures TitlesOk(HEADINGS)
  {
    assert TitleOk("What & Why") && TitleOk("Current Status") && TitleOk("Next Actions") && TitleOk("Decisions") && TitleOk("Log");
  }

  /** With any well-formed headings, an update that meets the rule leaves a well-formed document. */
  lemma MergedOk(heads: seq<string>, d: Doc, u: Update, date: string)
    requires TitlesOk(heads) && DocOk(HeadingOf, d) && UpdateOk(u) && IsDate(date)
    ensures DocOk(HeadingOf, MergeIn(heads, d, u, date))
  {
    HeadingOfRecognises();
    GivenTextRaw(u.whatWhy);
    GivenTextRaw(u.status);
    GivenTextRaw(u.nextActions);
    GivenBulletRaw(date, u.decision);
    GivenBulletRaw(date, u.logEntry);
    MergedSectionsOk(HeadingOf, heads, text => DatedBullet(date, text), d.sections, u);
  }

  /** So a merged document survives print-then-parse. */
  lemma MergedReadsBack(d: Doc, u: Update, date: string)
    requires DocOk(HeadingOf, d) && UpdateOk(u) && IsDate(date)
    ensures DocOk(HeadingOf, Merge(d, u, date))
    ensures ParseDoc(Serialize(Merge(d, u, date))) == Merge(d, u, date)
  {
    HeadingTitlesOk();
    MergedOk(HEADINGS, d, u, date);
    PrintThenParse(Merge(d, u, date));
  }
}
