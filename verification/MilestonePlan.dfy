/** The Milestones section of a project document (ADR 0065): its parser and printer are mutual inverses. */
module MilestonePlan {
  import opened Options
  import opened Text
  import opened MilestoneLine

  const MILESTONE_MAX_ITEMS := 20
  const MILESTONE_LINE_MAX_CHARS := 240
  const MILESTONE_TITLE_MAX_CHARS := 80
  const MILESTONE_TEST_MAX_CHARS := 120
  const REASON_MAX_CHARS := MILESTONE_LINE_MAX_CHARS - 6

  datatype Milestone =
    | OpenM(id: string, title: string, test: string)
    | PassedM(id: string, title: string, test: string, day: string, author: Author)

  datatype Plan = Absent | NoPlan(reason: string) | Items(items: seq<Milestone>) | Malformed

  // ---- text and dates ------------------------------------------------------

  /** UNSAFE_CHARS: control and format characters and the two line separators. */
  predicate Unsafe(c: char) {
    || c <= '\U{1F}' || '\U{7F}' <= c <= '\U{9F}' || c == '\U{AD}' || '\U{600}' <= c <= '\U{605}' || c == '\U{61C}' || c == '\U{6DD}'
    || c == '\U{70F}' || '\U{890}' <= c <= '\U{891}' || c == '\U{8E2}' || c == '\U{180E}' || '\U{200B}' <= c <= '\U{200F}'
    || '\U{2028}' <= c <= '\U{202E}' || '\U{2060}' <= c <= '\U{2064}' || '\U{2066}' <= c <= '\U{206F}' || c == '\U{FEFF}'
    || '\U{FFF9}' <= c <= '\U{FFFB}' || c == '\U{110BD}' || c == '\U{110CD}' || '\U{13430}' <= c <= '\U{1343F}'
    || '\U{1BCA0}' <= c <= '\U{1BCA3}' || '\U{1D173}' <= c <= '\U{1D17A}' || c == '\U{E0001}' || '\U{E0020}' <= c <= '\U{E007F}'
  }

  predicate Safe(s: string) { forall i :: 0 <= i < |s| ==> !Unsafe(s[i]) }

  /** `textProblem` finds nothing. */
  predicate TextOk(s: string, max: nat) {
    s != "" && Trimmed(s) && '|' !in s && Safe(s) && |s| <= max
  }

  lemma SafePlain(s: string)
    requires Safe(s)
    ensures '\n' !in s && '\r' !in s
  {
    assert Unsafe('\n') && Unsafe('\r');
  }

  lemma SafeNoTerminator(s: string)
    requires Safe(s)
    ensures forall i :: 0 <= i < |s| ==> !IsTerminator(s[i])
  {
    assert forall c: char :: IsTerminator(c) ==> Unsafe(c);
  }

  function Digit(c: char): int { c as int - '0' as int }

  predicate Leap(y: int) { y % 4 == 0 && (y % 100 != 0 || y % 400 == 0) }

  function DaysIn(y: int, m: int): int {
    if m == 2 then (if Leap(y) then 29 else 28) else if m == 4 || m == 6 || m == 9 || m == 11 then 30 else 31
  }

  /** `isUtcDate`: a day of the calendar. */
  predicate IsUtcDate(d: string) {
    DateShape(d) &&
    var y, m, day := 1000 * Digit(d[0]) + 100 * Digit(d[1]) + 10 * Digit(d[2]) + Digit(d[3]), 10 * Digit(d[5]) + Digit(d[6]), 10 * Digit(d[8]) + Digit(d[9]);
    1 <= m <= 12 && 1 <= day <= DaysIn(y, m)
  }

  // ---- one line ------------------------------------------------------------

  function FormatMilestone(m: Milestone): string {
    match m
    case OpenM(id, title, test) => "- [ ] " + id + " " + title + " | test: " + test
    case PassedM(id, title, test, day, author) =>
      "- [x] " + id + " " + title + " | test: " + test + " | passed " + day + (if author == You then " (you)" else " (agent)")
  }

  predicate Valid(m: Milestone) {
    && IsId(m.id) && TextOk(m.title, MILESTONE_TITLE_MAX_CHARS) && TextOk(m.test, MILESTONE_TEST_MAX_CHARS)
    && |FormatMilestone(m)| <= MILESTONE_LINE_MAX_CHARS
    && (m.PassedM? ==> IsUtcDate(m.day))
  }

  function RawOf(m: Milestone): Raw {
    match m
    case OpenM(id, title, test) => Raw(false, id, title, test, None)
    case PassedM(id, title, test, day, author) => Raw(true, id, title, test, Some(Stamp(day, author)))
  }

  /** `parseLine`, without the words of its refusals. */
  function LineMilestone(line: string): Option<Milestone> {
    match Shape(line)
    case None => None
    case Some(r) =>
      if r.checked != r.stamp.Some? || !TextOk(r.title, MILESTONE_TITLE_MAX_CHARS) || !TextOk(r.test, MILESTONE_TEST_MAX_CHARS)
         || |line| > MILESTONE_LINE_MAX_CHARS then None
      else if r.stamp.None? then Some(OpenM(r.id, r.title, r.test))
      else if !IsUtcDate(r.stamp.value.day) then None
      else Some(PassedM(r.id, r.title, r.test, r.stamp.value.day, r.stamp.value.author))
  }

  lemma OpenFormat(id: string, title: string, test: string)
    ensures FormatMilestone(OpenM(id, title, test)) == RawLine(Raw(false, id, title, test, None))
  {
    var a := "- [ ] " + id + " " + title;
    assert " | test: " + test == " " + ("|" + (" test: " + test));
    assert a + " | test: " + test == a + (" | test: " + test);
    assert a + " " + "|" + (" test: " + test) == a + (" " + ("|" + (" test: " + test)));
  }

  lemma Regroup(a: string, t: string, day: string, who: string)
    ensures a + " | test: " + t + " | passed " + day + who == a + " " + "|" + (" test: " + t) + " " + "|" + (" passed " + day + who)
  {
    assert a + " | test: " + t == a + " " + "|" + (" test: " + t);
    var b := a + " | test: " + t;
    assert b + " | passed " + day + who == b + " " + "|" + (" passed " + day + who);
  }

  lemma FormatIsRaw(m: Milestone)
    ensures FormatMilestone(m) == RawLine(RawOf(m))
  {
    match m
    case OpenM(id, title, test) => OpenFormat(id, title, test);
    case PassedM(id, title, test, day, author) =>
      Regroup("- [x] " + id + " " + title, test, day, if author == You then " (you)" else " (agent)");
  }

  /** A line is a milestone exactly when it is that milestone's own line. */
  lemma LineIff(line: string, m: Milestone)
    ensures LineMilestone(line) == Some(m) <==> Valid(m) && line == FormatMilestone(m)
  {
    FormatIsRaw(m);
    ShapeIff(line, RawOf(m));
    LineByShape(line, m);
    if Valid(m) { ValidCaptures(m); }
  }

  /** A line reads as the milestone of its captures, when these are fit. */
  lemma LineByShape(line: string, m: Milestone)
    ensures LineMilestone(line) == Some(m) <==>
      Shape(line) == Some(RawOf(m)) && TextOk(m.title, MILESTONE_TITLE_MAX_CHARS) && TextOk(m.test, MILESTONE_TEST_MAX_CHARS)
      && |line| <= MILESTONE_LINE_MAX_CHARS && (m.PassedM? ==> IsUtcDate(m.day))
  {
  }

  lemma ValidCaptures(m: Milestone)
    requires Valid(m)
    ensures CapturesOk(RawOf(m))
  {
  }

  /** Distinct milestones have distinct lines. */
  lemma FormatInjective(a: Milestone, b: Milestone)
    requires Valid(a) && FormatMilestone(a) == FormatMilestone(b)
    requires Valid(b)
    ensures a == b
  {
    LineIff(FormatMilestone(a), a);
    LineIff(FormatMilestone(a), b);
  }

  // ---- the section ---------------------------------------------------------

  function Lines(items: seq<Milestone>): (r: seq<string>)
    ensures |r| == |items| && forall i :: 0 <= i < |items| ==> r[i] == FormatMilestone(items[i])
  {
    if items == [] then [] else [FormatMilestone(items[0])] + Lines(items[1..])
  }

  /** `formatMilestones`, on the plans that can be written back. */
  function FormatPlan(p: Plan): string
    requires p.NoPlan? || p.Items?
  {
    if p.NoPlan? then "none: " + p.reason else Join(Lines(p.items), "\n")
  }

  predicate HasId(items: seq<Milestone>, id: string) { exists i :: 0 <= i < |items| && items[i].id == id }

  predicate HasOpen(items: seq<Milestone>) { exists i :: 0 <= i < |items| && items[i].OpenM? }

  predicate IdsDistinct(items: seq<Milestone>) { forall i, j :: 0 <= i < j < |items| ==> items[i].id != items[j].id }

  predicate PassedFirst(items: seq<Milestone>) { forall i, j :: 0 <= i < j < |items| && items[j].PassedM? ==> items[i].PassedM? }

  predicate AllValid(items: seq<Milestone>) { forall i :: 0 <= i < |items| ==> Valid(items[i]) }

  /** Ids once each, passed milestones first. */
  predicate Ordered(items: seq<Milestone>) { IdsDistinct(items) && PassedFirst(items) }

  /** The plans a document can hold. */
  predicate ValidPlan(p: Plan) {
    match p
    case NoPlan(reason) => ReasonOk(reason)
    case Items(items) => 1 <= |items| <= MILESTONE_MAX_ITEMS && AllValid(items) && Ordered(items)
    case _ => false
  }

  /** How lines are read: LineMilestone is the one the section uses. */
  type Reader = string -> Option<Milestone>

  /** Whether m may follow these items. */
  predicate MayFollow(items: seq<Milestone>, m: Milestone) { !HasId(items, m.id) && !(m.PassedM? && HasOpen(items)) }

  /** The loop over the lines, with the items read so far. */
  function ParseItems(read: Reader, items: seq<Milestone>, lines: seq<string>): Plan
    decreases |lines|
  {
    if lines == [] then Items(items)
    else
      match read(lines[0])
      case None => Malformed
      case Some(m) => if MayFollow(items, m) then ParseItems(read, items + [m], lines[1..]) else Malformed
  }

  /** The reason of a `none:` line, by the pattern NONE. */
  function NoneOf(line: string): Option<string> {
    if |line| >= 6 && line[..6] == "none: " && (forall i :: 6 <= i < |line| ==> !IsTerminator(line[i])) then Some(line[6..]) else None
  }

  predicate ReasonOk(reason: string) { TextOk(reason, REASON_MAX_CHARS) }

  function ParseLines(read: Reader, fine: string -> bool, lines: seq<string>): Plan
    requires lines != []
  {
    var none := NoneOf(lines[0]);
    if none.Some? then
      if |lines| == 1 && fine(none.value) then NoPlan(none.value) else Malformed
    else if |lines| > MILESTONE_MAX_ITEMS then Malformed
    else ParseItems(read, [], lines)
  }

  function ParseText(read: Reader, fine: string -> bool, text: string): Plan {
    if text == "" then Malformed else ParseLines(read, fine, Split(text, '\n'))
  }

  /** `parseMilestoneSection`, without the words of its refusals. */
  function ParseSection(body: string): Plan { ParseText(LineMilestone, ReasonOk, Crlf(body)) }

  method ParseMilestoneSection(body: string) returns (p: Plan)
    ensures p == ParseSection(body)
  {
    var text := Crlf(body);
    if |text| == 0 { return Malformed; }
    var lines := Split(text, '\n');
    var none := NoneOf(lines[0]);
    if none.Some? {
      if |lines| != 1 { return Malformed; }
      return if ReasonOk(none.value) then NoPlan(none.value) else Malformed;
    }
    if |lines| > MILESTONE_MAX_ITEMS { return Malformed; }
    p := ReadItems(LineMilestone, lines);
  }

  /** The loop over the lines of a plan. */
  method ReadItems(read: Reader, lines: seq<string>) returns (p: Plan)
    ensures p == ParseItems(read, [], lines)
  {
    var items: seq<Milestone> := [];
    var seen: set<string> := {};
    for i := 0 to |lines|
      invariant ParseItems(read, items, lines[i..]) == ParseItems(read, [], lines)
      invariant forall id :: id in seen <==> HasId(items, id)
    {
      assert lines[i..][1..] == lines[i + 1..];
      var parsed := read(lines[i]);
      if parsed.None? { return Malformed; }
      var m := parsed.value;
      if m.id in seen { return Malformed; }
      if m.PassedM? && HasOpen(items) { return Malformed; }
      HasIdSnoc(items, m);
      seen := seen + {m.id};
      items := items + [m];
    }
    assert lines[|lines|..] == [];
    p := Items(items);
  }

  lemma HasIdSnoc(items: seq<Milestone>, m: Milestone)
    ensures forall id :: HasId(items + [m], id) <==> HasId(items, id) || id == m.id
  {
    var r := items + [m];
    forall id ensures HasId(r, id) <==> HasId(items, id) || id == m.id {
      if HasId(items, id) {
        var i :| 0 <= i < |items| && items[i].id == id;
        assert r[i].id == id;
      }
      if id == m.id { assert r[|items|].id == id; }
    }
  }

  // ---- mutual inverses -----------------------------------------------------

  lemma IdsSnoc(items: seq<Milestone>, m: Milestone)
    requires IdsDistinct(items)
    ensures IdsDistinct(items + [m]) <==> !HasId(items, m.id)
  {
    var r := items + [m];
    assert r[|items|] == m && forall i :: 0 <= i < |items| ==> r[i] == items[i];
  }

  lemma PassedSnoc(items: seq<Milestone>, m: Milestone)
    requires PassedFirst(items)
    ensures PassedFirst(items + [m]) <==> !(m.PassedM? && HasOpen(items))
  {
    var r := items + [m];
    assert r[|items|] == m && forall i :: 0 <= i < |items| ==> r[i] == items[i];
  }

  lemma OrderedFront(items: seq<Milestone>, front: seq<Milestone>)
    requires Ordered(items) && front <= items
    ensures Ordered(front)
  {
  }

  lemma OrderedSnoc(items: seq<Milestone>, m: Milestone)
    requires Ordered(items)
    ensures Ordered(items + [m]) <==> MayFollow(items, m)
  {
    IdsSnoc(items, m);
    PassedSnoc(items, m);
  }

  /** Each line reads as the item at its place. */
  predicate ReadsAs(read: Reader, lines: seq<string>, items: seq<Milestone>) {
    |lines| == |items| && forall i :: 0 <= i < |lines| ==> read(lines[i]) == Some(items[i])
  }

  lemma ReadsAsCons(read: Reader, lines: seq<string>, items: seq<Milestone>)
    requires lines != [] && items != []
    ensures ReadsAs(read, lines, items) <==> read(lines[0]) == Some(items[0]) && ReadsAs(read, lines[1..], items[1..])
  {
    if read(lines[0]) == Some(items[0]) && ReadsAs(read, lines[1..], items[1..]) {
      forall i | 0 <= i < |lines| ensures read(lines[i]) == Some(items[i]) {
        if i > 0 { assert lines[i] == lines[1..][i - 1] && items[i] == items[1..][i - 1]; }
      }
    }
  }

  /** Lines read as exactly the items they read as one by one, when these may follow the ones before. */
  lemma {:induction false} ParseItemsIff(read: Reader, before: seq<Milestone>, lines: seq<string>, rest: seq<Milestone>)
    requires Ordered(before)
    ensures ParseItems(read, before, lines) == Items(before + rest) <==> Ordered(before + rest) && ReadsAs(read, lines, rest)
    decreases |lines|
  {
    ParseItemsGrows(read, before, lines);
    if lines == [] || rest == [] {
      assert |before + rest| == |before| + |rest|;
      if rest == [] { assert before + rest == before; }
    } else if read(lines[0]) == Some(rest[0]) {
      var m := rest[0];
      OrderedSnoc(before, m);
      Moved(before, rest);
      ReadsAsCons(read, lines, rest);
      if MayFollow(before, m) {
        ParseItemsIff(read, before + [m], lines[1..], rest[1..]);
      } else if Ordered(before + rest) {
        OrderedFront(before + rest, before + [m]);
      }
    } else {
      ReadsAsCons(read, lines, rest);
      FirstRead(read, before, lines, rest);
    }
  }

  lemma Moved(before: seq<Milestone>, rest: seq<Milestone>)
    requires rest != []
    ensures before + rest == before + [rest[0]] + rest[1..] && before + [rest[0]] <= before + rest
  {
  }

  /** Parsed items start with the ones given, and hold one per line. */
  lemma {:induction false} ParseItemsGrows(read: Reader, before: seq<Milestone>, lines: seq<string>)
    ensures var p := ParseItems(read, before, lines);
      p.Malformed? || (p.Items? && |p.items| == |before| + |lines| && before <= p.items)
    decreases |lines|
  {
    if lines != [] && read(lines[0]).Some? && MayFollow(before, read(lines[0]).value) {
      ParseItemsGrows(read, before + [read(lines[0]).value], lines[1..]);
    }
  }

  /** The first line decides the first new item. */
  lemma FirstRead(read: Reader, before: seq<Milestone>, lines: seq<string>, rest: seq<Milestone>)
    requires lines != [] && rest != [] && read(lines[0]) != Some(rest[0])
    ensures ParseItems(read, before, lines) != Items(before + rest)
  {
    if read(lines[0]).Some? {
      var next := before + [read(lines[0]).value];
      ParseItemsGrows(read, next, lines[1..]);
      assert (before + rest)[|before|] == rest[0] && next[|before|] == read(lines[0]).value;
    }
  }

  // ---- the section reads back ----------------------------------------------

  lemma {:induction false} LinesRead(lines: seq<string>, items: seq<Milestone>)
    ensures ReadsAs(LineMilestone, lines, items) <==> AllValid(items) && lines == Lines(items)
  {
    var formatted := Lines(items);
    if |lines| == |items| {
      forall i | 0 <= i < |items|
        ensures LineMilestone(lines[i]) == Some(items[i]) <==> Valid(items[i]) && lines[i] == formatted[i]
      {
        LineIff(lines[i], items[i]);
      }
    }
  }

  lemma NonePrefix(line: string, reason: string)
    ensures NoneOf(line) == Some(reason) ==> line == "none: " + reason
    ensures line == "none: " + reason && NoTerminators(reason) ==> NoneOf(line) == Some(reason)
  {
    PrefixThen("none: ", line, reason);
    if line == "none: " + reason && NoTerminators(reason) {
      forall i | 6 <= i < |line| ensures !IsTerminator(line[i]) { assert line[i] == reason[i - 6]; }
    }
  }

  predicate NoTerminators(s: string) { forall i :: 0 <= i < |s| ==> !IsTerminator(s[i]) }

  lemma MilestoneLineStarts(m: Milestone)
    ensures FormatMilestone(m) != "" && FormatMilestone(m)[0] == '-' && NoneOf(FormatMilestone(m)).None?
  {
    assert "none: "[0] == 'n';
  }

  predicate NoBreak(s: string) { '\n' !in s && '\r' !in s }

  lemma NoBreakOpen(box: string, id: string, title: string, test: string)
    requires NoBreak(box) && IsId(id) && NoBreak(title) && NoBreak(test)
    ensures NoBreak(box + id + " " + title + " | test: " + test)
  {
    assert NoBreak(box + id + " ");
    assert NoBreak(box + id + " " + title + " | test: ");
  }

  lemma NoBreakPassed(line: string, day: string, who: string)
    requires NoBreak(line) && DateShape(day) && NoBreak(who)
    ensures NoBreak(line + " | passed " + day + who)
  {
    assert NoBreak(line + " | passed ");
    assert forall c :: c in day ==> IsDigit(c) || c == '-';
  }

  /** A milestone's line holds no line break. */
  lemma LineIsPlain(m: Milestone)
    requires IsId(m.id) && NoBreak(m.title) && NoBreak(m.test) && (m.PassedM? ==> DateShape(m.day))
    ensures NoBreak(FormatMilestone(m))
  {
    match m
    case OpenM(id, title, test) => NoBreakOpen("- [ ] ", id, title, test);
    case PassedM(id, title, test, day, author) =>
      NoBreakOpen("- [x] ", id, title, test);
      NoBreakPassed("- [x] " + id + " " + title + " | test: " + test, day, if author == You then " (you)" else " (agent)");
  }

  lemma ValidIsPlain(m: Milestone)
    requires Valid(m)
    ensures NoBreak(FormatMilestone(m))
  {
    SafePlain(m.title);
    SafePlain(m.test);
    LineIsPlain(m);
  }

  /** These lines, joined and split again. */
  lemma LinesSplit(items: seq<Milestone>)
    requires items != [] && AllValid(items)
    ensures Split(Join(Lines(items), "\n"), '\n') == Lines(items)
    ensures Join(Lines(items), "\n") != "" && '\r' !in Join(Lines(items), "\n")
  {
    forall i | 0 <= i < |items| ensures NoBreak(Lines(items)[i]) { ValidIsPlain(items[i]); }
    SplitJoin(Lines(items), '\n');
    JoinNoReturn(Lines(items));
    MilestoneLineStarts(items[0]);
  }

  lemma {:induction false} JoinNoReturn(ls: seq<string>)
    requires forall i :: 0 <= i < |ls| ==> NoBreak(ls[i])
    ensures '\r' !in Join(ls, "\n")
  {
    if |ls| > 1 { JoinNoReturn(ls[1..]); }
  }

  /** A `none:` line alone reads as its reason, and nothing else does. */
  lemma NoneLines(read: Reader, fine: string -> bool, lines: seq<string>, reason: string)
    requires lines != []
    ensures ParseLines(read, fine, lines) == NoPlan(reason) <==> fine(reason) && NoTerminators(reason) && lines == ["none: " + reason]
  {
    ParseItemsGrows(read, [], lines);
    NonePrefix(lines[0], reason);
    assert |lines| == 1 ==> lines == [lines[0]];
  }

  lemma NoneText(read: Reader, fine: string -> bool, text: string, reason: string)
    ensures ParseText(read, fine, text) == NoPlan(reason) <==> fine(reason) && NoTerminators(reason) && text == "none: " + reason
  {
    NoneLines(read, fine, Split(text, '\n'), reason);
    JoinSplit(text, '\n');
    OneLine("none: " + reason);
    if NoTerminators(reason) { SplitPlain("none: " + reason, '\n'); }
  }

  lemma OneLine(line: string)
    ensures Join([line], ['\n']) == line
  {
  }

  /** A text of lines reads as exactly the items its lines read as, when these stand in order. */
  lemma ItemsText(read: Reader, fine: string -> bool, text: string, items: seq<Milestone>)
    ensures ParseText(read, fine, text) == Items(items) <==>
      text != "" && |items| <= MILESTONE_MAX_ITEMS && Ordered(items) && ReadsAs(read, Split(text, '\n'), items) && NoneOf(Split(text, '\n')[0]).None?
  {
    var lines := Split(text, '\n');
    ParseItemsIff(read, [], lines, items);
    ParseItemsGrows(read, [], lines);
    assert [] + items == items;
  }

  /** The lines of a text are those of these items exactly when the text is their lines joined. */
  lemma TextOfLines(text: string, items: seq<Milestone>)
    requires items != [] && AllValid(items)
    ensures Split(text, '\n') == Lines(items) <==> text == Join(Lines(items), "\n")
    ensures text == Join(Lines(items), "\n") ==> text != "" && NoneOf(Split(text, '\n')[0]).None?
  {
    JoinSplit(text, '\n');
    LinesSplit(items);
    MilestoneLineStarts(items[0]);
  }

  lemma SectionNone(body: string, reason: string)
    ensures ParseSection(body) == NoPlan(reason) <==> ReasonOk(reason) && Crlf(body) == "none: " + reason
  {
    NoneText(LineMilestone, ReasonOk, Crlf(body), reason);
    if ReasonOk(reason) { SafeNoTerminator(reason); }
  }

  lemma SectionItems(body: string, items: seq<Milestone>)
    ensures ParseSection(body) == Items(items) <==> ValidPlan(Items(items)) && Crlf(body) == Join(Lines(items), "\n")
  {
    var text := Crlf(body);
    ItemsText(LineMilestone, ReasonOk, text, items);
    LinesRead(Split(text, '\n'), items);
    if items != [] && AllValid(items) { TextOfLines(text, items); }
  }

  /** parseMilestoneSection yields a plan or none exactly when the body is that plan's own text (up to CRLF). */
  lemma SectionIff(body: string, p: Plan)
    requires p.NoPlan? || p.Items?
    ensures ParseSection(body) == p <==> ValidPlan(p) && Crlf(body) == FormatPlan(p)
  {
    match p
    case NoPlan(reason) => SectionNone(body, reason);
    case Items(items) => SectionItems(body, items);
  }

  lemma NonePlain(reason: string)
    requires Safe(reason)
    ensures '\r' !in "none: " + reason
  {
    SafePlain(reason);
  }

  lemma FormatIsPlain(p: Plan)
    requires ValidPlan(p)
    ensures '\r' !in FormatPlan(p)
  {
    if p.NoPlan? {
      NonePlain(p.reason);
    } else {
      LinesSplit(p.items);
    }
  }

  /** Every plan that can be written back survives print-then-parse. */
  lemma PrintThenParsePlan(p: Plan)
    requires ValidPlan(p)
    ensures ParseSection(FormatPlan(p)) == p
  {
    FormatIsPlain(p);
    CrlfPlain(FormatPlan(p));
    SectionIff(FormatPlan(p), p);
  }

  /** A body without carriage returns that reads as a plan or none is reproduced byte for byte. */
  lemma ParseThenPrintPlan(body: string)
    requires '\r' !in body && !ParseSection(body).Malformed?
    ensures ValidPlan(ParseSection(body)) && FormatPlan(ParseSection(body)) == body
  {
    CrlfPlain(body);
    NeverAbsent(LineMilestone, ReasonOk, body);
    SectionIff(body, ParseSection(body));
  }

  lemma NeverAbsent(read: Reader, fine: string -> bool, text: string)
    ensures !ParseText(read, fine, text).Absent?
  {
    ParseItemsGrows(read, [], Split(text, '\n'));
  }
}
