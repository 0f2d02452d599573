/**
 * A hosted project update from end to end: the merge, the milestones, the roll
 * and the printed document. What it leaves always passes the write gate.
 */
module ProjectUpdate {
  import opened Options
  import opened Text
  import opened Headings
  import opened ProjectDoc
  import M = ProjectMerge
  import R = ProjectTextRule
  import L = ProjectLog
  import opened MilestoneLine
  import opened MilestonePlan
  import opened MilestoneMoves
  import opened MilestoneGate

  const MILESTONES_HEADING := "Milestones"
  const STATUS_HEADING := "Current Status"

  // ---- the Milestones section of a document --------------------------------

  predicate HoldsPlan(s: Section, title: string) { s.level == 2 && s.title == title }

  /** `milestoneSectionBodies`. */
  function Bodies(ss: seq<Section>, title: string): (r: seq<string>) {
    if ss == [] then [] else (if HoldsPlan(ss[0], title) then [ss[0].body] else []) + Bodies(ss[1..], title)
  }

  function BodiesOf(text: string, title: string): seq<string> { Bodies(ParseDoc(text).sections, title) }

  function BodiesIn(text: string): seq<string> { BodiesOf(text, MILESTONES_HEADING) }

  /** The first section that holds the plan; |ss| when none does. */
  function PlanIndex(ss: seq<Section>, title: string): (i: nat)
    ensures i <= |ss| && (i < |ss| ==> HoldsPlan(ss[i], title))
    ensures forall j :: 0 <= j < i ==> !HoldsPlan(ss[j], title)
  {
    if ss == [] || HoldsPlan(ss[0], title) then 0 else 1 + PlanIndex(ss[1..], title)
  }

  /** A level-1 first section is the title of the document, never a part of it. */
  predicate IsTitle(ss: seq<Section>, i: nat)
    requires i < |ss|
  {
    i == 0 && ss[0].level == 1
  }

  /** Where a new Milestones section goes: after Current Status, else last. */
  function PlaceAfter(ss: seq<Section>, status: string): (k: nat)
    ensures k <= |ss|
  {
    var from := if ss != [] && IsTitle(ss, 0) then 1 else 0;
    var i := M.FirstIndex(ss[from..], status);
    if i < |ss| - from then from + i + 1 else |ss|
  }

  /** `setMilestonesSection`. */
  function WithPlan(ss: seq<Section>, title: string, status: string, body: string): seq<Section> {
    var i := PlanIndex(ss, title);
    if i < |ss| then ss[i := ss[i].(body := body)] else M.Inserted(ss, PlaceAfter(ss, status), Section(2, title, body))
  }

  method SetMilestonesSection(ss: seq<Section>, title: string, status: string, body: string) returns (r: seq<Section>)
    ensures r == WithPlan(ss, title, status, body)
  {
    var i := 0;
    while i < |ss| && !(ss[i].title == title && ss[i].level == 2 && !IsTitle(ss, i))
      invariant i <= |ss| && forall j :: 0 <= j < i ==> !HoldsPlan(ss[j], title)
    {
      i := i + 1;
    }
    PlanIndexIs(ss, title, i);
    if i < |ss| { return ss[i := ss[i].(body := body)]; }
    var k := 0;
    while k < |ss| && !(ss[k].title == status && !IsTitle(ss, k))
      invariant k <= |ss| && forall j :: 0 <= j < k ==> !(ss[j].title == status && !IsTitle(ss, j))
    {
      k := k + 1;
    }
    PlaceIs(ss, status, k);
    var at := if k == |ss| then |ss| else k + 1;
    r := ss[..at] + [Section(2, title, body)] + ss[at..];
  }

  lemma PlanIndexIs(ss: seq<Section>, title: string, i: nat)
    requires i <= |ss| && (i < |ss| ==> HoldsPlan(ss[i], title)) && forall j :: 0 <= j < i ==> !HoldsPlan(ss[j], title)
    ensures PlanIndex(ss, title) == i
  {
  }

  lemma PlaceIs(ss: seq<Section>, status: string, k: nat)
    requires k <= |ss| && (k < |ss| ==> ss[k].title == status && !IsTitle(ss, k))
    requires forall j :: 0 <= j < k ==> !(ss[j].title == status && !IsTitle(ss, j))
    ensures PlaceAfter(ss, status) == if k == |ss| then |ss| else k + 1
  {
    var from := if ss != [] && IsTitle(ss, 0) then 1 else 0;
    var rest := ss[from..];
    if k >= from {
      forall j | 0 <= j < k - from ensures rest[j].title != status { assert rest[j] == ss[from + j]; }
      M.FirstIndexIs(rest, status, k - from);
    }
  }

  // ---- which sections the plan depends on ----------------------------------

  lemma {:induction false} BodiesConcat(a: seq<Section>, b: seq<Section>, title: string)
    ensures Bodies(a + b, title) == Bodies(a, title) + Bodies(b, title)
  {
    if a == [] {
      assert a + b == b;
    } else {
      assert (a + b)[1..] == a[1..] + b;
      BodiesConcat(a[1..], b, title);
    }
  }

  /** Sections of the known headings hold no plan. */
  lemma {:induction false} BodiesUnnamed(heads: seq<string>, ss: seq<Section>, title: string)
    requires !M.Known(heads, title)
    ensures Bodies(ss, title) == Bodies(M.Unnamed(heads, ss), title)
  {
    if ss != [] {
      BodiesUnnamed(heads, ss[1..], title);
      var first := if M.Known(heads, ss[0].title) then [] else [ss[0]];
      BodiesConcat(first, M.Unnamed(heads, ss[1..]), title);
      if first != [] { assert first[1..] == []; }
    }
  }

  lemma SameUnnamedSameBodies(heads: seq<string>, a: seq<Section>, b: seq<Section>, title: string)
    requires !M.Known(heads, title) && M.Unnamed(heads, a) == M.Unnamed(heads, b)
    ensures Bodies(a, title) == Bodies(b, title)
  {
    BodiesUnnamed(heads, a, title);
    BodiesUnnamed(heads, b, title);
  }

  lemma {:induction false} BodiesOfNone(ss: seq<Section>, title: string)
    requires forall j :: 0 <= j < |ss| ==> !HoldsPlan(ss[j], title)
    ensures Bodies(ss, title) == []
  {
    if ss != [] { BodiesOfNone(ss[1..], title); }
  }

  lemma BodiesAround(a: seq<Section>, s: Section, b: seq<Section>, title: string)
    ensures Bodies(a + [s] + b, title) == Bodies(a, title) + (if HoldsPlan(s, title) then [s.body] else []) + Bodies(b, title)
  {
    BodiesConcat(a + [s], b, title);
    BodiesConcat(a, [s], title);
    assert [s][1..] == [];
  }

  lemma BodiesReplaced(a: seq<Section>, was: Section, s: Section, b: seq<Section>, title: string)
    requires HoldsPlan(was, title) && HoldsPlan(s, title) && |Bodies(a + [was] + b, title)| <= 1
    ensures Bodies(a + [s] + b, title) == [s.body]
  {
    BodiesAround(a, was, b, title);
    BodiesAround(a, s, b, title);
    OnlyOne(Bodies(a, title), was.body, Bodies(b, title));
  }

  lemma UpdateIsAround(ss: seq<Section>, i: nat, s: Section)
    requires i < |ss|
    ensures ss == ss[..i] + [ss[i]] + ss[i + 1..] && ss[i := s] == ss[..i] + [s] + ss[i + 1..]
  {
  }

  lemma BodiesAdded(a: seq<Section>, s: Section, b: seq<Section>, title: string)
    requires HoldsPlan(s, title)
    requires (forall j :: 0 <= j < |a| ==> !HoldsPlan(a[j], title)) && forall j :: 0 <= j < |b| ==> !HoldsPlan(b[j], title)
    ensures Bodies(a + [s] + b, title) == [s.body]
  {
    BodiesOfNone(a, title);
    BodiesOfNone(b, title);
    BodiesAround(a, s, b, title);
  }

  /** In a document with at most one plan, the new one takes its place. */
  lemma WithPlanBodies(ss: seq<Section>, title: string, status: string, body: string)
    requires |Bodies(ss, title)| <= 1
    ensures Bodies(WithPlan(ss, title, status, body), title) == [body]
  {
    var i := PlanIndex(ss, title);
    if i < |ss| {
      var s := ss[i].(body := body);
      UpdateIsAround(ss, i, s);
      BodiesReplaced(ss[..i], ss[i], s, ss[i + 1..], title);
    } else {
      var at := PlaceAfter(ss, status);
      BodiesAdded(ss[..at], Section(2, title, body), ss[at..], title);
    }
  }

  lemma {:induction false} BodyOfFirst(ss: seq<Section>, t: string)
    ensures M.BodyOf(ss, t) == if ss == [] then "" else if ss[0].title == t then ss[0].body else M.BodyOf(ss[1..], t)
  {
    M.FirstIndexIs(ss, t, M.FirstIndex(ss, t));
  }

  /** A section of another title does not count. */
  lemma {:induction false} BodyOfAround(a: seq<Section>, s: Section, b: seq<Section>, t: string)
    requires s.title != t
    ensures M.BodyOf(a + [s] + b, t) == M.BodyOf(a + b, t)
    decreases |a|
  {
    BodyOfFirst(a + [s] + b, t);
    if a == [] {
      assert (a + [s] + b)[1..] == a + b;
    } else {
      BodyOfFirst(a + b, t);
      assert (a + [s] + b)[1..] == a[1..] + [s] + b && (a + b)[1..] == a[1..] + b;
      BodyOfAround(a[1..], s, b, t);
    }
  }

  /** Putting a plan in leaves the bodies of all other titles. */
  lemma WithPlanKeepsBodies(ss: seq<Section>, title: string, status: string, body: string, t: string)
    requires t != title
    ensures M.BodyOf(WithPlan(ss, title, status, body), t) == M.BodyOf(ss, t)
  {
    var i := PlanIndex(ss, title);
    if i < |ss| {
      var s := ss[i].(body := body);
      UpdateIsAround(ss, i, s);
      BodyOfAround(ss[..i], ss[i], ss[i + 1..], t);
      BodyOfAround(ss[..i], s, ss[i + 1..], t);
    } else {
      var at := PlaceAfter(ss, status);
      BodyOfAround(ss[..at], Section(2, title, body), ss[at..], t);
      assert ss[..at] + ss[at..] == ss;
    }
  }

  /** A new plan section stands right after Current Status, or last; all other sections stay as they were, in order. */
  lemma NewPlanPlace(ss: seq<Section>, title: string, status: string, body: string)
    requires forall j :: 0 <= j < |ss| ==> !HoldsPlan(ss[j], title)
    ensures var r := WithPlan(ss, title, status, body);
      && |r| == |ss| + 1
      && exists k :: 0 <= k <= |ss| && r[k] == Section(2, title, body) && r[..k] + r[k + 1..] == ss &&
           (if exists i :: IsStatus(ss, status, i) then k > 0 && IsStatus(ss, status, k - 1) && (forall i :: 0 <= i < k - 1 ==> !IsStatus(ss, status, i))
            else k == |ss|)
  {
    var r, k := WithPlan(ss, title, status, body), PlaceAfter(ss, status);
    PlaceIsAfterStatus(ss, status);
    assert r == ss[..k] + [Section(2, title, body)] + ss[k..];
    assert r[..k] == ss[..k] && r[k + 1..] == ss[k..] && ss[..k] + ss[k..] == ss;
  }

  /** Section i is the status section, not the title of the document. */
  predicate IsStatus(ss: seq<Section>, status: string, i: int) { 0 <= i < |ss| && !IsTitle(ss, i) && ss[i].title == status }

  lemma PlaceIsAfterStatus(ss: seq<Section>, status: string)
    ensures var k := PlaceAfter(ss, status);
      if exists i :: IsStatus(ss, status, i) then k > 0 && IsStatus(ss, status, k - 1) && (forall i :: 0 <= i < k - 1 ==> !IsStatus(ss, status, i))
      else k == |ss|
  {
    var from := if ss != [] && IsTitle(ss, 0) then 1 else 0;
    var i := M.FirstIndex(ss[from..], status);
    forall j | IsStatus(ss, status, j) ensures j >= from && ss[from..][j - from].title == status { }
    if i < |ss| - from { assert IsStatus(ss, status, from + i); }
  }

  lemma OnlyOne(a: seq<string>, x: string, b: seq<string>)
    requires |a + [x] + b| <= 1
    ensures a == [] && b == []
  {
  }

  // ---- documents stay well-formed ------------------------------------------

  lemma WithPlanOk(hd: Recogniser, ss: seq<Section>, title: string, status: string, body: string)
    requires Recognises(hd) && SectionsOk(hd, ss) && TitleOk(title) && BodyOk(hd, body)
    ensures SectionsOk(hd, WithPlan(ss, title, status, body))
  {
    var r, i := WithPlan(ss, title, status, body), PlanIndex(ss, title);
    if i < |ss| {
      assert SectionOk(hd, ss[i]);
    } else {
      var at, s := PlaceAfter(ss, status), Section(2, title, body);
      forall j | 0 <= j < |ss| + 1 ensures SectionOk(hd, M.Inserted(ss, at, s)[j]) { M.InsertedAt(ss, at, s, j); }
    }
  }

  lemma PlainStart(line: string)
    requires line != "" && line[0] != ' ' && line[0] != '#'
    ensures HeadingOf(line).None?
  {
    assert line[0..] == line;
  }

  /** Text whose lines all start with a dash or a letter n can stand in a document. */
  lemma PlainBody(body: string, lines: seq<string>)
    requires Split(body, '\n') == lines && '\r' !in body
    requires forall i :: 0 <= i < |lines| ==> lines[i] != "" && (lines[i][0] == '-' || lines[i][0] == 'n')
    ensures BodyOk(HeadingOf, body)
  {
    forall i | 0 <= i < |lines| ensures HeadingOf(lines[i]).None? { PlainStart(lines[i]); }
    if !NoOuterNewlines(body) { OuterNewline(body); }
  }

  /** A newline at either end of a text shows as an empty line. */
  lemma OuterNewline(body: string)
    requires !NoOuterNewlines(body)
    ensures "" in Split(body, '\n')
  {
    if body[0] == '\n' {
      assert Split(body, '\n')[0] == "";
    } else {
      var a := body[..|body| - 1];
      assert body == a + ['\n'] + "";
      SplitAt(a, '\n', "");
      assert Split(body, '\n')[|Split(a, '\n')|] == "";
    }
  }

  /** The text of a plan can stand in a document. */
  lemma PlanTextOk(p: Plan)
    requires ValidPlan(p)
    ensures BodyOk(HeadingOf, FormatPlan(p))
  {
    FormatIsPlain(p);
    if p.NoPlan? {
      NoneTextOk(p.reason);
    } else {
      LinesSplit(p.items);
      forall i | 0 <= i < |p.items| ensures Lines(p.items)[i] != "" && Lines(p.items)[i][0] == '-' { MilestoneLineStarts(p.items[i]); }
      PlainBody(FormatPlan(p), Lines(p.items));
    }
  }

  lemma NoneTextOk(reason: string)
    requires Safe(reason) && '\r' !in "none: " + reason
    ensures BodyOk(HeadingOf, "none: " + reason)
  {
    SafePlain(reason);
    var body := "none: " + reason;
    SplitPlain(body, '\n');
    assert body[0] == 'n';
    PlainBody(body, [body]);
  }

  // ---- a rolled document stays well-formed ---------------------------------

  ghost predicate RawEntries(hd: Recogniser, es: seq<string>) { forall i :: 0 <= i < |es| ==> RawOk(hd, es[i]) }

  ghost predicate SplitRaw(hd: Recogniser, p: L.Cutting) { RawEntries(hd, p.done) && (p.cur.Some? ==> PlainLines(hd, p.cur.value)) }

  lemma ClosedRaw(hd: Recogniser, p: L.Cutting)
    requires Recognises(hd) && SplitRaw(hd, p)
    ensures RawEntries(hd, p.done + L.Closed(p.cur))
  {
    if p.cur.Some? {
      JoinOfPlainLines(hd, p.cur.value);
      DropLastLines(hd, Join(p.cur.value, "\n"));
    }
  }

  lemma StepRaw(hd: Recogniser, p: L.Cutting, line: string)
    requires Recognises(hd) && SplitRaw(hd, p) && PlainLines(hd, [line])
    ensures SplitRaw(hd, L.LogStep(p, line))
  {
    ClosedRaw(hd, p);
    assert [line][0] == line;
  }

  lemma {:induction false} LogRunRaw(hd: Recogniser, p: L.Cutting, ls: seq<string>)
    requires Recognises(hd) && SplitRaw(hd, p) && PlainLines(hd, ls)
    ensures SplitRaw(hd, L.LogRun(p, ls))
    decreases |ls|
  {
    if ls != [] {
      StepRaw(hd, p, ls[0]);
      LogRunRaw(hd, L.LogStep(p, ls[0]), ls[1..]);
    }
  }

  lemma EntriesRaw(hd: Recogniser, body: string)
    requires Recognises(hd) && BodyOk(hd, body)
    ensures RawEntries(hd, L.SplitLog(body))
  {
    SplitMembers(body, '\n', '\r');
    LogRunRaw(hd, L.NOTHING, Split(body, '\n'));
    ClosedRaw(hd, L.LogRun(L.NOTHING, Split(body, '\n')));
  }

  lemma {:induction false} JoinRaw(hd: Recogniser, es: seq<string>)
    requires Recognises(hd) && RawEntries(hd, es)
    ensures RawOk(hd, Join(es, "\n"))
  {
    if es == [] {
      SplitPlain("", '\n');
    } else if |es| > 1 {
      JoinRaw(hd, es[1..]);
      R.JoinedRawOk(hd, es[0], Join(es[1..], "\n"));
    }
  }

  /** Rolling leaves a well-formed document well-formed. */
  lemma RolledOk(hd: Recogniser, heads: seq<string>, d: Doc, maxChars: nat, keep: int, o: L.Outcome)
    requires Recognises(hd) && DocOk(hd, d) && R.TitlesOk(heads) && L.IsOutcome(heads, d, maxChars, keep, o)
    ensures DocOk(hd, L.RolledOf(heads, d, o).doc)
  {
    if o.Kept? {
      var body := M.BodyOf(d.sections, heads[4]);
      R.BodyOfOk(hd, d.sections, heads[4]);
      EntriesRaw(hd, body);
      var es := L.SplitLog(body)[..o.k];
      JoinRaw(hd, es);
      R.EnsuredFromOk(hd, heads, d.sections, 0);
      R.WithBodyOk(hd, M.EnsuredFrom(heads, d.sections, 0), heads[4], Join(es, "\n"));
    }
  }

  // ---- the whole update ----------------------------------------------------

  /** The names a document goes by: its five known headings, and the title of its Milestones section. */
  datatype Names = Names(heads: seq<string>, title: string, status: string)

  const NAMES := Names(M.HEADINGS, MILESTONES_HEADING, STATUS_HEADING)

  ghost predicate NamesOk(n: Names) {
    M.HeadsOk(n.heads) && R.TitlesOk(n.heads) && !M.Known(n.heads, n.title) && TitleOk(n.title)
  }

  lemma NamesAreOk()
    ensures NamesOk(NAMES)
  {
    M.HeadingsOk();
    R.HeadingTitlesOk();
    assert MILESTONES_HEADING[0] == 'M' && forall k :: 0 <= k < |M.HEADINGS| ==> M.HEADINGS[k][0] != 'M';
  }

  /** A document with this plan put in. */
  function Planned(n: Names, m: Doc, p: Plan): Doc
    requires p.NoPlan? || p.Items?
  {
    Doc(m.preamble, WithPlan(m.sections, n.title, n.status, FormatPlan(p)))
  }

  /** This document with its milestones, when the plan of these bodies takes them. */
  function WithMilestones(looks: Looks, n: Names, m: Doc, bodies: seq<string>, plan: Option<PlanInput>): Option<Doc> {
    if plan.None? then Some(m)
    else
      var p := Replaced(looks, PlanOf(bodies), plan.value);
      if p.None? || !(p.value.NoPlan? || p.value.Items?) then None else Some(Planned(n, m, p.value))
  }

  /** The document a hosted update prints, before its size is checked; None when its milestones are refused. */
  function Updated(looks: Looks, n: Names, head: string, u: M.Update, date: string, plan: Option<PlanInput>): Option<Doc>
    requires |n.heads| == 5
  {
    var merged := M.MergeIn(n.heads, ParseDoc(head), u, date);
    WithMilestones(looks, n, merged, BodiesOf(Serialize(merged), n.title), plan)
  }

  predicate HeadOk(head: string, u: M.Update, date: string) { '\r' !in head && R.UpdateOk(u) && M.IsDate(date) }

  /** A well-formed document says of its sections, once printed and read, what they say. */
  lemma PrintedBodies(d: Doc, title: string)
    requires DocOk(HeadingOf, d)
    ensures ParseDoc(Serialize(d)) == d && BodiesOf(Serialize(d), title) == Bodies(d.sections, title)
  {
    PrintThenParse(d);
  }

  /** Merging leaves the Milestones section, and the document reads back. */
  lemma MergedSame(n: Names, head: string, u: M.Update, date: string)
    requires NamesOk(n) && HeadOk(head, u, date)
    ensures var m := M.MergeIn(n.heads, ParseDoc(head), u, date);
      DocOk(HeadingOf, m) && Bodies(m.sections, n.title) == BodiesOf(head, n.title) == BodiesOf(Serialize(m), n.title)
  {
    var d := ParseDoc(head);
    var m := M.MergeIn(n.heads, d, u, date);
    ParsePrintParse(head);
    R.MergedOk(n.heads, d, u, date);
    PrintedBodies(m, n.title);
    M.MergeKeepsSections(n.heads, text => M.DatedBullet(date, text), d.sections, u);
    SameUnnamedSameBodies(n.heads, d.sections, m.sections, n.title);
  }

  /** Rolling leaves the Milestones section and a well-formed document. */
  lemma RolledBodies(n: Names, d: Doc, maxChars: nat, keep: int, o: L.Outcome)
    requires NamesOk(n) && DocOk(HeadingOf, d) && L.IsOutcome(n.heads, d, maxChars, keep, o)
    ensures var r := L.RolledOf(n.heads, d, o).doc; DocOk(HeadingOf, r) && Bodies(r.sections, n.title) == Bodies(d.sections, n.title)
  {
    var r := L.RolledOf(n.heads, d, o).doc;
    HeadingOfRecognises();
    RolledOk(HeadingOf, n.heads, d, maxChars, keep, o);
    L.RollKeepsTheRest(n.heads, d, maxChars, keep, o, "");
    SameUnnamedSameBodies(n.heads, r.sections, d.sections, n.title);
  }

  /** The same readable plan again is always accepted. */
  lemma SameAccepted(looks: Looks, bodies: seq<string>)
    ensures Accepted(looks, Some(bodies), bodies, None)
  {
  }

  /** A replacement is always accepted: it keeps the passes, and new text was checked for looking like one. */
  lemma ReplacedAccepted(looks: Looks, before: seq<string>, after: seq<string>, incoming: PlanInput)
    requires Replaced(looks, PlanOf(before), incoming) == Some(PlanOf(after)) && !PlanOf(after).Malformed?
    ensures Accepted(looks, Some(before), after, None)
  {
    PlanReadable(before);
    ReplacedKeeps(looks, PlanOf(before), incoming);
    ReplacedClean(looks, PlanOf(before), incoming);
  }

  lemma OpenedClean(looks: Looks, was: seq<Milestone>, ps: seq<Proposal>, next: nat, i: nat)
    requires AllOk(looks, ps) && i < |ps|
    ensures CleanAt(looks, was, Opened(ps, next)[i])
  {
    assert ProposalOk(looks, ps[i]) && Opened(ps, next)[i] == OpenedAt(ps, next, i);
  }

  lemma CleanConcat(looks: Looks, was: seq<Milestone>, passed: seq<Milestone>, open: seq<Milestone>)
    requires (forall i :: 0 <= i < |passed| ==> passed[i].PassedM?) && forall i :: 0 <= i < |open| ==> CleanAt(looks, was, open[i])
    ensures forall i :: 0 <= i < |passed + open| ==> CleanAt(looks, was, (passed + open)[i])
  {
  }

  lemma ReplacedClean(looks: Looks, current: Plan, incoming: PlanInput)
    requires Readable(current) && Replaced(looks, current, incoming).Some?
    ensures NewOpenClean(looks, current, Replaced(looks, current, incoming).value)
  {
    if incoming.ItemsInput? {
      var passed, ps := Passed(current), incoming.items;
      var next := NextFree(Ids(passed), ps);
      PassedOk(current);
      ReplacedItems(looks, current, ps);
      AcceptedClean(looks, ItemsOf(current), passed, ps, next);
    }
  }

  lemma AcceptedClean(looks: Looks, was: seq<Milestone>, passed: seq<Milestone>, ps: seq<Proposal>, next: nat)
    requires AllOk(looks, ps) && forall i :: 0 <= i < |passed| ==> passed[i].PassedM?
    ensures NewOpenCleanItems(looks, was, passed + Opened(ps, next))
  {
    var open := Opened(ps, next);
    forall i | 0 <= i < |open| ensures CleanAt(looks, was, open[i]) { OpenedClean(looks, was, ps, next, i); }
    CleanConcat(looks, was, passed, open);
  }

  lemma PlannedOk(n: Names, m: Doc, p: Plan)
    requires DocOk(HeadingOf, m) && ValidPlan(p) && TitleOk(n.title)
    ensures DocOk(HeadingOf, Planned(n, m, p))
  {
    PlanTextOk(p);
    HeadingOfRecognises();
    WithPlanOk(HeadingOf, m.sections, n.title, n.status, FormatPlan(p));
  }

  lemma PlannedPlan(n: Names, m: Doc, p: Plan)
    requires ValidPlan(p) && |Bodies(m.sections, n.title)| <= 1
    ensures PlanOf(Bodies(Planned(n, m, p).sections, n.title)) == p
  {
    WithPlanBodies(m.sections, n.title, n.status, FormatPlan(p));
    PrintThenParsePlan(p);
  }

  /** What a document says of its plan and its passes after an update, by the bodies before and after. */
  predicate ReadsBack(looks: Looks, before: seq<string>, plan: Option<PlanInput>, after: seq<string>) {
    && (plan.None? ==> after == before)
    && (plan.Some? ==> Some(PlanOf(after)) == Replaced(looks, PlanOf(before), plan.value))
    && Accepted(looks, Some(before), after, None)
  }

  lemma ReplacedPlan(looks: Looks, bodies: seq<string>, input: PlanInput)
    requires Replaced(looks, PlanOf(bodies), input).Some?
    ensures ValidPlan(Replaced(looks, PlanOf(bodies), input).value) && |bodies| <= 1
  {
    PlanReadable(bodies);
    ReplacedKeeps(looks, PlanOf(bodies), input);
  }

  /** The merged document, with a plan or without. */
  lemma UpdatedOk(looks: Looks, n: Names, m: Doc, before: seq<string>, plan: Option<PlanInput>)
    requires NamesOk(n) && DocOk(HeadingOf, m) && Bodies(m.sections, n.title) == before && WithMilestones(looks, n, m, before, plan).Some?
    ensures var d := WithMilestones(looks, n, m, before, plan).value;
      DocOk(HeadingOf, d) && ReadsBack(looks, before, plan, Bodies(d.sections, n.title))
  {
    if plan.None? {
      SameAccepted(looks, before);
    } else {
      ReplacedPlan(looks, before, plan.value);
      var p := Replaced(looks, PlanOf(before), plan.value).value;
      PlannedOk(n, m, p);
      PlannedPlan(n, m, p);
      ReplacedAccepted(looks, before, Bodies(Planned(n, m, p).sections, n.title), plan.value);
    }
  }

  /** The updated document, before it is rolled. */
  lemma UpdatedReads(looks: Looks, n: Names, head: string, u: M.Update, date: string, plan: Option<PlanInput>)
    requires NamesOk(n) && HeadOk(head, u, date) && Updated(looks, n, head, u, date, plan).Some?
    ensures var d := Updated(looks, n, head, u, date, plan).value;
      DocOk(HeadingOf, d) && ReadsBack(looks, BodiesOf(head, n.title), plan, Bodies(d.sections, n.title))
  {
    MergedSame(n, head, u, date);
    UpdatedOk(looks, n, M.MergeIn(n.heads, ParseDoc(head), u, date), BodiesOf(head, n.title), plan);
  }

  /**
   * What a hosted update leaves reads back as it was meant: without milestones
   * the plan is untouched, with them it is exactly the replacement; and the
   * write gate accepts it. It holds for all names like `NAMES`.
   */
  lemma UpdateReadsBack(looks: Looks, n: Names, head: string, u: M.Update, date: string, plan: Option<PlanInput>, maxChars: nat, keep: int, o: L.Outcome)
    requires NamesOk(n) && HeadOk(head, u, date) && Updated(looks, n, head, u, date, plan).Some?
    requires L.IsOutcome(n.heads, Updated(looks, n, head, u, date, plan).value, maxChars, keep, o)
    ensures var r := L.RolledOf(n.heads, Updated(looks, n, head, u, date, plan).value, o).doc;
      ParseDoc(Serialize(r)) == r && ReadsBack(looks, BodiesOf(head, n.title), plan, BodiesOf(Serialize(r), n.title))
  {
    var d := Updated(looks, n, head, u, date, plan).value;
    UpdatedReads(looks, n, head, u, date, plan);
    RolledBodies(n, d, maxChars, keep, o);
    PrintedBodies(L.RolledOf(n.heads, d, o).doc, n.title);
  }
}
