/**
 * What one hosted update makes of the stored text of a project: the new
 * document, and the archive memory of the Log entries that left it, which
 * reads back as exactly these entries.
 */
module HostedTexts {
  import opened Options
  import opened Text
  import opened Headings
  import opened ProjectDoc
  import opened ProjectLog
  import opened ProjectHistory
  import M = ProjectMerge
  import U = ProjectUpdate
  import MilestoneGate
  import MilestoneMoves
  import MilestonePlan

  // ---- the archive memory --------------------------------------------------

  const ARCHIVE_RULE :=
    " out of the live project" + " document, which keeps" + " only its newest entries."
    + " Oldest first. Read with" + " project_get history, or" + " search this scope."

  function ArchiveTitle(project: string): string { "## Log archive: " + project }

  function ArchiveNote(day: string): string { "Rolled " + day + ARCHIVE_RULE }

  /** Everything above the entries, but the last newline. */
  function ArchiveHeader(project: string, day: string): string {
    ArchiveTitle(project) + "\n" + ("" + "\n" + (ArchiveNote(day) + "\n" + ""))
  }

  /** `formatLogArchive`. */
  function FormatLogArchive(project: string, day: string, archived: seq<string>): string {
    ArchiveHeader(project, day) + "\n" + Join(archived, "\n")
  }

  /** The entries of an archive memory: its text cut as a Log is, without what stands above the first bullet. */
  function ArchiveEntries(text: string): seq<string> {
    var es := SplitLog(text);
    if es == [] then [] else es[1..]
  }

  lemma FourLines(a: string, c: string)
    requires '\n' !in a && '\n' !in c
    ensures Split(a + "\n" + ("" + "\n" + (c + "\n" + "")), '\n') == [a, "", c, ""]
  {
    SplitPlain(a, '\n');
    SplitPlain(c, '\n');
    SplitEntryThen(a, "" + "\n" + (c + "\n" + ""));
    SplitEntryThen("", c + "\n" + "");
    SplitEntryThen(c, "");
    assert [a] + ([""] + ([c] + [""])) == [a, "", c, ""];
  }

  lemma HeaderLines(project: string, day: string)
    requires '\n' !in project && '\n' !in day
    ensures Split(ArchiveHeader(project, day), '\n') == [ArchiveTitle(project), "", ArchiveNote(day), ""]
  {
    RuleIsOneLine();
    FourLines(ArchiveTitle(project), ArchiveNote(day));
  }

  lemma RuleIsOneLine()
    ensures '\n' !in ARCHIVE_RULE
  {
    assert '\n' !in " out of the live project" && '\n' !in " document, which keeps" && '\n' !in " only its newest entries.";
    assert '\n' !in " Oldest first. Read with" && '\n' !in " project_get history, or" && '\n' !in " search this scope.";
  }

  lemma HeaderIsOneEntry(project: string, day: string)
    requires '\n' !in project && '\n' !in day
    ensures var p := LogRun(NOTHING, Split(ArchiveHeader(project, day), '\n')); p.done == [] && |Closed(p.cur)| == 1
  {
    var title, note := ArchiveTitle(project), ArchiveNote(day);
    var ls := [title, "", note, ""];
    HeaderLines(project, day);
    assert title[0] == '#' && note[0] == 'R';
    assert TrimLeft(title) == title;
    TrimRightKeepsFront(title);
    LogRunEntry(NOTHING, ls, true);
  }

  /** Under any lines, a Log that starts with a bullet gives its entries after theirs. */
  lemma SplitUnder(top: string, body: string)
    requires IsBullet(body)
    ensures SplitLog(top + "\n" + body) == SplitLog(top) + SplitLog(body)
  {
    var rest := Split(body, '\n');
    var p, q := LogRun(NOTHING, Split(top, '\n')), LogRun(NOTHING, rest);
    SplitEntryThen(top, body);
    LogRunConcat(NOTHING, Split(top, '\n'), rest);
    BulletFirstLine(body);
    FirstBulletCloses(p, rest);
    Associated(SplitLog(top), q.done, Closed(q.cur));
  }

  /** An archive memory reads back as the entries it was written from. */
  lemma ArchiveReadsBack(project: string, day: string, archived: seq<string>)
    requires '\n' !in project && '\n' !in day && archived != [] && EntriesOk(archived, false)
    ensures ArchiveEntries(FormatLogArchive(project, day, archived)) == archived
  {
    forall i | 0 <= i < |archived| ensures EntryOk(archived[i], true && i == 0) { assert EntryOk(archived[i], false && i == 0); }
    SplitJoined(archived);
    assert EntryOk(archived[0], false && 0 == 0);
    EntryStarts(archived[0]);
    JoinStarts(archived);
    HeaderIsOneEntry(project, day);
    SplitUnder(ArchiveHeader(project, day), Join(archived, "\n"));
  }

  // ---- one hosted update ---------------------------------------------------

  /** What an update came from: the project's name, its texts, the dates of its stamp and its archive, and the roll. */
  datatype Build = Build(project: string, update: M.Update, date: string, day: string, plan: Option<MilestoneMoves.PlanInput>, outcome: Outcome)

  /** The plan a hosted update puts in over these bodies, when it takes one. */
  function PlanOfUpdate(looks: MilestoneMoves.Looks, n: U.Names, bodies: seq<string>, plan: Option<MilestoneMoves.PlanInput>): Option<PlanText> {
    if plan.None? then None
    else
      var p := MilestoneMoves.Replaced(looks, MilestoneGate.PlanOf(bodies), plan.value);
      if p.None? || !(p.value.NoPlan? || p.value.Items?) then None
      else Some(PlanText(n.title, n.status, MilestonePlan.FormatPlan(p.value)))
  }

  function MergedBy(n: U.Names, head: string, b: Build): Doc
    requires |n.heads| == 5
  {
    M.MergeIn(n.heads, ParseDoc(head), b.update, b.date)
  }

  /** A hosted update of this head as a write of the history. */
  function WriteOf(looks: MilestoneMoves.Looks, n: U.Names, head: string, b: Build): Write
    requires |n.heads| == 5
  {
    Write(b.update, text => M.DatedBullet(b.date, text), PlanOfUpdate(looks, n, U.BodiesOf(Serialize(MergedBy(n, head, b)), n.title), b.plan), b.outcome)
  }

  lemma PlannedIs(looks: MilestoneMoves.Looks, n: U.Names, m: Doc, bodies: seq<string>, plan: Option<MilestoneMoves.PlanInput>)
    requires U.WithMilestones(looks, n, m, bodies, plan).Some?
    ensures U.WithMilestones(looks, n, m, bodies, plan).value == Doc(m.preamble, Planned(m.sections, PlanOfUpdate(looks, n, bodies, plan)))
    ensures var p := PlanOfUpdate(looks, n, bodies, plan); p.Some? ==> p.value.title == n.title
  {
  }

  lemma DatedWrites(date: string, u: M.Update, plan: Option<PlanText>, o: Outcome)
    requires M.IsDate(date)
    ensures WritesBullet(Write(u, text => M.DatedBullet(date, text), plan, o))
  {
    M.DatedBullets(date);
  }

  lemma MergedIs(n: U.Names, head: string, b: Build, plan: Option<PlanText>)
    requires |n.heads| == 5
    ensures var m := MergedBy(n, head, b);
      Doc(m.preamble, Planned(m.sections, plan)) == MergedDoc(n.heads, ParseDoc(head), Write(b.update, text => M.DatedBullet(b.date, text), plan, b.outcome))
  {
  }

  /** What a hosted update builds before the roll is what its write makes of the head. */
  lemma UpdatedIsWrite(looks: MilestoneMoves.Looks, n: U.Names, head: string, b: Build)
    requires U.NamesOk(n) && M.IsDate(b.date) && U.Updated(looks, n, head, b.update, b.date, b.plan).Some?
    ensures var w := WriteOf(looks, n, head, b);
      WriteOk(n.heads, w) && U.Updated(looks, n, head, b.update, b.date, b.plan).value == MergedDoc(n.heads, ParseDoc(head), w)
  {
    var bodies := U.BodiesOf(Serialize(MergedBy(n, head, b)), n.title);
    var plan := PlanOfUpdate(looks, n, bodies, b.plan);
    PlannedIs(looks, n, MergedBy(n, head, b), bodies, b.plan);
    DatedWrites(b.date, b.update, plan, b.outcome);
    MergedIs(n, head, b, plan);
  }

  function ArchiveOf(b: Build, archived: seq<string>): Option<string> {
    if archived == [] then None else Some(FormatLogArchive(b.project, b.day, archived))
  }

  /** The entries the archive memory beside a document holds. */
  function EntriesIn(archive: Option<string>): seq<string> { if archive.None? then [] else ArchiveEntries(archive.value) }

  /** The text and the archive are what a hosted update builds from this head. */
  predicate Built(looks: MilestoneMoves.Looks, n: U.Names, head: string, b: Build, text: string, archive: Option<string>)
    requires |n.heads| == 5
  {
    && U.HeadOk(head, b.update, b.date) && '\n' !in b.project && '\n' !in b.day
    && U.Updated(looks, n, head, b.update, b.date, b.plan).Some?
    && var d := U.Updated(looks, n, head, b.update, b.date, b.plan).value;
       && IsOutcome(n.heads, d, PROJECT_DOC_MAX_CHARS, PROJECT_LOG_KEEP_ENTRIES, b.outcome)
       && var r := RolledOf(n.heads, d, b.outcome);
          text == Serialize(r.doc) && |text| <= PROJECT_DOC_MAX_CHARS && archive == ArchiveOf(b, r.archived)
  }

  lemma RolledEntriesOk(heads: seq<string>, d: Doc, maxChars: nat, keep: int, o: Outcome)
    requires |heads| == 5 && IsOutcome(heads, d, maxChars, keep, o)
    ensures EntriesOk(RolledOf(heads, d, o).archived, false)
  {
    if o.Kept? {
      var es := SplitLog(LogBody(heads, d));
      SplitIsOk(LogBody(heads, d));
      forall i | 0 <= i < |es[o.k..]| ensures EntryOk(Reversed(es[o.k..])[i], false && i == 0) {
        var j := |es| - 1 - i;
        assert EntryOk(es[j], true && j == 0);
      }
    }
  }

  /** The archive beside the document holds exactly the entries that left it. */
  lemma ArchiveIsRolled(b: Build, archived: seq<string>)
    requires '\n' !in b.project && '\n' !in b.day && EntriesOk(archived, false)
    ensures EntriesIn(ArchiveOf(b, archived)) == archived
  {
    if archived != [] { ArchiveReadsBack(b.project, b.day, archived); }
  }

  /** A built text and its archive are one write of the history, on the stored texts as they read. */
  lemma BuiltWrote(looks: MilestoneMoves.Looks, n: U.Names, head: string, b: Build, text: string, archive: Option<string>, past: seq<string>)
    requires U.NamesOk(n) && Built(looks, n, head, b, text, archive)
    ensures var w := WriteOf(looks, n, head, b);
      && WriteOk(n.heads, w)
      && Wrote(n.heads, PROJECT_DOC_MAX_CHARS, PROJECT_LOG_KEEP_ENTRIES, Hist(ParseDoc(head), past), w, Hist(ParseDoc(text), past + EntriesIn(archive)))
  {
    var d := U.Updated(looks, n, head, b.update, b.date, b.plan).value;
    UpdatedIsWrite(looks, n, head, b);
    U.UpdateReadsBack(looks, n, head, b.update, b.date, b.plan, PROJECT_DOC_MAX_CHARS, PROJECT_LOG_KEEP_ENTRIES, b.outcome);
    RolledEntriesOk(n.heads, d, PROJECT_DOC_MAX_CHARS, PROJECT_LOG_KEEP_ENTRIES, b.outcome);
    ArchiveIsRolled(b, RolledOf(n.heads, d, b.outcome).archived);
  }
}
