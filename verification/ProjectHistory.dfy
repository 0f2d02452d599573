/**
 * The Log over a run of updates: every entry ever written is in the Log or in
 * an archive, once, in order.
 */
module ProjectHistory {
  import opened Options
  import opened Text
  import opened Headings
  import opened ProjectDoc
  import opened ProjectMerge
  import opened ProjectLog
  import U = ProjectUpdate

  /** A Log whose first line is a bullet, or an empty one. */
  predicate LogOk(body: string) { NoOuterNewlines(body) && (body == "" || IsBullet(body)) }

  lemma {:induction false} BulletFirstLine(s: string)
    requires IsBullet(s)
    ensures IsBullet(Split(s, '\n')[0])
  {
    var t := Split(s[2..], '\n');
    assert s[1..][1..] == s[2..];
    assert Split(s[1..], '\n')[0] == [s[1]] + t[0];
    assert Split(s, '\n')[0] == [s[0]] + ([s[1]] + t[0]);
  }

  lemma {:induction false} DonePrefix(a: seq<string>, p: Cutting, ls: seq<string>)
    ensures LogRun(Cutting(a + p.done, p.cur), ls) == LogRun(p, ls).(done := a + LogRun(p, ls).done)
    decreases |ls|
  {
    if ls != [] {
      var q := LogStep(p, ls[0]);
      assert a + p.done + Closed(p.cur) == a + (p.done + Closed(p.cur));
      DonePrefix(a, q, ls[1..]);
    }
  }

  lemma {:induction false} CurStays(p: Cutting, ls: seq<string>)
    requires p.cur.Some? && p.cur.value != []
    ensures LogRun(p, ls).cur.Some? && LogRun(p, ls).cur.value != []
    decreases |ls|
  {
    if ls != [] { CurStays(LogStep(p, ls[0]), ls[1..]); }
  }

  /** The entries of a written bullet: the last one is open. */
  lemma BulletOpens(line: string) returns (p: Cutting)
    requires IsBullet(line)
    ensures p == LogRun(NOTHING, Split(line, '\n')) && p.cur.Some? && p.cur.value != []
  {
    var ls := Split(line, '\n');
    p := LogRun(NOTHING, ls);
    BulletFirstLine(line);
    CurStays(LogStep(NOTHING, ls[0]), ls[1..]);
  }

  /** Reading a Log with a bullet written above it goes on from the bullet's lines. */
  lemma AboveRun(line: string, body: string) returns (p: Cutting)
    requires IsBullet(line) && body != ""
    ensures p == LogRun(NOTHING, Split(line, '\n')) && p.cur.Some? && p.cur.value != []
    ensures var q := LogRun(p, Split(body, '\n')); SplitLog(Above(body, line)) == q.done + Closed(q.cur)
  {
    p := BulletOpens(line);
    SplitEntryThen(line, body);
    LogRunConcat(NOTHING, Split(line, '\n'), Split(body, '\n'));
  }

  lemma FirstBulletCloses(p: Cutting, rest: seq<string>)
    requires rest != [] && IsBullet(rest[0])
    ensures LogRun(p, rest) == LogRun(NOTHING, rest).(done := p.done + Closed(p.cur) + LogRun(NOTHING, rest).done)
  {
    var q := Cutting([], Some([rest[0]]));
    assert LogStep(NOTHING, rest[0]) == q;
    assert LogStep(p, rest[0]) == Cutting(p.done + Closed(p.cur) + q.done, q.cur);
    DonePrefix(p.done + Closed(p.cur), q, rest[1..]);
  }

  lemma EmptyLog()
    ensures SplitLog("") == []
  {
    assert Split("", '\n') == [""] && !IsBullet("") && Trim("") == "";
    LogRunOne(NOTHING, "");
  }

  lemma BulletAboveBullet(line: string, body: string)
    requires IsBullet(line) && IsBullet(body)
    ensures SplitLog(Above(body, line)) == SplitLog(line) + SplitLog(body)
  {
    var rest := Split(body, '\n');
    var p := AboveRun(line, body);
    BulletFirstLine(body);
    FirstBulletCloses(p, rest);
    var q := LogRun(NOTHING, rest);
    Associated(SplitLog(line), q.done, Closed(q.cur));
  }

  lemma Associated(a: seq<string>, b: seq<string>, c: seq<string>)
    ensures a + b + c == a + (b + c)
  {
  }

  /** Above a Log that starts with a bullet, a new bullet adds its own entries in front. */
  lemma BulletAbove(line: string, body: string)
    requires IsBullet(line) && LogOk(body)
    ensures SplitLog(Above(body, line)) == SplitLog(line) + SplitLog(body)
  {
    if body == "" { EmptyLog(); } else { BulletAboveBullet(line, body); }
  }

  lemma {:induction false} DropLastKeepsPrefix(x: string, s: string)
    requires x != "" && x[|x| - 1] != '\n' && x <= s
    ensures x <= DropLast(s)
  {
    if s[|s| - 1] == '\n' { DropLastKeepsPrefix(x, s[..|s| - 1]); }
  }

  /** The open entry keeps what it has: the entry it ends up as starts with it. */
  lemma {:induction false} OpenEntryKeeps(p: Cutting, ls: seq<string>, x: string)
    requires p.cur.Some? && p.cur.value != [] && x != "" && x[|x| - 1] != '\n' && x <= Join(p.cur.value, "\n")
    ensures var q := LogRun(p, ls);
      var es := q.done + Closed(q.cur);
      |p.done| < |es| && x <= es[|p.done|]
    decreases |ls|
  {
    if ls == [] {
      DropLastKeepsPrefix(x, Join(p.cur.value, "\n"));
    } else if IsBullet(ls[0]) {
      DropLastKeepsPrefix(x, Join(p.cur.value, "\n"));
      var e, q := Closed(p.cur), Cutting([], Some([ls[0]]));
      assert LogStep(p, ls[0]) == Cutting(p.done + e + q.done, q.cur);
      DonePrefix(p.done + e, q, ls[1..]);
    } else {
      JoinSnoc(p.cur.value, ls[0], "\n");
      OpenEntryKeeps(LogStep(p, ls[0]), ls[1..], x);
    }
  }

  /** The first line of a text, which is not empty when the text does not start with a newline. */
  lemma FirstLine(s: string)
    requires s != "" && s[0] != '\n'
    ensures var l := Split(s, '\n')[0]; l != "" && l <= s && '\n' !in l
  {
    JoinSplit(s, '\n');
    var ls := Split(s, '\n');
    if |ls| > 1 { assert s == ls[0] + "\n" + Join(ls[1..], "\n"); }
  }

  lemma DropLastShorter(s: string)
    ensures |DropLast(s)| <= |s|
  {
  }

  /** Above any other Log the bullet's last entry takes the first line in, and is longer than it was written. */
  lemma LooseLineJoins(line: string, body: string)
    requires IsBullet(line) && NoOuterNewlines(body) && !LogOk(body)
    ensures SplitLog(Above(body, line)) != SplitLog(line) + SplitLog(body)
  {
    var rest := Split(body, '\n');
    FirstLine(body);
    assert !IsBullet(rest[0]);
    var p := AboveRun(line, body);
    var q := LogStep(p, rest[0]);
    JoinSnoc(p.cur.value, rest[0], "\n");
    var x := Join(q.cur.value, "\n");
    assert x == Join(p.cur.value, "\n") + "\n" + rest[0];
    OpenEntryKeeps(q, rest[1..], x);
    DropLastShorter(Join(p.cur.value, "\n"));
    assert SplitLog(line)[|p.done|] == DropLast(Join(p.cur.value, "\n"));
  }

  /**
   * A bullet written above a Log adds its own entries in front and leaves the
   * old ones exactly when the Log is empty or starts with a bullet.
   */
  lemma NewEntriesOnTopIff(line: string, body: string)
    requires IsBullet(line) && NoOuterNewlines(body)
    ensures SplitLog(Above(body, line)) == SplitLog(line) + SplitLog(body) <==> LogOk(body)
  {
    if LogOk(body) { BulletAbove(line, body); } else { LooseLineJoins(line, body); }
  }

  /** The same for a bullet that is one entry. */
  lemma NewEntryOnTop(line: string, body: string)
    requires EntryOk(line, false) && NoOuterNewlines(body)
    ensures SplitLog(Above(body, line)) == [line] + SplitLog(body) <==> LogOk(body)
  {
    EntryStarts(line);
    SplitJoined([line]);
    NewEntriesOnTopIff(line, body);
  }

  lemma JoinStarts(es: seq<string>)
    requires es != [] && IsBullet(es[0])
    ensures IsBullet(Join(es, "\n"))
  {
  }

  // ---- a run of updates ----------------------------------------------------

  /** The live document and everything archived so far, oldest first. */
  datatype Hist = Hist(doc: Doc, archive: seq<string>)

  /** The text of a plan, and where it goes: into the section of this title, or a new one after `status`. */
  datatype PlanText = PlanText(title: string, status: string, body: string)

  /** One hosted update: the merge, the plan if there is one, then the roll. `bullet` is how it writes an entry: dated with its day. */
  datatype Write = Write(update: Update, bullet: string -> string, plan: Option<PlanText>, outcome: Outcome)

  function Planned(ss: seq<Section>, plan: Option<PlanText>): seq<Section> {
    if plan.None? then ss else U.WithPlan(ss, plan.value.title, plan.value.status, plan.value.body)
  }

  function MergedDoc(heads: seq<string>, d: Doc, w: Write): Doc
    requires |heads| == 5
  {
    Doc(d.preamble, Planned(MergedSections(heads, w.bullet, d.sections, w.update), w.plan))
  }

  function LogBody(heads: seq<string>, d: Doc): string
    requires |heads| == 5
  {
    BodyOf(d.sections, heads[4])
  }

  function LineOf(w: Write): string { if w.update.logEntry.Some? then w.bullet(w.update.logEntry.value) else "" }

  /** The entries it writes: none without a log entry, more than one when later lines of it are bullets too. */
  function Entries(w: Write): seq<string> { if w.update.logEntry.Some? then SplitLog(LineOf(w)) else [] }

  /** Its way of writing an entry yields a bullet. */
  ghost predicate WritesBullet(w: Write) { Bullets(w.bullet) && (w.update.logEntry.Some? ==> IsBullet(LineOf(w))) }

  /** ... and its plan goes into no known section. */
  ghost predicate WriteOk(heads: seq<string>, w: Write) {
    WritesBullet(w) && (w.plan.Some? ==> !Known(heads, w.plan.value.title))
  }

  predicate Wrote(heads: seq<string>, maxChars: nat, keep: int, h: Hist, w: Write, next: Hist)
    requires |heads| == 5
  {
    && IsOutcome(heads, MergedDoc(heads, h.doc, w), maxChars, keep, w.outcome)
    && var r := RolledOf(heads, MergedDoc(heads, h.doc, w), w.outcome);
       next == Hist(r.doc, h.archive + r.archived)
  }

  ghost predicate WroteAt(heads: seq<string>, maxChars: nat, keep: int, hs: seq<Hist>, ws: seq<Write>, i: nat)
    requires |heads| == 5 && |hs| == |ws| + 1 && i < |ws|
  {
    WriteOk(heads, ws[i]) && Wrote(heads, maxChars, keep, hs[i], ws[i], hs[i + 1])
  }

  ghost predicate WroteAll(heads: seq<string>, maxChars: nat, keep: int, hs: seq<Hist>, ws: seq<Write>)
    requires |heads| == 5
  {
    |hs| == |ws| + 1 && forall i :: 0 <= i < |ws| ==> WroteAt(heads, maxChars, keep, hs, ws, i)
  }

  /** The entries of these writes, newest first. */
  function Newest(ws: seq<Write>): seq<string> {
    if ws == [] then [] else Entries(ws[|ws| - 1]) + Newest(ws[..|ws| - 1])
  }

  /** All entries, newest first: the Log, then the archive backwards. */
  function History(heads: seq<string>, h: Hist): seq<string>
    requires |heads| == 5
  {
    SplitLog(LogBody(heads, h.doc)) + Reversed(h.archive)
  }

  lemma MergedLog(heads: seq<string>, d: Doc, w: Write)
    requires HeadsOk(heads) && WriteOk(heads, w) && NoOuterNewlines(LogBody(heads, d))
    ensures LogBody(heads, MergedDoc(heads, d, w)) ==
            if w.update.logEntry.Some? then Above(LogBody(heads, d), LineOf(w)) else LogBody(heads, d)
  {
    MergeBodies(heads, w.bullet, d.sections, w.update, heads[4]);
    if w.plan.Some? {
      HeadIndex(heads, 4);
      U.WithPlanKeepsBodies(MergedSections(heads, w.bullet, d.sections, w.update), w.plan.value.title, w.plan.value.status, w.plan.value.body, heads[4]);
    }
    assert heads[4] != heads[0] && heads[4] != heads[1] && heads[4] != heads[2] && heads[4] != heads[3];
  }

  /** Rolling leaves a trimmed Log, and one that starts with a bullet when it did. */
  lemma RolledLogOk(heads: seq<string>, d: Doc, maxChars: nat, keep: int, o: Outcome)
    requires HeadsOk(heads) && NoOuterNewlines(LogBody(heads, d)) && IsOutcome(heads, d, maxChars, keep, o)
    ensures NoOuterNewlines(LogBody(heads, RolledOf(heads, d, o).doc))
    ensures LogOk(LogBody(heads, d)) ==> LogOk(LogBody(heads, RolledOf(heads, d, o).doc))
  {
    if o.Kept? {
      var body := LogBody(heads, d);
      var es := SplitLog(body);
      SplitIsOk(body);
      PrefixOk(es, o.k);
      EntriesJoinTrimmed(es[..o.k], true);
      KeptBody(heads, d, Join(es[..o.k], "\n"));
      if LogOk(body) {
        FirstEntryBullet(body);
        JoinStarts(es[..o.k]);
      }
    }
  }

  lemma DropLastKeepsBullet(s: string)
    requires IsBullet(s)
    ensures IsBullet(DropLast(s))
  {
  }

  lemma {:induction false} FirstStays(p: Cutting, ls: seq<string>)
    requires p.done + Closed(p.cur) != [] && IsBullet((p.done + Closed(p.cur))[0])
    requires p.cur.Some? && p.cur.value != [] && (p.done == [] ==> IsBullet(p.cur.value[0]))
    ensures var q := LogRun(p, ls); q.done + Closed(q.cur) != [] && IsBullet((q.done + Closed(q.cur))[0])
    decreases |ls|
  {
    if ls != [] {
      var q := LogStep(p, ls[0]);
      JoinStartsIfBullet(q.cur.value);
      FirstStays(q, ls[1..]);
    }
  }

  lemma JoinStartsIfBullet(ls: seq<string>)
    requires ls != []
    ensures IsBullet(ls[0]) ==> IsBullet(DropLast(Join(ls, "\n")))
  {
    if IsBullet(ls[0]) {
      JoinStarts(ls);
      DropLastKeepsBullet(Join(ls, "\n"));
    }
  }

  lemma FirstEntryBullet(body: string)
    requires IsBullet(body)
    ensures SplitLog(body) != [] && IsBullet(SplitLog(body)[0])
  {
    var ls := Split(body, '\n');
    BulletFirstLine(body);
    var q := LogStep(NOTHING, ls[0]);
    JoinStartsIfBullet(q.cur.value);
    FirstStays(q, ls[1..]);
  }

  lemma AboveOk(body: string, line: string)
    requires IsBullet(line) && NoOuterNewlines(line) && NoOuterNewlines(body)
    ensures LogOk(Above(body, line))
  {
  }

  /** What a write makes of a Log, and whether its entries are the new ones and then the old. */
  predicate EntriesAre(w: Write, was: string, body: string) {
    && NoOuterNewlines(body) && (w.update.logEntry.Some? || LogOk(was) ==> LogOk(body))
    && (SplitLog(body) == Entries(w) + SplitLog(was) <==> w.update.logEntry.None? || LogOk(was))
  }

  lemma EntryWritten(w: Write, was: string)
    requires WritesBullet(w) && NoOuterNewlines(was) && w.update.logEntry.Some?
    ensures EntriesAre(w, was, Above(was, LineOf(w)))
  {
    var line := w.bullet(w.update.logEntry.value);
    AboveOk(was, line);
    NewEntriesOnTopIff(line, was);
  }

  lemma NothingWritten(w: Write, was: string)
    requires NoOuterNewlines(was) && w.update.logEntry.None?
    ensures EntriesAre(w, was, was)
  {
    assert [] + SplitLog(was) == SplitLog(was);
  }

  /** A merge puts its entries in front of the Log and leaves the others exactly when it has none or the Log starts with a bullet. */
  lemma MergedEntries(heads: seq<string>, d: Doc, w: Write)
    requires HeadsOk(heads) && WriteOk(heads, w) && NoOuterNewlines(LogBody(heads, d))
    ensures EntriesAre(w, LogBody(heads, d), LogBody(heads, MergedDoc(heads, d, w)))
  {
    MergedLog(heads, d, w);
    if w.update.logEntry.Some? { EntryWritten(w, LogBody(heads, d)); } else { NothingWritten(w, LogBody(heads, d)); }
  }

  lemma EntryStarts(e: string)
    requires EntryOk(e, false)
    ensures IsBullet(e)
  {
    var ls := Split(e, '\n');
    JoinSplit(e, '\n');
    JoinStarts(ls);
  }

  lemma Regrouped(es: seq<string>, was: seq<string>, merged: seq<string>, live: seq<string>, moved: seq<string>, archive: seq<string>)
    requires live + Reversed(moved) == merged
    ensures live + Reversed(archive + moved) == es + (was + Reversed(archive)) <==> merged == es + was
  {
    ReversedConcat(archive, moved);
    var rest := Reversed(archive);
    assert live + (Reversed(moved) + rest) == merged + rest;
    assert es + (was + rest) == es + was + rest;
    SameEnd(merged, es + was, rest);
  }

  lemma SameEnd(a: seq<string>, b: seq<string>, end: seq<string>)
    ensures a + end == b + end <==> a == b
  {
    if a + end == b + end {
      assert |a| == |b|;
      assert (a + end)[..|a|] == a && (b + end)[..|b|] == b;
    }
  }

  /** One write puts its entries in front of the history and leaves the rest exactly when it has none or the Log started with a bullet. */
  lemma WroteHistory(heads: seq<string>, maxChars: nat, keep: int, h: Hist, w: Write, next: Hist)
    requires HeadsOk(heads) && WriteOk(heads, w) && NoOuterNewlines(LogBody(heads, h.doc)) && Wrote(heads, maxChars, keep, h, w, next)
    ensures NoOuterNewlines(LogBody(heads, next.doc))
    ensures w.update.logEntry.Some? || LogOk(LogBody(heads, h.doc)) ==> LogOk(LogBody(heads, next.doc))
    ensures History(heads, next) == Entries(w) + History(heads, h) <==> w.update.logEntry.None? || LogOk(LogBody(heads, h.doc))
  {
    var m := MergedDoc(heads, h.doc, w);
    MergedEntries(heads, h.doc, w);
    RollLosesNothing(heads, m, maxChars, keep, w.outcome);
    RolledLogOk(heads, m, maxChars, keep, w.outcome);
    var r := RolledOf(heads, m, w.outcome);
    Regrouped(Entries(w), SplitLog(LogBody(heads, h.doc)), SplitLog(LogBody(heads, m)), SplitLog(LogBody(heads, r.doc)), r.archived, h.archive);
  }

  lemma ReversedConcat(a: seq<string>, b: seq<string>)
    ensures Reversed(a + b) == Reversed(b) + Reversed(a)
  {
  }

  predicate HasEntry(ws: seq<Write>, i: nat)
    requires i < |ws|
  {
    ws[i].update.logEntry.Some?
  }

  predicate AnyEntry(ws: seq<Write>, n: nat)
    requires n <= |ws|
  {
    exists i :: 0 <= i < n && HasEntry(ws, i)
  }

  predicate LogOkAt(heads: seq<string>, hs: seq<Hist>, i: nat)
    requires |heads| == 5 && i < |hs|
  {
    LogOk(LogBody(heads, hs[i].doc))
  }

  /** Write n leaves the history behind its own entries. */
  predicate ExactAt(heads: seq<string>, hs: seq<Hist>, ws: seq<Write>, n: nat)
    requires |heads| == 5 && n < |ws| && |hs| == |ws| + 1
  {
    History(heads, hs[n + 1]) == Entries(ws[n]) + History(heads, hs[n])
  }

  /** When the first of n writes with a Log entry comes, the Log is empty or starts with a bullet. */
  predicate StartsWell(heads: seq<string>, hs: seq<Hist>, ws: seq<Write>, n: nat)
    requires |heads| == 5 && n <= |ws| && |hs| == |ws| + 1
  {
    forall i :: 0 <= i < n && HasEntry(ws, i) && !AnyEntry(ws, i) ==> LogOkAt(heads, hs, i)
  }

  /** The n writes so far have put their entries, newest first, in front of the old history. */
  predicate Conserved(heads: seq<string>, hs: seq<Hist>, ws: seq<Write>, n: nat)
    requires |heads| == 5 && n <= |ws| && |hs| == |ws| + 1
  {
    History(heads, hs[n]) == Newest(ws[..n]) + History(heads, hs[0])
  }

  lemma ConservedNext(heads: seq<string>, hs: seq<Hist>, ws: seq<Write>, n: nat)
    requires |heads| == 5 && n < |ws| && |hs| == |ws| + 1
    ensures ExactAt(heads, hs, ws, n) ==> (Conserved(heads, hs, ws, n + 1) <==> Conserved(heads, hs, ws, n))
    ensures Conserved(heads, hs, ws, n) ==> (Conserved(heads, hs, ws, n + 1) <==> ExactAt(heads, hs, ws, n))
  {
    NewestNext(ws, n);
    FrontKept(Entries(ws[n]), Newest(ws[..n]), History(heads, hs[0]), History(heads, hs[n]), History(heads, hs[n + 1]));
  }

  lemma NewestNext(ws: seq<Write>, n: nat)
    requires n < |ws|
    ensures Newest(ws[..n + 1]) == Entries(ws[n]) + Newest(ws[..n])
  {
    assert ws[..n + 1][..n] == ws[..n];
  }

  lemma FrontKept(e: seq<string>, a: seq<string>, b: seq<string>, now: seq<string>, next: seq<string>)
    ensures next == e + now ==> (next == e + a + b <==> now == a + b)
    ensures now == a + b ==> (next == e + a + b <==> next == e + now)
  {
    Associated(e, a, b);
    SameFront(e, now, a + b);
  }

  lemma SameFront(e: seq<string>, a: seq<string>, b: seq<string>)
    ensures e + a == e + b <==> a == b
  {
    if e + a == e + b { assert (e + a)[|e|..] == a && (e + b)[|e|..] == b; }
  }

  lemma WroteExact(heads: seq<string>, maxChars: nat, keep: int, hs: seq<Hist>, ws: seq<Write>, m: nat)
    requires HeadsOk(heads) && WroteAll(heads, maxChars, keep, hs, ws) && m < |ws| && NoOuterNewlines(LogBody(heads, hs[m].doc))
    ensures NoOuterNewlines(LogBody(heads, hs[m + 1].doc))
    ensures HasEntry(ws, m) || LogOkAt(heads, hs, m) ==> LogOkAt(heads, hs, m + 1)
    ensures ExactAt(heads, hs, ws, m) <==> !HasEntry(ws, m) || LogOkAt(heads, hs, m)
  {
    assert WroteAt(heads, maxChars, keep, hs, ws, m);
    WroteHistory(heads, maxChars, keep, hs[m], ws[m], hs[m + 1]);
  }

  lemma StartsNext(heads: seq<string>, hs: seq<Hist>, ws: seq<Write>, m: nat)
    requires |heads| == 5 && m < |ws| && |hs| == |ws| + 1
    ensures StartsWell(heads, hs, ws, m + 1) <==> StartsWell(heads, hs, ws, m) && (HasEntry(ws, m) && !AnyEntry(ws, m) ==> LogOkAt(heads, hs, m))
    ensures AnyEntry(ws, m + 1) <==> AnyEntry(ws, m) || HasEntry(ws, m)
    ensures !StartsWell(heads, hs, ws, m) ==> AnyEntry(ws, m)
  {
  }

  /** What holds after n writes. */
  predicate UpTo(heads: seq<string>, hs: seq<Hist>, ws: seq<Write>, n: nat)
    requires |heads| == 5 && n <= |ws| && |hs| == |ws| + 1
  {
    && NoOuterNewlines(LogBody(heads, hs[n].doc))
    && (LogOkAt(heads, hs, 0) || AnyEntry(ws, n) ==> LogOkAt(heads, hs, n))
    && (Conserved(heads, hs, ws, n) <==> StartsWell(heads, hs, ws, n))
  }

  lemma NextUpTo(heads: seq<string>, maxChars: nat, keep: int, hs: seq<Hist>, ws: seq<Write>, m: nat)
    requires HeadsOk(heads) && WroteAll(heads, maxChars, keep, hs, ws) && m < |ws| && UpTo(heads, hs, ws, m)
    ensures UpTo(heads, hs, ws, m + 1)
  {
    WroteExact(heads, maxChars, keep, hs, ws, m);
    ConservedNext(heads, hs, ws, m);
    StartsNext(heads, hs, ws, m);
  }

  lemma {:induction false} HistoryUpTo(heads: seq<string>, maxChars: nat, keep: int, hs: seq<Hist>, ws: seq<Write>, n: nat)
    requires HeadsOk(heads) && WroteAll(heads, maxChars, keep, hs, ws) && n <= |ws| && NoOuterNewlines(LogBody(heads, hs[0].doc))
    ensures UpTo(heads, hs, ws, n)
  {
    if n == 0 {
      assert [] + History(heads, hs[0]) == History(heads, hs[0]);
    } else {
      HistoryUpTo(heads, maxChars, keep, hs, ws, n - 1);
      NextUpTo(heads, maxChars, keep, hs, ws, n - 1);
    }
  }

  /**
   * Over any run of updates the history is the new entries, newest first, then
   * the old history, exactly when the Log was empty or started with a bullet
   * at the first update with a Log entry; so always from a Log that is so.
   */
  lemma HistoryConserved(heads: seq<string>, maxChars: nat, keep: int, hs: seq<Hist>, ws: seq<Write>)
    requires HeadsOk(heads) && WroteAll(heads, maxChars, keep, hs, ws) && NoOuterNewlines(LogBody(heads, hs[0].doc))
    ensures History(heads, hs[|ws|]) == Newest(ws) + History(heads, hs[0]) <==> StartsWell(heads, hs, ws, |ws|)
    ensures LogOk(LogBody(heads, hs[0].doc)) ==> StartsWell(heads, hs, ws, |ws|)
  {
    assert ws[..|ws|] == ws;
    HistoryUpTo(heads, maxChars, keep, hs, ws, |ws|);
    if LogOk(LogBody(heads, hs[0].doc)) {
      forall i | 0 <= i < |ws| ensures LogOkAt(heads, hs, i) { HistoryUpTo(heads, maxChars, keep, hs, ws, i); }
    }
  }

  /** Text above the first bullet of a Log is an entry of its own until a bullet is put above it, which takes it in. */
  lemma LooseTextJoinsTheNewEntry(line: string, text: string)
    requires IsBullet(line) && '\n' !in line && '\n' !in text && !IsBullet(text) && Trim(text) != ""
    ensures SplitLog(text) == [text]
    ensures SplitLog(Above(text, line)) == [line + "\n" + text]
  {
    SplitPlain(text, '\n');
    LogRunOne(NOTHING, text);
    assert Trim("") == "";
    SplitPlain(line, '\n');
    SplitEntryThen(line, text);
    LogRunConcat(NOTHING, [line], [text]);
    LogRunOne(NOTHING, line);
    LogRunOne(Cutting([], Some([line])), text);
    TwoLines(line, text);
  }

  lemma TwoLines(line: string, text: string)
    requires text != "" && '\n' !in text
    ensures DropLast(Join([line] + [text], "\n")) == line + "\n" + text && DropLast(Join([text], "\n")) == text
  {
    assert ([line] + [text])[1..] == [text];
    var s := line + "\n" + text;
    assert s[|s| - 1] == text[|text| - 1];
  }
}
