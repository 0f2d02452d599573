/**
 * Rolling the Log (ADR 0045): when a document is over its cap the oldest Log
 * entries leave it. Splitting stands on the fold over the lines of the Log.
 */
module ProjectLog {
  import opened Options
  import opened Text
  import opened Headings
  import opened ProjectDoc
  import opened ProjectMerge

  const PROJECT_DOC_MAX_CHARS: nat := 16384
  const PROJECT_LOG_KEEP_ENTRIES := 10

  // ---- splitting the Log into entries --------------------------------------

  predicate IsBullet(line: string) { |line| >= 2 && line[0] == '-' && line[1] == ' ' }

  /** Finished entries and the lines of the open one. */
  datatype Cutting = Cutting(done: seq<string>, cur: Option<seq<string>>)

  function Closed(cur: Option<seq<string>>): seq<string> {
    if cur.None? then [] else [DropLast(Join(cur.value, "\n"))]
  }

  function LogStep(p: Cutting, line: string): Cutting {
    if IsBullet(line) then Cutting(p.done + Closed(p.cur), Some([line]))
    else if p.cur.Some? then p.(cur := Some(p.cur.value + [line]))
    else if Trim(line) != "" then p.(cur := Some([line]))
    else p
  }

  function LogRun(p: Cutting, lines: seq<string>): Cutting
    decreases |lines|
  {
    if lines == [] then p else LogRun(LogStep(p, lines[0]), lines[1..])
  }

  const NOTHING := Cutting([], None)

  /** `splitLogEntries`. */
  function SplitLog(body: string): seq<string> {
    var p := LogRun(NOTHING, Split(body, '\n'));
    p.done + Closed(p.cur)
  }

  lemma {:induction false} LogRunConcat(p: Cutting, a: seq<string>, b: seq<string>)
    ensures LogRun(p, a + b) == LogRun(LogRun(p, a), b)
    decreases |a|
  {
    if a == [] {
      assert a + b == b;
    } else {
      assert (a + b)[1..] == a[1..] + b;
      LogRunConcat(LogStep(p, a[0]), a[1..], b);
    }
  }

  lemma LogRunOne(p: Cutting, line: string)
    ensures LogRun(p, [line]) == LogStep(p, line)
  {
    assert [line][1..] == [];
  }

  function Mapped(es: seq<string>): (r: seq<string>)
    ensures |r| == |es| && forall i :: 0 <= i < |es| ==> r[i] == DropLast(es[i])
  {
    if es == [] then [] else Mapped(es[..|es| - 1]) + [DropLast(es[|es| - 1])]
  }

  lemma MappedSnoc(es: seq<string>, e: string)
    ensures Mapped(es + [e]) == Mapped(es) + [DropLast(e)]
  {
    assert (es + [e])[..|es|] == es;
  }

  lemma LogRunNext(lines: seq<string>, i: nat)
    requires i < |lines|
    ensures LogRun(NOTHING, lines[..i + 1]) == LogStep(LogRun(NOTHING, lines[..i]), lines[i])
  {
    assert lines[..i + 1] == lines[..i] + [lines[i]];
    LogRunConcat(NOTHING, lines[..i], [lines[i]]);
    LogRunOne(LogRun(NOTHING, lines[..i]), lines[i]);
  }

  /** The loop over the lines of the Log. */
  method GatherEntries(lines: seq<string>) returns (entries: seq<string>)
    ensures var p := LogRun(NOTHING, lines); Mapped(entries) == p.done + Closed(p.cur)
  {
    entries := [];
    var current: Option<seq<string>> := None;
    for i := 0 to |lines|
      invariant Cutting(Mapped(entries), current) == LogRun(NOTHING, lines[..i])
    {
      var line := lines[i];
      LogRunNext(lines, i);
      if IsBullet(line) {
        if current.Some? {
          MappedSnoc(entries, Join(current.value, "\n"));
          entries := entries + [Join(current.value, "\n")];
        }
        current := Some([line]);
      } else if current.Some? {
        current := Some(current.value + [line]);
      } else if |Trim(line)| > 0 {
        current := Some([line]);
      }
    }
    assert lines[..|lines|] == lines;
    if current.Some? {
      MappedSnoc(entries, Join(current.value, "\n"));
      entries := entries + [Join(current.value, "\n")];
    }
  }

  method SplitLogEntries(body: string) returns (r: seq<string>)
    ensures r == SplitLog(body)
  {
    var entries := GatherEntries(Split(body, '\n'));
    r := [];
    for i := 0 to |entries|
      invariant r == Mapped(entries)[..i]
    {
      r := r + [DropLast(entries[i])];
    }
  }

  // ---- entries that read back ----------------------------------------------

  /** The lines of one entry: no bullet after its first, and a first line that opens one. */
  predicate EntryLines(ls: seq<string>, first: bool) {
    && ls != []
    && (IsBullet(ls[0]) || (first && Trim(ls[0]) != ""))
    && (forall i :: 1 <= i < |ls| ==> !IsBullet(ls[i]))
  }

  /** An entry: one bullet and the lines under it (the first may be text before any bullet), no newline at its end. */
  predicate EntryOk(e: string, first: bool) {
    EntryLines(Split(e, '\n'), first) && DropLast(e) == e
  }

  predicate EntriesOk(es: seq<string>, first: bool) {
    forall i :: 0 <= i < |es| ==> EntryOk(es[i], first && i == 0)
  }

  lemma {:induction false} LogRunTail(p: Cutting, ls: seq<string>)
    requires p.cur.Some? && forall i :: 0 <= i < |ls| ==> !IsBullet(ls[i])
    ensures LogRun(p, ls) == p.(cur := Some(p.cur.value + ls))
    decreases |ls|
  {
    if ls == [] {
      assert p.cur.value + ls == p.cur.value;
    } else {
      LogRunTail(LogStep(p, ls[0]), ls[1..]);
      assert p.cur.value + [ls[0]] + ls[1..] == p.cur.value + ls;
    }
  }

  /** Reading the lines of an entry opens it. */
  lemma LogRunEntry(p: Cutting, ls: seq<string>, first: bool)
    requires EntryLines(ls, first) && (first ==> p.cur.None?)
    ensures LogRun(p, ls) == Cutting(p.done + Closed(p.cur), Some(ls))
  {
    var q := LogStep(p, ls[0]);
    assert q == Cutting(p.done + Closed(p.cur), Some([ls[0]]));
    LogRunTail(q, ls[1..]);
    assert [ls[0]] + ls[1..] == ls;
  }

  lemma RestOk(es: seq<string>, first: bool)
    requires es != [] && EntriesOk(es, first)
    ensures EntriesOk(es[1..], false)
  {
    forall i | 0 <= i < |es[1..]| ensures EntryOk(es[1..][i], false) {
      assert EntryOk(es[i + 1], first && i + 1 == 0);
    }
  }

  lemma SplitEntryThen(e: string, rest: string)
    ensures Split(e + "\n" + rest, '\n') == Split(e, '\n') + Split(rest, '\n')
  {
    SplitAt(e, '\n', rest);
    assert e + ['\n'] + rest == e + "\n" + rest;
  }

  /** Reading joined entries: all but the last are finished, the last is open. */
  lemma {:induction false} LogRunEntries(p: Cutting, es: seq<string>, first: bool) returns (q: Cutting)
    requires es != [] && EntriesOk(es, first) && (first ==> p.cur.None?)
    ensures q == LogRun(p, Split(Join(es, "\n"), '\n'))
    ensures q.done + Closed(q.cur) == p.done + Closed(p.cur) + es
    decreases |es|
  {
    assert EntryOk(es[0], first && 0 == 0);
    var ls := Split(es[0], '\n');
    LogRunEntry(p, ls, first);
    JoinSplit(es[0], '\n');
    var mid := LogRun(p, ls);
    assert Closed(mid.cur) == [es[0]];
    if |es| == 1 {
      q := mid;
      assert [es[0]] == es;
    } else {
      SplitEntryThen(es[0], Join(es[1..], "\n"));
      LogRunConcat(p, ls, Split(Join(es[1..], "\n"), '\n'));
      RestOk(es, first);
      q := LogRunEntries(mid, es[1..], false);
      assert p.done + Closed(p.cur) + [es[0]] + es[1..] == p.done + Closed(p.cur) + es;
    }
  }

  /** Entries joined by newlines split into themselves. */
  lemma SplitJoined(es: seq<string>)
    requires EntriesOk(es, true) && es != []
    ensures SplitLog(Join(es, "\n")) == es
  {
    var q := LogRunEntries(NOTHING, es, true);
    assert [] + Closed(None) + es == es;
  }

  // ---- what splitting yields -----------------------------------------------

  predicate LinesOk(ls: seq<string>) { forall i :: 0 <= i < |ls| ==> '\n' !in ls[i] }

  lemma {:induction false} DropLastFront(s: string, ls: seq<string>, first: bool)
    requires Split(s, '\n') == ls && EntryLines(ls, first)
    ensures EntryLines(Split(DropLast(s), '\n'), first)
    decreases |s|
  {
    if s != "" && s[|s| - 1] == '\n' {
      var t := s[..|s| - 1];
      SplitAt(t, '\n', "");
      assert t + ['\n'] + "" == s;
      assert ls == Split(t, '\n') + [""];
      forall i | 0 <= i < |Split(t, '\n')| ensures Split(t, '\n')[i] == ls[i] {
      }
      DropLastFront(t, Split(t, '\n'), first);
    }
  }

  lemma {:induction false} DropLastTwice(s: string)
    ensures DropLast(DropLast(s)) == DropLast(s)
  {
    if s != "" && s[|s| - 1] == '\n' { DropLastTwice(s[..|s| - 1]); }
  }

  lemma ClosedOk(ls: seq<string>, first: bool)
    requires EntryLines(ls, first) && LinesOk(ls)
    ensures EntryOk(DropLast(Join(ls, "\n")), first)
  {
    SplitJoin(ls, '\n');
    DropLastFront(Join(ls, "\n"), ls, first);
    DropLastTwice(Join(ls, "\n"));
  }

  predicate SplitOk(p: Cutting) {
    && EntriesOk(p.done, true)
    && (p.cur.None? ==> p.done == [])
    && (p.cur.Some? ==> EntryLines(p.cur.value, p.done == []) && LinesOk(p.cur.value))
  }

  lemma ClosingOk(p: Cutting)
    requires SplitOk(p)
    ensures EntriesOk(p.done + Closed(p.cur), true)
  {
    if p.cur.Some? {
      ClosedOk(p.cur.value, p.done == []);
    } else {
      assert p.done + Closed(p.cur) == [];
    }
  }

  lemma LogStepOk(p: Cutting, line: string)
    requires SplitOk(p) && '\n' !in line
    ensures SplitOk(LogStep(p, line))
  {
    ClosingOk(p);
    if p.cur.None? { assert p.done + Closed(p.cur) == []; }
  }

  /** What every step over a fine line keeps. */
  ghost predicate StepsKeep(ok: Cutting -> bool, fine: string -> bool) {
    forall p: Cutting, line: string :: ok(p) && fine(line) ==> ok(LogStep(p, line))
  }

  /** ... the whole fold keeps. */
  lemma {:induction false} LogRunKeeps(ok: Cutting -> bool, fine: string -> bool, p: Cutting, ls: seq<string>)
    requires StepsKeep(ok, fine) && ok(p) && forall i :: 0 <= i < |ls| ==> fine(ls[i])
    ensures ok(LogRun(p, ls))
    decreases |ls|
  {
    if ls != [] {
      assert fine(ls[0]);
      LogRunKeeps(ok, fine, LogStep(p, ls[0]), ls[1..]);
    }
  }

  predicate OneLine(line: string) { '\n' !in line }

  lemma StepsKeepOk()
    ensures StepsKeep(SplitOk, OneLine)
  {
    forall p: Cutting, line: string | SplitOk(p) && OneLine(line) ensures SplitOk(LogStep(p, line)) { LogStepOk(p, line); }
  }

  /** Every Log splits into entries that read back. */
  lemma SplitIsOk(body: string)
    ensures EntriesOk(SplitLog(body), true)
  {
    StepsKeepOk();
    LogRunKeeps(SplitOk, OneLine, NOTHING, Split(body, '\n'));
    ClosingOk(LogRun(NOTHING, Split(body, '\n')));
  }

  // ---- rolling -------------------------------------------------------------

  datatype Rolled = Rolled(doc: Doc, archived: seq<string>)

  function Reversed(es: seq<string>): (r: seq<string>)
    ensures |r| == |es| && forall i :: 0 <= i < |es| ==> r[i] == es[|es| - 1 - i]
  {
    if es == [] then [] else Reversed(es[1..]) + [es[0]]
  }

  /** The document with its newest k entries. */
  function KeptDoc(heads: seq<string>, d: Doc, k: nat): Doc
    requires |heads| == 5 && k <= |SplitLog(BodyOf(d.sections, heads[4]))|
  {
    Doc(d.preamble, WithBody(EnsuredFrom(heads, d.sections, 0), heads[4], Join(SplitLog(BodyOf(d.sections, heads[4]))[..k], "\n")))
  }

  /** That it would fit the cap. */
  predicate Fits(heads: seq<string>, d: Doc, k: nat, maxChars: nat)
    requires |heads| == 5 && k <= |SplitLog(BodyOf(d.sections, heads[4]))|
  {
    |Serialize(KeptDoc(heads, d, k))| <= maxChars
  }

  /** The most entries up to `most` with which the document fits; one when none does. */
  predicate Greatest(heads: seq<string>, d: Doc, maxChars: nat, most: int, k: int)
    requires |heads| == 5 && most <= |SplitLog(BodyOf(d.sections, heads[4]))|
  {
    1 <= k <= most && (k > 1 ==> Fits(heads, d, k, maxChars)) && forall j: nat :: k < j <= most ==> !Fits(heads, d, j, maxChars)
  }

  function Min(a: int, b: int): int { if a < b then a else b }

  function Max(a: int, b: int): int { if a < b then b else a }

  /** How many entries stay: everything, or the newest k. */
  datatype Outcome = Untouched | Kept(k: nat)

  /** What rolling may do: nothing while the document fits or has one entry; else keep the most that fit, or one. */
  predicate IsOutcome(heads: seq<string>, d: Doc, maxChars: nat, keep: int, o: Outcome)
    requires |heads| == 5
  {
    var es := SplitLog(BodyOf(d.sections, heads[4]));
    match o
    case Untouched => |Serialize(d)| <= maxChars || |es| <= 1
    case Kept(k) =>
      && |Serialize(d)| > maxChars && |es| > 1
      && Greatest(heads, d, maxChars, Min(Max(1, keep), |es| - 1), k)
  }

  /** The document and the archive of an outcome. */
  function RolledOf(heads: seq<string>, d: Doc, o: Outcome): Rolled
    requires |heads| == 5
  {
    if o.Untouched? || o.k > |SplitLog(BodyOf(d.sections, heads[4]))| then Rolled(d, [])
    else Rolled(KeptDoc(heads, d, o.k), Reversed(SplitLog(BodyOf(d.sections, heads[4]))[o.k..]))
  }

  /** The rolled document and archive: those of the outcome, which there is one of. */
  ghost predicate IsRolled(heads: seq<string>, d: Doc, maxChars: nat, keep: int, r: Rolled)
    requires |heads| == 5
  {
    exists o: Outcome :: IsOutcome(heads, d, maxChars, keep, o) && r == RolledOf(heads, d, o)
  }

  lemma OutcomeIs(heads: seq<string>, d: Doc, maxChars: nat, keep: int, o: Outcome)
    requires |heads| == 5 && IsOutcome(heads, d, maxChars, keep, o)
    ensures IsRolled(heads, d, maxChars, keep, RolledOf(heads, d, o))
  {
  }

  method TrimmedDoc(heads: seq<string>, d: Doc, entries: seq<string>, k: nat) returns (next: Doc)
    requires |heads| == 5 && entries == SplitLog(BodyOf(d.sections, heads[4])) && k <= |entries|
    ensures next == KeptDoc(heads, d, k)
  {
    var ss := EnsureKnownSections(heads, d.sections);
    ss := SetKnownBody(ss, heads[4], Join(entries[..k], "\n"));
    next := Doc(d.preamble, ss);
  }

  /** One try: the document with the newest k entries, and whether it fits. */
  method TryKeep(heads: seq<string>, d: Doc, maxChars: nat, entries: seq<string>, k: nat) returns (next: Doc, fits: bool)
    requires |heads| == 5 && entries == SplitLog(BodyOf(d.sections, heads[4])) && k <= |entries|
    ensures next == KeptDoc(heads, d, k) && fits == Fits(heads, d, k, maxChars)
  {
    next := TrimmedDoc(heads, d, entries, k);
    fits := |Serialize(next)| <= maxChars;
  }

  /** The counting loop of `rollProjectLog`, by what each count would give. */
  method CountDown(heads: seq<string>, d: Doc, maxChars: nat, entries: seq<string>, most: int, ghost fit: int -> bool) returns (next: Doc, keep: int)
    requires |heads| == 5 && entries == SplitLog(BodyOf(d.sections, heads[4])) && 1 <= most <= |entries|
    requires forall k: nat :: k <= most ==> fit(k) == Fits(heads, d, k, maxChars)
    ensures 1 <= keep <= most && (keep > 1 ==> fit(keep)) && forall j :: keep < j <= most ==> !fit(j)
    ensures next == KeptDoc(heads, d, keep)
  {
    keep := most;
    while keep >= 1
      invariant 0 <= keep <= most
      invariant forall j :: keep < j <= most ==> !fit(j)
    {
      var fits;
      next, fits := TryKeep(heads, d, maxChars, entries, keep);
      if fits { return; }
      keep := keep - 1;
    }
    next := TrimmedDoc(heads, d, entries, 1);
    keep := 1;
  }

  method RollDown(heads: seq<string>, d: Doc, maxChars: nat, entries: seq<string>, most: int) returns (next: Doc, keep: int)
    requires |heads| == 5 && entries == SplitLog(BodyOf(d.sections, heads[4])) && 1 <= most <= |entries|
    ensures Greatest(heads, d, maxChars, most, keep) && next == KeptDoc(heads, d, keep)
  {
    next, keep := CountDown(heads, d, maxChars, entries, most, (k: int) => 0 <= k <= most && Fits(heads, d, k, maxChars));
  }

  /** `rollProjectLog`. */
  method RollProjectLog(heads: seq<string>, d: Doc, maxChars: nat := PROJECT_DOC_MAX_CHARS, keepAtMost: int := PROJECT_LOG_KEEP_ENTRIES)
    returns (r: Rolled)
    requires |heads| == 5
    ensures IsRolled(heads, d, maxChars, keepAtMost, r)
  {
    if |Serialize(d)| <= maxChars {
      OutcomeIs(heads, d, maxChars, keepAtMost, Untouched);
      return Rolled(d, []);
    }
    var entries := SplitLogEntries(BodyOf(d.sections, heads[4]));
    if |entries| <= 1 {
      OutcomeIs(heads, d, maxChars, keepAtMost, Untouched);
      return Rolled(d, []);
    }
    var next, keep := RollDown(heads, d, maxChars, entries, Min(Max(1, keepAtMost), |entries| - 1));
    OutcomeIs(heads, d, maxChars, keepAtMost, Kept(keep));
    r := Rolled(next, Reversed(entries[keep..]));
  }

  /** At most one outcome: the specification decides. */
  lemma OutcomeUnique(heads: seq<string>, d: Doc, maxChars: nat, keep: int, a: Outcome, b: Outcome)
    requires |heads| == 5 && IsOutcome(heads, d, maxChars, keep, a) && IsOutcome(heads, d, maxChars, keep, b)
    ensures a == b
  {
  }

  lemma ReversedTwice(es: seq<string>)
    ensures Reversed(Reversed(es)) == es
  {
  }

  lemma {:induction false} EntriesJoinTrimmed(es: seq<string>, first: bool)
    requires es != [] && EntriesOk(es, first)
    ensures NoOuterNewlines(Join(es, "\n")) && Join(es, "\n") != ""
    decreases |es|
  {
    assert EntryOk(es[0], first && 0 == 0);
    EntryEnds(es[0], first);
    if |es| > 1 {
      RestOk(es, first);
      EntriesJoinTrimmed(es[1..], false);
    }
  }

  lemma EntryEnds(e: string, first: bool)
    requires EntryOk(e, first)
    ensures e != "" && NoOuterNewlines(e)
  {
    assert Trim("") == "";
  }

  lemma PrefixOk(es: seq<string>, k: nat)
    requires k <= |es| && EntriesOk(es, true)
    ensures EntriesOk(es[..k], true)
  {
  }

  /** The Log of the trimmed document holds exactly the newest k entries. */
  lemma KeptLog(heads: seq<string>, d: Doc, k: nat)
    requires HeadsOk(heads) && 1 <= k <= |SplitLog(BodyOf(d.sections, heads[4]))|
    ensures SplitLog(BodyOf(KeptDoc(heads, d, k).sections, heads[4])) == SplitLog(BodyOf(d.sections, heads[4]))[..k]
  {
    var es := SplitLog(BodyOf(d.sections, heads[4]));
    SplitIsOk(BodyOf(d.sections, heads[4]));
    PrefixOk(es, k);
    EntriesJoinTrimmed(es[..k], true);
    SplitJoined(es[..k]);
    KeptBody(heads, d, Join(es[..k], "\n"));
  }

  lemma KeptBody(heads: seq<string>, d: Doc, body: string)
    requires HeadsOk(heads) && NoOuterNewlines(body)
    ensures var ss := EnsuredFrom(heads, d.sections, 0); BodyOf(WithBody(ss, heads[4], body), heads[4]) == body
  {
    HeadIndex(heads, 4);
    AllEnsured(heads, d.sections);
    WithBodyKeeps(heads, EnsuredFrom(heads, d.sections, 0), heads[4], body);
  }

  lemma KeptRest(heads: seq<string>, d: Doc, body: string, t: string)
    requires HeadsOk(heads)
    ensures var r := WithBody(EnsuredFrom(heads, d.sections, 0), heads[4], body);
      Unnamed(heads, r) == Unnamed(heads, d.sections) && (t != heads[4] ==> BodyOf(r, t) == BodyOf(d.sections, t))
  {
    var a := EnsuredFrom(heads, d.sections, 0);
    HeadIndex(heads, 4);
    AllEnsured(heads, d.sections);
    EnsuredFromKeeps(heads, d.sections, 0, t);
    WithBodyKeeps(heads, a, heads[4], body);
    OnlyBodyAt(heads, a, WithBody(a, heads[4], body), heads[4], t);
  }

  lemma CutJoined(es: seq<string>, k: nat)
    requires k <= |es|
    ensures es[..k] + es[k..] == es
  {
  }

  lemma NothingAdded(es: seq<string>)
    ensures es + Reversed([]) == es
  {
  }

  /** Rolling loses and reorders nothing: the new Log, then the archive backwards, is the old Log. */
  lemma RollLosesNothing(heads: seq<string>, d: Doc, maxChars: nat, keep: int, o: Outcome)
    requires HeadsOk(heads) && IsOutcome(heads, d, maxChars, keep, o)
    ensures var r := RolledOf(heads, d, o);
      SplitLog(BodyOf(r.doc.sections, heads[4])) + Reversed(r.archived) == SplitLog(BodyOf(d.sections, heads[4]))
  {
    if o.Kept? {
      KeptLog(heads, d, o.k);
      ReversedTwice(SplitLog(BodyOf(d.sections, heads[4]))[o.k..]);
      CutJoined(SplitLog(BodyOf(d.sections, heads[4])), o.k);
    } else {
      NothingAdded(SplitLog(BodyOf(d.sections, heads[4])));
    }
  }

  /** Rolling leaves the preamble and every other section. */
  lemma RollKeepsTheRest(heads: seq<string>, d: Doc, maxChars: nat, keep: int, o: Outcome, t: string)
    requires HeadsOk(heads) && IsOutcome(heads, d, maxChars, keep, o)
    ensures var r := RolledOf(heads, d, o).doc;
      && r.preamble == d.preamble && Unnamed(heads, r.sections) == Unnamed(heads, d.sections)
      && (t != heads[4] ==> BodyOf(r.sections, t) == BodyOf(d.sections, t))
  {
    if o.Kept? {
      KeptRest(heads, d, Join(SplitLog(BodyOf(d.sections, heads[4]))[..o.k], "\n"), t);
    }
  }

  /** A rolled document is over the cap only when one entry is left. */
  lemma OverCapMeansOneEntry(heads: seq<string>, d: Doc, maxChars: nat, keep: int, o: Outcome)
    requires HeadsOk(heads) && IsOutcome(heads, d, maxChars, keep, o)
    requires |Serialize(RolledOf(heads, d, o).doc)| > maxChars
    ensures |SplitLog(BodyOf(RolledOf(heads, d, o).doc.sections, heads[4]))| <= 1
  {
    if o.Kept? { KeptLog(heads, d, o.k); }
  }
}
