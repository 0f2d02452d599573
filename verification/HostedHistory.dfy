/**
 * The Log over an interleaved run: every entry of a project is in the text of
 * its live document or in an archive memory that was stored with it.
 */
module HostedHistory {
  import opened Options
  import opened ProjectHead
  import opened RowStore
  import opened ProjectProtocol
  import opened ProjectRuns
  import opened GatedWrites
  import Text
  import D = ProjectDoc
  import H = ProjectHistory
  import L = ProjectLog
  import M = ProjectMerge
  import MilestoneMoves
  import T = HostedTexts
  import U = ProjectUpdate

  /** How a server builds its updates: when a build of a head gives this text and archive, and the write of the history it is. */
  datatype Builder = Builder(
    heads: seq<string>, read: string -> D.Doc,
    built: (string, T.Build, string, Option<string>) -> bool,
    writeOf: (string, T.Build) -> H.Write)

  // ---- the texts of a scope's head -----------------------------------------

  /** The live document of the scope has this text. */
  ghost predicate HeadText(w: World, sc: Scope, text: string) {
    exists r: Row :: IsHead(ScopeRows(w.acct, sc), HeadRow(r)) && r.content == text
  }

  lemma OneHeadText(w: World, sc: Scope, a: string, b: string)
    requires HeadText(w, sc, a) && HeadText(w, sc, b)
    ensures a == b
  {
    var r: Row :| IsHead(ScopeRows(w.acct, sc), HeadRow(r)) && r.content == a;
    var q: Row :| IsHead(ScopeRows(w.acct, sc), HeadRow(q)) && q.content == b;
    OneHeadRow(ScopeRows(w.acct, sc), r, q);
  }

  lemma {:induction false} TextStays(ws: seq<World>, sc: Scope, i: nat, j: nat, text: string)
    requires i <= j < |ws| && HeadText(ws[i], sc, text) && forall m :: i <= m < j ==> LeavesText(ws, m, sc)
    ensures HeadText(ws[j], sc, text)
    decreases j
  {
    if i < j {
      TextStays(ws, sc, i, j - 1, text);
      var was: Row :| IsHead(ScopeRows(ws[j - 1].acct, sc), HeadRow(was)) && was.content == text;
      var r := TextLeft(ws, j - 1, sc, was);
    }
  }

  // ---- the landings of a scope ---------------------------------------------

  /** The updates that land in the scope, in order; between them nothing else changes the text of its head. */
  ghost predicate Landings(ws: seq<World>, sts: seq<Step>, at: seq<nat>, sc: Scope)
    requires |ws| == |sts| + 1
  {
    && (forall i :: 0 <= i < |at| ==> at[i] < |sts| && UpdatesAt(ws, sts, at[i], sc))
    && (forall i :: 0 < i < |at| ==> at[i - 1] < at[i] && forall m :: at[i - 1] < m < at[i] ==> LeavesText(ws, m, sc))
  }

  /** The archive memory a landing stores beside the document. */
  function ArchiveAt(ws: seq<World>, sts: seq<Step>, m: nat): Option<string>
    requires |ws| == |sts| + 1 && m < |sts|
  {
    if sts[m].Go? && sts[m].c in ws[m].calls && ws[m].calls[sts[m].c].UpdateRoom? then ws[m].calls[sts[m].c].archive else None
  }

  /** An update's text and archive are built from the head it read. */
  ghost function BuildGate(how: Builder): Gate
  {
    (before: string, after: string, archive: Option<string>) => exists b :: how.built(before, b, after, archive)
  }

  /** The landing at m built the text it left from the text it found. */
  ghost predicate BuiltLanding(how: Builder, ws: seq<World>, sts: seq<Step>, m: nat, sc: Scope, before: string, after: string, b: T.Build)
    requires |ws| == |sts| + 1 && m < |sts|
  {
    HeadText(ws[m], sc, before) && HeadText(ws[m + 1], sc, after) && how.built(before, b, after, ArchiveAt(ws, sts, m))
  }

  lemma BuildOfGate(how: Builder, before: string, after: string, archive: Option<string>) returns (b: T.Build)
    requires BuildGate(how)(before, after, archive)
    ensures how.built(before, b, after, archive)
  {
    b :| how.built(before, b, after, archive);
  }

  lemma LandingBuilt(k: Kinds, how: Builder, ws: seq<World>, sts: seq<Step>, m: nat, sc: Scope)
    returns (before: string, after: string, b: T.Build)
    requires Run(k, ws, sts) && forall i :: 0 <= i < |sts| ==> StepGated(BuildGate(how), ws[i], sts[i])
    requires m < |sts| && UpdatesAt(ws, sts, m, sc)
    ensures BuiltLanding(how, ws, sts, m, sc, before, after, b)
  {
    var h, r := LandedUpdateIsGated(k, BuildGate(how), ws, sts, m, sts[m].c);
    before, after := h.content, r.content;
    b := BuildOfGate(how, before, after, ArchiveAt(ws, sts, m));
  }

  ghost predicate IsBuilt(how: Builder, ws: seq<World>, sts: seq<Step>, m: nat, sc: Scope)
    requires |ws| == |sts| + 1 && m < |sts|
  {
    exists before: string, after: string, b: T.Build :: BuiltLanding(how, ws, sts, m, sc, before, after, b)
  }

  lemma LandingIsBuilt(k: Kinds, how: Builder, ws: seq<World>, sts: seq<Step>, m: nat, sc: Scope)
    requires Run(k, ws, sts) && forall i :: 0 <= i < |sts| ==> StepGated(BuildGate(how), ws[i], sts[i])
    requires m < |sts| && UpdatesAt(ws, sts, m, sc)
    ensures IsBuilt(how, ws, sts, m, sc)
  {
    var before, after, b := LandingBuilt(k, how, ws, sts, m, sc);
  }

  /** The archive memory is stored in the same write as the document. */
  lemma ArchiveIsStored(k: Kinds, ws: seq<World>, sts: seq<Step>, m: nat, sc: Scope) returns (r: Row)
    requires Run(k, ws, sts) && m < |sts| && UpdatesAt(ws, sts, m, sc) && ArchiveAt(ws, sts, m).Some?
    ensures Holds(ws[m + 1].acct, r) && r.scope == sc && r.mtype.Episodic? && r.pending && r.content == ArchiveAt(ws, sts, m).value
  {
    var w, call, p := ws[m], ws[m].calls[sts[m].c], sts[m].pick;
    RunKeeps(k, ws, sts, m);
    assert StepAt(k, ws, sts, m);
    assert CallInv(k, w, call) && LegalPick(k, w, call, p);
    LandingFits(k, w, call, p);
    r := SecondInsertStands(w.acct, call.scope, Some(call.seqNo), InsertsOf(call, p), ReplacedOf(call));
  }

  lemma SecondInsertStands(a: Acct, sc: Scope, expected: Option<nat>, ins: seq<Insert>, replaced: Option<Id>) returns (r: Row)
    requires |ins| == 2 && Write(a, sc, expected, ins, replaced).1.Some? && ins[0].entryId != ins[1].entryId
    requires forall i :: i in ins ==> i.entryId !in a.rows && replaced != Some(i.entryId)
    ensures var b := Write(a, sc, expected, ins, replaced).0;
      Holds(b, r) && r == InsertedRow(ins[1], sc, b.seqs[sc])
  {
    var b := Write(a, sc, expected, ins, replaced).0;
    WrittenAt(a, sc, expected, ins, replaced, ins[1].entryId);
    assert ins[1] in ins;
    var i :| i in ins && i.entryId == ins[1].entryId && b.rows[i.entryId] == InsertedRow(i, sc, b.seqs[sc]);
    assert i == ins[1];
    r := b.rows[i.entryId];
  }

  // ---- the history over the landings ---------------------------------------

  /** The texts of the head before the first landing and after each, with how each was built. */
  ghost predicate Tells(how: Builder, ws: seq<World>, sts: seq<Step>, at: seq<nat>, sc: Scope, texts: seq<string>, bs: seq<T.Build>)
    requires |ws| == |sts| + 1
  {
    && |texts| == |at| + 1 && |bs| == |at|
    && forall i :: 0 <= i < |at| ==> TellsAt(how, ws, sts, at, sc, texts, bs, i)
  }

  ghost predicate TellsAt(how: Builder, ws: seq<World>, sts: seq<Step>, at: seq<nat>, sc: Scope, texts: seq<string>, bs: seq<T.Build>, i: nat)
    requires |ws| == |sts| + 1 && |texts| == |at| + 1 && |bs| == |at| && i < |at|
  {
    at[i] < |sts| && HeadText(ws[at[i]], sc, texts[i]) && HeadText(ws[at[i] + 1], sc, texts[i + 1])
    && how.built(texts[i], bs[i], texts[i + 1], ArchiveAt(ws, sts, at[i]))
  }

  lemma LandingsFront(ws: seq<World>, sts: seq<Step>, at: seq<nat>, sc: Scope)
    requires |ws| == |sts| + 1 && at != [] && Landings(ws, sts, at, sc)
    ensures Landings(ws, sts, at[..|at| - 1], sc)
  {
  }

  lemma TellsNext(how: Builder, ws: seq<World>, sts: seq<Step>, at: seq<nat>, sc: Scope, texts: seq<string>, bs: seq<T.Build>, after: string, b: T.Build)
    requires |ws| == |sts| + 1 && at != [] && Tells(how, ws, sts, at[..|at| - 1], sc, texts, bs)
    requires at[|at| - 1] < |sts| && HeadText(ws[at[|at| - 1]], sc, texts[|at| - 1]) && HeadText(ws[at[|at| - 1] + 1], sc, after)
    requires how.built(texts[|at| - 1], b, after, ArchiveAt(ws, sts, at[|at| - 1]))
    ensures Tells(how, ws, sts, at, sc, texts + [after], bs + [b])
  {
    var m := |at| - 1;
    forall i | 0 <= i < |at| ensures TellsAt(how, ws, sts, at, sc, texts + [after], bs + [b], i) {
      if i < m { assert TellsAt(how, ws, sts, at[..m], sc, texts, bs, i); }
    }
  }

  /** Landed updates one after another: each was built from the text the one before left. */
  lemma {:induction false} TextsOf(how: Builder, ws: seq<World>, sts: seq<Step>, at: seq<nat>, sc: Scope)
    returns (texts: seq<string>, bs: seq<T.Build>)
    requires |ws| == |sts| + 1 && at != [] && Landings(ws, sts, at, sc) && forall i :: 0 <= i < |at| ==> IsBuilt(how, ws, sts, at[i], sc)
    ensures Tells(how, ws, sts, at, sc, texts, bs)
    decreases |at|
  {
    var m := |at| - 1;
    assert IsBuilt(how, ws, sts, at[m], sc);
    var before: string, after: string, b: T.Build :| BuiltLanding(how, ws, sts, at[m], sc, before, after, b);
    if m == 0 {
      texts, bs := [before], [];
    } else {
      LandingsFront(ws, sts, at, sc);
      texts, bs := TextsOf(how, ws, sts, at[..m], sc);
      TextCarriedOn(how, ws, sts, at, sc, texts, bs, before);
    }
    TellsNext(how, ws, sts, at, sc, texts, bs, after, b);
    texts, bs := texts + [after], bs + [b];
  }

  /** The last landing found the text the one before it left. */
  lemma TextCarriedOn(how: Builder, ws: seq<World>, sts: seq<Step>, at: seq<nat>, sc: Scope, texts: seq<string>, bs: seq<T.Build>, before: string)
    requires |ws| == |sts| + 1 && |at| >= 2 && Landings(ws, sts, at, sc) && Tells(how, ws, sts, at[..|at| - 1], sc, texts, bs)
    requires HeadText(ws[at[|at| - 1]], sc, before)
    ensures before == texts[|at| - 1]
  {
    var m := |at| - 1;
    assert TellsAt(how, ws, sts, at[..m], sc, texts, bs, m - 1);
    TextStays(ws, sc, at[m - 1] + 1, at[m], texts[m]);
    OneHeadText(ws[at[m]], sc, before, texts[m]);
  }

  /** All entries in the archive memories these landings stored, oldest first. */
  function Archived(ws: seq<World>, sts: seq<Step>, at: seq<nat>): seq<string>
    requires |ws| == |sts| + 1 && forall i :: 0 <= i < |at| ==> at[i] < |sts|
  {
    if at == [] then [] else Archived(ws, sts, at[..|at| - 1]) + T.EntriesIn(ArchiveAt(ws, sts, at[|at| - 1]))
  }

  /** Where the history stands after each landing. */
  function Hists(ws: seq<World>, sts: seq<Step>, at: seq<nat>, read: string -> D.Doc, texts: seq<string>): (hs: seq<H.Hist>)
    requires |ws| == |sts| + 1 && |texts| == |at| + 1 && forall i :: 0 <= i < |at| ==> at[i] < |sts|
    ensures |hs| == |texts| && forall i :: 0 <= i < |hs| ==> hs[i] == H.Hist(read(texts[i]), Archived(ws, sts, at[..i]))
  {
    seq(|texts|, i requires 0 <= i < |texts| => H.Hist(read(texts[i]), Archived(ws, sts, at[..i])))
  }

  function Writes(how: Builder, texts: seq<string>, bs: seq<T.Build>): (writes: seq<H.Write>)
    requires |texts| == |bs| + 1
    ensures |writes| == |bs| && forall i :: 0 <= i < |bs| ==> writes[i] == how.writeOf(texts[i], bs[i])
  {
    seq(|bs|, i requires 0 <= i < |bs| => how.writeOf(texts[i], bs[i]))
  }

  lemma ArchivedNext(ws: seq<World>, sts: seq<Step>, at: seq<nat>, i: nat)
    requires |ws| == |sts| + 1 && i < |at| && forall j :: 0 <= j < |at| ==> at[j] < |sts|
    ensures Archived(ws, sts, at[..i + 1]) == Archived(ws, sts, at[..i]) + T.EntriesIn(ArchiveAt(ws, sts, at[i]))
  {
    assert at[..i + 1][..i] == at[..i];
  }

  /** A build is a write of the history. */
  ghost predicate BuildWrites(how: Builder, head: string, b: T.Build, text: string, archive: Option<string>, past: seq<string>)
    requires |how.heads| == 5
  {
    how.built(head, b, text, archive) ==>
      && H.WriteOk(how.heads, how.writeOf(head, b)) && Text.NoOuterNewlines(H.LogBody(how.heads, how.read(head)))
      && H.Wrote(how.heads, L.PROJECT_DOC_MAX_CHARS, L.PROJECT_LOG_KEEP_ENTRIES,
                 H.Hist(how.read(head), past), how.writeOf(head, b), H.Hist(how.read(text), past + T.EntriesIn(archive)))
  }

  ghost predicate BuilderOk(how: Builder) {
    M.HeadsOk(how.heads) && forall head, b, text, archive, past :: BuildWrites(how, head, b, text, archive, past)
  }

  lemma LandingsWrote(how: Builder, ws: seq<World>, sts: seq<Step>, at: seq<nat>, sc: Scope, texts: seq<string>, bs: seq<T.Build>)
    requires BuilderOk(how) && |ws| == |sts| + 1 && (forall i :: 0 <= i < |at| ==> at[i] < |sts|) && Tells(how, ws, sts, at, sc, texts, bs)
    ensures H.WroteAll(how.heads, L.PROJECT_DOC_MAX_CHARS, L.PROJECT_LOG_KEEP_ENTRIES, Hists(ws, sts, at, how.read, texts), Writes(how, texts, bs))
  {
    var hs, writes := Hists(ws, sts, at, how.read, texts), Writes(how, texts, bs);
    forall i | 0 <= i < |at| ensures H.WroteAt(how.heads, L.PROJECT_DOC_MAX_CHARS, L.PROJECT_LOG_KEEP_ENTRIES, hs, writes, i) {
      assert TellsAt(how, ws, sts, at, sc, texts, bs, i);
      ArchivedNext(ws, sts, at, i);
      assert BuildWrites(how, texts[i], bs[i], texts[i + 1], ArchiveAt(ws, sts, at[i]), Archived(ws, sts, at[..i]));
    }
  }

  /** All entries, newest first: the Log as it reads, then the archives backwards. */
  function HistoryIn(how: Builder, text: string, archived: seq<string>): seq<string>
    requires |how.heads| == 5
  {
    L.SplitLog(H.LogBody(how.heads, how.read(text))) + L.Reversed(archived)
  }

  lemma HistoryOver(how: Builder, ws: seq<World>, sts: seq<Step>, at: seq<nat>, sc: Scope, texts: seq<string>, bs: seq<T.Build>)
    requires BuilderOk(how) && |ws| == |sts| + 1 && (forall i :: 0 <= i < |at| ==> at[i] < |sts|) && Tells(how, ws, sts, at, sc, texts, bs) && at != []
    ensures HistoryIn(how, texts[|at|], Archived(ws, sts, at)) == H.Newest(Writes(how, texts, bs)) + HistoryIn(how, texts[0], [])
      <==> H.StartsWell(how.heads, Hists(ws, sts, at, how.read, texts), Writes(how, texts, bs), |at|)
  {
    var hs, writes := Hists(ws, sts, at, how.read, texts), Writes(how, texts, bs);
    LandingsWrote(how, ws, sts, at, sc, texts, bs);
    assert TellsAt(how, ws, sts, at, sc, texts, bs, 0);
    assert BuildWrites(how, texts[0], bs[0], texts[1], ArchiveAt(ws, sts, at[0]), []);
    H.HistoryConserved(how.heads, L.PROJECT_DOC_MAX_CHARS, L.PROJECT_LOG_KEEP_ENTRIES, hs, writes);
    assert at[..|at|] == at && at[..0] == [];
  }

  /**
   * Over the landed updates of a scope, whatever else runs in between, the Log
   * of the live document and the archive memories stored with it hold the new
   * entries, newest first, and then the old ones, exactly when the Log is
   * empty or starts with a bullet at the first landing with a Log entry.
   */
  lemma LandedHistoryConserved(k: Kinds, how: Builder, ws: seq<World>, sts: seq<Step>, at: seq<nat>, sc: Scope)
    returns (texts: seq<string>, bs: seq<T.Build>)
    requires BuilderOk(how) && Run(k, ws, sts) && forall i :: 0 <= i < |sts| ==> StepGated(BuildGate(how), ws[i], sts[i])
    requires at != [] && Landings(ws, sts, at, sc)
    ensures Tells(how, ws, sts, at, sc, texts, bs)
    ensures HistoryIn(how, texts[|at|], Archived(ws, sts, at)) == H.Newest(Writes(how, texts, bs)) + HistoryIn(how, texts[0], [])
      <==> H.StartsWell(how.heads, Hists(ws, sts, at, how.read, texts), Writes(how, texts, bs), |at|)
  {
    forall i | 0 <= i < |at| ensures IsBuilt(how, ws, sts, at[i], sc) { LandingIsBuilt(k, how, ws, sts, at[i], sc); }
    texts, bs := TextsOf(how, ws, sts, at, sc);
    HistoryOver(how, ws, sts, at, sc, texts, bs);
  }

  // ---- the builder of the server -------------------------------------------

  /** How `project_update` builds. */
  function ServerBuilder(looks: MilestoneMoves.Looks, n: U.Names): Builder
    requires |n.heads| == 5
  {
    Builder(n.heads, D.ParseDoc,
      (head: string, b: T.Build, text: string, archive: Option<string>) => T.Built(looks, n, head, b, text, archive),
      (head: string, b: T.Build) => T.WriteOf(looks, n, head, b))
  }

  lemma ParsedLogTrimmed(heads: seq<string>, text: string)
    requires |heads| == 5 && '\r' !in text
    ensures Text.NoOuterNewlines(H.LogBody(heads, D.ParseDoc(text)))
  {
    D.ParsePrintParse(text);
  }

  /** It is one `LandedHistoryConserved` holds of. */
  lemma ServerBuilderOk(looks: MilestoneMoves.Looks, n: U.Names)
    requires U.NamesOk(n)
    ensures BuilderOk(ServerBuilder(looks, n))
  {
    var how := ServerBuilder(looks, n);
    forall head, b, text, archive, past ensures BuildWrites(how, head, b, text, archive, past) {
      if T.Built(looks, n, head, b, text, archive) {
        T.BuiltWrote(looks, n, head, b, text, archive, past);
        ParsedLogTrimmed(n.heads, head);
      }
    }
  }

  /** So it holds of the server's own updates. */
  lemma HostedHistoryConserved(k: Kinds, looks: MilestoneMoves.Looks, how: Builder, ws: seq<World>, sts: seq<Step>, at: seq<nat>, sc: Scope)
    returns (texts: seq<string>, bs: seq<T.Build>)
    requires how == ServerBuilder(looks, U.NAMES)
    requires Run(k, ws, sts) && forall i :: 0 <= i < |sts| ==> StepGated(BuildGate(how), ws[i], sts[i])
    requires at != [] && Landings(ws, sts, at, sc)
    ensures Tells(how, ws, sts, at, sc, texts, bs)
    ensures HistoryIn(how, texts[|at|], Archived(ws, sts, at)) == H.Newest(Writes(how, texts, bs)) + HistoryIn(how, texts[0], [])
      <==> H.StartsWell(how.heads, Hists(ws, sts, at, how.read, texts), Writes(how, texts, bs), |at|)
  {
    U.NamesAreOk();
    ServerBuilderOk(looks, U.NAMES);
    texts, bs := LandedHistoryConserved(k, how, ws, sts, at, sc);
  }
}
