/**
 * The write gate inside the protocol: whatever runs in between, the document a
 * `project_update` puts at the head of a scope was checked against the very
 * document it takes the place of.
 */
module GatedWrites {
  import opened Options
  import opened ProjectHead
  import opened RowStore
  import opened ProjectProtocol
  import opened ProjectRuns
  import MilestoneMoves
  import MilestoneGate
  import MilestonePlan

  /** What a writer keeps to: of the old document, the new one and the archive memory beside it. */
  type Gate = (string, string, Option<string>) -> bool

  /** An update that has built its text has checked it against the head it read. */
  predicate CallGated(gate: Gate, call: Call) {
    (call.UpdateDecided? || call.UpdateRoom?) ==> gate(call.head.content, call.text, call.archive)
  }

  /** An update refuses a text the gate does not accept. */
  predicate StepGated(gate: Gate, w: World, st: Step) {
    (st.Go? && st.c in w.calls && w.calls[st.c].UpdateUnshared? && st.pick.view.head.HeadRow? && !st.pick.refuse) ==>
      gate(st.pick.view.head.row.content, st.pick.text, st.pick.archive)
  }

  ghost predicate AllGated(gate: Gate, w: World) { forall c :: c in w.calls ==> CallGated(gate, w.calls[c]) }

  lemma OwnGated(gate: Gate, w: World, c: nat, p: Pick)
    requires c in w.calls && CallGated(gate, w.calls[c]) && StepGated(gate, w, Go(c, p))
    ensures CallGated(gate, Advance(w, c, p).calls[c])
  {
  }

  lemma OthersSame(w: World, c: nat, p: Pick)
    requires c in w.calls
    ensures Advance(w, c, p).calls.Keys == w.calls.Keys
    ensures forall d :: d in w.calls && d != c ==> Advance(w, c, p).calls[d] == w.calls[d]
  {
  }

  lemma GatedKept(k: Kinds, gate: Gate, w: World, st: Step)
    requires AllGated(gate, w) && Legal(k, w, st) && StepGated(gate, w, st)
    ensures AllGated(gate, Effect(w, st))
  {
    if st.Go? {
      OwnGated(gate, w, st.c, st.pick);
      OthersSame(w, st.c, st.pick);
    }
  }

  lemma {:induction false} GatedRun(k: Kinds, gate: Gate, ws: seq<World>, sts: seq<Step>, i: nat)
    requires Run(k, ws, sts) && i < |ws| && forall j :: 0 <= j < |sts| ==> StepGated(gate, ws[j], sts[j])
    ensures AllGated(gate, ws[i])
  {
    if i > 0 {
      GatedRun(k, gate, ws, sts, i - 1);
      assert StepAt(k, ws, sts, i - 1);
      GatedKept(k, gate, ws[i - 1], sts[i - 1]);
    }
  }

  /** In every interleaved run a landed update takes the head h to the head r, and the gate accepted r's text over h's. */
  lemma LandedUpdateIsGated(k: Kinds, gate: Gate, ws: seq<World>, sts: seq<Step>, i: nat, c: nat) returns (h: Row, r: Row)
    requires Run(k, ws, sts) && i < |sts| && forall j :: 0 <= j < |sts| ==> StepGated(gate, ws[j], sts[j])
    requires LandsAt(ws, sts, i, c) && ws[i].calls[c].UpdateRoom?
    ensures IsHead(ScopeRows(ws[i].acct, ws[i].calls[c].scope), HeadRow(h))
    ensures IsHead(ScopeRows(ws[i + 1].acct, ws[i].calls[c].scope), HeadRow(r))
    ensures gate(h.content, r.content, ws[i].calls[c].archive)
  {
    GatedRun(k, gate, ws, sts, i);
    LandedUpdateSawTheRows(k, ws, sts, i, c);
    h := ws[i].calls[c].head;
    r := RevisionIsHead(k, ws, sts, i, c);
  }

  /** How the Milestones bodies of a document are read: `ProjectUpdate.BodiesIn` is one way. */
  type BodiesReader = string -> seq<string>

  /** The agent write rule as the gate of a hosted update, which is never allowed a pass. */
  function HostedGate(looks: MilestoneMoves.Looks, bodiesIn: BodiesReader): Gate {
    (before: string, after: string, _: Option<string>) => MilestoneGate.Accepted(looks, Some(bodiesIn(before)), bodiesIn(after), None)
  }

  function PassesIn(bodiesIn: BodiesReader, text: string): seq<MilestonePlan.Milestone> {
    MilestoneMoves.Passed(MilestoneGate.PlanOf(bodiesIn(text)))
  }

  /** So no update that lands, in any interleaved run, adds, changes, moves or removes a pass of the scope's live document. */
  lemma LandedUpdateKeepsPasses(k: Kinds, looks: MilestoneMoves.Looks, bodiesIn: BodiesReader, ws: seq<World>, sts: seq<Step>, i: nat, c: nat)
    returns (h: Row, r: Row)
    requires Run(k, ws, sts) && i < |sts| && forall j :: 0 <= j < |sts| ==> StepGated(HostedGate(looks, bodiesIn), ws[j], sts[j])
    requires LandsAt(ws, sts, i, c) && ws[i].calls[c].UpdateRoom?
    ensures IsHead(ScopeRows(ws[i].acct, ws[i].calls[c].scope), HeadRow(h))
    ensures IsHead(ScopeRows(ws[i + 1].acct, ws[i].calls[c].scope), HeadRow(r))
    ensures PassesIn(bodiesIn, r.content) == PassesIn(bodiesIn, h.content)
  {
    h, r := LandedUpdateIsGated(k, HostedGate(looks, bodiesIn), ws, sts, i, c);
    AcceptedSame(looks, bodiesIn(h.content), bodiesIn(r.content));
  }

  lemma AcceptedSame(looks: MilestoneMoves.Looks, before: seq<string>, after: seq<string>)
    requires MilestoneGate.Accepted(looks, Some(before), after, None)
    ensures MilestoneMoves.Passed(MilestoneGate.PlanOf(after)) == MilestoneMoves.Passed(MilestoneGate.PlanOf(before))
  {
  }

  /** Step m lands an update of the scope. */
  predicate UpdatesAt(ws: seq<World>, sts: seq<Step>, m: nat, sc: Scope)
    requires |ws| == |sts| + 1 && m < |sts|
  {
    sts[m].Go? && LandsAt(ws, sts, m, sts[m].c) && ws[m].calls[sts[m].c].UpdateRoom? && ws[m].calls[sts[m].c].scope == sc
  }

  /** Step m leaves the text of the scope's head, as an ack of it does when nothing pending is based on it, or a step elsewhere. */
  ghost predicate LeavesText(ws: seq<World>, m: nat, sc: Scope)
    requires m + 1 < |ws|
  {
    exists h: Row, g: Row ::
      IsHead(ScopeRows(ws[m].acct, sc), HeadRow(h)) && IsHead(ScopeRows(ws[m + 1].acct, sc), HeadRow(g)) && h.content == g.content
  }

  lemma TextLeft(ws: seq<World>, m: nat, sc: Scope, was: Row) returns (r: Row)
    requires m + 1 < |ws| && LeavesText(ws, m, sc) && IsHead(ScopeRows(ws[m].acct, sc), HeadRow(was))
    ensures IsHead(ScopeRows(ws[m + 1].acct, sc), HeadRow(r)) && r.content == was.content
  {
    var a: Row, b: Row :| IsHead(ScopeRows(ws[m].acct, sc), HeadRow(a)) && IsHead(ScopeRows(ws[m + 1].acct, sc), HeadRow(b)) && a.content == b.content;
    OneHeadRow(ScopeRows(ws[m].acct, sc), was, a);
    r := b;
  }

  lemma PassesAfterStep(k: Kinds, looks: MilestoneMoves.Looks, bodiesIn: BodiesReader, ws: seq<World>, sts: seq<Step>, m: nat, sc: Scope, was: Row)
    returns (r: Row)
    requires Run(k, ws, sts) && m < |sts| && forall i :: 0 <= i < |sts| ==> StepGated(HostedGate(looks, bodiesIn), ws[i], sts[i])
    requires UpdatesAt(ws, sts, m, sc) || LeavesText(ws, m, sc)
    requires IsHead(ScopeRows(ws[m].acct, sc), HeadRow(was))
    ensures IsHead(ScopeRows(ws[m + 1].acct, sc), HeadRow(r))
    ensures PassesIn(bodiesIn, r.content) == PassesIn(bodiesIn, was.content)
  {
    if UpdatesAt(ws, sts, m, sc) {
      var from;
      from, r := LandedUpdateKeepsPasses(k, looks, bodiesIn, ws, sts, m, sts[m].c);
      OneHeadRow(ScopeRows(ws[m].acct, sc), was, from);
    } else {
      r := TextLeft(ws, m, sc, was);
    }
  }

  /** These passes are the live document's. */
  ghost predicate LivePasses(bodiesIn: BodiesReader, w: World, sc: Scope, passes: seq<MilestonePlan.Milestone>) {
    exists r: Row :: IsHead(ScopeRows(w.acct, sc), HeadRow(r)) && PassesIn(bodiesIn, r.content) == passes
  }

  lemma PassesStayStep(k: Kinds, looks: MilestoneMoves.Looks, bodiesIn: BodiesReader, ws: seq<World>, sts: seq<Step>, m: nat, sc: Scope,
                       passes: seq<MilestonePlan.Milestone>)
    requires Run(k, ws, sts) && m < |sts| && forall i :: 0 <= i < |sts| ==> StepGated(HostedGate(looks, bodiesIn), ws[i], sts[i])
    requires (UpdatesAt(ws, sts, m, sc) || LeavesText(ws, m, sc)) && LivePasses(bodiesIn, ws[m], sc, passes)
    ensures LivePasses(bodiesIn, ws[m + 1], sc, passes)
  {
    var was: Row :| IsHead(ScopeRows(ws[m].acct, sc), HeadRow(was)) && PassesIn(bodiesIn, was.content) == passes;
    var r := PassesAfterStep(k, looks, bodiesIn, ws, sts, m, sc, was);
  }

  lemma {:induction false} StaysOn(live: World -> bool, ws: seq<World>, i: nat, j: nat)
    requires i <= j < |ws| && live(ws[i]) && forall m :: i <= m < j && live(ws[m]) ==> live(ws[m + 1])
    ensures live(ws[j])
    decreases j
  {
    if i < j { StaysOn(live, ws, i, j - 1); }
  }

  /** Over any stretch of a run in which only landed updates change the text of the scope's head, its passes stay. */
  lemma UpdatesKeepPasses(k: Kinds, looks: MilestoneMoves.Looks, bodiesIn: BodiesReader, ws: seq<World>, sts: seq<Step>, i: nat, j: nat, sc: Scope,
                          passes: seq<MilestonePlan.Milestone>)
    requires Run(k, ws, sts) && i <= j < |ws| && forall m :: 0 <= m < |sts| ==> StepGated(HostedGate(looks, bodiesIn), ws[m], sts[m])
    requires forall m :: i <= m < j ==> UpdatesAt(ws, sts, m, sc) || LeavesText(ws, m, sc)
    requires LivePasses(bodiesIn, ws[i], sc, passes)
    ensures LivePasses(bodiesIn, ws[j], sc, passes)
  {
    var live := (w: World) => LivePasses(bodiesIn, w, sc, passes);
    forall m | i <= m < j && live(ws[m]) ensures live(ws[m + 1]) { PassesStayStep(k, looks, bodiesIn, ws, sts, m, sc, passes); }
    StaysOn(live, ws, i, j);
  }
}
