/** Hosted updates of the server itself: their texts as they are built, their Milestones bodies as they are read. */
module HostedUpdates {
  import opened Options
  import opened ProjectHead
  import opened RowStore
  import opened ProjectProtocol
  import opened ProjectRuns
  import opened GatedWrites
  import D = ProjectDoc
  import L = ProjectLog
  import M = ProjectMerge
  import U = ProjectUpdate
  import MilestoneGate
  import MilestoneMoves
  import MilestonePlan

  lemma GateIs(looks: MilestoneMoves.Looks, bodiesIn: BodiesReader, before: string, after: string, archive: Option<string>)
    ensures HostedGate(looks, bodiesIn)(before, after, archive) <==> MilestoneGate.Accepted(looks, Some(bodiesIn(before)), bodiesIn(after), None)
  {
  }

  lemma ReadBackAccepted(looks: MilestoneMoves.Looks, before: seq<string>, plan: Option<MilestoneMoves.PlanInput>, after: seq<string>)
    requires U.ReadsBack(looks, before, plan, after)
    ensures MilestoneGate.Accepted(looks, Some(before), after, None)
  {
  }

  /** The text an update builds from a head passes the gate against that head. */
  lemma BuiltTextIsGated(looks: MilestoneMoves.Looks, head: string, u: M.Update, date: string, plan: Option<MilestoneMoves.PlanInput>, maxChars: nat, keep: int, o: L.Outcome, d: D.Doc, text: string, archive: Option<string>)
    requires U.HeadOk(head, u, date) && U.Updated(looks, U.NAMES, head, u, date, plan) == Some(d)
    requires L.IsOutcome(U.NAMES.heads, d, maxChars, keep, o) && text == D.Serialize(L.RolledOf(U.NAMES.heads, d, o).doc)
    ensures HostedGate(looks, U.BodiesIn)(head, text, archive)
  {
    U.NamesAreOk();
    U.UpdateReadsBack(looks, U.NAMES, head, u, date, plan, maxChars, keep, o);
    ReadBackAccepted(looks, U.BodiesIn(head), plan, U.BodiesIn(text));
    GateIs(looks, U.BodiesIn, head, text, archive);
  }

  /** In a stretch of a run where only landed updates change the text of a scope's head, the passes the server reads in it stay. */
  lemma HostedUpdatesKeepPasses(k: Kinds, looks: MilestoneMoves.Looks, ws: seq<World>, sts: seq<Step>, i: nat, j: nat, sc: Scope,
                                passes: seq<MilestonePlan.Milestone>)
    requires Run(k, ws, sts) && i <= j < |ws| && forall m :: 0 <= m < |sts| ==> StepGated(HostedGate(looks, U.BodiesIn), ws[m], sts[m])
    requires forall m :: i <= m < j ==> UpdatesAt(ws, sts, m, sc) || LeavesText(ws, m, sc)
    requires LivePasses(U.BodiesIn, ws[i], sc, passes)
    ensures LivePasses(U.BodiesIn, ws[j], sc, passes)
  {
    UpdatesKeepPasses(k, looks, U.BodiesIn, ws, sts, i, j, sc, passes);
  }
}
