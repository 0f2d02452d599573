/**
 * The agent write rule (ADR 0065 Decision 2) on the Milestones section: its
 * checks, with a map of passed lines that is emptied as they are found, accept
 * exactly the writes that keep every pass in place and add at most the allowed one.
 */
module MilestoneGate {
  import opened Options
  import opened Text
  import opened MilestoneLine
  import opened MilestonePlan
  import opened MilestoneMoves

  /** How a milestone is compared: by its line. */
  type Printer = Milestone -> string

  // ---- what the rule means -------------------------------------------------

  /** The one pass a write may add, told by its line. */
  predicate IsAllowed(fmt: Printer, m: Milestone, allowed: Option<Milestone>) {
    allowed.Some? && allowed.value.PassedM? && allowed.value.author == Agent && m.id == allowed.value.id && fmt(m) == fmt(allowed.value)
  }

  /** The same passes in the same order, then at most the allowed one. */
  predicate KeepsPasses(fmt: Printer, kept: seq<Milestone>, now: seq<Milestone>, allowed: Option<Milestone>) {
    now == kept || (|now| == |kept| + 1 && kept <= now && IsAllowed(fmt, now[|kept|], allowed))
  }

  function ItemsOf(p: Plan): seq<Milestone> { if p.Items? then p.items else [] }

  /** An open milestone that was not there before carries no pass in its text. */
  predicate CleanAt(looks: Looks, was: seq<Milestone>, m: Milestone) {
    (m.OpenM? && m !in was) ==> (!looks(m.title) && !looks(m.test))
  }

  predicate NewOpenCleanItems(looks: Looks, was: seq<Milestone>, now: seq<Milestone>) {
    forall i :: 0 <= i < |now| ==> CleanAt(looks, was, now[i])
  }

  predicate NewOpenClean(looks: Looks, was: Plan, now: Plan) { NewOpenCleanItems(looks, ItemsOf(was), ItemsOf(now)) }

  /** `parseMilestones`: the plan of a document, by the bodies of its Milestones sections. */
  function PlanOf(bodies: seq<string>): Plan {
    if |bodies| == 0 then Absent else if |bodies| > 1 then Malformed else ParseSection(bodies[0])
  }

  /** What the gate accepts; `before` is None when the write creates the document. */
  predicate Accepted(looks: Looks, before: Option<seq<string>>, after: seq<string>, allowed: Option<Milestone>) {
    var was := if before.None? then Absent else PlanOf(before.value);
    if was.Malformed? then before == Some(after)
    else
      var now := PlanOf(after);
      !now.Malformed? && KeepsPasses(FormatMilestone, Passed(was), Passed(now), allowed) && NewOpenClean(looks, was, now)
  }

  // ---- the checks ----------------------------------------------------------

  ghost predicate Injective(fmt: Printer, ok: Milestone -> bool) {
    forall a: Milestone, b: Milestone :: ok(a) && ok(b) && fmt(a) == fmt(b) ==> a == b
  }

  predicate Known(m: Milestone, items: seq<Milestone>) { exists i :: 0 <= i < |items| && items[i].id == m.id }

  /** A kept pass is found by its id, with its own line. */
  predicate Found(fmt: Printer, k: Milestone, now: seq<Milestone>) {
    exists i :: 0 <= i < |now| && now[i].id == k.id && fmt(now[i]) == fmt(k)
  }

  /** The passes of `now` that are not kept ones, in order. */
  function Added(kept: seq<Milestone>, now: seq<Milestone>): (r: seq<Milestone>)
    ensures forall i :: 0 <= i < |now| && !Known(now[i], kept) ==> now[i] in r
    ensures forall m :: m in r ==> m in now && !Known(m, kept)
  {
    if now == [] then []
    else
      var n := |now| - 1;
      Added(kept, now[..n]) + (if Known(now[n], kept) then [] else [now[n]])
  }

  /** Each pass stands where the order of ids says. */
  predicate InPlace(now: seq<Milestone>, order: seq<string>) {
    |now| <= |order| && forall i :: 0 <= i < |now| ==> now[i].id == order[i]
  }

  predicate AllFound(fmt: Printer, kept: seq<Milestone>, now: seq<Milestone>) {
    forall i :: 0 <= i < |kept| ==> Found(fmt, kept[i], now)
  }

  predicate AllAllowed(fmt: Printer, added: seq<Milestone>, allowed: Option<Milestone>) {
    forall i :: 0 <= i < |added| ==> IsAllowed(fmt, added[i], allowed)
  }

  /** What the loops check. */
  predicate Checks(fmt: Printer, kept: seq<Milestone>, now: seq<Milestone>, allowed: Option<Milestone>) {
    && AllFound(fmt, kept, now)
    && AllAllowed(fmt, Added(kept, now), allowed)
    && InPlace(now, Ids(kept) + Ids(Added(kept, now)))
  }

  predicate AllFine(ok: Milestone -> bool, items: seq<Milestone>) { forall i :: 0 <= i < |items| ==> ok(items[i]) }

  lemma OrderAt(kept: seq<Milestone>, added: seq<Milestone>, now: seq<Milestone>, i: nat)
    requires InPlace(now, Ids(kept) + Ids(added)) && i < |now| && i < |kept|
    ensures now[i].id == kept[i].id
  {
    assert (Ids(kept) + Ids(added))[i] == kept[i].id;
  }

  /** The kept passes come first, by their ids. */
  lemma KeptFirst(fmt: Printer, kept: seq<Milestone>, added: seq<Milestone>, now: seq<Milestone>)
    requires InPlace(now, Ids(kept) + Ids(added)) && IdsDistinct(kept) && (|now| < |kept| ==> Found(fmt, kept[|now|], now))
    ensures |kept| <= |now| && forall i :: 0 <= i < |kept| ==> now[i].id == kept[i].id
  {
    forall i | 0 <= i < |kept| && i < |now| ensures now[i].id == kept[i].id { OrderAt(kept, added, now, i); }
  }

  lemma KeptLine(fmt: Printer, k: Milestone, now: seq<Milestone>, i: nat)
    requires Found(fmt, k, now) && IdsDistinct(now) && i < |now| && now[i].id == k.id
    ensures fmt(now[i]) == fmt(k)
  {
    var j :| 0 <= j < |now| && now[j].id == k.id && fmt(now[j]) == fmt(k);
  }

  lemma RestUnknown(kept: seq<Milestone>, now: seq<Milestone>, i: nat)
    requires IdsDistinct(now) && |kept| <= i < |now| && forall j :: 0 <= j < |kept| ==> now[j].id == kept[j].id
    ensures !Known(now[i], kept)
  {
  }

  /** After the kept passes stands at most one, the allowed one. */
  lemma RestAllowed(fmt: Printer, kept: seq<Milestone>, now: seq<Milestone>, allowed: Option<Milestone>, i: nat)
    requires AllAllowed(fmt, Added(kept, now), allowed)
    requires IdsDistinct(now) && |kept| <= i < |now| && forall j :: 0 <= j < |kept| ==> now[j].id == kept[j].id
    ensures IsAllowed(fmt, now[i], allowed)
  {
    RestUnknown(kept, now, i);
    var added := Added(kept, now);
    assert now[i] in added;
    var k :| 0 <= k < |added| && added[k] == now[i];
  }

  lemma ChecksSound(fmt: Printer, fine: Milestone -> bool, kept: seq<Milestone>, now: seq<Milestone>, allowed: Option<Milestone>)
    requires Injective(fmt, fine) && AllFine(fine, kept) && AllFine(fine, now) && IdsDistinct(kept) && IdsDistinct(now)
    requires Checks(fmt, kept, now, allowed)
    ensures KeepsPasses(fmt, kept, now, allowed)
  {
    KeptFirst(fmt, kept, Added(kept, now), now);
    forall i | 0 <= i < |kept| ensures now[i] == kept[i] {
      KeptLine(fmt, kept[i], now, i);
      assert fine(now[i]) && fine(kept[i]);
    }
    assert now[..|kept|] == kept;
    forall i | |kept| <= i < |now| ensures IsAllowed(fmt, now[i], allowed) { RestAllowed(fmt, kept, now, allowed, i); }
    AtMostOneMore(fmt, kept, now, allowed);
    if |now| == |kept| { assert now == now[..|kept|]; }
  }

  /** Of two passes one is not the allowed one. */
  lemma AtMostOneMore(fmt: Printer, kept: seq<Milestone>, now: seq<Milestone>, allowed: Option<Milestone>)
    requires IdsDistinct(now)
    ensures |now| <= |kept| + 1 || exists i :: |kept| <= i < |now| && !IsAllowed(fmt, now[i], allowed)
  {
    if |now| > |kept| + 1 && IsAllowed(fmt, now[|kept|], allowed) {
      assert now[|kept|].id != now[|kept| + 1].id;
      assert !IsAllowed(fmt, now[|kept| + 1], allowed);
    }
  }

  lemma AddedNone(kept: seq<Milestone>, now: seq<Milestone>)
    requires now <= kept
    ensures Added(kept, now) == []
  {
    if now != [] {
      var n := |now| - 1;
      assert kept[n].id == now[n].id;
      AddedNone(kept, now[..n]);
    }
  }

  lemma AddedOne(kept: seq<Milestone>, now: seq<Milestone>)
    requires IdsDistinct(now) && |now| == |kept| + 1 && kept <= now
    ensures Added(kept, now) == [now[|kept|]]
  {
    AddedNone(kept, now[..|kept|]);
    RestUnknown(kept, now, |kept|);
  }

  lemma AddedIs(fmt: Printer, kept: seq<Milestone>, now: seq<Milestone>, allowed: Option<Milestone>)
    requires IdsDistinct(now) && KeepsPasses(fmt, kept, now, allowed)
    ensures now == kept + Added(kept, now)
    ensures AllAllowed(fmt, Added(kept, now), allowed)
  {
    if now == kept {
      AddedNone(kept, now);
      assert kept + [] == kept;
    } else {
      AddedOne(kept, now);
      OneMore(kept, now);
    }
  }

  lemma OneMore(kept: seq<Milestone>, now: seq<Milestone>)
    requires |now| == |kept| + 1 && kept <= now
    ensures now == kept + [now[|kept|]]
  {
  }

  lemma CompletePlace(fmt: Printer, kept: seq<Milestone>, now: seq<Milestone>, allowed: Option<Milestone>)
    requires IdsDistinct(now) && KeepsPasses(fmt, kept, now, allowed)
    ensures InPlace(now, Ids(kept) + Ids(Added(kept, now)))
  {
    AddedIs(fmt, kept, now, allowed);
    IdsConcat(kept, Added(kept, now));
  }

  lemma CompleteFound(fmt: Printer, kept: seq<Milestone>, now: seq<Milestone>)
    requires kept <= now
    ensures AllFound(fmt, kept, now)
  {
    forall i | 0 <= i < |kept| ensures Found(fmt, kept[i], now) { assert now[i] == kept[i]; }
  }

  lemma ChecksComplete(fmt: Printer, kept: seq<Milestone>, now: seq<Milestone>, allowed: Option<Milestone>)
    requires IdsDistinct(now) && KeepsPasses(fmt, kept, now, allowed)
    ensures Checks(fmt, kept, now, allowed)
  {
    CompletePlace(fmt, kept, now, allowed);
    AddedIs(fmt, kept, now, allowed);
    CompleteFound(fmt, kept, now);
  }

  lemma IdsConcat(a: seq<Milestone>, b: seq<Milestone>)
    ensures Ids(a + b) == Ids(a) + Ids(b)
  {
  }

  // ---- the method ----------------------------------------------------------

  /** The map of these milestones by their ids. */
  predicate IsIndex(m: map<string, Milestone>, now: seq<Milestone>) {
    && (forall i :: 0 <= i < |now| ==> now[i].id in m && m[now[i].id] == now[i])
    && (forall id :: id in m ==> m[id] in now && m[id].id == id)
  }

  method IndexById(now: seq<Milestone>) returns (m: map<string, Milestone>)
    requires IdsDistinct(now)
    ensures IsIndex(m, now)
  {
    m := map[];
    for i := 0 to |now|
      invariant forall j :: 0 <= j < i ==> now[j].id in m && m[now[j].id] == now[j]
      invariant forall id :: id in m ==> m[id] in now && m[id].id == id
    {
      m := m[now[i].id := now[i]];
    }
  }

  lemma FoundIff(fmt: Printer, k: Milestone, now: seq<Milestone>, m: map<string, Milestone>)
    requires IsIndex(m, now)
    ensures Found(fmt, k, now) <==> k.id in m && fmt(m[k.id]) == fmt(k)
  {
    if k.id in m && fmt(m[k.id]) == fmt(k) {
      var i :| 0 <= i < |now| && now[i] == m[k.id];
    }
  }

  /** The map once the first n kept passes are taken out of it. */
  ghost predicate IsLeft(left: map<string, Milestone>, all: map<string, Milestone>, kept: seq<Milestone>, n: nat)
    requires n <= |kept|
  {
    && (forall id :: id in left <==> id in all && forall j :: 0 <= j < n ==> kept[j].id != id)
    && (forall id :: id in left ==> left[id] == all[id])
  }

  lemma LeftOut(left: map<string, Milestone>, all: map<string, Milestone>, kept: seq<Milestone>, n: nat)
    requires n < |kept| && IsLeft(left, all, kept, n)
    ensures IsLeft(left - {kept[n].id}, all, kept, n + 1)
  {
  }

  /** A pass not yet taken out is in what is left exactly when it is in the map. */
  lemma StillThere(left: map<string, Milestone>, all: map<string, Milestone>, kept: seq<Milestone>, n: nat)
    requires n < |kept| && IsLeft(left, all, kept, n) && IdsDistinct(kept)
    ensures kept[n].id in left <==> kept[n].id in all
    ensures kept[n].id in left ==> left[kept[n].id] == all[kept[n].id]
  {
  }

  lemma LeftIsUnknown(left: map<string, Milestone>, all: map<string, Milestone>, kept: seq<Milestone>, now: seq<Milestone>)
    requires IsIndex(all, now) && IsLeft(left, all, kept, |kept|)
    ensures forall i :: 0 <= i < |now| ==> (now[i].id in left <==> !Known(now[i], kept))
  {
  }

  /** Each kept pass is found and taken out of the map. */
  method CheckKept(fmt: Printer, kept: seq<Milestone>, now: seq<Milestone>) returns (ok: bool, left: map<string, Milestone>)
    requires IdsDistinct(kept) && IdsDistinct(now)
    ensures ok <==> AllFound(fmt, kept, now)
    ensures ok ==> forall i :: 0 <= i < |now| ==> (now[i].id in left <==> !Known(now[i], kept))
  {
    var all := IndexById(now);
    left := all;
    for i := 0 to |kept|
      invariant forall j :: 0 <= j < i ==> Found(fmt, kept[j], now)
      invariant IsLeft(left, all, kept, i)
    {
      FoundIff(fmt, kept[i], now, all);
      StillThere(left, all, kept, i);
      if kept[i].id !in left || fmt(left[kept[i].id]) != fmt(kept[i]) { return false, left; }
      LeftOut(left, all, kept, i);
      left := left - {kept[i].id};
    }
    LeftIsUnknown(left, all, kept, now);
    ok := true;
  }

  /** What is left in the map is a pass that was not there: only the allowed one may be. */
  method CheckAdded(fmt: Printer, kept: seq<Milestone>, now: seq<Milestone>, left: map<string, Milestone>, allowed: Option<Milestone>)
    returns (ok: bool, added: seq<Milestone>)
    requires forall i :: 0 <= i < |now| ==> (now[i].id in left <==> !Known(now[i], kept))
    ensures added == Added(kept, now)
    ensures ok <==> AllAllowed(fmt, added, allowed)
  {
    added := [];
    for i := 0 to |now|
      invariant added == Added(kept, now[..i])
    {
      assert now[..i + 1][..i] == now[..i];
      if now[i].id in left { added := added + [now[i]]; }
    }
    assert now[..|now|] == now;
    for i := 0 to |added|
      invariant forall j :: 0 <= j < i ==> IsAllowed(fmt, added[j], allowed)
    {
      if !IsAllowed(fmt, added[i], allowed) { return false, added; }
    }
    ok := true;
  }

  method CheckOrder(now: seq<Milestone>, order: seq<string>) returns (ok: bool)
    ensures ok <==> InPlace(now, order)
  {
    for i := 0 to |now|
      invariant i <= |order| && forall j :: 0 <= j < i ==> now[j].id == order[j]
    {
      if i >= |order| || now[i].id != order[i] { return false; }
    }
    ok := true;
  }

  /** The checks on the passed milestones. */
  method CheckPasses(fmt: Printer, ghost fine: Milestone -> bool, kept: seq<Milestone>, now: seq<Milestone>, allowed: Option<Milestone>) returns (ok: bool)
    requires Injective(fmt, fine) && AllFine(fine, kept) && AllFine(fine, now) && IdsDistinct(kept) && IdsDistinct(now)
    ensures ok <==> KeepsPasses(fmt, kept, now, allowed)
  {
    if KeepsPasses(fmt, kept, now, allowed) { ChecksComplete(fmt, kept, now, allowed); }
    if Checks(fmt, kept, now, allowed) { ChecksSound(fmt, fine, kept, now, allowed); }
    var left, added;
    ok, left := CheckKept(fmt, kept, now);
    if !ok { return; }
    ok, added := CheckAdded(fmt, kept, now, left, allowed);
    if !ok { return; }
    ok := CheckOrder(now, Ids(kept) + Ids(added));
  }

  /** The check on the open milestones, against the lines there before. */
  method CheckOpen(fmt: Printer, ghost fine: Milestone -> bool, looks: Looks, was: seq<Milestone>, now: seq<Milestone>) returns (ok: bool)
    requires Injective(fmt, fine) && AllFine(fine, was) && AllFine(fine, now)
    ensures ok <==> NewOpenCleanItems(looks, was, now)
  {
    var earlier := set m | m in was :: fmt(m);
    for i := 0 to |now|
      invariant forall j :: 0 <= j < i ==> CleanAt(looks, was, now[j])
    {
      EarlierIff(fmt, fine, was, now[i]);
      if now[i].OpenM? && fmt(now[i]) !in earlier && (looks(now[i].title) || looks(now[i].test)) { return false; }
    }
    ok := true;
  }

  lemma EarlierIff(fmt: Printer, fine: Milestone -> bool, was: seq<Milestone>, m: Milestone)
    requires Injective(fmt, fine) && AllFine(fine, was) && fine(m)
    ensures m in was <==> fmt(m) in set x | x in was :: fmt(x)
  {
    if fmt(m) in set x | x in was :: fmt(x) {
      var x :| x in was && fmt(x) == fmt(m);
      assert fine(x);
    }
  }

  lemma FormatsInjective()
    ensures Injective(FormatMilestone, Valid)
  {
    forall a: Milestone, b: Milestone | Valid(a) && Valid(b) && FormatMilestone(a) == FormatMilestone(b) ensures a == b {
      FormatInjective(a, b);
    }
  }

  lemma PlanReadable(bodies: seq<string>)
    requires !PlanOf(bodies).Malformed?
    ensures Readable(PlanOf(bodies)) && AllFine(Valid, ItemsOf(PlanOf(bodies)))
  {
    if |bodies| == 1 {
      NeverAbsent(LineMilestone, ReasonOk, Crlf(bodies[0]));
      SectionIff(bodies[0], PlanOf(bodies));
    }
  }

  /** `assertSectionKeepsPasses`. */
  method AssertSectionKeepsPasses(looks: Looks, before: Option<seq<string>>, after: seq<string>, allowed: Option<Milestone>) returns (ok: bool)
    ensures ok <==> Accepted(looks, before, after, allowed)
  {
    var was := if before.None? then Absent else PlanOf(before.value);
    if was.Malformed? { return before.value == after; }
    var now := PlanOf(after);
    if now.Malformed? { return false; }
    if before.Some? { PlanReadable(before.value); }
    PlanReadable(after);
    PassedOk(was);
    PassedOk(now);
    FormatsInjective();
    if |Passed(was)| > 0 && !now.Items? { return false; }
    ok := CheckPasses(FormatMilestone, Valid, Passed(was), Passed(now), allowed);
    if !ok { return; }
    ok := CheckOpen(FormatMilestone, Valid, looks, ItemsOf(was), ItemsOf(now));
  }

  // ---- runs of accepted writes ---------------------------------------------

  /** The Milestones bodies of a document before and after each accepted write, with the pass each write may add. */
  predicate AcceptedRun(looks: Looks, bs: seq<seq<string>>, allowed: seq<Option<Milestone>>) {
    |bs| == |allowed| + 1 && forall i :: 0 <= i < |allowed| ==> Accepted(looks, Some(bs[i]), bs[i + 1], allowed[i])
  }

  /** How many of these writes may add a pass. */
  function AllowedCount(allowed: seq<Option<Milestone>>): nat {
    if allowed == [] then 0 else AllowedCount(allowed[..|allowed| - 1]) + (if allowed[|allowed| - 1].Some? then 1 else 0)
  }

  lemma AcceptedStep(looks: Looks, before: seq<string>, after: seq<string>, allowed: Option<Milestone>)
    requires Accepted(looks, Some(before), after, allowed)
    ensures PlanOf(before).Malformed? ==> after == before
    ensures !PlanOf(before).Malformed? ==>
      !PlanOf(after).Malformed? && Passed(PlanOf(before)) <= Passed(PlanOf(after)) &&
      |Passed(PlanOf(after))| <= |Passed(PlanOf(before))| + (if allowed.Some? then 1 else 0)
  {
  }

  /**
   * Over any run of accepted writes an unreadable section stays as it is; in a
   * readable one no pass is ever changed, moved or removed, and no more are
   * added than the writes that were allowed one: none over hosted writes.
   */
  lemma {:induction false} PassesOnlyGrow(looks: Looks, bs: seq<seq<string>>, allowed: seq<Option<Milestone>>)
    requires AcceptedRun(looks, bs, allowed)
    ensures var first, last := PlanOf(bs[0]), PlanOf(bs[|allowed|]);
      && (first.Malformed? ==> bs[|allowed|] == bs[0])
      && (!first.Malformed? ==> !last.Malformed? && Passed(first) <= Passed(last) && |Passed(last)| <= |Passed(first)| + AllowedCount(allowed))
    decreases |allowed|
  {
    if allowed != [] {
      var n := |allowed| - 1;
      RunFront(looks, bs, allowed);
      PassesOnlyGrow(looks, bs[..n + 1], allowed[..n]);
      AcceptedStep(looks, bs[n], bs[n + 1], allowed[n]);
    }
  }

  lemma RunFront(looks: Looks, bs: seq<seq<string>>, allowed: seq<Option<Milestone>>)
    requires AcceptedRun(looks, bs, allowed) && allowed != []
    ensures AcceptedRun(looks, bs[..|allowed|], allowed[..|allowed| - 1])
  {
    var front, first := bs[..|allowed|], allowed[..|allowed| - 1];
    forall i | 0 <= i < |first| ensures Accepted(looks, Some(front[i]), front[i + 1], first[i]) {
      assert Accepted(looks, Some(bs[i]), bs[i + 1], allowed[i]);
    }
  }

  lemma {:induction false} NoneAllowed(allowed: seq<Option<Milestone>>)
    requires forall i :: 0 <= i < |allowed| ==> allowed[i].None?
    ensures AllowedCount(allowed) == 0
  {
    if allowed != [] { NoneAllowed(allowed[..|allowed| - 1]); }
  }

  /** Hosted writes, which are never allowed a pass, leave the passes exactly as they were. */
  lemma HostedWritesKeepPasses(looks: Looks, bs: seq<seq<string>>, allowed: seq<Option<Milestone>>)
    requires AcceptedRun(looks, bs, allowed) && forall i :: 0 <= i < |allowed| ==> allowed[i].None?
    ensures Passed(PlanOf(bs[|allowed|])) == Passed(PlanOf(bs[0]))
  {
    NoneAllowed(allowed);
    PassesOnlyGrow(looks, bs, allowed);
  }
}
