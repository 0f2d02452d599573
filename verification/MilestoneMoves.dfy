/** The agents' two transitions of a milestone plan: replacing its open part, and passing the current milestone. */
module MilestoneMoves {
  import opened Options
  import opened Text
  import opened MilestoneLine
  import opened MilestoneIds
  import opened MilestonePlan

  datatype Proposal = Proposal(id: Option<string>, title: string, test: string)
  datatype PlanInput = NoneInput(reason: string) | ItemsInput(items: seq<Proposal>)
  /** `looksLikePass`: whether a reader would take the text for a pass. */
  type Looks = string -> bool

  const LONGEST_STAMP := 28

  function PassedOf(items: seq<Milestone>): (r: seq<Milestone>) {
    if items == [] then [] else (if items[0].PassedM? then [items[0]] else []) + PassedOf(items[1..])
  }

  /** `passedMilestones`. */
  function Passed(p: Plan): seq<Milestone> { if p.Items? then PassedOf(p.items) else [] }

  function Ids(items: seq<Milestone>): (r: seq<string>)
    ensures |r| == |items| && forall i :: 0 <= i < |r| ==> r[i] == items[i].id
  {
    if items == [] then [] else [items[0].id] + Ids(items[1..])
  }

  // ---- replacing the open part ---------------------------------------------

  predicate ProposalOk(looks: Looks, p: Proposal) {
    !looks(p.title) && !looks(p.test) && TextOk(p.title, MILESTONE_TITLE_MAX_CHARS) && TextOk(p.test, MILESTONE_TEST_MAX_CHARS)
  }

  function GivenIds(ps: seq<Proposal>): (r: seq<string>)
    ensures forall i :: 0 <= i < |ps| && ps[i].id.Some? ==> ps[i].id.value in r
    ensures forall id :: id in r ==> exists i :: 0 <= i < |ps| && ps[i].id == Some(id)
  {
    if ps == [] then []
    else
      var n := |ps| - 1;
      GivenIds(ps[..n]) + (if ps[n].id.Some? then [ps[n].id.value] else [])
  }

  function Auto(p: Proposal): nat { if p.id.None? then 1 else 0 }

  /** How many proposals have no id of their own. */
  function Unnamed(ps: seq<Proposal>): (n: nat) {
    if ps == [] then 0 else Unnamed(ps[..|ps| - 1]) + Auto(ps[|ps| - 1])
  }

  /** The given ids are ids, are not passed ones and are not given twice. */
  predicate GivenOk(passed: seq<string>, ps: seq<Proposal>) {
    forall i :: 0 <= i < |ps| && ps[i].id.Some? ==> GivenAt(passed, ps, i)
  }

  predicate GivenAt(passed: seq<string>, ps: seq<Proposal>, i: nat)
    requires i < |ps| && ps[i].id.Some?
  {
    IsId(ps[i].id.value) && ps[i].id.value !in passed && forall j :: 0 <= j < i ==> ps[j].id != ps[i].id
  }

  function OpenedAt(ps: seq<Proposal>, next: nat, i: nat): Milestone
    requires i < |ps|
  {
    OpenM(if ps[i].id.Some? then ps[i].id.value else IdOf(next + Unnamed(ps[..i])), ps[i].title, ps[i].test)
  }

  /** The proposals as open milestones: those without an id are numbered on from `next`. */
  function Opened(ps: seq<Proposal>, next: nat): (r: seq<Milestone>)
    ensures |r| == |ps| && forall i :: 0 <= i < |ps| ==> r[i] == OpenedAt(ps, next, i)
  {
    if ps == [] then []
    else
      var n := |ps| - 1;
      var r := Opened(ps[..n], next) + [OpenedAt(ps, next, n)];
      assert forall i :: 0 <= i < n ==> ps[..n][..i] == ps[..i];
      r
  }

  /** The numbers handed out are all ids. */
  predicate NumbersFit(ps: seq<Proposal>, first: nat) { Unnamed(ps) > 0 ==> first + Unnamed(ps) - 1 <= MAX_NUMBER }

  /** Room for the longest stamp. */
  predicate Room(m: Milestone) { |FormatMilestone(m)| + LONGEST_STAMP <= MILESTONE_LINE_MAX_CHARS }

  predicate LineFits(m: Milestone) { |FormatMilestone(m)| <= MILESTONE_LINE_MAX_CHARS }

  /** `assertPlanFits` finds nothing. */
  predicate Fits(items: seq<Milestone>) {
    |items| <= MILESTONE_MAX_ITEMS && forall i :: 0 <= i < |items| ==> LineFits(items[i])
  }

  /** The first number after every used one. */
  function NextFree(passed: seq<string>, ps: seq<Proposal>): nat { MaxNumber(passed + GivenIds(ps)) + 1 }

  predicate AllOk(looks: Looks, ps: seq<Proposal>) { forall i :: 0 <= i < |ps| ==> ProposalOk(looks, ps[i]) }

  predicate AllRoom(open: seq<Milestone>) { forall i :: 0 <= i < |open| ==> Room(open[i]) }

  /** Whether these proposals may follow these passed milestones, numbered on from `next`. */
  predicate Accepts(fine: Proposal -> bool, passed: seq<Milestone>, ps: seq<Proposal>, next: nat) {
    && (ps != [] || passed != [])
    && (forall i :: 0 <= i < |ps| ==> fine(ps[i])) && GivenOk(Ids(passed), ps) && NumbersFit(ps, next)
    && AllRoom(Opened(ps, next)) && Fits(passed + Opened(ps, next))
  }

  /** The proposals behind the passed milestones, when they may stand there. */
  function Extended(fine: Proposal -> bool, passed: seq<Milestone>, ps: seq<Proposal>): Option<seq<Milestone>> {
    var next := NextFree(Ids(passed), ps);
    if Accepts(fine, passed, ps, next) then Some(passed + Opened(ps, next)) else None
  }

  function PlanIn(items: Option<seq<Milestone>>): Option<Plan> { if items.Some? then Some(Items(items.value)) else None }

  function Fine(looks: Looks): Proposal -> bool { p => ProposalOk(looks, p) }

  /** `replacePlan`, without the words of its refusals. */
  function Replaced(looks: Looks, current: Plan, incoming: PlanInput): Option<Plan> {
    if current.Malformed? then None
    else
      var passed := Passed(current);
      match incoming
      case NoneInput(reason) => if passed == [] && TextOk(reason, REASON_MAX_CHARS) then Some(NoPlan(reason)) else None
      case ItemsInput(ps) => PlanIn(Extended(Fine(looks), passed, ps))
  }

  // ---- the loops of replacePlan --------------------------------------------

  /** The first loop: each proposal, then its id when it has one. */
  method CheckProposals(fine: Proposal -> bool, passed: seq<string>, ps: seq<Proposal>) returns (ok: bool, used: set<string>)
    ensures ok <==> GivenOk(passed, ps) && forall i :: 0 <= i < |ps| ==> fine(ps[i])
    ensures ok ==> forall id :: id in used <==> id in passed || id in GivenIds(ps)
  {
    used := set id | id in passed;
    for i := 0 to |ps|
      invariant forall j :: 0 <= j < i ==> fine(ps[j])
      invariant forall j :: 0 <= j < i && ps[j].id.Some? ==> GivenAt(passed, ps, j)
      invariant forall id :: id in used <==> id in passed || id in GivenIds(ps[..i])
    {
      GivenIdsNext(ps, i);
      if !fine(ps[i]) { return false, used; }
      if ps[i].id.Some? {
        GivenAtIff(passed, ps, i);
        if !IsId(ps[i].id.value) || ps[i].id.value in passed || ps[i].id.value in used { return false, used; }
        used := used + {ps[i].id.value};
      }
    }
    assert ps[..|ps|] == ps;
    ok := true;
  }

  lemma GivenAtIff(passed: seq<string>, ps: seq<Proposal>, i: nat)
    requires i < |ps| && ps[i].id.Some?
    ensures var id := ps[i].id.value;
      GivenAt(passed, ps, i) <==> IsId(id) && id !in passed && id !in GivenIds(ps[..i])
  {
    GivenBefore(ps, i, ps[i].id.value);
  }

  lemma GivenIdsNext(ps: seq<Proposal>, i: nat)
    requires i < |ps|
    ensures GivenIds(ps[..i + 1]) == GivenIds(ps[..i]) + (if ps[i].id.Some? then [ps[i].id.value] else [])
    ensures Unnamed(ps[..i + 1]) == Unnamed(ps[..i]) + Auto(ps[i])
  {
    assert ps[..i + 1][..i] == ps[..i];
  }

  lemma GivenBefore(ps: seq<Proposal>, i: nat, id: string)
    requires i <= |ps|
    ensures id in GivenIds(ps[..i]) <==> exists j :: 0 <= j < i && ps[j].id == Some(id)
  {
    if id in GivenIds(ps[..i]) {
      var j :| 0 <= j < i && ps[..i][j].id == Some(id);
      assert ps[j].id == Some(id);
    }
    if j :| 0 <= j < i && ps[j].id == Some(id) { assert ps[..i][j].id == Some(id); }
  }

  lemma NumberUnused(used: set<string>, bound: int, n: nat)
    requires (forall id :: id in used ==> NumberOf(id) <= bound) && n > bound
    ensures IdOf(n) !in used
  {
    NumberOfId(n);
  }

  /** The counter stands at the next free number, or just before it on a used one. */
  predicate NextIs(used: set<string>, next: nat, free: nat) {
    next == free || (next + 1 == free && IdOf(next) in used)
  }

  lemma {:induction false} UnnamedGrows(ps: seq<Proposal>, i: nat)
    requires i <= |ps|
    ensures Unnamed(ps[..i]) <= Unnamed(ps)
    decreases |ps|
  {
    if i < |ps| {
      UnnamedGrows(ps[..|ps| - 1], i);
      assert ps[..|ps| - 1][..i] == ps[..i];
    } else {
      assert ps[..i] == ps;
    }
  }

  predicate Below(used: set<string>, free: int) { forall id :: id in used ==> NumberOf(id) < free }

  /** Counting on past the used ids. */
  method NextNumber(used: set<string>, from: nat, ghost free: nat) returns (next: nat)
    requires NextIs(used, from, free) && Below(used, free)
    ensures next == free
  {
    next := from;
    NumberUnused(used, free - 1, free);
    while IdOf(next) in used
      invariant NextIs(used, next, free)
      decreases free - next
    {
      next := next + 1;
    }
  }

  lemma UsedNow(used: set<string>, free: nat)
    requires Below(used, free)
    ensures Below(used + {IdOf(free)}, free + 1) && NextIs(used + {IdOf(free)}, free, free + 1)
  {
    NumberOfId(free);
  }

  lemma OpenedNext(ps: seq<Proposal>, next: nat, i: nat)
    requires i < |ps|
    ensures Opened(ps[..i + 1], next) == Opened(ps[..i], next) + [OpenedAt(ps, next, i)]
  {
    assert ps[..i + 1][..i] == ps[..i];
  }

  predicate OwnIdOk(p: Proposal) { p.id.Some? ==> IsId(p.id.value) }

  /** The open milestone of one proposal, with its own id or the next free one. */
  method OpenOne(p: Proposal, used: set<string>, from: nat, ghost free: nat) returns (m: Milestone, valid: bool, after: set<string>, next: nat)
    requires OwnIdOk(p) && NextIs(used, from, free) && Below(used, free) && free >= 1
    ensures m == OpenM(if p.id.Some? then p.id.value else IdOf(free), p.title, p.test)
    ensures valid <==> (p.id.None? ==> free <= MAX_NUMBER)
    ensures Below(after, free + Auto(p)) && NextIs(after, next, free + Auto(p))
  {
    var id: string;
    after, next := used, from;
    if p.id.Some? {
      id := p.id.value;
    } else {
      next := NextNumber(used, from, free);
      id := IdOf(next);
      IdOfValid(next);
      UsedNow(used, free);
      after := used + {id};
    }
    m, valid := OpenM(id, p.title, p.test), IsId(id);
  }

  /** The second loop: an id for each proposal that has none. */
  method OpenProposals(ps: seq<Proposal>, taken: set<string>, first: nat) returns (open: seq<Milestone>, ids: bool)
    requires first >= 1 && Below(taken, first)
    requires forall i :: 0 <= i < |ps| ==> OwnIdOk(ps[i])
    ensures ids <==> NumbersFit(ps, first)
    ensures ids ==> open == Opened(ps, first)
  {
    open := [];
    var next, used := first, taken;
    for i := 0 to |ps|
      invariant NextIs(used, next, first + Unnamed(ps[..i])) && Below(used, first + Unnamed(ps[..i]))
      invariant open == Opened(ps[..i], first) && NumbersFit(ps[..i], first)
    {
      GivenIdsNext(ps, i);
      OpenedNext(ps, first, i);
      var m, valid;
      m, valid, used, next := OpenOne(ps[i], used, next, first + Unnamed(ps[..i]));
      if !valid {
        UnnamedGrows(ps, i + 1);
        return open, false;
      }
      open := open + [m];
    }
    assert ps[..|ps|] == ps;
    ids := true;
  }

  method CheckRoom(open: seq<Milestone>) returns (ok: bool)
    ensures ok <==> AllRoom(open)
  {
    for i := 0 to |open|
      invariant forall j :: 0 <= j < i ==> Room(open[j])
    {
      if !Room(open[i]) { return false; }
    }
    ok := true;
  }

  method CheckFits(items: seq<Milestone>) returns (ok: bool)
    ensures ok <==> Fits(items)
  {
    if |items| > MILESTONE_MAX_ITEMS { return false; }
    for i := 0 to |items|
      invariant forall j :: 0 <= j < i ==> LineFits(items[j])
    {
      if !LineFits(items[i]) { return false; }
    }
    ok := true;
  }

  lemma UsedBelow(passed: seq<string>, ps: seq<Proposal>, used: set<string>)
    requires forall id :: id in used <==> id in passed || id in GivenIds(ps)
    ensures Below(used, NextFree(passed, ps))
  {
    var all := passed + GivenIds(ps);
    forall id | id in used ensures NumberOf(id) < NextFree(passed, ps) {
      assert id in all;
      var i :| 0 <= i < |all| && all[i] == id;
    }
  }

  lemma GivenOwn(passed: seq<string>, ps: seq<Proposal>)
    requires GivenOk(passed, ps)
    ensures forall i :: 0 <= i < |ps| ==> OwnIdOk(ps[i])
  {
    forall i | 0 <= i < |ps| ensures OwnIdOk(ps[i]) {
      if ps[i].id.Some? { assert GivenAt(passed, ps, i); }
    }
  }

  /** The part of `replacePlan` for a list of milestones. */
  method ReplaceItems(fine: Proposal -> bool, passed: seq<Milestone>, ps: seq<Proposal>) returns (r: Option<seq<Milestone>>)
    ensures r == Extended(fine, passed, ps)
  {
    if ps == [] && passed == [] { return None; }
    var ok, used := CheckProposals(fine, Ids(passed), ps);
    if !ok { return None; }
    UsedBelow(Ids(passed), ps, used);
    GivenOwn(Ids(passed), ps);
    var open, ids := OpenProposals(ps, used, NextFree(Ids(passed), ps));
    if !ids { return None; }
    var room := CheckRoom(open);
    if !room { return None; }
    var fits := CheckFits(passed + open);
    if !fits { return None; }
    r := Some(passed + open);
  }

  method ReplacePlan(looks: Looks, current: Plan, incoming: PlanInput) returns (r: Option<Plan>)
    ensures r == Replaced(looks, current, incoming)
  {
    if current.Malformed? { return None; }
    var passed := Passed(current);
    match incoming
    case NoneInput(reason) =>
      if |passed| > 0 { return None; }
      if !TextOk(reason, REASON_MAX_CHARS) { return None; }
      r := Some(NoPlan(reason));
    case ItemsInput(ps) =>
      var items := ReplaceItems(Fine(looks), passed, ps);
      r := PlanIn(items);
  }

  // ---- what a replacement keeps --------------------------------------------

  /** Passed milestones come first: they are the plan up to some point. */
  lemma {:induction false} PassedPrefix(items: seq<Milestone>)
    requires PassedFirst(items)
    ensures PassedOf(items) <= items
    ensures forall i :: |PassedOf(items)| <= i < |items| ==> items[i].OpenM?
  {
    if items != [] {
      if items[0].PassedM? {
        PassedPrefix(items[1..]);
        assert PassedOf(items) == [items[0]] + PassedOf(items[1..]);
        assert items == [items[0]] + items[1..];
      } else {
        assert forall i :: 0 <= i < |items| ==> items[i].OpenM?;
        NonePassed(items);
      }
    }
  }

  lemma {:induction false} NonePassed(items: seq<Milestone>)
    requires forall i :: 0 <= i < |items| ==> items[i].OpenM?
    ensures PassedOf(items) == []
  {
    if items != [] { NonePassed(items[1..]); }
  }

  lemma {:induction false} PassedThenOpen(passed: seq<Milestone>, open: seq<Milestone>)
    requires (forall i :: 0 <= i < |passed| ==> passed[i].PassedM?) && forall i :: 0 <= i < |open| ==> open[i].OpenM?
    ensures PassedOf(passed + open) == passed
  {
    if passed == [] {
      assert passed + open == open;
      NonePassed(open);
    } else {
      assert (passed + open)[1..] == passed[1..] + open;
      PassedThenOpen(passed[1..], open);
    }
  }

  lemma {:induction false} PassedArePassed(items: seq<Milestone>)
    ensures forall i :: 0 <= i < |PassedOf(items)| ==> PassedOf(items)[i].PassedM?
  {
    if items != [] { PassedArePassed(items[1..]); }
  }

  /** The plans an agent write can start from. */
  predicate Readable(p: Plan) { p.Absent? || ValidPlan(p) }

  lemma PassedOk(p: Plan)
    requires Readable(p)
    ensures AllValid(Passed(p)) && IdsDistinct(Passed(p)) && forall i :: 0 <= i < |Passed(p)| ==> Passed(p)[i].PassedM?
  {
    if p.Items? {
      PassedPrefix(p.items);
      PassedArePassed(p.items);
    }
  }

  /** The i-th and the j-th proposal get different ids, and neither is taken. */
  lemma OpenedDistinct(passed: seq<string>, ps: seq<Proposal>, i: nat, j: nat)
    requires GivenOk(passed, ps) && i < j < |ps|
    ensures OpenedAt(ps, NextFree(passed, ps), i).id != OpenedAt(ps, NextFree(passed, ps), j).id
  {
    var next := NextFree(passed, ps);
    if ps[i].id.Some? && ps[j].id.Some? {
      assert GivenAt(passed, ps, j);
    } else {
      OpenedNumber(passed, ps, i);
      OpenedNumber(passed, ps, j);
      UnnamedStep(ps, i, j);
    }
  }

  /** A proposal without an id gets a number past every used one. */
  lemma OpenedNumber(passed: seq<string>, ps: seq<Proposal>, i: nat)
    requires i < |ps|
    ensures var next := NextFree(passed, ps);
      if ps[i].id.None? then NumberOf(OpenedAt(ps, next, i).id) == next + Unnamed(ps[..i]) else NumberOf(OpenedAt(ps, next, i).id) < next
  {
    var next := NextFree(passed, ps);
    if ps[i].id.None? {
      NumberOfId(next + Unnamed(ps[..i]));
    } else {
      var all := passed + GivenIds(ps);
      assert ps[i].id.value in all;
    }
  }

  lemma {:induction false} UnnamedStep(ps: seq<Proposal>, i: nat, j: nat)
    requires i < j <= |ps|
    ensures Unnamed(ps[..i]) + Auto(ps[i]) <= Unnamed(ps[..j])
    decreases j
  {
    assert ps[..j][..j - 1] == ps[..j - 1];
    if i < j - 1 { UnnamedStep(ps, i, j - 1); }
  }

  lemma OpenedNotPassed(passed: seq<string>, ps: seq<Proposal>, i: nat, k: nat)
    requires GivenOk(passed, ps) && i < |ps| && k < |passed|
    ensures OpenedAt(ps, NextFree(passed, ps), i).id != passed[k]
  {
    if ps[i].id.Some? {
      assert GivenAt(passed, ps, i);
    } else {
      OpenedNumber(passed, ps, i);
      assert (passed + GivenIds(ps))[k] == passed[k];
    }
  }

  /** The passed milestones, then the proposals: distinct ids, passed first. */
  lemma ReplacedOrdered(passed: seq<Milestone>, ps: seq<Proposal>)
    requires GivenOk(Ids(passed), ps) && IdsDistinct(passed) && forall i :: 0 <= i < |passed| ==> passed[i].PassedM?
    ensures Ordered(passed + Opened(ps, NextFree(Ids(passed), ps)))
  {
    var open := Opened(ps, NextFree(Ids(passed), ps));
    forall i, j | 0 <= i < j < |open| ensures open[i].id != open[j].id { OpenedDistinct(Ids(passed), ps, i, j); }
    forall k, i | 0 <= k < |passed| && 0 <= i < |open| ensures passed[k].id != open[i].id { OpenedNotPassed(Ids(passed), ps, i, k); }
    OrderedConcat(passed, open);
  }

  lemma OrderedConcat(passed: seq<Milestone>, open: seq<Milestone>)
    requires IdsDistinct(passed) && IdsDistinct(open)
    requires forall k, i :: 0 <= k < |passed| && 0 <= i < |open| ==> passed[k].id != open[i].id
    requires (forall i :: 0 <= i < |passed| ==> passed[i].PassedM?) && forall i :: 0 <= i < |open| ==> open[i].OpenM?
    ensures Ordered(passed + open)
  {
  }

  /** Each proposal becomes a valid open milestone. */
  lemma OpenedValid(looks: Looks, passed: seq<string>, ps: seq<Proposal>, next: nat, i: nat)
    requires i < |ps| && next >= 1 && ProposalOk(looks, ps[i]) && GivenOk(passed, ps) && NumbersFit(ps, next) && Room(OpenedAt(ps, next, i))
    ensures Valid(OpenedAt(ps, next, i))
  {
    if ps[i].id.Some? {
      assert GivenAt(passed, ps, i);
    } else {
      UnnamedStep(ps, i, |ps|);
      assert ps[..|ps|] == ps;
      IdOfValid(next + Unnamed(ps[..i]));
    }
  }

  lemma AllValidConcat(a: seq<Milestone>, b: seq<Milestone>)
    requires AllValid(a) && AllValid(b)
    ensures AllValid(a + b)
  {
  }

  lemma OpenedAllValid(looks: Looks, passed: seq<string>, ps: seq<Proposal>, next: nat)
    requires next >= 1 && AllOk(looks, ps) && GivenOk(passed, ps) && NumbersFit(ps, next) && AllRoom(Opened(ps, next))
    ensures AllValid(Opened(ps, next))
  {
    var open := Opened(ps, next);
    forall i | 0 <= i < |open| ensures Valid(open[i]) {
      assert Room(open[i]);
      OpenedValid(looks, passed, ps, next, i);
    }
  }

  /** Open milestones of the plan have room for their stamp. */
  predicate StampRoom(p: Plan) { p.Items? ==> forall i :: 0 <= i < |p.items| && p.items[i].OpenM? ==> Room(p.items[i]) }

  lemma RoomConcat(passed: seq<Milestone>, open: seq<Milestone>)
    requires AllRoom(open) && forall i :: 0 <= i < |passed| ==> passed[i].PassedM?
    ensures StampRoom(Items(passed + open))
  {
    var items := passed + open;
    forall i | |passed| <= i < |items| ensures Room(items[i]) {
      assert items[i] == open[i - |passed|];
    }
  }

  predicate AllPassed(items: seq<Milestone>) { forall i :: 0 <= i < |items| ==> items[i].PassedM? }

  predicate AllOpen(items: seq<Milestone>) { forall i :: 0 <= i < |items| ==> items[i].OpenM? }

  /** Passed milestones and open ones that make a plan together. */
  predicate Joinable(passed: seq<Milestone>, open: seq<Milestone>) {
    && AllValid(passed) && AllValid(open) && AllRoom(open) && Ordered(passed + open)
    && 1 <= |passed + open| <= MILESTONE_MAX_ITEMS && AllPassed(passed) && AllOpen(open)
  }

  lemma JoinedPlan(passed: seq<Milestone>, open: seq<Milestone>)
    requires Joinable(passed, open)
    ensures ValidPlan(Items(passed + open)) && PassedOf(passed + open) == passed && StampRoom(Items(passed + open))
  {
    AllValidConcat(passed, open);
    PassedThenOpen(passed, open);
    RoomConcat(passed, open);
  }

  lemma AcceptedJoins(looks: Looks, passed: seq<Milestone>, ps: seq<Proposal>, next: nat)
    requires AllValid(passed) && IdsDistinct(passed) && AllPassed(passed)
    requires next == NextFree(Ids(passed), ps) && Accepts(Fine(looks), passed, ps, next)
    ensures Joinable(passed, Opened(ps, next))
  {
    ReplacedOrdered(passed, ps);
    OpenedAllValid(looks, Ids(passed), ps, next);
    OpenedOpen(ps, next);
  }

  lemma OpenedOpen(ps: seq<Proposal>, next: nat)
    ensures AllOpen(Opened(ps, next))
  {
  }

  /**
   * From a readable plan, a replacement is a valid plan, keeps the passed
   * milestones as its first ones, and leaves stamp room on every open line.
   */
  lemma ReplacedKeeps(looks: Looks, current: Plan, incoming: PlanInput)
    requires Readable(current) && Replaced(looks, current, incoming).Some?
    ensures var p := Replaced(looks, current, incoming).value;
      ValidPlan(p) && Passed(p) == Passed(current) && StampRoom(p) && (p.Items? ==> Passed(current) <= p.items)
  {
    if incoming.ItemsInput? {
      var passed, ps := Passed(current), incoming.items;
      var next := NextFree(Ids(passed), ps);
      PassedOk(current);
      AcceptedJoins(looks, passed, ps, next);
      JoinedPlan(passed, Opened(ps, next));
    }
  }

  /** What an accepted list was: fit proposals, put behind the passed milestones. */
  lemma ReplacedItems(looks: Looks, current: Plan, ps: seq<Proposal>)
    requires Replaced(looks, current, ItemsInput(ps)).Some?
    ensures AllOk(looks, ps)
    ensures Replaced(looks, current, ItemsInput(ps)).value == Items(Passed(current) + Opened(ps, NextFree(Ids(Passed(current)), ps)))
  {
  }

  /** Behind the first k items stand these proposals, in order: each one's title and test, and its id when it has one. */
  predicate CarriedOn(items: seq<Milestone>, k: nat, ps: seq<Proposal>) {
    && |items| == k + |ps|
    && forall i :: 0 <= i < |ps| ==>
         items[k + i].OpenM? && items[k + i].title == ps[i].title && items[k + i].test == ps[i].test &&
         (ps[i].id.Some? ==> items[k + i].id == ps[i].id.value)
  }

  /** An accepted list stands as it was given, behind the passes. */
  lemma ReplacedCarries(looks: Looks, current: Plan, ps: seq<Proposal>, p: Plan)
    requires Replaced(looks, current, ItemsInput(ps)) == Some(p)
    ensures p.Items? && CarriedOn(p.items, |Passed(current)|, ps)
  {
    ReplacedItems(looks, current, ps);
    OpenedCarry(Passed(current), ps, NextFree(Ids(Passed(current)), ps));
  }

  lemma OpenedCarry(passed: seq<Milestone>, ps: seq<Proposal>, next: nat)
    ensures CarriedOn(passed + Opened(ps, next), |passed|, ps)
  {
    var open := Opened(ps, next);
    forall i | 0 <= i < |ps| ensures (passed + open)[|passed| + i] == open[i] { }
  }

  /** "None" is accepted exactly for a fit reason over a readable plan without passes, and the section then reads back as that reason. */
  lemma NoneReadsBackIff(looks: Looks, current: Plan, reason: string)
    ensures var r := Replaced(looks, current, NoneInput(reason));
      && (r.Some? <==> !current.Malformed? && Passed(current) == [] && TextOk(reason, REASON_MAX_CHARS))
      && (r.Some? ==> r.value == NoPlan(reason) && ParseSection(FormatPlan(r.value)) == NoPlan(reason))
  {
    if Replaced(looks, current, NoneInput(reason)).Some? { PrintThenParsePlan(NoPlan(reason)); }
  }

  // ---- when the numbers run out --------------------------------------------

  /** Taken by a passed milestone or given by a proposal. */
  predicate Used(current: Plan, ps: seq<Proposal>, id: string) { id in Ids(Passed(current)) + GivenIds(ps) }

  /** All that `replacePlan` asks of a list but the numbers. */
  predicate OtherwiseOk(looks: Looks, current: Plan, ps: seq<Proposal>) {
    var passed := Passed(current);
    var open := Opened(ps, NextFree(Ids(passed), ps));
    !current.Malformed? && (ps != [] || passed != []) && AllOk(looks, ps) && GivenOk(Ids(passed), ps) && AllRoom(open) && Fits(passed + open)
  }

  lemma {:induction false} MaxReached(ids: seq<string>) returns (id: Option<string>)
    ensures id.None? ==> MaxNumber(ids) == 0
    ensures id.Some? ==> id.value in ids && NumberOf(id.value) == MaxNumber(ids)
  {
    id := None;
    if ids != [] {
      var n := |ids| - 1;
      var was := MaxReached(ids[..n]);
      id := if MaxNumber(ids[..n]) < NumberOf(ids[n]) then Some(ids[n]) else was;
    }
  }

  lemma {:induction false} UnnamedAtMost(ps: seq<Proposal>)
    ensures Unnamed(ps) <= |ps|
  {
    if ps != [] { UnnamedAtMost(ps[..|ps| - 1]); }
  }

  lemma MaxWithRest(ids: seq<string>, n: nat)
    requires n <= MAX_NUMBER
    ensures MaxNumber(ids) + n <= MAX_NUMBER <==> forall id :: id in ids ==> NumberOf(id) + n <= MAX_NUMBER
  {
    var top := MaxReached(ids);
    forall id | id in ids ensures NumberOf(id) <= MaxNumber(ids) {
      var i :| 0 <= i < |ids| && ids[i] == id;
    }
  }

  /**
   * Numbers go on from the greatest one in use, so a list with unnumbered
   * proposals that is otherwise fine is refused exactly when some id in use
   * leaves fewer numbers above it than are asked for, whatever ids are free.
   */
  lemma NumbersLeftIff(looks: Looks, current: Plan, ps: seq<Proposal>)
    requires OtherwiseOk(looks, current, ps) && Unnamed(ps) > 0
    ensures Replaced(looks, current, ItemsInput(ps)).Some? <==>
            forall id :: Used(current, ps, id) ==> NumberOf(id) + Unnamed(ps) <= MAX_NUMBER
  {
    var ids := Ids(Passed(current));
    UnnamedAtMost(ps);
    MaxWithRest(ids + GivenIds(ps), Unnamed(ps));
    ExtendedIff(looks, Passed(current), ps);
  }

  lemma UsedBelowFree(passed: seq<string>, ps: seq<Proposal>, id: string)
    requires id in passed + GivenIds(ps)
    ensures NumberOf(id) < NextFree(passed, ps)
  {
    var all := passed + GivenIds(ps);
    var i :| 0 <= i < |all| && all[i] == id;
  }

  lemma ExtendedIff(looks: Looks, passed: seq<Milestone>, ps: seq<Proposal>)
    requires (ps != [] || passed != []) && AllOk(looks, ps) && GivenOk(Ids(passed), ps)
    requires AllRoom(Opened(ps, NextFree(Ids(passed), ps))) && Fits(passed + Opened(ps, NextFree(Ids(passed), ps)))
    ensures Extended(Fine(looks), passed, ps).Some? <==> NumbersFit(ps, NextFree(Ids(passed), ps))
  {
  }

  /** Whatever else holds, an id in use too near the last one refuses the list. */
  lemma NoNumberAfterTheLast(looks: Looks, current: Plan, ps: seq<Proposal>, last: string)
    requires Used(current, ps, last) && Unnamed(ps) > 0 && NumberOf(last) + Unnamed(ps) > MAX_NUMBER
    ensures Replaced(looks, current, ItemsInput(ps)).None?
  {
    UsedBelowFree(Ids(Passed(current)), ps, last);
  }

  lemma LastNumber()
    ensures NumberOf("M999") == 999
  {
    var s := "999";
    assert "M999"[1..] == s && s[..2] == "99" && "99"[..1] == "9" && "9"[..0] == "";
    assert Value("9") == 9;
    assert Value("99") == 99;
  }

  /** Two proposals, counted one by one. */
  lemma TwoProposals(a: Proposal, b: Proposal)
    ensures GivenIds([a, b]) == (if a.id.Some? then [a.id.value] else []) + (if b.id.Some? then [b.id.value] else [])
    ensures Unnamed([a, b]) == Auto(a) + Auto(b)
  {
    var none: seq<Proposal>, one, two := [], [a], [a, b];
    assert one[..0] == none && two[..1] == one;
    assert GivenIds(one) == GivenIds(none) + (if a.id.Some? then [a.id.value] else []);
    assert Unnamed(one) == Unnamed(none) + Auto(a);
    assert GivenIds(two) == GivenIds(one) + (if b.id.Some? then [b.id.value] else []);
    assert Unnamed(two) == Unnamed(one) + Auto(b);
  }

  lemma NamedAccepted(looks: Looks, a: Proposal, b: Proposal)
    requires !looks("a") && !looks("b") && !looks("c") && !looks("d")
    requires a == Proposal(Some("M999"), "a", "b") && b == Proposal(Some("M1"), "c", "d")
    ensures Replaced(looks, Absent, ItemsInput([a, b])).Some?
  {
    var ps := [a, b];
    TwoProposals(a, b);
    TwoProposalsOk(looks, a, b);
    TwoOpened(a, b, NextFree([], ps));
    assert [] + Opened(ps, NextFree([], ps)) == Opened(ps, NextFree([], ps));
    ExtendedIff(looks, [], ps);
  }

  lemma TwoProposalsOk(looks: Looks, a: Proposal, b: Proposal)
    requires !looks("a") && !looks("b") && !looks("c") && !looks("d")
    requires a == Proposal(Some("M999"), "a", "b") && b == Proposal(Some("M1"), "c", "d")
    ensures AllOk(looks, [a, b]) && GivenOk([], [a, b])
  {
    assert ProposalOk(looks, a) && ProposalOk(looks, b);
    assert GivenAt([], [a, b], 0) && GivenAt([], [a, b], 1);
  }

  lemma TwoOpened(a: Proposal, b: Proposal, next: nat)
    requires a == Proposal(Some("M999"), "a", "b") && b == Proposal(Some("M1"), "c", "d")
    ensures AllRoom(Opened([a, b], next)) && Fits(Opened([a, b], next))
  {
    var open := Opened([a, b], next);
    assert open[0] == OpenM("M999", "a", "b") && open[1] == OpenM("M1", "c", "d");
    assert Room(open[0]) && Room(open[1]);
  }

  /** Free ids do not help: M1 is free, yet after M999 a proposal without an id is refused; given M1 it is accepted. */
  lemma FreeIdsGoUnused()
    ensures var (last, more) := (Proposal(Some("M999"), "a", "b"), Proposal(None, "c", "d"));
      && Replaced(_ => false, Absent, ItemsInput([last, more])).None?
      && Replaced(_ => false, Absent, ItemsInput([last, more.(id := Some("M1"))])).Some?
  {
    var looks: Looks := _ => false;
    var last, more, named := Proposal(Some("M999"), "a", "b"), Proposal(None, "c", "d"), Proposal(Some("M1"), "c", "d");
    LastNumber();
    TwoProposals(last, more);
    NoNumberAfterTheLast(looks, Absent, [last, more], "M999");
    NamedAccepted(looks, last, named);
  }
}
