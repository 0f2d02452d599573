/** Passing milestones one by one, from a plan with stamp room. */
module MilestonePasses {
  import opened Options
  import opened Text
  import opened MilestoneLine
  import opened MilestonePlan
  import opened MilestoneDates
  import opened MilestoneMoves

  /** The first open milestone; |items| when all have passed. */
  function CurrentIndex(items: seq<Milestone>): (k: nat)
    ensures k <= |items| && (k < |items| ==> items[k].OpenM?)
    ensures forall i :: 0 <= i < k ==> items[i].PassedM?
  {
    if items == [] || items[0].OpenM? then 0 else 1 + CurrentIndex(items[1..])
  }

  /** `currentMilestone`. */
  function Current(p: Plan): Option<Milestone> {
    if p.Items? && CurrentIndex(p.items) < |p.items| then Some(p.items[CurrentIndex(p.items)]) else None
  }

  function Stamped(m: Milestone, day: string): Milestone { PassedM(m.id, m.title, m.test, day, Agent) }

  function Marked(items: seq<Milestone>, pass: Milestone): (r: seq<Milestone>)
    ensures |r| == |items| && forall i :: 0 <= i < |items| ==> r[i] == if items[i].id == pass.id then pass else items[i]
  {
    if items == [] then [] else [if items[0].id == pass.id then pass else items[0]] + Marked(items[1..], pass)
  }

  /** `recordAgentPass` once the day is known, without the words of its refusals. */
  function Recorded(current: Plan, id: string, day: string): Option<Plan> {
    var open := Current(current);
    if open.None? || open.value.id != id then None
    else
      var items := Marked(current.items, Stamped(open.value, day));
      if Fits(items) then Some(Items(items)) else None
  }

  lemma MarkedIsUpdate(items: seq<Milestone>, k: nat, pass: Milestone)
    requires k < |items| && IdsDistinct(items) && pass.id == items[k].id
    ensures Marked(items, pass) == items[k := pass]
  {
  }

  /** The stamp takes the room left for it. */
  lemma StampFits(m: Milestone, day: string)
    requires m.OpenM? && Room(m) && |day| == 10
    ensures LineFits(Stamped(m, day))
  {
    var box := " | passed " + day + " (agent)";
    assert |FormatMilestone(Stamped(m, day))| == |FormatMilestone(m)| + |box|;
  }

  lemma UpdateFits(items: seq<Milestone>, k: nat, pass: Milestone)
    requires k < |items| <= MILESTONE_MAX_ITEMS && AllValid(items) && LineFits(pass)
    ensures Fits(items[k := pass])
  {
    var r := items[k := pass];
    forall i | 0 <= i < |r| ensures LineFits(r[i]) {
      if i != k { assert r[i] == items[i] && Valid(items[i]); }
    }
  }

  /** Only the current milestone can be reported, and with stamp room the report always succeeds. */
  lemma RecordedCurrent(p: Plan, day: string)
    requires ValidPlan(p) && StampRoom(p) && |day| == 10 && Current(p).Some?
    ensures var k := CurrentIndex(p.items);
      Recorded(p, p.items[k].id, day) == Some(Items(p.items[k := Stamped(p.items[k], day)]))
  {
    var k := CurrentIndex(p.items);
    var pass := Stamped(p.items[k], day);
    MarkedIsUpdate(p.items, k, pass);
    StampFits(p.items[k], day);
    UpdateFits(p.items, k, pass);
  }

  lemma UpdateOrdered(items: seq<Milestone>, pass: Milestone)
    requires Ordered(items) && CurrentIndex(items) < |items| && pass.PassedM? && pass.id == items[CurrentIndex(items)].id
    ensures Ordered(items[CurrentIndex(items) := pass])
  {
  }

  lemma UpdateValid(items: seq<Milestone>, k: nat, pass: Milestone)
    requires k < |items| && AllValid(items)
    ensures AllValid(items[k := pass]) <==> Valid(pass)
  {
    var r := items[k := pass];
    assert r[k] == pass;
    forall i | 0 <= i < |r| ensures i != k ==> Valid(r[i]) {
      if i != k { assert r[i] == items[i]; }
    }
  }

  lemma StampedValid(m: Milestone, day: string)
    requires m.OpenM? && Valid(m) && Room(m) && |day| == 10
    ensures Valid(Stamped(m, day)) <==> IsUtcDate(day)
  {
    StampFits(m, day);
  }

  lemma {:induction false} PassedOfUpdate(items: seq<Milestone>, pass: Milestone)
    requires PassedFirst(items) && CurrentIndex(items) < |items| && pass.PassedM?
    ensures PassedOf(items[CurrentIndex(items) := pass]) == PassedOf(items) + [pass]
  {
    if items[0].OpenM? {
      NonePassed(items);
      NonePassed(items[1..]);
      assert items[0 := pass][1..] == items[1..];
    } else {
      var k := CurrentIndex(items);
      assert items[k := pass][1..] == items[1..][k - 1 := pass];
      PassedOfUpdate(items[1..], pass);
    }
  }

  /** The plan with its current milestone replaced by this pass of it. */
  function WithPass(p: Plan, pass: Milestone): Plan
    requires Current(p).Some?
  {
    Items(p.items[CurrentIndex(p.items) := pass])
  }

  lemma WithPassValid(p: Plan, pass: Milestone)
    requires ValidPlan(p) && Current(p).Some? && pass.PassedM? && pass.id == Current(p).value.id
    ensures ValidPlan(WithPass(p, pass)) <==> Valid(pass)
  {
    UpdateOrdered(p.items, pass);
    UpdateValid(p.items, CurrentIndex(p.items), pass);
    OrderedPlan(WithPass(p, pass).items, Valid(pass));
  }

  lemma OrderedPlan(items: seq<Milestone>, fine: bool)
    requires 1 <= |items| <= MILESTONE_MAX_ITEMS && Ordered(items) && (AllValid(items) <==> fine)
    ensures ValidPlan(Items(items)) <==> fine
  {
  }

  lemma WithPassPassed(p: Plan, pass: Milestone)
    requires p.Items? && PassedFirst(p.items) && Current(p).Some? && pass.PassedM?
    ensures Passed(WithPass(p, pass)) == Passed(p) + [pass]
  {
    PassedOfUpdate(p.items, pass);
  }

  lemma WithPassRoom(p: Plan, pass: Milestone)
    requires Current(p).Some? && StampRoom(p) && pass.PassedM?
    ensures StampRoom(WithPass(p, pass))
  {
    var r := WithPass(p, pass).items;
    forall i | 0 <= i < |r| && r[i].OpenM? ensures Room(r[i]) { assert r[i] == p.items[i]; }
  }

  /**
   * Passing the current milestone adds exactly its pass after the earlier ones
   * and leaves stamp room; the plan stays valid exactly when the day is a date
   * of the calendar (which the first ten characters of a time outside the
   * years 0 to 9999 are not).
   */
  lemma RecordedKeeps(p: Plan, day: string)
    requires ValidPlan(p) && StampRoom(p) && |day| == 10 && Current(p).Some?
    ensures var r := Recorded(p, Current(p).value.id, day);
      && r.Some? && StampRoom(r.value)
      && Passed(r.value) == Passed(p) + [Stamped(Current(p).value, day)]
      && (ValidPlan(r.value) <==> IsUtcDate(day))
  {
    var m := Current(p).value;
    RecordedCurrent(p, day);
    WithPassValid(p, Stamped(m, day));
    WithPassPassed(p, Stamped(m, day));
    WithPassRoom(p, Stamped(m, day));
    CurrentOk(p);
    StampedValid(m, day);
  }

  lemma CurrentOk(p: Plan)
    requires ValidPlan(p) && StampRoom(p) && Current(p).Some?
    ensures Valid(Current(p).value) && Room(Current(p).value) && Current(p).value.OpenM?
  {
  }

  /** `recordAgentPass`: the open milestone is looked at first, then the save time. */
  function RecordAgentPass(current: Plan, id: string, t: SaveTime): Option<Plan> {
    if Current(current).None? || Current(current).value.id != id || t.NoTime? then None else Recorded(current, id, PassDate(t))
  }

  /**
   * A report at a save time adds exactly its pass; the section reads back as
   * that plan exactly when the save time lies in the years 0 to 9999.
   */
  lemma ReportReadsBackIff(p: Plan, t: SaveTime)
    requires ValidPlan(p) && StampRoom(p) && Current(p).Some? && OnCalendar(t)
    ensures var r := RecordAgentPass(p, Current(p).value.id, t);
      && r.Some? && r.value.Items?
      && Passed(r.value) == Passed(p) + [Stamped(Current(p).value, PassDate(t))]
      && (ParseSection(FormatPlan(r.value)) == r.value <==> 0 <= t.year <= 9999)
  {
    var r := RecordAgentPass(p, Current(p).value.id, t);
    RecordedKeeps(p, PassDate(t));
    PassDateIff(t);
    RecordedCurrent(p, PassDate(t));
    ReadsBackIff(r.value);
  }

  lemma ReadsBackIff(p: Plan)
    requires p.Items?
    ensures ParseSection(FormatPlan(p)) == p <==> ValidPlan(p)
  {
    SectionIff(FormatPlan(p), p);
    if ValidPlan(p) { PrintThenParsePlan(p); }
  }

  /** A report on 1 January 10000 stamps "+010000-01", and the plan is no longer valid. */
  lemma LateReportSpoilsThePlan()
    ensures var (p, t) := (Items([OpenM("M1", "a", "b")]), On(10000, 1, 1));
      && ValidPlan(p) && StampRoom(p)
      && RecordAgentPass(p, "M1", t) == Some(Items([PassedM("M1", "a", "b", "+010000-01", Agent)]))
      && !ValidPlan(RecordAgentPass(p, "M1", t).value)
  {
    var p := Items([OpenM("M1", "a", "b")]);
    SmallPlan(p);
    YearTenThousand();
    LateReport(p, On(10000, 1, 1));
  }

  lemma SmallPlan(p: Plan)
    requires p == Items([OpenM("M1", "a", "b")])
    ensures ValidPlan(p) && StampRoom(p) && CurrentIndex(p.items) == 0
  {
    assert Valid(p.items[0]) && Room(p.items[0]);
  }

  lemma LateReport(p: Plan, t: SaveTime)
    requires p.Items? && ValidPlan(p) && StampRoom(p) && |p.items| == 1 && CurrentIndex(p.items) == 0 && t.On? && !IsUtcDate(PassDate(t))
    ensures var r := RecordAgentPass(p, p.items[0].id, t);
      r == Some(Items([Stamped(p.items[0], PassDate(t))])) && !ValidPlan(r.value)
  {
    RecordedKeeps(p, PassDate(t));
    RecordedCurrent(p, PassDate(t));
    assert p.items[0 := Stamped(p.items[0], PassDate(t))] == [Stamped(p.items[0], PassDate(t))];
  }

  // ---- passing the whole plan ----------------------------------------------

  /** The open milestones, by the plan as it stands. */
  function OpenCount(p: Plan): int { if p.Items? then |p.items| - |PassedOf(p.items)| else 0 }

  lemma {:induction false} PassedCount(items: seq<Milestone>)
    requires PassedFirst(items)
    ensures |PassedOf(items)| == CurrentIndex(items)
  {
    if items != [] {
      if items[0].OpenM? {
        NonePassed(items);
      } else {
        PassedCount(items[1..]);
      }
    }
  }

  /** A report that the current milestone passed on a day. */
  function PassCurrent(p: Plan, day: string): Option<Plan> {
    if Current(p).None? then None else Recorded(p, Current(p).value.id, day)
  }

  type Report = (Plan, string) -> Option<Plan>

  /** One report for each day, until one is refused. */
  function PassAll(report: Report, p: Plan, days: seq<string>): Option<Plan>
    decreases |days|
  {
    if days == [] then Some(p)
    else
      var next := report(p, days[0]);
      if next.None? then None else PassAll(report, next.value, days[1..])
  }

  lemma CurrentIff(p: Plan)
    requires p.Items? && PassedFirst(p.items)
    ensures OpenCount(p) >= 0 && (Current(p).Some? <==> OpenCount(p) > 0)
  {
    PassedCount(p.items);
  }

  /** A plan that keeps every promise a report needs. */
  predicate Passable(p: Plan) { p.Items? && ValidPlan(p) && StampRoom(p) }

  /** On a calendar day a report succeeds exactly while a milestone is open, and takes one off the count. */
  lemma PassStep(p: Plan, day: string)
    requires Passable(p) && IsUtcDate(day)
    ensures OpenCount(p) >= 0 && (PassCurrent(p, day).Some? <==> OpenCount(p) > 0)
    ensures PassCurrent(p, day).Some? ==> Passable(PassCurrent(p, day).value) && OpenCount(PassCurrent(p, day).value) == OpenCount(p) - 1
  {
    CurrentIff(p);
    if Current(p).Some? {
      RecordedKeeps(p, day);
      RecordedCurrent(p, day);
    }
  }

  /** What counting down needs of one report. */
  predicate CountsAt(report: Report, ok: Plan -> bool, date: string -> bool, count: Plan -> int, p: Plan, day: string) {
    (ok(p) && date(day)) ==>
      (report(p, day).Some? <==> count(p) > 0) &&
      (report(p, day).Some? ==> ok(report(p, day).value) && count(report(p, day).value) == count(p) - 1)
  }

  ghost predicate CountsDown(report: Report, ok: Plan -> bool, date: string -> bool, count: Plan -> int) {
    forall p: Plan, day: string :: CountsAt(report, ok, date, count, p, day)
  }

  lemma {:induction false} CountedDown(report: Report, ok: Plan -> bool, date: string -> bool, count: Plan -> int, p: Plan, days: seq<string>)
    requires CountsDown(report, ok, date, count) && ok(p) && forall i :: 0 <= i < |days| ==> date(days[i])
    requires count(p) >= 0
    ensures var r := PassAll(report, p, days);
      && (r.Some? <==> |days| <= count(p))
      && (r.Some? ==> ok(r.value) && count(r.value) == count(p) - |days|)
    decreases |days|
  {
    if days != [] {
      assert CountsAt(report, ok, date, count, p, days[0]);
      var next := report(p, days[0]);
      if next.Some? { CountedDown(report, ok, date, count, next.value, days[1..]); }
    }
  }

  lemma ReportsCountDown()
    ensures CountsDown(PassCurrent, Passable, IsUtcDate, OpenCount)
  {
    forall p: Plan, day: string ensures CountsAt(PassCurrent, Passable, IsUtcDate, OpenCount, p, day) {
      if Passable(p) && IsUtcDate(day) { PassStep(p, day); }
    }
  }

  /** A plan with stamp room is finished after exactly as many reports as it has open milestones; one more is refused. */
  lemma FinishesAfterOpenCount(p: Plan, days: seq<string>)
    requires Passable(p) && forall i :: 0 <= i < |days| ==> IsUtcDate(days[i])
    ensures PassAll(PassCurrent, p, days).Some? <==> |days| <= OpenCount(p)
    ensures PassAll(PassCurrent, p, days).Some? ==>
      ValidPlan(PassAll(PassCurrent, p, days).value) && (Current(PassAll(PassCurrent, p, days).value).None? <==> |days| == OpenCount(p))
  {
    CurrentIff(p);
    ReportsCountDown();
    CountedDown(PassCurrent, Passable, IsUtcDate, OpenCount, p, days);
    var r := PassAll(PassCurrent, p, days);
    if r.Some? { CurrentIff(r.value); }
  }

  /** The room kept on an open line is exactly what an agent's stamp takes. */
  lemma StampTakesItsRoom(m: Milestone, day: string)
    requires m.OpenM? && |day| == 10
    ensures |FormatMilestone(Stamped(m, day))| == |FormatMilestone(m)| + LONGEST_STAMP
    ensures Room(m) <==> LineFits(Stamped(m, day))
  {
    var box := " | passed " + day + " (agent)";
    assert |FormatMilestone(Stamped(m, day))| == |FormatMilestone(m)| + |box|;
  }
}
