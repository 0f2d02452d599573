/**
 * One milestone line (ADR 0065): the pattern LINE as a recogniser, shown to
 * accept exactly the lines it describes and to take each apart in one way.
 */
module MilestoneLine {
  import opened Options
  import opened Text

  datatype Author = You | Agent
  datatype Stamp = Stamp(day: string, author: Author)
  /** What LINE captures. */
  datatype Raw = Raw(checked: bool, id: string, title: string, test: string, stamp: Option<Stamp>)

  /** MILESTONE_ID_PATTERN. */
  predicate IsId(s: string) {
    2 <= |s| <= 4 && s[0] == 'M' && '1' <= s[1] <= '9' && forall i :: 2 <= i < |s| ==> IsDigit(s[i])
  }

  /** `\d{4}-\d{2}-\d{2}`. */
  predicate DateShape(d: string) {
    |d| == 10 && d[4] == '-' && d[7] == '-' && forall i :: 0 <= i < 10 && i != 4 && i != 7 ==> IsDigit(d[i])
  }

  // ---- the lines the pattern describes -------------------------------------

  function FrontText(checked: bool, id: string, title: string): string {
    (if checked then "- [x] " else "- [ ] ") + id + " " + title + " "
  }

  function StampText(s: Stamp): string {
    " passed " + s.day + (if s.author == You then " (you)" else " (agent)")
  }

  predicate CapturesOk(r: Raw) {
    IsId(r.id) && '|' !in r.title && '|' !in r.test && (r.stamp.Some? ==> DateShape(r.stamp.value.day))
  }

  function RawLine(r: Raw): string {
    var line := FrontText(r.checked, r.id, r.title) + "|" + (" test: " + r.test);
    if r.stamp.None? then line else line + " " + "|" + StampText(r.stamp.value)
  }

  // ---- the recogniser ------------------------------------------------------

  function IndexOfChar(s: string, c: char): (i: nat)
    ensures i <= |s| && (i < |s| ==> s[i] == c)
    ensures forall j :: 0 <= j < i ==> s[j] != c
  {
    if s == "" || s[0] == c then 0 else 1 + IndexOfChar(s[1..], c)
  }

  datatype Front = Front(checked: bool, id: string, title: string)

  /** The id ends at the first space; the title is all up to the last one. */
  function IdAndTitle(checked: bool, rest: string): Option<Front> {
    var n := IndexOfChar(rest, ' ');
    if n + 1 < |rest| && IsId(rest[..n]) && rest[|rest| - 1] == ' '
    then Some(Front(checked, rest[..n], rest[n + 1..|rest| - 1]))
    else None
  }

  function FrontOf(p: string): Option<Front> {
    if |p| >= 6 && p[..6] == "- [ ] " then IdAndTitle(false, p[6..])
    else if |p| >= 6 && p[..6] == "- [x] " then IdAndTitle(true, p[6..])
    else None
  }

  function TestOf(p: string): Option<string> {
    if |p| >= 7 && p[..7] == " test: " then Some(p[7..]) else None
  }

  function StampOf(p: string): Option<Stamp> {
    if |p| < 18 || p[..8] != " passed " || !DateShape(p[8..18]) then None
    else if p[18..] == " (you)" then Some(Stamp(p[8..18], You))
    else if p[18..] == " (agent)" then Some(Stamp(p[8..18], Agent))
    else None
  }

  function EndsInSpace(s: string): bool { s != "" && s[|s| - 1] == ' ' }

  /** The captures of LINE on this line, if it matches. */
  function Shape(line: string): Option<Raw> {
    var parts := Split(line, '|');
    if |parts| == 2 then Shape2(FrontOf(parts[0]), TestOf(parts[1]))
    else if |parts| == 3 then Shape3(FrontOf(parts[0]), TestOf(parts[1]), StampOf(parts[2]))
    else None
  }

  function Shape2(front: Option<Front>, test: Option<string>): Option<Raw> {
    if front.None? || test.None? then None
    else Some(Raw(front.value.checked, front.value.id, front.value.title, test.value, None))
  }

  function Shape3(front: Option<Front>, test: Option<string>, stamp: Option<Stamp>): Option<Raw> {
    if front.None? || test.None? || stamp.None? || !EndsInSpace(test.value) then None
    else Some(Raw(front.value.checked, front.value.id, front.value.title, test.value[..|test.value| - 1], stamp))
  }

  // ---- each part is read back exactly --------------------------------------

  lemma IndexOfFirst(a: string, c: char, b: string)
    requires c !in a
    ensures IndexOfChar(a + [c] + b, c) == |a|
  {
    var s := a + [c] + b;
    var i := IndexOfChar(s, c);
    assert s[|a|] == c;
    assert forall j :: 0 <= j < |a| ==> s[j] == a[j];
  }

  lemma IdAndTitleIff(checked: bool, rest: string, f: Front)
    ensures IdAndTitle(checked, rest) == Some(f) <==> IsId(f.id) && f.checked == checked && rest == f.id + " " + f.title + " "
  {
    var n := IndexOfChar(rest, ' ');
    if IdAndTitle(checked, rest) == Some(f) {
      assert rest == rest[..n] + " " + rest[n + 1..|rest| - 1] + " ";
    }
    if IsId(f.id) && rest == f.id + " " + f.title + " " {
      assert rest == f.id + [' '] + (f.title + " ");
      IndexOfFirst(f.id, ' ', f.title + " ");
      assert rest[..n] == f.id && rest[n + 1..|rest| - 1] == f.title;
    }
  }

  lemma PrefixThen(pre: string, p: string, rest: string)
    ensures (|p| >= |pre| && p[..|pre|] == pre && p[|pre|..] == rest) <==> p == pre + rest
  {
  }

  lemma FrontIff(p: string, f: Front)
    ensures FrontOf(p) == Some(f) <==> IsId(f.id) && p == FrontText(f.checked, f.id, f.title)
  {
    var rest := f.id + " " + f.title + " ";
    var pre := if f.checked then "- [x] " else "- [ ] ";
    FrontTextParts(f);
    PrefixThen(pre, p, rest);
    assert "- [x] "[3] != "- [ ] "[3];
    if |p| >= 6 { IdAndTitleIff(f.checked, p[6..], f); }
  }

  lemma FrontTextParts(f: Front)
    ensures FrontText(f.checked, f.id, f.title) == (if f.checked then "- [x] " else "- [ ] ") + (f.id + " " + f.title + " ")
  {
  }

  lemma TestIff(p: string, t: string)
    ensures TestOf(p) == Some(t) <==> p == " test: " + t
  {
    PrefixThen(" test: ", p, t);
  }

  lemma StampReadsBack(s: Stamp)
    requires DateShape(s.day)
    ensures StampOf(StampText(s)) == Some(s)
  {
    var p := StampText(s);
    var who := if s.author == You then " (you)" else " (agent)";
    assert p[..8] == " passed " && p[8..18] == s.day && p[18..] == who;
    assert |" (you)"| != |" (agent)"|;
  }

  lemma StampIff(p: string, s: Stamp)
    ensures StampOf(p) == Some(s) <==> DateShape(s.day) && p == StampText(s)
  {
    if DateShape(s.day) { StampReadsBack(s); }
    if StampOf(p) == Some(s) { assert p == p[..8] + p[8..18] + p[18..]; }
  }

  // ---- the whole line ------------------------------------------------------

  lemma {:induction false} SplitTwo(a: string, b: string)
    requires '|' !in a && '|' !in b
    ensures Split(a + "|" + b, '|') == [a, b]
  {
    SplitAt(a, '|', b);
    SplitPlain(a, '|');
    SplitPlain(b, '|');
    assert a + ['|'] + b == a + "|" + b;
  }

  lemma SplitThree(a: string, b: string, c: string)
    requires '|' !in a && '|' !in b && '|' !in c
    ensures Split(a + "|" + b + "|" + c, '|') == [a, b, c]
  {
    SplitTwo(a, b);
    SplitAt(a + "|" + b, '|', c);
    SplitPlain(c, '|');
    assert a + "|" + b + ['|'] + c == a + "|" + b + "|" + c;
  }

  lemma JoinTwo(line: string, a: string, b: string)
    requires Split(line, '|') == [a, b]
    ensures line == a + "|" + b
  {
    JoinSplit(line, '|');
    assert [a, b][1..] == [b];
    assert Join([a, b], ['|']) == a + ['|'] + Join([b], ['|']);
  }

  lemma JoinThree(line: string, a: string, b: string, c: string)
    requires Split(line, '|') == [a, b, c]
    ensures line == a + "|" + b + "|" + c
  {
    JoinSplit(line, '|');
    assert [a, b, c][1..] == [b, c] && [b, c][1..] == [c];
    assert Join([a, b, c], ['|']) == a + ['|'] + Join([b, c], ['|']);
    assert Join([b, c], ['|']) == b + ['|'] + Join([c], ['|']);
  }

  lemma PartsPlain(r: Raw)
    requires CapturesOk(r)
    ensures '|' !in FrontText(r.checked, r.id, r.title) && '|' !in " test: " + r.test
    ensures r.stamp.Some? ==> '|' !in StampText(r.stamp.value)
  {
  }

  lemma FrontSound(p: string, f: Front)
    requires FrontOf(p) == Some(f) && '|' !in p
    ensures IsId(f.id) && '|' !in f.title && p == FrontText(f.checked, f.id, f.title)
  {
    FrontIff(p, f);
    assert forall c :: c in f.title ==> c in FrontText(f.checked, f.id, f.title);
  }

  lemma TestSound(p: string, t: string)
    requires TestOf(p) == Some(t) && '|' !in p
    ensures '|' !in t && p == " test: " + t
  {
    TestIff(p, t);
    assert forall c :: c in t ==> c in " test: " + t;
  }

  lemma Shape2Sound(a: string, b: string, r: Raw)
    requires '|' !in a && '|' !in b && Shape2(FrontOf(a), TestOf(b)) == Some(r)
    ensures CapturesOk(r) && a + "|" + b == RawLine(r)
  {
    FrontSound(a, FrontOf(a).value);
    TestSound(b, TestOf(b).value);
  }

  lemma Shape3Sound(a: string, b: string, c: string, r: Raw)
    requires '|' !in a && '|' !in b && Shape3(FrontOf(a), TestOf(b), StampOf(c)) == Some(r)
    ensures CapturesOk(r) && a + "|" + b + "|" + c == RawLine(r)
  {
    var test := TestOf(b).value;
    FrontSound(a, FrontOf(a).value);
    TestSound(b, test);
    StampIff(c, r.stamp.value);
    assert test == r.test + " ";
    assert " test: " + (r.test + " ") == " test: " + r.test + " ";
    ThreeParts(a, r.test, c);
  }

  /** A line that matches is the line of its captures. */
  lemma ShapeSound(line: string, r: Raw)
    requires Shape(line) == Some(r)
    ensures CapturesOk(r) && line == RawLine(r)
  {
    var parts := Split(line, '|');
    if |parts| == 2 {
      assert parts == [parts[0], parts[1]];
      JoinTwo(line, parts[0], parts[1]);
      Shape2Sound(parts[0], parts[1], r);
    } else {
      assert parts == [parts[0], parts[1], parts[2]];
      JoinThree(line, parts[0], parts[1], parts[2]);
      Shape3Sound(parts[0], parts[1], parts[2], r);
    }
  }

  lemma ThreeParts(a: string, t: string, c: string)
    ensures a + "|" + (" test: " + t) + " " + "|" + c == a + "|" + (" test: " + t + " ") + "|" + c
  {
    assert a + "|" + (" test: " + t) + " " == a + "|" + (" test: " + t + " ");
  }

  /** The line of any captures matches, with those captures. */
  lemma ShapeComplete(r: Raw)
    requires CapturesOk(r)
    ensures Shape(RawLine(r)) == Some(r)
  {
    var a, b := FrontText(r.checked, r.id, r.title), " test: " + r.test;
    PartsPlain(r);
    FrontIff(a, Front(r.checked, r.id, r.title));
    if r.stamp.None? {
      SplitTwo(a, b);
      TestIff(b, r.test);
    } else {
      var c := StampText(r.stamp.value);
      ThreeParts(a, r.test, c);
      SplitThree(a, b + " ", c);
      assert b + " " == " test: " + (r.test + " ");
      TestIff(b + " ", r.test + " ");
      StampIff(c, r.stamp.value);
      assert (r.test + " ")[..|r.test|] == r.test;
    }
  }

  /** LINE matches exactly the lines it describes, each in one way. */
  lemma ShapeIff(line: string, r: Raw)
    ensures Shape(line) == Some(r) <==> CapturesOk(r) && line == RawLine(r)
  {
    if Shape(line) == Some(r) { ShapeSound(line, r); }
    if CapturesOk(r) && line == RawLine(r) { ShapeComplete(r); }
  }
}
