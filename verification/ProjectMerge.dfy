/**
 * Structured updates of a project document: the known sections are replaced,
 * appended to or prepended to; everything else stays. The algebra holds for any
 * five distinct known headings `heads` and any way `bullet` of writing an entry
 * as one bullet; `Merge` is it with the headings of ADR 0039 and dated bullets.
 */
module ProjectMerge {
  import opened Options
  import opened Text
  import opened Headings
  import opened ProjectDoc

  const HEADINGS: seq<string> := ["What & Why", "Current Status", "Next Actions", "Decisions", "Log"]

  datatype Update = Update(whatWhy: Option<string>, status: Option<string>, nextActions: Option<string>,
                           decision: Option<string>, logEntry: Option<string>)

  /** `order.indexOf(title)`, or |heads| when the title is not known. */
  function IndexOf(heads: seq<string>, title: string): (k: nat)
    ensures k <= |heads| && (k < |heads| ==> heads[k] == title)
    ensures forall j :: 0 <= j < k ==> heads[j] != title
  {
    if heads == [] || heads[0] == title then 0 else 1 + IndexOf(heads[1..], title)
  }

  predicate Known(heads: seq<string>, title: string) { IndexOf(heads, title) < |heads| }

  predicate HeadsOk(heads: seq<string>) {
    |heads| == 5 && forall i, j :: 0 <= i < j < |heads| ==> heads[i] != heads[j]
  }

  lemma HeadIndex(heads: seq<string>, k: nat)
    requires HeadsOk(heads) && k < |heads|
    ensures IndexOf(heads, heads[k]) == k && Known(heads, heads[k])
  {
  }

  lemma HeadingsOk()
    ensures HeadsOk(HEADINGS)
  {
    forall i, j | 0 <= i < j < |HEADINGS| ensures |HEADINGS[i]| != |HEADINGS[j]| {
    }
  }

  // ---- finding and setting -------------------------------------------------

  /** The first section with this title; |ss| when there is none. */
  function FirstIndex(ss: seq<Section>, title: string): (i: nat)
    ensures i <= |ss|
    ensures i < |ss| ==> ss[i].title == title
    ensures forall j :: 0 <= j < i ==> ss[j].title != title
  {
    if ss == [] || ss[0].title == title then 0 else 1 + FirstIndex(ss[1..], title)
  }

  predicate HasTitle(ss: seq<Section>, title: string) { FirstIndex(ss, title) < |ss| }

  /** `getProjectSection`. */
  function BodyOf(ss: seq<Section>, title: string): string {
    if HasTitle(ss, title) then ss[FirstIndex(ss, title)].body else ""
  }

  /** `setKnownBody`. */
  function WithBody(ss: seq<Section>, title: string, body: string): seq<Section> {
    var i := FirstIndex(ss, title);
    if i < |ss| then ss[i := ss[i].(body := TrimNewlines(body))] else ss + [Section(2, title, TrimNewlines(body))]
  }

  lemma FirstIndexIs(ss: seq<Section>, title: string, i: nat)
    requires i <= |ss| && (i < |ss| ==> ss[i].title == title) && forall j :: 0 <= j < i ==> ss[j].title != title
    ensures FirstIndex(ss, title) == i
  {
  }

  method SetKnownBody(ss: seq<Section>, title: string, body: string) returns (r: seq<Section>)
    ensures r == WithBody(ss, title, body)
  {
    var i := 0;
    while i < |ss| && ss[i].title != title
      invariant i <= |ss| && forall j :: 0 <= j < i ==> ss[j].title != title
    {
      i := i + 1;
    }
    FirstIndexIs(ss, title, i);
    if i < |ss| { return ss[i := ss[i].(body := TrimNewlines(body))]; }
    r := ss + [Section(2, title, TrimNewlines(body))];
  }

  // ---- inserting the missing known sections --------------------------------

  /** Just after the last known heading that precedes this place in the canonical order. */
  function InsertionIndex(heads: seq<string>, ss: seq<Section>, target: nat): (k: nat)
    ensures k <= |ss|
    ensures k > 0 ==> IndexOf(heads, ss[k - 1].title) < target
    ensures forall i :: k <= i < |ss| ==> IndexOf(heads, ss[i].title) >= target
  {
    if ss == [] then 0
    else if IndexOf(heads, ss[|ss| - 1].title) < target then |ss|
    else InsertionIndex(heads, ss[..|ss| - 1], target)
  }

  function Inserted(ss: seq<Section>, at: nat, s: Section): seq<Section>
    requires at <= |ss|
  {
    ss[..at] + [s] + ss[at..]
  }

  function Ensured(heads: seq<string>, ss: seq<Section>, k: nat): seq<Section>
    requires k < |heads|
  {
    if HasTitle(ss, heads[k]) then ss else Inserted(ss, InsertionIndex(heads, ss, k), Section(2, heads[k], ""))
  }

  /** `ensureKnownSections`, from the k-th heading on. */
  function EnsuredFrom(heads: seq<string>, ss: seq<Section>, k: nat): seq<Section>
    requires k <= |heads|
    decreases |heads| - k
  {
    if k == |heads| then ss else EnsuredFrom(heads, Ensured(heads, ss, k), k + 1)
  }

  lemma InsertionIndexIs(heads: seq<string>, ss: seq<Section>, target: nat, k: nat)
    requires k <= |ss| && (k > 0 ==> IndexOf(heads, ss[k - 1].title) < target)
    requires forall i :: k <= i < |ss| ==> IndexOf(heads, ss[i].title) >= target
    ensures InsertionIndex(heads, ss, target) == k
  {
  }

  /** `insertionIndex`. */
  method FindInsertion(heads: seq<string>, ss: seq<Section>, target: nat) returns (at: nat)
    requires target < |heads|
    ensures at == InsertionIndex(heads, ss, target)
  {
    var after := -1;
    for i := 0 to |ss|
      invariant -1 <= after < i
      invariant after >= 0 ==> IndexOf(heads, ss[after].title) < target
      invariant forall j :: after < j < i ==> IndexOf(heads, ss[j].title) >= target
    {
      if Known(heads, ss[i].title) && IndexOf(heads, ss[i].title) < target { after := i; }
    }
    at := after + 1;
    InsertionIndexIs(heads, ss, target, at);
  }

  method EnsureKnownSections(heads: seq<string>, sections: seq<Section>) returns (ss: seq<Section>)
    ensures ss == EnsuredFrom(heads, sections, 0)
  {
    ss := sections;
    for k := 0 to |heads|
      invariant EnsuredFrom(heads, ss, k) == EnsuredFrom(heads, sections, 0)
    {
      var next := ss;
      if !HasTitle(ss, heads[k]) {
        var at := FindInsertion(heads, ss, k);
        next := ss[..at] + [Section(2, heads[k], "")] + ss[at..];
      }
      assert next == Ensured(heads, ss, k);
      ss := next;
    }
  }

  // ---- dated lines ---------------------------------------------------------

  function SkipSpaces(s: string, i: nat): (j: nat)
    requires i <= |s|
    ensures i <= j <= |s| && (j < |s| ==> !IsSpace(s[j]))
    decreases |s| - i
  {
    if i < |s| && IsSpace(s[i]) then SkipSpaces(s, i + 1) else i
  }

  /** `\d{4}-\d{2}-\d{2}`. */
  predicate IsDate(d: string) {
    |d| == 10 && IsDigit(d[0]) && IsDigit(d[1]) && IsDigit(d[2]) && IsDigit(d[3]) && d[4] == '-' &&
    IsDigit(d[5]) && IsDigit(d[6]) && d[7] == '-' && IsDigit(d[8]) && IsDigit(d[9])
  }

  /** The length of a leading stamp, `- YYYY-MM-DD - ` or `YYYY-MM-DD - `. */
  function StampLength(s: string): (n: Option<nat>)
    ensures n.Some? ==> 11 <= n.value <= |s|
  {
    var i := if s != "" && s[0] == '-' then SkipSpaces(s, 1) else 0;
    if i + 10 > |s| || !IsDate(s[i..i + 10]) then None
    else
      var j := SkipSpaces(s, i + 10);
      if j < |s| && s[j] == '-' then Some(SkipSpaces(s, j + 1)) else None
  }

  function Stripped(s: string): (r: string)
    ensures StampLength(r).None?
    decreases |s|
  {
    if StampLength(s).None? then s else Stripped(Trim(s[StampLength(s).value..]))
  }

  /** One bullet, stamped once: the caller's own stamps are stripped. */
  function DatedBullet(date: string, text: string): string { "- " + date + " - " + Stripped(Trim(text)) }

  method MakeDatedBullet(date: string, text: string) returns (line: string)
    ensures line == DatedBullet(date, text)
  {
    var stripped := Trim(text);
    while StampLength(stripped).Some?
      invariant Stripped(stripped) == Stripped(Trim(text))
      decreases |stripped|
    {
      stripped := Trim(stripped[StampLength(stripped).value..]);
    }
    line := "- " + date + " - " + stripped;
  }

  lemma {:induction false} StrippedIsTrimmed(s: string)
    requires Trimmed(s)
    ensures Trimmed(Stripped(s))
    decreases |s|
  {
    if StampLength(s).Some? { StrippedIsTrimmed(Trim(s[StampLength(s).value..])); }
  }

  lemma {:induction false} TrimRightBlank(s: string, n: nat)
    requires n <= |s| && (n > 0 ==> !IsSpace(s[n - 1])) && forall i :: n <= i < |s| ==> IsSpace(s[i])
    ensures TrimRight(s) == s[..n]
    decreases |s|
  {
    if n < |s| {
      TrimRightBlank(s[..|s| - 1], n);
      assert s[..|s| - 1][..n] == s[..n];
    } else {
      assert s[..n] == s;
    }
  }

  /** A bullet trims to itself, or loses the blank after an empty entry. */
  lemma TrimmedBullet(date: string, x: string)
    requires IsDate(date) && Trimmed(x)
    ensures Trim("- " + date + " - " + x) == if x == "" then "- " + date + " -" else "- " + date + " - " + x
  {
    var s := "- " + date + " - " + x;
    assert TrimLeft(s) == s;
    if x == "" {
      TrimRightBlank(s, 14);
      assert s[..14] == "- " + date + " -";
    } else {
      assert s[|s| - 1] == x[|x| - 1];
    }
  }

  /** The stamp of a written bullet is found, and what follows it is the entry. */
  lemma StampOf(date: string, x: string, s: string)
    requires IsDate(date) && Trimmed(x) && s == if x == "" then "- " + date + " -" else "- " + date + " - " + x
    ensures StampLength(s).Some? && s[StampLength(s).value..] == x
  {
    assert s[0] == '-' && s[1] == ' ' && s[2] == date[0] && IsDigit(s[2]);
    assert SkipSpaces(s, 2) == 2;
    assert SkipSpaces(s, 1) == 2;
    assert s[2..12] == date;
    assert s[12] == ' ' && s[13] == '-';
    assert SkipSpaces(s, 13) == 13;
    assert SkipSpaces(s, 12) == 13;
    if x == "" {
      assert SkipSpaces(s, 14) == 14;
    } else {
      assert s[14] == ' ' && s[15] == x[0];
      assert SkipSpaces(s, 15) == 15;
      assert SkipSpaces(s, 14) == 15;
    }
  }

  /** An entry that already carries a date is stamped once, with the new date. */
  lemma NeverDoubleStamped(date: string, written: string, text: string)
    requires IsDate(written)
    ensures DatedBullet(date, DatedBullet(written, text)) == DatedBullet(date, text)
  {
    var x := Stripped(Trim(text));
    StrippedIsTrimmed(Trim(text));
    TrimmedBullet(written, x);
    var s := Trim(DatedBullet(written, text));
    StampOf(written, x, s);
    RestampedSame(s, x);
  }

  lemma RestampedSame(s: string, x: string)
    requires StampLength(s).Some? && s[StampLength(s).value..] == x && Trimmed(x) && StampLength(x).None?
    ensures Stripped(s) == x
  {
    assert Trim(x) == x;
  }

  /** What every way of writing an entry as a bullet provides. */
  ghost predicate Bullets(bullet: string -> string) {
    forall text :: bullet(text) != "" && NoOuterNewlines(bullet(text))
  }

  lemma DatedBullets(date: string)
    requires IsDate(date)
    ensures Bullets(text => DatedBullet(date, text))
  {
    forall text ensures var b := DatedBullet(date, text); b != "" && NoOuterNewlines(b) {
      StrippedIsTrimmed(Trim(text));
      BulletEnds(date, Stripped(Trim(text)));
    }
  }

  lemma BulletEnds(date: string, x: string)
    requires Trimmed(x)
    ensures var b := "- " + date + " - " + x; b != "" && NoOuterNewlines(b)
  {
    var b := "- " + date + " - " + x;
    assert b[|b| - 1] == if x == "" then ' ' else x[|x| - 1];
  }

  // ---- the merge -----------------------------------------------------------

  function MaybeSet(ss: seq<Section>, title: string, body: Option<string>): seq<Section> {
    if body.Some? then WithBody(ss, title, body.value) else ss
  }

  function Below(existing: string, line: string): string { if existing == "" then line else existing + "\n" + line }

  function Above(existing: string, line: string): string { if existing == "" then line else line + "\n" + existing }

  function WithDecision(ss: seq<Section>, title: string, line: Option<string>): seq<Section> {
    MaybeSet(ss, title, if line.None? then None else Some(Below(BodyOf(ss, title), line.value)))
  }

  function WithLogEntry(ss: seq<Section>, title: string, line: Option<string>): seq<Section> {
    MaybeSet(ss, title, if line.None? then None else Some(Above(BodyOf(ss, title), line.value)))
  }

  function Bulleted(bullet: string -> string, text: Option<string>): Option<string> {
    if text.None? then None else Some(bullet(text.value))
  }

  function MergedSections(heads: seq<string>, bullet: string -> string, ss: seq<Section>, u: Update): seq<Section>
    requires |heads| == 5
  {
    var a := EnsuredFrom(heads, ss, 0);
    var b := MaybeSet(MaybeSet(MaybeSet(a, heads[0], u.whatWhy), heads[1], u.status), heads[2], u.nextActions);
    WithLogEntry(WithDecision(b, heads[3], Bulleted(bullet, u.decision)), heads[4], Bulleted(bullet, u.logEntry))
  }

  function MergeIn(heads: seq<string>, d: Doc, u: Update, date: string): Doc
    requires |heads| == 5
  {
    Doc(d.preamble, MergedSections(heads, text => DatedBullet(date, text), d.sections, u))
  }

  /** `mergeProjectDoc`. */
  function Merge(d: Doc, u: Update, date: string): Doc { MergeIn(HEADINGS, d, u, date) }

  method MergeProjectDoc(d: Doc, u: Update, date: string) returns (r: Doc)
    ensures r == Merge(d, u, date)
  {
    var ss := MergeSections(HEADINGS, d.sections, u, date);
    r := Doc(d.preamble, ss);
  }

  method MergeSections(heads: seq<string>, sections: seq<Section>, u: Update, date: string) returns (ss: seq<Section>)
    requires |heads| == 5
    ensures ss == MergedSections(heads, text => DatedBullet(date, text), sections, u)
  {
    ss := EnsureKnownSections(heads, sections);
    if u.whatWhy.Some? { ss := SetKnownBody(ss, heads[0], u.whatWhy.value); }
    if u.status.Some? { ss := SetKnownBody(ss, heads[1], u.status.value); }
    if u.nextActions.Some? { ss := SetKnownBody(ss, heads[2], u.nextActions.value); }
    if u.decision.Some? {
      var line := MakeDatedBullet(date, u.decision.value);
      var existing := BodyOf(ss, heads[3]);
      ss := SetKnownBody(ss, heads[3], if existing == "" then line else existing + "\n" + line);
    }
    if u.logEntry.Some? {
      var line := MakeDatedBullet(date, u.logEntry.value);
      var existing := BodyOf(ss, heads[4]);
      ss := SetKnownBody(ss, heads[4], if existing == "" then line else line + "\n" + existing);
    }
  }

  // ---- what inserting a section keeps --------------------------------------

  /** The sections whose title is not a known heading. */
  function Unnamed(heads: seq<string>, ss: seq<Section>): seq<Section> {
    if ss == [] then [] else (if Known(heads, ss[0].title) then [] else [ss[0]]) + Unnamed(heads, ss[1..])
  }

  lemma {:induction false} UnnamedConcat(heads: seq<string>, a: seq<Section>, b: seq<Section>)
    ensures Unnamed(heads, a + b) == Unnamed(heads, a) + Unnamed(heads, b)
  {
    if a == [] {
      assert a + b == b;
    } else {
      assert (a + b)[1..] == a[1..] + b;
      UnnamedConcat(heads, a[1..], b);
    }
  }

  lemma UnnamedAround(heads: seq<string>, a: seq<Section>, s: Section, b: seq<Section>)
    requires Known(heads, s.title)
    ensures Unnamed(heads, a + [s] + b) == Unnamed(heads, a) + Unnamed(heads, b)
  {
    UnnamedConcat(heads, a + [s], b);
    UnnamedConcat(heads, a, [s]);
    UnnamedOne(heads, s);
    assert Unnamed(heads, a) + [] == Unnamed(heads, a);
  }

  lemma UnnamedOne(heads: seq<string>, s: Section)
    requires Known(heads, s.title)
    ensures Unnamed(heads, [s]) == []
  {
    assert [s][1..] == [];
  }

  lemma InsertedUnnamed(heads: seq<string>, ss: seq<Section>, at: nat, s: Section)
    requires at <= |ss| && Known(heads, s.title)
    ensures Unnamed(heads, Inserted(ss, at, s)) == Unnamed(heads, ss)
  {
    CutJoined(ss, at);
    UnnamedInside(heads, ss[..at], s, ss[at..]);
  }

  lemma CutJoined(ss: seq<Section>, at: nat)
    requires at <= |ss|
    ensures ss[..at] + ss[at..] == ss
  {
  }

  lemma UnnamedInside(heads: seq<string>, a: seq<Section>, s: Section, b: seq<Section>)
    requires Known(heads, s.title)
    ensures Unnamed(heads, a + [s] + b) == Unnamed(heads, a + b)
  {
    UnnamedAround(heads, a, s, b);
    UnnamedConcat(heads, a, b);
  }

  lemma InsertedAt(ss: seq<Section>, at: nat, s: Section, j: nat)
    requires at <= |ss| && j <= |ss|
    ensures |Inserted(ss, at, s)| == |ss| + 1
    ensures Inserted(ss, at, s)[j] == if j < at then ss[j] else if j == at then s else ss[j - 1]
  {
  }

  function Shifted(at: nat, i: nat): nat { if i < at then i else i + 1 }

  /** Where the first section of a title is once a section of a new title was inserted. */
  lemma InsertedFirst(ss: seq<Section>, at: nat, s: Section, t: string)
    requires at <= |ss| && !HasTitle(ss, s.title)
    ensures FirstIndex(Inserted(ss, at, s), t) == if t == s.title then at else Shifted(at, FirstIndex(ss, t))
  {
    var r := Inserted(ss, at, s);
    var i := if t == s.title then at else Shifted(at, FirstIndex(ss, t));
    assert |r| == |ss| + 1;
    forall j | 0 <= j < i ensures r[j].title != t { InsertedAt(ss, at, s, j); }
    if i < |r| { InsertedAt(ss, at, s, i); }
    FirstIndexIs(r, t, i);
  }

  /** A fresh empty section changes no body and no title but its own. */
  lemma InsertedBody(ss: seq<Section>, at: nat, s: Section, t: string)
    requires at <= |ss| && !HasTitle(ss, s.title) && s.body == ""
    ensures BodyOf(Inserted(ss, at, s), t) == BodyOf(ss, t)
    ensures HasTitle(Inserted(ss, at, s), t) == (HasTitle(ss, t) || t == s.title)
  {
    InsertedFirst(ss, at, s, t);
    var i := FirstIndex(ss, t);
    if t == s.title {
      InsertedAt(ss, at, s, at);
    } else if i < |ss| {
      InsertedAt(ss, at, s, Shifted(at, i));
    }
  }

  lemma EnsuredKeeps(heads: seq<string>, ss: seq<Section>, k: nat, t: string)
    requires HeadsOk(heads) && k < |heads|
    ensures var r := Ensured(heads, ss, k);
      Unnamed(heads, r) == Unnamed(heads, ss) && BodyOf(r, t) == BodyOf(ss, t) && HasTitle(r, t) == (HasTitle(ss, t) || t == heads[k])
  {
    HeadIndex(heads, k);
    if !HasTitle(ss, heads[k]) {
      var at, s := InsertionIndex(heads, ss, k), Section(2, heads[k], "");
      InsertedUnnamed(heads, ss, at, s);
      InsertedBody(ss, at, s, t);
    }
  }

  lemma InTail(heads: seq<string>, k: nat, t: string)
    requires k < |heads|
    ensures t in heads[k..] <==> t == heads[k] || t in heads[k + 1..]
  {
    assert heads[k..] == [heads[k]] + heads[k + 1..];
  }

  lemma {:induction false} EnsuredFromKeeps(heads: seq<string>, ss: seq<Section>, k: nat, t: string)
    requires HeadsOk(heads) && k <= |heads|
    ensures var r := EnsuredFrom(heads, ss, k);
      Unnamed(heads, r) == Unnamed(heads, ss) && BodyOf(r, t) == BodyOf(ss, t) && HasTitle(r, t) == (HasTitle(ss, t) || t in heads[k..])
    decreases |heads| - k
  {
    if k < |heads| {
      EnsuredKeeps(heads, ss, k, t);
      EnsuredFromKeeps(heads, Ensured(heads, ss, k), k + 1, t);
      InTail(heads, k, t);
    }
  }

  /** Known sections in the canonical order. */
  predicate InOrder(heads: seq<string>, ss: seq<Section>) {
    forall i, j :: 0 <= i < j < |ss| && Known(heads, ss[i].title) && Known(heads, ss[j].title) ==>
      IndexOf(heads, ss[i].title) <= IndexOf(heads, ss[j].title)
  }

  predicate Before(heads: seq<string>, a: Section, b: Section) {
    (Known(heads, a.title) && Known(heads, b.title)) ==> IndexOf(heads, a.title) <= IndexOf(heads, b.title)
  }

  lemma InsertedBefore(heads: seq<string>, ss: seq<Section>, at: nat, s: Section, i: nat, j: nat)
    requires InOrder(heads, ss) && at <= |ss| && i < j <= |ss|
    requires at > 0 ==> IndexOf(heads, ss[at - 1].title) < IndexOf(heads, s.title)
    requires forall m :: at <= m < |ss| ==> IndexOf(heads, ss[m].title) >= IndexOf(heads, s.title)
    requires Known(heads, s.title)
    ensures |Inserted(ss, at, s)| == |ss| + 1 && Before(heads, Inserted(ss, at, s)[i], Inserted(ss, at, s)[j])
  {
    InsertedAt(ss, at, s, i);
    InsertedAt(ss, at, s, j);
    if j == at && i < at - 1 { assert Before(heads, ss[i], ss[at - 1]); }
  }

  lemma EnsuredInOrder(heads: seq<string>, ss: seq<Section>, k: nat)
    requires HeadsOk(heads) && k < |heads| && InOrder(heads, ss)
    ensures InOrder(heads, Ensured(heads, ss, k))
  {
    if !HasTitle(ss, heads[k]) {
      HeadIndex(heads, k);
      var at, s := InsertionIndex(heads, ss, k), Section(2, heads[k], "");
      var r := Inserted(ss, at, s);
      forall i, j | 0 <= i < j < |r| ensures Before(heads, r[i], r[j]) {
        InsertedBefore(heads, ss, at, s, i, j);
      }
    }
  }

  /** Missing known sections go to their place in the canonical order. */
  lemma {:induction false} EnsuredFromInOrder(heads: seq<string>, ss: seq<Section>, k: nat)
    requires HeadsOk(heads) && k <= |heads| && InOrder(heads, ss)
    ensures InOrder(heads, EnsuredFrom(heads, ss, k))
    decreases |heads| - k
  {
    if k < |heads| {
      EnsuredInOrder(heads, ss, k);
      EnsuredFromInOrder(heads, Ensured(heads, ss, k), k + 1);
    }
  }

  // ---- what setting a body keeps -------------------------------------------

  predicate SameTitles(a: seq<Section>, b: seq<Section>) {
    |a| == |b| && forall i :: 0 <= i < |a| ==> a[i].title == b[i].title && a[i].level == b[i].level
  }

  lemma SameTitlesFirst(a: seq<Section>, b: seq<Section>, t: string)
    requires SameTitles(a, b)
    ensures FirstIndex(a, t) == FirstIndex(b, t) && HasTitle(a, t) == HasTitle(b, t)
  {
    FirstIndexIs(a, t, FirstIndex(b, t));
  }

  lemma SameTitlesInOrder(heads: seq<string>, a: seq<Section>, b: seq<Section>)
    requires SameTitles(a, b) && InOrder(heads, a)
    ensures InOrder(heads, b)
  {
  }

  /** Everything but the body of one known section. */
  ghost predicate OnlyBody(heads: seq<string>, a: seq<Section>, b: seq<Section>, title: string) {
    SameTitles(a, b) && Unnamed(heads, a) == Unnamed(heads, b) && forall t :: t != title ==> BodyOf(a, t) == BodyOf(b, t)
  }

  lemma WithBodyUnnamed(heads: seq<string>, ss: seq<Section>, i: nat, s: Section)
    requires i < |ss| && Known(heads, ss[i].title) && s.title == ss[i].title
    ensures Unnamed(heads, ss[i := s]) == Unnamed(heads, ss)
  {
    assert ss[i := s] == ss[..i] + [s] + ss[i + 1..];
    assert ss == ss[..i] + [ss[i]] + ss[i + 1..];
    UnnamedAround(heads, ss[..i], s, ss[i + 1..]);
    UnnamedAround(heads, ss[..i], ss[i], ss[i + 1..]);
  }

  lemma WithBodyKeeps(heads: seq<string>, ss: seq<Section>, title: string, body: string)
    requires Known(heads, title) && HasTitle(ss, title)
    ensures OnlyBody(heads, ss, WithBody(ss, title, body), title)
    ensures BodyOf(WithBody(ss, title, body), title) == TrimNewlines(body)
  {
    var r, i := WithBody(ss, title, body), FirstIndex(ss, title);
    WithBodyUnnamed(heads, ss, i, r[i]);
    forall t ensures t != title ==> BodyOf(ss, t) == BodyOf(r, t) {
      SameTitlesFirst(ss, r, t);
    }
    SameTitlesFirst(ss, r, title);
  }

  lemma MaybeSetKeeps(heads: seq<string>, ss: seq<Section>, title: string, body: Option<string>)
    requires Known(heads, title) && HasTitle(ss, title)
    ensures OnlyBody(heads, ss, MaybeSet(ss, title, body), title)
    ensures BodyOf(MaybeSet(ss, title, body), title) == if body.Some? then TrimNewlines(body.value) else BodyOf(ss, title)
  {
    if body.Some? { WithBodyKeeps(heads, ss, title, body.value); }
  }

  // ---- what a merge keeps --------------------------------------------------

  function Replaced(was: string, body: Option<string>): string { if body.Some? then TrimNewlines(body.value) else was }

  function Decided(was: string, line: Option<string>): string { if line.Some? then Below(was, line.value) else was }

  function Logged(was: string, line: Option<string>): string { if line.Some? then Above(was, line.value) else was }

  /** The body of the title t once three sections were replaced. */
  function ReplacedBody(heads: seq<string>, was: string, u: Update, t: string): string
    requires |heads| == 5
  {
    if t == heads[0] then Replaced(was, u.whatWhy) else if t == heads[1] then Replaced(was, u.status)
    else if t == heads[2] then Replaced(was, u.nextActions) else was
  }

  /** The body of the title t once a decision went below Decisions and an entry above the Log. */
  function AppendedBody(heads: seq<string>, was: string, decision: Option<string>, entry: Option<string>, t: string): string
    requires |heads| == 5
  {
    if t == heads[3] then Decided(was, decision) else if t == heads[4] then Logged(was, entry) else was
  }

  /** The body of every title after a merge. */
  function MergedBody(heads: seq<string>, bullet: string -> string, ss: seq<Section>, u: Update, t: string): string
    requires |heads| == 5
  {
    AppendedBody(heads, ReplacedBody(heads, BodyOf(ss, t), u, t), Bulleted(bullet, u.decision), Bulleted(bullet, u.logEntry), t)
  }

  lemma JoinedNoOuter(a: string, b: string)
    requires NoOuterNewlines(a) && NoOuterNewlines(b) && a != "" && b != ""
    ensures TrimNewlines(a + "\n" + b) == a + "\n" + b
  {
    var s := a + "\n" + b;
    assert s[0] == a[0] && s[|s| - 1] == b[|b| - 1];
  }

  /** One replacement, where the next known section is there too. */
  lemma ReplaceStep(heads: seq<string>, a: seq<Section>, b: seq<Section>, title: string, body: Option<string>)
    requires Known(heads, title) && HasTitle(a, title) && SameTitles(a, b)
    ensures OnlyBody(heads, b, MaybeSet(b, title, body), title) && SameTitles(a, MaybeSet(b, title, body))
    ensures BodyOf(MaybeSet(b, title, body), title) == Replaced(BodyOf(b, title), body)
  {
    SameTitlesFirst(a, b, title);
    MaybeSetKeeps(heads, b, title, body);
  }

  ghost predicate AllNamed(heads: seq<string>, a: seq<Section>) {
    forall k :: 0 <= k < |heads| ==> HasTitle(a, heads[k])
  }

  function ReplacedThree(heads: seq<string>, a: seq<Section>, u: Update): seq<Section>
    requires |heads| == 5
  {
    MaybeSet(MaybeSet(MaybeSet(a, heads[0], u.whatWhy), heads[1], u.status), heads[2], u.nextActions)
  }

  lemma OnlyBodyAt(heads: seq<string>, a: seq<Section>, b: seq<Section>, title: string, t: string)
    requires OnlyBody(heads, a, b, title)
    ensures t != title ==> BodyOf(a, t) == BodyOf(b, t)
  {
  }

  /** The three replacements, seen at the title t. */
  lemma ThreeReplaced(heads: seq<string>, a: seq<Section>, u: Update, t: string)
    requires HeadsOk(heads) && AllNamed(heads, a)
    ensures var r := ReplacedThree(heads, a, u);
      && SameTitles(a, r) && Unnamed(heads, a) == Unnamed(heads, r)
      && BodyOf(r, t) == ReplacedBody(heads, BodyOf(a, t), u, t)
  {
    HeadIndex(heads, 0);
    HeadIndex(heads, 1);
    HeadIndex(heads, 2);
    var b0 := MaybeSet(a, heads[0], u.whatWhy);
    ReplaceStep(heads, a, a, heads[0], u.whatWhy);
    OnlyBodyAt(heads, a, b0, heads[0], t);
    var b1 := MaybeSet(b0, heads[1], u.status);
    ReplaceStep(heads, a, b0, heads[1], u.status);
    OnlyBodyAt(heads, b0, b1, heads[1], t);
    ReplaceStep(heads, a, b1, heads[2], u.nextActions);
    OnlyBodyAt(heads, b1, ReplacedThree(heads, a, u), heads[2], t);
  }

  predicate LineOk(line: Option<string>) { line.Some? ==> line.value != "" && NoOuterNewlines(line.value) }

  lemma DecidedKeeps(heads: seq<string>, ss: seq<Section>, title: string, line: Option<string>)
    requires Known(heads, title) && HasTitle(ss, title)
    ensures OnlyBody(heads, ss, WithDecision(ss, title, line), title)
    ensures NoOuterNewlines(BodyOf(ss, title)) && LineOk(line) ==> BodyOf(WithDecision(ss, title, line), title) == Decided(BodyOf(ss, title), line)
  {
    var was := BodyOf(ss, title);
    MaybeSetKeeps(heads, ss, title, if line.None? then None else Some(Below(was, line.value)));
    if line.Some? && NoOuterNewlines(was) && LineOk(line) && was != "" { JoinedNoOuter(was, line.value); }
  }

  lemma LoggedKeeps(heads: seq<string>, ss: seq<Section>, title: string, line: Option<string>)
    requires Known(heads, title) && HasTitle(ss, title)
    ensures OnlyBody(heads, ss, WithLogEntry(ss, title, line), title)
    ensures NoOuterNewlines(BodyOf(ss, title)) && LineOk(line) ==> BodyOf(WithLogEntry(ss, title, line), title) == Logged(BodyOf(ss, title), line)
  {
    var was := BodyOf(ss, title);
    MaybeSetKeeps(heads, ss, title, if line.None? then None else Some(Above(was, line.value)));
    if line.Some? && NoOuterNewlines(was) && LineOk(line) && was != "" { JoinedNoOuter(line.value, was); }
  }

  predicate NoOuterAt(heads: seq<string>, body: string, t: string)
    requires |heads| == 5
  {
    (t == heads[3] || t == heads[4]) ==> NoOuterNewlines(body)
  }

  lemma ReplacedNoOuter(heads: seq<string>, was: string, u: Update, t: string)
    requires HeadsOk(heads) && NoOuterAt(heads, was, t)
    ensures NoOuterAt(heads, ReplacedBody(heads, was, u, t), t)
  {
  }

  /** The last two updates, seen at the title t. */
  lemma TwoAppended(heads: seq<string>, b: seq<Section>, decision: Option<string>, entry: Option<string>, t: string)
    requires HeadsOk(heads) && AllNamed(heads, b)
    ensures var r := WithLogEntry(WithDecision(b, heads[3], decision), heads[4], entry);
      && SameTitles(b, r) && Unnamed(heads, b) == Unnamed(heads, r)
      && (NoOuterAt(heads, BodyOf(b, t), t) && LineOk(decision) && LineOk(entry) ==>
          BodyOf(r, t) == AppendedBody(heads, BodyOf(b, t), decision, entry, t))
  {
    HeadIndex(heads, 3);
    HeadIndex(heads, 4);
    var c := WithDecision(b, heads[3], decision);
    DecidedKeeps(heads, b, heads[3], decision);
    OnlyBodyAt(heads, b, c, heads[3], t);
    SameTitlesFirst(b, c, heads[4]);
    LoggedKeeps(heads, c, heads[4], entry);
    OnlyBodyAt(heads, c, WithLogEntry(c, heads[4], entry), heads[4], t);
  }

  lemma AllEnsured(heads: seq<string>, ss: seq<Section>)
    requires HeadsOk(heads)
    ensures AllNamed(heads, EnsuredFrom(heads, ss, 0)) && Unnamed(heads, EnsuredFrom(heads, ss, 0)) == Unnamed(heads, ss)
  {
    EnsuredFromKeeps(heads, ss, 0, "");
    forall k | 0 <= k < |heads| ensures HasTitle(EnsuredFrom(heads, ss, 0), heads[k]) {
      EnsuredFromKeeps(heads, ss, 0, heads[k]);
    }
  }

  lemma SameTitlesAllNamed(heads: seq<string>, a: seq<Section>, b: seq<Section>)
    requires AllNamed(heads, a) && SameTitles(a, b)
    ensures AllNamed(heads, b)
  {
    forall k | 0 <= k < |heads| ensures HasTitle(b, heads[k]) { SameTitlesFirst(a, b, heads[k]); }
  }

  /** Every section of another title stays, in order; every known one is there, in order when the present ones were. */
  lemma MergeKeepsSections(heads: seq<string>, bullet: string -> string, ss: seq<Section>, u: Update)
    requires HeadsOk(heads)
    ensures var r := MergedSections(heads, bullet, ss, u);
      Unnamed(heads, r) == Unnamed(heads, ss) && AllNamed(heads, r) && (InOrder(heads, ss) ==> InOrder(heads, r))
  {
    var a := EnsuredFrom(heads, ss, 0);
    AllEnsured(heads, ss);
    ThreeReplaced(heads, a, u, "");
    var b := ReplacedThree(heads, a, u);
    SameTitlesAllNamed(heads, a, b);
    TwoAppended(heads, b, Bulleted(bullet, u.decision), Bulleted(bullet, u.logEntry), "");
    var r := MergedSections(heads, bullet, ss, u);
    SameTitlesAllNamed(heads, b, r);
    if InOrder(heads, ss) {
      EnsuredFromInOrder(heads, ss, 0);
      SameTitlesInOrder(heads, a, r);
    }
  }

  lemma BulletedOk(bullet: string -> string, text: Option<string>)
    requires Bullets(bullet)
    ensures LineOk(Bulleted(bullet, text))
  {
  }

  /** Exactly the three bodies are replaced, the decision goes below the old ones and the entry above the old Log. */
  lemma MergeBodies(heads: seq<string>, bullet: string -> string, ss: seq<Section>, u: Update, t: string)
    requires HeadsOk(heads) && Bullets(bullet) && NoOuterAt(heads, BodyOf(ss, t), t)
    ensures BodyOf(MergedSections(heads, bullet, ss, u), t) == MergedBody(heads, bullet, ss, u, t)
  {
    var a := EnsuredFrom(heads, ss, 0);
    AllEnsured(heads, ss);
    EnsuredFromKeeps(heads, ss, 0, t);
    ThreeReplaced(heads, a, u, t);
    var b := ReplacedThree(heads, a, u);
    SameTitlesAllNamed(heads, a, b);
    ReplacedNoOuter(heads, BodyOf(a, t), u, t);
    BulletedOk(bullet, u.decision);
    BulletedOk(bullet, u.logEntry);
    TwoAppended(heads, b, Bulleted(bullet, u.decision), Bulleted(bullet, u.logEntry), t);
  }

  predicate EndsWith(s: string, t: string) { |t| <= |s| && s[|s| - |t|..] == t }

  lemma MergedEnds(heads: seq<string>, bullet: string -> string, ss: seq<Section>, u: Update)
    requires HeadsOk(heads)
    ensures BodyOf(ss, heads[3]) <= MergedBody(heads, bullet, ss, u, heads[3])
    ensures EndsWith(MergedBody(heads, bullet, ss, u, heads[4]), BodyOf(ss, heads[4]))
  {
  }

  /**
   * A merge keeps the preamble, every section of another title in order, the
   * old Decisions as a prefix and the old Log as a suffix, and has every known
   * section, in canonical order when the present ones were.
   */
  lemma MergeKeeps(d: Doc, u: Update, date: string)
    requires IsDate(date) && NoOuterNewlines(BodyOf(d.sections, HEADINGS[3])) && NoOuterNewlines(BodyOf(d.sections, HEADINGS[4]))
    ensures var before, after := d.sections, Merge(d, u, date).sections;
      && Merge(d, u, date).preamble == d.preamble
      && Unnamed(HEADINGS, after) == Unnamed(HEADINGS, before)
      && AllNamed(HEADINGS, after)
      && (InOrder(HEADINGS, before) ==> InOrder(HEADINGS, after))
      && BodyOf(before, HEADINGS[3]) <= BodyOf(after, HEADINGS[3])
      && EndsWith(BodyOf(after, HEADINGS[4]), BodyOf(before, HEADINGS[4]))
      && forall t :: BodyOf(after, t) == MergedBody(HEADINGS, text => DatedBullet(date, text), before, u, t)
  {
    HeadingsOk();
    DatedBullets(date);
    MergeKeepsIn(HEADINGS, text => DatedBullet(date, text), d.sections, u);
  }

  /**
   * What a merge writes: the given texts into their sections, the decision as
   * the last line of Decisions, the entry as the first of the Log; a section
   * of which nothing is given stays.
   */
  lemma MergeWrites(d: Doc, u: Update, date: string)
    requires IsDate(date) && NoOuterNewlines(BodyOf(d.sections, "Decisions")) && NoOuterNewlines(BodyOf(d.sections, "Log"))
    ensures var before, after := d.sections, Merge(d, u, date).sections;
      && BodyOf(after, "What & Why") == (if u.whatWhy.Some? then TrimNewlines(u.whatWhy.value) else BodyOf(before, "What & Why"))
      && BodyOf(after, "Current Status") == (if u.status.Some? then TrimNewlines(u.status.value) else BodyOf(before, "Current Status"))
      && BodyOf(after, "Next Actions") == (if u.nextActions.Some? then TrimNewlines(u.nextActions.value) else BodyOf(before, "Next Actions"))
      && (u.decision.Some? ==> EndsWith(BodyOf(after, "Decisions"), DatedBullet(date, u.decision.value)))
      && (u.decision.None? ==> BodyOf(after, "Decisions") == BodyOf(before, "Decisions"))
      && (u.logEntry.Some? ==> DatedBullet(date, u.logEntry.value) <= BodyOf(after, "Log"))
      && (u.logEntry.None? ==> BodyOf(after, "Log") == BodyOf(before, "Log"))
  {
    HeadingsOk();
    DatedBullets(date);
    assert HEADINGS[0] == "What & Why" && HEADINGS[1] == "Current Status" && HEADINGS[2] == "Next Actions";
    assert HEADINGS[3] == "Decisions" && HEADINGS[4] == "Log";
    MergeWritesIn(HEADINGS, text => DatedBullet(date, text), d.sections, u);
  }

  lemma MergeWritesIn(heads: seq<string>, bullet: string -> string, ss: seq<Section>, u: Update)
    requires HeadsOk(heads) && Bullets(bullet)
    requires NoOuterNewlines(BodyOf(ss, heads[3])) && NoOuterNewlines(BodyOf(ss, heads[4]))
    ensures var r := MergedSections(heads, bullet, ss, u);
      && BodyOf(r, heads[0]) == (if u.whatWhy.Some? then TrimNewlines(u.whatWhy.value) else BodyOf(ss, heads[0]))
      && BodyOf(r, heads[1]) == (if u.status.Some? then TrimNewlines(u.status.value) else BodyOf(ss, heads[1]))
      && BodyOf(r, heads[2]) == (if u.nextActions.Some? then TrimNewlines(u.nextActions.value) else BodyOf(ss, heads[2]))
      && (u.decision.Some? ==> EndsWith(BodyOf(r, heads[3]), bullet(u.decision.value)))
      && (u.decision.None? ==> BodyOf(r, heads[3]) == BodyOf(ss, heads[3]))
      && (u.logEntry.Some? ==> bullet(u.logEntry.value) <= BodyOf(r, heads[4]))
      && (u.logEntry.None? ==> BodyOf(r, heads[4]) == BodyOf(ss, heads[4]))
  {
    MergeBodies(heads, bullet, ss, u, heads[0]);
    MergeBodies(heads, bullet, ss, u, heads[1]);
    MergeBodies(heads, bullet, ss, u, heads[2]);
    MergeBodies(heads, bullet, ss, u, heads[3]);
    MergeBodies(heads, bullet, ss, u, heads[4]);
    MergedBodyAt(heads, bullet, ss, u);
    if u.decision.Some? { BelowEnds(BodyOf(ss, heads[3]), bullet(u.decision.value)); }
  }

  lemma MergedBodyAt(heads: seq<string>, bullet: string -> string, ss: seq<Section>, u: Update)
    requires HeadsOk(heads)
    ensures MergedBody(heads, bullet, ss, u, heads[0]) == (if u.whatWhy.Some? then TrimNewlines(u.whatWhy.value) else BodyOf(ss, heads[0]))
    ensures MergedBody(heads, bullet, ss, u, heads[1]) == (if u.status.Some? then TrimNewlines(u.status.value) else BodyOf(ss, heads[1]))
    ensures MergedBody(heads, bullet, ss, u, heads[2]) == (if u.nextActions.Some? then TrimNewlines(u.nextActions.value) else BodyOf(ss, heads[2]))
    ensures MergedBody(heads, bullet, ss, u, heads[3]) ==
      (if u.decision.Some? then Below(BodyOf(ss, heads[3]), bullet(u.decision.value)) else BodyOf(ss, heads[3]))
    ensures MergedBody(heads, bullet, ss, u, heads[4]) ==
      (if u.logEntry.Some? then Above(BodyOf(ss, heads[4]), bullet(u.logEntry.value)) else BodyOf(ss, heads[4]))
  {
    assert forall k :: 0 <= k < 4 ==> heads[k] != heads[4];
    assert heads[0] != heads[3] && heads[1] != heads[3] && heads[2] != heads[3];
    assert heads[0] != heads[1] && heads[0] != heads[2] && heads[1] != heads[2];
  }

  lemma BelowEnds(was: string, line: string)
    ensures EndsWith(Below(was, line), line)
  {
    var s := Below(was, line);
    assert s[|s| - |line|..] == line;
  }

  lemma MergeKeepsIn(heads: seq<string>, bullet: string -> string, ss: seq<Section>, u: Update)
    requires HeadsOk(heads) && Bullets(bullet)
    requires NoOuterNewlines(BodyOf(ss, heads[3])) && NoOuterNewlines(BodyOf(ss, heads[4]))
    ensures var r := MergedSections(heads, bullet, ss, u);
      && Unnamed(heads, r) == Unnamed(heads, ss)
      && AllNamed(heads, r)
      && (InOrder(heads, ss) ==> InOrder(heads, r))
      && BodyOf(ss, heads[3]) <= BodyOf(r, heads[3])
      && EndsWith(BodyOf(r, heads[4]), BodyOf(ss, heads[4]))
      && forall t :: BodyOf(r, t) == MergedBody(heads, bullet, ss, u, t)
  {
    MergeKeepsSections(heads, bullet, ss, u);
    MergedBodies(heads, bullet, ss, u);
    MergedEnds(heads, bullet, ss, u);
  }

  lemma MergedBodies(heads: seq<string>, bullet: string -> string, ss: seq<Section>, u: Update)
    requires HeadsOk(heads) && Bullets(bullet)
    requires NoOuterNewlines(BodyOf(ss, heads[3])) && NoOuterNewlines(BodyOf(ss, heads[4]))
    ensures forall t :: BodyOf(MergedSections(heads, bullet, ss, u), t) == MergedBody(heads, bullet, ss, u, t)
  {
    forall t ensures BodyOf(MergedSections(heads, bullet, ss, u), t) == MergedBody(heads, bullet, ss, u, t) {
      MergeBodies(heads, bullet, ss, u, t);
    }
  }
}
