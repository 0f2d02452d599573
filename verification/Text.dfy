/** The JavaScript string operations the document modules use, with the laws they rely on. */
module Text {

  /** What `\s` and `trim()` take for white space. */
  predicate IsSpace(c: char) {
    || '\t' <= c <= '\r' || c == ' ' || c == '\U{A0}' || c == '\U{1680}' || '\U{2000}' <= c <= '\U{200A}'
    || c == '\U{2028}' || c == '\U{2029}' || c == '\U{202F}' || c == '\U{205F}' || c == '\U{3000}' || c == '\U{FEFF}'
  }

  /** What `.` does not match. */
  predicate IsTerminator(c: char) {
    c == '\n' || c == '\r' || c == '\U{2028}' || c == '\U{2029}'
  }

  predicate IsDigit(c: char) { '0' <= c <= '9' }

  predicate IsBlank(c: char) { c == ' ' || c == '\t' }

  // ---- split and join ------------------------------------------------------

  /** `s.split(c)` for a one-character separator. */
  function Split(s: string, c: char): (r: seq<string>)
    ensures |r| >= 1
    ensures forall l :: l in r ==> c !in l
  {
    if s == "" then [""]
    else if s[0] == c then [""] + Split(s[1..], c)
    else
      var r := Split(s[1..], c);
      [[s[0]] + r[0]] + r[1..]
  }

  function Join(ls: seq<string>, sep: string): string {
    if ls == [] then "" else if |ls| == 1 then ls[0] else ls[0] + sep + Join(ls[1..], sep)
  }

  lemma {:induction false} SplitPlain(s: string, c: char)
    requires c !in s
    ensures Split(s, c) == [s]
  {
    if s != "" {
      SplitPlain(s[1..], c);
      assert [s[0]] + s[1..] == s;
    }
  }

  /** Splitting at one separator splits both sides. */
  lemma {:induction false} SplitAt(a: string, c: char, b: string)
    ensures Split(a + [c] + b, c) == Split(a, c) + Split(b, c)
  {
    if a == "" {
      assert a + [c] + b == [c] + b;
    } else {
      assert (a + [c] + b)[1..] == a[1..] + [c] + b;
      SplitAt(a[1..], c, b);
      if a[0] == c { Grouped("", Split(a[1..], c), Split(b, c)); } else { HeadGrown(a[0], Split(a[1..], c), Split(b, c)); }
    }
  }

  lemma Grouped(x: string, r: seq<string>, s: seq<string>)
    ensures [x] + (r + s) == [x] + r + s
  {
  }

  lemma HeadGrown(x: char, r: seq<string>, s: seq<string>)
    requires r != []
    ensures [[x] + (r + s)[0]] + (r + s)[1..] == [[x] + r[0]] + r[1..] + s
  {
  }

  lemma {:induction false} JoinSplit(s: string, c: char)
    ensures Join(Split(s, c), [c]) == s
  {
    if s != "" {
      JoinSplit(s[1..], c);
      var r := Split(s[1..], c);
      if s[0] == c {
        assert ([""] + r)[1..] == r;
      } else {
        assert ([[s[0]] + r[0]] + r[1..])[1..] == r[1..];
      }
    }
  }

  lemma {:induction false} SplitJoin(ls: seq<string>, c: char)
    requires ls != [] && forall l :: l in ls ==> c !in l
    ensures Split(Join(ls, [c]), c) == ls
  {
    SplitPlain(ls[0], c);
    if |ls| > 1 {
      SplitJoin(ls[1..], c);
      SplitAt(ls[0], c, Join(ls[1..], [c]));
    }
  }

  lemma {:induction false} JoinSnoc(ls: seq<string>, l: string, sep: string)
    requires ls != []
    ensures Join(ls + [l], sep) == Join(ls, sep) + sep + l
  {
    if |ls| > 1 {
      JoinSnoc(ls[1..], l, sep);
      assert (ls + [l])[1..] == ls[1..] + [l];
    }
  }

  /** `s.replace(/\r\n/g, '\n')`. */
  function Crlf(s: string): string {
    if |s| < 2 then s
    else if s[0] == '\r' && s[1] == '\n' then ['\n'] + Crlf(s[2..])
    else [s[0]] + Crlf(s[1..])
  }

  lemma {:induction false} CrlfPlain(s: string)
    requires '\r' !in s
    ensures Crlf(s) == s
  {
    if |s| >= 2 { CrlfPlain(s[1..]); }
  }

  // ---- trimming ------------------------------------------------------------

  function TrimLeft(s: string): (r: string)
    ensures |r| <= |s| && r == s[|s| - |r|..]
    ensures r != "" ==> !IsSpace(r[0])
  {
    if s != "" && IsSpace(s[0]) then TrimLeft(s[1..]) else s
  }

  function TrimRight(s: string): (r: string)
    ensures |r| <= |s| && r == s[..|r|]
    ensures r != "" ==> !IsSpace(r[|r| - 1])
  {
    if s != "" && IsSpace(s[|s| - 1]) then TrimRight(s[..|s| - 1]) else s
  }

  /** `s.trim()`. */
  function Trim(s: string): (r: string)
    ensures |r| <= |s|
    ensures r != "" ==> !IsSpace(r[0]) && !IsSpace(r[|r| - 1])
    ensures s != "" && !IsSpace(s[0]) && !IsSpace(s[|s| - 1]) ==> r == s
  {
    TrimRight(TrimLeft(s))
  }

  /** No white space at either end: the texts `Trim` leaves as they are. */
  predicate Trimmed(s: string) { s != "" ==> !IsSpace(s[0]) && !IsSpace(s[|s| - 1]) }

  /** `s.replace(/^\n+/, '').replace(/\n+$/, '')`. */
  function TrimNewlines(s: string): (r: string)
    ensures NoOuterNewlines(r)
    ensures NoOuterNewlines(s) ==> r == s
  {
    DropLast(DropFirst(s))
  }

  predicate NoOuterNewlines(s: string) {
    s != "" ==> s[0] != '\n' && s[|s| - 1] != '\n'
  }

  function DropFirst(s: string): (r: string)
    ensures r != "" ==> r[0] != '\n'
  {
    if s != "" && s[0] == '\n' then DropFirst(s[1..]) else s
  }

  function DropLast(s: string): (r: string)
    ensures r != "" ==> r[|r| - 1] != '\n'
    ensures r != "" ==> s != "" && r[0] == s[0]
  {
    if s != "" && s[|s| - 1] == '\n' then DropLast(s[..|s| - 1]) else s
  }
}
