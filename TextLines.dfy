/** Character predicates, Python's str.lower/strip/split on ASCII, and clean_text. */
module TextLines {

  /** Python's str.isspace(); the same set is what `\s` matches in a str pattern. */
  predicate IsSpace(c: char) {
    || c == ' '
    || '\t' <= c <= '\r'
    || '\U{1C}' <= c <= '\U{1F}'
    || c == '\U{85}' || c == '\U{A0}' || c == '\U{1680}'
    || '\U{2000}' <= c <= '\U{200A}'
    || c == '\U{2028}' || c == '\U{2029}' || c == '\U{202F}' || c == '\U{205F}' || c == '\U{3000}'
  }

  predicate AllSpace(s: string) {
    forall i :: 0 <= i < |s| ==> IsSpace(s[i])
  }

  predicate IsUpper(c: char) {
    'A' <= c <= 'Z'
  }

  predicate IsLowercase(s: string) {
    forall i :: 0 <= i < |s| ==> !IsUpper(s[i])
  }

  /** A non-empty line with no leading or trailing whitespace. */
  predicate IsStripped(l: string) {
    l != [] && !IsSpace(l[0]) && !IsSpace(l[|l| - 1])
  }

  /** `sub` occurs in `s` starting at index `i`. */
  predicate OccursAt(s: string, sub: string, i: nat) {
    i + |sub| <= |s| && s[i..i + |sub|] == sub
  }

  /** Python's `sub in s`, searching from index `i` on. */
  predicate ContainsFrom(s: string, sub: string, i: nat)
    decreases |s| - i
  {
    i + |sub| <= |s| && (OccursAt(s, sub, i) || ContainsFrom(s, sub, i + 1))
  }

  /** Python's `sub in s`. */
  predicate Contains(s: string, sub: string) {
    ContainsFrom(s, sub, 0)
  }

  function LowerChar(c: char): char {
    if IsUpper(c) then (c as int + 32) as char else c
  }

  /** str.lower(), restricted to the ASCII letters. */
  function Lower(s: string): (r: string)
    ensures |r| == |s|
  {
    if s == [] then [] else [LowerChar(s[0])] + Lower(s[1..])
  }

  /** str.lstrip() */
  function TrimLeft(s: string): (r: string)
    ensures |r| <= |s|
    ensures r == [] || !IsSpace(r[0])
  {
    if s != [] && IsSpace(s[0]) then TrimLeft(s[1..]) else s
  }

  /** str.rstrip() */
  function TrimRight(s: string): (r: string)
    ensures |r| <= |s|
    ensures r == [] || !IsSpace(r[|r| - 1])
  {
    if s != [] && IsSpace(s[|s| - 1]) then TrimRight(s[..|s| - 1]) else s
  }

  /** str.strip() */
  function Strip(s: string): (r: string)
    ensures r == [] <==> AllSpace(s)
    ensures r == [] || IsStripped(r)
  {
    TrimLeftEmpty(s);
    TrimRightNonEmpty(TrimLeft(s));
    TrimRight(TrimLeft(s))
  }

  /** str.split("\n"): n newlines give n + 1 pieces. */
  function SplitLines(s: string): (r: seq<string>)
    ensures |r| >= 1
    ensures forall k :: 0 <= k < |r| ==> '\n' !in r[k]
  {
    if s == [] then [""]
    else
      var rest := SplitLines(s[1..]);
      if s[0] == '\n' then [""] + rest
      else [[s[0]] + rest[0]] + rest[1..]
  }

  /** "\n".join(lines) */
  function JoinLines(lines: seq<string>): string {
    if |lines| == 0 then ""
    else if |lines| == 1 then lines[0]
    else lines[0] + "\n" + JoinLines(lines[1..])
  }

  function NewlineCount(s: string): nat {
    if s == [] then 0 else (if s[0] == '\n' then 1 else 0) + NewlineCount(s[1..])
  }

  /** What the comprehension keeps of one line: its stripped copy, unless that is empty. */
  function CleanLine(l: string): (r: seq<string>)
    ensures |r| <= 1
    ensures forall k :: 0 <= k < |r| ==> IsStripped(r[k])
  {
    var t := Strip(l);
    if t == [] then [] else [t]
  }

  /** The comprehension `[line.strip() for line in lines if line.strip()]`. */
  function CleanLines(lines: seq<string>): (r: seq<string>)
    ensures |r| <= |lines|
    ensures forall k :: 0 <= k < |r| ==> IsStripped(r[k])
  {
    if lines == [] then [] else CleanLine(lines[0]) + CleanLines(lines[1..])
  }

  /** clean_text: lowercase, strip the whole text, split on newlines, strip each line, drop blank ones. */
  function CleanText(raw: string): (r: seq<string>)
    ensures forall k :: 0 <= k < |r| ==> IsStripped(r[k]) && IsLowercase(r[k]) && '\n' !in r[k]
  {
    var pieces := SplitLines(Strip(Lower(raw)));
    LowerIsLowercase(raw);
    StripKeepsLowercase(Lower(raw));
    SplitKeepsLowercase(Strip(Lower(raw)));
    CleanLinesKeep(pieces);
    CleanLines(pieces)
  }

  // ---------- Helper facts ----------

  lemma {:induction false} TrimLeftEmpty(s: string)
    ensures TrimLeft(s) == [] <==> AllSpace(s)
  {
    if s != [] && IsSpace(s[0]) {
      TrimLeftEmpty(s[1..]);
      assert AllSpace(s) <==> AllSpace(s[1..]) by {
        if AllSpace(s[1..]) {
          forall i | 0 < i < |s| ensures IsSpace(s[i]) {
            assert s[i] == s[1..][i - 1];
          }
        }
      }
    }
  }

  lemma {:induction false} TrimRightNonEmpty(t: string)
    ensures t != [] && !IsSpace(t[0]) ==> TrimRight(t) != [] && TrimRight(t)[0] == t[0]
  {
    if |t| > 1 && IsSpace(t[|t| - 1]) {
      TrimRightNonEmpty(t[..|t| - 1]);
    }
  }

  lemma {:induction false} TrimLeftIsSuffix(s: string)
    ensures TrimLeft(s) == s[|s| - |TrimLeft(s)|..]
  {
    if s != [] && IsSpace(s[0]) {
      TrimLeftIsSuffix(s[1..]);
    }
  }

  lemma {:induction false} TrimRightIsPrefix(s: string)
    ensures TrimRight(s) == s[..|TrimRight(s)|]
  {
    if s != [] && IsSpace(s[|s| - 1]) {
      TrimRightIsPrefix(s[..|s| - 1]);
    }
  }

  /** Every character of a stripped line comes from the line. */
  lemma StripChars(s: string)
    ensures forall c :: c in Strip(s) ==> c in s
  {
    var t := TrimLeft(s);
    var r := TrimRight(t);
    TrimLeftIsSuffix(s);
    TrimRightIsPrefix(t);
    forall c | c in r ensures c in s {
      var k :| 0 <= k < |r| && r[k] == c;
      assert t[k] == c;
      assert s[|s| - |t| + k] == c;
    }
  }

  lemma {:induction false} LowerIsLowercase(s: string)
    ensures IsLowercase(Lower(s))
  {
    if s != [] {
      LowerIsLowercase(s[1..]);
      assert Lower(s) == [LowerChar(s[0])] + Lower(s[1..]);
    }
  }

  lemma StripKeepsLowercase(s: string)
    requires IsLowercase(s)
    ensures IsLowercase(Strip(s))
  {
    var r := Strip(s);
    StripChars(s);
    forall k | 0 <= k < |r| ensures !IsUpper(r[k]) {
      assert r[k] in s;
    }
  }

  /** Every cleaned line is a stripped copy of a piece, so it keeps what every piece has. */
  lemma {:induction false} CleanLinesKeep(pieces: seq<string>)
    requires forall k :: 0 <= k < |pieces| ==> IsLowercase(pieces[k]) && '\n' !in pieces[k]
    ensures forall k :: 0 <= k < |CleanLines(pieces)| ==>
              IsLowercase(CleanLines(pieces)[k]) && '\n' !in CleanLines(pieces)[k]
  {
    if pieces != [] {
      CleanLinesKeep(pieces[1..]);
      var t := Strip(pieces[0]);
      StripKeepsLowercase(pieces[0]);
      StripChars(pieces[0]);
      assert '\n' !in t;
    }
  }

  /** The stripped pieces of the whole text are lowercase when the text is. */
  lemma {:induction false} SplitKeepsLowercase(s: string)
    requires IsLowercase(s)
    ensures forall k :: 0 <= k < |SplitLines(s)| ==> IsLowercase(SplitLines(s)[k])
  {
    if s != [] {
      SplitKeepsLowercase(s[1..]);
    }
  }

  lemma {:induction false} LowerOfLowercase(s: string)
    requires IsLowercase(s)
    ensures Lower(s) == s
  {
    if s != [] {
      LowerOfLowercase(s[1..]);
      assert s == [s[0]] + s[1..];
    }
  }

  lemma {:induction false} LowerKeepsNewlines(s: string)
    ensures NewlineCount(Lower(s)) == NewlineCount(s)
  {
    if s != [] {
      LowerKeepsNewlines(s[1..]);
      assert Lower(s)[1..] == Lower(s[1..]);
    }
  }

  lemma {:induction false} JoinKeepsLowercase(lines: seq<string>)
    requires forall k :: 0 <= k < |lines| ==> IsLowercase(lines[k])
    ensures IsLowercase(JoinLines(lines))
  {
    if |lines| > 1 {
      JoinKeepsLowercase(lines[1..]);
    }
  }

  lemma StripOfStripped(l: string)
    requires IsStripped(l)
    ensures Strip(l) == l
  {
  }

  lemma {:induction false} CleanLinesOfClean(lines: seq<string>)
    requires forall k :: 0 <= k < |lines| ==> IsStripped(lines[k])
    ensures CleanLines(lines) == lines
  {
    if lines != [] {
      StripOfStripped(lines[0]);
      CleanLinesOfClean(lines[1..]);
      assert lines == [lines[0]] + lines[1..];
    }
  }

  lemma {:induction false} CleanLinesAppend(a: seq<string>, b: seq<string>)
    ensures CleanLines(a + b) == CleanLines(a) + CleanLines(b)
  {
    if a != [] {
      CleanLinesAppend(a[1..], b);
      CleanLinesConsStep(a, b);
    } else {
      assert a + b == b;
    }
  }

  /** The step case of CleanLinesAppend: one more line in front. */
  lemma CleanLinesConsStep(a: seq<string>, b: seq<string>)
    requires a != [] && CleanLines(a[1..] + b) == CleanLines(a[1..]) + CleanLines(b)
    ensures CleanLines(a + b) == CleanLines(a) + CleanLines(b)
  {
    DropOfAppend(a, b);
    AppendAssoc(CleanLine(a[0]), CleanLines(a[1..]), CleanLines(b));
  }

  lemma DropOfAppend<T>(a: seq<T>, b: seq<T>)
    requires a != []
    ensures (a + b)[0] == a[0] && (a + b)[1..] == a[1..] + b
  {
  }

  lemma AppendAssoc<T>(x: seq<T>, y: seq<T>, z: seq<T>)
    ensures x + (y + z) == (x + y) + z
  {
  }

  lemma CleanLinesOne(l: string)
    ensures CleanLines([l]) == CleanLine(l)
  {
    assert [l][1..] == [];
  }

  /** A whitespace character added in front of a line does not change the line once stripped. */
  lemma StripConsSpace(c: char, x: string)
    requires IsSpace(c)
    ensures Strip([c] + x) == Strip(x)
  {
    assert ([c] + x)[1..] == x;
  }

  lemma {:induction false} TrimLeftSnoc(x: string, c: char)
    requires IsSpace(c)
    ensures TrimLeft(x + [c]) == if AllSpace(x) then [] else TrimLeft(x) + [c]
  {
    if x == [] {
      assert TrimLeft([c]) == TrimLeft([c][1..]);
    } else {
      assert (x + [c])[1..] == x[1..] + [c];
      TrimLeftSnoc(x[1..], c);
      if !IsSpace(x[0]) {
        assert !AllSpace(x);
      }
    }
  }

  /** A whitespace character added at the end of a line does not change the line once stripped. */
  lemma StripSnocSpace(x: string, c: char)
    requires IsSpace(c)
    ensures Strip(x + [c]) == Strip(x)
  {
    TrimLeftSnoc(x, c);
    if !AllSpace(x) {
      var t := TrimLeft(x);
      assert (t + [c])[..|t|] == t;
    }
  }

  lemma {:induction false} SplitNoNewline(x: string)
    requires '\n' !in x
    ensures SplitLines(x) == [x]
  {
    if x != [] {
      SplitNoNewline(x[1..]);
      assert x == [x[0]] + x[1..];
    }
  }

  lemma {:induction false} SplitAfterLine(x: string, t: string)
    requires '\n' !in x
    ensures SplitLines(x + "\n" + t) == [x] + SplitLines(t)
  {
    if x == [] {
      assert (x + "\n" + t)[1..] == t;
    } else {
      assert (x + "\n" + t)[1..] == x[1..] + "\n" + t;
      SplitAfterLine(x[1..], t);
      assert x == [x[0]] + x[1..];
    }
  }

  lemma {:induction false} SplitSnocNewline(w: string)
    ensures SplitLines(w + "\n") == SplitLines(w) + [""]
  {
    if w == [] {
      assert SplitLines("\n") == [""] + SplitLines([]);
    } else {
      assert (w + "\n")[1..] == w[1..] + "\n";
      SplitSnocNewline(w[1..]);
      var r := SplitLines(w[1..]);
      if w[0] != '\n' {
        assert SplitLines(w + "\n") == [[w[0]] + (r + [""])[0]] + (r + [""])[1..];
        assert (r + [""])[1..] == r[1..] + [""];
      }
    }
  }

  lemma SplitOneChar(c: char)
    requires c != '\n'
    ensures SplitLines([c]) == [[c]]
  {
    assert [c][1..] == [];
    assert [c] + "" == [c];
  }

  /** Splitting `[x] + t` glues `x` to the front of the first piece of `t`. */
  lemma SplitCons(x: char, t: string)
    requires x != '\n'
    ensures var r := SplitLines(t);
            SplitLines([x] + t) == [[x] + r[0]] + r[1..]
  {
    assert ([x] + t)[1..] == t;
  }

  /** The step case of SplitSnocChar when the text starts with a character other than a newline. */
  lemma SplitSnocCharCons(x: char, t: string, c: char)
    requires x != '\n' && c != '\n'
    requires var st := SplitLines(t);
             SplitLines(t + [c]) == st[..|st| - 1] + [st[|st| - 1] + [c]]
    ensures var sw := SplitLines([x] + t);
            SplitLines([x] + t + [c]) == sw[..|sw| - 1] + [sw[|sw| - 1] + [c]]
  {
    SplitCons(x, t);
    SplitCons(x, t + [c]);
    assert [x] + t + [c] == [x] + (t + [c]);
    GlueFirst(x, SplitLines(t), SplitLines(t + [c]), c);
  }

  /** Gluing `x` to the first piece commutes with appending `c` to the last piece. */
  lemma GlueFirst(x: char, r: seq<string>, s: seq<string>, c: char)
    requires |r| >= 1 && s == r[..|r| - 1] + [r[|r| - 1] + [c]]
    ensures var sw := [[x] + r[0]] + r[1..];
            [[x] + s[0]] + s[1..] == sw[..|sw| - 1] + [sw[|sw| - 1] + [c]]
  {
    var n := |r|;
    var sw := [[x] + r[0]] + r[1..];
    if n == 1 {
      assert s == [r[0] + [c]];
      assert [x] + (r[0] + [c]) == ([x] + r[0]) + [c];
    } else {
      assert s[0] == r[0];
      assert s[1..] == r[1..n - 1] + [r[n - 1] + [c]];
      assert sw[..n - 1] == [[x] + r[0]] + r[1..n - 1];
    }
  }

  lemma {:induction false} SplitSnocChar(w: string, c: char)
    requires c != '\n'
    ensures var sw := SplitLines(w);
            SplitLines(w + [c]) == sw[..|sw| - 1] + [sw[|sw| - 1] + [c]]
  {
    if w == [] {
      assert w + [c] == [c];
      SplitOneChar(c);
    } else {
      var t := w[1..];
      assert w == [w[0]] + t;
      SplitSnocChar(t, c);
      if w[0] == '\n' {
        assert (w + [c])[1..] == t + [c];
        var r := SplitLines(t);
        assert SplitLines(w) == [""] + r;
        assert ([""] + r)[..|r|] == [""] + r[..|r| - 1];
      } else {
        SplitSnocCharCons(w[0], t, c);
      }
    }
  }

  // ---------- Properties of splitting and cleaning ----------

  /** Joining the pieces of a split gives back the text. */
  lemma {:induction false} JoinSplit(s: string)
    ensures JoinLines(SplitLines(s)) == s
  {
    if s != [] {
      JoinSplit(s[1..]);
      var rest := SplitLines(s[1..]);
      if s[0] == '\n' {
        assert ([""] + rest)[1..] == rest;
      } else {
        var l := [[s[0]] + rest[0]] + rest[1..];
        if |rest| > 1 {
          assert l[1..] == rest[1..];
        }
      }
    }
  }

  /** Splitting joined lines gives back the lines, when none of them holds a newline. */
  lemma {:induction false} SplitJoin(lines: seq<string>)
    requires |lines| >= 1
    requires forall k :: 0 <= k < |lines| ==> '\n' !in lines[k]
    ensures SplitLines(JoinLines(lines)) == lines
  {
    if |lines| == 1 {
      SplitNoNewline(lines[0]);
    } else {
      SplitJoin(lines[1..]);
      SplitAfterLine(lines[0], JoinLines(lines[1..]));
      assert lines == [lines[0]] + lines[1..];
    }
  }

  lemma {:induction false} SplitCount(s: string)
    ensures |SplitLines(s)| == NewlineCount(s) + 1
  {
    if s != [] {
      SplitCount(s[1..]);
    }
  }

  /** A leading newline only adds a blank first line, which cleaning drops. */
  lemma CleanHeadNewline(u: string)
    requires u != [] && u[0] == '\n'
    ensures CleanLines(SplitLines(u)) == CleanLines(SplitLines(u[1..]))
  {
    var rest := SplitLines(u[1..]);
    assert SplitLines(u) == [""] + rest;
    DropOfAppend([""], rest);
  }

  /** A leading space other than a newline starts the first line, where stripping drops it. */
  lemma CleanHeadSpace(u: string)
    requires u != [] && IsSpace(u[0]) && u[0] != '\n'
    ensures CleanLines(SplitLines(u)) == CleanLines(SplitLines(u[1..]))
  {
    var rest := SplitLines(u[1..]);
    var first := [u[0]] + rest[0];
    assert SplitLines(u) == [first] + rest[1..];
    DropOfAppend([first], rest[1..]);
    StripConsSpace(u[0], rest[0]);
    assert CleanLine(first) == CleanLine(rest[0]);
  }

  lemma {:induction false} CleanAfterTrimLeft(u: string)
    ensures CleanLines(SplitLines(TrimLeft(u))) == CleanLines(SplitLines(u))
  {
    if u != [] && IsSpace(u[0]) {
      CleanAfterTrimLeft(u[1..]);
      if u[0] == '\n' {
        CleanHeadNewline(u);
      } else {
        CleanHeadSpace(u);
      }
    }
  }

  /** A trailing newline only adds a blank line, which cleaning drops. */
  lemma CleanSnocNewline(w: string)
    ensures CleanLines(SplitLines(w + "\n")) == CleanLines(SplitLines(w))
  {
    SplitSnocNewline(w);
    CleanLinesAppend(SplitLines(w), [""]);
  }

  /** A trailing space other than a newline ends up at the end of the last line, where stripping drops it. */
  lemma CleanSnocSpace(w: string, c: char)
    requires IsSpace(c) && c != '\n'
    ensures CleanLines(SplitLines(w + [c])) == CleanLines(SplitLines(w))
  {
    var sw := SplitLines(w);
    var k := |sw| - 1;
    var init := sw[..k];
    calc {
      CleanLines(SplitLines(w + [c]));
      { SplitSnocChar(w, c); }
      CleanLines(init + [sw[k] + [c]]);
      { CleanLinesAppend(init, [sw[k] + [c]]); }
      CleanLines(init) + CleanLines([sw[k] + [c]]);
      { CleanLinesOne(sw[k] + [c]); CleanLinesOne(sw[k]); StripSnocSpace(sw[k], c); }
      CleanLines(init) + CleanLines([sw[k]]);
      { CleanLinesAppend(init, [sw[k]]); }
      CleanLines(init + [sw[k]]);
      { assert init + [sw[k]] == sw; }
      CleanLines(sw);
    }
  }

  lemma {:induction false} CleanAfterTrimRight(v: string)
    ensures CleanLines(SplitLines(TrimRight(v))) == CleanLines(SplitLines(v))
    decreases |v|
  {
    if v != [] && IsSpace(v[|v| - 1]) {
      var w, c := v[..|v| - 1], v[|v| - 1];
      assert v == w + [c];
      CleanAfterTrimRight(w);
      if c == '\n' {
        CleanSnocNewline(w);
      } else {
        CleanSnocSpace(w, c);
      }
    }
  }

  /** Stripping the whole text first changes nothing: clean_text keeps exactly the
      non-blank lines of the lowercased text, stripped, in their original order. */
  lemma CleanTextPerLine(raw: string)
    ensures CleanText(raw) == CleanLines(SplitLines(Lower(raw)))
  {
    var t := Lower(raw);
    CleanAfterTrimLeft(t);
    CleanAfterTrimRight(TrimLeft(t));
  }

  /** clean_text never yields more lines than the raw text has. */
  lemma CleanTextLineCount(raw: string)
    ensures |CleanText(raw)| <= NewlineCount(raw) + 1
  {
    CleanTextPerLine(raw);
    SplitCount(Lower(raw));
    LowerKeepsNewlines(raw);
  }

  /** Cleaning the re-joined output of clean_text gives the same lines back. */
  lemma CleanTextIdempotent(raw: string)
    ensures CleanText(JoinLines(CleanText(raw))) == CleanText(raw)
  {
    var lines := CleanText(raw);
    var joined := JoinLines(lines);
    JoinKeepsLowercase(lines);
    LowerOfLowercase(joined);
    CleanTextPerLine(joined);
    if lines == [] {
      assert SplitLines(joined) == [""];
    } else {
      SplitJoin(lines);
    }
    CleanLinesOfClean(lines);
  }

  // ---------- Where a word cannot occur ----------

  /** `sub` occurs nowhere in `s`. */
  ghost predicate NowhereIn(s: string, sub: string) {
    forall i: nat :: !OccursAt(s, sub, i)
  }

  /** Containment from `i` on is an occurrence at `i` or later. */
  lemma {:induction false} ContainsFromOccurs(s: string, sub: string, i: nat)
    ensures ContainsFrom(s, sub, i) <==> exists j: nat :: i <= j && OccursAt(s, sub, j)
    decreases |s| - i
  {
    if i + |sub| <= |s| {
      ContainsFromOccurs(s, sub, i + 1);
      if exists j: nat :: i <= j && OccursAt(s, sub, j) {
        var j: nat :| i <= j && OccursAt(s, sub, j);
        if j > i {
          assert i + 1 <= j;
        }
      }
    }
  }

  /** `sub in s` is false exactly when `sub` occurs nowhere in `s`. */
  lemma NotContains(s: string, sub: string)
    ensures !Contains(s, sub) <==> NowhereIn(s, sub)
  {
    ContainsFromOccurs(s, sub, 0);
  }

  /** A word with a character the string lacks occurs nowhere in it. */
  lemma MissingChar(s: string, sub: string, k: nat)
    requires k < |sub| && sub[k] !in s
    ensures NowhereIn(s, sub)
  {
    forall i: nat ensures !OccursAt(s, sub, i) {
      if i + |sub| <= |s| {
        assert s[i..i + |sub|][k] == s[i + k];
        assert s[i + k] in s;
      }
    }
  }

  /** A word longer than the string occurs nowhere in it. */
  lemma TooShort(s: string, sub: string)
    requires |s| < |sub|
    ensures NowhereIn(s, sub)
  {
  }

  /** No occurrence can start in a prefix that lacks the word's first character. */
  lemma SkipPrefix(a: string, b: string, sub: string)
    requires sub != [] && sub[0] !in a && NowhereIn(b, sub)
    ensures NowhereIn(a + b, sub)
  {
    forall i: nat ensures !OccursAt(a + b, sub, i) {
      if i + |sub| <= |a + b| {
        if i < |a| {
          assert (a + b)[i..i + |sub|][0] == a[i];
          assert a[i] in a;
        } else {
          assert (a + b)[i..i + |sub|] == b[i - |a|..i - |a| + |sub|];
          assert !OccursAt(b, sub, i - |a|);
        }
      }
    }
  }

  /** No occurrence starts at a character when the character `k` places after it differs
      from the word's character at `k`. */
  lemma SkipHead(c: char, b: string, sub: string, k: nat)
    requires 1 <= k < |sub| && k - 1 < |b| && b[k - 1] != sub[k] && NowhereIn(b, sub)
    ensures NowhereIn([c] + b, sub)
  {
    forall i: nat ensures !OccursAt([c] + b, sub, i) {
      if i + |sub| <= |[c] + b| {
        if i == 0 {
          assert ([c] + b)[..|sub|][k] == b[k - 1];
        } else {
          assert ([c] + b)[i..i + |sub|] == b[i - 1..i - 1 + |sub|];
          assert !OccursAt(b, sub, i - 1);
        }
      }
    }
  }
}
