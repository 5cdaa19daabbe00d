/** The three field extractors: collect one capture per matching line, keep the value only
    when all the captures agree, and convert the amounts with Python's `int`. */
module Extractors {
  import opened Wrappers
  import opened TextLines
  import opened Patterns

  predicate IsDigit(c: char) {
    '0' <= c <= '9'
  }

  predicate AllDigits(s: string) {
    forall i :: 0 <= i < |s| ==> IsDigit(s[i])
  }

  /** `s.replace(c, "")` for a one-character `c` */
  function Without(s: string, c: char): (r: string)
    ensures |r| <= |s|
  {
    if s == [] then []
    else (if s[0] == c then [] else [s[0]]) + Without(s[1..], c)
  }

  /** What the extractor stores for a capture: the token as it stands, an amount without its
      thousands separators and its dollar sign. */
  function Normalize(p: Pattern, capture: string): (r: string)
    ensures p == PolicyPattern ==> r == capture
    ensures p != PolicyPattern ==> forall x :: x in r <==> x in capture && x != ',' && x != '$'
    ensures |r| <= |capture|
  {
    if p == PolicyPattern then capture
    else
      WithoutChars(capture, ',');
      WithoutChars(Without(capture, ','), '$');
      Without(Without(capture, ','), '$')
  }

  /** What one line adds to `matches`: nothing, or its normalized capture. */
  function CaptureOf(p: Pattern, line: string): Option<string> {
    match Search(p, line)
    case None => None
    case Some(c) => Some(Normalize(p, c))
  }

  /** The `matches` list the loop builds, in line order. */
  function Captures(p: Pattern, lines: seq<string>): (ms: seq<string>)
    ensures |ms| <= |lines|
  {
    if lines == [] then []
    else
      var last := lines[|lines| - 1];
      Captures(p, lines[..|lines| - 1]) + match CaptureOf(p, last) case None => [] case Some(c) => [c]
  }

  /** `set(matches)` */
  function Distinct(ms: seq<string>): set<string> {
    set m | m in ms
  }

  /** `unique_matches[0]` when `len(unique_matches) == 1`, otherwise None. */
  function Sole(ms: seq<string>): Option<string> {
    if ms != [] && |Distinct(ms)| == 1 then Some(ms[0]) else None
  }

  /** CPython's default limit on the digits `int` converts from a string (3.11 and later). */
  const MaxStrDigits: nat := 4300

  /** The number a string of decimal digits denotes. */
  function DigitsValue(s: string): nat
    requires AllDigits(s)
  {
    if s == [] then 0 else 10 * DigitsValue(s[..|s| - 1]) + (s[|s| - 1] as int - '0' as int)
  }

  /** `int(s)` for a string of ASCII digits: it raises ValueError on the empty string and on
      strings longer than the digit limit. */
  function ParseInt(s: string): (r: Call<int>)
    requires AllDigits(s)
    ensures r.Raises? <==> s == [] || |s| > MaxStrDigits
    ensures r.Returns? ==> r.result == Some(DigitsValue(s))
  {
    if s == [] || |s| > MaxStrDigits then Raises else Returns(Some(DigitsValue(s)))
  }

  /** What extract_policy_number returns. */
  function PolicyNumberOf(lines: seq<string>): Option<string> {
    Sole(Captures(PolicyPattern, lines))
  }

  /** What extract_limit (LimitPattern) and extract_deductible (DeductiblePattern) return or raise. */
  function AmountOf(p: Pattern, lines: seq<string>): Call<int>
    requires p != PolicyPattern
  {
    match Sole(Captures(p, lines))
    case None => Returns(None)
    case Some(v) => AmountCapturesAreDigits(p, lines); ParseInt(v)
  }

  // ---------- The extractors ----------

  /** The loop shared by the three extractors: search every line and keep each capture. */
  method CollectMatches(p: Pattern, lines: seq<string>) returns (matches: seq<string>)
    ensures matches == Captures(p, lines)
  {
    matches := [];
    for i := 0 to |lines|
      invariant matches == Captures(p, lines[..i])
    {
      assert lines[..i + 1][..i] == lines[..i];
      var m := Search(p, lines[i]);
      if m.Some? {
        var value := Normalize(p, m.value);
        matches := matches + [value];
      }
    }
    assert lines[..|lines|] == lines;
  }

  /** `list(set(matches))`, then its only element when there is exactly one. */
  method Deduplicate(matches: seq<string>) returns (r: Option<string>)
    ensures r == Sole(matches)
  {
    var unique := set m | m in matches;
    if |unique| == 1 {
      var v :| v in unique;
      SingletonMembers(unique, v, matches[0]);
      r := Some(v);
    } else {
      r := None;
    }
  }

  method ExtractPolicyNumber(lines: seq<string>) returns (r: Option<string>)
    ensures r == PolicyNumberOf(lines)
  {
    var matches := CollectMatches(PolicyPattern, lines);
    r := Deduplicate(matches);
  }

  method ExtractLimit(lines: seq<string>) returns (r: Call<int>)
    ensures r == AmountOf(LimitPattern, lines)
  {
    var matches := CollectMatches(LimitPattern, lines);
    var v := Deduplicate(matches);
    if v.Some? {
      AmountCapturesAreDigits(LimitPattern, lines);
      r := ParseInt(v.value);
    } else {
      r := Returns(None);
    }
  }

  method ExtractDeductible(lines: seq<string>) returns (r: Call<int>)
    ensures r == AmountOf(DeductiblePattern, lines)
  {
    var matches := CollectMatches(DeductiblePattern, lines);
    var v := Deduplicate(matches);
    if v.Some? {
      AmountCapturesAreDigits(DeductiblePattern, lines);
      r := ParseInt(v.value);
    } else {
      r := Returns(None);
    }
  }

  // ---------- Helper facts ----------

  lemma SingletonMembers(s: set<string>, a: string, b: string)
    requires |s| == 1 && a in s && b in s
    ensures a == b
  {
    var rest := s - {a};
    assert |rest| == 0;
    assert rest == {};
  }

  /** Removing a character keeps the other characters, in order, and only them. */
  lemma {:induction false} WithoutChars(s: string, c: char)
    ensures forall x :: x in Without(s, c) <==> x in s && x != c
  {
    if s != [] {
      WithoutChars(s[1..], c);
      assert s == [s[0]] + s[1..];
    }
  }

  /** A normalized amount capture is made of decimal digits only. */
  lemma NormalizedAmountIsDigits(p: Pattern, c: string)
    requires p != PolicyPattern && IsCapture(p, c)
    ensures AllDigits(Normalize(p, c))
  {
    var r := Normalize(p, c);
    forall i | 0 <= i < |r| ensures IsDigit(r[i]) {
      assert r[i] in c;
      var k :| 0 <= k < |c| && c[k] == r[i];
      if c[0] == '$' && k > 0 {
        assert c[k] == c[1..][k - 1];
      }
    }
  }

  /** Every element of `matches` for an amount pattern is a string of digits. */
  lemma {:induction false} AmountCapturesAreDigits(p: Pattern, lines: seq<string>)
    requires p != PolicyPattern
    ensures forall k :: 0 <= k < |Captures(p, lines)| ==> AllDigits(Captures(p, lines)[k])
  {
    if lines != [] {
      AmountCapturesAreDigits(p, lines[..|lines| - 1]);
      var last := lines[|lines| - 1];
      if Search(p, last).Some? {
        NormalizedAmountIsDigits(p, Search(p, last).value);
      }
    }
  }

  // ---------- Properties of the extractors ----------

  /** The last line adds its capture, if any, after those of the other lines. */
  lemma CapturesSnoc(p: Pattern, lines: seq<string>, c: string)
    requires lines != []
    ensures c in Captures(p, lines) <==>
              c in Captures(p, lines[..|lines| - 1]) || CaptureOf(p, lines[|lines| - 1]) == Some(c)
  {
  }

  /** Each element of `matches` comes from some line. */
  lemma {:induction false} CaptureSource(p: Pattern, lines: seq<string>, c: string) returns (i: nat)
    requires c in Captures(p, lines)
    ensures i < |lines| && CaptureOf(p, lines[i]) == Some(c)
  {
    var n := |lines| - 1;
    CapturesSnoc(p, lines, c);
    if c in Captures(p, lines[..n]) {
      i := CaptureSource(p, lines[..n], c);
      assert lines[..n][i] == lines[i];
    } else {
      i := n;
    }
  }

  /** Each line's capture is in `matches`. */
  lemma {:induction false} CaptureKept(p: Pattern, lines: seq<string>, i: nat, c: string)
    requires i < |lines| && CaptureOf(p, lines[i]) == Some(c)
    ensures c in Captures(p, lines)
  {
    var n := |lines| - 1;
    if i == n {
      CapturesSnoc(p, lines, c);
    } else {
      var init := lines[..n];
      assert init[i] == lines[i];
      CaptureKept(p, init, i, c);
      CapturesGrow(p, lines, c);
    }
  }

  lemma CapturesGrow(p: Pattern, lines: seq<string>, c: string)
    requires lines != [] && c in Captures(p, lines[..|lines| - 1])
    ensures c in Captures(p, lines)
  {
    CapturesSnoc(p, lines, c);
  }

  /** A value is in `matches` exactly when some line yields it as its capture. */
  lemma CapturesMembership(p: Pattern, lines: seq<string>, c: string)
    ensures c in Captures(p, lines) <==> exists i :: 0 <= i < |lines| && CaptureOf(p, lines[i]) == Some(c)
  {
    if c in Captures(p, lines) {
      var i := CaptureSource(p, lines, c);
    }
    if exists i :: 0 <= i < |lines| && CaptureOf(p, lines[i]) == Some(c) {
      var i :| 0 <= i < |lines| && CaptureOf(p, lines[i]) == Some(c);
      CaptureKept(p, lines, i, c);
    }
  }

  /** The deduplication returns a value exactly when every element of `matches` equals it. */
  lemma SoleSpec(ms: seq<string>, v: string)
    ensures Sole(ms) == Some(v) <==> v in ms && forall m :: m in ms ==> m == v
  {
    if v in ms && forall m :: m in ms ==> m == v {
      assert Distinct(ms) == {v};
      assert ms[0] in ms;
    }
    if Sole(ms) == Some(v) {
      assert ms[0] in ms;
      forall m | m in ms ensures m == v {
        assert m in Distinct(ms) && ms[0] in Distinct(ms);
        SingletonMembers(Distinct(ms), m, ms[0]);
      }
    }
  }

  /** The deduplication sees only the set of values, not their order or their repetitions. */
  lemma SoleBySet(a: seq<string>, b: seq<string>)
    requires Distinct(a) == Distinct(b)
    ensures Sole(a) == Sole(b)
  {
    if a != [] && |Distinct(a)| == 1 {
      assert a[0] in Distinct(b);
      if b != [] {
        SingletonMembers(Distinct(a), a[0], b[0]);
      }
    }
    if b != [] && |Distinct(b)| == 1 {
      assert b[0] in Distinct(a);
    }
  }

  /** Two lists with the same lines give the same set of captures. */
  lemma CapturesByLineSet(p: Pattern, a: seq<string>, b: seq<string>)
    requires forall l :: l in a <==> l in b
    ensures Distinct(Captures(p, a)) == Distinct(Captures(p, b))
  {
    forall c | c in Distinct(Captures(p, a)) ensures c in Distinct(Captures(p, b)) {
      CapturesMembership(p, a, c);
      CapturesMembership(p, b, c);
      var i :| 0 <= i < |a| && CaptureOf(p, a[i]) == Some(c);
      assert a[i] in b;
      var j :| 0 <= j < |b| && b[j] == a[i];
    }
    forall c | c in Distinct(Captures(p, b)) ensures c in Distinct(Captures(p, a)) {
      CapturesMembership(p, a, c);
      CapturesMembership(p, b, c);
      var i :| 0 <= i < |b| && CaptureOf(p, b[i]) == Some(c);
      assert b[i] in a;
      var j :| 0 <= j < |a| && a[j] == b[i];
    }
  }

  /** Reordering or repeating lines changes no extractor's result. */
  lemma ExtractorsSeeLineSet(a: seq<string>, b: seq<string>)
    requires forall l :: l in a <==> l in b
    ensures PolicyNumberOf(a) == PolicyNumberOf(b)
    ensures AmountOf(LimitPattern, a) == AmountOf(LimitPattern, b)
    ensures AmountOf(DeductiblePattern, a) == AmountOf(DeductiblePattern, b)
  {
    CapturesByLineSet(PolicyPattern, a, b);
    SoleBySet(Captures(PolicyPattern, a), Captures(PolicyPattern, b));
    CapturesByLineSet(LimitPattern, a, b);
    SoleBySet(Captures(LimitPattern, a), Captures(LimitPattern, b));
    CapturesByLineSet(DeductiblePattern, a, b);
    SoleBySet(Captures(DeductiblePattern, a), Captures(DeductiblePattern, b));
  }

  /** Two lines with different captures make the field ambiguous: no value at all. */
  lemma ConflictGivesNothing(p: Pattern, lines: seq<string>, i: nat, j: nat)
    requires i < |lines| && j < |lines|
    requires CaptureOf(p, lines[i]).Some? && CaptureOf(p, lines[j]).Some?
    requires CaptureOf(p, lines[i]) != CaptureOf(p, lines[j])
    ensures Sole(Captures(p, lines)) == None
    ensures p == PolicyPattern ==> PolicyNumberOf(lines) == None
    ensures p != PolicyPattern ==> AmountOf(p, lines) == Returns(None)
  {
    var x := CaptureOf(p, lines[i]).value;
    var y := CaptureOf(p, lines[j]).value;
    CapturesMembership(p, lines, x);
    CapturesMembership(p, lines, y);
    if Sole(Captures(p, lines)).Some? {
      var v := Sole(Captures(p, lines)).value;
      SoleSpec(Captures(p, lines), v);
    }
  }

  /** When every matching line yields the same capture, that capture is the result. */
  lemma AgreementGivesValue(p: Pattern, lines: seq<string>, i: nat)
    requires i < |lines| && CaptureOf(p, lines[i]).Some?
    requires forall j :: 0 <= j < |lines| && CaptureOf(p, lines[j]).Some? ==>
               CaptureOf(p, lines[j]) == CaptureOf(p, lines[i])
    ensures Sole(Captures(p, lines)) == CaptureOf(p, lines[i])
  {
    var v := CaptureOf(p, lines[i]).value;
    CapturesMembership(p, lines, v);
    forall m | m in Captures(p, lines) ensures m == v {
      CapturesMembership(p, lines, m);
    }
    SoleSpec(Captures(p, lines), v);
  }

  /** When exactly one line matches, its normalized capture is the result. */
  lemma SingleMatchingLine(p: Pattern, lines: seq<string>, i: nat, c: string)
    requires i < |lines| && Search(p, lines[i]) == Some(c)
    requires forall j :: 0 <= j < |lines| && j != i ==> Search(p, lines[j]).None?
    ensures Sole(Captures(p, lines)) == Some(Normalize(p, c))
  {
    AgreementGivesValue(p, lines, i);
  }

  /** Without a matching line there is no value. */
  lemma NoMatchGivesNothing(p: Pattern, lines: seq<string>)
    requires forall j :: 0 <= j < |lines| ==> Search(p, lines[j]).None?
    ensures Sole(Captures(p, lines)) == None
  {
    if Captures(p, lines) != [] {
      CapturesMembership(p, lines, Captures(p, lines)[0]);
    }
  }

  // ---------- Amounts ----------

  function DigitChar(d: nat): char
    requires d < 10
  {
    ('0' as int + d) as char
  }

  /** The shortest decimal spelling of `n`: `str(n)`. */
  function DecimalDigits(n: nat): (s: string)
    ensures s != [] && AllDigits(s)
  {
    if n < 10 then [DigitChar(n)] else DecimalDigits(n / 10) + [DigitChar(n % 10)]
  }

  /** Reading back the decimal spelling of a number gives the number. */
  lemma {:induction false} DigitsRoundTrip(n: nat)
    ensures DigitsValue(DecimalDigits(n)) == n
  {
    if n >= 10 {
      DigitsRoundTrip(n / 10);
      var s := DecimalDigits(n);
      assert s[..|s| - 1] == DecimalDigits(n / 10);
    }
  }

  /** A leading zero does not change the number a digit string denotes. */
  lemma {:induction false} LeadingZeroValue(d: string)
    requires AllDigits(d)
    ensures AllDigits("0" + d) && DigitsValue("0" + d) == DigitsValue(d)
  {
    assert AllDigits("0" + d) by {
      forall i | 0 <= i < |"0" + d| ensures IsDigit(("0" + d)[i]) {
        if i > 0 { assert ("0" + d)[i] == d[i - 1]; }
      }
    }
    if d != [] {
      var init := d[..|d| - 1];
      LeadingZeroValue(init);
      assert ("0" + d)[..|d|] == "0" + init;
    }
  }

  /** Removing a character that does not occur changes nothing. */
  lemma {:induction false} WithoutAbsent(s: string, c: char)
    requires c !in s
    ensures Without(s, c) == s
  {
    if s != [] {
      WithoutAbsent(s[1..], c);
      assert s == [s[0]] + s[1..];
    }
  }

  /** Removing a character works piece by piece. */
  lemma {:induction false} WithoutAppend(a: string, b: string, c: char)
    ensures Without(a + b, c) == Without(a, c) + Without(b, c)
  {
    if a == [] {
      assert a + b == b;
    } else {
      var t := a[1..];
      var h := if a[0] == c then [] else [a[0]];
      assert (a + b)[0] == a[0] && (a + b)[1..] == t + b;
      calc {
        Without(a + b, c);
        h + Without(t + b, c);
        { WithoutAppend(t, b, c); }
        h + (Without(t, c) + Without(b, c));
        (h + Without(t, c)) + Without(b, c);
        Without(a, c) + Without(b, c);
      }
    }
  }


  /** A capture of plain digits is stored as it is. */
  lemma NormalizeDigits(p: Pattern, d: string)
    requires p != PolicyPattern && AllDigits(d)
    ensures Normalize(p, d) == d
  {
    assert ',' !in d && '$' !in d;
    WithoutAbsent(d, ',');
    WithoutAbsent(d, '$');
  }

  /** A line that gives the amount field the capture `amount`. */
  function AmountLine(p: Pattern, amount: string): string
    requires p != PolicyPattern
  {
    if p == LimitPattern then "limit of liability: " + amount else "deductible: " + amount
  }

  lemma AmountLineShape(p: Pattern, amount: string)
    requires p != PolicyPattern
    ensures p == LimitPattern ==>
              AmountLine(p, amount) == "limit" + " " + "of" + " " + "liability" + "" + ":" + " " + amount + ""
    ensures p == DeductiblePattern ==> AmountLine(p, amount) == "deductible" + "" + ":" + " " + amount + ""
  {
  }

  /** The amount line is matched, with the amount as the capture. */
  lemma AmountLineMatches(p: Pattern, amount: string)
    requires p != PolicyPattern && IsCapture(p, amount)
    ensures Search(p, AmountLine(p, amount)) == Some(amount)
  {
    AmountLineShape(p, amount);
    if p == LimitPattern {
      LimitLineMatches(" ", " ", "", " ", amount, "");
    } else {
      DeductibleLineMatches("", " ", amount, "");
    }
  }

  /** With one amount line, the field is `int` of its normalized capture. */
  lemma SingleAmountLine(p: Pattern, amount: string)
    requires p != PolicyPattern && IsCapture(p, amount)
    ensures Captures(p, [AmountLine(p, amount)]) == [Normalize(p, amount)]
  {
    AmountLineMatches(p, amount);
    var lines := [AmountLine(p, amount)];
    assert lines[..0] == [];
  }

  /** A digit string is a capture of either amount pattern. */
  lemma DigitsAreCapture(p: Pattern, d: string)
    requires p != PolicyPattern && d != [] && AllDigits(d)
    ensures IsCapture(p, d)
  {
  }

  /** When the captures agree on `v`, the amount field is `int(v)`. */
  lemma AmountOfSole(p: Pattern, lines: seq<string>, v: string)
    requires p != PolicyPattern && Sole(Captures(p, lines)) == Some(v)
    ensures AllDigits(v) && AmountOf(p, lines) == ParseInt(v)
  {
    AmountCapturesAreDigits(p, lines);
  }

  lemma SoleOfOne(v: string)
    ensures Sole([v]) == Some(v)
  {
    assert Distinct([v]) == {v};
  }

  /** An amount line spelling a number gives back that number. */
  lemma AmountRoundTrip(p: Pattern, n: nat)
    requires p != PolicyPattern && |DecimalDigits(n)| <= MaxStrDigits
    ensures AmountOf(p, [AmountLine(p, DecimalDigits(n))]) == Returns(Some(n))
  {
    var d := DecimalDigits(n);
    DigitsAreCapture(p, d);
    SingleAmountLine(p, d);
    NormalizeDigits(p, d);
    SoleOfOne(d);
    AmountOfSole(p, [AmountLine(p, d)], d);
    DigitsRoundTrip(n);
  }

  /** `005` and `5` denote the same number but are two distinct strings, so the field is ambiguous. */
  lemma LeadingZerosAreAmbiguous(p: Pattern, d: string)
    requires p != PolicyPattern && d != [] && AllDigits(d)
    ensures AllDigits("0" + d) && DigitsValue("0" + d) == DigitsValue(d)
    ensures AmountOf(p, [AmountLine(p, "0" + d), AmountLine(p, d)]) == Returns(None)
  {
    LeadingZeroValue(d);
    var lines := [AmountLine(p, "0" + d), AmountLine(p, d)];
    DigitsAreCapture(p, d);
    DigitsAreCapture(p, "0" + d);
    AmountLineMatches(p, d);
    AmountLineMatches(p, "0" + d);
    NormalizeDigits(p, d);
    NormalizeDigits(p, "0" + d);
    assert CaptureOf(p, lines[0]) == Some("0" + d);
    assert CaptureOf(p, lines[1]) == Some(d);
    assert |"0" + d| != |d|;
    ConflictGivesNothing(p, lines, 0, 1);
  }

  /** A lone `$,` is captured, normalizes to the empty string, and `int("")` raises. */
  lemma SeparatorsOnlyRaise(p: Pattern)
    requires p != PolicyPattern
    ensures AmountOf(p, [AmountLine(p, "$,")]) == Raises
  {
    assert IsCapture(p, "$,");
    SingleAmountLine(p, "$,");
    assert Without("$,", ',') == "$";
    assert Without("$", '$') == "";
    SoleOfOne("");
    AmountOfSole(p, [AmountLine(p, "$,")], "");
  }

  /** A dollar sign in front of digits is captured and then removed. */
  lemma NormalizeDollar(p: Pattern, d: string)
    requires p != PolicyPattern && d != [] && AllDigits(d)
    ensures IsCapture(p, "$" + d) && Normalize(p, "$" + d) == d
  {
    assert ("$" + d)[1..] == d;
    assert ',' !in "$" + d;
    WithoutAbsent("$" + d, ',');
    assert Without("$" + d, '$') == Without(d, '$');
    NormalizeDigits(p, d);
  }

  lemma AmountLineCapture(p: Pattern, amount: string)
    requires p != PolicyPattern && IsCapture(p, amount)
    ensures CaptureOf(p, AmountLine(p, amount)) == Some(Normalize(p, amount))
  {
    AmountLineMatches(p, amount);
  }

  /** The lines `$d` and `d` agree on the capture `d`. */
  lemma DollarLinesAgree(p: Pattern, d: string)
    requires p != PolicyPattern && d != [] && AllDigits(d)
    ensures Sole(Captures(p, [AmountLine(p, "$" + d), AmountLine(p, d)])) == Some(d)
  {
    DigitsAreCapture(p, d);
    NormalizeDigits(p, d);
    NormalizeDollar(p, d);
    AmountLineCapture(p, d);
    AmountLineCapture(p, "$" + d);
    TwoLinesAgree(p, AmountLine(p, "$" + d), AmountLine(p, d), d);
  }

  /** Two lines with the same capture give that capture. */
  lemma TwoLinesAgree(p: Pattern, a: string, b: string, v: string)
    requires CaptureOf(p, a) == Some(v) && CaptureOf(p, b) == Some(v)
    ensures Sole(Captures(p, [a, b])) == Some(v)
  {
    var lines := [a, b];
    forall j | 0 <= j < |lines| ensures CaptureOf(p, lines[j]) == Some(v) {
      if j == 0 {
        assert lines[j] == a;
      } else {
        assert lines[j] == b;
      }
    }
    AgreementGivesValue(p, lines, 1);
  }

  /** A dollar sign in front of the digits does not make the field ambiguous. */
  lemma DollarSignAgrees(p: Pattern, d: string)
    requires p != PolicyPattern && d != [] && AllDigits(d)
    ensures AmountOf(p, [AmountLine(p, "$" + d), AmountLine(p, d)]) == AmountOf(p, [AmountLine(p, d)])
  {
    DollarLinesAgree(p, d);
    AmountOfSole(p, [AmountLine(p, "$" + d), AmountLine(p, d)], d);
    DigitsAreCapture(p, d);
    NormalizeDigits(p, d);
    SingleAmountLine(p, d);
    SoleOfOne(d);
    AmountOfSole(p, [AmountLine(p, d)], d);
  }
}
