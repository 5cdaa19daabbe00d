/** Hand-written matchers for the three field patterns and re.search's leftmost-match rule.

    In each pattern every greedy repetition is followed by something it cannot consume
    (`\s*` by a letter or `:`, `[$]?` by a digit or comma, the capture by the end of the
    pattern), so backtracking never yields a different match: at a given start the match
    either exists and is the one computed here, or does not exist. */
module Patterns {
  import opened Wrappers
  import opened TextLines

  datatype Pattern =
    | PolicyPattern      // policy\s(no|number|#)\s*:\s*([a-z0-9-]+)
    | LimitPattern       // limit\s*of\s*liability\s*:\s*([$]?[0-9,]+)
    | DeductiblePattern  // deductible\s*:\s*([$]?[0-9,]+)

  datatype CharClass = Whitespace | TokenChar | AmountChar

  /** `\s`, `[a-z0-9-]` and `[0-9,]` */
  predicate InClass(k: CharClass, c: char) {
    match k
    case Whitespace => IsSpace(c)
    case TokenChar => 'a' <= c <= 'z' || '0' <= c <= '9' || c == '-'
    case AmountChar => '0' <= c <= '9' || c == ','
  }

  predicate AllIn(k: CharClass, s: string) {
    forall i :: 0 <= i < |s| ==> InClass(k, s[i])
  }

  /** What a capture group of `p` can hold. */
  predicate IsCapture(p: Pattern, c: string) {
    if p == PolicyPattern then c != [] && AllIn(TokenChar, c)
    else c != [] && if c[0] == '$' then |c| > 1 && AllIn(AmountChar, c[1..]) else AllIn(AmountChar, c)
  }

  /** Where a greedy run of class-`k` characters that starts at `i` ends. */
  function RunEnd(s: string, i: nat, k: CharClass): (j: nat)
    requires i <= |s|
    ensures i <= j <= |s|
    ensures forall m :: i <= m < j ==> InClass(k, s[m])
    ensures j == |s| || !InClass(k, s[j])
    decreases |s| - i
  {
    if i < |s| && InClass(k, s[i]) then RunEnd(s, i + 1, k) else i
  }

  /** `policy\s(no|number|#)` at `i`: the index just after it. */
  function PolicyLabelEnd(s: string, i: nat): (r: Option<nat>)
    ensures r.Some? ==> r.value <= |s|
  {
    if !OccursAt(s, "policy", i) || i + 6 >= |s| || !IsSpace(s[i + 6]) then None
    else
      var j := i + 7;
      if OccursAt(s, "no", j) then Some(j + 2)
      else if OccursAt(s, "number", j) then Some(j + 6)
      else if OccursAt(s, "#", j) then Some(j + 1)
      else None
  }

  /** `limit\s*of\s*liability` at `i`: the index just after it. */
  function LimitLabelEnd(s: string, i: nat): (r: Option<nat>)
    ensures r.Some? ==> r.value <= |s|
  {
    if !OccursAt(s, "limit", i) then None
    else
      var j := RunEnd(s, i + 5, Whitespace);
      if !OccursAt(s, "of", j) then None
      else
        var k := RunEnd(s, j + 2, Whitespace);
        if !OccursAt(s, "liability", k) then None else Some(k + 9)
  }

  /** `deductible` at `i`: the index just after it. */
  function DeductibleLabelEnd(s: string, i: nat): (r: Option<nat>)
    ensures r.Some? ==> r.value <= |s|
  {
    if OccursAt(s, "deductible", i) then Some(i + 10) else None
  }

  function LabelEnd(p: Pattern, s: string, i: nat): (r: Option<nat>)
    ensures r.Some? ==> r.value <= |s|
  {
    match p
    case PolicyPattern => PolicyLabelEnd(s, i)
    case LimitPattern => LimitLabelEnd(s, i)
    case DeductiblePattern => DeductibleLabelEnd(s, i)
  }

  /** The word each pattern starts with. */
  function LeadingWord(p: Pattern): string {
    match p
    case PolicyPattern => "policy"
    case LimitPattern => "limit"
    case DeductiblePattern => "deductible"
  }

  /** `\s*:\s*` at `i`: the index just after it. */
  function ColonEnd(s: string, i: nat): (r: Option<nat>)
    requires i <= |s|
    ensures r.Some? ==> r.value <= |s|
  {
    var j := RunEnd(s, i, Whitespace);
    if j < |s| && s[j] == ':' then Some(RunEnd(s, j + 1, Whitespace)) else None
  }

  /** `([a-z0-9-]+)` at `i`: the longest run of token characters there, if it is not empty. */
  function TokenAt(s: string, i: nat): (r: Option<string>)
    requires i <= |s|
    ensures r.Some? ==> IsCapture(PolicyPattern, r.value)
    ensures r.Some? ==> i + |r.value| <= |s| && s[i..i + |r.value|] == r.value
    ensures r.Some? ==> i + |r.value| == |s| || !InClass(TokenChar, s[i + |r.value|])
    ensures r.None? <==> i == |s| || !InClass(TokenChar, s[i])
  {
    var e := RunEnd(s, i, TokenChar);
    if e > i then Some(s[i..e]) else None
  }

  /** `([$]?[0-9,]+)` at `i`: an optional `$` is taken only when a digit or comma follows it.
      Without one the group fails, since `$` itself is not in `[0-9,]`. */
  function AmountAt(s: string, i: nat): (r: Option<string>)
    requires i <= |s|
    ensures r.Some? ==> IsCapture(LimitPattern, r.value) && IsCapture(DeductiblePattern, r.value)
    ensures r.Some? ==> i + |r.value| <= |s| && s[i..i + |r.value|] == r.value
    ensures r.Some? ==> i + |r.value| == |s| || !InClass(AmountChar, s[i + |r.value|])
    ensures r.Some? ==> (r.value[0] == '$' <==> s[i] == '$')
    ensures r.None? <==>
      i == |s| || if s[i] == '$' then i + 1 == |s| || !InClass(AmountChar, s[i + 1]) else !InClass(AmountChar, s[i])
  {
    if i < |s| && s[i] == '$' then
      var e := RunEnd(s, i + 1, AmountChar);
      if e > i + 1 then Some(s[i..e]) else None
    else
      var e := RunEnd(s, i, AmountChar);
      if e > i then Some(s[i..e]) else None
  }

  /** The capture group of `p` for a match that starts at index `i`, if there is one. */
  function MatchAt(p: Pattern, s: string, i: nat): (r: Option<string>)
    ensures r.Some? ==> OccursAt(s, LeadingWord(p), i) && IsCapture(p, r.value)
  {
    match LabelEnd(p, s, i)
    case None => None
    case Some(j) =>
      match ColonEnd(s, j)
      case None => None
      case Some(k) => if p == PolicyPattern then TokenAt(s, k) else AmountAt(s, k)
  }

  /** The first start at or after `i` where `p` matches. */
  function FirstMatchFrom(p: Pattern, s: string, i: nat): (r: Option<nat>)
    requires i <= |s|
    ensures r.Some? ==> i <= r.value <= |s| && MatchAt(p, s, r.value).Some?
    decreases |s| - i
  {
    if MatchAt(p, s, i).Some? then Some(i)
    else if i == |s| then None
    else FirstMatchFrom(p, s, i + 1)
  }

  /** `re.search(pattern, line)` followed by reading the field's capture group. */
  function Search(p: Pattern, s: string): (r: Option<string>)
    ensures r.Some? ==> IsCapture(p, r.value)
  {
    match FirstMatchFrom(p, s, 0)
    case None => None
    case Some(i) => MatchAt(p, s, i)
  }

  // ---------- Properties of the matchers ----------

  /** No start from `i` on that comes before the first match is a match. */
  lemma {:induction false} NoMatchBeforeFirst(p: Pattern, s: string, i: nat, j: nat)
    requires i <= j <= |s|
    requires FirstMatchFrom(p, s, i).None? || j < FirstMatchFrom(p, s, i).value
    ensures MatchAt(p, s, j).None?
    decreases j - i
  {
    FirstMatchStep(p, s, i);
    if j > i {
      NoMatchBeforeFirst(p, s, i + 1, j);
    }
  }

  /** A start before the first match is no match, and the scan moves on past it. */
  lemma FirstMatchStep(p: Pattern, s: string, i: nat)
    requires i <= |s|
    requires FirstMatchFrom(p, s, i).None? || i < FirstMatchFrom(p, s, i).value
    ensures MatchAt(p, s, i).None?
    ensures i < |s| ==> FirstMatchFrom(p, s, i) == FirstMatchFrom(p, s, i + 1)
  {
  }

  /** The search reports the match with the leftmost start. */
  lemma SearchIsLeftmost(p: Pattern, s: string, i: nat)
    requires i <= |s| && MatchAt(p, s, i).Some?
    requires forall j :: 0 <= j < i ==> MatchAt(p, s, j).None?
    ensures Search(p, s) == MatchAt(p, s, i)
  {
    var r := FirstMatchFrom(p, s, 0);
    if r.None? || i < r.value {
      NoMatchBeforeFirst(p, s, 0, i);
    }
  }

  /** The search fails exactly when no start position matches. */
  lemma SearchFails(p: Pattern, s: string)
    ensures Search(p, s).None? <==> forall i :: 0 <= i <= |s| ==> MatchAt(p, s, i).None?
  {
    if Search(p, s).None? {
      forall i | 0 <= i <= |s| ensures MatchAt(p, s, i).None? {
        NoMatchBeforeFirst(p, s, 0, i);
      }
    }
  }

  /** A line in which the pattern's first word occurs nowhere is not matched. */
  lemma NowhereNoMatch(p: Pattern, s: string)
    requires NowhereIn(s, LeadingWord(p))
    ensures Search(p, s) == None
  {
    forall i | 0 <= i <= |s| ensures MatchAt(p, s, i).None? {
      assert !OccursAt(s, LeadingWord(p), i);
    }
    SearchFails(p, s);
  }

  /** A greedy run stops exactly at the end of a block of class characters. */
  lemma {:induction false} RunEndAt(s: string, i: nat, k: CharClass, n: nat)
    requires i + n <= |s|
    requires forall m :: i <= m < i + n ==> InClass(k, s[m])
    requires i + n == |s| || !InClass(k, s[i + n])
    ensures RunEnd(s, i, k) == i + n
    decreases n
  {
    if n > 0 {
      RunEndAt(s, i + 1, k, n - 1);
    }
  }

  /** A block of class-`k` characters at `i`, followed by something else, is what the greedy run takes. */
  lemma RunOverBlock(s: string, i: nat, block: string, k: CharClass)
    requires i + |block| <= |s| && s[i..i + |block|] == block && AllIn(k, block)
    requires i + |block| == |s| || !InClass(k, s[i + |block|])
    ensures RunEnd(s, i, k) == i + |block|
  {
    forall m | i <= m < i + |block| ensures InClass(k, s[m]) {
      assert s[m] == block[m - i];
    }
    RunEndAt(s, i, k, |block|);
  }

  /** Splits the knowledge `s[j..] == x + y` into its two parts. */
  lemma Peel(s: string, j: nat, x: string, y: string)
    requires j <= |s| && s[j..] == x + y
    ensures j + |x| <= |s| && s[j..j + |x|] == x && s[j + |x|..] == y
  {
    assert s[j..][..|x|] == x;
    assert s[j..][|x|..] == y;
  }

  /** No capture can start with a whitespace character. */
  lemma CaptureStartsOutsideSpace(p: Pattern, cap: string)
    requires IsCapture(p, cap)
    ensures !IsSpace(cap[0])
  {
  }

  /** The suffix of `s` from `i` is `y`: its length and its first character. */
  lemma Head(s: string, i: nat, y: string)
    requires i <= |s| && s[i..] == y
    ensures i + |y| == |s| && (y != [] ==> s[i] == y[0])
  {
    if y != [] {
      assert s[i..][0] == s[i];
    }
  }

  /** `\s*:\s*` is a whitespace run, a colon and another whitespace run. */
  lemma ColonEndThrough(s: string, j: nat, c: nat, k: nat)
    requires j <= |s| && RunEnd(s, j, Whitespace) == c && c < |s| && s[c] == ':'
    requires RunEnd(s, c + 1, Whitespace) == k
    ensures ColonEnd(s, j) == Some(k)
  {
  }

  /** `\s*:\s*` followed by a character outside `\s` ends just before that character. */
  lemma ColonEndOn(s: string, j: nat, gap1: string, gap2: string, y: string, c: nat, k: nat)
    requires j <= |s| && s[j..] == gap1 + ([':'] + (gap2 + y))
    requires AllSpace(gap1) && AllSpace(gap2) && (y == [] || !IsSpace(y[0]))
    requires c == j + |gap1| && k == c + 1 + |gap2|
    ensures k <= |s| && ColonEnd(s, j) == Some(k) && s[k..] == y
  {
    SpacesThenColon(s, j, gap1, gap2 + y, c);
    SpacesThenRest(s, c + 1, gap2, y, k);
    ColonEndThrough(s, j, c, k);
  }

  /** A whitespace run `sp` at `j`, then a colon at `c`. */
  lemma SpacesThenColon(s: string, j: nat, sp: string, after: string, c: nat)
    requires j <= |s| && s[j..] == sp + ([':'] + after) && AllSpace(sp) && c == j + |sp|
    ensures RunEnd(s, j, Whitespace) == c && c < |s| && s[c] == ':' && s[c + 1..] == after
  {
    Peel(s, j, sp, [':'] + after);
    Head(s, c, [':'] + after);
    RunOverBlock(s, j, sp, Whitespace);
    Peel(s, c, [':'], after);
  }

  /** A whitespace run `sp` at `i` that ends at `k`, where `y` starts. */
  lemma SpacesThenRest(s: string, i: nat, sp: string, y: string, k: nat)
    requires i <= |s| && s[i..] == sp + y && AllSpace(sp) && (y == [] || !IsSpace(y[0])) && k == i + |sp|
    ensures RunEnd(s, i, Whitespace) == k && k <= |s| && s[k..] == y
  {
    Peel(s, i, sp, y);
    Head(s, k, y);
    RunOverBlock(s, i, sp, Whitespace);
  }

  /** The capture group of `p` takes a whole capture that is followed by a character outside its class. */
  lemma CaptureOn(p: Pattern, s: string, k: nat, cap: string, rest: string)
    requires k <= |s| && s[k..] == cap + rest && IsCapture(p, cap)
    requires rest == [] || !InClass(if p == PolicyPattern then TokenChar else AmountChar, rest[0])
    ensures (if p == PolicyPattern then TokenAt(s, k) else AmountAt(s, k)) == Some(cap)
  {
    Peel(s, k, cap, rest);
    var e := k + |cap|;
    assert e == |s| || s[e] == rest[0];
    assert s[k] == cap[0];
    if p == PolicyPattern {
      RunOverBlock(s, k, cap, TokenChar);
    } else if cap[0] == '$' {
      assert s[k + 1..e] == cap[1..];
      RunOverBlock(s, k + 1, cap[1..], AmountChar);
    } else {
      RunOverBlock(s, k, cap, AmountChar);
    }
  }

  /** After the label, `\s*:\s*` and a capture that is followed by a character outside its class. */
  lemma CaptureAfterLabel(p: Pattern, s: string, i: nat, j: nat, gap1: string, gap2: string, cap: string, rest: string)
    requires LabelEnd(p, s, i) == Some(j)
    requires AllSpace(gap1) && AllSpace(gap2) && IsCapture(p, cap)
    requires rest == [] || !InClass(if p == PolicyPattern then TokenChar else AmountChar, rest[0])
    requires s[j..] == gap1 + ([':'] + (gap2 + (cap + rest)))
    ensures MatchAt(p, s, i) == Some(cap)
  {
    CaptureStartsOutsideSpace(p, cap);
    var c := j + |gap1|;
    var k := c + 1 + |gap2|;
    ColonEndOn(s, j, gap1, gap2, cap + rest, c, k);
    CaptureOn(p, s, k, cap, rest);
    MatchThroughColon(p, s, i, j, k);
  }

  /** A match is the label, then `\s*:\s*`, then the capture group. */
  lemma MatchThroughColon(p: Pattern, s: string, i: nat, j: nat, k: nat)
    requires LabelEnd(p, s, i) == Some(j) && ColonEnd(s, j) == Some(k)
    ensures MatchAt(p, s, i) == (if p == PolicyPattern then TokenAt(s, k) else AmountAt(s, k))
  {
  }

  lemma PolicyLineShape(w: char, kw: string, gap1: string, gap2: string, token: string, rest: string)
    ensures "policy" + [w] + kw + gap1 + ":" + gap2 + token + rest
            == "policy" + ([w] + (kw + (gap1 + ([':'] + (gap2 + (token + rest))))))
  {
  }

  lemma DeductibleLineShape(gap1: string, gap2: string, amount: string, rest: string)
    ensures "deductible" + gap1 + ":" + gap2 + amount + rest
            == "deductible" + (gap1 + ([':'] + (gap2 + (amount + rest))))
  {
  }

  lemma LimitLineShape(sp1: string, sp2: string, gap1: string, gap2: string, amount: string, rest: string)
    ensures "limit" + sp1 + "of" + sp2 + "liability" + gap1 + ":" + gap2 + amount + rest
            == "limit" + (sp1 + ("of" + (sp2 + ("liability" + (gap1 + ([':'] + (gap2 + (amount + rest))))))))
  {
  }

  /** `policy`, one whitespace character and a keyword form the policy label. */
  lemma PolicyLabelOn(s: string, i: nat, w: char, kw: string, tail: string)
    requires IsSpace(w) && (kw == "no" || kw == "number" || kw == "#")
    requires i <= |s| && s[i..] == "policy" + ([w] + (kw + tail))
    ensures PolicyLabelEnd(s, i) == Some(i + 7 + |kw|) && s[i + 7 + |kw|..] == tail
  {
    var j := i + 7;
    Peel(s, i, "policy", [w] + (kw + tail));
    Peel(s, i + 6, [w], kw + tail);
    Peel(s, j, kw, tail);
    assert OccursAt(s, "policy", i);
    if kw == "no" {
      assert OccursAt(s, "no", j);
    } else if kw == "number" {
      assert s[j + 1] == 'u';
      assert !OccursAt(s, "no", j);
      assert OccursAt(s, "number", j);
    } else {
      assert s[j] == '#';
      OccursHead(s, "no", j);
      OccursHead(s, "number", j);
      assert !OccursAt(s, "no", j) && !OccursAt(s, "number", j);
      assert OccursAt(s, "#", j);
    }
  }

  /** An occurrence of `sub` at `i` starts with the first character of `sub`. */
  lemma OccursHead(s: string, sub: string, i: nat)
    requires sub != []
    ensures OccursAt(s, sub, i) ==> i < |s| && s[i] == sub[0]
  {
    if OccursAt(s, sub, i) {
      assert s[i..i + |sub|][0] == s[i];
    }
  }

  /** A word, then a whitespace run ending before a non-whitespace character. */
  lemma WordThenSpaces(s: string, i: nat, word: string, sp: string, next: string)
    requires i <= |s| && s[i..] == word + (sp + next)
    requires AllSpace(sp) && next != [] && !IsSpace(next[0])
    ensures OccursAt(s, word, i)
    ensures RunEnd(s, i + |word|, Whitespace) == i + |word| + |sp|
    ensures s[i + |word| + |sp|..] == next
  {
    Peel(s, i, word, sp + next);
    Peel(s, i + |word|, sp, next);
    assert s[i + |word| + |sp|] == next[0];
    RunOverBlock(s, i + |word|, sp, Whitespace);
  }

  /** Three words separated by whitespace runs: the second word starts at `o`, the third at `k`. */
  lemma ThreeWords(s: string, i: nat, w1: string, sp1: string, w2: string, sp2: string, w3: string, tail: string,
                   o: nat, k: nat)
    requires AllSpace(sp1) && AllSpace(sp2)
    requires w2 != [] && !IsSpace(w2[0]) && w3 != [] && !IsSpace(w3[0])
    requires i <= |s| && s[i..] == w1 + (sp1 + (w2 + (sp2 + (w3 + tail))))
    requires o == i + |w1| + |sp1| && k == o + |w2| + |sp2|
    ensures OccursAt(s, w1, i) && RunEnd(s, i + |w1|, Whitespace) == o
    ensures OccursAt(s, w2, o) && RunEnd(s, o + |w2|, Whitespace) == k
    ensures OccursAt(s, w3, k) && s[k + |w3|..] == tail
  {
    assert (w2 + (sp2 + (w3 + tail)))[0] == w2[0];
    assert (w3 + tail)[0] == w3[0];
    WordThenSpaces(s, i, w1, sp1, w2 + (sp2 + (w3 + tail)));
    WordThenSpaces(s, o, w2, sp2, w3 + tail);
    Peel(s, k, w3, tail);
  }

  /** `limit`, `of` and `liability` separated by whitespace runs form the limit label. */
  lemma LimitLabelOn(s: string, i: nat, sp1: string, sp2: string, tail: string, o: nat, k: nat)
    requires AllSpace(sp1) && AllSpace(sp2)
    requires i <= |s| && s[i..] == "limit" + (sp1 + ("of" + (sp2 + ("liability" + tail))))
    requires o == i + 5 + |sp1| && k == o + 2 + |sp2|
    ensures LimitLabelEnd(s, i) == Some(k + 9) && s[k + 9..] == tail
  {
    ThreeWords(s, i, "limit", sp1, "of", sp2, "liability", tail, o, k);
    LimitLabelThrough(s, i, o, k);
  }

  /** The limit label is its three words with the whitespace runs between them. */
  lemma LimitLabelThrough(s: string, i: nat, o: nat, k: nat)
    requires OccursAt(s, "limit", i) && RunEnd(s, i + 5, Whitespace) == o
    requires OccursAt(s, "of", o) && RunEnd(s, o + 2, Whitespace) == k
    requires OccursAt(s, "liability", k)
    ensures LimitLabelEnd(s, i) == Some(k + 9)
  {
  }

  /** A policy label line is matched, at its first character, with its token as the capture. */
  lemma PolicyLineMatches(w: char, kw: string, gap1: string, gap2: string, token: string, rest: string)
    requires IsSpace(w)
    requires kw == "no" || kw == "number" || kw == "#"
    requires AllSpace(gap1) && AllSpace(gap2)
    requires token != [] && AllIn(TokenChar, token)
    requires rest == [] || !InClass(TokenChar, rest[0])
    ensures Search(PolicyPattern, "policy" + [w] + kw + gap1 + ":" + gap2 + token + rest) == Some(token)
  {
    var line := "policy" + [w] + kw + gap1 + ":" + gap2 + token + rest;
    assert line[0..] == line;
    PolicyLineAt(line, 0, w, kw, gap1, gap2, token, rest);
    MatchAtStart(PolicyPattern, line, token);
  }

  /** A match at the first character is what the search reports. */
  lemma MatchAtStart(p: Pattern, line: string, cap: string)
    requires MatchAt(p, line, 0) == Some(cap)
    ensures Search(p, line) == Some(cap)
  {
    SearchIsLeftmost(p, line, 0);
  }

  /** A deductible label line is matched with its amount, `$` included, as the capture. */
  lemma DeductibleLineMatches(gap1: string, gap2: string, amount: string, rest: string)
    requires AllSpace(gap1) && AllSpace(gap2) && IsCapture(DeductiblePattern, amount)
    requires rest == [] || !InClass(AmountChar, rest[0])
    ensures Search(DeductiblePattern, "deductible" + gap1 + ":" + gap2 + amount + rest) == Some(amount)
  {
    var line := "deductible" + gap1 + ":" + gap2 + amount + rest;
    assert line[0..] == line;
    DeductibleLineAt(line, 0, gap1, gap2, amount, rest);
    MatchAtStart(DeductiblePattern, line, amount);
  }

  /** A limit-of-liability label line is matched with its amount, `$` included, as the capture. */
  lemma LimitLineMatches(sp1: string, sp2: string, gap1: string, gap2: string, amount: string, rest: string)
    requires AllSpace(sp1) && AllSpace(sp2) && AllSpace(gap1) && AllSpace(gap2)
    requires IsCapture(LimitPattern, amount)
    requires rest == [] || !InClass(AmountChar, rest[0])
    ensures Search(LimitPattern, "limit" + sp1 + "of" + sp2 + "liability" + gap1 + ":" + gap2 + amount + rest)
            == Some(amount)
  {
    var line := "limit" + sp1 + "of" + sp2 + "liability" + gap1 + ":" + gap2 + amount + rest;
    assert line[0..] == line;
    LimitLineAt(line, 0, sp1, sp2, gap1, gap2, amount, rest);
    MatchAtStart(LimitPattern, line, amount);
  }

  // ---------- Anywhere in a line: `re.search` tries every start ----------

  /** Wherever a policy label line starts in a line, the pattern matches there with its token,
      so the search finds something. */
  lemma PolicyLineAt(s: string, i: nat, w: char, kw: string, gap1: string, gap2: string, token: string, rest: string)
    requires IsSpace(w)
    requires kw == "no" || kw == "number" || kw == "#"
    requires AllSpace(gap1) && AllSpace(gap2)
    requires token != [] && AllIn(TokenChar, token)
    requires rest == [] || !InClass(TokenChar, rest[0])
    requires i <= |s| && s[i..] == "policy" + [w] + kw + gap1 + ":" + gap2 + token + rest
    ensures MatchAt(PolicyPattern, s, i) == Some(token)
    ensures Search(PolicyPattern, s).Some?
  {
    PolicyLineShape(w, kw, gap1, gap2, token, rest);
    PolicyMatchOn(s, i, w, kw, gap1, gap2, token, rest);
    SearchFails(PolicyPattern, s);
  }

  /** The policy label line, written right-nested, matches where it starts. */
  lemma PolicyMatchOn(s: string, i: nat, w: char, kw: string, gap1: string, gap2: string, token: string, rest: string)
    requires IsSpace(w)
    requires kw == "no" || kw == "number" || kw == "#"
    requires AllSpace(gap1) && AllSpace(gap2)
    requires token != [] && AllIn(TokenChar, token)
    requires rest == [] || !InClass(TokenChar, rest[0])
    requires i <= |s| && s[i..] == "policy" + ([w] + (kw + (gap1 + ([':'] + (gap2 + (token + rest))))))
    ensures MatchAt(PolicyPattern, s, i) == Some(token)
  {
    var tail := gap1 + ([':'] + (gap2 + (token + rest)));
    PolicyLabelOn(s, i, w, kw, tail);
    CaptureAfterLabel(PolicyPattern, s, i, i + 7 + |kw|, gap1, gap2, token, rest);
  }

  /** Wherever a limit label line starts in a line, the pattern matches there with its amount,
      so the search finds something. */
  lemma LimitLineAt(s: string, i: nat, sp1: string, sp2: string, gap1: string, gap2: string, amount: string, rest: string)
    requires AllSpace(sp1) && AllSpace(sp2) && AllSpace(gap1) && AllSpace(gap2)
    requires IsCapture(LimitPattern, amount)
    requires rest == [] || !InClass(AmountChar, rest[0])
    requires i <= |s| && s[i..] == "limit" + sp1 + "of" + sp2 + "liability" + gap1 + ":" + gap2 + amount + rest
    ensures MatchAt(LimitPattern, s, i) == Some(amount)
    ensures Search(LimitPattern, s).Some?
  {
    LimitLineShape(sp1, sp2, gap1, gap2, amount, rest);
    LimitMatchOn(s, i, sp1, sp2, gap1, gap2, amount, rest);
    SearchFails(LimitPattern, s);
  }

  /** The limit label line, written right-nested, matches where it starts. */
  lemma LimitMatchOn(s: string, i: nat, sp1: string, sp2: string, gap1: string, gap2: string, amount: string, rest: string)
    requires AllSpace(sp1) && AllSpace(sp2) && AllSpace(gap1) && AllSpace(gap2)
    requires IsCapture(LimitPattern, amount)
    requires rest == [] || !InClass(AmountChar, rest[0])
    requires i <= |s| && s[i..] == "limit" + (sp1 + ("of" + (sp2 + ("liability" + (gap1 + ([':'] + (gap2 + (amount + rest))))))))
    ensures MatchAt(LimitPattern, s, i) == Some(amount)
  {
    var tail := gap1 + ([':'] + (gap2 + (amount + rest)));
    var o := i + 5 + |sp1|;
    var k := o + 2 + |sp2|;
    LimitLabelOn(s, i, sp1, sp2, tail, o, k);
    CaptureAfterLabel(LimitPattern, s, i, k + 9, gap1, gap2, amount, rest);
  }

  /** Wherever a deductible label line starts in a line, the pattern matches there with its
      amount, so the search finds something. */
  lemma DeductibleLineAt(s: string, i: nat, gap1: string, gap2: string, amount: string, rest: string)
    requires AllSpace(gap1) && AllSpace(gap2) && IsCapture(DeductiblePattern, amount)
    requires rest == [] || !InClass(AmountChar, rest[0])
    requires i <= |s| && s[i..] == "deductible" + gap1 + ":" + gap2 + amount + rest
    ensures MatchAt(DeductiblePattern, s, i) == Some(amount)
    ensures Search(DeductiblePattern, s).Some?
  {
    DeductibleLineShape(gap1, gap2, amount, rest);
    DeductibleMatchOn(s, i, gap1, gap2, amount, rest);
    SearchFails(DeductiblePattern, s);
  }

  /** The deductible label line, written right-nested, matches where it starts. */
  lemma DeductibleMatchOn(s: string, i: nat, gap1: string, gap2: string, amount: string, rest: string)
    requires AllSpace(gap1) && AllSpace(gap2) && IsCapture(DeductiblePattern, amount)
    requires rest == [] || !InClass(AmountChar, rest[0])
    requires i <= |s| && s[i..] == "deductible" + (gap1 + ([':'] + (gap2 + (amount + rest))))
    ensures MatchAt(DeductiblePattern, s, i) == Some(amount)
  {
    var tail := gap1 + ([':'] + (gap2 + (amount + rest)));
    Peel(s, i, "deductible", tail);
    assert OccursAt(s, "deductible", i);
    CaptureAfterLabel(DeductiblePattern, s, i, i + 10, gap1, gap2, amount, rest);
  }

  // ---------- Soundness: what a match says about the line ----------

  /** The suffix from `a` is the slice up to `b` followed by the suffix from `b`. */
  lemma Cut(s: string, a: nat, b: nat)
    requires a <= b <= |s|
    ensures s[a..] == s[a..b] + s[b..]
  {
  }

  /** What a greedy whitespace run passes over is all whitespace. */
  lemma RunIsSpaces(s: string, i: nat)
    requires i <= |s|
    ensures AllSpace(s[i..RunEnd(s, i, Whitespace)])
  {
    var e := RunEnd(s, i, Whitespace);
    forall m | 0 <= m < e - i ensures IsSpace(s[i..e][m]) {
      assert s[i..e][m] == s[i + m];
      assert InClass(Whitespace, s[i + m]);
    }
  }

  /** Where the search succeeds: the leftmost start that matches. */
  lemma SearchFound(p: Pattern, s: string) returns (i: nat)
    requires Search(p, s).Some?
    ensures i <= |s| && MatchAt(p, s, i) == Search(p, s)
    ensures forall j :: 0 <= j < i ==> MatchAt(p, s, j).None?
  {
    i := FirstMatchFrom(p, s, 0).value;
    forall j | 0 <= j < i ensures MatchAt(p, s, j).None? {
      NoMatchBeforeFirst(p, s, 0, j);
    }
  }

  /** `\s*:\s*` from `j`: two whitespace runs around a colon. */
  lemma ColonShape(s: string, j: nat) returns (gap1: string, gap2: string)
    requires j <= |s| && ColonEnd(s, j).Some?
    ensures AllSpace(gap1) && AllSpace(gap2)
    ensures s[j..] == gap1 + ([':'] + (gap2 + s[ColonEnd(s, j).value..]))
  {
    var c := RunEnd(s, j, Whitespace);
    var k := RunEnd(s, c + 1, Whitespace);
    assert ColonEnd(s, j) == Some(k);
    gap1, gap2 := ColonPieces(s, j, c, k);
  }

  /** A whitespace run from `j` to the colon at `c`, and another from `c + 1` to `k`. */
  lemma ColonPieces(s: string, j: nat, c: nat, k: nat) returns (gap1: string, gap2: string)
    requires j <= c < |s| && s[c] == ':'
    requires c == RunEnd(s, j, Whitespace) && k == RunEnd(s, c + 1, Whitespace)
    ensures AllSpace(gap1) && AllSpace(gap2)
    ensures s[j..] == gap1 + ([':'] + (gap2 + s[k..]))
  {
    gap1 := RunThen(s, j, c);
    HeadThenRest(s, c);
    gap2 := RunThen(s, c + 1, k);
    ColonGlue(s[j..], s[c..], s[c + 1..], s[k..], gap1, gap2);
  }

  /** The suffix from `c` is its first character followed by the suffix after it. */
  lemma HeadThenRest(s: string, c: nat)
    requires c < |s|
    ensures s[c..] == [s[c]] + s[c + 1..]
  {
    Cut(s, c, c + 1);
  }

  /** Substituting the pieces of `\s*:\s*` into one another. */
  lemma ColonGlue(x: string, y: string, z: string, rest: string, gap1: string, gap2: string)
    requires x == gap1 + y && y == [':'] + z && z == gap2 + rest
    ensures x == gap1 + ([':'] + (gap2 + rest))
  {
  }

  /** A word at `a` that ends at `b`. */
  lemma WordAt(s: string, a: nat, word: string, b: nat)
    requires OccursAt(s, word, a) && b == a + |word|
    ensures s[a..] == word + s[b..]
  {
    Cut(s, a, b);
  }

  /** The greedy whitespace run from `a`, which ends at `e`. */
  lemma RunThen(s: string, a: nat, e: nat) returns (sp: string)
    requires a <= |s| && e == RunEnd(s, a, Whitespace)
    ensures AllSpace(sp) && s[a..] == sp + s[e..]
  {
    sp := s[a..e];
    RunIsSpaces(s, a);
    Cut(s, a, e);
  }

  /** The capture group at `k` and what follows it, which cannot extend the capture. */
  lemma CaptureShape(p: Pattern, s: string, k: nat, cap: string) returns (rest: string)
    requires k <= |s| && (if p == PolicyPattern then TokenAt(s, k) else AmountAt(s, k)) == Some(cap)
    ensures s[k..] == cap + rest
    ensures rest == [] || !InClass(if p == PolicyPattern then TokenChar else AmountChar, rest[0])
  {
    var e := k + |cap|;
    rest := s[e..];
    Cut(s, k, e);
    if rest != [] {
      assert rest[0] == s[e];
    }
  }

  /** A match at `i`: the label up to `j`, `\s*:\s*`, the capture and a rest that cannot extend it. */
  lemma MatchShape(p: Pattern, s: string, i: nat) returns (j: nat, gap1: string, gap2: string, rest: string)
    requires MatchAt(p, s, i).Some?
    ensures LabelEnd(p, s, i) == Some(j)
    ensures AllSpace(gap1) && AllSpace(gap2)
    ensures rest == [] || !InClass(if p == PolicyPattern then TokenChar else AmountChar, rest[0])
    ensures s[j..] == gap1 + ([':'] + (gap2 + (MatchAt(p, s, i).value + rest)))
  {
    j := LabelEnd(p, s, i).value;
    var k := ColonEnd(s, j).value;
    gap1, gap2 := ColonShape(s, j);
    rest := CaptureShape(p, s, k, MatchAt(p, s, i).value);
  }

  /** The policy label at `i`: `policy`, one whitespace character and a keyword. */
  lemma PolicyLabelShape(s: string, i: nat) returns (w: char, kw: string)
    requires PolicyLabelEnd(s, i).Some?
    ensures IsSpace(w) && (kw == "no" || kw == "number" || kw == "#")
    ensures s[i..] == "policy" + ([w] + (kw + s[PolicyLabelEnd(s, i).value..]))
  {
    var j := PolicyLabelEnd(s, i).value;
    w := s[i + 6];
    kw := s[i + 7..j];
    Cut(s, i, i + 6);
    Cut(s, i + 6, i + 7);
    Cut(s, i + 7, j);
    assert s[i + 6..i + 7] == [w];
  }

  /** A word at `a` that ends at `b`, and the greedy whitespace run from `b` to `e`. */
  lemma WordRun(s: string, a: nat, word: string, b: nat, e: nat) returns (sp: string)
    requires OccursAt(s, word, a) && b == a + |word|
    requires e == RunEnd(s, b, Whitespace)
    ensures AllSpace(sp)
    ensures s[a..] == word + (sp + s[e..])
  {
    WordAt(s, a, word, b);
    sp := RunThen(s, b, e);
  }

  /** The limit label at `i`: `limit`, `of` and `liability` with whitespace runs between them. */
  lemma LimitLabelShape(s: string, i: nat) returns (sp1: string, sp2: string)
    requires LimitLabelEnd(s, i).Some?
    ensures AllSpace(sp1) && AllSpace(sp2)
    ensures s[i..] == "limit" + (sp1 + ("of" + (sp2 + ("liability" + s[LimitLabelEnd(s, i).value..]))))
  {
    var o := RunEnd(s, i + 5, Whitespace);
    var k := RunEnd(s, o + 2, Whitespace);
    var n := LimitLabelEnd(s, i).value;
    assert n == k + 9;
    sp1 := WordRun(s, i, "limit", i + 5, o);
    sp2 := WordRun(s, o, "of", o + 2, k);
    WordAt(s, k, "liability", n);
    ThreeWordsGlue(s, i, o, k, n, "limit", sp1, "of", sp2, "liability");
  }

  /** Three words, each with what follows it, read as one line suffix. */
  lemma ThreeWordsGlue(s: string, i: nat, o: nat, k: nat, n: nat,
                       w1: string, sp1: string, w2: string, sp2: string, w3: string)
    requires i <= |s| && o <= |s| && k <= |s| && n <= |s|
    requires s[i..] == w1 + (sp1 + s[o..])
    requires s[o..] == w2 + (sp2 + s[k..])
    requires s[k..] == w3 + s[n..]
    ensures s[i..] == w1 + (sp1 + (w2 + (sp2 + (w3 + s[n..]))))
  {
  }

  /** Conversely to `PolicyLineMatches`, a policy match at `i` means the line has that shape from `i` on. */
  lemma PolicyMatchSound(s: string, i: nat) returns (w: char, kw: string, gap1: string, gap2: string, rest: string)
    requires MatchAt(PolicyPattern, s, i).Some?
    ensures IsSpace(w) && (kw == "no" || kw == "number" || kw == "#")
    ensures AllSpace(gap1) && AllSpace(gap2)
    ensures rest == [] || !InClass(TokenChar, rest[0])
    ensures s[i..] == "policy" + [w] + kw + gap1 + ":" + gap2 + MatchAt(PolicyPattern, s, i).value + rest
  {
    var j;
    j, gap1, gap2, rest := MatchShape(PolicyPattern, s, i);
    w, kw := PolicyLabelShape(s, i);
    PolicyLineShape(w, kw, gap1, gap2, MatchAt(PolicyPattern, s, i).value, rest);
  }

  /** Conversely to `DeductibleLineMatches`, a deductible match at `i` means the line has that shape from `i` on. */
  lemma DeductibleMatchSound(s: string, i: nat) returns (gap1: string, gap2: string, rest: string)
    requires MatchAt(DeductiblePattern, s, i).Some?
    ensures AllSpace(gap1) && AllSpace(gap2)
    ensures rest == [] || !InClass(AmountChar, rest[0])
    ensures s[i..] == "deductible" + gap1 + ":" + gap2 + MatchAt(DeductiblePattern, s, i).value + rest
  {
    var j;
    j, gap1, gap2, rest := MatchShape(DeductiblePattern, s, i);
    Cut(s, i, i + 10);
    DeductibleLineShape(gap1, gap2, MatchAt(DeductiblePattern, s, i).value, rest);
  }

  /** Conversely to `LimitLineMatches`, a limit match at `i` means the line has that shape from `i` on. */
  lemma LimitMatchSound(s: string, i: nat)
    returns (sp1: string, sp2: string, gap1: string, gap2: string, rest: string)
    requires MatchAt(LimitPattern, s, i).Some?
    ensures AllSpace(sp1) && AllSpace(sp2) && AllSpace(gap1) && AllSpace(gap2)
    ensures rest == [] || !InClass(AmountChar, rest[0])
    ensures s[i..] == "limit" + sp1 + "of" + sp2 + "liability" + gap1 + ":" + gap2
                      + MatchAt(LimitPattern, s, i).value + rest
  {
    var j;
    j, gap1, gap2, rest := MatchShape(LimitPattern, s, i);
    sp1, sp2 := LimitLabelShape(s, i);
    LimitLineShape(sp1, sp2, gap1, gap2, MatchAt(LimitPattern, s, i).value, rest);
  }
}
