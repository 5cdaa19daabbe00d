/** The program's own example: the sample e-mail and document as clean_text leaves them,
    what filter_lines keeps of them, and the three fields run_pipeline reports for them.

    Each line is a literal, and the solver unfolds functions applied to literals eagerly,
    so the facts about single characters of a line are proved in lemmas of their own, and
    the lemmas that decide a predicate on a line take those facts as given. */
module Sample {
  import opened Wrappers
  import opened TextLines
  import opened NoiseFilter
  import opened Patterns
  import opened Extractors
  import opened Pipeline
  import opened SampleText

  /** The sample e-mail after clean_text. */
  const CleanEmail: seq<string> :=
    [Greeting, PolicyLine, Footer, Insured, LimitLine, PhoneLine, MailLine, ThanksLine, TeamLine]

  /** The sample document after clean_text. */
  const CleanDoc: seq<string> := [Greeting, PolicyLine, Footer, Insured, LimitLine, ThanksLine, TeamLine]

  /** What filter_lines keeps of either. */
  const Kept: seq<string> := [Greeting, PolicyLine, Footer, Insured, LimitLine]

  /** The dict run_pipeline prints for the sample. */
  const SampleResult: map<string, Wrapped> := map[
    "policy_number" := Wrapped(Some(Text("pn-45678")), Email, 1.0),
    "limit_of_liability" := Wrapped(Some(Number(5000000)), Email, 1.0),
    "deductible" := Wrapped(None, Document, 0.0)
  ]

  // ---------- Deciding the predicates from missing letters ----------

  /** A line in which a letter of the pattern's leading word never appears does not match. */
  lemma NoLabel(p: Pattern, line: string, k: nat)
    requires k < |LeadingWord(p)| && LeadingWord(p)[k] !in line
    ensures Search(p, line).None?
  {
    MissingChar(line, LeadingWord(p), k);
    NowhereNoMatch(p, line);
  }

  /** A line lacking one letter of each signature keyword is not a signature line. */
  lemma NoSignatureLetters(line: string, a: nat, b: nat, c: nat, d: nat)
    requires a < 7 && "regards"[a] !in line && b < 6 && "thanks"[b] !in line
    requires c < 9 && "thank you"[c] !in line && d < 9 && "sincerely"[d] !in line
    ensures !IsSignature(line)
  {
    MissingChar(line, "regards", a);
    MissingChar(line, "thanks", b);
    MissingChar(line, "thank you", c);
    MissingChar(line, "sincerely", d);
    NotSignature(line);
  }

  /** A line without `@` lacking one letter of each contact keyword is not noise. */
  lemma NoContactLetters(line: string, a: nat, b: nat, c: nat)
    requires '@' !in line && 'w' !in line
    requires a < 5 && "phone"[a] !in line && b < 3 && "tel"[b] !in line && c < 6 && "mobile"[c] !in line
    ensures !IsNoise(line)
  {
    MissingChar(line, "@", 0);
    MissingChar(line, "phone", a);
    MissingChar(line, "tel", b);
    MissingChar(line, "mobile", c);
    MissingChar(line, "www", 0);
    NotNoise(line);
  }

  /** A line holding an `@` is noise. */
  lemma AtSignIsNoise(line: string, i: nat)
    requires i < |line| && line[i] == '@'
    ensures IsNoise(line)
  {
    assert line[i..i + 1] == "@";
    OccurrenceContains(line, "@", i);
  }

  // ---------- "hello team," ----------

  /** "tel" does not occur: the only `t` is followed by `e`, then `a`. */
  lemma GreetingNoTel()
    ensures NowhereIn(Greeting, "tel")
  {
    MissingChar("eam,", "tel", 0);
    SkipHead('t', "eam,", "tel", 2);
    assert ['t'] + "eam," == "team,";
    SkipPrefix("hello ", "team,", "tel");
    assert "hello " + "team," == Greeting;
  }

  lemma GreetingKept()
    ensures !IsSignature(Greeting) && !IsNoise(Greeting)
  {
    GreetingLetters();
    NoSignatureLetters(Greeting, 0, 4, 4, 0);
    GreetingNotNoise();
  }

  lemma GreetingNotNoise()
    ensures !IsNoise(Greeting)
  {
    GreetingLetters();
    MissingChar(Greeting, "@", 0);
    MissingChar(Greeting, "phone", 0);
    GreetingNoTel();
    MissingChar(Greeting, "mobile", 2);
    MissingChar(Greeting, "www", 0);
    NotNoise(Greeting);
  }

  lemma GreetingSearches()
    ensures Search(PolicyPattern, Greeting).None? && Search(LimitPattern, Greeting).None?
    ensures Search(DeductiblePattern, Greeting).None?
  {
    GreetingLabelLetters();
    NoLabel(PolicyPattern, Greeting, 0);
    NoLabel(LimitPattern, Greeting, 1);
    NoLabel(DeductiblePattern, Greeting, 0);
  }

  // ---------- "policy no :   pn-45678" ----------

  lemma PolicyLineKept()
    ensures !IsSignature(PolicyLine) && !IsNoise(PolicyLine)
  {
    PolicyLineNotSignature();
    PolicyLineNotNoise();
  }

  lemma PolicyLineNotSignature()
    ensures !IsSignature(PolicyLine)
  {
    PolicyLineLetters();
    NoSignatureLetters(PolicyLine, 0, 0, 0, 0);
  }

  lemma PolicyLineNotNoise()
    ensures !IsNoise(PolicyLine)
  {
    PolicyLineLetters();
    PolicyLineMoreLetters();
    NoContactLetters(PolicyLine, 1, 0, 0);
  }

  lemma PolicyLineToken()
    ensures Search(PolicyPattern, PolicyLine) == Some("pn-45678")
  {
    PolicyLineParts();
    PolicyLineMatches(' ', "no", " ", "   ", "pn-45678", "");
  }

  lemma PolicyLineSearches()
    ensures Search(LimitPattern, PolicyLine).None? && Search(DeductiblePattern, PolicyLine).None?
  {
    PolicyLineMoreLetters();
    NoLabel(LimitPattern, PolicyLine, 2);
    NoLabel(DeductiblePattern, PolicyLine, 0);
  }

  // ---------- "some random footer text" ----------

  lemma FooterKept()
    ensures !IsSignature(Footer) && !IsNoise(Footer)
  {
    FooterNotSignature();
    FooterNotNoise();
  }

  lemma FooterNotSignature()
    ensures !IsSignature(Footer)
  {
    FooterLetters();
    NoSignatureLetters(Footer, 2, 1, 1, 1);
  }

  lemma FooterNotNoise()
    ensures !IsNoise(Footer)
  {
    FooterMoreLetters();
    FooterLastLetters();
    NoContactLetters(Footer, 0, 2, 2);
  }

  lemma FooterSearches()
    ensures Search(PolicyPattern, Footer).None? && Search(LimitPattern, Footer).None?
    ensures Search(DeductiblePattern, Footer).None?
  {
    FooterMoreLetters();
    FooterLastLetters();
    NoLabel(PolicyPattern, Footer, 0);
    NoLabel(LimitPattern, Footer, 0);
    NoLabel(DeductiblePattern, Footer, 4);
  }

  // ---------- "insured   name: abc manufacturing ltd" ----------

  /** The second `r` of the line is followed by `i`. */
  lemma InsuredTailNoRegards()
    ensures NowhereIn("ring ltd", "regards")
  {
    MissingChar("ing ltd", "regards", 0);
    SkipHead('r', "ing ltd", "regards", 1);
    assert ['r'] + "ing ltd" == "ring ltd";
  }

  lemma InsuredMiddleNoRegards()
    ensures NowhereIn("ed   name: abc manufacturing ltd", "regards")
  {
    InsuredTailNoRegards();
    SkipPrefix("ed   name: abc manufactu", "ring ltd", "regards");
    assert "ed   name: abc manufactu" + "ring ltd" == "ed   name: abc manufacturing ltd";
  }

  /** The first `r` of the line is followed by `e`, then `d`. */
  lemma InsuredHeadNoRegards()
    ensures NowhereIn("red   name: abc manufacturing ltd", "regards")
  {
    InsuredMiddleNoRegards();
    SkipHead('r', "ed   name: abc manufacturing ltd", "regards", 2);
    InsuredHeadSplit();
  }

  lemma InsuredNoRegards()
    ensures NowhereIn(Insured, "regards")
  {
    InsuredHeadNoRegards();
    SkipPrefix("insu", "red   name: abc manufacturing ltd", "regards");
    InsuredSplitAtR();
  }

  /** The first `t` of the line is followed by `u`, the second ends it but for one letter. */
  lemma InsuredTailNoTel()
    ensures NowhereIn("turing ltd", "tel")
  {
    TooShort("td", "tel");
    SkipPrefix("uring l", "td", "tel");
    assert "uring l" + "td" == "uring ltd";
    SkipHead('t', "uring ltd", "tel", 1);
    assert ['t'] + "uring ltd" == "turing ltd";
  }

  lemma InsuredNoTel()
    ensures NowhereIn(Insured, "tel")
  {
    InsuredTailNoTel();
    SkipPrefix("insured   name: abc manufac", "turing ltd", "tel");
    InsuredSplitAtT();
  }

  /** "limit" does not occur: the only `l` starts "ltd". */
  lemma InsuredNoLimit()
    ensures NowhereIn(Insured, "limit")
  {
    TooShort("ltd", "limit");
    SkipPrefix("red   name: abc manufacturing ", "ltd", "limit");
    InsuredTailSplitAtL();
    SkipPrefix("insu", "red   name: abc manufacturing ltd", "limit");
    InsuredSplitAtR();
  }

  lemma InsuredTailNoDeductible()
    ensures NowhereIn("d   name: abc manufacturing ltd", "deductible")
  {
    TooShort("ltd", "deductible");
    SkipPrefix("   name: abc manufacturing ", "ltd", "deductible");
    assert "   name: abc manufacturing " + "ltd" == "   name: abc manufacturing ltd";
    SkipHead('d', "   name: abc manufacturing ltd", "deductible", 1);
    InsuredGapSplit();
  }

  /** "deductible" does not occur: the first `d` is followed by a space, the last ends the line. */
  lemma InsuredNoDeductible()
    ensures NowhereIn(Insured, "deductible")
  {
    InsuredTailNoDeductible();
    SkipPrefix("insure", "d   name: abc manufacturing ltd", "deductible");
    InsuredSplitAtD();
  }

  lemma InsuredNotSignature()
    ensures !IsSignature(Insured)
  {
    InsuredLetters();
    InsuredNoRegards();
    MissingChar(Insured, "thanks", 1);
    MissingChar(Insured, "thank you", 1);
    MissingChar(Insured, "sincerely", 8);
    NotSignature(Insured);
  }

  lemma InsuredNotNoise()
    ensures !IsNoise(Insured)
  {
    InsuredMoreLetters();
    InsuredLastLetters();
    MissingChar(Insured, "@", 0);
    MissingChar(Insured, "phone", 0);
    InsuredNoTel();
    MissingChar(Insured, "mobile", 1);
    MissingChar(Insured, "www", 0);
    NotNoise(Insured);
  }

  lemma InsuredSearches()
    ensures Search(PolicyPattern, Insured).None? && Search(LimitPattern, Insured).None?
    ensures Search(DeductiblePattern, Insured).None?
  {
    InsuredMoreLetters();
    NoLabel(PolicyPattern, Insured, 0);
    InsuredNoLimit();
    NowhereNoMatch(LimitPattern, Insured);
    InsuredNoDeductible();
    NowhereNoMatch(DeductiblePattern, Insured);
  }

  // ---------- "limit of liability : $5,000,000 usd" ----------

  lemma LimitLineKept()
    ensures !IsSignature(LimitLine) && !IsNoise(LimitLine)
  {
    LimitLineNotSignature();
    LimitLineNotNoise();
  }

  lemma LimitLineNotSignature()
    ensures !IsSignature(LimitLine)
  {
    LimitLineLetters();
    LimitLineMoreLetters();
    NoSignatureLetters(LimitLine, 0, 1, 1, 2);
  }

  lemma LimitLineNotNoise()
    ensures !IsNoise(LimitLine)
  {
    LimitLineMoreLetters();
    LimitLineLastLetters();
    LimitLineNoE();
    NoContactLetters(LimitLine, 0, 1, 5);
  }

  lemma LimitLineAmount()
    ensures Search(LimitPattern, LimitLine) == Some("$5,000,000")
  {
    LimitLineParts();
    LimitLineMatches(" ", " ", " ", " ", "$5,000,000", " usd");
  }

  lemma LimitLineNoPolicy()
    ensures Search(PolicyPattern, LimitLine).None?
  {
    LimitLineLastLetters();
    NoLabel(PolicyPattern, LimitLine, 0);
  }

  lemma LimitLineNoDeductible()
    ensures Search(DeductiblePattern, LimitLine).None?
  {
    LimitLineNoE();
    NoLabel(DeductiblePattern, LimitLine, 1);
  }

  // ---------- The lines filter_lines drops or stops at ----------

  lemma PhoneLineDropped()
    ensures !IsSignature(PhoneLine) && IsNoise(PhoneLine)
  {
    PhoneLineLetters();
    NoSignatureLetters(PhoneLine, 0, 0, 0, 0);
    assert OccursAt(PhoneLine, "phone", 0);
    OccurrenceContains(PhoneLine, "phone", 0);
    ContainsAnySpec(PhoneLine, ContactKeywords);
    assert ContactKeywords[0] == "phone";
  }

  lemma MailLineDropped()
    ensures !IsSignature(MailLine) && IsNoise(MailLine)
  {
    MailLineLetters();
    NoSignatureLetters(MailLine, 2, 1, 1, 2);
    MailLineAtSign();
    AtSignIsNoise(MailLine, 13);
  }

  lemma ThanksLineSignature()
    ensures IsSignature(ThanksLine)
  {
    assert OccursAt(ThanksLine, "thanks", 0);
    OccurrenceContains(ThanksLine, "thanks", 0);
    ContainsAnySpec(ThanksLine, SignatureKeywords);
    assert SignatureKeywords[1] == "thanks";
  }

  // ---------- filter_lines on the sample ----------

  /** Five lines that are each neither signature nor noise, as a list. */
  lemma FiveKeptLines(l0: string, l1: string, l2: string, l3: string, l4: string)
    requires !IsSignature(l0) && !IsNoise(l0) && !IsSignature(l1) && !IsNoise(l1)
    requires !IsSignature(l2) && !IsNoise(l2) && !IsSignature(l3) && !IsNoise(l3)
    requires !IsSignature(l4) && !IsNoise(l4)
    ensures forall k :: 0 <= k < 5 ==>
              !IsSignature([l0, l1, l2, l3, l4][k]) && !IsNoise([l0, l1, l2, l3, l4][k])
  {
    var lines := [l0, l1, l2, l3, l4];
    forall k | 0 <= k < 5 ensures !IsSignature(lines[k]) && !IsNoise(lines[k]) {
      if k == 0 {
        assert lines[k] == l0;
      } else if k == 1 {
        assert lines[k] == l1;
      } else if k == 2 {
        assert lines[k] == l2;
      } else if k == 3 {
        assert lines[k] == l3;
      } else {
        assert lines[k] == l4;
      }
    }
  }

  /** No kept line is noise, none is a signature line. */
  lemma KeptLinesFacts()
    ensures forall k :: 0 <= k < |Kept| ==> !IsSignature(Kept[k]) && !IsNoise(Kept[k])
  {
    GreetingKept();
    PolicyLineKept();
    FooterKept();
    InsuredNotSignature();
    InsuredNotNoise();
    LimitLineKept();
    FiveKeptLines(Greeting, PolicyLine, Footer, Insured, LimitLine);
  }

  /** The kept lines pass through DropNoise unchanged. */
  lemma KeptSurvive()
    ensures DropNoise(Kept) == Kept
  {
    KeptLinesFacts();
    DropNoiseOfClean(Kept);
  }

  /** The phone and e-mail lines of the e-mail are both dropped. */
  lemma ContactLinesDropped()
    ensures DropNoise([PhoneLine, MailLine]) == []
  {
    PhoneLineDropped();
    MailLineDropped();
    assert [PhoneLine, MailLine][..1] == [PhoneLine];
    assert [PhoneLine][..0] == [];
  }

  /** Seven lines none of which opens a signature, then the rest. */
  lemma SevenNotSignature(l0: string, l1: string, l2: string, l3: string, l4: string, l5: string, l6: string,
                          rest: seq<string>)
    requires !IsSignature(l0) && !IsSignature(l1) && !IsSignature(l2) && !IsSignature(l3)
    requires !IsSignature(l4) && !IsSignature(l5) && !IsSignature(l6)
    ensures forall i :: 0 <= i < 7 ==> !IsSignature(([l0, l1, l2, l3, l4, l5, l6] + rest)[i])
  {
    var lines := [l0, l1, l2, l3, l4, l5, l6] + rest;
    forall i | 0 <= i < 7 ensures !IsSignature(lines[i]) {
      if i == 0 {
        assert lines[i] == l0;
      } else if i == 1 {
        assert lines[i] == l1;
      } else if i == 2 {
        assert lines[i] == l2;
      } else if i == 3 {
        assert lines[i] == l3;
      } else if i == 4 {
        assert lines[i] == l4;
      } else if i == 5 {
        assert lines[i] == l5;
      } else {
        assert lines[i] == l6;
      }
    }
  }

  /** Nine lines split after the seventh: five, two, and two. */
  lemma NineSplit(l0: string, l1: string, l2: string, l3: string, l4: string, l5: string, l6: string,
                  l7: string, l8: string)
    ensures [l0, l1, l2, l3, l4, l5, l6, l7, l8] == [l0, l1, l2, l3, l4, l5, l6] + [l7, l8]
    ensures [l0, l1, l2, l3, l4, l5, l6, l7, l8][..7] == [l0, l1, l2, l3, l4] + [l5, l6]
  {
  }

  /** The e-mail's signature block starts at "thanks,", its eighth line. */
  lemma EmailSignatureIndex()
    ensures SignatureIndex(CleanEmail) == 7
  {
    GreetingKept();
    PolicyLineKept();
    FooterKept();
    InsuredNotSignature();
    LimitLineKept();
    PhoneLineDropped();
    MailLineDropped();
    ThanksLineSignature();
    NineSplit(Greeting, PolicyLine, Footer, Insured, LimitLine, PhoneLine, MailLine, ThanksLine, TeamLine);
    SevenNotSignature(Greeting, PolicyLine, Footer, Insured, LimitLine, PhoneLine, MailLine, [ThanksLine, TeamLine]);
    SignatureIndexIs(CleanEmail, 7);
  }

  /** The document's signature block starts at "thanks,", its sixth line. */
  lemma DocSignatureIndex()
    ensures SignatureIndex(CleanDoc) == 5
  {
    KeptLinesFacts();
    ThanksLineSignature();
    forall i | 0 <= i < 5 ensures !IsSignature(CleanDoc[i]) {
      assert CleanDoc[i] == Kept[i];
    }
    SignatureIndexIs(CleanDoc, 5);
  }

  /** filter_lines keeps the five lines above the signature of the sample e-mail, dropping its
      phone and e-mail lines. */
  lemma EmailFiltering()
    ensures Filtered(CleanEmail) == Kept
  {
    EmailSignatureIndex();
    var dropped := [PhoneLine, MailLine];
    NineSplit(Greeting, PolicyLine, Footer, Insured, LimitLine, PhoneLine, MailLine, ThanksLine, TeamLine);
    FilteredAt(CleanEmail, 7, Kept + dropped);
    DropNoiseAppend(Kept, dropped);
    KeptSurvive();
    ContactLinesDropped();
  }

  /** filter_lines keeps the five lines above the signature of the sample document. */
  lemma DocFiltering()
    ensures Filtered(CleanDoc) == Kept
  {
    DocSignatureIndex();
    assert CleanDoc[..5] == Kept;
    FilteredAt(CleanDoc, 5, Kept);
    KeptSurvive();
  }

  // ---------- The extractors on the sample ----------

  /** extract_policy_number on five lines of which only the second names a policy number. */
  lemma PolicyOfFive(l0: string, l1: string, l2: string, l3: string, l4: string, c: string)
    requires Search(PolicyPattern, l0).None? && Search(PolicyPattern, l1) == Some(c)
    requires Search(PolicyPattern, l2).None? && Search(PolicyPattern, l3).None?
    requires Search(PolicyPattern, l4).None?
    ensures PolicyNumberOf([l0, l1, l2, l3, l4]) == Some(c)
  {
    var lines := [l0, l1, l2, l3, l4];
    forall j | 0 <= j < 5 && j != 1 ensures Search(PolicyPattern, lines[j]).None? {
      if j == 0 {
        assert lines[j] == l0;
      } else if j == 2 {
        assert lines[j] == l2;
      } else if j == 3 {
        assert lines[j] == l3;
      } else {
        assert lines[j] == l4;
      }
    }
    SingleMatchingLine(PolicyPattern, lines, 1, c);
  }

  /** An amount extractor on five lines of which only the last names its amount. */
  lemma AmountOfFive(p: Pattern, l0: string, l1: string, l2: string, l3: string, l4: string, c: string, v: string)
    requires p != PolicyPattern && Normalize(p, c) == v
    requires Search(p, l0).None? && Search(p, l1).None? && Search(p, l2).None?
    requires Search(p, l3).None? && Search(p, l4) == Some(c)
    ensures AllDigits(v) && AmountOf(p, [l0, l1, l2, l3, l4]) == ParseInt(v)
  {
    var lines := [l0, l1, l2, l3, l4];
    forall j | 0 <= j < 5 && j != 4 ensures Search(p, lines[j]).None? {
      if j == 0 {
        assert lines[j] == l0;
      } else if j == 1 {
        assert lines[j] == l1;
      } else if j == 2 {
        assert lines[j] == l2;
      } else {
        assert lines[j] == l3;
      }
    }
    SingleMatchingLine(p, lines, 4, c);
    AmountOfSole(p, lines, v);
  }

  /** An amount extractor on five lines none of which names its amount. */
  lemma NoAmountOfFive(p: Pattern, l0: string, l1: string, l2: string, l3: string, l4: string)
    requires p != PolicyPattern
    requires Search(p, l0).None? && Search(p, l1).None? && Search(p, l2).None?
    requires Search(p, l3).None? && Search(p, l4).None?
    ensures AmountOf(p, [l0, l1, l2, l3, l4]) == Returns(None)
  {
    var lines := [l0, l1, l2, l3, l4];
    forall j | 0 <= j < 5 ensures Search(p, lines[j]).None? {
      if j == 0 {
        assert lines[j] == l0;
      } else if j == 1 {
        assert lines[j] == l1;
      } else if j == 2 {
        assert lines[j] == l2;
      } else if j == 3 {
        assert lines[j] == l3;
      } else {
        assert lines[j] == l4;
      }
    }
    NoMatchGivesNothing(p, lines);
  }

  lemma SamplePolicyNumber()
    ensures PolicyNumberOf(Kept) == Some("pn-45678")
  {
    GreetingSearches();
    PolicyLineToken();
    FooterSearches();
    InsuredSearches();
    LimitLineNoPolicy();
    PolicyOfFive(Greeting, PolicyLine, Footer, Insured, LimitLine, "pn-45678");
  }

  lemma WithoutSeparator()
    ensures Without(",000", ',') == "000"
  {
    assert ",000"[1..] == "000";
    WithoutAbsent("000", ',');
  }

  lemma WithoutFirstSeparator()
    ensures Without("$5,000", ',') == "$5000"
  {
    assert "$5" + ",000" == "$5,000";
    WithoutAppend("$5", ",000", ',');
    WithoutAbsent("$5", ',');
    WithoutSeparator();
    assert "$5" + "000" == "$5000";
  }

  lemma WithoutSeparators()
    ensures Without("$5,000,000", ',') == "$5000000"
  {
    assert "$5,000" + ",000" == "$5,000,000";
    WithoutAppend("$5,000", ",000", ',');
    WithoutFirstSeparator();
    WithoutSeparator();
    assert "$5000" + "000" == "$5000000";
  }

  /** "$5,000,000" is stored as "5000000". */
  lemma NormalizeSampleLimit()
    ensures Normalize(LimitPattern, "$5,000,000") == "5000000"
  {
    WithoutSeparators();
    assert "$5000000"[1..] == "5000000";
    WithoutAbsent("5000000", '$');
  }

  lemma SampleLimitValue()
    ensures AllDigits("5000000") && ParseInt("5000000") == Returns(Some(5000000))
  {
    assert "5"[..0] == "";
    assert "50"[..1] == "5";
    assert "500"[..2] == "50";
    assert "5000"[..3] == "500";
    assert "50000"[..4] == "5000";
    assert "500000"[..5] == "50000";
    assert "5000000"[..6] == "500000";
    assert DigitsValue("5000000") == 5000000;
  }

  lemma SampleLimit()
    ensures AmountOf(LimitPattern, Kept) == Returns(Some(5000000))
  {
    GreetingSearches();
    PolicyLineSearches();
    FooterSearches();
    InsuredSearches();
    LimitLineAmount();
    NormalizeSampleLimit();
    AmountOfFive(LimitPattern, Greeting, PolicyLine, Footer, Insured, LimitLine, "$5,000,000", "5000000");
    SampleLimitValue();
  }

  lemma SampleDeductible()
    ensures AmountOf(DeductiblePattern, Kept) == Returns(None)
  {
    GreetingSearches();
    PolicyLineSearches();
    FooterSearches();
    InsuredSearches();
    LimitLineNoDeductible();
    NoAmountOfFive(DeductiblePattern, Greeting, PolicyLine, Footer, Insured, LimitLine);
  }

  // ---------- run_pipeline on the sample ----------

  /** policy_number is taken from the e-mail when the e-mail yields one. */
  lemma PolicyField(e: seq<string>, d: seq<string>)
    requires PolicyNumberOf(e) == Some("pn-45678")
    ensures ProcessField(FieldConfig[0], e, d) == Wrapped(Some(Text("pn-45678")), Email, 1.0)
  {
    PrimaryWins(FieldConfig[0], e, d);
  }

  /** limit_of_liability is taken from the e-mail when the e-mail yields one. */
  lemma LimitField(e: seq<string>, d: seq<string>)
    requires AmountOf(LimitPattern, e) == Returns(Some(5000000))
    ensures ProcessField(FieldConfig[1], e, d) == Wrapped(Some(Number(5000000)), Email, 1.0)
  {
    PrimaryWins(FieldConfig[1], e, d);
  }

  /** A deductible found in neither source is reported missing, from the document. */
  lemma DeductibleField(e: seq<string>, d: seq<string>)
    requires AmountOf(DeductiblePattern, e) == Returns(None)
    requires AmountOf(DeductiblePattern, d) == Returns(None)
    ensures ProcessField(FieldConfig[2], e, d) == Wrapped(None, Document, 0.0)
  {
    BothFailLabel(FieldConfig[2], e, d);
  }

  /** The three fields put together in the order of the configuration. */
  lemma OutputOf(e: seq<string>, d: seq<string>)
    requires ProcessField(FieldConfig[0], e, d) == Wrapped(Some(Text("pn-45678")), Email, 1.0)
    requires ProcessField(FieldConfig[1], e, d) == Wrapped(Some(Number(5000000)), Email, 1.0)
    requires ProcessField(FieldConfig[2], e, d) == Wrapped(None, Document, 0.0)
    ensures Fields(FieldConfig, Processor(e, d)) == SampleResult
  {
    var process := Processor(e, d);
    var policy := FieldConfig[0];
    var limit := FieldConfig[1];
    assert FieldConfig[..2][..1] == [policy];
    assert FieldConfig[..2] == [policy, limit];
    assert FieldConfig[..|FieldConfig| - 1] == [policy, limit];
    assert Fields([policy], process) == map["policy_number" := process(policy)];
    assert Fields([policy, limit], process) == map["policy_number" := process(policy), "limit_of_liability" := process(limit)];
  }

  /** run_pipeline on the sample: the policy number and the limit come from the e-mail, and
      the deductible is missing, labelled "document", with confidence 0.0. */
  lemma SampleOutput()
    ensures Fields(FieldConfig, Processor(Filtered(CleanEmail), Filtered(CleanDoc))) == SampleResult
  {
    EmailFiltering();
    DocFiltering();
    SamplePolicyNumber();
    SampleLimit();
    SampleDeductible();
    PolicyField(Kept, Kept);
    LimitField(Kept, Kept);
    DeductibleField(Kept, Kept);
    OutputOf(Kept, Kept);
  }
}
