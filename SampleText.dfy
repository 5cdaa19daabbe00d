/** The lines of the program's sample e-mail and document as clean_text leaves them, and the
    facts about their characters that the sample run needs. They live apart from the model so
    that the solver sees nothing but the literals while it checks these facts. */
module SampleText {
  const Greeting: string := "hello team,"
  const PolicyLine: string := "policy no :   pn-45678"
  const Footer: string := "some random footer text"
  // One line of the sample; it is written in two pieces only so that the proofs can cut it
  // after "insu" when they search it for "regards".
  const Insured: string := "insu" + "red   name: abc manufacturing ltd"
  const LimitLine: string := "limit of liability : $5,000,000 usd"
  const PhoneLine: string := "phone: +61 987654321"
  const MailLine: string := "email: broker@test.com"
  const ThanksLine: string := "thanks,"
  const TeamLine: string := "broker team"

  lemma GreetingLetters()
    ensures 'r' !in Greeting && 'k' !in Greeting && 's' !in Greeting && '@' !in Greeting
    ensures 'p' !in Greeting && 'b' !in Greeting && 'w' !in Greeting
  {
  }

  lemma GreetingLabelLetters()
    ensures 'p' !in Greeting && 'i' !in Greeting && 'd' !in Greeting
  {
  }

  lemma PolicyLineLetters()
    ensures 'r' !in PolicyLine && 't' !in PolicyLine && 's' !in PolicyLine && 'h' !in PolicyLine
  {
  }

  lemma PolicyLineMoreLetters()
    ensures '@' !in PolicyLine && 'w' !in PolicyLine && 'm' !in PolicyLine && 'd' !in PolicyLine
  {
  }

  lemma PolicyLineParts()
    ensures "policy" + [' '] + "no" + " " + ":" + "   " + "pn-45678" + "" == PolicyLine
  {
    assert "policy" + [' '] == "policy ";
    assert "policy " + "no" == "policy no";
    assert "policy no" + " " == "policy no ";
    assert "policy no " + ":" == "policy no :";
    assert "policy no :" + "   " == "policy no :   ";
    assert "policy no :   " + "pn-45678" == PolicyLine;
  }

  lemma FooterLetters()
    ensures 'g' !in Footer && 'h' !in Footer && 'i' !in Footer
  {
  }

  lemma FooterMoreLetters()
    ensures '@' !in Footer && 'w' !in Footer && 'p' !in Footer
  {
  }

  lemma FooterLastLetters()
    ensures 'l' !in Footer && 'b' !in Footer && 'c' !in Footer
  {
  }

  lemma InsuredLetters()
    ensures 'h' !in Insured && 'y' !in Insured
  {
  }

  lemma InsuredMoreLetters()
    ensures '@' !in Insured && 'p' !in Insured
  {
  }

  lemma InsuredLastLetters()
    ensures 'o' !in Insured && 'w' !in Insured
  {
  }

  lemma InsuredSplitAtR()
    ensures "insu" + "red   name: abc manufacturing ltd" == Insured
  {
  }

  lemma InsuredSplitAtT()
    ensures "insured   name: abc manufac" + "turing ltd" == Insured
  {
  }

  lemma InsuredTailSplitAtL()
    ensures "red   name: abc manufacturing " + "ltd" == "red   name: abc manufacturing ltd"
  {
  }

  lemma InsuredSplitAtD()
    ensures "insure" + "d   name: abc manufacturing ltd" == Insured
  {
  }

  lemma InsuredHeadSplit()
    ensures ['r'] + "ed   name: abc manufacturing ltd" == "red   name: abc manufacturing ltd"
  {
  }

  lemma InsuredGapSplit()
    ensures ['d'] + "   name: abc manufacturing ltd" == "d   name: abc manufacturing ltd"
  {
  }

  lemma LimitLineLetters()
    ensures 'r' !in LimitLine && 'h' !in LimitLine
  {
  }

  lemma LimitLineMoreLetters()
    ensures 'n' !in LimitLine && '@' !in LimitLine
  {
  }

  lemma LimitLineLastLetters()
    ensures 'w' !in LimitLine && 'p' !in LimitLine
  {
  }

  lemma LimitLineNoE()
    ensures 'e' !in LimitLine
  {
  }

  lemma LimitLineParts()
    ensures "limit" + " " + "of" + " " + "liability" + " " + ":" + " " + "$5,000,000" + " usd" == LimitLine
  {
    assert "limit" + " " == "limit ";
    assert "limit " + "of" == "limit of";
    assert "limit of" + " " == "limit of ";
    assert "limit of " + "liability" == "limit of liability";
    assert "limit of liability" + " " == "limit of liability ";
    assert "limit of liability " + ":" == "limit of liability :";
    assert "limit of liability :" + " " == "limit of liability : ";
    assert "limit of liability : " + "$5,000,000" == "limit of liability : $5,000,000";
    assert "limit of liability : $5,000,000" + " usd" == LimitLine;
  }

  lemma PhoneLineLetters()
    ensures 'r' !in PhoneLine && 't' !in PhoneLine && 's' !in PhoneLine
  {
  }

  lemma MailLineLetters()
    ensures 'g' !in MailLine && 'h' !in MailLine && 'n' !in MailLine
  {
  }

  lemma MailLineAtSign()
    ensures |MailLine| > 13 && MailLine[13] == '@'
  {
  }

}
