/** filter_lines: cut the closing signature block and drop contact lines. */
module NoiseFilter {
  import opened TextLines

  const SignatureKeywords: seq<string> := ["regards", "thanks", "thank you", "sincerely"]
  const ContactKeywords: seq<string> := ["phone", "tel", "mobile", "www"]

  /** `any(word in line for word in keywords)` */
  predicate ContainsAny(line: string, keywords: seq<string>) {
    keywords != [] && (Contains(line, keywords[0]) || ContainsAny(line, keywords[1..]))
  }

  /** A line that opens the closing signature block. */
  predicate IsSignature(line: string) {
    ContainsAny(line, SignatureKeywords)
  }

  /** A line the filter skips: an e-mail address or a contact detail. */
  predicate IsNoise(line: string) {
    Contains(line, "@") || ContainsAny(line, ContactKeywords)
  }

  /** Index of the first signature line, or |lines| when there is none. */
  function SignatureIndex(lines: seq<string>): (k: nat)
    ensures k <= |lines|
    ensures forall i :: 0 <= i < k ==> !IsSignature(lines[i])
    ensures k < |lines| ==> IsSignature(lines[k])
  {
    if lines == [] || IsSignature(lines[0]) then 0 else 1 + SignatureIndex(lines[1..])
  }

  /** The lines that are not noise, in their order. */
  function DropNoise(lines: seq<string>): (r: seq<string>)
    ensures |r| <= |lines|
    ensures forall k :: 0 <= k < |r| ==> !IsNoise(r[k])
  {
    if lines == [] then []
    else
      var last := lines[|lines| - 1];
      DropNoise(lines[..|lines| - 1]) + (if IsNoise(last) then [] else [last])
  }

  /** What filter_lines returns: the lines before the first signature line, without the noise lines. */
  function Filtered(lines: seq<string>): seq<string> {
    DropNoise(lines[..SignatureIndex(lines)])
  }

  /** filter_lines: one pass that stops at the signature and skips noise. */
  method FilterLines(lines: seq<string>) returns (filtered: seq<string>)
    ensures filtered == Filtered(lines)
  {
    filtered := [];
    var i := 0;
    while i < |lines|
      invariant i <= SignatureIndex(lines)
      invariant filtered == DropNoise(lines[..i])
    {
      var line := lines[i];
      if ContainsAny(line, SignatureKeywords) {
        break;
      }
      assert lines[..i + 1][..i] == lines[..i];
      if Contains(line, "@") {
        i := i + 1;
        continue;
      }
      if ContainsAny(line, ContactKeywords) {
        i := i + 1;
        continue;
      }
      filtered := filtered + [line];
      i := i + 1;
    }
  }

  // ---------- Helper facts ----------

  lemma PrefixOfAppend(a: seq<string>, b: seq<string>, k: nat)
    requires k <= |b|
    ensures (a + b)[..|a| + k] == a + b[..k]
  {
  }

  lemma FilteredAt(lines: seq<string>, k: nat, prefix: seq<string>)
    requires k == SignatureIndex(lines) && prefix == lines[..k]
    ensures Filtered(lines) == DropNoise(prefix)
  {
  }

  /** Every line DropNoise keeps is one of its input lines. */
  lemma {:induction false} DropNoiseKeepsLines(lines: seq<string>)
    ensures forall x :: x in DropNoise(lines) <==> x in lines && !IsNoise(x)
  {
    if lines != [] {
      var init := lines[..|lines| - 1];
      DropNoiseKeepsLines(init);
      assert lines == init + [lines[|lines| - 1]];
    }
  }

  /** DropNoise keeps a list whose lines are all free of noise. */
  lemma {:induction false} DropNoiseOfClean(lines: seq<string>)
    requires forall k :: 0 <= k < |lines| ==> !IsNoise(lines[k])
    ensures DropNoise(lines) == lines
  {
    if lines != [] {
      DropNoiseOfClean(lines[..|lines| - 1]);
    }
  }

  /** SignatureIndex is past the end of a list without signature lines. */
  lemma {:induction false} NoSignatureIndex(lines: seq<string>)
    requires forall k :: 0 <= k < |lines| ==> !IsSignature(lines[k])
    ensures SignatureIndex(lines) == |lines|
  {
    if lines != [] {
      NoSignatureIndex(lines[1..]);
    }
  }

  // ---------- Properties of filter_lines ----------

  /** Dropping noise works line by line, so it keeps the order of the lines. */
  lemma {:induction false} DropNoiseAppend(a: seq<string>, b: seq<string>)
    ensures DropNoise(a + b) == DropNoise(a) + DropNoise(b)
    decreases |b|
  {
    if b == [] {
      assert a + b == a;
    } else {
      var init := b[..|b| - 1];
      DropNoiseAppend(a, init);
      assert (a + b)[..|a + b| - 1] == a + init;
    }
  }

  /** A line is in the output exactly when it is a non-noise line before the first signature line. */
  lemma FilteredMembership(lines: seq<string>, x: string)
    ensures x in Filtered(lines) <==>
              exists i :: 0 <= i < SignatureIndex(lines) && lines[i] == x && !IsNoise(x)
  {
    var k := SignatureIndex(lines);
    DropNoiseKeepsLines(lines[..k]);
    if x in Filtered(lines) {
      var i :| 0 <= i < k && lines[..k][i] == x;
      assert lines[i] == x;
    }
    if exists i :: 0 <= i < k && lines[i] == x && !IsNoise(x) {
      var i :| 0 <= i < k && lines[i] == x && !IsNoise(x);
      assert lines[..k][i] == x;
    }
  }

  /** Without a signature line in the first part, the parts are filtered one after the other. */
  lemma FilteredAppend(a: seq<string>, b: seq<string>)
    requires forall k :: 0 <= k < |a| ==> !IsSignature(a[k])
    ensures Filtered(a + b) == DropNoise(a) + Filtered(b)
  {
    SignatureIndexAfter(a, b);
    FilteredSplit(a, b, SignatureIndex(b));
  }

  lemma FilteredSplit(a: seq<string>, b: seq<string>, k: nat)
    requires k == SignatureIndex(b) && SignatureIndex(a + b) == |a| + k
    ensures Filtered(a + b) == DropNoise(a) + Filtered(b)
  {
    PrefixOfAppend(a, b, k);
    DropNoiseAppend(a, b[..k]);
  }

  lemma {:induction false} SignatureIndexAfter(a: seq<string>, b: seq<string>)
    requires forall k :: 0 <= k < |a| ==> !IsSignature(a[k])
    ensures SignatureIndex(a + b) == |a| + SignatureIndex(b)
  {
    if a == [] {
      assert a + b == b;
    } else {
      SignatureIndexAfter(a[1..], b);
      assert (a + b)[1..] == a[1..] + b;
    }
  }

  lemma {:induction false} SignatureIndexBefore(a: seq<string>, b: seq<string>)
    requires SignatureIndex(a) < |a|
    ensures SignatureIndex(a + b) == SignatureIndex(a)
  {
    if !IsSignature(a[0]) {
      SignatureIndexBefore(a[1..], b);
      assert (a + b)[1..] == a[1..] + b;
    }
  }

  /** A signature line cuts off everything after it, whatever those lines hold. */
  lemma SignatureTruncates(a: seq<string>, sig: string, b: seq<string>)
    requires IsSignature(sig)
    ensures Filtered(a + [sig] + b) == Filtered(a + [sig])
  {
    var head := a + [sig];
    var k := SignatureIndex(head);
    assert head[|a|] == sig;
    SignatureIndexBefore(head, b);
    assert (head + b)[..k] == head[..k];
  }

  /** No surviving line holds a signature keyword, a contact keyword or an `@`. */
  lemma FilteredIsClean(lines: seq<string>)
    ensures |Filtered(lines)| <= |lines|
    ensures forall k :: 0 <= k < |Filtered(lines)| ==>
              !IsSignature(Filtered(lines)[k]) && !IsNoise(Filtered(lines)[k])
  {
    var n := SignatureIndex(lines);
    var r := Filtered(lines);
    DropNoiseKeepsLines(lines[..n]);
    forall k | 0 <= k < |r| ensures !IsSignature(r[k]) {
      assert r[k] in lines[..n];
      var i :| 0 <= i < n && lines[..n][i] == r[k];
      assert lines[i] == r[k];
    }
  }

  /** filter_lines is idempotent: a second pass changes nothing. */
  lemma FilterIdempotent(lines: seq<string>)
    ensures Filtered(Filtered(lines)) == Filtered(lines)
  {
    var once := Filtered(lines);
    FilteredIsClean(lines);
    NoSignatureIndex(once);
    assert once[..|once|] == once;
    DropNoiseOfClean(once);
  }

  // ---------- Deciding the predicates on given lines ----------

  /** `any(word in line for word in keywords)` holds exactly when some keyword occurs in the line. */
  lemma {:induction false} ContainsAnySpec(line: string, keywords: seq<string>)
    ensures ContainsAny(line, keywords) <==> exists k :: 0 <= k < |keywords| && Contains(line, keywords[k])
  {
    if keywords != [] {
      ContainsAnySpec(line, keywords[1..]);
      if exists k :: 0 <= k < |keywords| && Contains(line, keywords[k]) {
        var k :| 0 <= k < |keywords| && Contains(line, keywords[k]);
        if k > 0 {
          assert keywords[1..][k - 1] == keywords[k];
        }
      }
      if exists k :: 0 <= k < |keywords[1..]| && Contains(line, keywords[1..][k]) {
        var k :| 0 <= k < |keywords[1..]| && Contains(line, keywords[1..][k]);
        assert keywords[k + 1] == keywords[1..][k];
      }
    }
  }

  /** A line in which no signature keyword occurs is not a signature line. */
  lemma NotSignature(line: string)
    requires NowhereIn(line, "regards") && NowhereIn(line, "thanks")
    requires NowhereIn(line, "thank you") && NowhereIn(line, "sincerely")
    ensures !IsSignature(line)
  {
    ContainsAnySpec(line, SignatureKeywords);
    forall k | 0 <= k < |SignatureKeywords| ensures !Contains(line, SignatureKeywords[k]) {
      NotContains(line, SignatureKeywords[k]);
    }
  }

  /** A line without `@` in which no contact keyword occurs is kept. */
  lemma NotNoise(line: string)
    requires NowhereIn(line, "@") && NowhereIn(line, "phone") && NowhereIn(line, "tel")
    requires NowhereIn(line, "mobile") && NowhereIn(line, "www")
    ensures !IsNoise(line)
  {
    NotContains(line, "@");
    ContainsAnySpec(line, ContactKeywords);
    forall k | 0 <= k < |ContactKeywords| ensures !Contains(line, ContactKeywords[k]) {
      NotContains(line, ContactKeywords[k]);
    }
  }

  /** An occurrence makes `sub in line` true. */
  lemma OccurrenceContains(line: string, sub: string, i: nat)
    requires OccursAt(line, sub, i)
    ensures Contains(line, sub)
  {
    ContainsFromOccurs(line, sub, 0);
  }

  /** The signature index is the first signature line. */
  lemma SignatureIndexIs(lines: seq<string>, k: nat)
    requires k < |lines| && IsSignature(lines[k])
    requires forall i :: 0 <= i < k ==> !IsSignature(lines[i])
    ensures SignatureIndex(lines) == k
  {
  }
}
