/** The field layer: which extractor runs on which source first, how failures are swallowed,
    and the result record built for each configured field. */
module Pipeline {
  import opened Wrappers
  import opened TextLines
  import opened NoiseFilter
  import opened Patterns
  import opened Extractors

  /** What an extractor can return: a policy token or a whole amount. */
  datatype Value = Text(text: string) | Number(number: int)

  datatype Extractor = PolicyNumberExtractor | LimitExtractor | DeductibleExtractor

  /** One FIELD_CONFIG entry. `priority` is None when the entry has no "priority" key. */
  datatype FieldSpec = FieldSpec(name: string, extractor: Extractor, priority: Option<string>)

  /** The labels try_sources reports: "primary", "secondary". */
  datatype Slot = Primary | Secondary

  /** The result of try_sources: the value and the slot it came from, or (None, None). */
  datatype Attempt = Attempt(value: Option<Value>, slot: Option<Slot>)

  /** The labels process_field reports: "email", "document". */
  datatype Source = Email | Document

  /** The record wrap_field builds for one field. */
  datatype Wrapped = Wrapped(value: Option<Value>, source: Source, confidence: real)

  const FieldConfig: seq<FieldSpec> := [
    FieldSpec("policy_number", PolicyNumberExtractor, Some("email")),
    FieldSpec("limit_of_liability", LimitExtractor, Some("email")),
    FieldSpec("deductible", DeductibleExtractor, Some("email"))
  ]

  /** Calling the extractor on some lines: its value, or the exception it raises. */
  function Run(e: Extractor, lines: seq<string>): Call<Value> {
    match e
    case PolicyNumberExtractor =>
      (match PolicyNumberOf(lines) case None => Returns(None) case Some(t) => Returns(Some(Text(t))))
    case LimitExtractor => AsNumber(AmountOf(LimitPattern, lines))
    case DeductibleExtractor => AsNumber(AmountOf(DeductiblePattern, lines))
  }

  function AsNumber(c: Call<int>): Call<Value> {
    match c
    case Raises => Raises
    case Returns(None) => Returns(None)
    case Returns(Some(n)) => Returns(Some(Number(n)))
  }

  /** The extractor call itself, dispatched to the extractor methods. */
  method CallExtractor(e: Extractor, lines: seq<string>) returns (r: Call<Value>)
    ensures r == Run(e, lines)
  {
    match e {
      case PolicyNumberExtractor =>
        var v := ExtractPolicyNumber(lines);
        r := if v.Some? then Returns(Some(Text(v.value))) else Returns(None);
      case LimitExtractor =>
        var c := ExtractLimit(lines);
        r := AsNumber(c);
      case DeductibleExtractor =>
        var c := ExtractDeductible(lines);
        r := AsNumber(c);
    }
  }

  /** safe_extract: an exception becomes None, a returned value passes through. */
  function SafeExtract(e: Extractor, lines: seq<string>): (r: Option<Value>)
    ensures Run(e, lines).Raises? ==> r.None?
    ensures Run(e, lines).Returns? ==> r == Run(e, lines).result
  {
    match Run(e, lines)
    case Raises => None
    case Returns(v) => v
  }

  /** try_sources: the primary lines first, the secondary lines only when the primary gives None. */
  function TrySources(e: Extractor, primary: seq<string>, secondary: seq<string>): (r: Attempt)
    ensures r.slot == Some(Primary) <==> SafeExtract(e, primary).Some?
    ensures r.slot == Some(Secondary) <==> SafeExtract(e, primary).None? && SafeExtract(e, secondary).Some?
    ensures r.slot.None? <==> r.value.None?
    ensures r.slot == Some(Primary) ==> r.value == SafeExtract(e, primary)
    ensures r.slot == Some(Secondary) ==> r.value == SafeExtract(e, secondary)
  {
    var first := SafeExtract(e, primary);
    if first.Some? then Attempt(first, Some(Primary))
    else
      var second := SafeExtract(e, secondary);
      if second.Some? then Attempt(second, Some(Secondary)) else Attempt(None, None)
  }

  /** wrap_field: the confidence is 1.0 exactly when there is a value, and 0.0 otherwise. */
  function WrapField(value: Option<Value>, source: Source): (r: Wrapped)
    ensures r.value == value && r.source == source
    ensures r.confidence == 1.0 <==> value.Some?
    ensures r.confidence == 0.0 <==> value.None?
  {
    Wrapped(value, source, if value.Some? then 1.0 else 0.0)
  }

  /** Whether a field reads the e-mail first: `config.get("priority", "email") == "email"`. */
  predicate EmailFirst(spec: FieldSpec) {
    spec.priority.GetOr("email") == "email"
  }

  /** process_field. Whatever the slot, the label is that of the primary source when the
      primary supplied the value, and that of the secondary source otherwise — also when
      neither source supplied one. */
  function ProcessField(spec: FieldSpec, emailLines: seq<string>, docLines: seq<string>): (r: Wrapped)
    ensures var first := SafeExtract(spec.extractor, LinesOf(PrimarySource(spec), emailLines, docLines));
            first.Some? ==> r.value == first && r.source == PrimarySource(spec)
    ensures var first := SafeExtract(spec.extractor, LinesOf(PrimarySource(spec), emailLines, docLines));
            first.None? ==> r.value == SafeExtract(spec.extractor, LinesOf(SecondarySource(spec), emailLines, docLines))
                            && r.source == SecondarySource(spec)
    ensures r.confidence == 1.0 <==> r.value.Some?
    ensures r.confidence == 0.0 <==> r.value.None?
  {
    if EmailFirst(spec) then
      var a := TrySources(spec.extractor, emailLines, docLines);
      WrapField(a.value, if a.slot == Some(Primary) then Email else Document)
    else
      var a := TrySources(spec.extractor, docLines, emailLines);
      WrapField(a.value, if a.slot == Some(Primary) then Document else Email)
  }

  /** safe_extract as the pipeline runs it: the extractor is called, and a raise becomes None. */
  method RunSafeExtract(e: Extractor, lines: seq<string>) returns (r: Option<Value>)
    ensures r == SafeExtract(e, lines)
  {
    var c := CallExtractor(e, lines);
    r := if c.Raises? then None else c.result;
  }

  /** try_sources as the pipeline runs it: the secondary lines are read only after a None. */
  method RunTrySources(e: Extractor, primary: seq<string>, secondary: seq<string>) returns (r: Attempt)
    ensures r == TrySources(e, primary, secondary)
  {
    var first := RunSafeExtract(e, primary);
    if first.Some? {
      return Attempt(first, Some(Primary));
    }
    var second := RunSafeExtract(e, secondary);
    r := if second.Some? then Attempt(second, Some(Secondary)) else Attempt(None, None);
  }

  /** process_field as the pipeline runs it. */
  method RunProcessField(spec: FieldSpec, emailLines: seq<string>, docLines: seq<string>) returns (r: Wrapped)
    ensures r == ProcessField(spec, emailLines, docLines)
  {
    if EmailFirst(spec) {
      var a := RunTrySources(spec.extractor, emailLines, docLines);
      r := WrapField(a.value, if a.slot == Some(Primary) then Email else Document);
    } else {
      var a := RunTrySources(spec.extractor, docLines, emailLines);
      r := WrapField(a.value, if a.slot == Some(Primary) then Document else Email);
    }
  }

  /** process_field with both line lists fixed. */
  function Processor(emailLines: seq<string>, docLines: seq<string>): FieldSpec -> Wrapped {
    spec => ProcessField(spec, emailLines, docLines)
  }

  /** The dict the loop of run_pipeline builds: each entry's name bound to its processed field. */
  function Fields(config: seq<FieldSpec>, process: FieldSpec -> Wrapped): map<string, Wrapped> {
    if config == [] then map[]
    else
      var spec := config[|config| - 1];
      Fields(config[..|config| - 1], process)[spec.name := process(spec)]
  }

  /** What run_pipeline returns for the two raw texts. */
  function PipelineOf(emailText: string, docText: string): map<string, Wrapped> {
    Fields(FieldConfig, Processor(Filtered(CleanText(emailText)), Filtered(CleanText(docText))))
  }

  /** run_pipeline: clean and filter both texts, then process every configured field. */
  method RunPipeline(emailText: string, docText: string) returns (result: map<string, Wrapped>)
    ensures result == PipelineOf(emailText, docText)
    ensures result.Keys == {"policy_number", "limit_of_liability", "deductible"}
  {
    var emailLines := FilterLines(CleanText(emailText));
    var docLines := FilterLines(CleanText(docText));
    result := ProcessFields(FieldConfig, emailLines, docLines);
    PipelineKeys(emailText, docText);
  }

  /** The loop of run_pipeline: one dict entry per configuration entry, in order. */
  method ProcessFields(config: seq<FieldSpec>, emailLines: seq<string>, docLines: seq<string>)
    returns (result: map<string, Wrapped>)
    ensures result == Fields(config, Processor(emailLines, docLines))
  {
    result := map[];
    for i := 0 to |config|
      invariant result == Fields(config[..i], Processor(emailLines, docLines))
    {
      var spec := config[i];
      FieldsStep(config, Processor(emailLines, docLines), i);
      var field := RunProcessField(spec, emailLines, docLines);
      result := result[spec.name := field];
    }
    assert config[..|config|] == config;
  }

  /** One more configuration entry adds (or overwrites) its own key. */
  lemma FieldsStep(config: seq<FieldSpec>, process: FieldSpec -> Wrapped, i: nat)
    requires i < |config|
    ensures Fields(config[..i + 1], process) == Fields(config[..i], process)[config[i].name := process(config[i])]
  {
    assert config[..i + 1][..i] == config[..i];
  }

  // ---------- Properties of the field layer ----------

  /** The source a field reads first, and the lines of each source. */
  function PrimarySource(spec: FieldSpec): Source {
    if EmailFirst(spec) then Email else Document
  }

  function SecondarySource(spec: FieldSpec): Source {
    if EmailFirst(spec) then Document else Email
  }

  function LinesOf(src: Source, emailLines: seq<string>, docLines: seq<string>): seq<string> {
    if src == Email then emailLines else docLines
  }

  /** Once the primary lines give a value, the secondary lines are never consulted. */
  lemma TrySourcesIgnoresSecondary(e: Extractor, primary: seq<string>, s1: seq<string>, s2: seq<string>)
    requires SafeExtract(e, primary).Some?
    ensures TrySources(e, primary, s1) == TrySources(e, primary, s2)
  {
  }

  /** A field whose primary source gives a value reports it from that source with confidence 1.0. */
  lemma PrimaryWins(spec: FieldSpec, emailLines: seq<string>, docLines: seq<string>)
    requires SafeExtract(spec.extractor, LinesOf(PrimarySource(spec), emailLines, docLines)).Some?
    ensures ProcessField(spec, emailLines, docLines)
            == Wrapped(SafeExtract(spec.extractor, LinesOf(PrimarySource(spec), emailLines, docLines)),
                       PrimarySource(spec), 1.0)
  {
  }

  /** When the primary source gives nothing, the secondary source's value is reported from it. */
  lemma FallbackToSecondary(spec: FieldSpec, emailLines: seq<string>, docLines: seq<string>)
    requires SafeExtract(spec.extractor, LinesOf(PrimarySource(spec), emailLines, docLines)).None?
    requires SafeExtract(spec.extractor, LinesOf(SecondarySource(spec), emailLines, docLines)).Some?
    ensures ProcessField(spec, emailLines, docLines)
            == Wrapped(SafeExtract(spec.extractor, LinesOf(SecondarySource(spec), emailLines, docLines)),
                       SecondarySource(spec), 1.0)
  {
  }

  /** When neither source gives a value, the field is empty with confidence 0.0, and it is
      labelled with the secondary source: "document" for an e-mail-first field, "email" otherwise. */
  lemma BothFailLabel(spec: FieldSpec, emailLines: seq<string>, docLines: seq<string>)
    requires SafeExtract(spec.extractor, emailLines).None? && SafeExtract(spec.extractor, docLines).None?
    ensures ProcessField(spec, emailLines, docLines) == Wrapped(None, SecondarySource(spec), 0.0)
    ensures EmailFirst(spec) ==> ProcessField(spec, emailLines, docLines).source == Document
    ensures !EmailFirst(spec) ==> ProcessField(spec, emailLines, docLines).source == Email
  {
  }

  /** An entry without a "priority" key behaves as one with priority "email". */
  lemma MissingPriorityIsEmail(name: string, e: Extractor, emailLines: seq<string>, docLines: seq<string>)
    ensures ProcessField(FieldSpec(name, e, None), emailLines, docLines)
            == ProcessField(FieldSpec(name, e, Some("email")), emailLines, docLines)
  {
  }

  /** Any priority other than "email" reads the document first. */
  lemma OtherPriorityIsDocumentFirst(spec: FieldSpec)
    requires spec.priority.Some? && spec.priority.value != "email"
    ensures PrimarySource(spec) == Document && SecondarySource(spec) == Email
  {
  }

  /** A raising extractor is treated like one that found nothing. */
  lemma RaiseIsLikeNothing(spec: FieldSpec, emailLines: seq<string>, docLines: seq<string>)
    requires Run(spec.extractor, LinesOf(PrimarySource(spec), emailLines, docLines)).Raises?
    ensures ProcessField(spec, emailLines, docLines).value
            == SafeExtract(spec.extractor, LinesOf(SecondarySource(spec), emailLines, docLines))
  {
  }

  /** Every configured field reads the e-mail first. */
  lemma ConfigIsEmailFirst()
    ensures forall k :: 0 <= k < |FieldConfig| ==> EmailFirst(FieldConfig[k]) && PrimarySource(FieldConfig[k]) == Email
  {
  }

  /** The dict has one key per configuration entry. */
  lemma {:induction false} FieldsKeys(config: seq<FieldSpec>, process: FieldSpec -> Wrapped)
    ensures Fields(config, process).Keys == set k | 0 <= k < |config| :: config[k].name
  {
    if config != [] {
      var n := |config| - 1;
      FieldsKeys(config[..n], process);
      assert (set k | 0 <= k < |config| :: config[k].name)
          == (set k | 0 <= k < n :: config[..n][k].name) + {config[n].name};
    }
  }

  /** The entry for a name is the processed field of the last configuration entry with that name. */
  lemma {:induction false} FieldsEntry(config: seq<FieldSpec>, process: FieldSpec -> Wrapped, k: nat)
    requires k < |config|
    requires forall j :: k < j < |config| ==> config[j].name != config[k].name
    ensures config[k].name in Fields(config, process)
    ensures Fields(config, process)[config[k].name] == process(config[k])
  {
    var n := |config| - 1;
    if k < n {
      FieldsEntry(config[..n], process, k);
    }
  }

  /** Every entry of the dict is one of the processed fields. */
  lemma {:induction false} FieldsFrom(config: seq<FieldSpec>, process: FieldSpec -> Wrapped, name: string)
    requires name in Fields(config, process)
    ensures exists k :: 0 <= k < |config| && Fields(config, process)[name] == process(config[k])
  {
    var n := |config| - 1;
    if name != config[n].name {
      FieldsFrom(config[..n], process, name);
      var k :| 0 <= k < n && Fields(config[..n], process)[name] == process(config[..n][k]);
      assert config[..n][k] == config[k];
    }
  }

  /** The keys of a three-entry configuration are its three names. */
  lemma ThreeKeys(config: seq<FieldSpec>, process: FieldSpec -> Wrapped)
    requires |config| == 3
    ensures Fields(config, process).Keys == {config[0].name, config[1].name, config[2].name}
  {
    FieldsKeys(config, process);
    var names := set k | 0 <= k < |config| :: config[k].name;
    assert config[0].name in names && config[1].name in names && config[2].name in names;
  }

  /** In a three-entry configuration with distinct names, each name holds its own processed field. */
  lemma ThreeEntry(config: seq<FieldSpec>, process: FieldSpec -> Wrapped, k: nat)
    requires |config| == 3 && k < 3
    requires config[0].name != config[1].name && config[0].name != config[2].name
    requires config[1].name != config[2].name
    ensures config[k].name in Fields(config, process)
    ensures Fields(config, process)[config[k].name] == process(config[k])
  {
    FieldsEntry(config, process, k);
  }

  /** The configured field names are pairwise distinct. */
  lemma ConfigNamesDistinct()
    ensures FieldConfig[0].name != FieldConfig[1].name && FieldConfig[0].name != FieldConfig[2].name
    ensures FieldConfig[1].name != FieldConfig[2].name
  {
    assert FieldConfig[0].name[0] == 'p' && FieldConfig[1].name[0] == 'l' && FieldConfig[2].name[0] == 'd';
  }

  /** A field of the dict has confidence 1.0 exactly when it has a value. */
  lemma FieldsConfidence(config: seq<FieldSpec>, emailLines: seq<string>, docLines: seq<string>, name: string)
    requires name in Fields(config, Processor(emailLines, docLines))
    ensures var w := Fields(config, Processor(emailLines, docLines))[name];
            w.confidence == 1.0 <==> w.value.Some?
  {
    FieldsFrom(config, Processor(emailLines, docLines), name);
  }

  /** run_pipeline reports exactly the three configured fields. */
  lemma PipelineKeys(emailText: string, docText: string)
    ensures PipelineOf(emailText, docText).Keys == {"policy_number", "limit_of_liability", "deductible"}
  {
    ThreeKeys(FieldConfig, Processor(Filtered(CleanText(emailText)), Filtered(CleanText(docText))));
  }

  /** Each configured field of the result is that field processed on the cleaned, filtered texts. */
  lemma PipelineEntry(emailText: string, docText: string, k: nat)
    requires k < |FieldConfig|
    ensures FieldConfig[k].name in PipelineOf(emailText, docText)
    ensures PipelineOf(emailText, docText)[FieldConfig[k].name]
            == ProcessField(FieldConfig[k], Filtered(CleanText(emailText)), Filtered(CleanText(docText)))
  {
    ConfigNamesDistinct();
    ThreeEntry(FieldConfig, Processor(Filtered(CleanText(emailText)), Filtered(CleanText(docText))), k);
  }

  /** No reported field has a value with confidence 0.0 or no value with confidence 1.0. */
  lemma PipelineConfidence(emailText: string, docText: string, name: string)
    requires name in PipelineOf(emailText, docText)
    ensures PipelineOf(emailText, docText)[name].confidence == 1.0 <==> PipelineOf(emailText, docText)[name].value.Some?
  {
    FieldsConfidence(FieldConfig, Filtered(CleanText(emailText)), Filtered(CleanText(docText)), name);
  }
}
