/** What src/ai_api/services/litellm_registry.py reads out of a registry entry. */
module LitellmRegistry {
  import opened Common
  import opened Pricing
  import opened ResponsesSupport

  datatype Field =
    | ContextWindow | ModalityInput | ModalityOutput | Capabilities
    | Price(column: string) | Other(name: string)

  datatype Value = Number(n: int) | Labels(labels: seq<string>) | Plain(text: string)

  const SYNCABLE_FIELDS: seq<Field> := [ContextWindow, ModalityInput, ModalityOutput, Capabilities]

  predicate Syncable(f: Field) {
    f.ContextWindow? || f.ModalityInput? || f.ModalityOutput? || f.Capabilities?
  }

  lemma SyncableFields(f: Field)
    ensures Syncable(f) <==> f in SYNCABLE_FIELDS
  {
    assert SYNCABLE_FIELDS[0] == ContextWindow && SYNCABLE_FIELDS[1] == ModalityInput;
    assert SYNCABLE_FIELDS[2] == ModalityOutput && SYNCABLE_FIELDS[3] == Capabilities;
  }

  /** A registry entry, as far as it is read; 0 and the empty mode stand for a missing one. */
  datatype Entry = Entry(
    mode: string, maxInputTokens: int, maxTokens: int,
    functionCalling: bool, vision: bool, reasoning: bool, pdf: bool, promptCaching: bool, webSearch: bool,
    audioInput: bool, audioOutput: bool, video: bool, structuredOutput: bool, computerUse: bool,
    inputPerToken: Option<real>, outputPerToken: Option<real>, cacheReadPerToken: Option<real>,
    perPage: Option<real>, perQuery: Option<real>, perCharacter: Option<real>, perImage: Option<real>,
    perSecond: Option<real>)

  type Registry = map<string, Entry>

  function ModeOf(e: Entry): string {
    if e.mode == "" then "chat" else e.mode
  }

  function ModalityOf(e: Entry): (seq<string>, seq<string>) {
    var mode := ModeOf(e);
    if mode == "image_generation" then (["text"], ["image"])
    else if mode == "audio_transcription" then (["audio"], ["text"])
    else if mode == "audio_speech" then (["text"], ["audio"])
    else (if e.vision then ["text", "image"] else ["text"], ["text"])
  }

  const LABELS := [
    "chat", "function-calling", "vision", "reasoning", "pdf", "prompt-caching", "web-search", "audio", "video",
    "structured-output", "computer-use"]

  /** For each label, whether the entry calls for it. */
  function FlagsOf(e: Entry): (flags: seq<bool>)
    ensures |flags| == |LABELS|
  {
    [ModeOf(e) in ["chat", "completion", "responses"], e.functionCalling, e.vision, e.reasoning, e.pdf, e.promptCaching,
     e.webSearch, e.audioInput || e.audioOutput, e.video, e.structuredOutput, e.computerUse]
  }

  function Selected(flags: seq<bool>, labels: seq<string>): seq<string>
    requires |flags| == |labels|
  {
    if labels == [] then []
    else (if flags[0] then [labels[0]] else []) + Selected(flags[1..], labels[1..])
  }

  /** _capabilities. */
  function CapabilitiesOf(e: Entry): seq<string> {
    Selected(FlagsOf(e), LABELS)
  }

  /** metadata_from_entry. */
  function MetadataFrom(e: Entry): map<Field, Value> {
    map[
      ContextWindow :=
        Number(if e.maxInputTokens != 0 then e.maxInputTokens else e.maxTokens),
      ModalityInput := Labels(ModalityOf(e).0),
      ModalityOutput := Labels(ModalityOf(e).1),
      Capabilities := Labels(CapabilitiesOf(e))]
  }

  function Per1k(perToken: Option<real>): Option<real> {
    if perToken.Some? then Some(perToken.value * 1000.0) else None
  }

  function UnitQuote(unit: string, perUnit: Option<real>, otherwise: Option<Quote>): Option<Quote> {
    if perUnit.Some? then Some(Quote(0.0, 0.0, None, Some(unit), perUnit)) else otherwise
  }

  /** price_from_entry: per token where the registry has that, else per unit. */
  function PriceFrom(e: Entry): Option<Quote> {
    if e.inputPerToken.Some? then
      var output := Per1k(e.outputPerToken);
      Some(Quote(
        e.inputPerToken.value * 1000.0, if output.Some? then output.value else 0.0, Per1k(e.cacheReadPerToken),
        None, None))
    else
      UnitQuote("page", e.perPage, UnitQuote("query", e.perQuery, UnitQuote("character", e.perCharacter,
        UnitQuote("image", e.perImage, UnitQuote("second", e.perSecond, None)))))
  }

  predicate Clean(caps: seq<string>) {
    NoMarker(caps) && Distinct(caps)
  }

  lemma {:induction false} SelectionClean(flags: seq<bool>, labels: seq<string>)
    requires |flags| == |labels| && Clean(labels)
    ensures Clean(Selected(flags, labels))
    ensures forall c | c in Selected(flags, labels) :: c in labels
  {
    if labels == [] {
    } else {
      assert labels == [labels[0]] + labels[1..];
      SelectionClean(flags[1..], labels[1..]);
      assert labels[0] !in labels[1..];
    }
  }

  lemma LabelsClean()
    ensures Clean(LABELS)
  {
    assert "audio"[0] != "video"[0];
    assert "reasoning"[2] != RESPONSES[2];
    assert "structured-output"[0] != RESPONSES_BLOCKED[0];
    assert "function-calling"[0] != RESPONSES_TESTED[0];
    assert "function-calling"[0] != RESPONSES_MANUAL[0];
  }

  /** The registry says nothing about the responses endpoint, and no capability twice. */
  lemma RegistryIsClean(e: Entry)
    ensures Clean(CapabilitiesOf(e))
  {
    LabelsClean();
    SelectionClean(FlagsOf(e), LABELS);
  }

  /* ---------- What the registry says, label by label ---------- */

  /** Chosen are the labels whose flag is set ... */
  lemma {:induction false} SelectedMembers(flags: seq<bool>, labels: seq<string>, i: nat)
    requires |flags| == |labels| && Distinct(labels) && i < |labels|
    ensures labels[i] in Selected(flags, labels) <==> flags[i]
  {
    SelectedAreListed(flags[1..], labels[1..]);
    if i == 0 {
      assert labels[0] !in labels[1..];
    } else {
      SelectedMembers(flags[1..], labels[1..], i - 1);
      assert labels[i] != labels[0];
    }
  }

  lemma {:induction false} SelectedAreListed(flags: seq<bool>, labels: seq<string>)
    requires |flags| == |labels|
    ensures forall c | c in Selected(flags, labels) :: c in labels
  {
    if labels == [] {
    } else {
      SelectedAreListed(flags[1..], labels[1..]);
      assert labels == [labels[0]] + labels[1..];
    }
  }

  /** ... in their order. */
  lemma {:induction false} SelectedInOrder(flags: seq<bool>, labels: seq<string>)
    requires |flags| == |labels| && Distinct(labels)
    ensures InOrder(Selected(flags, labels), labels)
  {
    if labels == [] {
    } else {
      SelectedInOrder(flags[1..], labels[1..]);
      SelectedAreListed(flags[1..], labels[1..]);
      if flags[0] {
        FirstInOrder(labels, Selected(flags[1..], labels[1..]));
      } else {
        LaterInOrder(labels, Selected(flags[1..], labels[1..]));
      }
    }
  }

  /** Of two members the one listed first comes first. */
  predicate InOrder(caps: seq<string>, labels: seq<string>) {
    forall p, q, i, j |
      0 <= p < q < |caps| && 0 <= i < |labels| && 0 <= j < |labels| && caps[p] == labels[i] && caps[q] == labels[j] ::
      i < j
  }

  lemma LaterInOrder(labels: seq<string>, rest: seq<string>)
    requires labels != [] && Distinct(labels) && labels[0] !in rest && InOrder(rest, labels[1..])
    ensures InOrder(rest, labels)
  {
    forall p, q, i, j |
      0 <= p < q < |rest| && 0 <= i < |labels| && 0 <= j < |labels| && rest[p] == labels[i] && rest[q] == labels[j]
      ensures i < j
    {
      assert rest[p] in rest && rest[q] in rest;
      assert rest[p] == labels[1..][i - 1] && rest[q] == labels[1..][j - 1];
    }
  }

  lemma FirstInOrder(labels: seq<string>, rest: seq<string>)
    requires labels != [] && Distinct(labels) && labels[0] !in rest && InOrder(rest, labels[1..])
    ensures InOrder([labels[0]] + rest, labels)
  {
    LaterInOrder(labels, rest);
    var caps := [labels[0]] + rest;
    forall p, q, i, j |
      0 <= p < q < |caps| && 0 <= i < |labels| && 0 <= j < |labels| && caps[p] == labels[i] && caps[q] == labels[j]
      ensures i < j
    {
      assert caps[q] == rest[q - 1] && caps[q] in rest;
      if p > 0 {
        assert caps[p] == rest[p - 1];
      }
    }
  }

  lemma ChatModes(e: Entry)
    ensures ModeOf(e) in ["chat", "completion", "responses"] <==> e.mode in ["", "chat", "completion", "responses"]
  {
    assert ["chat", "completion", "responses"][0] == "chat";
  }

  lemma LabelByFlag(e: Entry, i: nat)
    requires i < |LABELS|
    ensures LABELS[i] in CapabilitiesOf(e) <==> FlagsOf(e)[i]
  {
    LabelsClean();
    SelectedMembers(FlagsOf(e), LABELS, i);
  }

  /** Which flag gives which label ... */
  lemma CapabilitiesSay(e: Entry)
    ensures var caps := CapabilitiesOf(e);
      && ("chat" in caps <==> e.mode in ["", "chat", "completion", "responses"])
      && ("function-calling" in caps <==> e.functionCalling)
      && ("vision" in caps <==> e.vision)
      && ("reasoning" in caps <==> e.reasoning)
      && ("pdf" in caps <==> e.pdf)
      && ("prompt-caching" in caps <==> e.promptCaching)
      && ("web-search" in caps <==> e.webSearch)
      && ("audio" in caps <==> e.audioInput || e.audioOutput)
      && ("video" in caps <==> e.video)
      && ("structured-output" in caps <==> e.structuredOutput)
      && ("computer-use" in caps <==> e.computerUse)
  {
    ChatModes(e);
    LabelByFlag(e, 0);
    LabelByFlag(e, 1);
    LabelByFlag(e, 2);
    LabelByFlag(e, 3);
    LabelByFlag(e, 4);
    LabelByFlag(e, 5);
    LabelByFlag(e, 6);
    LabelByFlag(e, 7);
    LabelByFlag(e, 8);
    LabelByFlag(e, 9);
    LabelByFlag(e, 10);
  }

  /** ... and no other label is given, none twice and none out of order. */
  lemma CapabilitiesInOrder(e: Entry)
    ensures var caps := CapabilitiesOf(e);
      var listing := [
        "chat", "function-calling", "vision", "reasoning", "pdf", "prompt-caching", "web-search", "audio", "video",
        "structured-output", "computer-use"];
      (forall c | c in caps :: c in listing) && Distinct(caps) && InOrder(caps, listing)
  {
    RegistryIsClean(e);
    LabelsClean();
    SelectedAreListed(FlagsOf(e), LABELS);
    SelectedInOrder(FlagsOf(e), LABELS);
  }

  /** What goes in and out follows from the mode, and for a text model from whether it
      can see. */
  lemma ModalitySays(e: Entry)
    ensures e.mode == "image_generation" ==> ModalityOf(e) == (["text"], ["image"])
    ensures e.mode == "audio_transcription" ==> ModalityOf(e) == (["audio"], ["text"])
    ensures e.mode == "audio_speech" ==> ModalityOf(e) == (["text"], ["audio"])
    ensures e.mode !in ["image_generation", "audio_transcription", "audio_speech"] ==>
      ModalityOf(e) == (if e.vision then ["text", "image"] else ["text"], ["text"])
  {
    ModesDiffer();
    var modes := ["image_generation", "audio_transcription", "audio_speech"];
    assert modes[0] in modes && modes[1] in modes && modes[2] in modes;
  }

  /** The context window is the input limit if there is one, else the total. */
  lemma MetadataSays(e: Entry)
    ensures MetadataFrom(e).Keys == {ContextWindow, ModalityInput, ModalityOutput, Capabilities}
    ensures MetadataFrom(e)[ContextWindow] == Number(if e.maxInputTokens == 0 then e.maxTokens else e.maxInputTokens)
    ensures MetadataFrom(e)[ModalityInput] == Labels(ModalityOf(e).0)
    ensures MetadataFrom(e)[ModalityOutput] == Labels(ModalityOf(e).1)
    ensures MetadataFrom(e)[Capabilities] == Labels(CapabilitiesOf(e))
  {
  }

  lemma ModesDiffer()
    ensures "image_generation" != "audio_transcription" && "audio_transcription" != "audio_speech"
    ensures "image_generation" != "audio_speech"
  {
    assert "image_generation"[0] != "audio_speech"[0];
    assert "audio_transcription"[6] != "audio_speech"[6];
  }

  /* ---------- What the price of an entry means ---------- */

  function Or(n: Option<real>, otherwise: real): real {
    if n.Some? then n.value else otherwise
  }

  /** What a token costs under the quote is what the entry says of it: an entry without
      an output price charges none, and one without a cache price the input price. */
  lemma QuoteIsPerToken(e: Entry, plain: nat, cached: nat, completion: nat)
    requires e.inputPerToken.Some?
    ensures var cost := CalculateCost(PriceFrom(e), Some(plain + cached), Some(completion), Some(cached));
      cost.Some? && cost.value ==
        plain as real * e.inputPerToken.value
        + cached as real * Or(e.cacheReadPerToken, e.inputPerToken.value)
        + completion as real * Or(e.outputPerToken, 0.0)
    ensures PriceFrom(e).value.unit.None? && PriceFrom(e).value.perUnit.None?
  {
    var full := plain + cached - cached;
    CostPerToken(
      PriceFrom(e).value, full, cached, completion, e.inputPerToken.value,
      Or(e.cacheReadPerToken, e.inputPerToken.value), Or(e.outputPerToken, 0.0));
  }

  lemma CostPerToken(q: Quote, full: nat, cached: nat, completion: nat, input: real, cacheRead: real, output: real)
    requires q.inputPer1k == input * 1000.0 && q.outputPer1k == output * 1000.0
    requires (if q.cachedInputPer1k.Some? then q.cachedInputPer1k.value else q.inputPer1k) == cacheRead * 1000.0
    ensures CostOf(q, full, cached, completion) ==
      full as real * input + cached as real * cacheRead + completion as real * output
  {
    Rescaled(full as real, input, q.inputPer1k);
    Rescaled(completion as real, output, q.outputPer1k);
    Rescaled(cached as real, cacheRead, cacheRead * 1000.0);
  }

  lemma Rescaled(n: real, perToken: real, per1k: real)
    requires per1k == perToken * 1000.0
    ensures n / 1000.0 * per1k == n * perToken
  {
    assert n / 1000.0 * per1k == n / 1000.0 * 1000.0 * perToken;
  }

  predicate AllNone(units: seq<(string, Option<real>)>) {
    forall u | u in units :: u.1.None?
  }

  /** There is a quote exactly if the entry has an input price or some price per unit;
      without an input price it is the first of these, in this order. */
  lemma QuoteExactly(e: Entry)
    ensures var units := [
        ("page", e.perPage), ("query", e.perQuery), ("character", e.perCharacter), ("image", e.perImage),
        ("second", e.perSecond)];
      && (PriceFrom(e).None? <==> e.inputPerToken.None? && AllNone(units))
      && forall i | 0 <= i < 5 && e.inputPerToken.None? && units[i].1.Some? && AllNone(units[..i]) ::
           PriceFrom(e) == Some(Quote(0.0, 0.0, None, Some(units[i].0), units[i].1))
  {
    var units := [
      ("page", e.perPage), ("query", e.perQuery), ("character", e.perCharacter), ("image", e.perImage),
      ("second", e.perSecond)];
    assert units[0].1 == e.perPage && units[1].1 == e.perQuery && units[2].1 == e.perCharacter;
    assert units[3].1 == e.perImage && units[4].1 == e.perSecond;
  }
}
