/** The decision logic of the prediction endpoint: the availability guard,
    the label lookup, the relevance rule that swaps in an apology, and the
    decision to log a low-confidence query. The forward pass of the
    classifier is not modelled: its predicted class index and its maximum
    probability come in as an `Inference`. */
module Backend {
  import opened Wrappers

  /** The sentence `predict_symptom` returns in place of a label when the
      relevance rule fires. */
  const ApologyText := "I am sorry, I am not able to figure out " + "your query is it a medical related query?"
  const RelevanceThreshold: real := 0.6
  const UnknownLabel := "Unknown"
  const NonMedicalLabel := "Non-Medical"

  /** What the service loaded at start-up; each part may be missing. */
  datatype Artifacts = Artifacts(modelLoaded: bool, tokenizerLoaded: bool, labelMap: Option<map<int, string>>)

  /** What the classifier computed for the request text. */
  datatype Inference = Inference(predictedIndex: int, confidence: real)

  datatype SymptomResponse = SymptomResponse(normalizedSymptom: string, confidence: real)

  /** A line appended to the low-confidence log: the request text and the confidence. */
  datatype LogEntry = LogEntry(text: string, confidence: real)

  /** The HTTP outcome of one request, with the log line it writes, if any. */
  datatype Reply =
    | Ok(response: SymptomResponse, log: Option<LogEntry>)
    | HttpError(status: nat, detail: string)

  /** `label_map.get(index, "Unknown")`. */
  function LookupLabel(labelMap: map<int, string>, index: int): (name: string)
    ensures index in labelMap ==> name == labelMap[index]
    ensures index !in labelMap ==> name == UnknownLabel
  {
    if index in labelMap then labelMap[index] else UnknownLabel
  }

  /** The relevance rule: too unsure, or classified as small talk. */
  predicate NeedsApology(confidence: real, name: string) {
    confidence < RelevanceThreshold || name == NonMedicalLabel
  }

  /** `predict_symptom` once the request text is known and the classifier has run. */
  function Predict(art: Artifacts, text: string, inf: Inference): (r: Reply)
    ensures !(art.modelLoaded && art.tokenizerLoaded) ==> r == HttpError(503, "Model not loaded")
    ensures art.modelLoaded && art.tokenizerLoaded && art.labelMap.None? ==> r.HttpError? && r.status == 500
    ensures art.modelLoaded && art.tokenizerLoaded && art.labelMap.Some? ==> r.Ok?
    ensures r.Ok? ==> r.response.confidence == inf.confidence
    ensures r.Ok? ==> (r.log.Some? <==> inf.confidence < RelevanceThreshold)
    ensures r.Ok? && r.log.Some? ==> r.log.value == LogEntry(text, inf.confidence)
    ensures r.Ok? ==>
      var name := LookupLabel(art.labelMap.value, inf.predictedIndex);
      && (NeedsApology(inf.confidence, name) ==> r.response.normalizedSymptom == ApologyText)
      && (!NeedsApology(inf.confidence, name) ==> r.response.normalizedSymptom == name)
  {
    if !art.modelLoaded || !art.tokenizerLoaded then
      HttpError(503, "Model not loaded")
    else if art.labelMap.None? then
      // `None.get` raises, which the framework turns into a server error
      HttpError(500, "Internal Server Error")
    else
      var name := LookupLabel(art.labelMap.value, inf.predictedIndex);
      var symptom := if NeedsApology(inf.confidence, name) then ApologyText else name;
      var log := if inf.confidence < RelevanceThreshold then Some(LogEntry(text, inf.confidence)) else None;
      Ok(SymptomResponse(symptom, inf.confidence), log)
  }

  /** When no label is the apology sentence itself, the response is the
      apology exactly when the relevance rule fires. */
  lemma ApologyIff(art: Artifacts, text: string, inf: Inference)
    requires art.modelLoaded && art.tokenizerLoaded && art.labelMap.Some?
    requires forall k :: k in art.labelMap.value ==> art.labelMap.value[k] != ApologyText
    ensures var name := LookupLabel(art.labelMap.value, inf.predictedIndex);
      Predict(art, text, inf).response.normalizedSymptom == ApologyText <==> NeedsApology(inf.confidence, name)
  {
  }

  /** The threshold is strict: a confidence of exactly 0.6 on a medical label
      is answered with the label and not logged. */
  lemma ThresholdIsStrict(art: Artifacts, text: string, index: int)
    requires art.modelLoaded && art.tokenizerLoaded && art.labelMap.Some?
    requires LookupLabel(art.labelMap.value, index) != NonMedicalLabel
    ensures var r := Predict(art, text, Inference(index, 0.6));
      r.response.normalizedSymptom == LookupLabel(art.labelMap.value, index) && r.log == None
  {
  }

  /** A confident "Non-Medical" answer is an apology that is not logged. */
  lemma ConfidentSmallTalkNotLogged(art: Artifacts, text: string, inf: Inference)
    requires art.modelLoaded && art.tokenizerLoaded && art.labelMap.Some?
    requires LookupLabel(art.labelMap.value, inf.predictedIndex) == NonMedicalLabel
    requires inf.confidence >= RelevanceThreshold
    ensures Predict(art, text, inf) == Ok(SymptomResponse(ApologyText, inf.confidence), None)
  {
  }
}
