/** The two halves joined: what the service answers to a request, carried
    over HTTP to the chat controller, and the bot message the user sees. The
    front end treats any error status as a failed request, and it recognises
    an apology only by its opening words, so these lemmas check that the
    service's apology sentence carries them and that no trained label does. */
module Pipeline {
  import opened Wrappers
  import opened Text
  import Wire
  import Backend
  import Chat
  import Decimal
  import Dataset

  /** The result of `axios.post` as the controller sees it: a 2xx body is an
      answer, any error status rejects the promise. */
  function Transmit(r: Backend.Reply): (o: Chat.Outcome)
    ensures o.Failure? <==> r.HttpError?
    ensures o.Answer? ==>
      o.normalizedSymptom == r.response.normalizedSymptom && o.confidence == r.response.confidence
  {
    match r
    case Ok(response, _) => Chat.Answer(response.normalizedSymptom, response.confidence)
    case HttpError(_, _) => Chat.Failure
  }

  /** The bot message the user sees for one request, given what the service
      loaded and what the classifier computed. */
  function Answer(art: Backend.Artifacts, text: string, inf: Backend.Inference, now: int, stamp: string): Chat.Message {
    Chat.Reply(Transmit(Backend.Predict(art, text, inf)), now, stamp)
  }

  /** The service's apology sentence opens with the words the front end
      looks for. */
  lemma ApologyCarriesMarker()
    ensures StartsWith(Backend.ApologyText, Wire.ApologyMarker)
  {
    assert forall i :: 0 <= i < |Wire.ApologyMarker| ==> Backend.ApologyText[i] == Wire.ApologyMarker[i];
  }

  /** Labels the generator can emit never open with the apology words. */
  predicate LabelsOnly(labelMap: map<int, string>) {
    forall k :: k in labelMap ==> Dataset.IsLabel(labelMap[k])
  }

  /** With a label map of trained labels, the user sees an apology exactly
      when the relevance rule fires; the apology is shown verbatim and
      without a badge, and any other reply names the predicted label. */
  lemma ApologyShownIff(art: Backend.Artifacts, text: string, inf: Backend.Inference, now: int, stamp: string)
    requires art.modelLoaded && art.tokenizerLoaded && art.labelMap.Some?
    requires LabelsOnly(art.labelMap.value)
    ensures var name := Backend.LookupLabel(art.labelMap.value, inf.predictedIndex);
      var m := Answer(art, text, inf, now, stamp);
      && (m.isApology <==> Backend.NeedsApology(inf.confidence, name))
      && (m.isApology ==> m.text == Backend.ApologyText && m.details == None)
      && (!m.isApology ==> Chat.IdentifiedSymptom(m.text) == Some(name) && m.details.Some?)
  {
    var lm := art.labelMap.value;
    var name := Backend.LookupLabel(lm, inf.predictedIndex);
    ApologyCarriesMarker();
    if !Backend.NeedsApology(inf.confidence, name) {
      assert !StartsWith(name, Wire.ApologyMarker) by {
        if inf.predictedIndex in lm {
          assert Dataset.IsLabel(lm[inf.predictedIndex]);
        } else {
          assert name == Backend.UnknownLabel;
          assert name[0] != Wire.ApologyMarker[0];
        }
      }
      Chat.ReplyNamesSymptom(name, inf.confidence, now, stamp);
    }
  }

  /** When the model or tokenizer is missing the user sees the connection
      error, whatever was asked. */
  lemma ServiceDownShowsConnectionError(art: Backend.Artifacts, text: string, inf: Backend.Inference, now: int, stamp: string)
    requires !(art.modelLoaded && art.tokenizerLoaded)
    ensures var m := Answer(art, text, inf, now, stamp);
      m.text == Chat.ConnectionErrorText && m.isError && !m.isApology && m.details == None
  {
  }

  /** The badge shows the service's confidence as a percentage with one
      decimal, within 0.05 of the exact value. */
  lemma BadgeIsNearest(art: Backend.Artifacts, text: string, inf: Backend.Inference, now: int, stamp: string)
    ensures var m := Answer(art, text, inf, now, stamp);
      m.details.Some? ==>
        && Decimal.IsFixed1(m.details.value.confidence)
        && inf.confidence * 100.0 - 0.05 <= Decimal.Fixed1Value(m.details.value.confidence) <= inf.confidence * 100.0 + 0.05
  {
    Decimal.ToFixed1Nearest(inf.confidence * 100.0);
  }
}
