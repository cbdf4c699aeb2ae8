# Symptom normaliser: chat turn controller, prediction decision, corpus synthesis

The system is a small medical-symptom assistant. A React chat component sends
the user's free-text complaint to a FastAPI service. The service classifies it
with a fine-tuned DistilBERT model into a standard symptom name, or answers
with a fixed apology when the text is not a medical query. The model is
trained on a synthetic corpus: colloquial phrases put into sentence templates,
with typo and letter-case noise.

This Dafny project models three parts of that system and proves properties of
them:

- **`Chat`** (`chat.dfy`): the turn controller of `ChatInterface.jsx`. It holds
  the transcript, the draft and the `loading` flag. The submit half of
  `handleSend` appends the user's message and issues the request. The settle
  half appends the bot's reply: an apology, an "identified" message with a
  confidence badge, or the connection error. The input events (typing, the
  send button, Enter, a request settling) are modelled as a step function.
  The transcript invariant is proved to hold over any run of events: greeting
  first, strict alternation, and `loading` exactly while a reply is owed.
- **`Backend`** (`backend.dfy`): `predict_symptom`. It covers the availability
  guard, the label lookup with its `"Unknown"` default, and the relevance rule
  (confidence below 0.6, or the `"Non-Medical"` class). That rule swaps in the
  apology sentence and decides whether the query is logged.
- **`Dataset`** and **`Corpus`** (`dataset.dfy`, `corpus.dfy`): corpus
  synthesis in `generate_dataset.py`.
  - `Dataset` has `add_typo`, template formatting, case noise, one sample and
    the generation loop.
  - `Corpus` holds the constant `SYMPTOM_MAP` and `TEMPLATES` and runs the
    loop over them.
- **`Pipeline`** (`pipeline.dfy`): the two halves joined. A service reply
  becomes a chat outcome: any HTTP error rejects the request. The service's
  apology sentence opens with the words the front end tests for. With trained
  labels, the user sees an apology exactly when the relevance rule fires.

Supporting modules:

- `Wrappers` has `Option`.
- `Wire` has the apology marker `"I am sorry"`, which both halves rely on.
- `Text` covers JavaScript `trim` and Python `strip` with their own white-space
  sets, ASCII case mapping and `startsWith`.
- `Decimal` models `Number.prototype.toFixed(1)` on exact reals: round half
  up, with a `-` sign for negative values.

Time and randomness are parameters:

- `now` is what `Date.now()` returns.
- `stamp` is what `toLocaleTimeString` returns.
- Each `random.random()` result is a real coin in `Draws`.
- Each `random.choice` or `random.randint` result is the index drawn.
- `ValidDraws` states the ranges the generator guarantees.

The classifier's forward pass is not modelled: its predicted index and
maximum probability come in as an `Inference`.

## Model

| member | source | states |
|---|---|---|
| Chat.Init | frontend/src/components/ChatInterface.jsx:13-22 | A session starts with exactly one message, the greeting: id 1, the greeting text, from the bot, stamped with the current time, with no badge and no apology or error flag. The draft is empty and no request is in flight. That state satisfies the transcript invariant, and the send button is disabled. |
| Chat.BlankIff | frontend/src/components/ChatInterface.jsx:34 | `input.trim()` is empty exactly when every character of the draft is JavaScript white space or a line terminator. |
| Chat.Submit | frontend/src/components/ChatInterface.jsx:33-50 | A blank draft leaves the state unchanged and sends nothing. Otherwise exactly one user message is appended, holding the raw, untrimmed draft with id `now`, and no badge, apology or error flag. The draft is cleared, `loading` is set, and the text posted is that message's text. |
| Chat.Reply | frontend/src/components/ChatInterface.jsx:52-79 | The reply has id `now + 1`. On failure it is the fixed connection-error text, flagged as an error, with no badge. On an answer it is an apology iff the answer starts with "I am sorry"; an apology is shown verbatim without a badge. Any other answer is wrapped in the "I've identified this as: …" sentence, with a badge holding the symptom and the percentage. |
| Chat.FormatPct | frontend/src/components/ChatInterface.jsx:65 | The badge percentage is a one-decimal numeral as `toFixed(1)` writes it, with no leading zero before the point other than a lone `0`. |
| Chat.IdentifiedSymptom | frontend/src/components/ChatInterface.jsx:57 | A text recognised as an "identified" sentence really is prefix + symptom + suffix. |
| Chat.ReplyNamesSymptom | frontend/src/components/ChatInterface.jsx:53-58 | For any non-apology answer, the symptom can be recovered from the identified sentence. That sentence never itself begins with the apology marker. |
| Chat.Settle | frontend/src/components/ChatInterface.jsx:69-82 | Settling appends exactly the reply after every message already shown, keeps the draft and clears `loading`. |
| Chat.Step | frontend/src/components/ChatInterface.jsx:85-87 | While a request is in flight, typing, Enter and the button do nothing. A settlement with nothing in flight does nothing. No event changes or reorders earlier messages. |
| Chat.EnterIsClick | frontend/src/components/ChatInterface.jsx:85-87 | Pressing Enter has the same effect as the send button: the disabled text field blocks it while loading, and a blank draft returns early. |
| Chat.TurnAddsTwo | frontend/src/components/ChatInterface.jsx:36-82 | An enabled submit followed by its settlement, on either path, grows the transcript by exactly two and keeps the earlier messages. The new user message holds the draft. The draft is cleared and `loading` ends false. These hold for any clock readings. Only the id comparison needs a clock that does not run backwards: then the reply's id is greater than the user message's id. |
| Chat.ReplyConsistent | frontend/src/components/ChatInterface.jsx:60-78 | Every bot reply is consistent: only a classified answer carries a badge, and no reply is both an error and an apology. |
| Chat.UserAtOddPositions | frontend/src/components/ChatInterface.jsx:43 | In an alternating transcript, the user's messages are exactly those at odd positions. |
| Chat.LastUserIffEven | frontend/src/components/ChatInterface.jsx:69 | An alternating transcript ends with a user message exactly when its length is even. |
| Chat.LoadingIffEven | frontend/src/components/ChatInterface.jsx:45 | In a well-formed state a request is in flight exactly when the transcript has an even number of messages. |
| Chat.AppendKeepsWellFormed | frontend/src/components/ChatInterface.jsx:43-45 | Appending a consistent message from the party whose turn it is, while flipping `loading`, keeps the transcript invariant. |
| Chat.SubmitKeepsWellFormed | frontend/src/components/ChatInterface.jsx:33-45 | Submitting from an idle well-formed state keeps the invariant. |
| Chat.SettleKeepsWellFormed | frontend/src/components/ChatInterface.jsx:69-82 | Settling the request in flight keeps the invariant. |
| Chat.StepKeepsWellFormed | frontend/src/components/ChatInterface.jsx:227-231 | Every event keeps the invariant. |
| Chat.Run | frontend/src/components/ChatInterface.jsx:43 | Over any sequence of events, messages are only ever appended. |
| Chat.RunKeepsWellFormed | frontend/src/components/ChatInterface.jsx:33-87 | From any well-formed state, in particular the initial one, every run of events keeps the invariant. The greeting comes first and senders alternate, so each user message gets exactly one reply. At most one request is ever in flight. |
| Text.Strip | frontend/src/components/ChatInterface.jsx:34 | Trimming yields the infix of the string that neither starts nor ends with white space, with only white space outside it. |
| Text.StripEmptyIff | frontend/src/components/ChatInterface.jsx:231 | The trimmed string is empty exactly when the whole string is white space. |
| Text.StripUnchanged | backend/nlp/generate_dataset.py:162 | A string with no white space at either end is its own strip. |
| Text.Lower | backend/nlp/generate_dataset.py:184 | `lower()` maps each character to its lower-case form and keeps the length. |
| Text.Upper | backend/nlp/generate_dataset.py:186 | `upper()` maps each character to its upper-case form and keeps the length. |
| Text.UpperAbsorbsLower | backend/nlp/generate_dataset.py:183-186 | Upper-casing leaves no lower-case letter, and upper-casing after lower-casing equals upper-casing alone. |
| Decimal.NatToDecimal | frontend/src/components/ChatInterface.jsx:65 | The decimal numeral of a natural number is a digit string without a leading zero. |
| Decimal.DecimalRoundTrip | frontend/src/components/ChatInterface.jsx:65 | Reading back the numeral of `n` gives `n`. |
| Decimal.RoundTenths | frontend/src/components/ChatInterface.jsx:65 | The rounded count of tenths is the nearest integer to ten times the value, with ties rounded up. |
| Decimal.ToFixed1 | frontend/src/components/ChatInterface.jsx:65 | `toFixed(1)` gives an optional minus sign, digits without a leading zero (a lone `0` aside), a point and one digit. The minus sign appears exactly for negative values. |
| Decimal.UnsignedFixed1Value | frontend/src/components/ChatInterface.jsx:65 | For a non-negative value, the numeral reads back as its rounded count of tenths divided by ten, so the digits before the point and the one after encode that count. |
| Decimal.NegatedValue | frontend/src/components/ChatInterface.jsx:65 | A leading minus sign negates the value of the numeral. |
| Decimal.ToFixed1Nearest | frontend/src/components/ChatInterface.jsx:65 | The value shown is within 0.05 of the exact value, strictly so on the side the tie rule does not take. |
| Backend.LookupLabel | backend/app/main.py:101 | The label is the map's entry for the predicted index when the index is present, and "Unknown" otherwise. |
| Backend.Predict | backend/app/main.py:80-122 | Without the model or tokenizer the answer is 503 "Model not loaded", with no response and no log. Without a label map it is a server error. Otherwise it is a response carrying the computed confidence. The symptom is the apology sentence when the relevance rule fires and the label otherwise, "Unknown" included. A log entry (text, confidence) is written iff the confidence is below 0.6. |
| Backend.ApologyIff | backend/app/main.py:104-107 | When no label is the apology sentence, the response is the apology exactly when the relevance rule fires. |
| Backend.ThresholdIsStrict | backend/app/main.py:106 | A confidence of exactly 0.6 on a medical label returns the label and is not logged. |
| Backend.ConfidentSmallTalkNotLogged | backend/app/main.py:106-115 | A confident "Non-Medical" result is answered with the apology and is not logged. |
| Dataset.NoBraceNoField | backend/nlp/generate_dataset.py:177 | Text with neither `{` nor `}` holds no replacement field and no brace escape, and formatting leaves it unchanged. |
| Dataset.FieldFirst | backend/nlp/generate_dataset.py:112 | A template that starts with `{symptom}`, followed by text with neither `{` nor `}`, holds the field once, and formatting replaces just that occurrence. |
| Dataset.FieldOnce | backend/nlp/generate_dataset.py:111-144 | Every template (`{symptom}` with brace-free text on either side) holds `{symptom}` exactly once. Formatting it with `symptom=phrase` puts the phrase in that one place. |
| Dataset.LookupSound | backend/nlp/generate_dataset.py:171 | A lookup by key returns the phrases of an entry with that key. It fails only when no entry has the key. |
| Dataset.LookupFindsKey | backend/nlp/generate_dataset.py:171 | Looking up any entry's key succeeds. |
| Dataset.Labels | backend/nlp/generate_dataset.py:162 | The stripped key list has one label per key. |
| Dataset.LabelsAreKeys | backend/nlp/generate_dataset.py:162 | Stripping changes no key, so each label is the key at the same position. |
| Dataset.Keys | backend/nlp/generate_dataset.py:162 | The key list lists the keys in order. |
| Dataset.SymptomList | backend/nlp/generate_dataset.py:162 | The list the generator draws labels from is exactly the key list. |
| Dataset.AddTypo | backend/nlp/generate_dataset.py:146-158 | With a coin above 0.3, or a text shorter than four characters, the text is returned unchanged. Otherwise the characters at `idx` and `idx+1` are exchanged and every other position stays the same. |
| Dataset.AddTypoPermutes | backend/nlp/generate_dataset.py:151-158 | A typo keeps the multiset of characters. |
| Dataset.AddTypoUndo | backend/nlp/generate_dataset.py:155-156 | Repeating the same swap restores the original text. |
| Dataset.CaseNoise | backend/nlp/generate_dataset.py:182-186 | With the upper coin below 0.05 the text is all upper case, whatever the lower coin was. Otherwise it is lower-cased when the lower coin is below 0.1, and unchanged when neither coin fires. |
| Dataset.SampleSpec | backend/nlp/generate_dataset.py:166-191 | Drawing from the key list (the stripped keys, by `Dataset.SymptomList`), the phrase lookup succeeds. The row is the drawn key, and a text that is the chosen template, formatted with a phrase listed under that key, then passed through typo and case noise. |
| Dataset.SampleDefined | backend/nlp/generate_dataset.py:168-171 | Every sample drawn from the keys is produced and labelled with the drawn key. |
| Dataset.Generate | backend/nlp/generate_dataset.py:160-191 | The loop yields exactly `num_samples` rows (none for a negative count). Row `i` is the sample built from the `i`-th draws, and its label is a key of the table. |
| Corpus.GenerateDataset | backend/nlp/generate_dataset.py:9-191 | Run over the actual `SYMPTOM_MAP` and `TEMPLATES`, the generator yields `num_samples` rows, each labelled with a key of `SYMPTOM_MAP`. |
| Pipeline.Transmit | frontend/src/components/ChatInterface.jsx:47-70 | A 2xx body becomes an answer carrying the service's symptom and confidence. Any HTTP error becomes the failure path. |
| Pipeline.ApologyCarriesMarker | backend/app/main.py:107 | The service's apology sentence starts with "I am sorry", the words the front end tests for. |
| Pipeline.ApologyShownIff | backend/app/main.py:101-107 | With a label map of trained labels, the user sees an apology exactly when the relevance rule fires. The apology is shown verbatim with no badge; any other reply names the predicted label and carries a badge. |
| Pipeline.ServiceDownShowsConnectionError | backend/app/main.py:82-83 | When the model or tokenizer is missing, the user sees the connection-error message. |
| Pipeline.BadgeIsNearest | frontend/src/components/ChatInterface.jsx:65 | The badge shows the service's confidence as a percentage within 0.05 of the exact value. |

## Left out

- Rendering, animation, scrolling, the badge colour and the class-name helpers of `ChatInterface.jsx`, and `App.jsx`: these are presentation only.
- The HTTP transport and the FastAPI application with its start-up loading of artifacts: these are network and file I/O. What was loaded is the input `Artifacts`, and the request's outcome is `Pipeline.Transmit` of the service's reply.
- Tokenisation, the DistilBERT forward pass, softmax and argmax: these are foreign numeric libraries. The predicted index and confidence are the input `Inference`.
- `train_model.py`, `verify_backend.py` and `test_robustness.py`: training library calls, and scripts against a live server.
- The data frame, the shuffle and the CSV output of `generate_dataset`: library calls and file I/O. `Dataset.Generate` produces the rows in generation order.
- Backend.Predict: the log is the entry (text, confidence), not the line `f"{text} | {confidence}\n"`. Python's float `repr` is not modelled, and neither is the file append with its swallowed exception.
- Chat.FormatPct: confidences are exact reals, not IEEE doubles. The multiplication by 100 is exact, and `toFixed` for values of 1e21 or more and for NaN is not modelled.
- Text.Lower: maps ASCII letters only; every constant of the corpus is ASCII.
- Text.Upper: maps ASCII letters only, for the same reason.
- Dataset.Lookup: returns the first entry with the key. A Python dict keeps the last entry for a duplicated key, and the model does not prove `SYMPTOM_MAP`'s keys distinct.
- Corpus.GenerateDataset: does not prove that every phrase list is non-empty. The draws' validity requires a phrase index in range, which an empty list cannot meet.
- The default `num_samples=20000`, the progress `print` calls of `generate_dataset` and the `console.error` in the request's `catch`: a default argument and console output, with no effect on the rows or the transcript.
- `Date.now()` and `toLocaleTimeString` are parameters. Whether ids stay unique across turns depends on the clock and is not stated.
