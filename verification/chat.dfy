/** The chat turn controller of the front end: the transcript, the draft
    input and the loading flag, and the transitions `handleSend` performs
    (submit, then settle with the service's answer or a failure). Time is an
    explicit parameter: `now` is the value `Date.now()` returns and `stamp`
    the string `toLocaleTimeString` returns at that moment. */
module Chat {
  import opened Wrappers
  import opened Text
  import Decimal
  import Wire

  datatype Sender = User | Bot

  /** The confidence badge of a classified answer. */
  datatype Details = Details(symptom: string, confidence: string)

  /** One transcript entry. Fields the source leaves out of a message object
      (`details`, `isApology`, `isError`) are `None` and `false` here, which
      is how the view reads an absent field. */
  datatype Message = Message(
    id: int,
    text: string,
    sender: Sender,
    timestamp: string,
    details: Option<Details>,
    isApology: bool,
    isError: bool)

  datatype ChatState = ChatState(messages: seq<Message>, input: string, loading: bool)

  /** How the request to the classification service settled. */
  datatype Outcome =
    | Answer(normalizedSymptom: string, confidence: real)
    | Failure

  const GreetingText := "Hello. I'm your Medical Assistant. Please describe your symptoms in detail so I can help you."
  const IdentifiedPrefix := "I've identified this as: "
  const IdentifiedSuffix := ". Please consult a doctor for confirmation."
  const ConnectionErrorText := "Sorry, connection issue. Please try again."

  /** The state a session starts in: only the greeting, no draft, idle. */
  function Init(stamp: string): (st: ChatState)
    ensures WellFormed(st)
    ensures st.messages == [Message(1, GreetingText, Bot, stamp, None, false, false)]
    ensures st.input == "" && !st.loading
    ensures !CanSend(st)
  {
    assert JsTrim("") == "";
    ChatState([Message(1, GreetingText, Bot, stamp, None, false, false)], "", false)
  }

  /** The send button is enabled: nothing is in flight and the draft is not
      blank. The text field itself is disabled exactly while `loading`. */
  predicate CanSend(st: ChatState) {
    !st.loading && JsTrim(st.input) != ""
  }

  /** Every character is white space or a line terminator. */
  predicate Blank(s: string) {
    forall i :: 0 <= i < |s| ==> IsJsSpace(s[i])
  }

  /** A draft is blank when `trim()` leaves nothing, that is when every
      character is white space. */
  lemma BlankIff(s: string)
    ensures JsTrim(s) == "" <==> Blank(s)
  {
    StripEmptyIff(s, IsJsSpace);
  }

  /** The state after the synchronous half of `handleSend`, and the text it
      posts to the service (`None` when it returns early). */
  datatype Submission = Submission(state: ChatState, request: Option<string>)

  /** The synchronous half of `handleSend`. It does not look at `loading`. */
  function Submit(st: ChatState, now: int, stamp: string): (r: Submission)
    ensures JsTrim(st.input) == "" ==> r.state == st && r.request == None
    ensures JsTrim(st.input) != "" ==>
      && |r.state.messages| == |st.messages| + 1
      && r.state.messages[..|st.messages|] == st.messages
      && var m := r.state.messages[|st.messages|];
      && m.sender == User && m.text == st.input && m.id == now && m.timestamp == stamp
      && m.details == None && !m.isApology && !m.isError
      && r.state.input == "" && r.state.loading
      && r.request == Some(m.text)
  {
    if JsTrim(st.input) == "" then
      Submission(st, None)
    else
      var user := Message(now, st.input, User, stamp, None, false, false);
      Submission(ChatState(st.messages + [user], "", true), Some(user.text))
  }

  /** `(confidence * 100).toFixed(1)`. */
  function FormatPct(confidence: real): (s: string)
    ensures Decimal.IsFixed1(s)
  {
    Decimal.ToFixed1(confidence * 100.0)
  }

  /** The bot message built from how the request settled; `now` is the clock
      reading after the request settled. */
  function Reply(outcome: Outcome, now: int, stamp: string): (m: Message)
    ensures m.sender == Bot && m.id == now + 1 && m.timestamp == stamp
    ensures outcome.Failure? ==>
      m.text == ConnectionErrorText && m.isError && m.details == None && !m.isApology
    ensures outcome.Answer? ==>
      && !m.isError
      && (m.isApology <==> StartsWith(outcome.normalizedSymptom, Wire.ApologyMarker))
      && (m.isApology <==> m.details == None)
    ensures outcome.Answer? && m.isApology ==> m.text == outcome.normalizedSymptom
    ensures outcome.Answer? && !m.isApology ==>
      && m.text == IdentifiedPrefix + outcome.normalizedSymptom + IdentifiedSuffix
      && m.details == Some(Details(outcome.normalizedSymptom, FormatPct(outcome.confidence)))
  {
    match outcome
    case Failure =>
      Message(now + 1, ConnectionErrorText, Bot, stamp, None, false, true)
    case Answer(symptom, confidence) =>
      var isApology := StartsWith(symptom, Wire.ApologyMarker);
      var text := if isApology then symptom else IdentifiedPrefix + symptom + IdentifiedSuffix;
      var details := if isApology then None else Some(Details(symptom, FormatPct(confidence)));
      Message(now + 1, text, Bot, stamp, details, isApology, false)
  }

  /** The symptom named in an "identified" reply text, if the text has that form. */
  function IdentifiedSymptom(text: string): (r: Option<string>)
    ensures r.Some? ==> text == IdentifiedPrefix + r.value + IdentifiedSuffix
  {
    if StartsWith(text, IdentifiedPrefix) && |text| >= |IdentifiedPrefix| + |IdentifiedSuffix|
      && text[|text| - |IdentifiedSuffix|..] == IdentifiedSuffix
    then
      var r := text[|IdentifiedPrefix|..|text| - |IdentifiedSuffix|];
      assert text == text[..|IdentifiedPrefix|] + r + text[|text| - |IdentifiedSuffix|..];
      Some(r)
    else None
  }

  /** A classified reply names its symptom recoverably, and its text can never
      be mistaken for an apology. */
  lemma ReplyNamesSymptom(symptom: string, confidence: real, now: int, stamp: string)
    requires !StartsWith(symptom, Wire.ApologyMarker)
    ensures IdentifiedSymptom(Reply(Answer(symptom, confidence), now, stamp).text) == Some(symptom)
    ensures !StartsWith(Reply(Answer(symptom, confidence), now, stamp).text, Wire.ApologyMarker)
  {
    var t := IdentifiedPrefix + symptom + IdentifiedSuffix;
    assert t[..|IdentifiedPrefix|] == IdentifiedPrefix;
    assert t[|t| - |IdentifiedSuffix|..] == IdentifiedSuffix;
    assert t[|IdentifiedPrefix|..|t| - |IdentifiedSuffix|] == symptom;
    assert t[2] != Wire.ApologyMarker[2];
  }

  /** The asynchronous half of `handleSend`, run in `finally`: one reply is
      appended after everything already shown, and `loading` is cleared. */
  function Settle(st: ChatState, outcome: Outcome, now: int, stamp: string): (r: ChatState)
    ensures |r.messages| == |st.messages| + 1
    ensures r.messages[..|st.messages|] == st.messages
    ensures r.messages[|st.messages|] == Reply(outcome, now, stamp)
    ensures r.input == st.input && !r.loading
  {
    st.(messages := st.messages + [Reply(outcome, now, stamp)], loading := false)
  }

  /** What the view guarantees of each message: only classified answers carry
      a badge, and a user message is never blank. */
  predicate Consistent(m: Message) {
    && (m.details.Some? ==> m.sender == Bot && !m.isError && !m.isApology)
    && (m.sender == User ==> !Blank(m.text) && !m.isApology && !m.isError)
    && !(m.isError && m.isApology)
  }

  predicate AllConsistent(ms: seq<Message>) {
    forall i :: 0 <= i < |ms| ==> Consistent(ms[i])
  }

  /** The transcript opens with a bot message and the senders alternate. */
  predicate Alternates(ms: seq<Message>) {
    && |ms| >= 1
    && ms[0].sender == Bot
    && forall i :: 1 <= i < |ms| ==> ms[i].sender != ms[i - 1].sender
  }

  /** The transcript invariant: the greeting, then user and bot messages
      alternating, with an unanswered user message at the end exactly while
      a request is in flight. */
  predicate WellFormed(st: ChatState) {
    && Alternates(st.messages)
    && (st.loading <==> st.messages[|st.messages| - 1].sender == User)
    && AllConsistent(st.messages)
  }

  /** In an alternating transcript the user wrote exactly the messages at odd
      positions (up to position `n`). */
  lemma {:induction false} UserAtOddPositions(ms: seq<Message>, n: nat)
    requires Alternates(ms)
    requires n < |ms|
    ensures forall i :: 0 <= i <= n ==> (ms[i].sender == User <==> i % 2 == 1)
  {
    if n > 0 {
      UserAtOddPositions(ms, n - 1);
      assert ms[n].sender != ms[n - 1].sender;
      assert (n - 1) % 2 == 1 <==> n % 2 == 0;
    }
  }

  /** While loading, the transcript has an even number of messages. */
  lemma LoadingIffEven(st: ChatState)
    requires WellFormed(st)
    ensures st.loading <==> |st.messages| % 2 == 0
  {
    LastUserIffEven(st.messages);
  }

  /** An alternating transcript ends with a user message exactly when it
      has an even number of messages. */
  lemma LastUserIffEven(ms: seq<Message>)
    requires Alternates(ms)
    ensures ms[|ms| - 1].sender == User <==> |ms| % 2 == 0
  {
    var n := |ms| - 1;
    UserAtOddPositions(ms, n);
    assert ms[n].sender == User <==> n % 2 == 1;
  }

  /** What the user and the network can do to the component. */
  datatype Event =
    | Type(text: string)                               // typing in the text field
    | Click(now: int, stamp: string)                   // the send button
    | Enter(now: int, stamp: string)                   // the Enter key in the text field
    | Settled(outcome: Outcome, now: int, stamp: string) // the request in flight settles

  /** One event. The text field is disabled while `loading`, so typing and
      Enter do nothing then; the button is disabled unless `CanSend`; only a
      request in flight can settle. */
  function Step(st: ChatState, e: Event): (r: ChatState)
    ensures st.loading && !e.Settled? ==> r == st
    ensures !st.loading && e.Settled? ==> r == st
    ensures |st.messages| <= |r.messages| && r.messages[..|st.messages|] == st.messages
  {
    match e
    case Type(text) => if st.loading then st else st.(input := text)
    case Click(now, stamp) => if CanSend(st) then Submit(st, now, stamp).state else st
    case Enter(now, stamp) => if st.loading then st else Submit(st, now, stamp).state
    case Settled(outcome, now, stamp) => if st.loading then Settle(st, outcome, now, stamp) else st
  }

  /** Pressing Enter and clicking the button have the same effect. */
  lemma EnterIsClick(st: ChatState, now: int, stamp: string)
    ensures Step(st, Enter(now, stamp)) == Step(st, Click(now, stamp))
  {
  }

  /** A submit followed by its settlement adds exactly the user message and
      one reply, leaves the earlier transcript alone and ends idle; under a
      clock that does not run backwards the reply's id exceeds the user's. */
  lemma TurnAddsTwo(st: ChatState, now1: int, stamp1: string, outcome: Outcome, now2: int, stamp2: string)
    requires CanSend(st)
    ensures var s1 := Step(st, Click(now1, stamp1));
      var s2 := Step(s1, Settled(outcome, now2, stamp2));
      && |s2.messages| == |st.messages| + 2
      && s2.messages[..|st.messages|] == st.messages
      && s2.messages[|st.messages|].sender == User
      && s2.messages[|st.messages|].text == st.input
      && s2.messages[|st.messages| + 1] == Reply(outcome, now2, stamp2)
      && (now1 <= now2 ==> s2.messages[|st.messages|].id < s2.messages[|st.messages| + 1].id)
      && s2.input == "" && !s2.loading
  {
    var s1 := Step(st, Click(now1, stamp1));
    var s2 := Step(s1, Settled(outcome, now2, stamp2));
    assert s2.messages[..|s1.messages|] == s1.messages;
    assert s2.messages[..|st.messages|] == s1.messages[..|st.messages|];
  }

  lemma ReplyConsistent(outcome: Outcome, now: int, stamp: string)
    ensures Consistent(Reply(outcome, now, stamp))
  {
  }

  /** A message from the other party keeps the senders alternating. */
  lemma AppendAlternates(ms: seq<Message>, m: Message)
    requires Alternates(ms)
    requires m.sender != ms[|ms| - 1].sender
    ensures Alternates(ms + [m])
  {
    var r := ms + [m];
    forall i | 1 <= i < |r|
      ensures r[i].sender != r[i - 1].sender
    {
      if i < |ms| { assert r[i] == ms[i] && r[i - 1] == ms[i - 1]; }
    }
  }

  /** A consistent message keeps every message consistent. */
  lemma AppendConsistent(ms: seq<Message>, m: Message)
    requires AllConsistent(ms)
    requires Consistent(m)
    ensures AllConsistent(ms + [m])
  {
    var r := ms + [m];
    forall i | 0 <= i < |r|
      ensures Consistent(r[i])
    {
      if i < |ms| { assert r[i] == ms[i]; }
    }
  }

  /** Appending a consistent message of the right sender, with `loading`
      flipped accordingly, keeps the transcript invariant. */
  lemma AppendKeepsWellFormed(st: ChatState, m: Message, r: ChatState)
    requires WellFormed(st)
    requires Consistent(m)
    requires r.messages == st.messages + [m]
    requires m.sender == User <==> !st.loading
    requires r.loading == !st.loading
    ensures WellFormed(r)
  {
    AppendAlternates(st.messages, m);
    AppendConsistent(st.messages, m);
    assert r.messages[|r.messages| - 1] == m;
  }

  lemma SubmitKeepsWellFormed(st: ChatState, now: int, stamp: string)
    requires WellFormed(st) && !st.loading
    ensures WellFormed(Submit(st, now, stamp).state)
  {
    var r := Submit(st, now, stamp).state;
    if JsTrim(st.input) != "" {
      BlankIff(st.input);
      AppendKeepsWellFormed(st, Message(now, st.input, User, stamp, None, false, false), r);
    }
  }

  lemma SettleKeepsWellFormed(st: ChatState, outcome: Outcome, now: int, stamp: string)
    requires WellFormed(st) && st.loading
    ensures WellFormed(Settle(st, outcome, now, stamp))
  {
    ReplyConsistent(outcome, now, stamp);
    AppendKeepsWellFormed(st, Reply(outcome, now, stamp), Settle(st, outcome, now, stamp));
  }

  /** Every event keeps the transcript invariant. */
  lemma StepKeepsWellFormed(st: ChatState, e: Event)
    requires WellFormed(st)
    ensures WellFormed(Step(st, e))
  {
    match e
    case Type(_) =>
    case Click(now, stamp) => if CanSend(st) { SubmitKeepsWellFormed(st, now, stamp); }
    case Enter(now, stamp) => if !st.loading { SubmitKeepsWellFormed(st, now, stamp); }
    case Settled(o, now, stamp) => if st.loading { SettleKeepsWellFormed(st, o, now, stamp); }
  }

  /** The state after a sequence of events. */
  function Run(st: ChatState, events: seq<Event>): (r: ChatState)
    ensures |st.messages| <= |r.messages| && r.messages[..|st.messages|] == st.messages
    decreases |events|
  {
    if events == [] then st else Run(Step(st, events[0]), events[1..])
  }

  /** From the initial state, whatever the user does and however requests
      settle, the transcript invariant holds: every user message is followed
      by exactly one reply, and at most one request is ever in flight. */
  lemma {:induction false} RunKeepsWellFormed(st: ChatState, events: seq<Event>)
    requires WellFormed(st)
    ensures WellFormed(Run(st, events))
    decreases |events|
  {
    if events != [] {
      StepKeepsWellFormed(st, events[0]);
      RunKeepsWellFormed(Step(st, events[0]), events[1..]);
    }
  }
}
