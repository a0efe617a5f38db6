/**
 * The AI trade assistant chat (`AITradeAssistant`): a four-step conversation that
 * collects a trade direction, an instrument and a setup description, then hands the
 * collected context to an external trade validator and turns its reply into a chat
 * message and a draft trade-journal entry.
 *
 * One press of "send" is the pure step `Send`. React defers state updates, so
 * everything computed during a send after its first `set...` call still reads the
 * state from BEFORE the send; `Send` reproduces that by reading `st` (never the
 * updated state) when it builds the validator prompt and the draft entry.
 * The validator is not modelled: its reply is an input of `Send`.
 */
module TradeAssistant {
  import opened Wrappers
  import opened Text
  import Seqs

  datatype Step = Initial | AwaitingDirection | AwaitingDetails | AnalysisComplete

  /** Position of a step in the fixed order of the conversation. */
  function Rank(s: Step): nat {
    match s
    case Initial => 0
    case AwaitingDirection => 1
    case AwaitingDetails => 2
    case AnalysisComplete => 3
  }

  datatype Direction = Buy | Sell

  function DirectionName(d: Direction): string {
    match d
    case Buy => "buy"
    case Sell => "sell"
  }

  datatype Role = User | Model

  /** The fixed replies of the assistant; `PromptText` gives their wording. */
  datatype Prompt = Greeting | AskPair(direction: Direction) | Reprompt | AskSetup(pair: string)

  /** A message body: free text (typed by the user or returned by the validator) or a fixed reply. */
  datatype Content = Said(text: string) | Canned(prompt: Prompt)

  datatype ChatMessage = ChatMessage(role: Role, content: Content, timestamp: int)
  {
    /** The text the chat shows for this message. */
    function Text(): string {
      match content
      case Said(text) => text
      case Canned(p) => PromptText(p)
    }
  }

  /** What the conversation has gathered so far; each field is absent until its step. */
  datatype TradeContext = TradeContext(direction: Option<Direction>, pair: Option<string>, details: Option<string>)

  const EmptyContext := TradeContext(None, None, None)

  /** The trade-validation status of a journal entry. */
  datatype Verdict = Approved | Rejected | Warning

  datatype TradeRule = TradeRule(id: string, text: string, kind: string, required: bool)

  /** The draft journal entry offered after an analysis; it is not persisted here. */
  datatype DraftEntry = DraftEntry(
    notes: string,
    validationResult: Verdict,
    direction: Direction,
    screenshotUrl: Option<string>,
    date: int)

  /**
   * The shapes the validator may resolve with: a string, an object with both
   * `verdict` and `explanation` keys, any other object (given by its full JSON
   * text), or any other value (given by its `String(...)` text).
   */
  datatype ValidatorResponse =
    | TextReply(text: string)
    | VerdictObject(verdict: string, explanation: string)
    | OtherObject(json: string)
    | OtherValue(shown: string)

  /** The arguments of one validator call. */
  datatype ValidatorRequest = ValidatorRequest(tradeDetails: string, activeRules: seq<string>, image: Option<string>)

  /**
   * The component state. `inputText` is the text box and `selectedImage` the
   * attached chart as a data URL, with "" for none (the source tests both for
   * truthiness only).
   */
  datatype ChatState = ChatState(
    messages: seq<ChatMessage>,
    inputText: string,
    selectedImage: string,
    step: Step,
    context: TradeContext,
    lastAnalyzedTrade: Option<DraftEntry>,
    isAnalyzing: bool)

  /** The state after a send, and the validator call the send made, if any. */
  datatype SendResult = SendResult(state: ChatState, request: Option<ValidatorRequest>)

  const GreetingText := "Hello! I am your AI Risk Manager. Tell me about the trade you want to take. Is it a Buy or Sell?"
  const BuyPromptText := "Great! You want to take a Buy position. What currency pair or asset are you looking at? (e.g., EURUSD, XAUUSD, BTCUSD)"
  const SellPromptText := "Great! You want to take a Sell position. What currency pair or asset are you looking at? (e.g., EURUSD, XAUUSD, BTCUSD)"
  const RepromptText := "I didn't catch that. Are you looking to take a Buy or Sell position?"
  const NotSpecified := "Not specified"
  const DirectionLabel := "\nTrade Direction: "
  const PairLabel := "\nAsset/Pair: "
  const DetailsLabel := "\nUser Details: "
  const DetailsEnd := "\n    "
  const NotesLabel := "AI Analysis Request: "

  const PairPromptLead := "Thanks! I see you're looking at "
  const PairPromptTail :=
    ". Now, please describe your trade setup. Include details like:\n"
    + "- Entry point\n- Stop loss level\n- Take profit level\n- Why you're taking this trade\n"
    + "- Any chart patterns or indicators you're using\n\n"
    + "You can also upload a screenshot of your chart for visual analysis."

  /** The exact wording of each fixed reply; the reply to the pair quotes the pair back. */
  function PromptText(p: Prompt): string {
    match p
    case Greeting => GreetingText
    case AskPair(Buy) => BuyPromptText
    case AskPair(Sell) => SellPromptText
    case Reprompt => RepromptText
    case AskSetup(pair) => PairPromptLead + pair + PairPromptTail
  }

  /** A fresh conversation: the greeting only, nothing gathered, no image. */
  function InitialState(now: int): ChatState {
    ChatState([ChatMessage(Model, Canned(Greeting), now)], "", "", Initial, EmptyContext, None, false)
  }

  /** `value || fallback` for an optional string: absent and empty both give the fallback. */
  function OrElse(o: Option<string>, fallback: string): (r: string)
    ensures o.Some? && o.value != "" ==> r == o.value
    ensures o.None? || o.value == "" ==> r == fallback
  {
    if o.Some? && o.value != "" then o.value else fallback
  }

  /** `selectedImage || undefined`. */
  function ImageOf(image: string): (r: Option<string>)
    ensures r.None? <==> image == ""
    ensures r.Some? ==> r.value == image
  {
    if image == "" then None else Some(image)
  }

  /** A send does anything only when the text is not blank or an image is attached. */
  predicate Sendable(st: ChatState) {
    !IsBlank(st.inputText) || st.selectedImage != ""
  }

  /** The direction keywords of the first step, buy/long tested before sell/short. */
  function DirectionIn(input: string): (r: Option<Direction>)
    ensures r == Some(Buy) <==> Includes(ToLower(input), "buy") || Includes(ToLower(input), "long")
    ensures r == Some(Sell) <==>
      !Includes(ToLower(input), "buy") && !Includes(ToLower(input), "long")
      && (Includes(ToLower(input), "sell") || Includes(ToLower(input), "short"))
  {
    var lower := ToLower(input);
    if Includes(lower, "buy") || Includes(lower, "long") then Some(Buy)
    else if Includes(lower, "sell") || Includes(lower, "short") then Some(Sell)
    else None
  }

  /**
   * The prompt sent to the validator. It is built from the context as it was before
   * this send, so the details line falls back to the raw current input whenever no
   * non-empty details had been stored by an earlier send.
   */
  function TradeDetails(prior: TradeContext, input: string): string {
    DirectionLabel + (if prior.direction.Some? then DirectionName(prior.direction.value) else NotSpecified)
    + PairLabel + OrElse(prior.pair, NotSpecified)
    + DetailsLabel + OrElse(prior.details, input)
    + DetailsEnd
  }

  // ---------------------------------------------------------------------------
  // The validator's reply: stored text, verdict heuristic, structured rendering
  // ---------------------------------------------------------------------------

  const VerdictOpen := "{\"verdict\":\""
  const VerdictMiddle := "\",\"explanation\":\""
  const VerdictClose := "\"}"

  /** `JSON.stringify({verdict, explanation})`, string escaping left out. */
  function SerializeVerdict(verdict: string, explanation: string): string {
    VerdictOpen + verdict + VerdictMiddle + explanation + VerdictClose
  }

  /** The text stored in the chat for a validator reply. */
  function ResponseText(resp: ValidatorResponse): (text: string)
    ensures resp.TextReply? ==> text == resp.text
    ensures resp.VerdictObject? ==> text == SerializeVerdict(resp.verdict, resp.explanation)
    ensures resp.OtherObject? ==> text == resp.json
    ensures resp.OtherValue? ==> text == resp.shown
  {
    match resp
    case TextReply(s) => s
    case VerdictObject(v, e) => SerializeVerdict(v, e)
    case OtherObject(json) => json
    case OtherValue(shown) => shown
  }

  /** The keyword heuristic that tags the draft entry, independent of any structured verdict. */
  function Classify(text: string): (v: Verdict)
    ensures v == Approved <==> Includes(ToLower(text), "approved")
    ensures v == Rejected <==> !Includes(ToLower(text), "approved") && Includes(ToLower(text), "rejected")
    ensures v == Warning <==> !Includes(ToLower(text), "approved") && !Includes(ToLower(text), "rejected")
  {
    var lower := ToLower(text);
    if Includes(lower, "approved") then Approved
    else if Includes(lower, "rejected") then Rejected
    else Warning
  }

  /**
   * Recognises the serialised verdict object: the verdict runs up to the first quote
   * after the opening, and the explanation holds no quote.
   */
  function DecodeVerdict(text: string): Option<(string, string)> {
    if !StartsWith(text, VerdictOpen) then None
    else
      var rest := text[|VerdictOpen|..];
      match IndexOf(rest, "\"")
      case None => None
      case Some(i) =>
        var after := rest[i..];
        if !StartsWith(after, VerdictMiddle) then None
        else
          var tail := after[|VerdictMiddle|..];
          if |tail| < |VerdictClose| || tail[|tail| - |VerdictClose|..] != VerdictClose then None
          else
            var explanation := tail[..|tail| - |VerdictClose|];
            if '"' in explanation then None else Some((rest[..i], explanation))
  }

  /** The first quote of `v + tail` is right after `v` when `v` has none. */
  lemma FirstQuoteAfter(v: string, tail: string)
    requires '"' !in v
    requires |tail| > 0 && tail[0] == '"'
    ensures IndexOf(v + tail, "\"") == Some(|v|)
  {
    var s := v + tail;
    assert MatchAt(s, "\"", |v|) by {
      assert s[|v|..|v| + 1] == [tail[0]];
    }
    assert Includes(s, "\"");
    forall j | 0 <= j < |v| ensures !MatchAt(s, "\"", j) {
      assert s[j..j + 1] == [v[j]];
    }
  }

  /** Decoding a serialised verdict gives back both fields, when neither holds a quote. */
  lemma DecodeSerialize(verdict: string, explanation: string)
    requires '"' !in verdict && '"' !in explanation
    ensures DecodeVerdict(SerializeVerdict(verdict, explanation)) == Some((verdict, explanation))
  {
    var text := SerializeVerdict(verdict, explanation);
    var after := VerdictMiddle + (explanation + VerdictClose);
    SerializeNested(verdict, explanation);
    assert StartsWith(text, VerdictOpen) by {
      assert text[..|VerdictOpen|] == VerdictOpen;
    }
    var rest := text[|VerdictOpen|..];
    assert rest == verdict + after;
    FirstQuoteAfter(verdict, after);
    assert after == rest[|verdict|..];
    assert StartsWith(after, VerdictMiddle) by {
      assert after[..|VerdictMiddle|] == VerdictMiddle;
    }
    var tail := after[|VerdictMiddle|..];
    assert tail == explanation + VerdictClose;
    assert tail[|tail| - |VerdictClose|..] == VerdictClose;
    assert tail[..|tail| - |VerdictClose|] == explanation;
    assert rest[..|verdict|] == verdict;
  }

  /** Only serialised verdicts decode: decoding is exact. */
  lemma DecodeOnlySerialized(text: string)
    requires DecodeVerdict(text).Some?
    ensures SerializeVerdict(DecodeVerdict(text).value.0, DecodeVerdict(text).value.1) == text
    ensures '"' !in DecodeVerdict(text).value.0 && '"' !in DecodeVerdict(text).value.1
  {
    var rest := text[|VerdictOpen|..];
    var i := IndexOf(rest, "\"").value;
    var after := rest[i..];
    var tail := after[|VerdictMiddle|..];
    var explanation := tail[..|tail| - |VerdictClose|];
    var verdict := rest[..i];
    assert text == SerializeVerdict(verdict, explanation) by {
      assert tail == explanation + VerdictClose;
      assert after == VerdictMiddle + tail;
      assert rest == verdict + after;
      assert text == VerdictOpen + rest;
      SerializeNested(verdict, explanation);
    }
    QuoteFreeBefore(rest, i);
  }

  /** The serialised object as its opening followed by the rest, piece by piece. */
  lemma SerializeNested(verdict: string, explanation: string)
    ensures SerializeVerdict(verdict, explanation)
         == VerdictOpen + (verdict + (VerdictMiddle + (explanation + VerdictClose)))
  {
  }

  /** Everything before the first quote is quote-free. */
  lemma QuoteFreeBefore(s: string, i: nat)
    requires IndexOf(s, "\"") == Some(i)
    ensures '"' !in s[..i]
  {
    forall j | 0 <= j < i ensures s[j] != '"' {
      assert !MatchAt(s, "\"", j);
      assert s[j..j + 1] == [s[j]];
    }
  }

  /** How the chat shows a message: as a verdict badge with its explanation, or as plain text. */
  datatype Rendered = Structured(badge: Verdict, explanation: string) | Plain(text: string)

  /** The badge for a structured verdict: exact upper-case matches, anything else warns. */
  function Badge(verdict: string): Verdict {
    if verdict == "APPROVED" then Approved
    else if verdict == "REJECTED" then Rejected
    else Warning
  }

  /** `renderMessageContent`: structured when the text decodes with both fields non-empty. */
  function Render(text: string): (r: Rendered)
    ensures r.Structured? <==>
      DecodeVerdict(text).Some? && DecodeVerdict(text).value.0 != "" && DecodeVerdict(text).value.1 != ""
    ensures r.Structured? ==>
      r == Structured(Badge(DecodeVerdict(text).value.0), DecodeVerdict(text).value.1)
    ensures r.Plain? ==> r.text == text
  {
    match DecodeVerdict(text)
    case Some((v, e)) => if v != "" && e != "" then Structured(Badge(v), e) else Plain(text)
    case None => Plain(text)
  }

  // ---------------------------------------------------------------------------
  // One send
  // ---------------------------------------------------------------------------

  /**
   * `after` is `before` with one message added at the end; only the context and the
   * step may differ otherwise.
   */
  predicate Replied(before: ChatState, after: ChatState) {
    && |after.messages| == |before.messages| + 1
    && before.messages <= after.messages
    && after.selectedImage == before.selectedImage && after.isAnalyzing == before.isAnalyzing
    && after.lastAnalyzedTrade == before.lastAnalyzedTrade && after.inputText == before.inputText
  }

  /** The second step: the trimmed input becomes the pair, unvalidated. */
  function AtPair(base: ChatState, input: string, now: int): (r: ChatState)
    ensures Replied(base, r)
    ensures r.context == base.context.(pair := Some(Trim(input)))
    ensures r.step == AwaitingDetails
    ensures r.messages == base.messages + [ChatMessage(Model, Canned(AskSetup(Trim(input))), now)]
  {
    var pair := Trim(input);
    base.(context := base.context.(pair := Some(pair)), step := AwaitingDetails,
          messages := base.messages + [ChatMessage(Model, Canned(AskSetup(pair)), now)])
  }

  /**
   * The first step: a recognised direction starts a fresh context and asks for the
   * pair; otherwise only the request to say buy or sell is added.
   */
  function AtInitial(base: ChatState, input: string, now: int): (r: ChatState)
    ensures Replied(base, r)
    ensures DirectionIn(input).Some? ==>
      && r.context == TradeContext(DirectionIn(input), None, None)
      && r.step == AwaitingDirection
      && r.messages == base.messages + [ChatMessage(Model, Canned(AskPair(DirectionIn(input).value)), now)]
    ensures DirectionIn(input).None? ==>
      r == base.(messages := base.messages + [ChatMessage(Model, Canned(Reprompt), now)])
  {
    match DirectionIn(input)
    case Some(d) =>
      base.(context := TradeContext(Some(d), None, None), step := AwaitingDirection,
            messages := base.messages + [ChatMessage(Model, Canned(AskPair(d)), now)])
    case None =>
      base.(messages := base.messages + [ChatMessage(Model, Canned(Reprompt), now)])
  }

  /**
   * The validator round trip. `prior` is the state before the send, read for the
   * prompt, the image and the draft's direction; `base` already holds the user
   * message and this send's context and step.
   */
  function Analyse(prior: ChatState, base: ChatState, rules: seq<TradeRule>,
                   reply: Reply<ValidatorResponse>, now: int): (r: SendResult)
    ensures r.request == Some(ValidatorRequest(
      TradeDetails(prior.context, prior.inputText),
      Seqs.Map(rules, (rule: TradeRule) => rule.text),
      ImageOf(prior.selectedImage)))
    ensures r.state.step == base.step && r.state.context == base.context
    ensures r.state.inputText == base.inputText
    ensures base.messages <= r.state.messages
    ensures reply.Failed? ==>
      r.state == base.(isAnalyzing := true, lastAnalyzedTrade := None)
    ensures reply.Ok? ==>
      && r.state.messages == base.messages + [ChatMessage(Model, Said(ResponseText(reply.value)), now)]
      && !r.state.isAnalyzing
      && r.state.selectedImage == ""
      && r.state.lastAnalyzedTrade.Some?
      && r.state.lastAnalyzedTrade.value.validationResult == Classify(ResponseText(reply.value))
      && r.state.lastAnalyzedTrade.value.notes == NotesLabel + TradeDetails(prior.context, prior.inputText)
      && r.state.lastAnalyzedTrade.value.screenshotUrl == ImageOf(prior.selectedImage)
      && r.state.lastAnalyzedTrade.value.date == now
    // The draft's direction is the stored one; only without one does the input decide.
    ensures reply.Ok? && prior.context.direction.Some? ==>
      r.state.lastAnalyzedTrade.value.direction == prior.context.direction.value
    ensures reply.Ok? && prior.context.direction.None? ==>
      r.state.lastAnalyzedTrade.value.direction == (if Includes(ToLower(prior.inputText), "sell") then Sell else Buy)
  {
    var input := prior.inputText;
    var details := TradeDetails(prior.context, input);
    var request := ValidatorRequest(details, Seqs.Map(rules, (rule: TradeRule) => rule.text), ImageOf(prior.selectedImage));
    var pending := base.(isAnalyzing := true, lastAnalyzedTrade := None);
    match reply
    case Failed(_) => SendResult(pending, Some(request))
    case Ok(resp) =>
      var text := ResponseText(resp);
      var direction :=
        if prior.context.direction.Some? then prior.context.direction.value
        else if Includes(ToLower(input), "sell") then Sell
        else Buy;
      var draft := DraftEntry(NotesLabel + details, Classify(text), direction,
                              ImageOf(prior.selectedImage), now);
      SendResult(
        pending.(messages := pending.messages + [ChatMessage(Model, Said(text), now)],
                 isAnalyzing := false,
                 lastAnalyzedTrade := Some(draft),
                 selectedImage := ""),
        Some(request))
  }

  /** The user's message appended and the text box cleared: the first effect of every send. */
  function Posted(st: ChatState, now: int): (base: ChatState)
    ensures base.messages == st.messages + [ChatMessage(User, Said(st.inputText), now)]
    ensures base.inputText == "" && base.step == st.step && base.context == st.context
    ensures base.selectedImage == st.selectedImage && base.isAnalyzing == st.isAnalyzing
    ensures base.lastAnalyzedTrade == st.lastAnalyzedTrade
  {
    st.(messages := st.messages + [ChatMessage(User, Said(st.inputText), now)], inputText := "")
  }

  /** A send at one of the first two steps: no validator call. */
  function Converse(st: ChatState, now: int): (r: ChatState)
    requires Rank(st.step) < 2
    ensures |r.messages| == |st.messages| + 2
    ensures st.messages + [ChatMessage(User, Said(st.inputText), now)] <= r.messages
    ensures r.inputText == ""
    ensures Rank(r.step) >= Rank(st.step)
    ensures r.selectedImage == st.selectedImage && r.isAnalyzing == st.isAnalyzing
    ensures r.lastAnalyzedTrade == st.lastAnalyzedTrade
  {
    var base := Posted(st, now);
    if st.step == Initial then
      var r := AtInitial(base, st.inputText, now);
      assert Replied(base, r);
      r
    else
      var r := AtPair(base, st.inputText, now);
      assert Replied(base, r);
      r
  }

  /** A send at one of the last two steps: the validator is called. */
  function Consult(st: ChatState, rules: seq<TradeRule>, reply: Reply<ValidatorResponse>, now: int): (r: SendResult)
    requires Rank(st.step) >= 2
    ensures |r.state.messages| > |st.messages|
    ensures st.messages + [ChatMessage(User, Said(st.inputText), now)] <= r.state.messages
    ensures r.state.inputText == ""
    ensures r.state.step == AnalysisComplete
    ensures st.step == AnalysisComplete ==> r.state.context == st.context
    ensures st.step == AwaitingDetails ==> r.state.context == st.context.(details := Some(Trim(st.inputText)))
    ensures r.request.Some? && r.request.value.tradeDetails == TradeDetails(st.context, st.inputText)
  {
    var base := Posted(st, now);
    var next :=
      if st.step == AwaitingDetails
      then base.(context := st.context.(details := Some(Trim(st.inputText))), step := AnalysisComplete)
      else base;
    var r := Analyse(st, next, rules, reply, now);
    r
  }

  /**
   * `handleSendMessage`: one press of send. `rules` are the user's loaded rules,
   * `reply` what the validator resolves or rejects with if it is called, `now` the clock.
   */
  function Send(st: ChatState, rules: seq<TradeRule>, reply: Reply<ValidatorResponse>, now: int): (r: SendResult)
    // A blank send without an image does nothing at all.
    ensures !Sendable(st) ==> r == SendResult(st, None)
    // Otherwise the user's message is appended first and the text box is cleared.
    ensures Sendable(st) ==>
      && |r.state.messages| > |st.messages|
      && st.messages + [ChatMessage(User, Said(st.inputText), now)] <= r.state.messages
      && r.state.inputText == ""
    // The conversation only moves forward, and its last step is absorbing.
    ensures Rank(r.state.step) >= Rank(st.step)
    ensures st.step == AnalysisComplete ==> r.state.step == AnalysisComplete && r.state.context == st.context
    // The validator is called exactly by sends at the last two steps, with a prompt
    // built from the context as it stood before this send.
    ensures r.request.Some? <==> Sendable(st) && Rank(st.step) >= 2
    ensures r.request.Some? ==> r.request.value.tradeDetails == TradeDetails(st.context, st.inputText)
    // Without a validator call the image, the draft and the busy flag are untouched.
    ensures r.request.None? ==>
      && r.state.selectedImage == st.selectedImage
      && r.state.lastAnalyzedTrade == st.lastAnalyzedTrade
      && r.state.isAnalyzing == st.isAnalyzing
  {
    if !Sendable(st) then SendResult(st, None)
    else if Rank(st.step) < 2 then SendResult(Converse(st, now), None)
    else Consult(st, rules, reply, now)
  }

  // ---------------------------------------------------------------------------
  // Whole conversations
  // ---------------------------------------------------------------------------

  /** Each step has gathered exactly the fields of the steps already passed. */
  predicate WellFormed(st: ChatState) {
    match st.step
    case Initial => st.context == EmptyContext
    case AwaitingDirection => st.context.direction.Some? && st.context.pair.None? && st.context.details.None?
    case AwaitingDetails => st.context.direction.Some? && st.context.pair.Some? && st.context.details.None?
    case AnalysisComplete => st.context.direction.Some? && st.context.pair.Some? && st.context.details.Some?
  }

  /** What the user can do: type, attach or remove a chart, or press send. */
  datatype UserAction =
    | Type(text: string)
    | Attach(dataUrl: string)
    | RemoveImage
    | Press(reply: Reply<ValidatorResponse>, now: int)

  /**
   * One user action. While an analysis is pending the text box and the send button
   * are disabled, so typing and pressing send do nothing; the chart can still be
   * changed.
   */
  function Apply(st: ChatState, rules: seq<TradeRule>, a: UserAction): (r: ChatState)
    ensures st.isAnalyzing && (a.Type? || a.Press?) ==> r == st
    ensures !st.isAnalyzing && a.Type? ==> r == st.(inputText := a.text)
    ensures !st.isAnalyzing && a.Press? ==> r == Send(st, rules, a.reply, a.now).state
    ensures a.Attach? ==> r == st.(selectedImage := a.dataUrl)
    ensures a.RemoveImage? ==> r == st.(selectedImage := "")
  {
    match a
    case Type(text) => if st.isAnalyzing then st else st.(inputText := text)
    case Attach(url) => st.(selectedImage := url)
    case RemoveImage => st.(selectedImage := "")
    case Press(reply, now) => if st.isAnalyzing then st else Send(st, rules, reply, now).state
  }

  function Run(st: ChatState, rules: seq<TradeRule>, actions: seq<UserAction>): ChatState
    decreases |actions|
  {
    if |actions| == 0 then st else Run(Apply(st, rules, actions[0]), rules, actions[1..])
  }

  lemma SendKeepsWellFormed(st: ChatState, rules: seq<TradeRule>, reply: Reply<ValidatorResponse>, now: int)
    requires WellFormed(st)
    ensures WellFormed(Send(st, rules, reply, now).state)
  {
    if Sendable(st) && st.step == Initial {
      var base := Posted(st, now);
      assert AtInitial(base, st.inputText, now).step == Initial ==>
             AtInitial(base, st.inputText, now).context == base.context;
    }
  }

  /**
   * Over any sequence of user actions from a well-formed state, the state stays
   * well-formed, the step never moves back, and the chat history only grows.
   */
  lemma {:induction false} RunKeepsInvariants(st: ChatState, rules: seq<TradeRule>, actions: seq<UserAction>)
    requires WellFormed(st)
    ensures WellFormed(Run(st, rules, actions))
    ensures Rank(Run(st, rules, actions).step) >= Rank(st.step)
    ensures st.messages <= Run(st, rules, actions).messages
    decreases |actions|
  {
    if |actions| > 0 {
      var next := Apply(st, rules, actions[0]);
      if actions[0].Press? {
        SendKeepsWellFormed(st, rules, actions[0].reply, actions[0].now);
      }
      assert st.messages <= next.messages;
      RunKeepsInvariants(next, rules, actions[1..]);
    }
  }

  /**
   * While an analysis is pending, no amount of typing or pressing send changes the
   * conversation: only the chart can be swapped.
   */
  lemma {:induction false} AnalyzingIgnoresInput(st: ChatState, rules: seq<TradeRule>, actions: seq<UserAction>)
    requires st.isAnalyzing
    requires forall i :: 0 <= i < |actions| ==> actions[i].Type? || actions[i].Press?
    ensures Run(st, rules, actions) == st
    decreases |actions|
  {
    if |actions| > 0 {
      assert Apply(st, rules, actions[0]) == st;
      AnalyzingIgnoresInput(st, rules, actions[1..]);
    }
  }

  /**
   * A validator call that fails leaves the assistant analysing for good: every later
   * send or keystroke is ignored.
   */
  lemma FailedCallLocksInput(st: ChatState, rules: seq<TradeRule>, reply: Reply<ValidatorResponse>, now: int,
                             later: seq<UserAction>)
    requires !st.isAnalyzing && Sendable(st) && Rank(st.step) >= 2 && reply.Failed?
    requires forall i :: 0 <= i < |later| ==> later[i].Type? || later[i].Press?
    ensures var after := Apply(st, rules, Press(reply, now));
      after.isAnalyzing && Run(after, rules, later) == after
  {
    var after := Apply(st, rules, Press(reply, now));
    assert after.isAnalyzing;
    AnalyzingIgnoresInput(after, rules, later);
  }

  /**
   * In a well-formed state the draft's direction always comes from the context:
   * the source's fallback on the word "sell" in the input never fires.
   */
  lemma DraftDirectionFromContext(st: ChatState, rules: seq<TradeRule>, reply: Reply<ValidatorResponse>, now: int)
    requires WellFormed(st) && Sendable(st) && Rank(st.step) >= 2 && reply.Ok?
    ensures Send(st, rules, reply, now).state.lastAnalyzedTrade.Some?
    ensures Send(st, rules, reply, now).state.lastAnalyzedTrade.value.direction == st.context.direction.value
  {
  }

  /** A message naming a direction is never blank, so it is always sent. */
  lemma DirectionSendable(st: ChatState)
    requires DirectionIn(st.inputText).Some?
    ensures Sendable(st)
  {
    var lower := ToLower(st.inputText);
    if Includes(lower, "buy") {
      LowerWordNotBlank(st.inputText, "buy");
    } else if Includes(lower, "long") {
      LowerWordNotBlank(st.inputText, "long");
    } else if Includes(lower, "sell") {
      LowerWordNotBlank(st.inputText, "sell");
    } else {
      LowerWordNotBlank(st.inputText, "short");
    }
  }

  /**
   * At the first step, a message naming a direction records that direction alone,
   * asks for the pair and calls nothing.
   */
  lemma OpeningDirection(st: ChatState, rules: seq<TradeRule>, reply: Reply<ValidatorResponse>, now: int, d: Direction)
    requires st.step == Initial && DirectionIn(st.inputText) == Some(d)
    ensures Send(st, rules, reply, now) == SendResult(
      st.(messages := st.messages + [ChatMessage(User, Said(st.inputText), now), ChatMessage(Model, Canned(AskPair(d)), now)],
          inputText := "", context := TradeContext(Some(d), None, None), step := AwaitingDirection),
      None)
  {
    DirectionSendable(st);
    var r := AtInitial(Posted(st, now), st.inputText, now);
    assert Converse(st, now) == r;
    assert r.messages == st.messages + [ChatMessage(User, Said(st.inputText), now)]
                                      + [ChatMessage(Model, Canned(AskPair(d)), now)];
    assert r == st.(messages := r.messages, inputText := "", context := r.context, step := r.step);
  }

  /**
   * At the first step, a sent message naming no direction only asks again: the step
   * and the context stay as they were and nothing is called.
   */
  lemma OpeningUnclear(st: ChatState, rules: seq<TradeRule>, reply: Reply<ValidatorResponse>, now: int)
    requires st.step == Initial && Sendable(st) && DirectionIn(st.inputText).None?
    ensures Send(st, rules, reply, now) == SendResult(
      st.(messages := st.messages + [ChatMessage(User, Said(st.inputText), now), ChatMessage(Model, Canned(Reprompt), now)],
          inputText := ""),
      None)
  {
    var r := AtInitial(Posted(st, now), st.inputText, now);
    assert Converse(st, now) == r;
    assert r.messages == st.messages + [ChatMessage(User, Said(st.inputText), now)]
                                      + [ChatMessage(Model, Canned(Reprompt), now)];
  }

  /** At the first step, a message mentioning buy records a buy and asks for the pair. */
  lemma OpeningBuy(st: ChatState, rules: seq<TradeRule>, reply: Reply<ValidatorResponse>, now: int)
    requires st.step == Initial && Includes(ToLower(st.inputText), "buy")
    ensures Send(st, rules, reply, now) == SendResult(
      st.(messages := st.messages + [ChatMessage(User, Said(st.inputText), now), ChatMessage(Model, Canned(AskPair(Buy)), now)],
          inputText := "", context := TradeContext(Some(Buy), None, None), step := AwaitingDirection),
      None)
  {
    OpeningDirection(st, rules, reply, now, Buy);
  }

  /** At the second step, a non-blank message becomes the trimmed pair. */
  lemma PairGiven(st: ChatState, rules: seq<TradeRule>, reply: Reply<ValidatorResponse>, now: int)
    requires st.step == AwaitingDirection && !IsBlank(st.inputText)
    ensures Send(st, rules, reply, now) == SendResult(
      st.(messages := st.messages + [ChatMessage(User, Said(st.inputText), now),
                                     ChatMessage(Model, Canned(AskSetup(Trim(st.inputText))), now)],
          inputText := "", context := st.context.(pair := Some(Trim(st.inputText))), step := AwaitingDetails),
      None)
  {
    var base := Posted(st, now);
    var r := AtPair(base, st.inputText, now);
    assert Converse(st, now) == r;
    assert Send(st, rules, reply, now) == SendResult(r, None);
    assert r.messages == st.messages + [ChatMessage(User, Said(st.inputText), now)]
                                      + [ChatMessage(Model, Canned(AskSetup(Trim(st.inputText))), now)];
    assert r == st.(messages := r.messages, inputText := "", context := r.context, step := r.step);
  }

  /**
   * At the third step, a sent setup is stored trimmed and the validator gets the
   * recorded direction and pair and the setup exactly as typed. The chat gains the
   * user's message and, when the validator answers, its reply; when the call fails
   * the assistant is left analysing with no draft.
   */
  lemma SetupGiven(st: ChatState, rules: seq<TradeRule>, reply: Reply<ValidatorResponse>, now: int)
    requires st.step == AwaitingDetails && WellFormed(st) && Sendable(st)
    ensures
      var r := Send(st, rules, reply, now);
      && r.request.Some?
      && r.request.value.tradeDetails
         == DirectionLabel + DirectionName(st.context.direction.value)
            + PairLabel + OrElse(st.context.pair, NotSpecified)
            + DetailsLabel + st.inputText + DetailsEnd
      && r.state.context == st.context.(details := Some(Trim(st.inputText)))
      && r.state.step == AnalysisComplete
      && (reply.Ok? ==>
            r.state.messages == st.messages
              + [ChatMessage(User, Said(st.inputText), now), ChatMessage(Model, Said(ResponseText(reply.value)), now)])
      && (reply.Failed? ==>
            && r.state.messages == st.messages + [ChatMessage(User, Said(st.inputText), now)]
            && r.state.isAnalyzing && r.state.lastAnalyzedTrade.None?)
  {
    assert st.context.details.None?;
    var base := Posted(st, now);
    var next := base.(context := st.context.(details := Some(Trim(st.inputText))), step := AnalysisComplete);
    SendConsults(st, rules, reply, now);
    assert TradeDetails(st.context, st.inputText)
      == DirectionLabel + DirectionName(st.context.direction.value)
         + PairLabel + OrElse(st.context.pair, NotSpecified)
         + DetailsLabel + st.inputText + DetailsEnd;
  }

  /** At the third step a send hands the validator the user message and the stored setup. */
  lemma SendConsults(st: ChatState, rules: seq<TradeRule>, reply: Reply<ValidatorResponse>, now: int)
    requires st.step == AwaitingDetails && Sendable(st)
    ensures Send(st, rules, reply, now) == Consult(st, rules, reply, now)
    ensures Send(st, rules, reply, now) == Analyse(st, Posted(st, now).(
      context := st.context.(details := Some(Trim(st.inputText))), step := AnalysisComplete), rules, reply, now)
  {
  }

  /**
   * The conversation of a buy trade: a message containing "buy", then a pair, then
   * the setup. The first two sends call nothing; the third calls the validator with
   * direction buy, the trimmed pair and the setup exactly as typed, and the chat
   * holds the greeting followed by three user/model exchanges.
   */
  lemma {:induction false} BuyConversation(t0: int, opening: string, pair: string, setup: string,
                        rules: seq<TradeRule>, reply: Reply<ValidatorResponse>, n1: int, n2: int, n3: int,
                        r1: SendResult, r2: SendResult, r3: SendResult)
    requires Includes(ToLower(opening), "buy") && !IsBlank(pair) && !IsBlank(setup)
    requires reply.Ok?
    requires r1 == Send(InitialState(t0).(inputText := opening), rules, reply, n1)
    requires r2 == Send(r1.state.(inputText := pair), rules, reply, n2)
    requires r3 == Send(r2.state.(inputText := setup), rules, reply, n3)
    ensures r1.request.None? && r2.request.None? && r3.request.Some?
    ensures r3.request.value.tradeDetails
         == DirectionLabel + "buy" + PairLabel + Trim(pair) + DetailsLabel + setup + DetailsEnd
    ensures r3.state.context == TradeContext(Some(Buy), Some(Trim(pair)), Some(Trim(setup)))
    ensures r3.state.step == AnalysisComplete
    ensures r3.state.messages ==
           [ChatMessage(Model, Canned(Greeting), t0)]
           + [ChatMessage(User, Said(opening), n1), ChatMessage(Model, Canned(AskPair(Buy)), n1)]
           + [ChatMessage(User, Said(pair), n2), ChatMessage(Model, Canned(AskSetup(Trim(pair))), n2)]
           + [ChatMessage(User, Said(setup), n3), ChatMessage(Model, Said(ResponseText(reply.value)), n3)]
  {
    var g := ChatMessage(Model, Canned(Greeting), t0);
    var u1, m1 := ChatMessage(User, Said(opening), n1), ChatMessage(Model, Canned(AskPair(Buy)), n1);
    var u2, m2 := ChatMessage(User, Said(pair), n2), ChatMessage(Model, Canned(AskSetup(Trim(pair))), n2);
    var u3, m3 := ChatMessage(User, Said(setup), n3), ChatMessage(Model, Said(ResponseText(reply.value)), n3);
    OpeningBuy(InitialState(t0).(inputText := opening), rules, reply, n1);
    assert r1.state.messages == [g] + [u1, m1];
    assert r1.state.context == TradeContext(Some(Buy), None, None) && r1.state.step == AwaitingDirection;
    PairGiven(r1.state.(inputText := pair), rules, reply, n2);
    assert r2.state.messages == r1.state.messages + [u2, m2];
    assert r2.state.context == TradeContext(Some(Buy), Some(Trim(pair)), None) && r2.state.step == AwaitingDetails;
    assert Trim(pair) != "";
    assert Sendable(r2.state.(inputText := setup));
    SetupGiven(r2.state.(inputText := setup), rules, reply, n3);
    assert r3.state.messages == r2.state.messages + [u3, m3];
  }

  /** A structured validator reply is stored so that the chat shows its badge and explanation. */
  lemma VerdictReplyRendersStructured(st: ChatState, rules: seq<TradeRule>, verdict: string, explanation: string, now: int)
    requires Sendable(st) && Rank(st.step) >= 2
    requires verdict != "" && explanation != "" && '"' !in verdict && '"' !in explanation
    ensures
      var msgs := Send(st, rules, Ok(VerdictObject(verdict, explanation)), now).state.messages;
      Render(msgs[|msgs| - 1].Text()) == Structured(Badge(verdict), explanation)
  {
    DecodeSerialize(verdict, explanation);
  }

  /**
   * The keyword heuristic and the structured verdict are independent: a reply whose
   * verdict is REJECTED but whose explanation says "not approved" shows a rejected
   * badge yet tags the draft as approved.
   */
  lemma HeuristicCanDisagree()
    ensures Badge("REJECTED") == Rejected
    ensures Classify(SerializeVerdict("REJECTED", "not approved")) == Approved
  {
    var lower := ToLower(SerializeVerdict("REJECTED", "not approved"));
    assert MatchAt(lower, "approved", |lower| - 10);
  }
}
