/**
 * The floating chat widget (components/ChatWidget.tsx): the `handleSend`
 * lifecycle split at its one `await` into `BeginSend` (validation, the user's
 * bubble, the typing flag) and `FinishSend` (the bot's bubble), with the
 * service call's outcome as an input.
 */
module ChatWidget {
  import opened Wrappers
  import opened ChatTypes
  import Text

  datatype ChatState = ChatState(messages: seq<Message>, input: string, isTyping: bool)

  const Initial: ChatState := ChatState([], "", false)

  /** The bubble shown when the service call throws. */
  const FallbackText: string := "משהו השתבש בתקשורת. טויבי זמינה עבורך ב-052-7179418."

  /** How the awaited service call ended. */
  datatype CallOutcome = Replied(text: string) | Threw

  /** `customInput || input`: a quick reply's text when one was clicked (an empty one counts as none). */
  function MessageText(customInput: Option<string>, input: string): (text: string)
    ensures customInput.Some? && customInput.value != [] ==> text == customInput.value
    ensures customInput == None || customInput == Some([]) ==> text == input
  {
    if customInput.Some? && customInput.value != [] then customInput.value else input
  }

  /** What the first half of `handleSend` did. */
  datatype Begun =
    | Ignored
      /** The state while waiting, the text sent, and the history passed to the service. */
    | Sending(during: ChatState, text: string, history: seq<Message>)

  function BeginSend(s: ChatState, customInput: Option<string>): (b: Begun)
    ensures b.Ignored? <==> Text.IsBlank(MessageText(customInput, s.input)) || s.isTyping
    ensures b.Sending? ==>
              && b.text == MessageText(customInput, s.input)
              && b.during.messages == s.messages + [Message(User, b.text)]
              && b.during.isTyping
              && b.history == s.messages
              && (b.during.input == [] <==> customInput == None || customInput == Some([]) || s.input == [])
              && (b.during.input != [] ==> b.during.input == s.input)
  {
    var text := MessageText(customInput, s.input);
    if Text.Trim(text) == [] || s.isTyping then Ignored
    else
      var input := if customInput == None || customInput == Some([]) then [] else s.input;
      // `history` is the render-time `messages`: it does not include the new user bubble.
      Sending(ChatState(s.messages + [Message(User, text)], input, true), text, s.messages)
  }

  /** The second half: exactly one bot bubble, then the typing flag drops. */
  function FinishSend(during: ChatState, outcome: CallOutcome): (s: ChatState)
    ensures s.messages == during.messages + [Message(Model, if outcome.Replied? then outcome.text else FallbackText)]
    ensures !s.isTyping && s.input == during.input
  {
    var reply := match outcome
      case Replied(text) => text
      case Threw => FallbackText;
    ChatState(during.messages + [Message(Model, reply)], during.input, false)
  }

  /** The whole of `handleSend`, the service call resolving with `outcome`. */
  function HandleSend(s: ChatState, customInput: Option<string>, outcome: CallOutcome): ChatState {
    match BeginSend(s, customInput)
    case Ignored => s
    case Sending(during, _, _) => FinishSend(during, outcome)
  }

  /** The quick-reply buttons are shown only while the conversation is empty. */
  predicate QuickRepliesShown(s: ChatState) {
    |s.messages| == 0
  }

  /** A send either changes nothing or adds exactly the user's bubble followed by one bot bubble, keeping the earlier ones. */
  lemma SendAddsTwoBubbles(s: ChatState, customInput: Option<string>, outcome: CallOutcome)
    ensures var r := HandleSend(s, customInput, outcome);
            || r == s
            || (&& |r.messages| == |s.messages| + 2
                && r.messages[..|s.messages|] == s.messages
                && r.messages[|s.messages|] == Message(User, MessageText(customInput, s.input))
                && r.messages[|s.messages| + 1].role == Model
                && !r.isTyping)
  {
    match BeginSend(s, customInput)
    case Ignored =>
      assert HandleSend(s, customInput, outcome) == s;
    case Sending(during, text, _) =>
      var bot := Message(Model, if outcome.Replied? then outcome.text else FallbackText);
      var r := FinishSend(during, outcome);
      assert HandleSend(s, customInput, outcome) == r;
      AppendTwo(s.messages, Message(User, text), bot, r.messages);
  }

  /** `prefix + [a] + [b]` starts with `prefix`, then `a`, then `b`. */
  lemma AppendTwo(prefix: seq<Message>, a: Message, b: Message, all: seq<Message>)
    requires all == prefix + [a] + [b]
    ensures |all| == |prefix| + 2 && all[..|prefix|] == prefix
    ensures all[|prefix|] == a && all[|prefix| + 1] == b
  {
    assert all[..|prefix|] == prefix;
  }

  /** A blank message, or any send while waiting for a reply, changes nothing. */
  lemma BlankOrBusyIgnored(s: ChatState, customInput: Option<string>, outcome: CallOutcome)
    requires Text.IsBlank(MessageText(customInput, s.input)) || s.isTyping
    ensures HandleSend(s, customInput, outcome) == s
  {
  }

  /** The sent text is kept as typed, surrounding white space included. */
  lemma UserTextUntrimmed(s: ChatState, pad: string, word: string, outcome: CallOutcome)
    requires Text.IsBlank(pad) && !Text.IsBlank(word) && !s.isTyping
    ensures var r := HandleSend(s, Some(pad + word), outcome);
            |r.messages| == |s.messages| + 2 && r.messages[|s.messages|] == Message(User, pad + word)
  {
    var text := pad + word;
    var i :| 0 <= i < |word| && !Text.IsSpace(word[i]);
    assert text[|pad| + i] == word[i];
  }

  /** Once a message has been sent the quick replies never come back. */
  lemma QuickRepliesGoneAfterSend(s: ChatState, customInput: Option<string>, outcome: CallOutcome)
    requires !QuickRepliesShown(s) || BeginSend(s, customInput).Sending?
    ensures !QuickRepliesShown(HandleSend(s, customInput, outcome))
  {
  }
}
