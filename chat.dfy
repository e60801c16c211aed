/** The chat panel: the send guard, the input box, and how the message list is shown. */
module Chat {
  import opened Common
  import opened EditorPage

  /** `disabled={!newMessage.trim()}`, negated: the send button is enabled. */
  predicate SendEnabled(input: string): (enabled: bool)
    ensures enabled <==> exists i :: 0 <= i < |input| && !IsJsWhitespace(input[i])
  {
    TrimEmptyIff(input);
    Trim(input) != ""
  }

  /** `handleSend` on the current input: the text to send, if any, and the input
      afterwards. */
  function Send(input: string): (r: (Option<string>, string))
    ensures r.0.Some? <==> !AllWhitespace(input)
    ensures r.0.Some? ==> r.0.value == input && r.1 == ""
    ensures r.0.None? ==> r.1 == input
  {
    TrimEmptyIff(input);
    if Trim(input) != "" then (Some(input), "") else (None, input)
  }

  /** The button and the submit handler agree: the button is enabled exactly when
      submitting would send. */
  lemma ButtonMatchesGuard(input: string)
    ensures SendEnabled(input) <==> Send(input).0.Some?
  {
    TrimEmptyIff(input);
  }

  /** Whatever is sent has a non-whitespace character; sending twice in a row sends
      once, since the second submit finds the input empty. */
  lemma SendOnce(input: string)
    ensures Send(input).0.Some? ==> exists i :: 0 <= i < |input| && !IsJsWhitespace(input[i])
    ensures Send(Send(input).1).0.None? || Send(input).0.None?
  {
    assert AllWhitespace("");
  }

  /** The input box. */
  class ChatInput {
    var text: string

    constructor ()
      ensures text == ""
    {
      text := "";
    }

    method Type(t: string)
      modifies this
      ensures text == t
    {
      text := t;
    }

    method HandleSend() returns (sent: Option<string>)
      modifies this
      ensures (sent, text) == Send(old(text))
    {
      if Trim(text) != "" {
        sent := Some(text);
        text := "";
      } else {
        sent := None;
      }
    }
  }

  /** One rendered message. */
  datatype Bubble = Bubble(sender: Option<string>, text: string, timestamp: string, alignRight: bool)

  datatype Panel = Placeholder | Bubbles(bubbles: seq<Bubble>)

  /** One message bubble (client/src/components/Chat.jsx:34-49): the sender's name
      only on other people's messages, then the text and the time. */
  function RenderOne(m: ViewMessage): Bubble {
    Bubble(if m.isLocal then None else Some(m.username), m.message, m.timestamp, m.isLocal)
  }

  /** The message area: the placeholder for an empty list, otherwise one bubble per
      message in list order, naming the sender only on other people's messages. */
  function Render(messages: seq<ViewMessage>): (p: Panel)
    ensures p.Placeholder? <==> messages == []
    ensures p.Bubbles? ==> |p.bubbles| == |messages|
    ensures p.Bubbles? ==> forall i :: 0 <= i < |messages| ==>
      && p.bubbles[i].text == messages[i].message
      && (p.bubbles[i].sender.Some? <==> !messages[i].isLocal)
      && (p.bubbles[i].sender.Some? ==> p.bubbles[i].sender.value == messages[i].username)
      && p.bubbles[i].alignRight == messages[i].isLocal
  {
    if messages == [] then Placeholder
    else Bubbles(seq(|messages|, i requires 0 <= i < |messages| => RenderOne(messages[i])))
  }

  /** A message received later is rendered after all earlier ones, which keep their
      places. */
  lemma RenderAppend(messages: seq<ViewMessage>, m: ViewMessage)
    ensures var p := Render(messages + [m]);
      && p.Bubbles?
      && p.bubbles[|messages|] == RenderOne(m)
      && (messages != [] ==> p.bubbles[..|messages|] == Render(messages).bubbles)
  {
  }
}
