/** The chat box's send transition: a non-blank input is appended to the
    message log as a user message and posted to the query route; when the
    reply arrives, exactly one answer or one fixed error message is appended.

    The network is a parameter: a `Transport` says whether the fetch failed,
    the body failed to parse as JSON, or which reply object it parsed to. The
    send is split at its `await`: `BeginSend` is the synchronous part,
    `FinishSend` the functional state update that runs when the reply
    arrives, applied to whatever the log holds by then. */
module Chatbox {
  import opened Text

  datatype Sender = UserSender | Other

  datatype Message = Message(text: string, sender: Sender)

  /** The parsed reply: its `success` flag and, when `body` is present,
      `body.message.content`. */
  datatype Reply = Reply(success: bool, content: Option<string>)

  datatype Transport = NetworkFailure | MalformedJson | Parsed(reply: Reply)

  /** The request `GetResponse` posts: `{message: <input>}` as JSON. */
  datatype Outgoing = Outgoing(path: string, httpMethod: string, message: string)

  datatype ChatState = ChatState(messages: seq<Message>, input: string)

  /** The state after a transition and the request it sent, if any. */
  datatype Sent = Sent(state: ChatState, request: Option<Outgoing>)

  const ErrorText := "There was an error with generating our statement"
  const ChatPath := "/api/chat"

  /** `GetResponse`: a rejected fetch or an unparsable body becomes
      `{success: false}`; otherwise the parsed object is returned as is. */
  function GetResponse(t: Transport): (r: Reply)
    ensures !t.Parsed? ==> !r.success && r.content.None?
    ensures t.Parsed? ==> r == t.reply
  {
    match t
    case Parsed(reply) => reply
    case _ => Reply(false, None)
  }

  /** The message appended for a reply: its content on success with a body,
      otherwise the fixed error text; always from the other side. */
  function ReplyMessage(reply: Reply): (m: Message)
    ensures m.sender == Other
    ensures reply.success && reply.content.Some? ==> m.text == reply.content.value
    ensures !(reply.success && reply.content.Some?) ==> m.text == ErrorText
  {
    if reply.success && reply.content.Some? then Message(reply.content.value, Other)
    else Message(ErrorText, Other)
  }

  /** The synchronous part of `handleSend`: a blank input (empty after
      `trim`) changes nothing and sends nothing; otherwise the untrimmed input
      is appended as a user message, the input is cleared and the request is
      posted. */
  function BeginSend(s: ChatState): (r: Sent)
    ensures r.request.None? <==> AllWhitespace(s.input)
    ensures r.request.None? ==> r.state == s
    ensures r.request.Some? ==>
      && r.state.messages == s.messages + [Message(s.input, UserSender)]
      && r.state.input == ""
      && r.request.value == Outgoing(ChatPath, "POST", s.input)
  {
    TrimEmptyIff(s.input);
    if Trim(s.input) != "" then
      Sent(ChatState(s.messages + [Message(s.input, UserSender)], ""), Some(Outgoing(ChatPath, "POST", s.input)))
    else
      Sent(s, None)
  }

  /** The update after the awaited reply: one message appended to the log as
      it is at that moment; the input field is left alone. */
  function FinishSend(s: ChatState, t: Transport): (s': ChatState)
    ensures |s'.messages| == |s.messages| + 1
    ensures s'.messages[..|s.messages|] == s.messages
    ensures s'.messages[|s.messages|].sender == Other
    ensures s'.input == s.input
  {
    ChatState(s.messages + [ReplyMessage(GetResponse(t))], s.input)
  }

  /** A whole send with no other event in between: nothing happens for a
      blank input; otherwise the log grows by the user message and then
      exactly one reply message, and the input ends cleared. */
  function HandleSend(s: ChatState, t: Transport): (r: Sent)
    ensures r.request.None? <==> AllWhitespace(s.input)
    ensures r.request.None? ==> r.state == s
    ensures r.request.Some? ==>
      && r.state.messages == s.messages + [Message(s.input, UserSender), ReplyMessage(GetResponse(t))]
      && r.state.input == ""
    ensures r.request.Some? ==>
      r.state.messages[|r.state.messages| - 1] ==
        if t.Parsed? && t.reply.success && t.reply.content.Some?
        then Message(t.reply.content.value, Other)
        else Message(ErrorText, Other)
  {
    var begun := BeginSend(s);
    if begun.request.None? then begun
    else Sent(FinishSend(begun.state, t), begun.request)
  }

  /** The chat box between renders: `live` is the committed state, and
      `rendered` the state of the last render, which is what a `handleSend`
      started now reads. A submit writes back the rendered log plus the user
      message (`setMessages([...messages, userMessage])`), whereas a reply
      extends the live log (`setMessages((prev) => ...)`). */
  datatype Screen = Screen(live: ChatState, rendered: ChatState)

  /** What can happen to the chat box: the user edits the input, submits the
      form, an earlier send's reply arrives, or React renders the live
      state. */
  datatype Event = Typed(text: string) | Submitted | Resolved(transport: Transport) | Rendered

  function Step(s: Screen, e: Event): Screen
  {
    match e
    case Typed(text) => Screen(ChatState(s.live.messages, text), s.rendered)
    case Submitted =>
      var begun := BeginSend(s.rendered);
      if begun.request.None? then s else Screen(begun.state, s.rendered)
    case Resolved(t) => Screen(FinishSend(s.live, t), s.rendered)
    case Rendered => Screen(s.live, s.live)
  }

  function Run(s: Screen, events: seq<Event>): Screen
    decreases |events|
  {
    if |events| == 0 then s else Run(Step(s, events[0]), events[1..])
  }

  /** Every submit in the run happens after the latest log has been rendered. */
  predicate SubmitsSeeLatestLog(s: Screen, events: seq<Event>)
    decreases |events|
  {
    |events| == 0
    || ((events[0] == Submitted ==> s.rendered.messages == s.live.messages)
        && SubmitsSeeLatestLog(Step(s, events[0]), events[1..]))
  }

  /** The log is append-only under any interleaving of typing, sends, replies
      and renders in which every submit sees the latest log: earlier messages
      are never changed, removed or reordered. */
  lemma {:induction false} LogIsAppendOnly(s: Screen, events: seq<Event>)
    requires SubmitsSeeLatestLog(s, events)
    ensures |s.live.messages| <= |Run(s, events).live.messages|
    ensures Run(s, events).live.messages[..|s.live.messages|] == s.live.messages
    decreases |events|
  {
    if |events| > 0 {
      var s1 := Step(s, events[0]);
      assert |s.live.messages| <= |s1.live.messages| && s1.live.messages[..|s.live.messages|] == s.live.messages;
      LogIsAppendOnly(s1, events[1..]);
      var final := Run(s1, events[1..]);
      assert final.live.messages[..|s.live.messages|] == final.live.messages[..|s1.live.messages|][..|s.live.messages|];
    }
  }

  /** A submit made before the latest reply was rendered overwrites it: the
      log becomes the rendered log plus the new user message, whatever reply
      landed in between. */
  lemma StaleSubmitOverwrites(s: Screen, t: Transport)
    requires !AllWhitespace(s.rendered.input)
    ensures Run(s, [Resolved(t), Submitted]).live.messages
         == s.rendered.messages + [Message(s.rendered.input, UserSender)]
  {
    TrimEmptyIff(s.rendered.input);
    var s1 := Step(s, Resolved(t));
    assert Run(s, [Resolved(t), Submitted]) == Run(s1, [Submitted]);
    assert Run(s1, [Submitted]) == Step(s1, Submitted);
  }

  /** Without that condition a reply can be lost: a reply that lands after the
      last render is overwritten by the next submit, which writes back the
      rendered log plus its own message. */
  lemma StaleSubmitDropsReply()
    ensures var start := Screen(ChatState([], "a"), ChatState([], "a"));
      var events := [Submitted, Rendered, Typed("b"), Rendered, Resolved(NetworkFailure), Submitted];
      && Message(ErrorText, Other) in Run(start, events[..5]).live.messages
      && Run(start, events).live.messages == [Message("a", UserSender), Message("b", UserSender)]
  {
    var start := Screen(ChatState([], "a"), ChatState([], "a"));
    var events := [Submitted, Rendered, Typed("b"), Rendered, Resolved(NetworkFailure), Submitted];
    TrimEmptyIff("a");
    TrimEmptyIff("b");
    var s1 := Step(start, events[0]);
    assert s1.live == ChatState([Message("a", UserSender)], "");
    var s2 := Step(s1, events[1]);
    var s3 := Step(s2, events[2]);
    assert s3.live == ChatState([Message("a", UserSender)], "b");
    var s4 := Step(s3, events[3]);
    var s5 := Step(s4, events[4]);
    assert s5.live.messages == [Message("a", UserSender), Message(ErrorText, Other)];
    var s6 := Step(s5, events[5]);
    assert s6.live.messages == [Message("a", UserSender), Message("b", UserSender)];
    assert events[..5] == [Submitted, Rendered, Typed("b"), Rendered, Resolved(NetworkFailure)];
    assert Run(s5, []) == s5;
    assert Run(s4, [Resolved(NetworkFailure)]) == s5;
    assert Run(s3, [Rendered, Resolved(NetworkFailure)]) == s5;
    assert Run(s2, [Typed("b"), Rendered, Resolved(NetworkFailure)]) == s5;
    assert Run(s1, [Rendered, Typed("b"), Rendered, Resolved(NetworkFailure)]) == s5;
    assert Run(s5, [Submitted]) == s6;
    assert Run(s4, [Resolved(NetworkFailure), Submitted]) == s6;
    assert Run(s3, [Rendered, Resolved(NetworkFailure), Submitted]) == s6;
    assert Run(s2, [Typed("b"), Rendered, Resolved(NetworkFailure), Submitted]) == s6;
    assert Run(s1, [Rendered, Typed("b"), Rendered, Resolved(NetworkFailure), Submitted]) == s6;
  }
}
