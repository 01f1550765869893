/**
 * The customer's chat page: which user id it runs under, the message list it
 * mirrors from the server, and sending a message. Server replies are inputs
 * of the handler that awaits them.
 */
module Conversation {
  import opened Text
  import opened Optional
  import opened Display

  /** A message as the server returns it; sender and receiver are "admin", "bot" or "user". */
  datatype FetchedMessage = FetchedMessage(userId: string, content: string, timestamp: string, sender: string, receiver: string)

  /** The body the page posts; `userId` keeps the absent case the page casts away. */
  datatype OutgoingMessage = OutgoingMessage(userId: Option<string>, content: string, timestamp: string, sender: string)

  /** The JSON array of `GET /messages`, or a failed fetch or decode. */
  datatype PollReply = Fetched(messages: seq<FetchedMessage>) | FetchFailed

  /** The outcome of `POST /messages`. */
  datatype SendReply = Saved(message: FetchedMessage) | Refused | SendThrew

  /**
   * `location.state?.userId || sessionStorage.getItem("userId")`: the
   * navigation state wins when it is truthy, otherwise the session value
   * (which may be absent) is used.
   */
  function ResolveUserId(fromState: Option<string>, fromSession: Option<string>): (r: Option<string>)
    ensures Truthy(fromState) ==> r == fromState
    ensures !Truthy(fromState) ==> r == fromSession
  {
    if Truthy(fromState) then fromState else fromSession
  }

  /** The page polls and shows the chat exactly when it has a truthy user id. */
  predicate PollingStarts(userId: Option<string>) {
    Truthy(userId)
  }

  /**
   * Polling starts (and the login prompt is not shown) exactly when either
   * source provides a non-empty id, and the id used is then one of them.
   */
  lemma PollingStartsIff(fromState: Option<string>, fromSession: Option<string>)
    ensures PollingStarts(ResolveUserId(fromState, fromSession)) <==> Truthy(fromState) || Truthy(fromSession)
    ensures PollingStarts(ResolveUserId(fromState, fromSession)) ==>
      ResolveUserId(fromState, fromSession) in {fromState, fromSession}
  {
  }

  const AdminCaption := "\U{1F6CD}\U{FE0F} Admin"
  const BotCaption := "\U{1F916} Bot"

  /**
   * The sender display rule of the customer's message list: the customer's
   * own messages sit on the right without a label; all others sit on the
   * left, labelled as the admin's exactly when the admin sent them.
   */
  function BubbleFor(sender: string): (r: Bubble)
    ensures r.align == Right <==> sender == "user"
    ensures r.caption.None? <==> sender == "user"
    ensures sender != "user" ==> (r.caption == Some(AdminCaption) <==> sender == "admin")
    ensures sender != "user" && sender != "admin" ==> r.caption == Some(BotCaption)
  {
    if sender == "user" then Bubble(Right, None)
    else Bubble(Left, Some(if sender == "admin" then AdminCaption else BotCaption))
  }

  class ConversationView {
    const userId: Option<string>
    var messages: seq<FetchedMessage>
    /** The text in the message field. */
    var input: string

    constructor (fromState: Option<string>, fromSession: Option<string>)
      ensures userId == ResolveUserId(fromState, fromSession)
      ensures messages == [] && input == ""
    {
      userId := ResolveUserId(fromState, fromSession);
      messages, input := [], "";
    }

    /**
     * One tick of the polling effect: only with a user id, a decoded reply
     * replaces the list; a failure keeps the old one.
     */
    method Poll(reply: PollReply)
      modifies this
      ensures PollingStarts(userId) && reply.Fetched? ==> messages == reply.messages
      ensures !PollingStarts(userId) || reply.FetchFailed? ==> messages == old(messages)
      ensures input == old(input)
    {
      if PollingStarts(userId) && reply.Fetched? {
        messages := reply.messages;
      }
    }

    /** Typing in the message field. */
    method SetInput(text: string)
      modifies this
      ensures input == text && messages == old(messages)
    {
      input := text;
    }

    /**
     * `sendMessage`: blank input sends nothing. Otherwise the untrimmed input
     * is posted as a "user" message stamped with `timestamp`; a confirmed
     * send appends the message the server returned and clears the field, a
     * refusal raises an alert, and a network error changes nothing.
     */
    method SendMessage(timestamp: string, reply: SendReply) returns (request: Option<OutgoingMessage>, alert: Option<string>)
      modifies this
      ensures request.None? <==> IsBlank(old(input))
      ensures request.Some? ==> request.value == OutgoingMessage(userId, old(input), timestamp, "user")
      ensures request.Some? && reply.Saved? ==> messages == old(messages) + [reply.message] && input == ""
      ensures request.None? || !reply.Saved? ==> messages == old(messages) && input == old(input)
      ensures alert.Some? <==> request.Some? && reply.Refused?
      ensures alert.Some? ==> alert.value == "Message failed to send."
    {
      request, alert := None, None;
      if Trim(input) == [] {
        return;
      }
      request := Some(OutgoingMessage(userId, input, timestamp, "user"));
      match reply {
        case Saved(message) =>
          messages := messages + [message];
          input := "";
        case Refused =>
          alert := Some("Message failed to send.");
        case SendThrew =>
      }
    }
  }

  /**
   * A scenario: the id comes from the session because the navigation state
   * holds an empty one; a poll loads one message and a sent reply is appended.
   */
  method ConversationScenario()
  {
    var view := new ConversationView(Some(""), Some("u7"));
    assert view.userId == Some("u7");
    var greeting := FetchedMessage("u7", "Welcome", "t0", "bot", "user");
    view.Poll(Fetched([greeting]));
    assert view.messages == [greeting];
    view.SetInput("  ");
    var request, alert := view.SendMessage("t1", SendThrew);
    assert request == None by { assert IsBlank("  "); }
    view.SetInput("hi");
    var echo := FetchedMessage("u7", "hi", "t2", "user", "admin");
    assert !IsBlank("hi") by { assert !IsSpace("hi"[0]); }
    request, alert := view.SendMessage("t2", Saved(echo));
    assert request == Some(OutgoingMessage(Some("u7"), "hi", "t2", "user"));
    assert view.messages == [greeting, echo] && view.input == "";
  }
}
