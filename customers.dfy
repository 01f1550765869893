/**
 * The admin customer-support chat: the selected user, the message list and
 * the bot flag mirrored from the server, with the poll, send and bot-toggle
 * handlers. Each server reply is an input of the handler that awaits it.
 */
module CustomerSupport {
  import opened Text
  import opened Optional
  import opened Display

  datatype User = User(id: int, name: string)

  datatype Message = Message(sender: string, content: string, timestamp: string)

  /**
   * The outcome of `GET /api/admin/chats/{id}` and its JSON decoding.
   * `fetch` does not fail on a non-2xx status, so any reply whose body
   * decodes to an object is a `Snapshot` (a `null` body throws on
   * `data.messages` and is `SnapshotFailed`); `messages` is None when the field is absent or
   * falsy, `botEnabled` None when it is absent or null.
   */
  datatype SnapshotReply =
    | Snapshot(messages: Option<seq<Message>>, botEnabled: Option<bool>)
    | SnapshotFailed

  /** The JSON body of `POST /api/admin/send_message/{id}`. */
  datatype SendRequest = SendRequest(userId: int, content: string, sender: string, receiver: string, timestamp: string)

  /**
   * The sender display rule of the message list: user messages sit on the
   * left without a label; every other message sits on the right, labelled
   * "Admin" exactly for the admin and "Bot" otherwise.
   */
  function BubbleFor(sender: string): (r: Bubble)
    ensures r.align == Left <==> sender == "user"
    ensures r.caption.None? <==> sender == "user"
    ensures sender != "user" ==> (r.caption == Some("Admin") <==> sender == "admin")
    ensures sender != "user" && sender != "admin" ==> r.caption == Some("Bot")
  {
    if sender == "user" then Bubble(Left, None)
    else Bubble(Right, Some(if sender == "admin" then "Admin" else "Bot"))
  }

  class SupportChat {
    var selectedUser: Option<User>
    var messages: seq<Message>
    /** The mirrored bot flag; None (`null`) means unknown. */
    var botEnabled: Option<bool>
    /** The text in the message field. */
    var input: string

    /** Without a selected user nothing has been fetched. */
    ghost predicate Valid()
      reads this
    {
      selectedUser.None? ==> messages == [] && botEnabled.None?
    }

    constructor ()
      ensures Valid()
      ensures selectedUser.None? && messages == [] && botEnabled.None? && input == ""
    {
      selectedUser, messages, botEnabled, input := None, [], None, "";
    }

    /**
     * The bot toggle is rendered only for a selected user with a known flag;
     * since nothing is fetched without a user, that is exactly when the flag
     * is known.
     */
    predicate ToggleShown()
      reads this
      ensures Valid() ==> (ToggleShown() <==> botEnabled.Some?)
    {
      selectedUser.Some? && botEnabled.Some?
    }

    /**
     * The `then`/`catch` of one snapshot fetch: a decoded body replaces the
     * list wholesale (an absent list is empty) and sets the flag (absent is
     * false); a failure clears the list and makes the flag unknown.
     */
    method ApplySnapshot(reply: SnapshotReply)
      requires Valid() && selectedUser.Some?
      modifies this
      ensures Valid()
      ensures selectedUser == old(selectedUser) && input == old(input)
      ensures reply.Snapshot? ==> messages == reply.messages.GetOr([]) && botEnabled == Some(reply.botEnabled.GetOr(false))
      ensures reply.SnapshotFailed? ==> messages == [] && botEnabled == None
    {
      match reply {
        case Snapshot(list, flag) =>
          messages := list.GetOr([]);
          botEnabled := Some(flag.GetOr(false));
        case SnapshotFailed =>
          messages := [];
          botEnabled := None;
      }
    }

    /** `handleUserClick`: selects the user and applies the reply to its fetch. */
    method SelectUser(user: User, reply: SnapshotReply)
      requires Valid()
      modifies this
      ensures Valid()
      ensures selectedUser == Some(user) && input == old(input)
      ensures reply.Snapshot? ==> messages == reply.messages.GetOr([]) && botEnabled == Some(reply.botEnabled.GetOr(false))
      ensures reply.SnapshotFailed? ==> messages == [] && botEnabled == None
    {
      selectedUser := Some(user);
      ApplySnapshot(reply);
    }

    /** One tick of the polling effect, which does nothing while no user is selected. */
    method Poll(reply: SnapshotReply)
      requires Valid()
      modifies this
      ensures Valid()
      ensures selectedUser == old(selectedUser) && input == old(input)
      ensures old(selectedUser).None? ==> messages == old(messages) && botEnabled == old(botEnabled)
      ensures old(selectedUser).Some? && reply.Snapshot? ==>
        messages == reply.messages.GetOr([]) && botEnabled == Some(reply.botEnabled.GetOr(false))
      ensures old(selectedUser).Some? && reply.SnapshotFailed? ==> messages == [] && botEnabled == None
    {
      if selectedUser.Some? {
        ApplySnapshot(reply);
      }
    }

    /** Typing in the message field. */
    method SetInput(text: string)
      modifies this
      ensures input == text
      ensures selectedUser == old(selectedUser) && messages == old(messages) && botEnabled == old(botEnabled)
    {
      input := text;
    }

    /**
     * The send form's submit handler. `ok` is whether the POST succeeded and
     * `timestamp` the clock reading it sends. Blank input or no selected user
     * sends nothing; a success appends the sent message and clears the field;
     * a failure changes nothing and raises an alert.
     */
    method SendMessage(ok: bool, timestamp: string) returns (request: Option<SendRequest>, alert: Option<string>)
      requires Valid()
      modifies this
      ensures Valid()
      ensures request.None? <==> IsBlank(old(input)) || old(selectedUser).None?
      ensures request.Some? ==>
        request.value == SendRequest(old(selectedUser).value.id, Trim(old(input)), "admin", "user", timestamp)
      ensures request.Some? && ok ==>
        && messages == old(messages) + [Message("admin", Trim(old(input)), timestamp)]
        && input == "" && alert == None
      ensures request.None? || !ok ==> messages == old(messages) && input == old(input)
      ensures request.Some? && !ok ==> alert == Some("Failed to send message")
      ensures request.None? ==> alert == None
      ensures selectedUser == old(selectedUser) && botEnabled == old(botEnabled)
    {
      request, alert := None, None;
      var message := Trim(input);
      if message == [] || selectedUser.None? {
        return;
      }
      request := Some(SendRequest(selectedUser.value.id, message, "admin", "user", timestamp));
      if !ok {
        alert := Some("Failed to send message");
        return;
      }
      messages := messages + [Message("admin", message, timestamp)];
      input := "";
    }

    /**
     * The bot toggle's click handler. It requests the negation of the
     * current flag (`!null` is true) and commits it only when the server
     * confirms; otherwise the flag keeps its value and an alert is raised.
     */
    method ToggleBot(ok: bool) returns (requested: Option<bool>, alert: Option<string>)
      requires Valid()
      modifies this
      ensures Valid()
      ensures requested.None? <==> old(selectedUser).None?
      ensures requested.None? ==> alert == None
      ensures requested.Some? ==> requested.value == (old(botEnabled) != Some(true))
      ensures requested.Some? && ok ==> botEnabled == requested && alert == None
      ensures requested.None? || !ok ==> botEnabled == old(botEnabled)
      ensures requested.Some? && !ok ==> alert == Some("Failed to update bot status")
      ensures selectedUser == old(selectedUser) && messages == old(messages) && input == old(input)
    {
      requested, alert := None, None;
      if selectedUser.None? {
        return;
      }
      var newBotStatus := botEnabled != Some(true);
      requested := Some(newBotStatus);
      if ok {
        botEnabled := Some(newBotStatus);
      } else {
        alert := Some("Failed to update bot status");
      }
    }
  }

  /**
   * A scenario: select user 42, whose chat holds one user message with the bot
   * on; switch the bot off; send "hello"; the next poll fails.
   */
  method SupportScenario()
  {
    var chat := new SupportChat();
    var hi := Message("user", "hi", "2024-01-01T00:00:00Z");
    chat.SelectUser(User(42, "Ram"), Snapshot(Some([hi]), Some(true)));
    assert chat.messages == [hi] && chat.ToggleShown() && chat.botEnabled == Some(true);
    var requested, alert := chat.ToggleBot(true);
    assert requested == Some(false) && chat.botEnabled == Some(false);
    chat.SetInput("hello");
    TrimUnpadded("hello");
    assert !IsBlank("hello") by { assert !IsSpace("hello"[0]); }
    var request;
    request, alert := chat.SendMessage(true, "t1");
    assert chat.messages == [hi, Message("admin", "hello", "t1")] && chat.input == "";
    chat.Poll(SnapshotFailed);
    assert chat.messages == [] && !chat.ToggleShown();
  }
}
