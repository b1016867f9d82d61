/**
 * The live chat panel of the department dashboard
 * (department-dashboard/src/components/ChatWindow.jsx): the sender label,
 * sending, receiving with the echo of one's own messages dropped, and the
 * replacement by a loaded history. The socket is a log of emitted messages.
 */
module ChatWindow {
  import opened Wrappers
  import opened Text

  const DEPARTMENT_ROLE: string := "department"
  const CITIZEN_LABEL: string := "Citizen"

  /** The signed-in user as the panel sees it; a missing name is "". */
  datatype ChatUser = ChatUser(role: string, name: string)

  datatype Message = Message(roomId: string, sender: string, text: string)

  /**
   * getSenderName: a department signs with its own name; anyone else as
   * "Citizen (name)" when a name is known, or plain "Citizen".
   */
  function SenderName(user: Option<ChatUser>): (name: string)
    ensures user.Some? && user.value.role == DEPARTMENT_ROLE ==> name == user.value.name
    ensures !(user.Some? && user.value.role == DEPARTMENT_ROLE) ==> StartsWith(name, CITIZEN_LABEL)
    ensures user.None? ==> name == CITIZEN_LABEL
  {
    if user.Some? && user.value.role == DEPARTMENT_ROLE then user.value.name
    else if user.Some? && user.value.name != "" then CITIZEN_LABEL + " (" + user.value.name + ")"
    else CITIZEN_LABEL
  }

  /** Two named citizens share a label exactly when they share a name. */
  lemma CitizenLabelInjective(a: ChatUser, b: ChatUser)
    requires a.role != DEPARTMENT_ROLE && b.role != DEPARTMENT_ROLE
    requires a.name != "" && b.name != ""
    ensures SenderName(Some(a)) == SenderName(Some(b)) <==> a.name == b.name
  {
    var la, lb := SenderName(Some(a)), SenderName(Some(b));
    if la == lb {
      assert |a.name| == |b.name|;
      forall i | 0 <= i < |a.name| ensures a.name[i] == b.name[i] {
        assert la[|CITIZEN_LABEL| + 2 + i] == a.name[i];
        assert lb[|CITIZEN_LABEL| + 2 + i] == b.name[i];
      }
    }
  }

  /**
   * The de-duplication drops a message from another person whose label is
   * the same: a department account named like a citizen's label is not
   * heard by that citizen.
   */
  lemma LabelCollisionDropsMessage(citizen: ChatUser, department: ChatUser)
    requires citizen.role != DEPARTMENT_ROLE && citizen.name != ""
    requires department.role == DEPARTMENT_ROLE && department.name == CITIZEN_LABEL + " (" + citizen.name + ")"
    ensures SenderName(Some(department)) == SenderName(Some(citizen))
  {
  }

  class ChatPanel {
    const chatId: string
    const user: Option<ChatUser>
    var messages: seq<Message>
    var text: string
    /** The messages emitted with "sendMessage", oldest first. */
    var emitted: seq<Message>

    constructor (chatId: string, user: Option<ChatUser>)
      ensures this.chatId == chatId && this.user == user
      ensures messages == [] && text == "" && emitted == []
    {
      this.chatId := chatId;
      this.user := user;
      messages := [];
      text := "";
      emitted := [];
    }

    /** The input's onChange. */
    method Type(t: string)
      modifies this
      ensures text == t && messages == old(messages) && emitted == old(emitted)
    {
      text := t;
    }

    /**
     * sendMessage: whitespace-only input is ignored; otherwise one message
     * with the room, the local label and the text as typed is shown locally
     * and emitted, and the input is cleared.
     */
    method SendMessage()
      modifies this
      ensures Trim(old(text)) == "" ==> messages == old(messages) && emitted == old(emitted) && text == old(text)
      ensures Trim(old(text)) != "" ==>
                var msg := Message(chatId, SenderName(user), old(text));
                && messages == old(messages) + [msg]
                && emitted == old(emitted) + [msg]
                && text == ""
    {
      if Trim(text) == "" {
        return;
      }
      var msg := Message(chatId, SenderName(user), text);
      messages := messages + [msg];
      emitted := emitted + [msg];
      text := "";
    }

    /** handleReceiveMessage: appended unless it carries the local label. */
    method ReceiveMessage(msg: Message)
      modifies this
      ensures messages == old(messages) + (if msg.sender != SenderName(user) then [msg] else [])
      ensures text == old(text) && emitted == old(emitted)
    {
      if msg.sender != SenderName(user) {
        messages := messages + [msg];
      }
    }

    /** loadMessages: the history replaces whatever was shown. */
    method LoadMessages(history: seq<Message>)
      modifies this
      ensures messages == history
      ensures text == old(text) && emitted == old(emitted)
    {
      messages := history;
    }
  }

  /**
   * A message sent and then relayed back by the server is shown once: the
   * local copy stays, the echo is dropped.
   */
  method SendThenEcho(chatId: string, user: Option<ChatUser>, typed: string) returns (shown: seq<Message>)
    requires Trim(typed) != ""
    ensures shown == [Message(chatId, SenderName(user), typed)]
  {
    var panel := new ChatPanel(chatId, user);
    panel.Type(typed);
    panel.SendMessage();
    var echo := panel.emitted[0];
    panel.ReceiveMessage(echo);
    shown := panel.messages;
  }

  /** Whitespace-only input sends nothing and shows nothing. */
  method BlankInputSendsNothing(chatId: string, user: Option<ChatUser>, typed: string) returns (shown: seq<Message>)
    requires AllSpace(typed)
    ensures shown == []
  {
    var panel := new ChatPanel(chatId, user);
    panel.Type(typed);
    panel.SendMessage();
    shown := panel.messages;
  }
}
