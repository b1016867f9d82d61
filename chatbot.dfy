/**
 * The citizen site's assistant (frontend/src/components/Chatbot.jsx): an
 * ordered keyword reply, and a conversation to which every send appends the
 * user's message at once and the reply when its timer fires. The 1.2 s
 * timers are a queue of inputs awaiting their reply.
 */
module Chatbot {
  import opened Text

  const GREETING: string := "Hi! I'm CivicBot. How can I assist you today?"
  const REPORT_REPLY: string := "You can report an issue via the 'Create Report' page."
  const STATUS_REPLY: string := "Track your issue in the 'My Reports' section."
  const LOCATION_REPLY: string := "Make sure location is enabled in your browser."
  const HELP_REPLY: string := "You can ask me about reporting, tracking, or contact info."
  const FALLBACK_REPLY: string := "Sorry, I didn't quite get that. Try asking about report, status, or help."

  const BOT: string := "bot"
  const USER: string := "user"

  /**
   * getBotReply: the lower-cased input is searched for "report", "status",
   * "location" and "help" in that order; the first hit decides.
   */
  function BotReply(input: string): (reply: string)
    ensures Contains(Lower(input), "report") ==> reply == REPORT_REPLY
    ensures !Contains(Lower(input), "report") && Contains(Lower(input), "status") ==> reply == STATUS_REPLY
    ensures (!Contains(Lower(input), "report") && !Contains(Lower(input), "status")
             && Contains(Lower(input), "location")) ==> reply == LOCATION_REPLY
    ensures (!Contains(Lower(input), "report") && !Contains(Lower(input), "status")
             && !Contains(Lower(input), "location") && Contains(Lower(input), "help")) ==> reply == HELP_REPLY
    ensures reply == FALLBACK_REPLY <==>
              !Contains(Lower(input), "report") && !Contains(Lower(input), "status")
              && !Contains(Lower(input), "location") && !Contains(Lower(input), "help")
  {
    var lower := Lower(input);
    if Contains(lower, "report") then REPORT_REPLY
    else if Contains(lower, "status") then STATUS_REPLY
    else if Contains(lower, "location") then LOCATION_REPLY
    else if Contains(lower, "help") then HELP_REPLY
    else FALLBACK_REPLY
  }

  /** The fallback suggests asking about "report"; typing it back is answered with the report reply. */
  lemma {:induction false} FallbackNamesAKeyword(input: string)
    requires input == FALLBACK_REPLY
    ensures BotReply(input) == REPORT_REPLY
  {
    var lower := Lower(input);
    var i := 49;
    assert input[i] == 'r' && input[i + 1] == 'e' && input[i + 2] == 'p';
    assert input[i + 3] == 'o' && input[i + 4] == 'r' && input[i + 5] == 't';
    assert lower[i..i + 6] == "report";
    assert OccursAt(lower, "report", i);
  }

  /** "Help!" is answered with the help text: none of the three earlier keywords occurs in it. */
  lemma HelpAnswered(input: string)
    requires input == "Help!"
    ensures BotReply(input) == HELP_REPLY
  {
    var lower := Lower(input);
    assert lower == "help!";
    AbsentChar(lower, "report", 0);
    AbsentChar(lower, "status", 0);
    AbsentChar(lower, "location", 1);
    assert OccursAt(lower, "help", 0);
  }

  datatype ChatMessage = ChatMessage(sender: string, text: string)

  /** How many messages in the conversation come from the sender. */
  function CountFrom(messages: seq<ChatMessage>, sender: string): (n: nat)
    ensures n <= |messages|
  {
    if messages == [] then 0
    else CountFrom(messages[..|messages| - 1], sender) + (if messages[|messages| - 1].sender == sender then 1 else 0)
  }

  class Conversation {
    var messages: seq<ChatMessage>
    var input: string
    var typing: bool
    /** The inputs whose reply timer has not fired yet, oldest first. */
    var pending: seq<string>

    /** Every user message is answered, or waits for its reply; the greeting is the one extra bot message. */
    ghost predicate Valid()
      reads this
    {
      CountFrom(messages, USER) + 1 == CountFrom(messages, BOT) + |pending|
    }

    constructor ()
      ensures Valid()
      ensures messages == [ChatMessage(BOT, GREETING)] && input == "" && !typing && pending == []
    {
      messages := [ChatMessage(BOT, GREETING)];
      input := "";
      typing := false;
      pending := [];
      new;
      assert messages[..0] == [];
    }

    method Type(t: string)
      modifies this
      requires Valid()
      ensures Valid()
      ensures input == t && messages == old(messages) && typing == old(typing) && pending == old(pending)
    {
      input := t;
    }

    /**
     * handleSend: whitespace-only input is ignored; otherwise the user's
     * message is appended, the input cleared, the typing indicator shown and
     * a reply to that input scheduled.
     */
    method HandleSend()
      modifies this
      requires Valid()
      ensures Valid()
      ensures Trim(old(input)) == "" ==> messages == old(messages) && input == old(input)
                                         && typing == old(typing) && pending == old(pending)
      ensures Trim(old(input)) != "" ==>
                && messages == old(messages) + [ChatMessage(USER, old(input))]
                && input == "" && typing && pending == old(pending) + [old(input)]
    {
      if Trim(input) == "" {
        return;
      }
      AppendCount(messages, ChatMessage(USER, input), USER);
      AppendCount(messages, ChatMessage(USER, input), BOT);
      messages := messages + [ChatMessage(USER, input)];
      pending := pending + [input];
      input := "";
      typing := true;
    }

    /** The oldest scheduled timer fires: its reply is appended and the indicator hidden. */
    method DeliverReply()
      modifies this
      requires Valid() && pending != []
      ensures Valid()
      ensures messages == old(messages) + [ChatMessage(BOT, BotReply(old(pending)[0]))]
      ensures pending == old(pending)[1..] && !typing && input == old(input)
    {
      var reply := ChatMessage(BOT, BotReply(pending[0]));
      AppendCount(messages, reply, USER);
      AppendCount(messages, reply, BOT);
      messages := messages + [reply];
      pending := pending[1..];
      typing := false;
    }
  }

  lemma AppendCount(messages: seq<ChatMessage>, m: ChatMessage, sender: string)
    ensures CountFrom(messages + [m], sender) == CountFrom(messages, sender) + (if m.sender == sender then 1 else 0)
  {
    assert (messages + [m])[..|messages|] == messages;
  }

  /** A send followed by its timer adds the user's message and then its reply. */
  method AskOnce(question: string) returns (conversation: seq<ChatMessage>)
    requires Trim(question) != ""
    ensures conversation == [ChatMessage(BOT, GREETING), ChatMessage(USER, question), ChatMessage(BOT, BotReply(question))]
  {
    var c := new Conversation();
    c.Type(question);
    c.HandleSend();
    c.DeliverReply();
    conversation := c.messages;
  }
}
